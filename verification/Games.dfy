/** The live game on the heap: game/game.go. Sessions are shared between the game's map and its leaderboard. */
module Games {
  import opened Collections
  import opened Words
  import opened Scoring
  import opened Leaderboard
  import opened GameModel

  /** One player's progress. */
  class Session {
    const player: Player
    var bestGuess: Option<Word>
    var wordsCount: int
    var guesses: seq<Word>

    constructor (player: Player)
      ensures this.player == player
      ensures State() == SessionState(player, [], None, 0)
    {
      this.player := player;
      bestGuess, wordsCount, guesses := None, 0, [];
    }

    ghost function State(): SessionState
      reads this
    {
      SessionState(player, guesses, bestGuess, wordsCount)
    }

    function BestGuess(): (w: Word)
      reads this
      ensures w == State().BestGuess()
    {
      if bestGuess.None? then ZERO_WORD else bestGuess.value
    }

    predicate GreaterThan(other: Session)
      reads this, other
    {
      BestGuess().GreaterThan(other.BestGuess())
    }

    predicate Won()
      reads this
      ensures Won() == State().Won()
    {
      if |guesses| == 0 then false else BestGuess().IsCorrect()
    }

    predicate CanPlay()
      reads this
      ensures CanPlay() == State().CanPlay()
    {
      |guesses| < MAX_GUESSES
    }

    predicate Ended()
      reads this
      ensures Ended() == State().Ended()
    {
      |guesses| == MAX_GUESSES || Won()
    }

    method SetWordsCount(x: int)
      modifies this
      ensures State() == old(State()).(wordsCount := x)
    {
      wordsCount := x;
    }

    method Play(w: Word) returns (isBest: bool)
      modifies this
      ensures State() == old(State()).Play(w)
      ensures isBest == old(State()).IsBest(w)
    {
      guesses := guesses + [w];
      if bestGuess.None? {
        bestGuess := Some(w);
        return true;
      }
      if w.GreaterThan(BestGuess()) {
        bestGuess := Some(w);
        return true;
      }
      return false;
    }

    /** Replays the guesses to recompute the best one. */
    method Resync()
      modifies this
      ensures State() == old(State()).Resync()
    {
      var wrds := guesses;
      guesses := [];
      bestGuess := None;
      for i := 0 to |wrds|
        invariant State() == old(State()).(guesses := wrds[..i], best := Replay(wrds[..i]))
      {
        assert wrds[..i + 1][..i] == wrds[..i];
        var _ := Play(wrds[i]);
      }
      assert wrds[..|wrds|] == wrds;
    }
  }

  function Names(sessions: seq<Session>): (names: seq<string>)
    ensures |names| == |sessions|
  {
    seq(|sessions|, i requires 0 <= i < |sessions| => sessions[i].player.username)
  }

  ghost function BestsOf(sessions: seq<Session>): (ws: seq<Word>)
    reads sessions
    ensures |ws| == |sessions|
  {
    seq(|sessions|, i requires 0 <= i < |sessions| reads sessions => sessions[i].State().BestGuess())
  }

  /** The best guesses of the sessions at some point; they stay what they are while only the board changes. */
  ghost function Snapshot(sessions: seq<Session>): map<Session, Word>
    reads sessions
  {
    map s | s in sessions :: s.BestGuess()
  }

  ghost predicate StillHolds(best: map<Session, Word>)
    reads best.Keys
  {
    forall s :: s in best ==> s.BestGuess() == best[s]
  }

  ghost function WordsOf(best: map<Session, Word>, sessions: seq<Session>): (ws: seq<Word>)
    requires forall i :: 0 <= i < |sessions| ==> sessions[i] in best
    ensures |ws| == |sessions|
  {
    seq(|sessions|, i requires 0 <= i < |sessions| => best[sessions[i]])
  }

  lemma SnapshotWords(best: map<Session, Word>, sessions: seq<Session>)
    requires StillHolds(best) && forall i :: 0 <= i < |sessions| ==> sessions[i] in best
    ensures BestsOf(sessions) == WordsOf(best, sessions)
  {
  }

  /** `positions` says where each name stands. */
  predicate IsInverse(positions: map<string, int>, names: seq<string>) {
    && positions.Keys == Elements(names)
    && forall i :: 0 <= i < |names| ==> names[i] in positions && positions[names[i]] == i
  }

  lemma SameElements(a: seq<Session>, b: seq<Session>)
    requires Elements(a) == Elements(b)
    ensures forall s :: s in a ==> s in b
  {
    forall s | s in a ensures s in b { assert s in Elements(a); }
  }

  lemma NamesRotated(s: seq<Session>, p: nat, i: nat)
    requires p <= i < |s|
    ensures Names(Rotate(s, p, i)) == Rotate(Names(s), p, i)
  {
  }

  class RankBoard {
    var positions: map<string, int>
    const ranks: array<Session>

    constructor (ranks: array<Session>, positions: map<string, int>)
      ensures this.ranks == ranks && this.positions == positions
    {
      this.ranks, this.positions := ranks, positions;
    }

    ghost predicate Valid()
      reads this, ranks
    {
      NoDuplicates(Names(ranks[..])) && IsInverse(positions, Names(ranks[..]))
    }

    /** Bubbles the player's entry up past every entry it beats and says how many that were. */
    method FixPosition(username: string) returns (moves: nat)
      requires Valid()
      modifies this, ranks
      ensures Valid()
      ensures username !in old(positions) ==> moves == 0 && ranks[..] == old(ranks[..])
      ensures username in old(positions) ==>
        var i := old(positions[username]);
        var p := Climb(old(BestsOf(ranks[..])), i);
        ranks[..] == Rotate(old(ranks[..]), p, i) && moves == i - p
    {
      moves := 0;
      var index := if username in positions then positions[username] else 0;
      PositionIsIndex(positions, Names(ranks[..]), username);
      if ranks.Length > 0 { moves := BubbleUp(index); }
    }

    /** The player's position is by so many places better than it was. */
    predicate Gained(was: map<string, int>, username: string, places: int)
      reads this
    {
      username in was && username in positions && places == was[username] - positions[username]
    }

    lemma RisenByMoves(was: seq<Session>, index: nat, moves: nat)
      requires Valid() && moves <= index < |was| && ranks[..] == Rotate(was, index - moves, index)
      ensures var u := was[index].player.username; u in positions && positions[u] == index - moves
    {
      assert Names(ranks[..])[index - moves] == was[index].player.username;
    }

    /** The loop of FixPosition, from a position on the board. */
    method BubbleUp(index: nat) returns (moves: nat)
      requires Valid() && index < ranks.Length
      modifies this, ranks
      ensures Valid()
      ensures moves == index - Climb(old(BestsOf(ranks[..])), index)
      ensures ranks[..] == Rotate(old(ranks[..]), index - moves, index)
    {
      ghost var best := Snapshot(ranks[..]);
      SnapshotWords(best, ranks[..]);
      moves := Bubble(index, best);
    }

    method Bubble(index: nat, ghost best: map<Session, Word>) returns (moves: nat)
      requires Valid() && index < ranks.Length
      requires StillHolds(best) && forall k :: 0 <= k < ranks.Length ==> ranks[k] in best
      modifies this, ranks
      ensures Valid()
      ensures moves == index - Climb(WordsOf(best, old(ranks[..])), index)
      ensures ranks[..] == Rotate(old(ranks[..]), index - moves, index)
    {
      moves := 0;
      ghost var before := ranks[..];
      ghost var p := Climb(WordsOf(best, before), index);
      var i := index;
      while i > 0
        invariant p <= i <= index && moves == index - i
        invariant Risen(before, best, i, index)
      {
        var above := Rise(before, best, p, i, index);
        if !above { break; }
        moves := moves + 1;
        i := i - 1;
      }
    }

    /** The entry at `index` has risen to `i`. */
    ghost predicate Risen(before: seq<Session>, best: map<Session, Word>, i: nat, index: nat)
      requires i <= index < |before|
      reads this, ranks, best.Keys
    {
      Valid() && StillHolds(best) && ranks[..] == Rotate(before, i, index)
    }

    /** One turn of the loop: the entry passes the one above it, or has reached its place `p`. */
    method Rise(ghost before: seq<Session>, ghost best: map<Session, Word>, ghost p: nat, i: nat, ghost index: nat)
      returns (above: bool)
      requires p <= i <= index < |before| == ranks.Length && 0 < i
      requires (forall k :: 0 <= k < |before| ==> before[k] in best) && p == Climb(WordsOf(best, before), index)
      requires Risen(before, best, i, index)
      modifies this, ranks
      ensures above <==> p < i
      ensures Risen(before, best, if above then i - 1 else i, index)
    {
      ClimbStops(WordsOf(best, before), index, i);
      assert before[index] in best && before[i - 1] in best;
      above := TrySwap(before, i, index);
    }

    /** Lets the entry at `i` pass the one above it if it beats it. */
    method TrySwap(ghost before: seq<Session>, i: nat, ghost index: nat) returns (above: bool)
      requires 0 < i <= index < ranks.Length == |before|
      requires ranks[..] == Rotate(before, i, index) && Valid()
      modifies this, ranks
      ensures Valid() && above == before[index].GreaterThan(before[i - 1])
      ensures ranks[..] == Rotate(before, if above then i - 1 else i, index)
    {
      var curr, prev := ranks[i], ranks[i - 1];
      assert curr == ranks[..][i] && prev == ranks[..][i - 1];
      BubbleStep(before, ranks[..], positions, i, index);
      above := curr.GreaterThan(prev);
      if above { SwapUp(i); }
    }

    /** One step up: the two entries and their positions trade places. */
    method SwapUp(i: nat)
      requires 0 < i < ranks.Length
      modifies this, ranks
      ensures ranks[..] == old(ranks[..])[i - 1 := old(ranks[i])][i := old(ranks[i - 1])]
      ensures positions == old(positions)[old(ranks[i]).player.username := i - 1][old(ranks[i - 1]).player.username := i]
    {
      var curr, prev := ranks[i], ranks[i - 1];
      ranks[i - 1], ranks[i] := curr, prev;
      positions := positions[curr.player.username := i - 1];
      positions := positions[prev.player.username := i];
    }

    /** Sorts the board by best guess and numbers the positions. */
    method Resync()
      requires NoDuplicates(Names(ranks[..])) && positions.Keys == Elements(Names(ranks[..]))
      modifies this, ranks
      ensures Valid()
      ensures Elements(ranks[..]) == Elements(old(ranks[..]))
      ensures Timed(BestsOf(ranks[..])) ==> Ordered(BestsOf(ranks[..]))
    {
      ghost var before := ranks[..];
      SortSlice(ranks);
      NamesFollowElements(ranks[..], before);
      Renumber();
    }

    method Renumber()
      requires NoDuplicates(Names(ranks[..])) && positions.Keys == Elements(Names(ranks[..]))
      modifies this
      ensures Valid()
    {
      ghost var names := Names(ranks[..]);
      for i := 0 to ranks.Length
        invariant names == Names(ranks[..])
        invariant positions.Keys == Elements(names)
        invariant forall k :: 0 <= k < i ==> names[k] in positions && positions[names[k]] == k
      {
        assert names[i] in Elements(names);
        positions := positions[ranks[i].player.username := i];
      }
    }
  }

  lemma PositionIsIndex(positions: map<string, int>, names: seq<string>, u: string)
    requires NoDuplicates(names) && IsInverse(positions, names)
    ensures u in positions <==> u in names
    ensures u in positions ==> positions[u] == IndexOf(names, u)
  {
    if u in positions {
      assert u in Elements(names);
    } else {
      assert u !in Elements(names);
    }
  }

  /** One swap of FixPosition's loop. */
  lemma BubbleStep(before: seq<Session>, now: seq<Session>, positions: map<string, int>, i: nat, index: nat)
    requires 0 < i <= index < |before| && now == Rotate(before, i, index)
    requires NoDuplicates(Names(now)) && IsInverse(positions, Names(now))
    ensures now[i] == before[index] && now[i - 1] == before[i - 1]
    ensures var next := now[i - 1 := now[i]][i := now[i - 1]];
      && next == Rotate(before, i - 1, index)
      && NoDuplicates(Names(next))
      && IsInverse(positions[now[i].player.username := i - 1][now[i - 1].player.username := i], Names(next))
  {
    var names := Names(now);
    SwapKeepsInverse(positions, names, i);
    var next := now[i - 1 := now[i]][i := now[i - 1]];
    assert Names(next) == names[i - 1 := names[i]][i := names[i - 1]];
    assert next == Rotate(before, i - 1, index);
  }

  lemma SwapKeepsInverse(positions: map<string, int>, names: seq<string>, i: nat)
    requires NoDuplicates(names) && IsInverse(positions, names) && 0 < i < |names|
    ensures var swapped := names[i - 1 := names[i]][i := names[i - 1]];
      NoDuplicates(swapped) && IsInverse(positions[names[i] := i - 1][names[i - 1] := i], swapped)
  {
    var swapped := names[i - 1 := names[i]][i := names[i - 1]];
    forall x ensures x in swapped <==> x in names {
      if x in names {
        var k :| 0 <= k < |names| && names[k] == x;
        assert swapped[if k == i then i - 1 else if k == i - 1 then i else k] == x;
      }
    }
    assert names[i] in names && names[i - 1] in names;
  }

  lemma NamesFollowElements(a: seq<Session>, b: seq<Session>)
    requires Elements(a) == Elements(b)
    ensures Elements(Names(a)) == Elements(Names(b))
  {
    NamesIncluded(a, b);
    NamesIncluded(b, a);
  }

  lemma NamesIncluded(a: seq<Session>, b: seq<Session>)
    requires Elements(a) <= Elements(b)
    ensures Elements(Names(a)) <= Elements(Names(b))
  {
    forall x | x in Names(a) ensures x in Names(b) {
      var k :| 0 <= k < |a| && Names(a)[k] == x;
      assert a[k] in Elements(a);
      var j :| 0 <= j < |b| && b[j] == a[k];
      assert Names(b)[j] == x;
    }
  }

  /** The library sort, here by insertion as it sorts short slices: only what `ensures` says is relied on. */
  method SortSlice(a: array<Session>)
    requires NoDuplicates(Names(a[..]))
    modifies a
    ensures NoDuplicates(Names(a[..])) && Elements(a[..]) == Elements(old(a[..]))
    ensures Timed(BestsOf(a[..])) ==> Ordered(BestsOf(a[..]))
  {
    ghost var best := Snapshot(a[..]);
    InsertAll(a, best);
    SnapshotWords(best, a[..]);
    assert WordsOf(best, a[..])[..a.Length] == WordsOf(best, a[..]);
  }

  method InsertAll(a: array<Session>, ghost best: map<Session, Word>)
    requires StillHolds(best) && SortedUpTo(best, a[..], 0)
    modifies a
    ensures StillHolds(best) && SortedUpTo(best, a[..], a.Length)
  {
    for n := 0 to a.Length
      invariant StillHolds(best) && SortedUpTo(best, a[..], n)
    {
      Insert(a, n, best);
    }
  }

  method Insert(a: array<Session>, n: nat, ghost best: map<Session, Word>)
    requires n < a.Length && StillHolds(best) && SortedUpTo(best, a[..], n)
    modifies a
    ensures StillHolds(best) && SortedUpTo(best, a[..], n + 1)
  {
    InsertionKeeps(best, a[..], n);
    InsertLast(a, n, best);
  }

  method InsertLast(a: array<Session>, n: nat, ghost best: map<Session, Word>)
    requires n < a.Length && StillHolds(best) && forall k :: 0 <= k < a.Length ==> a[k] in best
    modifies a
    ensures a[..] == Rotate(old(a[..]), Climb(WordsOf(best, old(a[..])), n), n)
  {
    ghost var before := a[..];
    ghost var p := Climb(WordsOf(best, before), n);
    var j := n;
    while j > 0
      invariant p <= j <= n
      invariant a[..] == Rotate(before, j, n)
    {
      var above := SwapIfAbove(a, j, before, n, best);
      if !above { break; }
      j := j - 1;
    }
  }

  method SwapIfAbove(a: array<Session>, j: nat, ghost before: seq<Session>, ghost n: nat, ghost best: map<Session, Word>)
    returns (above: bool)
    requires 0 < j <= n < a.Length == |before| && a[..] == Rotate(before, j, n)
    requires StillHolds(best) && forall k :: 0 <= k < |before| ==> before[k] in best
    requires Climb(WordsOf(best, before), n) <= j
    modifies a
    ensures above <==> Climb(WordsOf(best, before), n) < j
    ensures a[..] == Rotate(before, if above then j - 1 else j, n)
  {
    ClimbStops(WordsOf(best, before), n, j);
    assert a[j] == a[..][j] == before[n] && a[j - 1] == a[..][j - 1] == before[j - 1];
    assert before[n] in best && before[j - 1] in best;
    above := a[j].GreaterThan(a[j - 1]);
    if above { a[j - 1], a[j] := a[j], a[j - 1]; }
  }

  /** The same sessions, each once, the first `n` in order if their times allow one. */
  ghost predicate SortedUpTo(best: map<Session, Word>, now: seq<Session>, n: nat)
    requires n <= |now|
  {
    && NoDuplicates(Names(now)) && Elements(now) == best.Keys && (forall k :: 0 <= k < |now| ==> now[k] in best)
    && (Timed(WordsOf(best, now)) ==> Ordered(WordsOf(best, now)[..n]))
  }

  lemma InsertionKeeps(best: map<Session, Word>, now: seq<Session>, n: nat)
    requires n < |now| && SortedUpTo(best, now, n)
    ensures SortedUpTo(best, Rotate(now, Climb(WordsOf(best, now), n), n), n + 1)
  {
    var ws := WordsOf(best, now);
    var p := Climb(ws, n);
    RotateKeepsNames(now, p, n);
    WordsRotated(best, now, p, n);
    RotateKeepsTimed(ws, p, n);
    if Timed(ws) { InsertionKeepsOrder(ws, n); }
  }

  lemma WordsRotated(best: map<Session, Word>, now: seq<Session>, p: nat, n: nat)
    requires p <= n < |now| && forall k :: 0 <= k < |now| ==> now[k] in best
    ensures var next := Rotate(now, p, n);
      (forall k :: 0 <= k < |next| ==> next[k] in best) && WordsOf(best, next) == Rotate(WordsOf(best, now), p, n)
  {
  }

  lemma RotateKeepsTimed(ws: seq<Word>, p: nat, i: nat)
    requires p <= i < |ws|
    ensures Timed(Rotate(ws, p, i)) == Timed(ws)
  {
    var r := Rotate(ws, p, i);
    forall k | 0 <= k < |ws| ensures ws[k] == r[if k < p || k > i then k else if k == i then p else k + 1] {}
  }

  lemma {:induction false} ClimbOnPrefix(ws: seq<Word>, w: Word, m: nat, i: nat)
    requires i < m <= |ws|
    ensures ClimbAs(ws[..m], w, i) == ClimbAs(ws, w, i)
  {
    if i > 0 && w.GreaterThan(ws[i - 1]) { ClimbOnPrefix(ws, w, m, i - 1); }
  }

  lemma RotateKeepsNames(before: seq<Session>, p: nat, n: nat)
    requires p <= n < |before| && NoDuplicates(Names(before))
    ensures NoDuplicates(Names(Rotate(before, p, n))) && Elements(Rotate(before, p, n)) == Elements(before)
  {
    RotateKeepsOrdering(before, p, n);
    RotateKeepsOrdering(Names(before), p, n);
    NamesRotated(before, p, n);
  }

  lemma InsertionKeepsOrder(ws: seq<Word>, n: nat)
    requires n < |ws| && Timed(ws) && Ordered(ws[..n])
    ensures Ordered(Rotate(ws, Climb(ws, n), n)[..n + 1])
  {
    var p, top := Climb(ws, n), ws[..n + 1];
    ClimbOnPrefix(ws, ws[n], n + 1, n);
    assert top[..n] == ws[..n];
    ClimbInsertsInOrder(top, n);
    assert Rotate(ws, p, n)[..n + 1] == Rotate(top, p, n);
  }

  /** Lists the sessions in whatever order ranging over the map yields them. */
  method NewRankBoard(initial: map<string, Session>) returns (board: RankBoard)
    requires forall u :: u in initial ==> initial[u].player.username == u
    ensures fresh(board) && fresh(board.ranks) && board.Valid()
    ensures IsOrdering(Names(board.ranks[..]), initial.Keys)
    ensures forall i :: 0 <= i < board.ranks.Length ==>
      board.ranks[i].player.username in initial && initial[board.ranks[i].player.username] == board.ranks[i]
  {
    var ranks: seq<Session>, positions: map<string, int> := [], map[];
    var rest := initial.Keys;
    while rest != {}
      invariant rest <= initial.Keys && Elements(Names(ranks)) == initial.Keys - rest
      invariant NoDuplicates(Names(ranks)) && IsInverse(positions, Names(ranks))
      invariant forall s :: s in ranks ==> s.player.username in initial && initial[s.player.username] == s
      decreases rest
    {
      var username :| username in rest;
      assert Names(ranks + [initial[username]]) == Names(ranks) + [username];
      assert username !in Elements(Names(ranks));
      assert Elements(Names(ranks) + [username]) == Elements(Names(ranks)) + {username};
      ranks := ranks + [initial[username]];
      positions := positions[username := |ranks| - 1];
      rest := rest - {username};
    }
    var slice := new Session[|ranks|](i requires 0 <= i < |ranks| => ranks[i]);
    assert slice[..] == ranks;
    board := new RankBoard(slice, positions);
  }

  class Game {
    var sessions: map<string, Session>
    var leaderboard: RankBoard
    const createdAt: int
    var startedAt: Option<int>
    var endedAt: Option<int>
    const creator: string
    const correctWord: Word
    var finished: int
    const id: string

    /** The board and the map share their sessions, each filed under its player's name. */
    ghost predicate Valid()
      reads this, leaderboard, leaderboard.ranks
    {
      && leaderboard.Valid()
      && (forall u :: u in sessions ==> sessions[u].player.username == u)
      && (forall s :: s in leaderboard.ranks[..] ==> s.player.username in sessions && sessions[s.player.username] == s)
    }

    ghost function State(): GameState
      reads this, leaderboard, leaderboard.ranks, sessions.Values
    {
      GameState(map u | u in sessions :: sessions[u].State(), Names(leaderboard.ranks[..]),
                createdAt, startedAt, endedAt, creator, correctWord, finished, id)
    }

    constructor New(id: string, creator: string, correctWord: Word, now: int)
      ensures Valid() && fresh(leaderboard) && fresh(leaderboard.ranks)
      ensures State() == NewGame(id, creator, correctWord, now)
    {
      var none := new Session[0];
      this.leaderboard := new RankBoard(none, map[]);
      this.sessions := map[];
      this.id, this.creator, this.correctWord, this.createdAt := id, creator, correctWord, now;
      this.startedAt, this.endedAt, this.finished := None, None, 0;
    }

    /** A game as decoded from storage, with the sessions and board it was given. */
    constructor Restore(sessions: map<string, Session>, leaderboard: RankBoard, createdAt: int,
                        startedAt: Option<int>, endedAt: Option<int>, creator: string, correctWord: Word, id: string)
      ensures this.sessions == sessions && this.leaderboard == leaderboard
      ensures this.createdAt == createdAt && this.startedAt == startedAt && this.endedAt == endedAt
      ensures this.creator == creator && this.correctWord == correctWord && this.id == id && this.finished == 0
    {
      this.sessions, this.leaderboard := sessions, leaderboard;
      this.createdAt, this.startedAt, this.endedAt := createdAt, startedAt, endedAt;
      this.creator, this.correctWord, this.id, this.finished := creator, correctWord, id, 0;
    }

    /** The names ranging over the sessions yields. */
    method Players() returns (usernames: seq<string>)
      ensures IsOrdering(usernames, sessions.Keys)
    {
      usernames := [];
      var rest := sessions.Keys;
      while rest != {}
        invariant rest <= sessions.Keys
        invariant NoDuplicates(usernames) && Elements(usernames) == sessions.Keys - rest
        decreases rest
      {
        var username :| username in rest;
        assert username !in Elements(usernames);
        assert Elements(usernames + [username]) == Elements(usernames) + {username};
        usernames := usernames + [username];
        rest := rest - {username};
      }
    }

    predicate HasEnded()
      reads this
    {
      endedAt.Some?
    }

    method Start(now: int)
      requires Valid()
      modifies this
      ensures Valid() && fresh(leaderboard) && fresh(leaderboard.ranks)
      ensures sessions == old(sessions)
      ensures IsOrdering(State().ranks, old(State()).sessions.Keys)
      ensures State() == old(State()).Start(now, State().ranks)
    {
      startedAt := Some(now);
      leaderboard := NewRankBoard(sessions);
      assert State().sessions == old(State()).sessions;
    }

    /** Enters a game with a fresh session. That of a player on the board would be replaced in the map only, so map and
        board go on sharing their sessions exactly when the name is not on the board. */
    method Join(p: Player)
      requires Valid()
      modifies this
      ensures leaderboard == old(leaderboard) && fresh(sessions.Values - old(sessions.Values))
      ensures State() == old(State()).Join(p)
      ensures Valid() <==> p.username !in leaderboard.positions
    {
      BoardHasName(p.username);
      var s := new Session(p);
      sessions := sessions[p.username := s];
      assert State().sessions == old(State()).Join(p).sessions;
    }

    lemma BoardHasName(u: string)
      requires Valid()
      ensures u in leaderboard.positions <==> exists s :: s in leaderboard.ranks[..] && s.player.username == u
    {
      var names := Names(leaderboard.ranks[..]);
      PositionIsIndex(leaderboard.positions, names, u);
      if u in names {
        var k :| 0 <= k < |names| && names[k] == u;
        assert leaderboard.ranks[k] in leaderboard.ranks[..];
      }
      if s :| s in leaderboard.ranks[..] && s.player.username == u {
        var k :| 0 <= k < leaderboard.ranks.Length && leaderboard.ranks[k] == s;
        assert names[k] == u;
      }
    }

    method Play(player: string, guess: Word, now: int, later: int)
      returns (offset: nat, usersBest: bool, err: Option<PlayError>, played: Word)
      requires Valid()
      modifies this, leaderboard, leaderboard.ranks, sessions.Values
      ensures Valid() && leaderboard == old(leaderboard) && sessions == old(sessions)
      ensures old(State()).BoardHasSessions()
      ensures PlayOutcome(State(), played, offset, usersBest, err) == old(State()).Play(player, guess, now, later)
    {
      BoardFollowsMap();
      if player !in sessions { return 0, false, Some(PlayerNotFound), guess; }
      var session := sessions[player];
      if session.Ended() { return 0, false, Some(SessionEnded), guess; }
      offset, usersBest, played := PlayOpen(session, guess, now, later);
      err := None;
    }

    /** Play for a session that has not ended. */
    method PlayOpen(session: Session, guess: Word, now: int, later: int)
      returns (offset: nat, usersBest: bool, played: Word)
      requires Valid() && session.player.username in sessions && sessions[session.player.username] == session
      requires !session.Ended() && State().BoardHasSessions()
      modifies this, leaderboard, leaderboard.ranks, session
      ensures Valid() && leaderboard == old(leaderboard) && sessions == old(sessions)
      ensures PlayOutcome(State(), played, offset, usersBest, None)
           == old(State()).Play(session.player.username, guess, now, later)
    {
      played := StampAndCheck(guess, now);
      offset, usersBest := TakeGuess(session, played, later);
    }

    method StampAndCheck(guess: Word, now: int) returns (played: Word)
      ensures played == State().Recorded(guess, now)
    {
      var status;
      played, status := Check(guess.(playedAt := NullTime(now, true)), correctWord);
    }

    /** Enters a recorded guess: in its session, on the board and in the counter. */
    method TakeGuess(session: Session, played: Word, later: int) returns (offset: nat, usersBest: bool)
      requires Valid() && session.player.username in sessions && sessions[session.player.username] == session
      modifies this, leaderboard, leaderboard.ranks, session
      ensures Valid() && leaderboard == old(leaderboard) && sessions == old(sessions)
      ensures var u, g := session.player.username, old(State());
        && g.BoardHasSessions() && usersBest == g.sessions[u].IsBest(played)
        && offset == g.Record(u, played).Displaced(u)
        && State() == g.Record(u, played).Rerank(u).Count(u, later)
    {
      BoardFollowsMap();
      usersBest := RecordGuess(session, played);
      offset := FixBoard(session.player.username);
      CountEnded(session, later);
    }

    method RecordGuess(session: Session, played: Word) returns (usersBest: bool)
      requires Valid() && session.player.username in sessions && sessions[session.player.username] == session
      modifies session
      ensures Valid() && State() == old(State()).Record(session.player.username, played)
      ensures usersBest == old(State()).sessions[session.player.username].IsBest(played)
    {
      usersBest := session.Play(played);
      assert State().sessions == old(State()).Record(session.player.username, played).sessions;
    }

    /** Updates the leaderboard after a guess of `player`. */
    method FixBoard(player: string) returns (offset: nat)
      requires Valid()
      modifies leaderboard, leaderboard.ranks
      ensures Valid() && old(State()).BoardHasSessions()
      ensures State() == old(State()).Rerank(player) && offset == old(State()).Displaced(player)
      ensures if player in old(leaderboard.positions)
              then leaderboard.Gained(old(leaderboard.positions), player, offset) else offset == 0
    {
      BoardFollowsMap();
      BestsAlong();
      ghost var g, before := State(), leaderboard.ranks[..];
      PositionIsIndex(leaderboard.positions, g.ranks, player);
      offset := leaderboard.FixPosition(player);
      ghost var after := leaderboard.ranks[..];
      if player in g.ranks { leaderboard.RisenByMoves(before, IndexOf(g.ranks, player), offset); }
      BoardIsFixed(g, before, after, player, offset);
      SessionsUntouched(g, after, before);
    }

    /** A rotation of the sessions is the rotation of their names. */
    static lemma BoardIsFixed(g: GameState, before: seq<Session>, after: seq<Session>, player: string, offset: nat)
      requires g.BoardHasSessions() && Names(before) == g.ranks && NoDuplicates(g.ranks)
      requires player !in g.ranks ==> offset == 0 && after == before
      requires player in g.ranks ==>
        var i, p := IndexOf(g.ranks, player), g.Stop(player); after == Rotate(before, p, i) && offset == i - p
      ensures Elements(after) == Elements(before)
      ensures offset == g.Displaced(player) && Names(after) == g.Rerank(player).ranks
    {
      if player in g.ranks {
        var i, p := IndexOf(g.ranks, player), g.Stop(player);
        NamesRotated(before, p, i);
        RotateKeepsNames(before, p, i);
      }
    }

    lemma SessionsUntouched(g: GameState, after: seq<Session>, before: seq<Session>)
      requires leaderboard.Valid() && after == leaderboard.ranks[..] && Elements(after) == Elements(before)
      requires forall u :: u in sessions ==> sessions[u].player.username == u
      requires forall s :: s in before ==> s.player.username in sessions && sessions[s.player.username] == s
      requires sessions.Keys == g.sessions.Keys && forall u :: u in sessions ==> sessions[u].State() == g.sessions[u]
      requires (createdAt, startedAt, endedAt, creator, correctWord, finished, id)
        == (g.createdAt, g.startedAt, g.endedAt, g.creator, g.secret, g.finished, g.id)
      ensures Valid() && State() == g.(ranks := Names(after))
    {
      SameElements(after, before);
    }

    method CountEnded(session: Session, later: int)
      requires Valid() && session.player.username in sessions && sessions[session.player.username] == session
      modifies this
      ensures Valid() && leaderboard == old(leaderboard) && sessions == old(sessions)
      ensures State() == old(State()).Count(session.player.username, later)
    {
      if session.Ended() {
        finished := finished + 1;
        if finished == |sessions| {
          endedAt := Some(later);
        }
      }
      assert State().sessions == old(State()).sessions;
      assert State().sessions.Keys == sessions.Keys;
    }

    lemma BoardFollowsMap()
      requires Valid()
      ensures State().BoardHasSessions()
    {
    }

    lemma BestsAlong()
      requires Valid() && State().BoardHasSessions()
      ensures Along(State().Bests(), State().ranks) == BestsOf(leaderboard.ranks[..])
    {
    }

    /** Recomputes what a loaded game does not store: best guesses, the counter and the order of the board. */
    method Resync()
      requires Valid()
      modifies this, leaderboard, leaderboard.ranks, sessions.Values
      ensures Valid() && leaderboard == old(leaderboard) && sessions == old(sessions)
      ensures old(State()).BoardHasSessions() && Resyncs(old(State()), State())
    {
      BoardFollowsMap();
      ghost var g := State();
      RecountSessions();
      ghost var r := State();
      SortBoard();
      SortedFrom(g, r);
    }

    method RecountSessions()
      requires Valid()
      modifies this`finished, sessions.Values
      ensures Valid()
      ensures State() == old(State()).(sessions := State().sessions,
                                       finished := old(finished) + |WonOutside(old(State()).sessions, {})|)
      ensures State().sessions == map u | u in old(State()).sessions :: old(State()).sessions[u].Resync()
    {
      ResyncSessions(State().sessions);
    }

    method SortBoard()
      requires Valid()
      modifies leaderboard, leaderboard.ranks
      ensures Valid() && sessions == old(sessions) && leaderboard == old(leaderboard)
      ensures State() == old(State()).(ranks := State().ranks) && Elements(State().ranks) == Elements(old(State()).ranks)
      ensures Timed(BestsOf(leaderboard.ranks[..])) ==> Ordered(BestsOf(leaderboard.ranks[..]))
    {
      ghost var g, before := State(), leaderboard.ranks[..];
      leaderboard.Resync();
      SessionsUntouched(g, leaderboard.ranks[..], before);
      NamesFollowElements(leaderboard.ranks[..], before);
    }

    lemma SortedFrom(g: GameState, r: GameState)
      requires Valid() && g.BoardHasSessions()
      requires r == g.(sessions := r.sessions, finished := g.finished + |WonOutside(g.sessions, {})|)
      requires r.sessions == map u | u in g.sessions :: g.sessions[u].Resync()
      requires State() == r.(ranks := State().ranks) && Elements(State().ranks) == Elements(g.ranks)
      requires Timed(BestsOf(leaderboard.ranks[..])) ==> Ordered(BestsOf(leaderboard.ranks[..]))
      ensures Resyncs(g, State())
    {
      BoardFollowsMap();
      BestsAlong();
      assert State().Winners() == WonOutside(g.sessions, {});
    }

    /** The loop of Resync over the sessions; `was` is what they held before. */
    method ResyncSessions(ghost was: map<string, SessionState>)
      requires forall u :: u in sessions ==> sessions[u].player.username == u
      requires was.Keys == sessions.Keys && forall u :: u in sessions ==> sessions[u].State() == was[u]
      modifies this`finished, sessions.Values
      ensures forall u :: u in sessions ==> sessions[u].State() == was[u].Resync()
      ensures finished == old(finished) + |WonOutside(was, {})|
    {
      var rest := sessions.Keys;
      assert WonOutside(was, rest) == {};
      while rest != {}
        invariant rest <= sessions.Keys
        invariant forall u :: u in rest ==> sessions[u].State() == was[u]
        invariant forall u :: u in sessions && u !in rest ==> sessions[u].State() == was[u].Resync()
        invariant finished == old(finished) + |WonOutside(was, rest)|
        decreases rest
      {
        var username :| username in rest;
        OneMoreResynced(was, rest, username);
        ResyncOne(username);
        rest := rest - {username};
      }
    }

    method ResyncOne(username: string)
      requires username in sessions && forall u :: u in sessions ==> sessions[u].player.username == u
      modifies this`finished, sessions[username]
      ensures sessions[username].State() == old(sessions[username].State()).Resync()
      ensures forall u :: u in sessions && u != username ==> sessions[u].State() == old(sessions[u].State())
      ensures finished == old(finished) + if sessions[username].State().Won() then 1 else 0
    {
      var session := sessions[username];
      session.Resync();
      if session.Won() { finished := finished + 1; }
    }

    static ghost function WonOutside(m: map<string, SessionState>, rest: set<string>): set<string> {
      set u | u in m && u !in rest && m[u].Resync().Won()
    }

    static lemma OneMoreResynced(m: map<string, SessionState>, rest: set<string>, u: string)
      requires u in rest && u in m
      ensures |WonOutside(m, rest - {u})| == |WonOutside(m, rest)| + if m[u].Resync().Won() then 1 else 0
    {
      assert WonOutside(m, rest - {u}) == WonOutside(m, rest) + if m[u].Resync().Won() then {u} else {};
    }
  }
}
