/** Rebuilding a finished game from its stored results: setSessions in repository/postgres/game.go. */
module Results {
  import opened Collections
  import opened Words
  import opened Scoring
  import opened GameModel
  import opened Games

  /** One line of the players query. */
  datatype Line = Line(
    id: int, username: string, bestGuess: Option<string>, bestGuessTime: Option<int>, rank: Option<int>, totalWords: int)
  {
    function Rank(): int { if rank.None? then 0 else rank.value }

    /** The best guess as rebuilt from its text and time, checked anew. */
    function Best(secret: Word): Word {
      Checked(Word(if bestGuess.None? then "" else bestGuess.value,
                   if bestGuessTime.None? then ZERO_TIME else NullTime(bestGuessTime.value, true), []), secret)
    }

    /** The rebuilt session: all `words` for the player who asks, the best guess alone for the others. */
    function Session(secret: Word, asking: int, words: seq<Word>): SessionState {
      var guesses := if id == asking then words else [Best(secret)];
      SessionState(Player(id, username), guesses, Replay(guesses), totalWords)
    }
  }

  function Usernames(lines: seq<Line>): (names: seq<string>)
    ensures |names| == |lines|
  {
    seq(|lines|, i requires 0 <= i < |lines| => lines[i].username)
  }

  function RankNumbers(lines: seq<Line>): (ranks: seq<int>)
    ensures |ranks| == |lines|
  {
    seq(|lines|, i requires 0 <= i < |lines| => lines[i].Rank())
  }

  /** The first `n` ranks are places of the board. */
  predicate RanksFit(lines: seq<Line>, n: nat)
    requires n <= |lines|
  {
    forall i :: 0 <= i < n ==> 0 <= lines[i].Rank() < |lines|
  }

  /** The stored ranks number the places of the board. */
  predicate Placeable(lines: seq<Line>) {
    && RanksFit(lines, |lines|)
    && NoDuplicates(RankNumbers(lines))
  }

  /** The sessions of the first `n` lines. */
  function Rebuilt(lines: seq<Line>, n: nat, secret: Word, asking: int, words: seq<Word>): map<string, SessionState>
    requires n <= |lines|
  {
    if n == 0 then map[]
    else Rebuilt(lines, n - 1, secret, asking, words)[lines[n - 1].username := lines[n - 1].Session(secret, asking, words)]
  }

  lemma {:induction false} RebuiltKeys(lines: seq<Line>, n: nat, secret: Word, asking: int, words: seq<Word>)
    requires n <= |lines|
    ensures Rebuilt(lines, n, secret, asking, words).Keys == Elements(Usernames(lines)[..n])
  {
    var names := Usernames(lines);
    if n > 0 {
      RebuiltKeys(lines, n - 1, secret, asking, words);
      assert names[..n] == names[..n - 1] + [names[n - 1]];
      assert Elements(names[..n]) == Elements(names[..n - 1]) + {names[n - 1]};
    }
  }

  lemma {:induction false} RebuiltHolds(lines: seq<Line>, n: nat, i: nat, secret: Word, asking: int, words: seq<Word>)
    requires i < n <= |lines| && NoDuplicates(Usernames(lines))
    ensures lines[i].username in Rebuilt(lines, n, secret, asking, words)
    ensures Rebuilt(lines, n, secret, asking, words)[lines[i].username] == lines[i].Session(secret, asking, words)
  {
    if i < n - 1 {
      RebuiltHolds(lines, n - 1, i, secret, asking, words);
      assert Usernames(lines)[i] != Usernames(lines)[n - 1];
    }
  }

  /** The board, the positions and the sessions after placing the first `i` lines. */
  ghost predicate Placed(lines: seq<Line>, i: nat, slots: seq<Session?>, positions: map<string, int>,
                         sessions: map<string, Session>)
    requires i <= |lines|
  {
    && |slots| == |lines|
    && sessions.Keys == positions.Keys == Elements(Usernames(lines)[..i])
    && (forall k :: 0 <= k < |slots| ==> (slots[k] != null <==> k in RankNumbers(lines)[..i]))
    && (forall k :: 0 <= k < |slots| && slots[k] != null ==> Holds(slots[k], k, positions, sessions))
    && (forall u :: u in sessions ==> sessions[u].player.username == u)
  }

  ghost predicate Holds(s: Session, k: int, positions: map<string, int>, sessions: map<string, Session>) {
    var u := s.player.username;
    u in sessions && sessions[u] == s && u in positions && positions[u] == k
  }

  lemma PlaceNext(lines: seq<Line>, i: nat, slots: seq<Session?>, positions: map<string, int>,
                  sessions: map<string, Session>, sess: Session)
    requires i < |lines| && NoDuplicates(Usernames(lines)) && Placed(lines, i, slots, positions, sessions)
    requires sess.player.username == lines[i].username && 0 <= lines[i].Rank() < |lines|
    ensures var u, rank := lines[i].username, lines[i].Rank();
      u !in sessions && Placed(lines, i + 1, slots[rank := sess], positions[u := rank], sessions[u := sess])
  {
    var u, rank := lines[i].username, lines[i].Rank();
    OneMoreName(lines, i);
    var next := slots[rank := sess];
    forall k | 0 <= k < |next| ensures next[k] != null <==> k in RankNumbers(lines)[..i + 1] {
      assert slots[k] != null <==> k in RankNumbers(lines)[..i];
    }
    forall k | 0 <= k < |next| && next[k] != null ensures Holds(next[k], k, positions[u := rank], sessions[u := sess]) {
      if k != rank { assert Holds(slots[k], k, positions, sessions); }
    }
  }

  lemma OneMoreName(lines: seq<Line>, i: nat)
    requires i < |lines| && NoDuplicates(Usernames(lines))
    ensures lines[i].username !in Elements(Usernames(lines)[..i])
    ensures Elements(Usernames(lines)[..i + 1]) == Elements(Usernames(lines)[..i]) + {lines[i].username}
    ensures forall k :: k in RankNumbers(lines)[..i + 1] <==> k in RankNumbers(lines)[..i] || k == lines[i].Rank()
  {
    var names, rs := Usernames(lines), RankNumbers(lines);
    assert names[..i + 1] == names[..i] + [names[i]] && rs[..i + 1] == rs[..i] + [rs[i]];
  }

  /** Once all lines are placed, every slot is filled exactly when the ranks are distinct. */
  lemma AllPlaced(lines: seq<Line>, slots: seq<Session?>, positions: map<string, int>, sessions: map<string, Session>)
    requires Placed(lines, |lines|, slots, positions, sessions)
    requires RanksFit(lines, |lines|)
    ensures Placeable(lines) <==> forall k :: 0 <= k < |slots| ==> slots[k] != null
  {
    var rs := RankNumbers(lines);
    assert rs[..|lines|] == rs;
    FillsEverySlot(rs);
    if forall k :: 0 <= k < |slots| ==> slots[k] != null {
      forall k | 0 <= k < |rs| ensures k in rs { assert slots[k] != null; }
    }
  }

  /** One turn of the loop: a session with its guesses, resynced. */
  method BuildSession(line: Line, secret: Word, asking: int, words: seq<Word>) returns (sess: Session)
    ensures fresh(sess) && sess.player.username == line.username
    ensures sess.State() == line.Session(secret, asking, words)
  {
    var guesses;
    if line.id == asking {
      guesses := words;
    } else {
      var wrd := Word(if line.bestGuess.None? then "" else line.bestGuess.value,
                      if line.bestGuessTime.None? then ZERO_TIME else NullTime(line.bestGuessTime.value, true), []);
      var status;
      wrd, status := Check(wrd, secret);
      guesses := [wrd];
    }
    sess := new Session(Player(line.id, line.username));
    sess.guesses := guesses;
    sess.Resync();
    sess.SetWordsCount(line.totalWords);
  }

  ghost predicate Matches(sessions: map<string, Session>, want: map<string, SessionState>)
    reads sessions.Values
  {
    want.Keys == sessions.Keys && forall u :: u in sessions ==> sessions[u].State() == want[u]
  }

  /** What setSessions has filled in so far. */
  datatype Progress = Progress(sessions: map<string, Session>, positions: map<string, int>, ranks: seq<Session?>)

  ghost predicate Filled(p: Progress, lines: seq<Line>, i: nat, secret: Word, asking: int, words: seq<Word>)
    requires i <= |lines|
    reads p.sessions.Values
  {
    && Placed(lines, i, p.ranks, p.positions, p.sessions)
    && Matches(p.sessions, Rebuilt(lines, i, secret, asking, words))
  }

  /** The empty slots and maps setSessions starts from. */
  method EmptyBoard(lines: seq<Line>, ghost secret: Word, ghost asking: int, ghost words: seq<Word>) returns (p: Progress)
    ensures Filled(p, lines, 0, secret, asking, words) && p.sessions == map[]
  {
    p := Progress(map[], map[], seq(|lines|, _ => null));
  }

  /** All sessions so far are new. */
  twostate predicate AllFresh(new p: Progress) {
    forall u :: u in p.sessions ==> fresh(p.sessions[u])
  }

  /** The sessions of all lines, each placed at its stored rank. Placing one outside the board panics. */
  method PlaceSessions(lines: seq<Line>, secret: Word, asking: int, words: seq<Word>)
    returns (p: Progress, panic: bool)
    requires NoDuplicates(Usernames(lines))
    ensures !panic <==> RanksFit(lines, |lines|)
    ensures !panic ==> Filled(p, lines, |lines|, secret, asking, words)
    ensures AllFresh(p)
  {
    p := EmptyBoard(lines, secret, asking, words);
    panic := false;
    for i := 0 to |lines|
      invariant !panic && RanksFit(lines, i)
      invariant Filled(p, lines, i, secret, asking, words)
      invariant AllFresh(p)
    {
      p, panic := PlaceLine(p, lines, i, secret, asking, words);
      if panic { return; }
    }
  }

  method PlaceLine(p: Progress, lines: seq<Line>, i: nat, secret: Word, asking: int, words: seq<Word>)
    returns (q: Progress, panic: bool)
    requires i < |lines| && NoDuplicates(Usernames(lines))
    requires Filled(p, lines, i, secret, asking, words)
    ensures !panic <==> 0 <= lines[i].Rank() < |lines|
    ensures !panic ==> Filled(q, lines, i + 1, secret, asking, words)
    ensures forall u :: u in q.sessions ==> (u in p.sessions && q.sessions[u] == p.sessions[u]) || fresh(q.sessions[u])
  {
    var line := lines[i];
    if !(0 <= line.Rank() < |lines|) { return p, true; }
    var sess := BuildSession(line, secret, asking, words);
    FilledNext(p, lines, i, secret, asking, words, sess);
    q := Progress(p.sessions[line.username := sess], p.positions[line.username := line.Rank()],
                  p.ranks[line.Rank() := sess]);
    panic := false;
  }

  lemma FilledNext(p: Progress, lines: seq<Line>, i: nat, secret: Word, asking: int, words: seq<Word>, sess: Session)
    requires i < |lines| && NoDuplicates(Usernames(lines)) && 0 <= lines[i].Rank() < |lines| == |p.ranks|
    requires Filled(p, lines, i, secret, asking, words)
    requires sess.player.username == lines[i].username && sess.State() == lines[i].Session(secret, asking, words)
    ensures var u, rank := lines[i].username, lines[i].Rank();
      Filled(Progress(p.sessions[u := sess], p.positions[u := rank], p.ranks[rank := sess]),
             lines, i + 1, secret, asking, words)
  {
    PlaceNext(lines, i, p.ranks, p.positions, p.sessions, sess);
  }

  /** The filled board. */
  method PlaceOnBoard(ghost lines: seq<Line>, slots: seq<Session?>, positions: map<string, int>,
                      ghost sessions: map<string, Session>)
    returns (board: RankBoard)
    requires NoDuplicates(Usernames(lines)) && Placed(lines, |lines|, slots, positions, sessions)
    requires forall k :: 0 <= k < |slots| ==> slots[k] != null
    ensures fresh(board) && fresh(board.ranks) && board.Valid()
    ensures Elements(Names(board.ranks[..])) == sessions.Keys
    ensures forall s :: s in board.ranks[..] ==> s.player.username in sessions && sessions[s.player.username] == s
  {
    var slice := new Session[|slots|](i requires 0 <= i < |slots| && slots[i] != null => slots[i]);
    board := new RankBoard(slice, positions);
    BoardIsFull(lines, slice[..], positions, sessions);
  }

  lemma BoardIsFull(lines: seq<Line>, placed: seq<Session>, positions: map<string, int>, sessions: map<string, Session>)
    requires NoDuplicates(Usernames(lines)) && |placed| == |lines|
    requires sessions.Keys == positions.Keys == Elements(Usernames(lines)[..|lines|])
    requires forall k :: 0 <= k < |placed| ==> Holds(placed[k], k, positions, sessions)
    ensures NoDuplicates(Names(placed)) && IsInverse(positions, Names(placed))
    ensures forall s :: s in placed ==> s.player.username in sessions && sessions[s.player.username] == s
  {
    var names, usernames := Names(placed), Usernames(lines);
    assert usernames[..|lines|] == usernames;
    forall i, j | 0 <= i < j < |names| ensures names[i] != names[j] {
      assert Holds(placed[i], i, positions, sessions) && Holds(placed[j], j, positions, sessions);
    }
    forall u | u in names ensures u in positions {
      var k :| 0 <= k < |names| && names[k] == u;
      assert Holds(placed[k], k, positions, sessions);
    }
    ElementsSize(names);
    ElementsSize(usernames);
    SubsetSize(Elements(names), positions.Keys);
    forall k | 0 <= k < |names| ensures names[k] in positions && positions[names[k]] == k {
      assert Holds(placed[k], k, positions, sessions);
    }
  }

  /** A game holding exactly the rebuilt sessions, on a board of all players that is sorted. */
  predicate IsRebuilt(lines: seq<Line>, asking: int, words: seq<Word>, g: GameState) {
    && g.sessions == Rebuilt(lines, |lines|, g.secret, asking, words)
    && g.finished == |g.Winners()|
    && OnSortedBoard(g)
  }

  /** Fills in the sessions and the board of a game; panics unless the stored ranks number the places. */
  method SetSessions(gm: Game, lines: seq<Line>, asking: int, words: seq<Word>) returns (panic: bool)
    requires NoDuplicates(Usernames(lines)) && gm.finished == 0
    modifies gm
    ensures !panic <==> Placeable(lines)
    ensures !panic ==> gm.Valid() && IsRebuilt(lines, asking, words, gm.State())
    ensures gm.startedAt == old(gm.startedAt) && gm.endedAt == old(gm.endedAt)
  {
    var p, outside := PlaceSessions(lines, gm.correctWord, asking, words);
    if outside { return true; }
    AllPlaced(lines, p.ranks, p.positions, p.sessions);
    if exists k :: 0 <= k < |p.ranks| && p.ranks[k] == null { return true; }
    panic := false;
    var board := PlaceOnBoard(lines, p.ranks, p.positions, p.sessions);
    Install(gm, p.sessions, board, Rebuilt(lines, |lines|, gm.correctWord, asking, words));
    ghost var before := gm.State();
    gm.Resync();
    ResyncedIsRebuilt(lines, asking, words, before, gm.State());
  }

  method Install(gm: Game, sessions: map<string, Session>, board: RankBoard, ghost want: map<string, SessionState>)
    requires board.Valid() && Elements(Names(board.ranks[..])) == sessions.Keys == want.Keys
    requires forall u :: u in sessions ==> sessions[u].player.username == u && sessions[u].State() == want[u]
    requires forall s :: s in board.ranks[..] ==> s.player.username in sessions && sessions[s.player.username] == s
    modifies gm
    ensures gm.sessions == sessions && gm.leaderboard == board && gm.Valid()
    ensures gm.State().sessions == want && Covers(gm.State())
    ensures gm.startedAt == old(gm.startedAt) && gm.endedAt == old(gm.endedAt) && gm.finished == old(gm.finished)
  {
    gm.sessions := sessions;
    gm.leaderboard := board;
  }

  lemma ResyncedIsRebuilt(lines: seq<Line>, asking: int, words: seq<Word>, before: GameState, g: GameState)
    requires NoDuplicates(Usernames(lines)) && before.BoardHasSessions() && Covers(before)
    requires before.sessions == Rebuilt(lines, |lines|, before.secret, asking, words) && before.finished == 0
    requires Resyncs(before, g)
    ensures IsRebuilt(lines, asking, words, g)
  {
    RebuiltIsResynced(lines, |lines|, before.secret, asking, words);
    assert g.sessions == before.sessions;
  }

  lemma {:induction false} RebuiltIsResynced(lines: seq<Line>, n: nat, secret: Word, asking: int, words: seq<Word>)
    requires n <= |lines|
    ensures forall u :: u in Rebuilt(lines, n, secret, asking, words) ==>
      Rebuilt(lines, n, secret, asking, words)[u].Resync() == Rebuilt(lines, n, secret, asking, words)[u]
  {
    if n > 0 { RebuiltIsResynced(lines, n - 1, secret, asking, words); }
  }
}
