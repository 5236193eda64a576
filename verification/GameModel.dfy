/** The states a game goes through, as values: what game/game.go computes, without the heap. */
module GameModel {
  import opened Collections
  import opened Words
  import opened Scoring
  import opened Leaderboard

  const MAX_GUESSES := 6

  datatype Player = Player(id: int, username: string)

  datatype PlayError = PlayerNotFound | SessionEnded

  /** The best of a slice of guesses, kept as a running maximum. */
  function Replay(guesses: seq<Word>): Option<Word> {
    if guesses == [] then None
    else
      var best := Replay(guesses[..|guesses| - 1]);
      var w := guesses[|guesses| - 1];
      if best.None? || w.GreaterThan(best.value) then Some(w) else best
  }

  datatype SessionState = SessionState(player: Player, guesses: seq<Word>, best: Option<Word>, wordsCount: int) {

    function BestGuess(): Word { if best.None? then ZERO_WORD else best.value }

    function WordsCount(): int { if wordsCount != 0 then wordsCount else |guesses| }

    predicate Won() { guesses != [] && BestGuess().IsCorrect() }

    predicate CanPlay() { |guesses| < MAX_GUESSES }

    predicate Ended() { |guesses| == MAX_GUESSES || Won() }

    predicate IsBest(w: Word) { best.None? || w.GreaterThan(best.value) }

    function Play(w: Word): SessionState {
      this.(guesses := guesses + [w], best := if IsBest(w) then Some(w) else best)
    }

    function Resync(): SessionState { this.(best := Replay(guesses)) }
  }

  datatype PlayOutcome = PlayOutcome(
    game: GameState, guess: Word, offset: nat, isBest: bool, err: Option<PlayError>)

  datatype GameState = GameState(
    sessions: map<string, SessionState>,
    ranks: seq<string>,
    createdAt: int,
    startedAt: Option<int>,
    endedAt: Option<int>,
    creator: string,
    secret: Word,
    finished: int,
    id: string)
  {
    function Bests(): map<string, Word> { map u | u in sessions :: sessions[u].BestGuess() }

    function EndedPlayers(): set<string> { set u | u in sessions && sessions[u].Ended() }

    function Winners(): set<string> { set u | u in sessions && sessions[u].Won() }

    /** Everyone on the board has a session. */
    predicate BoardHasSessions() { forall u :: u in ranks ==> u in sessions }

    function Join(p: Player): GameState {
      this.(sessions := sessions[p.username := SessionState(p, [], None, 0)])
    }

    /** Starting fixes the board to the players present, in whatever order the map is ranged over. */
    function Start(now: int, order: seq<string>): GameState {
      this.(startedAt := Some(now), ranks := order)
    }

    /** `guess` as Play records it: stamped and checked. */
    function Recorded(guess: Word, at: int): Word {
      Checked(guess.(playedAt := NullTime(at, true)), secret)
    }

    function Play(u: string, guess: Word, at: int, end: int): PlayOutcome
      requires BoardHasSessions()
    {
      if u !in sessions then PlayOutcome(this, guess, 0, false, Some(PlayerNotFound))
      else if sessions[u].Ended() then PlayOutcome(this, guess, 0, false, Some(SessionEnded))
      else
        var w := Recorded(guess, at);
        var played := Record(u, w);
        PlayOutcome(played.Rerank(u).Count(u, end), w, played.Displaced(u), sessions[u].IsBest(w), None)
    }

    /** `w` added to `u`'s session; the board not yet fixed. */
    function Record(u: string, w: Word): GameState
      requires u in sessions
    {
      this.(sessions := sessions[u := sessions[u].Play(w)])
    }

    /** Where `u`'s entry stops when it is bubbled up. */
    function Stop(u: string): (p: nat)
      requires BoardHasSessions() && u in ranks
      ensures p <= IndexOf(ranks, u)
    {
      Climb(Along(Bests(), ranks), IndexOf(ranks, u))
    }

    /** The board with `u`'s entry bubbled up; a player who is not on it moves nothing. */
    function Rerank(u: string): GameState
      requires BoardHasSessions()
    {
      if u in ranks then this.(ranks := Rotate(ranks, Stop(u), IndexOf(ranks, u))) else this
    }

    /** How many players `u` displaces on the way up. */
    function Displaced(u: string): nat
      requires BoardHasSessions()
    {
      if u in ranks then IndexOf(ranks, u) - Stop(u) else 0
    }

    /** Counts `u`'s session if it just ended, and ends the game with the last one. */
    function Count(u: string, end: int): GameState
      requires u in sessions
    {
      if !sessions[u].Ended() then this
      else if finished + 1 == |sessions| then this.(finished := finished + 1, endedAt := Some(end))
      else this.(finished := finished + 1)
    }
  }

  function NewGame(id: string, creator: string, secret: Word, now: int): GameState {
    GameState(map[], [], now, None, None, creator, secret, 0, id)
  }

  /** What resyncing a loaded game does: every best guess is recomputed, winners are added to the counter,
      and the board is sorted. The library sort promises an order only where the comparison is one. */
  predicate Resyncs(g: GameState, r: GameState)
    requires g.BoardHasSessions()
  {
    && r == g.(sessions := r.sessions, ranks := r.ranks, finished := r.finished)
    && r.sessions == (map u | u in g.sessions :: g.sessions[u].Resync())
    && r.finished == g.finished + |r.Winners()|
    && SortedBoard(r.Bests(), g.ranks, r.ranks)
  }

  /** `after` is `before` sorted by best guess. */
  predicate SortedBoard(best: map<string, Word>, before: seq<string>, after: seq<string>) {
    && (forall u :: u in after ==> u in best)
    && Elements(after) == Elements(before)
    && (NoDuplicates(before) ==> NoDuplicates(after))
    && (Timed(Along(best, after)) ==> Ordered(Along(best, after)))
  }

  // ---------- the running best guess ----------

  /** The running best guess is one of the guesses, and no guess beats it. */
  lemma {:induction false} BestIsMaximum(guesses: seq<Word>)
    ensures Replay(guesses).None? <==> guesses == []
    ensures guesses != [] ==> Replay(guesses).value in guesses
    ensures forall g :: g in guesses ==> !g.GreaterThan(Replay(guesses).value)
  {
    if guesses != [] {
      var n := |guesses| - 1;
      var rest, w := guesses[..n], guesses[n];
      BestIsMaximum(rest);
      assert guesses == rest + [w];
      var best := Replay(guesses).value;
      forall g | g in guesses ensures !g.GreaterThan(best) {
        GreaterThanIsStrictOrder(best, best, best);
        if g in rest {
          GreaterThanIsStrictOrder(g, w, Replay(rest).value);
        }
      }
    }
  }

  /** Playing keeps the best guess the maximum of the guesses; so resyncing a session changes nothing. */
  lemma PlayKeepsBest(s: SessionState, w: Word)
    requires s.best == Replay(s.guesses)
    ensures s.Play(w).best == Replay(s.Play(w).guesses)
    ensures s.Play(w).Resync() == s.Play(w)
    ensures Improves(s.Play(w).BestGuess(), s.BestGuess())
  {
    assert s.Play(w).guesses[..|s.guesses|] == s.guesses;
    BestIsMaximum(s.guesses);
  }

  // ---------- what holds of a session ----------

  /** A guess as Play records it against `secret`, made from a word without statuses. */
  predicate IsRecorded(w: Word, secret: Word) {
    && w.playedAt.valid && w.playedAt.time > 0
    && w.stats == if |w.word| == |secret.word| then Score(w.word, secret.word) else seq(|w.word|, _ => Unknown)
  }

  predicate SessionOk(u: string, s: SessionState, secret: Word) {
    && s.player.username == u
    && s.best == Replay(s.guesses)
    && |s.guesses| <= MAX_GUESSES
    && (forall i :: 0 <= i < |s.guesses| ==> IsRecorded(s.guesses[i], secret))
    && (forall i :: 0 <= i < |s.guesses| - 1 ==> s.guesses[i].word != secret.word)
  }

  /** A recorded guess is correct exactly when it is the secret. */
  lemma RecordedIsCorrectIff(w: Word, secret: Word)
    requires IsRecorded(w, secret) && secret.word != ""
    ensures w.IsCorrect() <==> w.word == secret.word
    ensures w.IsCorrect() ==> w.Corrects() == |secret.word|
    ensures w.Corrects() <= |secret.word|
    ensures w.Corrects() == |secret.word| ==> w.IsCorrect()
  {
    if |w.word| == |secret.word| {
      CheckedIsCorrectIff(w, secret);
      assert Checked(w, secret) == w;
      AllCorrectIff(w.stats);
    } else {
      assert Correct !in w.stats;
      assert multiset(w.stats)[Correct] == 0;
      if w.word != "" { assert w.stats[0] == Unknown; }
    }
  }

  /** Won looks only at the best guess, yet holds exactly when some guess is the secret; that guess is the last. */
  lemma WonIff(u: string, s: SessionState, secret: Word)
    requires SessionOk(u, s, secret) && secret.word != ""
    ensures s.Won() <==> exists i :: 0 <= i < |s.guesses| && s.guesses[i].word == secret.word
    ensures s.Won() ==> s.guesses[|s.guesses| - 1].word == secret.word
  {
    BestIsMaximum(s.guesses);
    if s.guesses != [] {
      var best := s.BestGuess();
      var k :| 0 <= k < |s.guesses| && s.guesses[k] == best;
      RecordedIsCorrectIff(best, secret);
      forall i | 0 <= i < |s.guesses| && s.guesses[i].word == secret.word ensures s.Won() {
        RecordedIsCorrectIff(s.guesses[i], secret);
        GreaterThanFollowsKey(s.guesses[i], best);
        assert s.guesses[i] in s.guesses;
      }
    }
  }

  /** A word straight from the keyboard becomes a recorded guess. */
  lemma FreshGuessIsRecorded(g: GameState, text: string, at: int)
    requires at > 0
    ensures IsRecorded(g.Recorded(NewWord(text), at), g.secret)
  {
  }

  lemma PlayKeepsSession(u: string, s: SessionState, w: Word, secret: Word)
    requires SessionOk(u, s, secret) && secret.word != ""
    requires !s.Ended() && IsRecorded(w, secret)
    ensures SessionOk(u, s.Play(w), secret)
  {
    PlayKeepsBest(s, w);
    WonIff(u, s, secret);
    var all := s.Play(w).guesses;
    forall i | 0 <= i < |all| ensures IsRecorded(all[i], secret) && (i < |all| - 1 ==> all[i].word != secret.word) {
      if i < |s.guesses| { assert all[i] == s.guesses[i]; } else { assert all[i] == w; }
    }
  }

  // ---------- what holds of a game ----------

  predicate GameOk(g: GameState) {
    && g.secret.word != ""
    && (forall u :: u in g.sessions ==> SessionOk(u, g.sessions[u], g.secret))
    && g.BoardHasSessions()
    && NoDuplicates(g.ranks)
    && Ordered(Along(g.Bests(), g.ranks))
  }

  /** The board lists every player. */
  predicate Covers(g: GameState) { IsOrdering(g.ranks, g.sessions.Keys) }

  /** What a board built from a map and sorted amounts to: all players, in order where the order is one. */
  predicate OnSortedBoard(g: GameState) {
    && g.BoardHasSessions() && Covers(g)
    && (Timed(Along(g.Bests(), g.ranks)) ==> Ordered(Along(g.Bests(), g.ranks)))
  }

  predicate NobodyPlayed(g: GameState) {
    forall u :: u in g.sessions ==> g.sessions[u].guesses == []
  }

  lemma BestsAreTimed(g: GameState)
    requires forall u :: u in g.sessions ==> SessionOk(u, g.sessions[u], g.secret)
    requires g.BoardHasSessions()
    ensures ScoringTimed(g.Bests())
    ensures Timed(Along(g.Bests(), g.ranks))
  {
    forall u | u in g.sessions
      ensures g.Bests()[u].Scores() ==> g.Bests()[u].playedAt.valid
    {
      BestIsMaximum(g.sessions[u].guesses);
    }
  }

  /** Every play leaves the board in order and every session well formed. */
  lemma PlayKeepsGame(g: GameState, u: string, text: string, at: int, end: int)
    requires GameOk(g) && at > 0
    ensures GameOk(g.Play(u, NewWord(text), at, end).game)
    ensures Covers(g) ==> Covers(g.Play(u, NewWord(text), at, end).game)
  {
    if u in g.sessions && !g.sessions[u].Ended() {
      var w := g.Recorded(NewWord(text), at);
      FreshGuessIsRecorded(g, text, at);
      RecordKeepsSessions(g, u, w);
      RerankKeepsBoard(g, u, w);
      CountKeepsGame(g.Record(u, w).Rerank(u), u, end);
    }
  }

  lemma CountKeepsGame(g: GameState, u: string, end: int)
    requires GameOk(g) && u in g.sessions
    ensures GameOk(g.Count(u, end))
    ensures g.Count(u, end).sessions == g.sessions && g.Count(u, end).ranks == g.ranks
  {
    assert g.Count(u, end).Bests() == g.Bests();
  }

  lemma RecordKeepsSessions(g: GameState, u: string, w: Word)
    requires forall v :: v in g.sessions ==> SessionOk(v, g.sessions[v], g.secret)
    requires g.secret.word != "" && u in g.sessions && !g.sessions[u].Ended() && IsRecorded(w, g.secret)
    ensures forall v :: v in g.sessions ==> SessionOk(v, g.Record(u, w).sessions[v], g.secret)
    ensures g.Record(u, w).sessions.Keys == g.sessions.Keys
  {
    PlayKeepsSession(u, g.sessions[u], w, g.secret);
    forall v | v in g.sessions ensures SessionOk(v, g.Record(u, w).sessions[v], g.secret) {
      assert SessionOk(v, g.sessions[v], g.secret);
    }
  }

  /** Along the old board only `u`'s entry has changed, and it improved. */
  lemma RecordChangesOneEntry(g: GameState, u: string, w: Word)
    requires GameOk(g) && u in g.ranks && IsRecorded(w, g.secret)
    ensures var best := g.sessions[u].Play(w).BestGuess();
      && Along(g.Record(u, w).Bests(), g.ranks) == Along(g.Bests(), g.ranks)[IndexOf(g.ranks, u) := best]
      && Improves(best, g.sessions[u].BestGuess())
      && (best.Scores() ==> best.playedAt.valid)
  {
    BestImproves(u, g.sessions[u], w, g.secret);
    RecordedBests(g, u, w);
    AlongUpdated(g.Bests(), g.ranks, u, g.sessions[u].Play(w).BestGuess());
  }

  lemma BestImproves(u: string, s: SessionState, w: Word, secret: Word)
    requires SessionOk(u, s, secret) && IsRecorded(w, secret)
    ensures Improves(s.Play(w).BestGuess(), s.BestGuess())
    ensures s.Play(w).BestGuess().Scores() ==> s.Play(w).BestGuess().playedAt.valid
  {
    PlayKeepsBest(s, w);
    BestIsMaximum(s.guesses);
  }

  lemma RecordedBests(g: GameState, u: string, w: Word)
    requires u in g.sessions
    ensures g.Record(u, w).Bests() == g.Bests()[u := g.sessions[u].Play(w).BestGuess()]
  {
  }

  lemma AlongUpdated(best: map<string, Word>, ranks: seq<string>, u: string, w: Word)
    requires NoDuplicates(ranks) && u in ranks && forall v :: v in ranks ==> v in best
    ensures Along(best[u := w], ranks) == Along(best, ranks)[IndexOf(ranks, u) := w]
  {
  }

  lemma AlongRotated(best: map<string, Word>, ranks: seq<string>, p: nat, i: nat)
    requires p <= i < |ranks| && forall u :: u in ranks ==> u in best
    ensures forall u :: u in Rotate(ranks, p, i) ==> u in best
    ensures Along(best, Rotate(ranks, p, i)) == Rotate(Along(best, ranks), p, i)
  {
    RotateKeepsOrdering(ranks, p, i);
    forall u | u in Rotate(ranks, p, i) ensures u in best {
      assert u in Elements(Rotate(ranks, p, i));
    }
  }

  lemma RerankKeepsBoard(g: GameState, u: string, w: Word)
    requires GameOk(g) && u in g.sessions && IsRecorded(w, g.secret)
    ensures var r := g.Record(u, w).Rerank(u);
      && Elements(r.ranks) == Elements(g.ranks) && NoDuplicates(r.ranks)
      && r.BoardHasSessions()
      && Ordered(Along(r.Bests(), r.ranks))
  {
    var played := g.Record(u, w);
    if u in g.ranks {
      var i, p := IndexOf(g.ranks, u), played.Stop(u);
      RecordChangesOneEntry(g, u, w);
      BestsAreTimed(g);
      ClimbKeepsOrder(Along(g.Bests(), g.ranks), i, g.sessions[u].Play(w).BestGuess());
      RotateKeepsOrdering(g.ranks, p, i);
      AlongRotated(played.Bests(), g.ranks, p, i);
      assert played.Rerank(u).Bests() == played.Bests();
    } else {
      assert Along(played.Bests(), g.ranks) == Along(g.Bests(), g.ranks);
    }
  }

  lemma JoinKeepsGame(g: GameState, p: Player)
    requires GameOk(g) && p.username !in g.sessions
    ensures GameOk(g.Join(p))
  {
    assert Along(g.Join(p).Bests(), g.ranks) == Along(g.Bests(), g.ranks);
  }

  lemma StartKeepsGame(g: GameState, now: int, order: seq<string>)
    requires GameOk(g) && NobodyPlayed(g) && IsOrdering(order, g.sessions.Keys)
    ensures GameOk(g.Start(now, order)) && Covers(g.Start(now, order))
    ensures g.Start(now, order).startedAt == Some(now) && g.Start(now, order).endedAt == g.endedAt
  {
    forall u | u in order ensures u in g.sessions { assert u in Elements(order); }
    forall u | u in g.sessions ensures g.sessions[u].BestGuess() == ZERO_WORD {
      BestIsMaximum(g.sessions[u].guesses);
    }
  }

  // ---------- the end of a game ----------

  /** Ended sessions that the counter has not counted; zero in a game that was never reloaded. */
  function Uncounted(g: GameState): int { |g.EndedPlayers()| - g.finished }

  /** A play changes the set of ended sessions and the counter alike, and ends the game exactly when all sessions
      have ended and none is uncounted. */
  lemma PlayCounts(g: GameState, u: string, guess: Word, at: int, end: int)
    requires g.BoardHasSessions() && Uncounted(g) >= 0
    ensures var r := g.Play(u, guess, at, end);
      && Uncounted(r.game) == Uncounted(g)
      && r.game.endedAt ==
           (if r.err.None? && Uncounted(g) == 0 && r.game.EndedPlayers() == r.game.sessions.Keys then Some(end)
            else g.endedAt)
  {
    if u in g.sessions && !g.sessions[u].Ended() {
      var ranked := g.Record(u, g.Recorded(guess, at)).Rerank(u);
      RecordEnds(g, u, g.Recorded(guess, at));
      assert ranked.Count(u, end).EndedPlayers() == ranked.EndedPlayers();
      SubsetSize(ranked.EndedPlayers(), ranked.sessions.Keys);
    }
  }

  lemma RecordEnds(g: GameState, u: string, w: Word)
    requires g.BoardHasSessions() && u in g.sessions && !g.sessions[u].Ended()
    ensures var r := g.Record(u, w).Rerank(u);
      && r.sessions.Keys == g.sessions.Keys && r.finished == g.finished && r.endedAt == g.endedAt
      && u !in g.EndedPlayers()
      && r.EndedPlayers() == if r.sessions[u].Ended() then g.EndedPlayers() + {u} else g.EndedPlayers()
  {
  }

  datatype Move = Move(player: string, text: string, at: int, end: int)

  function PlayMove(g: GameState, m: Move): GameState
    requires g.BoardHasSessions()
  {
    g.Play(m.player, NewWord(m.text), m.at, m.end).game
  }

  /** A move is refused and changes nothing, or adds its recorded guess to its player's session. */
  lemma OutcomeOf(g: GameState, m: Move)
    requires g.BoardHasSessions()
    ensures var r := g.Play(m.player, NewWord(m.text), m.at, m.end);
      if m.player in g.sessions && !g.sessions[m.player].Ended() then
        var w := g.Recorded(NewWord(m.text), m.at);
        && r.err.None? && r.guess == w && r.isBest == g.sessions[m.player].IsBest(w)
        && r.game.sessions == g.sessions[m.player := g.sessions[m.player].Play(w)]
      else
        && r.game == g && r.offset == 0 && !r.isBest
        && r.err == Some(if m.player in g.sessions then SessionEnded else PlayerNotFound)
  {
    if m.player in g.sessions && !g.sessions[m.player].Ended() {
      var w := g.Recorded(NewWord(m.text), m.at);
      assert PlayMove(g, m) == g.Record(m.player, w).Rerank(m.player).Count(m.player, m.end);
    }
  }

  /** Those above `u` on the one board and below on the other. */
  function Passed(before: seq<string>, after: seq<string>, u: string): set<string>
    requires u in before && u in after
  {
    set v | v in before && v in after && IndexOf(before, v) < IndexOf(before, u) && IndexOf(after, v) > IndexOf(after, u)
  }

  lemma IndexIs(s: seq<string>, x: string, i: nat)
    requires NoDuplicates(s) && i < |s| && s[i] == x
    ensures x in s && IndexOf(s, x) == i
  {
  }

  /** Where an entry stands after the one at `i` has moved up to `p`. */
  lemma RotatedIndex(s: seq<string>, p: nat, i: nat, k: nat)
    requires NoDuplicates(s) && p <= i < |s| && k < |s|
    ensures s[k] in Rotate(s, p, i)
    ensures IndexOf(Rotate(s, p, i), s[k]) == if k < p || k > i then k else if k == i then p else k + 1
  {
    var r := Rotate(s, p, i);
    RotateKeepsOrdering(s, p, i);
    var at := if k < p || k > i then k else if k == i then p else k + 1;
    assert r[at] == s[k];
    IndexIs(r, s[k], at);
  }

  lemma PassedOrNot(s: seq<string>, p: nat, i: nat, v: string)
    requires NoDuplicates(s) && p <= i < |s| && s[i] in Rotate(s, p, i)
    ensures v in Passed(s, Rotate(s, p, i), s[i]) <==> v in s[p..i]
  {
    IndexIs(s, s[i], i);
    RotatedIndex(s, p, i, i);
    if v in s { RotatedIndex(s, p, i, IndexOf(s, v)); }
    if v in s[p..i] {
      var j :| 0 <= j < i - p && s[p..i][j] == v;
      IndexIs(s, v, p + j);
    }
    if v in s && p <= IndexOf(s, v) < i { assert s[p..i][IndexOf(s, v) - p] == v; }
  }

  /** Moving one entry up passes exactly the entries in between. */
  lemma RotationPasses(s: seq<string>, p: nat, i: nat)
    requires NoDuplicates(s) && p <= i < |s|
    ensures s[i] in Rotate(s, p, i) && IndexOf(Rotate(s, p, i), s[i]) == p
    ensures Passed(s, Rotate(s, p, i), s[i]) == Elements(s[p..i])
    ensures |Passed(s, Rotate(s, p, i), s[i])| == i - p
  {
    RotatedIndex(s, p, i, i);
    forall v ensures v in Passed(s, Rotate(s, p, i), s[i]) <==> v in s[p..i] { PassedOrNot(s, p, i, v); }
    assert Passed(s, Rotate(s, p, i), s[i]) == Elements(s[p..i]);
    ElementsSize(s[p..i]);
  }

  /** A guess beats the best guess of everyone between its player's old place and the new one. */
  lemma ClimbedPastWeaker(g: GameState, u: string, v: string)
    requires g.BoardHasSessions() && u in g.ranks && v in g.ranks[g.Stop(u)..IndexOf(g.ranks, u)]
    ensures v in g.sessions && g.sessions[u].BestGuess().GreaterThan(g.sessions[v].BestGuess())
  {
    var p, i := g.Stop(u), IndexOf(g.ranks, u);
    var k :| 0 <= k < i - p && g.ranks[p..i][k] == v;
    ClimbBeats(Along(g.Bests(), g.ranks), i, p + k);
    AlongHolds(g, i);
    AlongHolds(g, p + k);
  }

  lemma AlongHolds(g: GameState, k: nat)
    requires g.BoardHasSessions() && k < |g.ranks|
    ensures g.ranks[k] in g.sessions && Along(g.Bests(), g.ranks)[k] == g.sessions[g.ranks[k]].BestGuess()
  {
  }

  lemma BoardAfterMove(g: GameState, m: Move)
    requires g.BoardHasSessions() && m.player in g.sessions && !g.sessions[m.player].Ended()
    ensures var r := g.Play(m.player, NewWord(m.text), m.at, m.end);
      var played := g.Record(m.player, g.Recorded(NewWord(m.text), m.at));
      && r.game.ranks == played.Rerank(m.player).ranks && r.offset == played.Displaced(m.player)
      && r.game.sessions == played.sessions
  {
  }

  /** What Play answers about the board: the player's gain in places, which is the number of players passed, all of whom
      the player's best guess now beats; a player not on the board passes nobody. */
  lemma OffsetIsPlacesGained(g: GameState, m: Move)
    requires g.BoardHasSessions() && NoDuplicates(g.ranks) && m.player in g.sessions && !g.sessions[m.player].Ended()
    ensures var r := g.Play(m.player, NewWord(m.text), m.at, m.end);
      if m.player in g.ranks then
        && m.player in r.game.ranks
        && r.offset == IndexOf(g.ranks, m.player) - IndexOf(r.game.ranks, m.player)
        && r.offset == |Passed(g.ranks, r.game.ranks, m.player)|
        && forall v :: v in Passed(g.ranks, r.game.ranks, m.player) ==>
             v in r.game.sessions && r.game.sessions[m.player].BestGuess().GreaterThan(r.game.sessions[v].BestGuess())
      else r.offset == 0 && r.game.ranks == g.ranks
  {
    var u := m.player;
    var played := g.Record(u, g.Recorded(NewWord(m.text), m.at));
    BoardAfterMove(g, m);
    if u in g.ranks {
      var i, p := IndexOf(g.ranks, u), played.Stop(u);
      RotationPasses(g.ranks, p, i);
      forall v | v in g.ranks[p..i]
        ensures v in played.sessions && played.sessions[u].BestGuess().GreaterThan(played.sessions[v].BestGuess())
      {
        ClimbedPastWeaker(played, u, v);
      }
    }
  }

  lemma MoveExtends(g: GameState, m: Move)
    requires g.BoardHasSessions()
    ensures var r := PlayMove(g, m);
      && r.sessions.Keys == g.sessions.Keys
      && r == g.(sessions := r.sessions, ranks := r.ranks, finished := r.finished, endedAt := r.endedAt)
      && forall u :: u in g.sessions ==>
           r.sessions[u] == g.sessions[u]
           || (u == m.player && r.sessions[u] == g.sessions[u].Play(g.Recorded(NewWord(m.text), m.at)))
  {
    OutcomeOf(g, m);
  }

  /** The game after a slice of moves. */
  function PlayAll(g: GameState, moves: seq<Move>): (r: GameState)
    requires GameOk(g) && forall m :: m in moves ==> m.at > 0
    ensures GameOk(r) && (Covers(g) ==> Covers(r))
    ensures r.sessions.Keys == g.sessions.Keys && r.secret == g.secret && r.id == g.id
    decreases |moves|
  {
    if moves == [] then g
    else
      var last := |moves| - 1;
      var before := PlayAll(g, moves[..last]);
      PlayKeepsGame(before, moves[last].player, moves[last].text, moves[last].at, moves[last].end);
      MoveExtends(before, moves[last]);
      PlayMove(before, moves[last])
  }

  lemma PlayOneMore(g: GameState, moves: seq<Move>, m: Move)
    requires GameOk(g) && m.at > 0 && forall k :: k in moves ==> k.at > 0
    ensures PlayAll(g, moves + [m]) == PlayMove(PlayAll(g, moves), m)
  {
    var all := moves + [m];
    assert all[..|all| - 1] == moves && all[|all| - 1] == m;
  }

  predicate OnTime(moves: seq<Move>) { forall m :: m in moves ==> m.at > 0 }

  /** What a move does to the sessions. */
  function PlayOn(s: map<string, SessionState>, secret: Word, m: Move): map<string, SessionState> {
    if m.player in s && !s[m.player].Ended()
    then s[m.player := s[m.player].Play(Checked(NewWord(m.text).(playedAt := NullTime(m.at, true)), secret))] else s
  }

  function PlayOnAll(s: map<string, SessionState>, secret: Word, moves: seq<Move>): map<string, SessionState> {
    if moves == [] then s
    else PlayOn(PlayOnAll(s, secret, moves[..|moves| - 1]), secret, moves[|moves| - 1])
  }

  lemma MoveIsPlayedOn(g: GameState, m: Move)
    requires g.BoardHasSessions()
    ensures PlayMove(g, m).sessions == PlayOn(g.sessions, g.secret, m)
  {
    OutcomeOf(g, m);
  }

  lemma {:induction false} SessionsFollow(g: GameState, moves: seq<Move>)
    requires GameOk(g) && OnTime(moves)
    ensures PlayAll(g, moves).sessions == PlayOnAll(g.sessions, g.secret, moves)
    decreases |moves|
  {
    if moves != [] {
      var rest, m := moves[..|moves| - 1], moves[|moves| - 1];
      SessionsFollow(g, rest);
      MoveIsPlayedOn(PlayAll(g, rest), m);
      assert moves == rest + [m];
      PlayOneMore(g, rest, m);
    }
  }

  lemma {:induction false} PlayOnTwice(s: map<string, SessionState>, secret: Word, a: seq<Move>, b: seq<Move>)
    ensures PlayOnAll(s, secret, a + b) == PlayOnAll(PlayOnAll(s, secret, a), secret, b)
    decreases |b|
  {
    if b == [] {
      assert a + b == a;
    } else {
      PlayOnTwice(s, secret, a, b[..|b| - 1]);
      assert (a + b)[..|a + b| - 1] == a + b[..|b| - 1];
    }
  }

  /** Once every session has ended nothing more is accepted; a rejected move changes nothing. */
  lemma RejectedWhenAllEnded(g: GameState, m: Move)
    requires g.BoardHasSessions()
    ensures g.EndedPlayers() == g.sessions.Keys ==> g.Play(m.player, NewWord(m.text), m.at, m.end).err.Some?
    ensures g.Play(m.player, NewWord(m.text), m.at, m.end).err.Some? ==> PlayMove(g, m) == g
  {
    if g.EndedPlayers() == g.sessions.Keys && m.player in g.sessions {
      assert m.player in g.EndedPlayers();
    }
  }

  lemma {:induction false} AllEndedIsFinal(g: GameState, moves: seq<Move>)
    requires GameOk(g) && g.EndedPlayers() == g.sessions.Keys && forall m :: m in moves ==> m.at > 0
    ensures PlayAll(g, moves) == g
    decreases |moves|
  {
    if moves != [] {
      AllEndedIsFinal(g, moves[..|moves| - 1]);
      RejectedWhenAllEnded(g, moves[|moves| - 1]);
    }
  }

  /** The game has ended after a run of moves exactly when every session has, provided no ended session went
      uncounted at the start; with an uncounted one it never ends. */
  lemma {:induction false} EndsWithTheLastSession(g: GameState, moves: seq<Move>)
    requires GameOk(g) && forall m :: m in moves ==> m.at > 0
    requires Uncounted(g) >= 0 && g.endedAt.None? && g.EndedPlayers() != g.sessions.Keys
    ensures var r := PlayAll(g, moves);
      && Uncounted(r) == Uncounted(g)
      && (r.endedAt.Some? <==> Uncounted(g) == 0 && r.EndedPlayers() == r.sessions.Keys)
    decreases |moves|
  {
    if moves != [] {
      var last := |moves| - 1;
      var m := moves[last];
      EndsWithTheLastSession(g, moves[..last]);
      var before := PlayAll(g, moves[..last]);
      PlayCounts(before, m.player, NewWord(m.text), m.at, m.end);
      RejectedWhenAllEnded(before, m);
    }
  }

  // ---------- whole runs ----------

  datatype Event = Joined(player: Player) | Started(now: int, order: seq<string>) | Played(move: Move)

  /** What the room lets happen: joining under a new name, starting before anyone has played, playing any time. */
  predicate Admissible(g: GameState, e: Event) {
    match e
    case Joined(p) => p.username !in g.sessions
    case Started(_, order) => NobodyPlayed(g) && IsOrdering(order, g.sessions.Keys)
    case Played(m) => m.at > 0
  }

  function Apply(g: GameState, e: Event): GameState
    requires g.BoardHasSessions()
  {
    match e
    case Joined(p) => g.Join(p)
    case Started(now, order) => g.Start(now, order)
    case Played(m) => PlayMove(g, m)
  }

  /** `states` is a run: each state follows from the one before by an admissible event. */
  predicate IsRun(states: seq<GameState>, events: seq<Event>) {
    && |states| == |events| + 1
    && forall i :: 0 <= i < |events| ==>
         states[i].BoardHasSessions() && Admissible(states[i], events[i]) && states[i + 1] == Apply(states[i], events[i])
  }

  lemma EventKeepsGame(g: GameState, e: Event)
    requires GameOk(g) && Uncounted(g) == 0 && Admissible(g, e)
    ensures var r := Apply(g, e);
      && GameOk(r) && Uncounted(r) == 0
      && (r.id, r.creator, r.secret, r.createdAt) == (g.id, g.creator, g.secret, g.createdAt)
  {
    match e
    case Joined(p) =>
      JoinKeepsGame(g, p);
      assert g.Join(p).EndedPlayers() == g.EndedPlayers();
    case Started(now, order) =>
      StartKeepsGame(g, now, order);
      assert g.Start(now, order).EndedPlayers() == g.EndedPlayers();
    case Played(m) =>
      PlayKeepsGame(g, m.player, m.text, m.at, m.end);
      PlayCounts(g, m.player, NewWord(m.text), m.at, m.end);
      MoveExtends(g, m);
  }

  /** In every state reachable from a new game the board is ordered, no session is malformed and the counter
      counts exactly the ended sessions. */
  lemma {:induction false} EveryReachableGame(
    states: seq<GameState>, events: seq<Event>, id: string, creator: string, secret: Word, now: int)
    requires IsRun(states, events) && states[0] == NewGame(id, creator, secret, now) && secret.word != ""
    ensures GameOk(states[|events|]) && Uncounted(states[|events|]) == 0
    ensures var g := states[|events|]; (g.id, g.creator, g.secret, g.createdAt) == (id, creator, secret, now)
    decreases |events|
  {
    if events != [] {
      var n := |events| - 1;
      EveryReachableGame(states[..n + 1], events[..n], id, creator, secret, now);
      var g := states[n];
      EventKeepsGame(g, events[n]);
    } else {
      assert states[0].EndedPlayers() == {};
    }
  }

  // ---------- strictly increasing clocks ----------

  /** Every guess was made by time `t`, and guesses of different players at different times. */
  predicate StampedBy(g: GameState, t: int) {
    && (forall u :: u in g.sessions ==> forall w :: w in g.sessions[u].guesses ==> w.playedAt.time <= t)
    && (forall u, v :: u in g.sessions && v in g.sessions && u != v ==>
          forall a, b :: a in g.sessions[u].guesses && b in g.sessions[v].guesses ==> a.playedAt.time != b.playedAt.time)
  }

  lemma StampsAreDistinct(g: GameState, t: int)
    requires GameOk(g) && StampedBy(g, t)
    ensures DistinctTimes(g.Bests())
  {
    forall u, v | u in g.sessions && v in g.sessions && u != v
        && g.Bests()[u].Scores() && g.Bests()[u].SameKey(g.Bests()[v])
      ensures g.Bests()[u].playedAt.time != g.Bests()[v].playedAt.time
    {
      BestIsMaximum(g.sessions[u].guesses);
      BestIsMaximum(g.sessions[v].guesses);
    }
  }

  predicate Increasing(t: int, moves: seq<Move>) {
    && (forall i :: 0 <= i < |moves| ==> moves[i].at > t)
    && (forall i, j :: 0 <= i < j < |moves| ==> moves[i].at < moves[j].at)
  }

  ghost predicate AddsGuessOf(g: GameState, r: GameState, player: string, at: int) {
    forall u, w :: u in r.sessions && w in r.sessions[u].guesses ==>
      u in g.sessions && (w in g.sessions[u].guesses || (u == player && w.playedAt.time == at))
  }

  lemma LaterGuessKeepsStamps(g: GameState, r: GameState, player: string, t: int, at: int)
    requires StampedBy(g, t) && at > t && AddsGuessOf(g, r, player, at)
    ensures StampedBy(r, at)
  {
  }

  lemma MoveAddsGuess(g: GameState, m: Move)
    requires g.BoardHasSessions()
    ensures AddsGuessOf(g, PlayMove(g, m), m.player, m.at)
  {
    MoveExtends(g, m);
  }

  lemma MoveKeepsStamps(g: GameState, t: int, m: Move)
    requires g.BoardHasSessions() && StampedBy(g, t) && m.at > t
    ensures StampedBy(PlayMove(g, m), m.at)
  {
    MoveAddsGuess(g, m);
    LaterGuessKeepsStamps(g, PlayMove(g, m), m.player, t, m.at);
  }

  function LastTime(t: int, moves: seq<Move>): int {
    if moves == [] then t else moves[|moves| - 1].at
  }

  /** Under a clock that never repeats a reading, no two players' guesses share a time. */
  lemma {:induction false} RunKeepsStamps(g: GameState, t: int, moves: seq<Move>)
    requires GameOk(g) && StampedBy(g, t) && Increasing(t, moves)
    requires forall m :: m in moves ==> m.at > 0
    ensures StampedBy(PlayAll(g, moves), LastTime(t, moves))
    decreases |moves|
  {
    if moves != [] {
      var last := |moves| - 1;
      var rest, m := moves[..last], moves[last];
      RunKeepsStamps(g, t, rest);
      assert LastTime(t, rest) < m.at;
      MoveKeepsStamps(PlayAll(g, rest), LastTime(t, rest), m);
    }
  }

  /** A well-formed board of all players agrees with a full sort of it on every entry that scores. */
  lemma SortedAgrees(g: GameState, sorted: seq<string>)
    requires GameOk(g) && Covers(g) && DistinctTimes(g.Bests()) && SortedBoard(g.Bests(), g.ranks, sorted)
    ensures var n := |ScoringPlayers(g.Bests())|; n <= |g.ranks| && n <= |sorted| && g.ranks[..n] == sorted[..n]
  {
    BestsAreTimed(g);
    assert ScoringTimed(g.Bests()) ==> Timed(Along(g.Bests(), sorted));
    assert g.Bests().Keys == g.sessions.Keys;
    OrderedBoardsAgree(g.Bests(), g.ranks, sorted);
  }

  /** The fast form refines the simple one: after any moves under a clock that never repeats a reading, the board that
      was only ever bubbled lists every scoring player where a full sort would put them. */
  lemma BubbledIsSorted(g: GameState, t: int, moves: seq<Move>, sorted: seq<string>)
    requires GameOk(g) && Covers(g) && StampedBy(g, t) && Increasing(t, moves)
    requires forall m :: m in moves ==> m.at > 0
    requires SortedBoard(PlayAll(g, moves).Bests(), PlayAll(g, moves).ranks, sorted)
    ensures var r := PlayAll(g, moves); var n := |ScoringPlayers(r.Bests())|;
      n <= |r.ranks| && n <= |sorted| && r.ranks[..n] == sorted[..n]
  {
    RunKeepsStamps(g, t, moves);
    StampsAreDistinct(PlayAll(g, moves), LastTime(t, moves));
    SortedAgrees(PlayAll(g, moves), sorted);
  }
}
