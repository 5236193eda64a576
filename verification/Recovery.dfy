/** Crash recovery: a game reloaded from the hot store carries on as if it had never stopped. */
module Recovery {
  import opened Collections
  import opened Words
  import opened Leaderboard
  import opened GameModel
  import opened Redis

  /** The store holds everything the game would need to be rebuilt: the guess log of every player,
      and in the leaderboard hash every player's best guess. */
  predicate InSync(g: GameState, s: Store) {
    && Described(g, s)
    && forall u :: u in g.sessions ==> Logged(g.sessions[u], s.Guesses(g.id, u), u, s.Board(g.id))
  }

  /** The store holds the metadata and the players of the game as it started, and no logs but those of its players. */
  predicate Described(g: GameState, s: Store) {
    && (forall k :: k in s.guesses && k.0 == g.id ==> k.1 in g.sessions)
    && g.id in s.games
    && var m := s.games[g.id];
    && m.endedAt.None?
    && Stored(g.(endedAt := None), m.players) == m
    && Elements(m.players) == g.sessions.Keys
  }

  predicate Logged(session: SessionState, log: seq<Word>, u: string, board: map<string, Word>) {
    && log == session.guesses
    && (session.best.Some? <==> u in board)
    && (u in board ==> session.best == Some(board[u]))
  }

  /** A game as it starts is in sync with what CreateGame stores of it under an unused id. */
  lemma CreatedInSync(g: GameState, s: Store, players: seq<string>)
    requires GameOk(g) && NobodyPlayed(g) && g.endedAt.None? && IsOrdering(players, g.sessions.Keys)
    requires g.id !in s.boards && forall u :: (g.id, u) !in s.guesses
    ensures InSync(g, s.(games := s.games[g.id := Stored(g, players)]))
  {
    forall u | u in g.sessions ensures g.sessions[u].best.None? {
      BestIsMaximum(g.sessions[u].guesses);
    }
  }

  /** What a live move does to the store: only accepted moves are logged, and either write may fail. */
  function StoreMove(g: GameState, s: Store, m: Move, pushOk: bool, hashOk: bool): Store
    requires g.BoardHasSessions()
  {
    var r := g.Play(m.player, NewWord(m.text), m.at, m.end);
    if r.err.Some? then s else s.AddGuess(g.id, m.player, r.guess, r.isBest, pushOk, hashOk)
  }

  lemma MoveKeepsSync(g: GameState, s: Store, m: Move)
    requires g.BoardHasSessions() && InSync(g, s)
    ensures InSync(PlayMove(g, m), StoreMove(g, s, m, true, true))
  {
    MoveExtends(g, m);
    MoveKeepsLogs(g, s, m);
  }

  lemma MoveKeepsLogs(g: GameState, s: Store, m: Move)
    requires g.BoardHasSessions()
    requires forall u :: u in g.sessions ==> Logged(g.sessions[u], s.Guesses(g.id, u), u, s.Board(g.id))
    ensures var r, t := PlayMove(g, m), StoreMove(g, s, m, true, true);
      r.sessions.Keys == g.sessions.Keys && t.games == s.games
      && forall u :: u in r.sessions ==> Logged(r.sessions[u], t.Guesses(g.id, u), u, t.Board(g.id))
  {
    var r, t := g.Play(m.player, NewWord(m.text), m.at, m.end), StoreMove(g, s, m, true, true);
    OutcomeOf(g, m);
    if r.err.None? {
      forall u | u in g.sessions ensures Logged(r.game.sessions[u], t.Guesses(g.id, u), u, t.Board(g.id)) {
        assert Logged(g.sessions[u], s.Guesses(g.id, u), u, s.Board(g.id));
        AddGuessLogs(s, g.id, m.player, r.guess, g.sessions[u], u);
      }
    }
  }

  /** AddGuess logs the guess for its player and leaves every other player's log and best guess alone. */
  lemma AddGuessLogs(s: Store, id: string, player: string, w: Word, session: SessionState, u: string)
    requires Logged(session, s.Guesses(id, u), u, s.Board(id))
    ensures forall isBest :: u != player ==>
      var t := s.AddGuess(id, player, w, isBest, true, true); Logged(session, t.Guesses(id, u), u, t.Board(id))
    ensures u == player ==>
      var t := s.AddGuess(id, player, w, session.IsBest(w), true, true);
      Logged(session.Play(w), t.Guesses(id, u), u, t.Board(id))
  {
  }

  // ---------- what survives ----------

  /** The same players have made the same guesses with the same best ones. */
  predicate SameProgress(a: GameState, b: GameState) {
    && a.id == b.id && a.secret == b.secret && a.sessions.Keys == b.sessions.Keys
    && forall u :: u in a.sessions ==>
         a.sessions[u].guesses == b.sessions[u].guesses && a.sessions[u].best == b.sessions[u].best
  }

  /** A reloaded game has the progress of the game that was stored, an ordered board of all its players,
      and is again in sync with the store. */
  lemma LoadedHasSameProgress(g: GameState, s: Store, r: GameState)
    requires GameOk(g) && InSync(g, s) && Loads(s, g.id, r)
    ensures SameProgress(g, r) && GameOk(r) && Covers(r) && InSync(r, s)
  {
    var players := s.games[g.id].players;
    forall u ensures u in players <==> u in g.sessions {
      assert u in Elements(players) <==> u in players;
    }
    forall u | u in g.sessions
      ensures r.sessions[u].guesses == g.sessions[u].guesses && r.sessions[u].best == g.sessions[u].best
      ensures SessionOk(u, r.sessions[u], r.secret)
    {
      assert Logged(g.sessions[u], s.Guesses(g.id, u), u, s.Board(g.id));
      assert SessionOk(u, g.sessions[u], g.secret);
    }
    BestsAreTimed(r);
    assert forall u :: u in g.sessions ==> Logged(r.sessions[u], s.Guesses(g.id, u), u, s.Board(g.id))
      by {
        forall u | u in g.sessions ensures Logged(r.sessions[u], s.Guesses(g.id, u), u, s.Board(g.id)) {
          assert Logged(g.sessions[u], s.Guesses(g.id, u), u, s.Board(g.id));
        }
      }
  }

  /** Equal progress makes equal moves: accepted or refused alike, with the same recorded guess, the same best flag
      and again equal progress. */
  lemma SameMove(a: GameState, b: GameState, m: Move)
    requires SameProgress(a, b) && a.BoardHasSessions() && b.BoardHasSessions()
    ensures SameProgress(PlayMove(a, m), PlayMove(b, m))
    ensures var x, y := a.Play(m.player, NewWord(m.text), m.at, m.end), b.Play(m.player, NewWord(m.text), m.at, m.end);
      x.err == y.err && x.guess == y.guess && x.isBest == y.isBest
  {
    MoveExtends(a, m);
    MoveExtends(b, m);
    OutcomeOf(a, m);
    OutcomeOf(b, m);
  }

  lemma SameBests(a: GameState, b: GameState)
    requires SameProgress(a, b)
    ensures a.Bests() == b.Bests()
    ensures a.EndedPlayers() == b.EndedPlayers() && a.Winners() == b.Winners()
  {
    forall u | u in a.sessions
      ensures a.sessions[u].BestGuess() == b.sessions[u].BestGuess()
      ensures a.sessions[u].Ended() == b.sessions[u].Ended() && a.sessions[u].Won() == b.sessions[u].Won()
    {
    }
  }

  /** Two games with the same progress and ordered boards of all players agree on every entry that scores. */
  lemma SameScoringBoard(a: GameState, b: GameState)
    requires SameProgress(a, b) && GameOk(a) && GameOk(b) && Covers(a) && Covers(b)
    requires DistinctTimes(a.Bests())
    ensures a.Bests() == b.Bests()
    ensures var n := |ScoringPlayers(a.Bests())|;
      n <= |a.ranks| && n <= |b.ranks| && a.ranks[..n] == b.ranks[..n]
  {
    SameBests(a, b);
    BestsAreTimed(a);
    assert a.Bests().Keys == a.sessions.Keys;
    OrderedBoardsAgree(a.Bests(), a.ranks, b.ranks);
  }

  // ---------- runs with crashes ----------

  /** Either a move, each of whose writes to the store gets through or not, or a crash from which some loadable game
      is recovered. */
  datatype Step = Moved(move: Move, pushOk: bool, hashOk: bool) | Crashed(recovered: GameState)

  datatype Live = Live(game: GameState, store: Store)

  predicate Follows(before: Live, step: Step, after: Live) {
    match step
    case Moved(m, pushOk, hashOk) =>
      before.game.BoardHasSessions()
      && after == Live(PlayMove(before.game, m), StoreMove(before.game, before.store, m, pushOk, hashOk))
    case Crashed(r) =>
      Loads(before.store, before.game.id, r) && after == Live(r, before.store)
  }

  predicate IsLiveRun(states: seq<Live>, steps: seq<Step>) {
    |states| == |steps| + 1 && forall i :: 0 <= i < |steps| ==> Follows(states[i], steps[i], states[i + 1])
  }

  predicate OnTheClock(steps: seq<Step>) {
    forall i :: 0 <= i < |steps| && steps[i].Moved? ==> steps[i].move.at > 0
  }

  /** Every write got through. */
  predicate AllWritten(steps: seq<Step>) {
    forall i :: 0 <= i < |steps| && steps[i].Moved? ==> steps[i].pushOk && steps[i].hashOk
  }

  /** The moves among the first `n` steps, crashes forgotten. */
  function Moves(steps: seq<Step>, n: nat): (moves: seq<Move>)
    requires n <= |steps|
    ensures OnTheClock(steps) ==> forall m :: m in moves ==> m.at > 0
  {
    if n == 0 then []
    else
      match steps[n - 1]
      case Moved(m, _, _) => Moves(steps, n - 1) + [m]
      case Crashed(_) => Moves(steps, n - 1)
  }

  /** A well-formed game of players who are all on the board, in step with its store. */
  predicate Intact(l: Live) {
    GameOk(l.game) && Covers(l.game) && InSync(l.game, l.store)
  }

  /** The game after the first `n` steps, had the server not crashed. */
  function Uninterrupted(g: GameState, steps: seq<Step>, n: nat): (r: GameState)
    requires GameOk(g) && OnTheClock(steps) && n <= |steps|
    ensures GameOk(r)
  {
    PlayAll(g, Moves(steps, n))
  }

  /** Under crashes anywhere the game stays well formed and the store in step with it. */
  lemma {:induction false} RunStaysIntact(states: seq<Live>, steps: seq<Step>, n: nat)
    requires IsLiveRun(states, steps) && AllWritten(steps) && OnTheClock(steps) && Intact(states[0]) && n <= |steps|
    ensures Intact(states[n])
  {
    if n > 0 {
      RunStaysIntact(states, steps, n - 1);
      StepKeepsIntact(states[n - 1], steps[n - 1], states[n]);
    }
  }

  /** After `n` steps the game has the guesses and best guesses of the uninterrupted one. */
  predicate Tracks(states: seq<Live>, steps: seq<Step>, n: nat)
    requires n <= |steps| < |states| && GameOk(states[0].game) && OnTheClock(steps)
  {
    SameProgress(Uninterrupted(states[0].game, steps, n), states[n].game)
  }

  lemma StepTracks(states: seq<Live>, steps: seq<Step>, n: nat)
    requires IsLiveRun(states, steps) && AllWritten(steps) && OnTheClock(steps) && Intact(states[0]) && n < |steps|
    requires Tracks(states, steps, n)
    ensures Tracks(states, steps, n + 1)
  {
    RunStaysIntact(states, steps, n);
    StepKeepsProgress(Uninterrupted(states[0].game, steps, n), states[n], steps[n], states[n + 1]);
    if steps[n].Moved? { PlayOneMore(states[0].game, Moves(steps, n), steps[n].move); }
  }

  lemma {:induction false} TracksToTheEnd(states: seq<Live>, steps: seq<Step>, n: nat)
    requires n <= |steps| < |states| && GameOk(states[0].game) && OnTheClock(steps)
    requires forall i :: 0 <= i < |steps| && Tracks(states, steps, i) ==> Tracks(states, steps, i + 1)
    ensures Tracks(states, steps, n)
  {
    if n > 0 {
      TracksToTheEnd(states, steps, n - 1);
      assert Tracks(states, steps, n - 1);
    }
  }

  /** However often and whenever the server crashes, and whatever order the reloads rebuild the board in, after any
      number of steps the game that goes on has the guesses and best guesses of the uninterrupted run. */
  lemma CrashesLoseNoProgress(states: seq<Live>, steps: seq<Step>, n: nat)
    requires IsLiveRun(states, steps) && AllWritten(steps) && OnTheClock(steps) && Intact(states[0]) && n <= |steps|
    ensures SameProgress(Uninterrupted(states[0].game, steps, n), states[n].game)
  {
    forall i | 0 <= i < |steps| && Tracks(states, steps, i) ensures Tracks(states, steps, i + 1) {
      StepTracks(states, steps, i);
    }
    TracksToTheEnd(states, steps, n);
  }

  lemma StepKeepsIntact(before: Live, step: Step, after: Live)
    requires Intact(before) && Follows(before, step, after)
    requires step.Moved? ==> step.move.at > 0 && step.pushOk && step.hashOk
    ensures Intact(after)
  {
    match step
    case Moved(m, _, _) =>
      PlayKeepsGame(before.game, m.player, m.text, m.at, m.end);
      MoveKeepsSync(before.game, before.store, m);
    case Crashed(r) =>
      LoadedHasSameProgress(before.game, before.store, r);
  }

  lemma StepKeepsProgress(unbroken: GameState, before: Live, step: Step, after: Live)
    requires unbroken.BoardHasSessions() && SameProgress(unbroken, before.game)
    requires Intact(before) && Follows(before, step, after)
    ensures SameProgress(if step.Moved? then PlayMove(unbroken, step.move) else unbroken, after.game)
  {
    match step
    case Moved(m, _, _) => SameMove(unbroken, before.game, m);
    case Crashed(r) => LoadedHasSameProgress(before.game, before.store, r);
  }

  /** Under a clock that never repeats a reading, every scoring entry also stands where it stood in the unbroken run. */
  lemma CrashesKeepTheBoard(states: seq<Live>, steps: seq<Step>, n: nat, t: int)
    requires IsLiveRun(states, steps) && AllWritten(steps) && OnTheClock(steps) && Intact(states[0]) && n <= |steps|
    requires StampedBy(states[0].game, t) && Increasing(t, Moves(steps, n))
    ensures var unbroken, now := Uninterrupted(states[0].game, steps, n), states[n].game;
      var k := |ScoringPlayers(unbroken.Bests())|;
      k <= |unbroken.ranks| && k <= |now.ranks| && now.ranks[..k] == unbroken.ranks[..k]
  {
    RunStaysIntact(states, steps, n);
    CrashesLoseNoProgress(states, steps, n);
    RunKeepsStamps(states[0].game, t, Moves(steps, n));
    StampsAreDistinct(Uninterrupted(states[0].game, steps, n), LastTime(t, Moves(steps, n)));
    SameScoringBoard(Uninterrupted(states[0].game, steps, n), states[n].game);
  }

  lemma {:induction false} SameProgressAfter(a: GameState, b: GameState, moves: seq<Move>)
    requires GameOk(a) && GameOk(b) && SameProgress(a, b) && forall m :: m in moves ==> m.at > 0
    ensures SameProgress(PlayAll(a, moves), PlayAll(b, moves))
    decreases |moves|
  {
    if moves != [] {
      var last := |moves| - 1;
      SameProgressAfter(a, b, moves[..last]);
      SameMove(PlayAll(a, moves[..last]), PlayAll(b, moves[..last]), moves[last]);
    }
  }

  // ---------- writes that fail ----------

  /** `log` is `guesses` with some left out. */
  predicate Lossy(log: seq<Word>, guesses: seq<Word>)
    decreases |guesses|
  {
    if log == [] then true
    else if guesses == [] then false
    else
      var n, k := |guesses| - 1, |log| - 1;
      Lossy(log, guesses[..n]) || (log[k] == guesses[n] && Lossy(log[..k], guesses[..n]))
  }

  lemma {:induction false} LossyWhole(log: seq<Word>, guesses: seq<Word>)
    requires Lossy(log, guesses) && |log| == |guesses|
    ensures log == guesses
  {
    if log != [] {
      var n := |guesses| - 1;
      if Lossy(log, guesses[..n]) { LossyPart(log, guesses[..n]); }
      LossyWhole(log[..n], guesses[..n]);
      assert log == log[..n] + [log[n]] && guesses == guesses[..n] + [guesses[n]];
    }
  }

  lemma LossyGrows(log: seq<Word>, guesses: seq<Word>, w: Word)
    requires Lossy(log, guesses)
    ensures Lossy(log, guesses + [w]) && Lossy(log + [w], guesses + [w])
  {
    assert (guesses + [w])[..|guesses|] == guesses && (log + [w])[..|log|] == log;
  }

  lemma {:induction false} LossyRefl(guesses: seq<Word>)
    ensures Lossy(guesses, guesses)
  {
    if guesses != [] { LossyRefl(guesses[..|guesses| - 1]); }
  }

  /** What is left is no longer than the whole, part of it, and but for its last guess part of the whole without
      the last. */
  lemma {:induction false} LossyPart(log: seq<Word>, guesses: seq<Word>)
    requires Lossy(log, guesses)
    ensures |log| <= |guesses|
    ensures forall i :: 0 <= i < |log| ==> log[i] in guesses
    ensures forall i :: 0 <= i < |log| - 1 ==> log[i] in guesses[..|guesses| - 1]
    decreases |guesses|
  {
    if log != [] {
      var n, k := |guesses| - 1, |log| - 1;
      if Lossy(log, guesses[..n]) {
        LossyPart(log, guesses[..n]);
      } else {
        LossyPart(log[..k], guesses[..n]);
        forall i | 0 <= i < k ensures log[i] in guesses[..n] { assert log[..k][i] == log[i]; }
      }
    }
  }

  /** The store describes the game, and has some of every player's guesses in order. */
  predicate Backed(g: GameState, s: Store) {
    && Described(g, s)
    && forall u :: u in g.sessions ==> Lossy(s.Guesses(g.id, u), g.sessions[u].guesses)
  }

  lemma InSyncIsBacked(g: GameState, s: Store)
    requires InSync(g, s)
    ensures Backed(g, s)
  {
    forall u | u in g.sessions ensures Lossy(s.Guesses(g.id, u), g.sessions[u].guesses) {
      assert Logged(g.sessions[u], s.Guesses(g.id, u), u, s.Board(g.id));
      LossyRefl(g.sessions[u].guesses);
    }
  }

  lemma MoveKeepsBacked(g: GameState, s: Store, m: Move, pushOk: bool, hashOk: bool)
    requires g.BoardHasSessions() && Backed(g, s)
    ensures Backed(PlayMove(g, m), StoreMove(g, s, m, pushOk, hashOk))
  {
    MoveExtends(g, m);
    MoveKeepsDescribed(g, s, m, pushOk, hashOk);
    forall u | u in g.sessions
      ensures Lossy(StoreMove(g, s, m, pushOk, hashOk).Guesses(g.id, u), PlayMove(g, m).sessions[u].guesses)
    {
      MoveKeepsLossy(g, s, m, pushOk, hashOk, u);
    }
  }

  lemma MoveKeepsDescribed(g: GameState, s: Store, m: Move, pushOk: bool, hashOk: bool)
    requires g.BoardHasSessions() && Described(g, s)
    ensures Described(PlayMove(g, m), StoreMove(g, s, m, pushOk, hashOk))
  {
    MoveExtends(g, m);
    OutcomeOf(g, m);
  }

  lemma MoveKeepsLossy(g: GameState, s: Store, m: Move, pushOk: bool, hashOk: bool, u: string)
    requires g.BoardHasSessions() && u in g.sessions && Lossy(s.Guesses(g.id, u), g.sessions[u].guesses)
    ensures u in PlayMove(g, m).sessions
    ensures Lossy(StoreMove(g, s, m, pushOk, hashOk).Guesses(g.id, u), PlayMove(g, m).sessions[u].guesses)
  {
    OutcomeOf(g, m);
    LossyGrows(s.Guesses(g.id, u), g.sessions[u].guesses, g.Recorded(NewWord(m.text), m.at));
  }

  lemma LossySessionIsOk(u: string, session: SessionState, log: seq<Word>, secret: Word)
    requires SessionOk(u, session, secret) && Lossy(log, session.guesses)
    ensures SessionOk(u, SessionState(Player(0, u), log, Replay(log), 0), secret)
  {
    LossyPart(log, session.guesses);
  }

  /** Whatever was lost, a reload is a well-formed game of the same players, and holds exactly what the store has. */
  lemma LoadedIsBacked(g: GameState, s: Store, r: GameState)
    requires GameOk(g) && Backed(g, s) && Loads(s, g.id, r)
    ensures GameOk(r) && Covers(r) && Backed(r, s)
    ensures r.id == g.id && r.secret == g.secret && r.startedAt == g.startedAt && r.endedAt.None?
    ensures r.creator == g.creator && r.createdAt == g.createdAt
    ensures r.sessions.Keys == g.sessions.Keys
    ensures forall u :: u in r.sessions ==> r.sessions[u].guesses == s.Guesses(g.id, u)
  {
    var players := s.games[g.id].players;
    forall u ensures u in players <==> u in g.sessions {
      assert u in Elements(players) <==> u in players;
    }
    forall u | u in r.sessions ensures SessionOk(u, r.sessions[u], r.secret) {
      LossySessionIsOk(u, g.sessions[u], s.Guesses(g.id, u), g.secret);
    }
    forall u | u in r.sessions ensures Lossy(s.Guesses(g.id, u), r.sessions[u].guesses) {
      LossyRefl(r.sessions[u].guesses);
    }
    BestsAreTimed(r);
  }

  /** The guesses of `u` that were accepted in the first `n` steps and whose push got through. */
  ghost function PushedIn(states: seq<Live>, steps: seq<Step>, n: nat, u: string): seq<Word>
    requires n <= |steps| < |states|
  {
    if n == 0 then [] else PushedIn(states, steps, n - 1, u) + PushedBy(states[n - 1].game, steps[n - 1], u)
  }

  /** The log of `u` as it was at first, then what got through in the first `n` steps. */
  ghost function Pushed(states: seq<Live>, steps: seq<Step>, n: nat, u: string): seq<Word>
    requires n <= |steps| < |states|
  {
    LogOf(states[0], u) + PushedIn(states, steps, n, u)
  }

  function PushedBy(g: GameState, step: Step, u: string): seq<Word> {
    if step.Moved? && step.pushOk && step.move.player == u && u in g.sessions && !g.sessions[u].Ended()
    then [g.Recorded(NewWord(step.move.text), step.move.at)] else []
  }

  /** A well-formed game of players who are all on the board, backed by its store. */
  predicate Recoverable(l: Live) {
    GameOk(l.game) && Covers(l.game) && Backed(l.game, l.store)
  }

  /** The same players' game. */
  predicate SamePlayers(before: Live, after: Live) {
    after.game.id == before.game.id && after.game.sessions.Keys == before.game.sessions.Keys
  }

  function LogOf(l: Live, u: string): seq<Word> { l.store.Guesses(l.game.id, u) }

  lemma StepKeepsRecoverable(before: Live, step: Step, after: Live)
    requires Recoverable(before) && Follows(before, step, after) && (step.Moved? ==> step.move.at > 0)
    ensures Recoverable(after)
  {
    match step
    case Moved(m, pushOk, hashOk) =>
      PlayKeepsGame(before.game, m.player, m.text, m.at, m.end);
      MoveKeepsBacked(before.game, before.store, m, pushOk, hashOk);
    case Crashed(r) =>
      LoadedIsBacked(before.game, before.store, r);
  }

  lemma MoveLogsPush(g: GameState, s: Store, m: Move, pushOk: bool, hashOk: bool, u: string)
    requires g.BoardHasSessions()
    ensures StoreMove(g, s, m, pushOk, hashOk).Guesses(g.id, u)
         == s.Guesses(g.id, u) + PushedBy(g, Moved(m, pushOk, hashOk), u)
  {
    OutcomeOf(g, m);
  }

  lemma StepLogsPush(before: Live, step: Step, after: Live, u: string)
    requires Recoverable(before) && Follows(before, step, after)
    ensures SamePlayers(before, after) && LogOf(after, u) == LogOf(before, u) + PushedBy(before.game, step, u)
  {
    match step
    case Moved(m, pushOk, hashOk) =>
      MoveExtends(before.game, m);
      MoveLogsPush(before.game, before.store, m, pushOk, hashOk, u);
    case Crashed(r) =>
      LoadedIsBacked(before.game, before.store, r);
  }

  lemma {:induction false} RunStaysRecoverable(states: seq<Live>, steps: seq<Step>, n: nat)
    requires IsLiveRun(states, steps) && OnTheClock(steps) && Recoverable(states[0]) && n <= |steps|
    ensures Recoverable(states[n])
  {
    if n > 0 {
      RunStaysRecoverable(states, steps, n - 1);
      StepKeepsRecoverable(states[n - 1], steps[n - 1], states[n]);
    }
  }

  ghost predicate LogIsPushed(states: seq<Live>, steps: seq<Step>, n: nat, u: string)
    requires n <= |steps| < |states|
  {
    LogOf(states[n], u) == Pushed(states, steps, n, u)
  }

  lemma PushedGrows(states: seq<Live>, steps: seq<Step>, n: nat, u: string)
    requires IsLiveRun(states, steps) && OnTheClock(steps) && Recoverable(states[0]) && 0 < n <= |steps|
    ensures SamePlayers(states[n - 1], states[n])
    ensures LogIsPushed(states, steps, n - 1, u) ==> LogIsPushed(states, steps, n, u)
  {
    RunStaysRecoverable(states, steps, n - 1);
    StepLogsPush(states[n - 1], steps[n - 1], states[n], u);
    Regroup(LogOf(states[0], u), PushedIn(states, steps, n - 1, u), PushedBy(states[n - 1].game, steps[n - 1], u));
  }

  lemma Regroup(a: seq<Word>, b: seq<Word>, c: seq<Word>)
    ensures (a + b) + c == a + (b + c)
  {
  }

  lemma {:induction false} RunKeepsPlayers(states: seq<Live>, steps: seq<Step>, n: nat)
    requires IsLiveRun(states, steps) && OnTheClock(steps) && Recoverable(states[0]) && n <= |steps|
    ensures SamePlayers(states[0], states[n])
  {
    if n > 0 {
      RunKeepsPlayers(states, steps, n - 1);
      PushedGrows(states, steps, n, "");
    }
  }

  lemma NothingPushedYet(states: seq<Live>, steps: seq<Step>, u: string)
    requires |steps| < |states|
    ensures LogIsPushed(states, steps, 0, u)
  {
  }

  /** A step keeps a log that is what was pushed. */
  lemma StepIsPushed(states: seq<Live>, steps: seq<Step>, n: nat, u: string)
    requires IsLiveRun(states, steps) && OnTheClock(steps) && Recoverable(states[0]) && n < |steps|
    ensures LogIsPushed(states, steps, n, u) ==> LogIsPushed(states, steps, n + 1, u)
  {
    PushedGrows(states, steps, n + 1, u);
  }

  /** Whatever writes fail and wherever the server crashes, the log of a player is what got through to it. */
  lemma LogsArePushes(states: seq<Live>, steps: seq<Step>, n: nat, u: string)
    requires IsLiveRun(states, steps) && OnTheClock(steps) && Recoverable(states[0]) && n <= |steps|
    ensures LogOf(states[n], u) == Pushed(states, steps, n, u)
  {
    NothingPushedYet(states, steps, u);
    forall i | 0 <= i < |steps| && LogIsPushed(states, steps, i, u) ensures LogIsPushed(states, steps, i + 1, u) {
      StepIsPushed(states, steps, i, u);
    }
    PushedToTheEnd(states, steps, n, u);
  }

  lemma {:induction false} PushedToTheEnd(states: seq<Live>, steps: seq<Step>, n: nat, u: string)
    requires n <= |steps| < |states| && LogIsPushed(states, steps, 0, u)
    requires forall i :: 0 <= i < |steps| && LogIsPushed(states, steps, i, u) ==> LogIsPushed(states, steps, i + 1, u)
    ensures LogIsPushed(states, steps, n, u)
  {
    if n > 0 {
      PushedToTheEnd(states, steps, n - 1, u);
      assert LogIsPushed(states, steps, n - 1, u);
    }
  }

  /** So a reload holds of every player exactly the guesses whose push got through, all of which the game that was lost
      had in that order. */
  lemma ReloadHoldsWhatWasPushed(states: seq<Live>, steps: seq<Step>, r: GameState, u: string)
    requires IsLiveRun(states, steps) && OnTheClock(steps) && Recoverable(states[0])
    requires Loads(states[|steps|].store, states[0].game.id, r) && u in states[0].game.sessions
    ensures GameOk(r) && r.sessions.Keys == states[0].game.sessions.Keys
    ensures r.sessions[u].guesses == Pushed(states, steps, |steps|, u)
    ensures r.sessions[u].best == Replay(r.sessions[u].guesses)
    ensures u in states[|steps|].game.sessions && Lossy(r.sessions[u].guesses, states[|steps|].game.sessions[u].guesses)
  {
    RunStaysRecoverable(states, steps, |steps|);
    RunKeepsPlayers(states, steps, |steps|);
    LogsArePushes(states, steps, |steps|, u);
    LoadedIsBacked(states[|steps|].game, states[|steps|].store, r);
  }
}
