/** What crashes leave of a game when writes to the hot store may fail: the game of the moves that survived. */
module Survival {
  import opened Words
  import opened Scoring
  import opened Leaderboard
  import opened GameModel
  import opened Redis
  import opened Recovery

  /** An accepted move, and whether its push got through. */
  datatype Kept = Kept(move: Move, pushed: bool)

  function OnlyPushed(kept: seq<Kept>): seq<Kept> {
    if kept == [] then []
    else
      var rest, k := OnlyPushed(kept[..|kept| - 1]), kept[|kept| - 1];
      if k.pushed then rest + [k] else rest
  }

  function MovesOf(kept: seq<Kept>): seq<Move> { seq(|kept|, i requires 0 <= i < |kept| => kept[i].move) }

  function WordOf(secret: Word, m: Move): Word {
    Checked(NewWord(m.text).(playedAt := NullTime(m.at, true)), secret)
  }

  /** The recorded guesses of `u` among these moves. */
  function GuessesIn(secret: Word, kept: seq<Kept>, u: string): seq<Word> {
    if kept == [] then []
    else
      var rest, m := GuessesIn(secret, kept[..|kept| - 1], u), kept[|kept| - 1].move;
      if m.player == u then rest + [WordOf(secret, m)] else rest
  }

  predicate Accepted(g: GameState, m: Move) { m.player in g.sessions && !g.sessions[m.player].Ended() }

  /** The moves among the first `n` steps that no crash has lost: the accepted ones since the last crash, and of those
      before it the ones whose push got through. */
  ghost function Survivors(states: seq<Live>, steps: seq<Step>, n: nat): seq<Kept>
    requires n <= |steps| < |states|
  {
    if n == 0 then [] else Survive(Survivors(states, steps, n - 1), states[n - 1].game, steps[n - 1])
  }

  function Survive(kept: seq<Kept>, g: GameState, step: Step): seq<Kept> {
    match step
    case Moved(m, pushOk, _) => if Accepted(g, m) then kept + [Kept(m, pushOk)] else kept
    case Crashed(_) => OnlyPushed(kept)
  }

  // ---------- the sessions after such moves ----------

  /** Guesses that can be made one after the other: six at most, none after the secret. */
  predicate Playable(guesses: seq<Word>, secret: Word) {
    |guesses| <= MAX_GUESSES && forall i :: 0 <= i < |guesses| - 1 ==> guesses[i].word != secret.word
  }

  lemma AcceptedIsAdded(g: GameState, m: Move)
    requires g.BoardHasSessions() && Accepted(g, m)
    ensures PlayMove(g, m).sessions == g.sessions[m.player := g.sessions[m.player].Play(WordOf(g.secret, m))]
  {
    OutcomeOf(g, m);
  }

  lemma PlayableIsAccepted(g: GameState, m: Move)
    requires GameOk(g) && m.player in g.sessions
    requires Playable(g.sessions[m.player].guesses + [WordOf(g.secret, m)], g.secret)
    ensures Accepted(g, m)
  {
    var was := g.sessions[m.player].guesses;
    assert forall i :: 0 <= i < |was| ==> was[i] == (was + [WordOf(g.secret, m)])[i];
    WonIff(m.player, g.sessions[m.player], g.secret);
  }

  /** The guesses `first` and then those of `u` among these moves. */
  function Whole(first: map<string, SessionState>, secret: Word, kept: seq<Kept>, u: string): seq<Word>
    requires u in first
  {
    first[u].guesses + GuessesIn(secret, kept, u)
  }

  lemma WholeGrows(first: map<string, SessionState>, secret: Word, kept: seq<Kept>, k: Kept, u: string)
    requires u in first
    ensures Whole(first, secret, kept + [k], u)
         == Whole(first, secret, kept, u) + if k.move.player == u then [WordOf(secret, k.move)] else []
  {
    assert (kept + [k])[..|kept|] == kept;
  }

  predicate AllPlayable(first: map<string, SessionState>, secret: Word, kept: seq<Kept>) {
    forall u :: u in first ==> Playable(Whole(first, secret, kept, u), secret)
  }

  /** The sessions hold what they held at first, and then the guesses of these moves. */
  predicate Hold(sessions: map<string, SessionState>, first: map<string, SessionState>, secret: Word, kept: seq<Kept>) {
    sessions.Keys == first.Keys && forall u :: u in first ==> sessions[u].guesses == Whole(first, secret, kept, u)
  }

  lemma PlayableBefore(first: map<string, SessionState>, secret: Word, kept: seq<Kept>, k: Kept)
    requires AllPlayable(first, secret, kept + [k])
    ensures AllPlayable(first, secret, kept)
  {
    forall u | u in first ensures Playable(Whole(first, secret, kept, u), secret) {
      WholeGrows(first, secret, kept, k, u);
      var rest, all := Whole(first, secret, kept, u), Whole(first, secret, kept + [k], u);
      assert forall i :: 0 <= i < |rest| ==> rest[i] == all[i];
    }
  }

  lemma GuessIsHeld(sessions: map<string, SessionState>, first: map<string, SessionState>, secret: Word, kept: seq<Kept>,
                    more: seq<Kept>, p: string, w: Word)
    requires Hold(sessions, first, secret, kept) && p in sessions
    requires forall u :: u in first ==>
      Whole(first, secret, more, u) == Whole(first, secret, kept, u) + if u == p then [w] else []
    ensures Hold(sessions[p := sessions[p].Play(w)], first, secret, more)
  {
  }

  lemma MoveIsHeld(g: GameState, first: map<string, SessionState>, kept: seq<Kept>, k: Kept)
    requires g.BoardHasSessions() && Accepted(g, k.move) && Hold(g.sessions, first, g.secret, kept)
    ensures Hold(PlayMove(g, k.move).sessions, first, g.secret, kept + [k])
  {
    AcceptedIsAdded(g, k.move);
    var p, w := k.move.player, WordOf(g.secret, k.move);
    forall u | u in first
      ensures Whole(first, g.secret, kept + [k], u) == Whole(first, g.secret, kept, u) + if u == p then [w] else []
    {
      WholeGrows(first, g.secret, kept, k, u);
    }
    GuessIsHeld(g.sessions, first, g.secret, kept, kept + [k], p, w);
  }

  lemma StrangerIsHeld(g: GameState, first: map<string, SessionState>, kept: seq<Kept>, k: Kept)
    requires GameOk(g) && k.move.player !in first && Hold(g.sessions, first, g.secret, kept)
    ensures Hold(PlayMove(g, k.move).sessions, first, g.secret, kept + [k])
  {
    OutcomeOf(g, k.move);
    forall u | u in first ensures g.sessions[u].guesses == Whole(first, g.secret, kept + [k], u) {
      WholeGrows(first, g.secret, kept, k, u);
    }
  }

  lemma LastIsHeld(g: GameState, first: map<string, SessionState>, kept: seq<Kept>, k: Kept)
    requires GameOk(g) && Hold(g.sessions, first, g.secret, kept) && AllPlayable(first, g.secret, kept + [k])
    ensures Hold(PlayMove(g, k.move).sessions, first, g.secret, kept + [k])
  {
    if k.move.player in first {
      WholeGrows(first, g.secret, kept, k, k.move.player);
      PlayableIsAccepted(g, k.move);
      MoveIsHeld(g, first, kept, k);
    } else {
      StrangerIsHeld(g, first, kept, k);
    }
  }

  /** Moves whose guesses can be made one after the other are all accepted. */
  lemma {:induction false} AllAccepted(g: GameState, kept: seq<Kept>)
    requires GameOk(g) && OnTime(MovesOf(kept)) && AllPlayable(g.sessions, g.secret, kept)
    ensures Hold(PlayAll(g, MovesOf(kept)).sessions, g.sessions, g.secret, kept)
    decreases |kept|
  {
    if kept != [] {
      var rest, k := kept[..|kept| - 1], kept[|kept| - 1];
      assert kept == rest + [k] && MovesOf(kept) == MovesOf(rest) + [k.move];
      PlayableBefore(g.sessions, g.secret, rest, k);
      AllAccepted(g, rest);
      PlayOneMore(g, MovesOf(rest), k.move);
      LastIsHeld(PlayAll(g, MovesOf(rest)), g.sessions, rest, k);
    }
  }

  // ---------- runs with crashes and lost writes ----------

  lemma PushedMore(kept: seq<Kept>, k: Kept)
    ensures OnlyPushed(kept + [k]) == OnlyPushed(kept) + if k.pushed then [k] else []
  {
    assert (kept + [k])[..|kept|] == kept;
  }

  lemma {:induction false} PushedTwice(kept: seq<Kept>)
    ensures OnlyPushed(OnlyPushed(kept)) == OnlyPushed(kept)
    ensures OnTime(MovesOf(kept)) ==> OnTime(MovesOf(OnlyPushed(kept)))
  {
    if kept != [] {
      var rest, k := kept[..|kept| - 1], kept[|kept| - 1];
      assert kept == rest + [k];
      PushedTwice(rest);
      PushedMore(rest, k);
      PushedMore(OnlyPushed(rest), k);
      assert MovesOf(kept) == MovesOf(rest) + [k.move];
      assert MovesOf(OnlyPushed(rest) + [k]) == MovesOf(OnlyPushed(rest)) + [k.move];
    }
  }

  /** The logs hold what the sessions held at first, and then the guesses of these moves. */
  predicate HoldLogs(l: Live, first: map<string, SessionState>, kept: seq<Kept>) {
    forall u :: u in first ==> LogOf(l, u) == Whole(first, l.game.secret, kept, u)
  }

  /** The game holds the guesses of these moves, and the store those that were pushed. */
  predicate Survived(l: Live, first: GameState, kept: seq<Kept>) {
    && l.game.id == first.id && l.game.secret == first.secret && OnTime(MovesOf(kept))
    && Hold(l.game.sessions, first.sessions, l.game.secret, kept)
    && HoldLogs(l, first.sessions, OnlyPushed(kept))
  }

  lemma MoveIsLogged(first: GameState, before: Live, m: Move, pushOk: bool, hashOk: bool, after: Live, kept: seq<Kept>)
    requires Recoverable(before) && Follows(before, Moved(m, pushOk, hashOk), after) && Accepted(before.game, m)
    requires before.game.sessions.Keys == first.sessions.Keys && HoldLogs(before, first.sessions, OnlyPushed(kept))
    ensures HoldLogs(after, first.sessions, OnlyPushed(kept + [Kept(m, pushOk)]))
  {
    var k, g := Kept(m, pushOk), before.game;
    MoveExtends(g, m);
    OutcomeOf(g, m);
    PushedMore(kept, k);
    forall u | u in first.sessions
      ensures LogOf(after, u) == Whole(first.sessions, g.secret, OnlyPushed(kept + [k]), u)
    {
      WholeGrows(first.sessions, g.secret, OnlyPushed(kept), k, u);
      MoveLogsPush(g, before.store, m, pushOk, hashOk, u);
    }
  }

  lemma OnTimeMore(kept: seq<Kept>, k: Kept)
    requires OnTime(MovesOf(kept)) && k.move.at > 0
    ensures OnTime(MovesOf(kept + [k]))
  {
    assert MovesOf(kept + [k]) == MovesOf(kept) + [k.move];
  }

  lemma MoveSurvives(first: GameState, before: Live, m: Move, pushOk: bool, hashOk: bool, after: Live, kept: seq<Kept>)
    requires Recoverable(before) && Follows(before, Moved(m, pushOk, hashOk), after) && m.at > 0
    requires Survived(before, first, kept) && Accepted(before.game, m)
    ensures Survived(after, first, kept + [Kept(m, pushOk)])
  {
    var k := Kept(m, pushOk);
    OnTimeMore(kept, k);
    MoveIsHeld(before.game, first.sessions, kept, k);
    MoveIsLogged(first, before, m, pushOk, hashOk, after, kept);
    MoveExtends(before.game, m);
  }

  lemma CrashSurvives(first: GameState, before: Live, r: GameState, after: Live, kept: seq<Kept>)
    requires Recoverable(before) && Follows(before, Crashed(r), after) && Survived(before, first, kept)
    ensures Survived(after, first, OnlyPushed(kept))
  {
    PushedTwice(kept);
    LoadedIsBacked(before.game, before.store, r);
  }

  lemma StepSurvives(first: GameState, before: Live, step: Step, after: Live, kept: seq<Kept>)
    requires Recoverable(before) && Follows(before, step, after) && (step.Moved? ==> step.move.at > 0)
    requires Survived(before, first, kept)
    ensures Survived(after, first, Survive(kept, before.game, step))
  {
    match step
    case Moved(m, pushOk, hashOk) =>
      if Accepted(before.game, m) {
        MoveSurvives(first, before, m, pushOk, hashOk, after, kept);
      } else {
        OutcomeOf(before.game, m);
      }
    case Crashed(r) => CrashSurvives(first, before, r, after, kept);
  }

  lemma IntactIsSurvived(l: Live)
    requires Intact(l)
    ensures Recoverable(l) && Survived(l, l.game, [])
  {
    InSyncIsBacked(l.game, l.store);
    forall u | u in l.game.sessions ensures LogOf(l, u) == Whole(l.game.sessions, l.game.secret, [], u) {
      assert Logged(l.game.sessions[u], l.store.Guesses(l.game.id, u), u, l.store.Board(l.game.id));
    }
  }

  ghost predicate SurvivedBy(states: seq<Live>, steps: seq<Step>, n: nat)
    requires n <= |steps| < |states|
  {
    Survived(states[n], states[0].game, Survivors(states, steps, n))
  }

  lemma StepIsSurvived(states: seq<Live>, steps: seq<Step>, n: nat)
    requires IsLiveRun(states, steps) && OnTheClock(steps) && Recoverable(states[0]) && n < |steps|
    requires SurvivedBy(states, steps, n)
    ensures SurvivedBy(states, steps, n + 1)
  {
    RunStaysRecoverable(states, steps, n);
    StepSurvives(states[0].game, states[n], steps[n], states[n + 1], Survivors(states, steps, n));
  }

  lemma {:induction false} SurvivedToTheEnd(states: seq<Live>, steps: seq<Step>, n: nat)
    requires n <= |steps| < |states| && SurvivedBy(states, steps, 0)
    requires forall i :: 0 <= i < |steps| && SurvivedBy(states, steps, i) ==> SurvivedBy(states, steps, i + 1)
    ensures SurvivedBy(states, steps, n)
  {
    if n > 0 {
      SurvivedToTheEnd(states, steps, n - 1);
      assert SurvivedBy(states, steps, n - 1);
    }
  }

  lemma RunIsSurvived(states: seq<Live>, steps: seq<Step>, n: nat)
    requires IsLiveRun(states, steps) && OnTheClock(steps) && Intact(states[0]) && n <= |steps|
    ensures SurvivedBy(states, steps, n)
  {
    IntactIsSurvived(states[0]);
    forall i | 0 <= i < |steps| && SurvivedBy(states, steps, i) ensures SurvivedBy(states, steps, i + 1) {
      StepIsSurvived(states, steps, i);
    }
    SurvivedToTheEnd(states, steps, n);
  }

  /** The same guesses make the same progress. */
  lemma SameGuessesSameProgress(a: GameState, b: GameState)
    requires GameOk(a) && GameOk(b) && a.id == b.id && a.secret == b.secret && a.sessions.Keys == b.sessions.Keys
    requires forall u :: u in a.sessions ==> a.sessions[u].guesses == b.sessions[u].guesses
    ensures SameProgress(a, b)
  {
    forall u | u in a.sessions ensures a.sessions[u].best == b.sessions[u].best {
      assert SessionOk(u, a.sessions[u], a.secret) && SessionOk(u, b.sessions[u], b.secret);
    }
  }

  lemma SurvivedIsPlayed(l: Live, first: GameState, kept: seq<Kept>)
    requires GameOk(first) && GameOk(l.game) && Survived(l, first, kept)
    ensures SameProgress(PlayAll(first, MovesOf(kept)), l.game)
  {
    forall u | u in first.sessions ensures Playable(Whole(first.sessions, first.secret, kept, u), first.secret) {
      assert SessionOk(u, l.game.sessions[u], l.game.secret);
    }
    AllAccepted(first, kept);
    SameGuessesSameProgress(PlayAll(first, MovesOf(kept)), l.game);
  }

  /** However often the server crashes, whatever writes are lost and whatever order the reloads rebuild the board in,
      after any number of steps the game that goes on has the guesses and best guesses of the uninterrupted game of
      exactly the moves that survived. */
  lemma SurvivorsGoOn(states: seq<Live>, steps: seq<Step>, n: nat)
    requires IsLiveRun(states, steps) && OnTheClock(steps) && Intact(states[0]) && n <= |steps|
    ensures OnTime(MovesOf(Survivors(states, steps, n))) && Recoverable(states[n])
    ensures SameProgress(PlayAll(states[0].game, MovesOf(Survivors(states, steps, n))), states[n].game)
  {
    IntactIsSurvived(states[0]);
    RunStaysRecoverable(states, steps, n);
    RunIsSurvived(states, steps, n);
    SurvivedIsPlayed(states[n], states[0].game, Survivors(states, steps, n));
  }

  // ---------- the board ----------

  /** When the last of the first `n` moves came. */
  function LastAt(steps: seq<Step>, n: nat, t: int): int
    requires n <= |steps|
  {
    if n == 0 then t else if steps[n - 1].Moved? then steps[n - 1].move.at else LastAt(steps, n - 1, t)
  }

  /** The clock never repeats a reading. */
  predicate ClockRuns(steps: seq<Step>, t: int) {
    forall i :: 0 <= i < |steps| && steps[i].Moved? ==> steps[i].move.at > LastAt(steps, i, t)
  }

  lemma LoadedKeepsStamps(g: GameState, s: Store, r: GameState, t: int)
    requires GameOk(g) && Backed(g, s) && Loads(s, g.id, r) && StampedBy(g, t)
    ensures StampedBy(r, t)
  {
    LoadedIsBacked(g, s, r);
    forall u | u in r.sessions ensures forall w :: w in r.sessions[u].guesses ==> w in g.sessions[u].guesses {
      LossyPart(r.sessions[u].guesses, g.sessions[u].guesses);
    }
  }

  lemma StepKeepsStamps(before: Live, step: Step, after: Live, t: int)
    requires Recoverable(before) && Follows(before, step, after) && StampedBy(before.game, t)
    requires step.Moved? ==> step.move.at > t
    ensures StampedBy(after.game, if step.Moved? then step.move.at else t)
  {
    match step
    case Moved(m, _, _) => MoveKeepsStamps(before.game, t, m);
    case Crashed(r) => LoadedKeepsStamps(before.game, before.store, r, t);
  }

  ghost predicate StampedAt(states: seq<Live>, steps: seq<Step>, n: nat, t: int)
    requires n <= |steps| < |states|
  {
    StampedBy(states[n].game, LastAt(steps, n, t))
  }

  lemma StepIsStamped(states: seq<Live>, steps: seq<Step>, n: nat, t: int)
    requires IsLiveRun(states, steps) && OnTheClock(steps) && Recoverable(states[0]) && n < |steps|
    requires ClockRuns(steps, t) && StampedAt(states, steps, n, t)
    ensures StampedAt(states, steps, n + 1, t)
  {
    RunStaysRecoverable(states, steps, n);
    StepKeepsStamps(states[n], steps[n], states[n + 1], LastAt(steps, n, t));
  }

  lemma {:induction false} StampedToTheEnd(states: seq<Live>, steps: seq<Step>, n: nat, t: int)
    requires n <= |steps| < |states| && StampedAt(states, steps, 0, t)
    requires forall i :: 0 <= i < |steps| && StampedAt(states, steps, i, t) ==> StampedAt(states, steps, i + 1, t)
    ensures StampedAt(states, steps, n, t)
  {
    if n > 0 {
      StampedToTheEnd(states, steps, n - 1, t);
      assert StampedAt(states, steps, n - 1, t);
    }
  }

  lemma RunIsStamped(states: seq<Live>, steps: seq<Step>, n: nat, t: int)
    requires IsLiveRun(states, steps) && OnTheClock(steps) && Recoverable(states[0]) && n <= |steps|
    requires ClockRuns(steps, t) && StampedBy(states[0].game, t)
    ensures StampedAt(states, steps, n, t)
  {
    forall i | 0 <= i < |steps| && StampedAt(states, steps, i, t) ensures StampedAt(states, steps, i + 1, t) {
      StepIsStamped(states, steps, i, t);
    }
    StampedToTheEnd(states, steps, n, t);
  }

  /** And under a clock that never repeats a reading every scoring entry stands where it stands in that game. */
  lemma SurvivorsKeepTheBoard(states: seq<Live>, steps: seq<Step>, n: nat, t: int)
    requires IsLiveRun(states, steps) && OnTheClock(steps) && Intact(states[0]) && n <= |steps|
    requires ClockRuns(steps, t) && StampedBy(states[0].game, t)
    ensures OnTime(MovesOf(Survivors(states, steps, n)))
    ensures var now, uninterrupted := states[n].game, PlayAll(states[0].game, MovesOf(Survivors(states, steps, n)));
      var k := |ScoringPlayers(now.Bests())|;
      k <= |now.ranks| && k <= |uninterrupted.ranks| && now.ranks[..k] == uninterrupted.ranks[..k]
  {
    SurvivorsGoOn(states, steps, n);
    IntactIsSurvived(states[0]);
    RunIsStamped(states, steps, n, t);
    StampsAreDistinct(states[n].game, LastAt(steps, n, t));
    SameScoringBoard(states[n].game, PlayAll(states[0].game, MovesOf(Survivors(states, steps, n))));
  }
}
