/** The service over the room cache and both stores as a state machine: service/service.go. Which of an operation's
    calls get through is part of the operation. */
module ServiceModel {
  import opened Collections
  import opened Words
  import opened GameModel
  import opened Redis
  import opened Postgres

  /** The permanent store, the hot store, and the ids in the room cache. */
  datatype ServiceState = ServiceState(cold: Tables, store: Store, cached: set<string>)

  datatype Op =
    | Open(id: string)
    | Start(g: GameState, beginOk: bool, commitOk: bool, up: bool, setOk: bool)
    | Guess(id: string, player: string, guess: Word, isBest: bool, up: bool, pushOk: bool, hashOk: bool)
    | Finish(g: GameState, beginOk: bool, endOk: bool, commitOk: bool, getOk: bool, delOk: bool)
    | Wipe(id: string, txOk: bool, getOk: bool, delOk: bool)
    | Find(id: string, up: bool, getOk: bool, pipeOk: bool)
    | Drop(id: string) // the collector

  /** What the hot store holds after a deletion that may not get through. */
  function Deleted(s: Store, id: string, getOk: bool, delOk: bool): Store {
    if getOk && delOk && id in s.games then s.Delete(id) else s
  }

  /** Creating a game in the hot store; the order of its player list is open. */
  predicate Creates(s: Store, g: GameState, up: bool, setOk: bool, t: Store) {
    if (up && g.id in s.games) || !setOk then t == s
    else
      && g.id in t.games && IsOrdering(t.games[g.id].players, g.sessions.Keys)
      && t == s.(games := s.games[g.id := Stored(g, t.games[g.id].players)])
  }

  /** The two writes of AddGuess, each of which may fail. */
  function Added(s: Store, id: string, player: string, guess: Word, isBest: bool, up: bool, pushOk: bool, hashOk: bool)
    : Store
  {
    if up && id in s.games then s.AddGuess(id, player, guess, isBest, pushOk, hashOk) else s
  }

  predicate Commits(s: Tables, g: GameState, beginOk: bool, endOk: bool, commitOk: bool) {
    g.endedAt.Some? && beginOk && g.id in s.games && endOk && commitOk
  }

  /** The permanent store around FinishGame: the end time is written before the results and may be written alone. */
  predicate Finishes(s: Tables, g: GameState, beginOk: bool, endOk: bool, commitOk: bool, t: Tables) {
    if Commits(s, g, beginOk, endOk, commitOk) then Finished(s, g, t)
    else if g.endedAt.Some? && beginOk && g.id in s.games && endOk then
      t == s.(games := s.games[g.id := s.games[g.id].(endedAt := g.endedAt)])
    else t == s
  }

  /** A start reaches both stores. */
  predicate StartSucceeds(s: ServiceState, g: GameState, beginOk: bool, commitOk: bool, up: bool, setOk: bool) {
    beginOk && commitOk && Startable(s.cold, g) && !(up && g.id in s.store.games) && setOk
  }

  predicate IsFound(s: ServiceState, id: string, up: bool, getOk: bool, pipeOk: bool) {
    id in s.cached || (up && getOk && pipeOk && id in s.store.games)
  }

  ghost predicate Next(s: ServiceState, op: Op, t: ServiceState) {
    match op
    case Open(id) => t == s.(cached := s.cached + {id})
    case Start(g, beginOk, commitOk, up, setOk) =>
      t.cached == s.cached
      && if beginOk && commitOk && Startable(s.cold, g)
         then Starts(s.cold, g, t.cold) && Creates(s.store, g, up, setOk, t.store)
         else t == s
    case Guess(id, player, guess, isBest, up, pushOk, hashOk) =>
      t == s.(store := Added(s.store, id, player, guess, isBest, up, pushOk, hashOk))
    case Finish(g, beginOk, endOk, commitOk, getOk, delOk) =>
      Finishes(s.cold, g, beginOk, endOk, commitOk, t.cold)
      && if Commits(s.cold, g, beginOk, endOk, commitOk)
         then t.cached == s.cached - {g.id} && t.store == Deleted(s.store, g.id, getOk, delOk)
         else t.cached == s.cached && t.store == s.store
    case Wipe(id, txOk, getOk, delOk) =>
      t == if txOk then s.(cold := Wiped(s.cold, id), store := Deleted(s.store, id, getOk, delOk)) else s
    case Find(id, up, getOk, pipeOk) =>
      t == if IsFound(s, id, up, getOk, pipeOk) then s.(cached := s.cached + {id}) else s
    case Drop(id) => t == s.(cached := s.cached - {id})
  }

  ghost predicate IsServiceRun(states: seq<ServiceState>, ops: seq<Op>) {
    |states| == |ops| + 1 && forall i :: 0 <= i < |ops| ==> Next(states[i], ops[i], states[i + 1])
  }

  // ---------- nothing is lost before it is settled ----------

  /** The operation committed the game's results, or its wipe, to the permanent store. */
  predicate Settles(s: ServiceState, op: Op, id: string) {
    || (op.Finish? && op.g.id == id && Commits(s.cold, op.g, op.beginOk, op.endOk, op.commitOk))
    || (op.Wipe? && op.id == id && op.txOk)
  }

  /** The game is still stored, and every player's guess log has at most grown. */
  ghost predicate Keeps(s: Store, t: Store, id: string) {
    id in t.games && forall p :: s.Guesses(id, p) <= t.Guesses(id, p)
  }

  lemma StepKeepsOrSettles(s: ServiceState, op: Op, t: ServiceState, id: string)
    requires Next(s, op, t) && id in s.store.games
    ensures Settles(s, op, id) || Keeps(s.store, t.store, id)
    ensures id in t.store.games ==>
      t.store.games[id] == s.store.games[id] || (op.Start? && op.g.id == id && !op.up)
  {
  }

  /** Whatever calls fail, a game created in the hot store stays there with every logged guess until its results
      or its wipe have been committed to the permanent store. */
  lemma {:induction false} KeptUntilSettled(states: seq<ServiceState>, ops: seq<Op>, i: nat, j: nat, id: string)
    requires IsServiceRun(states, ops) && i <= j < |states| && id in states[i].store.games
    ensures Keeps(states[i].store, states[j].store, id)
         || exists k :: i <= k < j && Settles(states[k], ops[k], id)
  {
    if i < j && !exists k :: i <= k < j && Settles(states[k], ops[k], id) {
      KeptUntilSettled(states, ops, i, j - 1, id);
      assert Next(states[j - 1], ops[j - 1], states[j]);
      StepKeepsOrSettles(states[j - 1], ops[j - 1], states[j], id);
    }
  }

  /** So it is found whenever the hot store can be read, its room having been dropped or not. */
  lemma FoundUntilSettled(states: seq<ServiceState>, ops: seq<Op>, i: nat, j: nat, id: string)
    requires IsServiceRun(states, ops) && i <= j < |states| && id in states[i].store.games
    requires forall k :: i <= k < j ==> !Settles(states[k], ops[k], id)
    ensures IsFound(states[j], id, true, true, true)
  {
    KeptUntilSettled(states, ops, i, j, id);
  }

  /** After results are committed the game is still found exactly when it was in the hot store and could not be
      deleted. */
  lemma FinishedIsFoundIff(s: ServiceState, op: Op, t: ServiceState)
    requires Next(s, op, t) && op.Finish? && Commits(s.cold, op.g, op.beginOk, op.endOk, op.commitOk)
    ensures IsFound(t, op.g.id, true, true, true) <==> op.g.id in s.store.games && !(op.getOk && op.delOk)
  {
  }

  // ---------- what is loaded is open ----------

  /** Rooms start games that have not ended. */
  predicate StartsOpen(op: Op) {
    op.Start? ==> op.g.startedAt.Some? && op.g.endedAt.None?
  }

  predicate HoldsOpen(s: Store) {
    forall id :: id in s.games ==> s.games[id].startedAt.Some? && s.games[id].endedAt.None? && s.games[id].id == id
  }

  /** A stored game has started and not ended, even one whose end the service has seen but not managed to delete. */
  lemma {:induction false} StoredIsOpen(states: seq<ServiceState>, ops: seq<Op>)
    requires IsServiceRun(states, ops) && HoldsOpen(states[0].store)
    requires forall op :: op in ops ==> StartsOpen(op)
    ensures HoldsOpen(states[|ops|].store)
    ensures forall id, g :: Loads(states[|ops|].store, id, g) ==> g.id == id && g.startedAt.Some? && g.endedAt.None?
    decreases |ops|
  {
    if ops != [] {
      var n := |ops| - 1;
      StoredIsOpen(states[..n + 1], ops[..n]);
      assert Next(states[n], ops[n], states[n + 1]);
      assert ops[n] in ops;
    }
  }

  // ---------- half-started games ----------

  /** Recorded in the permanent store without having reached the hot one. */
  predicate HalfStarted(s: ServiceState, id: string) {
    id in s.cold.games && id !in s.store.games
  }

  /** A start that reaches the permanent store but not the hot one cannot be made good by starting again:
      until the game is wiped it never gets into the hot store. */
  lemma {:induction false} HalfStartedIsStuck(states: seq<ServiceState>, ops: seq<Op>, id: string)
    requires IsServiceRun(states, ops) && HalfStarted(states[0], id)
    requires forall op :: op in ops ==> !(op.Wipe? && op.id == id)
    ensures HalfStarted(states[|ops|], id)
    decreases |ops|
  {
    if ops != [] {
      var n := |ops| - 1;
      HalfStartedIsStuck(states[..n + 1], ops[..n], id);
      assert Next(states[n], ops[n], states[n + 1]);
      assert ops[n] in ops;
    }
  }

  /** A start leaves the game half-started exactly when the permanent store takes it, the hot one does not, and it
      was not already there. */
  lemma HalfStartsIff(s: ServiceState, op: Op, t: ServiceState)
    requires Next(s, op, t) && op.Start? && op.g.id !in s.cold.games
    ensures HalfStarted(t, op.g.id) <==>
      op.beginOk && op.commitOk && Startable(s.cold, op.g) && !op.setOk && op.g.id !in s.store.games
  {
  }

  /** Once its wipe is committed a game of registered players can be started again, unless the hot store still has it. */
  lemma WipedCanStart(s: ServiceState, op: Op, t: ServiceState, g: GameState, up: bool, setOk: bool)
    requires s.cold.Consistent() && RowsHaveGames(s.cold) && Next(s, op, t) && op.Wipe? && op.id == g.id && op.txOk
    requires s.cold.HasUser(g.creator) && DistinctIds(g)
    requires forall u :: u in g.sessions ==> g.sessions[u].player.id in s.cold.users
    ensures StartSucceeds(t, g, true, true, up, setOk) <==>
      setOk && !(up && g.id in s.store.games && !(op.getOk && op.delOk))
  {
    var id :| id in s.cold.users && s.cold.users[id] == g.creator;
    assert id in t.cold.users && t.cold.users[id] == g.creator;
  }

  // ---------- other games ----------

  /** The operation writes to the stores about this game. */
  predicate Concerns(op: Op, id: string) {
    match op
    case Start(g, _, _, _, _) => g.id == id
    case Guess(i, _, _, _, _, _, _) => i == id
    case Finish(g, _, _, _, _, _) => g.id == id
    case Wipe(i, _, _, _) => i == id
    case _ => false
  }

  ghost predicate SameInStore(s: Store, t: Store, id: string) {
    && (id in t.games <==> id in s.games) && (id in s.games ==> t.games[id] == s.games[id])
    && (id in t.boards <==> id in s.boards) && t.Board(id) == s.Board(id)
    && forall u :: ((id, u) in t.guesses <==> (id, u) in s.guesses) && t.Guesses(id, u) == s.Guesses(id, u)
  }

  ghost predicate SameInTables(s: Tables, t: Tables, id: string) {
    && t.users == s.users
    && (id in t.games <==> id in s.games) && (id in s.games ==> t.games[id] == s.games[id])
    && (forall p :: (id, p) in t.rows <==> (id, p) in s.rows)
    && (forall p :: (id, p) in s.rows ==> t.rows[(id, p)] == s.rows[(id, p)])
  }

  /** What is done for other games leaves this one's entries alone in both stores. */
  lemma OthersStayApart(s: ServiceState, op: Op, t: ServiceState, id: string)
    requires Next(s, op, t) && !Concerns(op, id)
    ensures SameInStore(s.store, t.store, id) && SameInTables(s.cold, t.cold, id)
  {
  }

  /** Rows belong to recorded games. */
  predicate RowsHaveGames(t: Tables) { forall k :: k in t.rows ==> k.0 in t.games }

  /** Every operation keeps the tables consistent and the users as they are. */
  lemma NextKeepsTables(s: ServiceState, op: Op, t: ServiceState)
    requires Next(s, op, t) && s.cold.Consistent() && RowsHaveGames(s.cold)
    ensures t.cold.Consistent() && RowsHaveGames(t.cold) && t.cold.users == s.cold.users
  {
  }
}
