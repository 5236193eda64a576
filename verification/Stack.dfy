/** A room, the service it calls and both stores as one machine. Every call may fail, the server may crash between any
    two events, and the service works for other games in between. */
module Stack {
  import opened Collections
  import opened Words
  import opened GameModel
  import opened Redis
  import opened Recovery
  import opened Endings
  import opened RoomModel
  import ServiceModel

  datatype Stack = Stack(room: RoomState, service: ServiceModel.ServiceState)

  /** An event of the room with the service's answers to the calls it makes: one to StartGame or AddGuess, one to
      FinishGame or WipeGameData. Or a crash, after which the room is made anew from some loadable game. Or something the
      service does for another game. */
  datatype StackEvent =
    | Handled(event: RoomEvent, call: ServiceModel.Op, ending: ServiceModel.Op)
    | Crash(recovered: GameState)
    | Elsewhere(op: ServiceModel.Op)

  /** The operation is the AddGuess that the room calls for after an accepted guess. */
  predicate Asked(s: RoomState, from: string, text: string, now: int, later: int, op: ServiceModel.Op)
    requires s.game.BoardHasSessions()
  {
    && op.Guess? && op.id == s.game.id
    && var t := AfterGuess(s, from, text, now, later);
       |s.calls| < |t.calls| && t.calls[|s.calls|] == AddGuess(op.player, op.guess, op.isBest)
  }

  function AfterGuessCall(s: ServiceModel.ServiceState, op: ServiceModel.Op): ServiceModel.ServiceState
    requires op.Guess?
  {
    s.(store := ServiceModel.Added(s.store, op.id, op.player, op.guess, op.isBest, op.up, op.pushOk, op.hashOk))
  }

  /** The operation is the call a closing room makes for its started game. */
  ghost predicate Ends(s: ServiceModel.ServiceState, g: GameState, op: ServiceModel.Op, t: ServiceModel.ServiceState) {
    && (if g.endedAt.Some? then op.Finish? && op.g == g else op.Wipe? && op.id == g.id)
    && ServiceModel.Next(s, op, t)
  }

  /** The service carries out what the room calls it for. */
  ghost predicate Serves(s: Stack, e: RoomEvent, call: ServiceModel.Op, ending: ServiceModel.Op, t: Stack)
    requires s.room.game.BoardHasSessions()
  {
    match e
    case Start(from, now, ok) =>
      if from != s.room.game.creator || s.room.active then t.service == s.service
      else
        && call.Start? && call.g == t.room.game
        && ok == ServiceModel.StartSucceeds(s.service, call.g, call.beginOk, call.commitOk, call.up, call.setOk)
        && ServiceModel.Next(s.service, call, t.service)
    case Play(from, text, english, now, later) =>
      if !Accepts(s.room, from, text, english) then t.service == s.service
      else
        && Asked(s.room, from, text.value, now, later, call)
        && if t.room.closed then Ends(AfterGuessCall(s.service, call), t.room.game, ending, t.service)
           else t.service == AfterGuessCall(s.service, call)
    case Close =>
      if s.room.closed || s.room.game.startedAt.None? then t.service == s.service
      else Ends(s.service, t.room.game, ending, t.service)
    case _ => t.service == s.service
  }

  /** The check made before a connection is let in: a running game takes no new players. */
  predicate LetIn(s: RoomState, e: RoomEvent) {
    e.Join? && s.active ==> e.player.username in s.game.sessions
  }

  /** A crash loses the room and the cache; looking for the game then loads it from the hot store. */
  ghost predicate StackStep(s: Stack, e: StackEvent, t: Stack) {
    match e
    case Handled(event, call, ending) =>
      && Possible(s.room, event) && LetIn(s.room, event)
      && RoomModel.Step(s.room, event, t.room) && Serves(s, event, call, ending, t)
    case Crash(r) =>
      && Loads(s.service.store, s.room.game.id, r) && t.room == NewRoom(r)
      && ServiceModel.Next(s.service.(cached := {}), ServiceModel.Find(r.id, true, true, true), t.service)
    case Elsewhere(op) =>
      !ServiceModel.Concerns(op, s.room.game.id) && t.room == s.room && ServiceModel.Next(s.service, op, t.service)
  }

  ghost predicate IsStackRun(states: seq<Stack>, events: seq<StackEvent>) {
    |states| == |events| + 1 && forall i :: 0 <= i < |events| ==> StackStep(states[i], events[i], states[i + 1])
  }

  // ---------- room and store stay in step ----------

  /** No key of the store belongs to the id. */
  ghost predicate Unused(s: Store, id: string) {
    id !in s.games && id !in s.boards && forall u :: (id, u) !in s.guesses
  }

  /** The store has all of the game's progress, or if writes were lost some of it. */
  predicate Holds(all: bool, g: GameState, s: Store) {
    if all then InSync(g, s) else Backed(g, s)
  }

  /** A room that has not started its game has nothing in the store, one with a running game has it there, and a closed
      one as long as it has not been deleted; then nothing of it is left. */
  ghost predicate StackOk(s: Stack, all: bool) {
    && RoomOk(s.room)
    && (s.room.active ==> Covers(s.room.game) && Holds(all, s.room.game, s.service.store))
    && (!s.room.active && !s.room.closed ==> Unused(s.service.store, s.room.game.id))
    && (s.room.closed && s.room.game.id in s.service.store.games ==>
          s.room.game.startedAt.Some? && Covers(s.room.game) && Holds(all, s.room.game, s.service.store))
    && (s.room.closed && s.room.game.id !in s.service.store.games ==> Unused(s.service.store, s.room.game.id))
  }

  /** Every guess that the event has stored gets through. */
  predicate GetsThrough(e: StackEvent) {
    e.Handled? && e.call.Guess? ==> e.call.up && e.call.pushOk && e.call.hashOk
  }

  /** An accepted guess is a move of the game, and a room closes with its game. */
  lemma AcceptedIsAMove(s: RoomState, from: string, text: string, english: bool, now: int, later: int)
    requires s.game.BoardHasSessions() && Accepts(s, from, Some(text), english)
    ensures var t := AfterGuess(s, from, text, now, later);
      && t.game == PlayMove(s.game, Move(from, text, now, later)) && t.game.id == s.game.id
      && (!t.active ==> t.closed) && (t.game.endedAt.Some? ==> t.closed)
      && t.game.startedAt == s.game.startedAt
  {
    AcceptedIsPlayed(s, from, Some(text), english, now, later);
    MoveExtends(s.game, Move(from, text, now, later));
  }

  /** What an accepted guess leads to in the store is what recovery relies on. */
  lemma AskedIsStored(s: RoomState, from: string, text: string, english: bool, now: int, later: int, op: ServiceModel.Op,
                      service: ServiceModel.ServiceState)
    requires s.game.BoardHasSessions() && Accepts(s, from, Some(text), english) && s.game.id in service.store.games
    requires Asked(s, from, text, now, later, op)
    ensures AfterGuessCall(service, op).store
         == StoreMove(s.game, service.store, Move(from, text, now, later), op.up && op.pushOk, op.up && op.hashOk)
  {
    AcceptedIsPlayed(s, from, Some(text), english, now, later);
  }

  lemma MoveKeepsHolds(all: bool, g: GameState, s: Store, m: Move, pushOk: bool, hashOk: bool)
    requires g.BoardHasSessions() && Holds(all, g, s) && (all ==> pushOk && hashOk)
    ensures Holds(all, PlayMove(g, m), StoreMove(g, s, m, pushOk, hashOk))
  {
    if all { MoveKeepsSync(g, s, m); } else { MoveKeepsBacked(g, s, m, pushOk, hashOk); }
  }

  /** Ending calls write no guesses: the game stays as it was in the hot store, or is deleted from it. */
  lemma EndingKeepsOrDeletes(s: ServiceModel.ServiceState, g: GameState, op: ServiceModel.Op,
                             t: ServiceModel.ServiceState)
    requires Ends(s, g, op, t) && (g.id in s.store.games ==> Described(g, s.store))
    ensures t.store == s.store || Unused(t.store, g.id)
  {
    if g.id in s.store.games { DeletionLeavesNothing(g, s.store); }
  }

  /** Deleting a game takes its metadata, its board and the logs of all its players. */
  lemma DeletionLeavesNothing(g: GameState, s: Store)
    requires Described(g, s)
    ensures Unused(s.Delete(g.id), g.id)
  {
    forall u | (g.id, u) in s.guesses ensures (g.id, u) !in s.Delete(g.id).guesses {
      var k := (g.id, u);
      assert k.1 in g.sessions && u in Elements(s.games[g.id].players);
    }
  }

  lemma OthersKeepHolds(all: bool, g: GameState, s: Store, t: Store)
    requires ServiceModel.SameInStore(s, t, g.id)
    ensures g.id in s.games && Holds(all, g, s) ==> Holds(all, g, t)
    ensures Unused(s, g.id) ==> Unused(t, g.id)
  {
    if g.id in s.games && Holds(all, g, s) {
      if all {
        forall u | u in g.sessions ensures Logged(g.sessions[u], t.Guesses(g.id, u), u, t.Board(g.id)) {
          assert Logged(g.sessions[u], s.Guesses(g.id, u), u, s.Board(g.id));
        }
      }
    }
  }

  lemma CreatedHolds(all: bool, g: GameState, s: Store, t: Store)
    requires GameOk(g) && NobodyPlayed(g) && g.endedAt.None? && Unused(s, g.id)
    requires ServiceModel.Creates(s, g, true, true, t)
    ensures Holds(all, g, t)
  {
    CreatedInSync(g, s, t.games[g.id].players);
    InSyncIsBacked(g, t);
  }

  /** Whatever can be loaded is a well-formed running game with the logged guesses. */
  lemma ReloadHolds(all: bool, g: GameState, s: Store, r: GameState)
    requires GameOk(g) && g.startedAt.Some? && Holds(all, g, s) && Loads(s, g.id, r)
    ensures r.id == g.id && Covers(r) && Holds(all, r, s)
    ensures Hosts(r) && NewRoom(r).active && !NewRoom(r).closed && RoomOk(NewRoom(r))
    ensures r.sessions.Keys == g.sessions.Keys
    ensures forall u :: u in r.sessions ==>
      r.sessions[u].guesses == s.Guesses(g.id, u) && Lossy(r.sessions[u].guesses, g.sessions[u].guesses)
    ensures all ==> SameProgress(g, r)
  {
    if all {
      InSyncIsBacked(g, s);
      LoadedHasSameProgress(g, s, r);
    }
    LoadedIsBacked(g, s, r);
    NewRoomIsOk(r);
  }

  lemma StepKeepsStack(s: Stack, e: StackEvent, t: Stack, all: bool)
    requires StackOk(s, all) && StackStep(s, e, t) && (all ==> GetsThrough(e))
    ensures StackOk(t, all) && t.room.game.id == s.room.game.id
  {
    match e
    case Elsewhere(op) =>
      ServiceModel.OthersStayApart(s.service, op, t.service, s.room.game.id);
      OthersKeepHolds(all, s.room.game, s.service.store, t.service.store);
    case Crash(r) =>
      ReloadHolds(all, s.room.game, s.service.store, r);
    case Handled(event, call, ending) =>
      StepKeepsRoom(s.room, event, t.room);
      match event
      case Start(from, now, ok) =>
        if from == s.room.game.creator && !s.room.active { StartKeepsStack(s, from, now, ok, call, ending, t, all); }
      case Play(from, text, english, now, later) =>
        if Accepts(s.room, from, text, english) {
          PlayKeepsStack(s, from, text.value, english, now, later, call, ending, t, all);
        }
      case Close =>
        if !s.room.closed && s.room.game.startedAt.Some? {
          EndingKeepsOrDeletes(s.service, t.room.game, ending, t.service);
        }
      case _ =>
  }

  lemma StartKeepsStack(s: Stack, from: string, now: int, ok: bool, call: ServiceModel.Op, ending: ServiceModel.Op,
                        t: Stack, all: bool)
    requires StackOk(s, all) && StackStep(s, Handled(Start(from, now, ok), call, ending), t)
    requires from == s.room.game.creator && !s.room.active && RoomOk(t.room)
    ensures StackOk(t, all) && t.room.game.id == s.room.game.id
  {
    StartKeepsGame(s.room.game, now, t.room.game.ranks);
    if ok { CreatedHolds(all, t.room.game, s.service.store, t.service.store); }
  }

  lemma PlayKeepsStack(s: Stack, from: string, text: string, english: bool, now: int, later: int,
                       call: ServiceModel.Op, ending: ServiceModel.Op, t: Stack, all: bool)
    requires StackOk(s, all) && StackStep(s, Handled(Play(from, Some(text), english, now, later), call, ending), t)
    requires Accepts(s.room, from, Some(text), english) && RoomOk(t.room)
    requires all ==> GetsThrough(Handled(Play(from, Some(text), english, now, later), call, ending))
    ensures StackOk(t, all) && t.room.game.id == s.room.game.id
  {
    CallKeepsHolds(s, from, text, english, now, later, call, all);
    if t.room.closed { EndingKeepsOrDeletes(AfterGuessCall(s.service, call), t.room.game, ending, t.service); }
  }

  /** After an accepted guess and the call that stores it, the store holds the game as it is then. */
  lemma CallKeepsHolds(s: Stack, from: string, text: string, english: bool, now: int, later: int,
                       call: ServiceModel.Op, all: bool)
    requires StackOk(s, all) && Accepts(s.room, from, Some(text), english) && now > 0
    requires Asked(s.room, from, text, now, later, call) && (all ==> call.up && call.pushOk && call.hashOk)
    ensures var r := AfterGuess(s.room, from, text, now, later);
      && r.game.id == s.room.game.id && r.game.startedAt == s.room.game.startedAt
      && GameOk(r.game) && Covers(r.game) && Holds(all, r.game, AfterGuessCall(s.service, call).store)
      && (r.game.endedAt.Some? ==> r.closed) && (!r.active ==> r.closed)
  {
    var m := Move(from, text, now, later);
    AcceptedIsAMove(s.room, from, text, english, now, later);
    AskedIsStored(s.room, from, text, english, now, later, call, s.service);
    PlayKeepsGame(s.room.game, from, text, now, later);
    MoveKeepsHolds(all, s.room.game, s.service.store, m, call.up && call.pushOk, call.up && call.hashOk);
  }

  lemma {:induction false} RunKeepsStack(states: seq<Stack>, events: seq<StackEvent>, n: nat, all: bool)
    requires IsStackRun(states, events) && n <= |events| && StackOk(states[0], all)
    requires all ==> forall i :: 0 <= i < |events| ==> GetsThrough(events[i])
    ensures StackOk(states[n], all) && states[n].room.game.id == states[0].room.game.id
  {
    if n > 0 {
      RunKeepsStack(states, events, n - 1, all);
      StepKeepsStack(states[n - 1], events[n - 1], states[n], all);
    }
  }

  // ---------- what the log holds ----------

  function LogFor(s: Stack, u: string): seq<Word> { s.service.store.Guesses(s.room.game.id, u) }

  /** Closed, and deleted from the hot store. */
  predicate Gone(s: Stack) { s.room.closed && s.room.game.id !in s.service.store.games }

  /** The accepted guess of `u` that the event has logged, if any. */
  predicate Logs(s: Stack, e: StackEvent, u: string) {
    && e.Handled? && e.event.Play? && e.event.from == u
    && Accepts(s.room, u, e.event.text, e.event.english)
    && e.call.Guess? && e.call.up && e.call.pushOk
  }

  function LoggedBy(s: Stack, e: StackEvent, u: string): seq<Word> {
    if Logs(s, e, u) then [e.call.guess] else []
  }

  lemma OthersKeepLog(s: Stack, op: ServiceModel.Op, t: Stack, u: string)
    requires StackStep(s, Elsewhere(op), t)
    ensures Gone(t) == Gone(s) && LogFor(t, u) == LogFor(s, u) + LoggedBy(s, Elsewhere(op), u)
  {
    ServiceModel.OthersStayApart(s.service, op, t.service, s.room.game.id);
  }

  lemma CallLogs(s: ServiceModel.ServiceState, op: ServiceModel.Op, u: string)
    requires op.Guess? && op.id in s.store.games
    ensures AfterGuessCall(s, op).store.Guesses(op.id, u)
         == s.store.Guesses(op.id, u) + if op.player == u && op.up && op.pushOk then [op.guess] else []
  {
  }

  lemma AskedIsFrom(s: RoomState, from: string, text: string, english: bool, now: int, later: int, op: ServiceModel.Op)
    requires s.game.BoardHasSessions() && Accepts(s, from, Some(text), english) && Asked(s, from, text, now, later, op)
    ensures op.player == from
  {
    AcceptedIsPlayed(s, from, Some(text), english, now, later);
  }

  lemma GuessIsLogged(s: Stack, e: StackEvent, t: Stack, u: string)
    requires StackOk(s, false) && StackStep(s, e, t) && e.Handled? && e.event.Play? && !Gone(t)
    requires t.room.game.id == s.room.game.id
    ensures !Gone(s) && LogFor(t, u) == LogFor(s, u) + LoggedBy(s, e, u)
  {
    var p := e.event;
    if Accepts(s.room, p.from, p.text, p.english) {
      CallLogs(s.service, e.call, u);
      AskedIsFrom(s.room, p.from, p.text.value, p.english, p.now, p.later, e.call);
      CallKeepsHolds(s, p.from, p.text.value, p.english, p.now, p.later, e.call, false);
      if t.room.closed { EndingKeepsOrDeletes(AfterGuessCall(s.service, e.call), t.room.game, e.ending, t.service); }
    }
  }

  /** A message that is no guess logs nothing. */
  lemma OthersLogNothing(s: Stack, e: StackEvent, t: Stack, u: string)
    requires StackOk(s, false) && StackStep(s, e, t) && e.Handled? && !e.event.Play? && !Gone(t)
    requires t.room.game.id == s.room.game.id
    ensures !Gone(s) && LogFor(t, u) == LogFor(s, u) + LoggedBy(s, e, u)
  {
    match e.event
    case Close =>
      if !s.room.closed && s.room.game.startedAt.Some? {
        EndingKeepsOrDeletes(s.service, t.room.game, e.ending, t.service);
      }
    case _ =>
  }

  lemma ReloadLogsNothing(s: Stack, r: GameState, t: Stack, u: string)
    requires StackStep(s, Crash(r), t) && t.room.game.id == s.room.game.id
    ensures !Gone(s) && LogFor(t, u) == LogFor(s, u) + LoggedBy(s, Crash(r), u)
  {
  }

  /** An event logs its accepted guess if the push gets through, and nothing else; once gone, a game stays gone. */
  lemma StepLogs(s: Stack, e: StackEvent, t: Stack, u: string)
    requires StackOk(s, false) && StackStep(s, e, t) && !Gone(t)
    ensures !Gone(s) && t.room.game.id == s.room.game.id && LogFor(t, u) == LogFor(s, u) + LoggedBy(s, e, u)
  {
    StepKeepsStack(s, e, t, false);
    match e
    case Elsewhere(op) => OthersKeepLog(s, op, t, u);
    case Crash(r) => ReloadLogsNothing(s, r, t, u);
    case Handled(event, call, ending) =>
      if event.Play? { GuessIsLogged(s, e, t, u); } else { OthersLogNothing(s, e, t, u); }
  }

  /** What was in the log of `u` at first, then every guess logged by the first `n` events. */
  ghost function LoggedIn(states: seq<Stack>, events: seq<StackEvent>, n: nat, u: string): seq<Word>
    requires n <= |events| < |states|
  {
    if n == 0 then LogFor(states[0], u)
    else LoggedIn(states, events, n - 1, u) + LoggedBy(states[n - 1], events[n - 1], u)
  }

  /** Unless the game is gone, the log of `u` is what the first `n` events have logged. */
  ghost predicate IsLogged(states: seq<Stack>, events: seq<StackEvent>, n: nat, u: string)
    requires n <= |events| < |states|
  {
    Gone(states[n]) || LogFor(states[n], u) == LoggedIn(states, events, n, u)
  }

  lemma StepIsLogged(states: seq<Stack>, events: seq<StackEvent>, n: nat, u: string)
    requires IsStackRun(states, events) && n < |events| && StackOk(states[0], false) && IsLogged(states, events, n, u)
    ensures IsLogged(states, events, n + 1, u)
  {
    RunKeepsStack(states, events, n, false);
    if !Gone(states[n + 1]) { StepLogs(states[n], events[n], states[n + 1], u); }
  }

  lemma {:induction false} LoggedToTheEnd(states: seq<Stack>, events: seq<StackEvent>, n: nat, u: string)
    requires n <= |events| < |states|
    requires forall i :: 0 <= i < |events| && IsLogged(states, events, i, u) ==> IsLogged(states, events, i + 1, u)
    ensures IsLogged(states, events, n, u)
  {
    if n > 0 {
      LoggedToTheEnd(states, events, n - 1, u);
      assert IsLogged(states, events, n - 1, u);
    }
  }

  /** Over any run, as long as the game is not deleted, a player's log is exactly the accepted guesses whose push got
      through. */
  lemma LogIsWhatGotThrough(states: seq<Stack>, events: seq<StackEvent>, n: nat, u: string)
    requires IsStackRun(states, events) && n <= |events| && StackOk(states[0], false)
    ensures Gone(states[n]) || LogFor(states[n], u) == LoggedIn(states, events, n, u)
  {
    forall i | 0 <= i < |events| && IsLogged(states, events, i, u) ensures IsLogged(states, events, i + 1, u) {
      StepIsLogged(states, events, i, u);
    }
    LoggedToTheEnd(states, events, n, u);
  }

  /** From a new room on, through starts and endings that fail, joins, guesses, lost writes, other games and crashes at
      any point: whatever can be loaded comes back in an open room, and holds of every player exactly the accepted
      guesses whose push got through, in the order they were made; if every guess got through, with all the progress the
      game had. */
  lemma NothingElseIsLost(states: seq<Stack>, events: seq<StackEvent>, n: nat, all: bool, r: GameState, u: string)
    requires IsStackRun(states, events) && n <= |events| && StackOk(states[0], all)
    requires all ==> forall i :: 0 <= i < |events| ==> GetsThrough(events[i])
    requires Loads(states[n].service.store, states[0].room.game.id, r) && u in states[n].room.game.sessions
    ensures NewRoom(r).active && RoomOk(NewRoom(r)) && r.sessions.Keys == states[n].room.game.sessions.Keys
    ensures r.sessions[u].guesses == LoggedIn(states, events, n, u)
    ensures Lossy(r.sessions[u].guesses, states[n].room.game.sessions[u].guesses)
    ensures all ==> SameProgress(states[n].room.game, r)
  {
    RunKeepsStack(states, events, n, all);
    ReloadHolds(all, states[n].room.game, states[n].service.store, r);
    if all { FullIsOk(states[0]); }
    LogIsWhatGotThrough(states, events, n, u);
  }

  lemma EndingKeepsIff(s: ServiceModel.ServiceState, g: GameState, op: ServiceModel.Op, t: ServiceModel.ServiceState)
    requires Ends(s, g, op, t) && g.id in s.store.games
    ensures g.id in t.store.games <==> !(ServiceModel.Settles(s, op, g.id) && op.getOk && op.delOk)
  {
  }

  /** When a running game's room closes, the game is still in the hot store, to be loaded again as a running one, exactly
      when its results or its wipe were not committed or it could not be deleted. */
  lemma ClosedIsKeptIff(s: Stack, event: RoomEvent, call: ServiceModel.Op, ending: ServiceModel.Op, t: Stack)
    requires StackOk(s, false) && s.room.active && t.room.closed && StackStep(s, Handled(event, call, ending), t)
    ensures ending.Finish? || ending.Wipe?
    ensures t.room.game.id in t.service.store.games <==>
      !(ServiceModel.Settles(s.service, ending, s.room.game.id) && ending.getOk && ending.delOk)
  {
    match event
    case Play(from, text, english, now, later) =>
      AcceptedIsAMove(s.room, from, text.value, english, now, later);
      EndingKeepsIff(AfterGuessCall(s.service, call), t.room.game, ending, t.service);
    case Close =>
      EndingKeepsIff(s.service, t.room.game, ending, t.service);
    case _ =>
  }

  /** Whatever was closed but kept comes back in an open room, and then ends exactly when it came back with somebody
      still to end and nobody who had lost, with the move that ends the last session. */
  lemma KeptComesBack(s: Stack, r: GameState, moves: seq<Move>)
    requires StackOk(s, false) && s.room.closed && Loads(s.service.store, s.room.game.id, r) && OnTime(moves)
    ensures NewRoom(r).active && GameOk(r)
    ensures PlayAll(r, moves).endedAt.Some? <==>
      r.EndedPlayers() != r.sessions.Keys && Losers(r) == {} && PlayAll(r, moves).EndedPlayers() == r.sessions.Keys
    ensures r.EndedPlayers() == r.sessions.Keys ==> PlayAll(r, moves) == r
  {
    ReloadHolds(false, s.room.game, s.service.store, r);
    ReloadedGameEndsWhen(s.room.game, s.service.store, r, moves);
    if r.EndedPlayers() == r.sessions.Keys { AllEndedIsFinal(r, moves); }
  }

  /** So a game of which every session had ended and every guess was logged, but which was kept, comes back as one that
      runs for good: it takes no guess, and never ends. */
  lemma KeptEndRunsForGood(s: Stack, r: GameState, moves: seq<Move>)
    requires StackOk(s, true) && s.room.closed && s.room.game.EndedPlayers() == s.room.game.sessions.Keys
    requires Loads(s.service.store, s.room.game.id, r) && forall m :: m in moves ==> m.at > 0
    ensures NewRoom(r).active && GameOk(r) && PlayAll(r, moves) == r && r.endedAt.None?
  {
    FullIsOk(s);
    ReloadHolds(true, s.room.game, s.service.store, r);
    SameBests(s.room.game, r);
    KeptComesBack(s, r, moves);
  }

  lemma FullIsOk(s: Stack)
    requires StackOk(s, true)
    ensures StackOk(s, false)
  {
    if InSync(s.room.game, s.service.store) { InSyncIsBacked(s.room.game, s.service.store); }
  }

  /** A room for a new game under an unused id is where such runs start. */
  lemma NewStackIsOk(id: string, creator: string, secret: Word, now: int, service: ServiceModel.ServiceState, all: bool)
    requires secret.word != "" && Unused(service.store, id)
    ensures StackOk(Stack(NewRoom(NewGame(id, creator, secret, now)), service), all)
  {
  }
}
