/** A game from the making of its room to the fetching of its results, on a server that does not crash meanwhile. */
module Lifecycle {
  import opened Collections
  import opened Words
  import opened Leaderboard
  import opened GameModel
  import opened RoomModel
  import opened Postgres
  import opened Archive
  import opened Stack
  import ServiceModel

  // ---------- the game in the room ----------

  /** What a room keeps of its game from the start to the end. */
  ghost predicate Unbroken(s: RoomState, secret: Word) {
    && RoomOk(s) && s.game.secret == secret && Uncounted(s.game) == 0 && FiveLetters(s.game)
    && (s.active ==> Covers(s.game))
    && (s.game.endedAt.Some? ==> s.closed && Covers(s.game) && s.game.EndedPlayers() == s.game.sessions.Keys)
  }

  lemma MoveMayEnd(g: GameState, m: Move)
    requires GameOk(g) && Covers(g) && Uncounted(g) == 0 && g.endedAt.None? && m.at > 0
    ensures var r := PlayMove(g, m);
      Uncounted(r) == 0 && r.secret == g.secret && Covers(r) && (r.endedAt.Some? ==> r.EndedPlayers() == r.sessions.Keys)
  {
    MoveExtends(g, m);
    PlayKeepsGame(g, m.player, m.text, m.at, m.end);
    PlayCounts(g, m.player, NewWord(m.text), m.at, m.end);
  }

  lemma StepKeepsUnbroken(s: RoomState, e: RoomEvent, t: RoomState, secret: Word)
    requires Unbroken(s, secret) && Possible(s, e) && LetIn(s, e) && RoomModel.Step(s, e, t)
    ensures Unbroken(t, secret)
  {
    StepKeepsRoom(s, e, t);
    StepKeepsFiveLetters(s, e, t);
    match e
    case Start(_, now, _) =>
      if t != s {
        EventKeepsGame(s.game, Started(now, t.game.ranks));
        StartKeepsGame(s.game, now, t.game.ranks);
      }
    case Join(p) =>
      if p.username !in s.game.sessions { EventKeepsGame(s.game, Joined(p)); }
    case Play(from, text, english, now, later) =>
      if Accepts(s, from, text, english) {
        AcceptedIsAMove(s, from, text.value, english, now, later);
        MoveMayEnd(s.game, Move(from, text.value, now, later));
      }
    case _ =>
  }

  // ---------- its players and rows ----------

  predicate RowsAreEmpty(t: Tables, id: string) {
    forall k :: k in t.rows && k.0 == id ==> t.rows[k] == EMPTY_ROW
  }

  /** All players are registered, and while the game runs each has an empty row, and nobody else. */
  ghost predicate OnRecord(s: Stack) {
    && s.service.cold.Consistent() && ServiceModel.RowsHaveGames(s.service.cold)
    && Registered(s.service.cold, s.room.game)
    && (s.room.active ==> Enrolled(s.service.cold, s.room.game) && RowsAreEmpty(s.service.cold, s.room.game.id))
  }

  /** Whoever joins is a registered player. */
  predicate JoinsRegistered(e: StackEvent, users: map<int, string>) {
    e.Handled? && e.event.Join? ==> e.event.player.id in users && users[e.event.player.id] == e.event.player.username
  }

  lemma OthersKeepRecord(s: Tables, t: Tables, g: GameState)
    requires ServiceModel.SameInTables(s, t, g.id) && t.Consistent()
    ensures Registered(s, g) ==> Registered(t, g)
    ensures Enrolled(s, g) ==> Enrolled(t, g)
    ensures RowsAreEmpty(s, g.id) ==> RowsAreEmpty(t, g.id)
  {
    if Enrolled(s, g) {
      forall u | u in g.sessions ensures RowOf(t, g.id, u) {
        var p :| (g.id, p) in s.rows && s.users[p] == u;
        assert (g.id, p) in t.rows && t.users[p] == u;
      }
    }
    if RowsAreEmpty(s, g.id) {
      forall k | k in t.rows && k.0 == g.id ensures t.rows[k] == EMPTY_ROW {
        var p := k.1;
        assert k == (g.id, p);
        assert (g.id, p) in t.rows;
        assert (g.id, p) in s.rows;
      }
    }
  }

  /** Record and registration depend on the id, the secret and who the players are. */
  lemma MoveKeepsRecord(t: Tables, g: GameState, m: Move)
    requires g.BoardHasSessions()
    ensures Registered(t, g) ==> Registered(t, PlayMove(g, m))
    ensures Enrolled(t, g) ==> Enrolled(t, PlayMove(g, m))
  {
    MoveExtends(g, m);
    var r := PlayMove(g, m);
    assert forall u :: u in g.sessions ==> r.sessions[u].player == g.sessions[u].player;
    if Enrolled(t, g) {
      forall u | u in r.sessions ensures RowOf(t, r.id, u) { assert RowOf(t, g.id, u); }
    }
  }

  lemma StartKeepsRecord(s: Stack, from: string, now: int, ok: bool, call: ServiceModel.Op, ending: ServiceModel.Op,
                         t: Stack)
    requires OnRecord(s) && StackStep(s, Handled(Start(from, now, ok), call, ending), t)
    requires from == s.room.game.creator && !s.room.active
    ensures OnRecord(t) && t.service.cold.users == s.service.cold.users
  {
    ServiceModel.NextKeepsTables(s.service, call, t.service);
    if ok { StartRecords(s.service.cold, t.room.game, t.service.cold); }
  }

  lemma PlayKeepsRecord(s: Stack, from: string, text: string, english: bool, now: int, later: int,
                        call: ServiceModel.Op, ending: ServiceModel.Op, t: Stack)
    requires OnRecord(s) && StackStep(s, Handled(Play(from, Some(text), english, now, later), call, ending), t)
    requires Accepts(s.room, from, Some(text), english)
    ensures OnRecord(t) && t.service.cold.users == s.service.cold.users
  {
    AcceptedIsAMove(s.room, from, text, english, now, later);
    MoveKeepsRecord(s.service.cold, s.room.game, Move(from, text, now, later));
    if t.room.closed { ServiceModel.NextKeepsTables(AfterGuessCall(s.service, call), ending, t.service); }
  }

  lemma StepKeepsRecord(s: Stack, e: StackEvent, t: Stack)
    requires OnRecord(s) && StackStep(s, e, t) && !e.Crash? && JoinsRegistered(e, s.service.cold.users)
    ensures OnRecord(t) && t.service.cold.users == s.service.cold.users
  {
    match e
    case Elsewhere(op) =>
      ServiceModel.NextKeepsTables(s.service, op, t.service);
      ServiceModel.OthersStayApart(s.service, op, t.service, s.room.game.id);
      OthersKeepRecord(s.service.cold, t.service.cold, s.room.game);
    case Handled(event, call, ending) =>
      match event
      case Start(from, now, ok) =>
        if from == s.room.game.creator && !s.room.active { StartKeepsRecord(s, from, now, ok, call, ending, t); }
      case Play(from, text, english, now, later) =>
        if Accepts(s.room, from, text, english) {
          PlayKeepsRecord(s, from, text.value, english, now, later, call, ending, t);
        }
      case Close =>
        if !s.room.closed && s.room.game.startedAt.Some? { ServiceModel.NextKeepsTables(s.service, ending, t.service); }
      case _ =>
  }

  /** No crash, and only registered players join. */
  predicate Quiet(events: seq<StackEvent>, users: map<int, string>) {
    forall i :: 0 <= i < |events| ==> !events[i].Crash? && JoinsRegistered(events[i], users)
  }

  lemma {:induction false} RunIsUnbroken(states: seq<Stack>, events: seq<StackEvent>, n: nat, secret: Word)
    requires IsStackRun(states, events) && n <= |events| && Unbroken(states[0].room, secret)
    requires forall i :: 0 <= i < |events| ==> !events[i].Crash?
    ensures Unbroken(states[n].room, secret)
  {
    if n > 0 {
      RunIsUnbroken(states, events, n - 1, secret);
      if events[n - 1].Handled? {
        StepKeepsUnbroken(states[n - 1].room, events[n - 1].event, states[n].room, secret);
      }
    }
  }

  lemma {:induction false} RunIsOnRecord(states: seq<Stack>, events: seq<StackEvent>, n: nat)
    requires IsStackRun(states, events) && n <= |events| && OnRecord(states[0])
    requires Quiet(events, states[0].service.cold.users)
    ensures OnRecord(states[n]) && states[n].service.cold.users == states[0].service.cold.users
  {
    if n > 0 {
      RunIsOnRecord(states, events, n - 1);
      StepKeepsRecord(states[n - 1], events[n - 1], states[n]);
    }
  }

  lemma {:induction false} RunKeepsId(states: seq<Stack>, events: seq<StackEvent>, n: nat)
    requires IsStackRun(states, events) && n <= |events|
    requires forall i :: 0 <= i < |events| ==> !events[i].Crash?
    ensures states[n].room.game.id == states[0].room.game.id
  {
    if n > 0 {
      RunKeepsId(states, events, n - 1);
      StepKeepsId(states[n - 1], events[n - 1], states[n]);
    }
  }

  lemma StepKeepsId(s: Stack, e: StackEvent, t: Stack)
    requires StackStep(s, e, t) && !e.Crash?
    ensures t.room.game.id == s.room.game.id
  {
    if e.Handled? {
      match e.event
      case Play(from, text, english, now, later) =>
        if Accepts(s.room, from, text, english) { AcceptedIsAMove(s.room, from, text.value, english, now, later); }
      case _ =>
    }
  }

  // ---------- the clock ----------

  predicate IsGuessEvent(e: StackEvent) { e.Handled? && e.event.Play? }

  /** When the last of the first `n` events that was a guess came. */
  function LastGuess(events: seq<StackEvent>, n: nat): int
    requires n <= |events|
  {
    if n == 0 then 0
    else if IsGuessEvent(events[n - 1]) then events[n - 1].event.now
    else LastGuess(events, n - 1)
  }

  /** The clock never repeats a reading. */
  predicate Clocked(events: seq<StackEvent>) {
    forall i :: 0 <= i < |events| && IsGuessEvent(events[i]) ==> events[i].event.now > LastGuess(events, i)
  }

  lemma StepKeepsStamps(s: Stack, e: StackEvent, t: Stack, time: int)
    requires StampedBy(s.room.game, time) && StackStep(s, e, t) && !e.Crash?
    requires IsGuessEvent(e) ==> e.event.now > time
    ensures StampedBy(t.room.game, if IsGuessEvent(e) then e.event.now else time)
  {
    if IsGuessEvent(e) && Accepts(s.room, e.event.from, e.event.text, e.event.english) {
      AcceptedIsAMove(s.room, e.event.from, e.event.text.value, e.event.english, e.event.now, e.event.later);
      MoveKeepsStamps(s.room.game, time, Move(e.event.from, e.event.text.value, e.event.now, e.event.later));
    }
  }

  lemma {:induction false} RunIsStamped(states: seq<Stack>, events: seq<StackEvent>, n: nat)
    requires IsStackRun(states, events) && Clocked(events) && n <= |events| && NobodyPlayed(states[0].room.game)
    requires forall i :: 0 <= i < |events| ==> !events[i].Crash?
    ensures StampedBy(states[n].room.game, LastGuess(events, n))
  {
    if n > 0 {
      RunIsStamped(states, events, n - 1);
      StepKeepsStamps(states[n - 1], events[n - 1], states[n], LastGuess(events, n - 1));
    }
  }

  // ---------- from start to end ----------

  /** The event ended the game, and the service committed its results. */
  predicate EndsInStore(s: Stack, e: StackEvent, t: Stack) {
    && s.room.active && t.room.game.endedAt.Some? && e.Handled? && e.ending.Finish?
    && ServiceModel.Settles(s.service, e.ending, s.room.game.id)
  }

  /** Only an accepted guess ends a game, and the room then has its results stored. */
  lemma EndIsAGuess(s: Stack, e: StackEvent, t: Stack)
    requires StackStep(s, e, t) && EndsInStore(s, e, t) && RoomOk(s.room)
    ensures e.event.Play? && Accepts(s.room, e.event.from, e.event.text, e.event.english)
    ensures t.room.game == PlayMove(s.room.game, Move(e.event.from, e.event.text.value, e.event.now, e.event.later))
    ensures Finished(s.service.cold, t.room.game, t.service.cold)
  {
    match e.event
    case Play(from, text, english, now, later) => AcceptedIsAMove(s.room, from, text.value, english, now, later);
    case _ =>
  }

  lemma EndIsStored(s: Stack, e: StackEvent, t: Stack)
    requires StackStep(s, e, t) && EndsInStore(s, e, t) && RoomOk(s.room) && OnRecord(s)
    ensures Enrolled(s.service.cold, t.room.game) && Registered(s.service.cold, t.room.game)
    ensures Finished(s.service.cold, t.room.game, t.service.cold)
  {
    EndIsAGuess(s, e, t);
    MoveKeepsRecord(s.service.cold, s.room.game, Move(e.event.from, e.event.text.value, e.event.now, e.event.later));
  }

  /** The player can fetch the game, and any game fetched shows its details and every player's result. */
  predicate IsShown(g: GameState, t: Tables, asking: string, r: GameState)
    requires asking in g.sessions
  {
    && Fetchable(t, g.id, g.sessions[asking].player.id)
    && (Fetches(t, g.id, g.sessions[asking].player.id, r) ==>
          r.sessions.Keys == g.sessions.Keys && SameDetails(r, g)
          && forall u :: u in g.sessions ==> SameResult(r.sessions[u], g.sessions[u], u == asking))
  }

  /** Any game fetched ranks every player who scored as they were. */
  predicate IsRanked(g: GameState, t: Tables, asking: string, r: GameState)
    requires asking in g.sessions
  {
    Fetches(t, g.id, g.sessions[asking].player.id, r) ==>
      var n := |ScoringPlayers(g.Bests())|; n <= |r.ranks| && n <= |g.ranks| && r.ranks[..n] == g.ranks[..n]
  }

  /** The tables `after` came from those `before` by committing the results of a game fit to be stored. */
  ghost predicate Committed(before: Tables, g: GameState, after: Tables) {
    Storable(g) && Enrolled(before, g) && Registered(before, g) && Finished(before, g, after)
  }

  lemma IdsTellApart(t: Tables, g: GameState, u: string, v: string)
    requires Registered(t, g) && u in g.sessions && v in g.sessions
    ensures g.sessions[u].player.id == g.sessions[v].player.id <==> u == v
  {
  }

  lemma FetchedIsShown(before: Tables, g: GameState, after: Tables, asking: string, r: GameState)
    requires Committed(before, g, after) && asking in g.sessions && Fetches(after, g.id, g.sessions[asking].player.id, r)
    ensures r.sessions.Keys == g.sessions.Keys && SameDetails(r, g)
    ensures forall u :: u in g.sessions ==> SameResult(r.sessions[u], g.sessions[u], u == asking)
    ensures DistinctTimes(g.Bests()) ==> IsRanked(g, after, asking, r)
  {
    FinishedGameSurvives(before, g, after, g.sessions[asking].player.id, r);
    forall u | u in g.sessions ensures SameResult(r.sessions[u], g.sessions[u], u == asking) {
      IdsTellApart(before, g, u, asking);
    }
  }

  lemma CommittedIsShown(before: Tables, g: GameState, after: Tables, asking: string, r: GameState)
    requires asking in g.sessions
    ensures Committed(before, g, after) ==> IsShown(g, after, asking, r)
    ensures Committed(before, g, after) && DistinctTimes(g.Bests()) ==> IsRanked(g, after, asking, r)
  {
    if Committed(before, g, after) {
      var me := g.sessions[asking].player.id;
      RowHoldsResult(before, g, after, asking);
      StoredIsFetchable(before, g, after, me);
      if Fetches(after, g.id, me, r) { FetchedIsShown(before, g, after, asking, r); }
    }
  }

  /** A run that ends with the end of a game leaves its results in the permanent store, all of them. */
  lemma PlayedGameIsStored(states: seq<Stack>, events: seq<StackEvent>, secret: Word)
    requires IsStackRun(states, events) && events != []
    requires |secret.word| == WORD_LENGTH && ToUpper(secret.word) == secret.word
    requires Unbroken(states[0].room, secret) && OnRecord(states[0])
    requires Quiet(events, states[0].service.cold.users)
    requires EndsInStore(states[|events| - 1], events[|events| - 1], states[|events|])
    ensures var before, after := states[|events| - 1].service.cold, states[|events|].service.cold;
      var g := states[|events|].room.game;
      g.id == states[0].room.game.id && Committed(before, g, after)
  {
    var n := |events| - 1;
    RunIsUnbroken(states, events, n, secret);
    RunIsUnbroken(states, events, n + 1, secret);
    RunIsOnRecord(states, events, n);
    RunKeepsId(states, events, n + 1);
    EndIsStored(states[n], events[n], states[n + 1]);
  }

  lemma NewRoomIsUnbroken(s: Stack, id: string, creator: string, secret: Word, now: int)
    requires s.room == NewRoom(NewGame(id, creator, secret, now)) && secret.word != ""
    requires s.service.cold.Consistent() && ServiceModel.RowsHaveGames(s.service.cold)
    ensures Unbroken(s.room, secret) && OnRecord(s)
  {
    assert s.room.game.EndedPlayers() == {};
  }

  /** A run from the making of a room to the end of its game, on a server that does not crash, with registered players
      only; the results were committed when the game ended. */
  ghost predicate IsLifetime(states: seq<Stack>, events: seq<StackEvent>, id: string, creator: string, secret: Word,
                             now: int)
  {
    && IsStackRun(states, events) && events != [] && states[0].room == NewRoom(NewGame(id, creator, secret, now))
    && |secret.word| == WORD_LENGTH && ToUpper(secret.word) == secret.word
    && states[0].service.cold.Consistent() && ServiceModel.RowsHaveGames(states[0].service.cold)
    && Quiet(events, states[0].service.cold.users)
    && EndsInStore(states[|events| - 1], events[|events| - 1], states[|events|])
  }

  lemma LifetimeIsCommitted(states: seq<Stack>, events: seq<StackEvent>, id: string, creator: string, secret: Word,
                            now: int)
    requires IsLifetime(states, events, id, creator, secret, now)
    ensures states[|events|].room.game.id == id
    ensures Committed(states[|events| - 1].service.cold, states[|events|].room.game, states[|events|].service.cold)
    ensures Clocked(events) ==> DistinctTimes(states[|events|].room.game.Bests())
  {
    NewRoomIsUnbroken(states[0], id, creator, secret, now);
    PlayedGameIsStored(states, events, secret);
    if Clocked(events) { PlayedTimesAreDistinct(states, events, secret); }
  }

  lemma PlayedTimesAreDistinct(states: seq<Stack>, events: seq<StackEvent>, secret: Word)
    requires IsStackRun(states, events) && Clocked(events) && NobodyPlayed(states[0].room.game)
    requires Unbroken(states[0].room, secret) && forall i :: 0 <= i < |events| ==> !events[i].Crash?
    ensures DistinctTimes(states[|events|].room.game.Bests())
  {
    RunIsUnbroken(states, events, |events|, secret);
    RunIsStamped(states, events, |events|);
    StampsAreDistinct(states[|events|].room.game, LastGuess(events, |events|));
  }

  /** A game of registered players, played from the making of its room to its end on a server that does not crash and
      stored when it ended, can be fetched by each of its players; the fetched game shows everyone's result as it was,
      the asking player's with all guesses, and, under a clock that never repeats a reading, every player who scored in
      their place. */
  lemma PlayedGameIsFetched(states: seq<Stack>, events: seq<StackEvent>, id: string, creator: string, secret: Word,
                            now: int, asking: string, r: GameState)
    requires IsLifetime(states, events, id, creator, secret, now)
    requires asking in states[|events|].room.game.sessions
    ensures IsShown(states[|events|].room.game, states[|events|].service.cold, asking, r)
    ensures Clocked(events) ==> IsRanked(states[|events|].room.game, states[|events|].service.cold, asking, r)
  {
    LifetimeIsCommitted(states, events, id, creator, secret, now);
    CommittedIsShown(states[|events| - 1].service.cold, states[|events|].room.game, states[|events|].service.cold,
                     asking, r);
  }
}
