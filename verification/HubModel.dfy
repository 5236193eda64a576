/** The room cache and its collector as a state machine over time: service/hub_service.go. */
module HubModel {

  const MINUTE := 60_000_000_000
  const TICK := 15 * MINUTE
  const ROOM_DURATION := 60 * MINUTE
  const EMPTY_ROOM_DURATION := 15 * MINUTE

  /** When the game of a cached room was created, and when the room was put into the cache. */
  datatype Entry = Entry(created: int, inserted: int)

  /** `now` is the time of the last event, `lastTick` that of the last tick. */
  datatype HubState = HubState(rooms: map<string, Entry>, garbage: set<string>, markPhase: bool, lastTick: int, now: int)

  datatype HubEvent =
    | Insert(id: string, created: int, at: int)
    | Remove(id: string, at: int)
    | Tick(empty: set<string>) // the ids of rooms whose games have no sessions

  /** The room is too old, or has been empty too long. */
  predicate Expired(created: int, empty: bool, now: int) {
    now - created >= ROOM_DURATION || (now - created >= EMPTY_ROOM_DURATION && empty)
  }

  function Mark(s: HubState, empty: set<string>, now: int): HubState {
    s.(garbage := (set id | id in s.rooms && Expired(s.rooms[id].created, id in empty, now)),
       markPhase := false, lastTick := now, now := now)
  }

  function Sweep(s: HubState, now: int): HubState {
    s.(rooms := s.rooms - s.garbage, garbage := {}, markPhase := true, lastTick := now, now := now)
  }

  function Next(s: HubState, e: HubEvent): HubState {
    match e
    case Insert(id, created, at) => s.(rooms := s.rooms[id := Entry(created, at)], now := at)
    case Remove(id, at) => s.(rooms := s.rooms - {id}, now := at)
    case Tick(empty) => if s.markPhase then Mark(s, empty, s.lastTick + TICK) else Sweep(s, s.lastTick + TICK)
  }

  /** Ticks come every quarter of an hour, everything else in between, in order of time. */
  predicate InTime(s: HubState, e: HubEvent) {
    match e
    case Insert(_, _, at) => s.now <= at <= s.lastTick + TICK
    case Remove(_, at) => s.now <= at <= s.lastTick + TICK
    case Tick(_) => true
  }

  function NewHub(now: int): HubState { HubState(map[], {}, true, now, now) }

  function Run(s: HubState, events: seq<HubEvent>): HubState
    decreases |events|
  {
    if events == [] then s else Next(Run(s, events[..|events| - 1]), events[|events| - 1])
  }

  predicate RunsInTime(s: HubState, events: seq<HubEvent>) {
    forall i :: 0 <= i < |events| ==> InTime(Run(s, events[..i]), events[i])
  }

  function Max(a: int, b: int): int { if a < b then b else a }

  /** From when on a mark is bound to pick the room up. */
  function Due(e: Entry): int { Max(e.inserted, e.created + ROOM_DURATION) }

  /** What one full cycle of marking and sweeping leaves in the cache. */
  predicate Timely(s: HubState) {
    && s.lastTick <= s.now <= s.lastTick + TICK
    && forall id :: id in s.rooms ==>
         if s.markPhase then Due(s.rooms[id]) >= s.lastTick - TICK
         else Due(s.rooms[id]) >= s.lastTick - 2 * TICK && (Due(s.rooms[id]) < s.lastTick ==> id in s.garbage)
  }

  lemma EventKeepsTimely(s: HubState, e: HubEvent)
    requires Timely(s) && InTime(s, e)
    ensures Timely(Next(s, e))
  {
  }

  /** No room stays in the cache for more than 45 minutes after it was put there and its game has turned an hour old. */
  lemma {:induction false} RoomsAreCollected(start: int, events: seq<HubEvent>)
    requires RunsInTime(NewHub(start), events)
    ensures Timely(Run(NewHub(start), events))
    ensures forall id :: id in Run(NewHub(start), events).rooms ==>
      var e := Run(NewHub(start), events).rooms[id];
      Run(NewHub(start), events).now <= Max(e.inserted, e.created + 60 * MINUTE) + 45 * MINUTE
    decreases |events|
  {
    if events != [] {
      var n := |events| - 1;
      var s := NewHub(start);
      forall i | 0 <= i < n ensures InTime(Run(s, events[..n][..i]), events[..n][i]) {
        assert events[..n][..i] == events[..i];
      }
      RoomsAreCollected(start, events[..n]);
      EventKeepsTimely(Run(s, events[..n]), events[n]);
    }
  }

  /** Old enough to be collected at this time, in minutes; `empty` are the rooms without players. */
  predicate OldEnough(created: int, empty: bool, at: int) {
    at >= created + 60 * MINUTE || (empty && at >= created + 15 * MINUTE)
  }

  /** A sweep takes out exactly what is left of the rooms that were old enough at the preceding mark. */
  lemma SweepTakesOnlyExpired(s: HubState, empty: set<string>, between: seq<HubEvent>, id: string)
    requires s.markPhase && forall e :: e in between ==> !e.Tick?
    ensures var marked := Next(s, Tick(empty)); var before := Run(marked, between);
      && !before.markPhase && marked.now == s.lastTick + TICK
      && (id in before.rooms && id !in Next(before, Tick({})).rooms <==>
            id in before.rooms && id in s.rooms && OldEnough(s.rooms[id].created, id in empty, marked.now))
  {
    BetweenTicks(Next(s, Tick(empty)), between);
  }

  /** The tick at `m` was the last one among the first `n` events, and it marked. */
  ghost predicate MarkedLast(start: int, events: seq<HubEvent>, m: nat, n: nat)
    requires m < n <= |events|
  {
    && events[m].Tick? && Run(NewHub(start), events[..m]).markPhase
    && forall i :: m < i < n ==> !events[i].Tick?
  }

  function Ticks(events: seq<HubEvent>): nat {
    if events == [] then 0
    else Ticks(events[..|events| - 1]) + if events[|events| - 1].Tick? then 1 else 0
  }

  /** Ticks come every quarter of an hour, and mark and sweep in turn. */
  lemma {:induction false} TicksAreQuarterly(start: int, events: seq<HubEvent>)
    ensures Run(NewHub(start), events).lastTick == start + Ticks(events) * 15 * MINUTE
    ensures Run(NewHub(start), events).markPhase <==> Ticks(events) % 2 == 0
    decreases |events|
  {
    if events != [] { TicksAreQuarterly(start, events[..|events| - 1]); }
  }

  /** The room would be picked up by a mark of the next tick. */
  predicate WasOldEnough(s: HubState, id: string, empty: set<string>) {
    id in s.rooms && OldEnough(s.rooms[id].created, id in empty, s.lastTick + TICK)
  }

  lemma RunOneMore(start: int, events: seq<HubEvent>, n: nat)
    requires 0 < n <= |events|
    ensures Run(NewHub(start), events[..n]) == Next(Run(NewHub(start), events[..n - 1]), events[n - 1])
  {
    assert events[..n][..n - 1] == events[..n - 1];
  }

  /** While a sweep is due, what is listed was old enough when the last tick marked. */
  lemma {:induction false} ListedWereOldEnough(start: int, events: seq<HubEvent>, n: nat) returns (m: nat)
    requires n <= |events| && !Run(NewHub(start), events[..n]).markPhase
    ensures m < n && MarkedLast(start, events, m, n)
    ensures var marked, now := Run(NewHub(start), events[..m]), Run(NewHub(start), events[..n]);
      forall id :: id in now.garbage ==> WasOldEnough(marked, id, events[m].empty)
  {
    RunOneMore(start, events, n);
    if events[n - 1].Tick? { m := n - 1; } else { m := ListedWereOldEnough(start, events, n - 1); }
  }

  /** Over any run, whatever a tick takes out of the cache was there at the tick before, and then its game was at least
      an hour old, or at least a quarter of an hour old and without players. */
  lemma NothingIsSweptEarly(start: int, events: seq<HubEvent>, n: nat, id: string)
    requires n < |events| && events[n].Tick?
    requires id in Run(NewHub(start), events[..n]).rooms && id !in Run(NewHub(start), events[..n + 1]).rooms
    ensures exists m: nat :: m < n && MarkedLast(start, events, m, n)
                             && WasOldEnough(Run(NewHub(start), events[..m]), id, events[m].empty)
  {
    RunOneMore(start, events, n + 1);
    var m := ListedWereOldEnough(start, events, n);
    assert MarkedLast(start, events, m, n);
  }

  lemma {:induction false} BetweenTicks(s: HubState, between: seq<HubEvent>)
    requires forall e :: e in between ==> !e.Tick?
    ensures Run(s, between).garbage == s.garbage && Run(s, between).markPhase == s.markPhase
    ensures Run(s, between).lastTick == s.lastTick
    decreases |between|
  {
    if between != [] { BetweenTicks(s, between[..|between| - 1]); }
  }
}
