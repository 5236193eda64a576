/** The room cache on the heap: service/hub_service.go. */
module Hub {
  import opened Collections
  import opened RoomModel
  import opened Rooms
  import opened HubModel

  class LocalStorage {
    var rooms: map<string, Room>
    var garbage: seq<Room>
    var isMarkPhase: bool
    ghost var inserted: map<string, int> // when each room was put here
    ghost var lastTick: int
    ghost var now: int

    /** Rooms are filed under the ids of their games. */
    ghost predicate Valid()
      reads this
    {
      inserted.Keys == rooms.Keys && forall id :: id in rooms ==> rooms[id].g.id == id
    }

    ghost function State(): HubState
      requires Valid()
      reads this
    {
      HubState(Entries(rooms, inserted), Ids(garbage), isMarkPhase, lastTick, now)
    }

    static ghost function Entries(rooms: map<string, Room>, inserted: map<string, int>): map<string, Entry>
      requires inserted.Keys == rooms.Keys
    {
      map id | id in rooms :: Entry(rooms[id].g.createdAt, inserted[id])
    }

    static lemma EntriesWith(rooms: map<string, Room>, inserted: map<string, int>, id: string, r: Room, at: int)
      requires inserted.Keys == rooms.Keys
      ensures Entries(rooms[id := r], inserted[id := at]) == Entries(rooms, inserted)[id := Entry(r.g.createdAt, at)]
    {
    }

    static lemma EntriesWithout(rooms: map<string, Room>, inserted: map<string, int>, ids: set<string>)
      requires inserted.Keys == rooms.Keys
      ensures Entries(rooms - ids, inserted - ids) == Entries(rooms, inserted) - ids
    {
    }

    static ghost function Ids(rooms: seq<Room>): set<string> {
      set r | r in rooms :: r.g.id
    }

    /** The ids of cached rooms whose games have no sessions. */
    ghost function EmptyRooms(): set<string>
      reads this, set id | id in rooms :: rooms[id].g
    {
      set id | id in rooms && rooms[id].g.sessions == map[]
    }

    constructor (start: int)
      ensures Valid() && State() == NewHub(start) && rooms == map[] && garbage == []
    {
      rooms, garbage, isMarkPhase := map[], [], true;
      inserted, lastTick, now := map[], start, start;
    }

    function GetRoom(id: string): Option<Room>
      reads this
    {
      if id in rooms then Some(rooms[id]) else None
    }

    method SetRoom(id: string, r: Room, ghost at: int)
      requires Valid() && r.g.id == id
      modifies this
      ensures Valid() && State() == Next(old(State()), Insert(id, r.g.createdAt, at))
      ensures rooms == old(rooms)[id := r] && garbage == old(garbage)
    {
      EntriesWith(rooms, inserted, id, r, at);
      rooms, inserted, now := rooms[id := r], inserted[id := at], at;
    }

    method DeleteRoom(id: string, ghost at: int)
      requires Valid()
      modifies this
      ensures Valid() && State() == Next(old(State()), Remove(id, at))
      ensures rooms == old(rooms) - {id} && garbage == old(garbage)
    {
      EntriesWithout(rooms, inserted, {id});
      rooms, inserted, now := rooms - {id}, inserted - {id}, at;
    }

    predicate IsGarbage(r: Room, at: int)
      reads r.g
    {
      HubModel.Expired(r.g.createdAt, r.g.sessions == map[], at)
    }

    /** One turn of the collector's loop. */
    method OnTick(at: int)
      requires Valid() && at == lastTick + TICK
      requires forall r :: r in garbage ==> r.Valid()
      modifies this, garbage, set r, n | r in garbage && n in r.players :: r.players[n]
      ensures Valid() && State() == Next(old(State()), Tick(old(EmptyRooms())))
      ensures old(isMarkPhase) ==> forall r :: r in garbage <==>
        r in old(rooms.Values) && OldEnough(r.g.createdAt, old(r.g.sessions) == map[], at)
      ensures !old(isMarkPhase) ==>
        garbage == [] && forall r :: r in old(garbage) ==> r.Valid() && r.State() == Closed(old(r.State()))
    {
      if isMarkPhase {
        DoMark(at);
      } else {
        DoSweep(at);
      }
    }

    /** Lists the rooms that are to go. */
    method DoMark(at: int)
      requires Valid()
      modifies this
      ensures Valid() && State() == Mark(old(State()), old(EmptyRooms()), at)
      ensures forall r :: r in garbage <==>
        r in old(rooms.Values) && OldEnough(r.g.createdAt, old(r.g.sessions) == map[], at)
    {
      ListGarbage(at);
      isMarkPhase, lastTick, now := false, at, at;
    }

    /** Of the rooms not under the ids in `rest`, exactly the expired ones are listed. */
    ghost predicate Listed(rest: set<string>, at: int)
      requires rest <= rooms.Keys
      reads this, set id | id in rooms :: rooms[id].g
    {
      && (forall r :: r in garbage ==> r.g.id in rooms && r.g.id !in rest && rooms[r.g.id] == r && IsGarbage(r, at))
      && (forall id :: id in rooms && id !in rest && IsGarbage(rooms[id], at) ==> rooms[id] in garbage)
    }

    method ListGarbage(at: int)
      requires Valid()
      modifies this`garbage
      ensures forall r :: r in garbage <==> r in rooms.Values && old(IsGarbage(r, at))
      ensures Ids(garbage) == set id |
        id in State().rooms && HubModel.Expired(State().rooms[id].created, id in old(EmptyRooms()), at)
    {
      garbage := [];
      var rest := rooms.Keys;
      while rest != {}
        invariant rest <= rooms.Keys && Listed(rest, at)
        modifies this`garbage
        decreases rest
      {
        var id :| id in rest;
        ListIfGarbage(rest, id, at);
        rest := rest - {id};
      }
      assert Listed({}, at);
    }

    method ListIfGarbage(ghost rest: set<string>, id: string, at: int)
      requires Valid() && rest <= rooms.Keys && id in rest && Listed(rest, at)
      modifies this`garbage
      ensures Listed(rest - {id}, at)
    {
      if IsGarbage(rooms[id], at) { garbage := garbage + [rooms[id]]; }
    }

    /** Every open one of these rooms is the cached one under its id. */
    ghost predicate OpenAreCached(all: set<Room>)
      reads this, all
    {
      forall r :: r in all && !r.closed ==> r.g.id in rooms && rooms[r.g.id] == r
    }

    /** No room has taken the place of a listed one under its id, unless it is listed or closed itself. */
    ghost predicate ListedAreCached()
      reads this, rooms.Values
    {
      forall r :: r in garbage && r.g.id in rooms ==> rooms[r.g.id] in garbage || rooms[r.g.id].closed
    }

    /** Takes the listed rooms out by id, then closes those still open. A room reloaded under the id of a listed one is
        taken out with it and left open: exactly then not every open room is the cached one any more. */
    method DoSweep(at: int)
      requires Valid() && forall r :: r in garbage ==> r.Valid()
      modifies this, garbage, set r, n | r in garbage && n in r.players :: r.players[n]
      ensures Valid() && State() == Sweep(old(State()), at)
      ensures garbage == [] && forall r :: r in old(garbage) ==> r.Valid() && r.State() == Closed(old(r.State()))
      ensures OpenAreCached(old(rooms.Values)) <==> old(ListedAreCached())
    {
      CollectListed(at);
      SweptRooms(old(rooms), old(garbage));
    }

    method CollectListed(at: int)
      requires Valid() && forall r :: r in garbage ==> r.Valid()
      modifies this, garbage, set r, n | r in garbage && n in r.players :: r.players[n]
      ensures Valid() && State() == Sweep(old(State()), at)
      ensures garbage == [] && forall r :: r in old(garbage) ==> r.Valid() && r.State() == Closed(old(r.State()))
      ensures rooms == old(rooms) - old(Ids(garbage))
      ensures forall r :: r in old(rooms.Values) ==> (r.closed <==> r in old(garbage) || old(r.closed))
    {
      var listed := garbage;
      Unlist(at);
      assert rooms == old(rooms) - Ids(listed);
      CloseRooms(listed);
      forall r | r in listed ensures r.closed { assert r.State().closed; }
    }

    /** After the sweep an open room is the cached one unless a listed room has its id. */
    lemma SweptRooms(before: map<string, Room>, listed: seq<Room>)
      requires rooms == before - Ids(listed) && forall id :: id in before ==> before[id].g.id == id
      requires forall r :: r in listed ==> r.closed
      ensures OpenAreCached(before.Values)
         <==> forall r :: r in listed && r.g.id in before ==> before[r.g.id].closed
    {
      forall r | r in listed && r.g.id in before && OpenAreCached(before.Values) ensures before[r.g.id].closed {
        assert r.g.id in Ids(listed) && before[r.g.id] in before.Values;
      }
    }

    method Unlist(at: int)
      requires Valid()
      modifies this
      ensures Valid() && State() == Sweep(old(State()), at) && garbage == []
      ensures rooms == old(rooms) - old(Ids(garbage))
    {
      TakeOut(garbage);
      garbage := [];
      isMarkPhase, lastTick, now := true, at, at;
    }

    method TakeOut(listed: seq<Room>)
      requires Valid()
      modifies this`rooms, this`inserted
      ensures Valid() && State() == old(State()).(rooms := old(State()).rooms - Ids(listed))
      ensures rooms == old(rooms) - Ids(listed)
    {
      for i := 0 to |listed|
        invariant rooms == old(rooms) - Ids(listed[..i])
        invariant inserted == old(inserted) - Ids(listed[..i])
      {
        assert Ids(listed[..i + 1]) == Ids(listed[..i]) + {listed[i].g.id} by {
          assert listed[..i + 1] == listed[..i] + [listed[i]];
        }
        rooms, inserted := rooms - {listed[i].g.id}, inserted - {listed[i].g.id};
      }
      assert listed[..|listed|] == listed;
      EntriesWithout(old(rooms), old(inserted), Ids(listed));
    }

    static method CloseRooms(listed: seq<Room>)
      requires forall r :: r in listed ==> r.Valid()
      modifies listed, set r, n | r in listed && n in r.players :: r.players[n]
      ensures forall r :: r in listed ==> r.Valid() && r.State() == Closed(old(r.State()))
    {
      ghost var all := set r | r in listed;
      ghost var done: set<Room> := {};
      for i := 0 to |listed|
        invariant done <= all && forall k :: 0 <= k < i ==> listed[k] in done
        invariant forall r :: r in all ==> r.Valid() && r.players.Values <= old(r.players.Values)
        invariant forall r :: r in all ==> r.State() == if r in done then Closed(old(r.State())) else old(r.State())
      {
        CloseOne(listed[i], all);
        done := done + {listed[i]};
      }
    }

    static method CloseOne(r: Room, ghost all: set<Room>)
      requires r in all && forall o :: o in all ==> o.Valid()
      modifies r, r.players.Values
      ensures forall o :: o in all ==> o.Valid() && o.players.Values <= old(o.players.Values)
      ensures forall o :: o in all ==> o.State() == if o == r then Closed(old(o.State())) else old(o.State())
    {
      if !r.closed { r.Close(); }
    }
  }
}
