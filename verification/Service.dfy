/** The service on the heap: the room cache over the hot and the permanent store, service/service.go. */
module Service {
  import opened Words
  import opened GameModel
  import opened Games
  import opened Rooms
  import opened ServiceModel
  import Hub
  import Postgres
  import Redis
  import RoomModel

  class Service {
    const cold: Postgres.GameRepo
    const cache: Hub.LocalStorage
    const store: Redis.GameRepository

    /** Stored games carry the ids they are stored under. */
    ghost predicate Valid()
      reads cold, cache, store
    {
      cold.Valid() && cache.Valid() && forall id :: id in store.games ==> store.games[id].id == id
    }

    ghost function State(): ServiceState
      reads cold, cache, store
    {
      ServiceState(cold.State(), store.State(), cache.rooms.Keys)
    }

    constructor (cold: Postgres.GameRepo, cache: Hub.LocalStorage, store: Redis.GameRepository)
      requires cold.Valid() && cache.Valid() && forall id :: id in store.games ==> store.games[id].id == id
      ensures this.cold == cold && this.cache == cache && this.store == store && Valid()
    {
      this.cold, this.cache, this.store := cold, cache, store;
    }

    /** Makes a room for a new game with a generated word under a generated id. */
    method NewRoom(username: string, id: string, secret: string, now: int) returns (room: string)
      requires Valid()
      modifies cache
      ensures Valid() && Next(old(State()), Open(id), State())
      ensures room == id && id in cache.rooms && fresh(cache.rooms[id])
      ensures cache.rooms == old(cache.rooms)[id := cache.rooms[id]]
      ensures var r := cache.rooms[id];
        r.Valid() && r.State() == RoomModel.NewRoom(NewGame(id, username, NewWord(secret), now))
    {
      var g := new Game.New(id, username, NewWord(secret), now);
      var r := new Room(g);
      CacheRoom(id, r, now);
      return id;
    }

    /** The permanent store first, then the hot one. */
    method StartGame(g: Game, beginOk: bool, commitOk: bool, up: bool, setOk: bool) returns (ok: bool)
      requires Valid() && g.Valid()
      modifies cold, store
      ensures Valid() && g.Valid()
      ensures Next(old(State()), Start(old(g.State()), beginOk, commitOk, up, setOk), State())
      ensures ok <==> StartSucceeds(old(State()), old(g.State()), beginOk, commitOk, up, setOk)
    {
      var err := cold.StartGame(g, beginOk, commitOk);
      if err.Some? { return false; }
      var failed := store.CreateGame(g, up, setOk);
      return failed.None?;
    }

    /** The cache does not learn of the wipe. */
    method WipeGameData(id: string, txOk: bool, getOk: bool, delOk: bool) returns (ok: bool)
      requires Valid()
      modifies cold, store
      ensures Valid() && Next(old(State()), Wipe(id, txOk, getOk, delOk), State())
      ensures ok <==> txOk && !(getOk && id in old(store.games) && !delOk)
    {
      var err := cold.WipeGameData(id, txOk);
      if err.Some? { return false; }
      var failed := store.DeleteGame(id, getOk, delOk);
      return failed.None?;
    }

    /** Commits the results, then forgets the room and the running game. */
    method FinishGame(g: Game, beginOk: bool, endOk: bool, commitOk: bool, getOk: bool, delOk: bool, ghost at: int)
      returns (ok: bool)
      requires Valid() && g.Valid()
      modifies cold, cache, store
      ensures Valid() && g.Valid()
      ensures Next(old(State()), Finish(old(g.State()), beginOk, endOk, commitOk, getOk, delOk), State())
      ensures ok <==> Commits(old(cold.State()), old(g.State()), beginOk, endOk, commitOk)
                      && !(getOk && g.id in old(store.games) && !delOk)
    {
      var committed := StoreResults(g, beginOk, endOk, commitOk);
      if !committed { return false; }
      ok := Forget(g.id, getOk, delOk, at);
    }

    method StoreResults(g: Game, beginOk: bool, endOk: bool, commitOk: bool) returns (ok: bool)
      requires Valid() && g.Valid()
      modifies cold
      ensures Valid() && g.Valid() && g.State() == old(g.State())
      ensures ok == Commits(old(cold.State()), old(g.State()), beginOk, endOk, commitOk)
      ensures State() == old(State()).(cold := cold.State())
      ensures Finishes(old(cold.State()), old(g.State()), beginOk, endOk, commitOk, cold.State())
    {
      var err := cold.FinishGame(g, beginOk, endOk, commitOk);
      ok := err.None?;
    }

    method Forget(id: string, getOk: bool, delOk: bool, ghost at: int) returns (ok: bool)
      requires Valid()
      modifies cache, store
      ensures Valid()
      ensures var s := old(State()); State() == s.(cached := s.cached - {id}, store := Deleted(s.store, id, getOk, delOk))
      ensures ok <==> !(getOk && id in old(store.games) && !delOk)
    {
      cache.DeleteRoom(id, at);
      var failed := store.DeleteGame(id, getOk, delOk);
      ok := failed.None?;
    }

    method AddGuess(id: string, player: string, guess: Word, isBest: bool, up: bool, pushOk: bool, hashOk: bool)
      returns (ok: bool)
      requires Valid()
      modifies store
      ensures Valid() && Next(old(State()), Guess(id, player, guess, isBest, up, pushOk, hashOk), State())
      ensures ok <==> up && id in old(store.games) && pushOk && (isBest ==> hashOk)
    {
      var err := store.AddGuess(id, player, guess, isBest, up, pushOk, hashOk);
      return err.None?;
    }

    /** The cached room, or a new room for the game as the hot store rebuilds it. */
    method GetRoom(id: string, up: bool, getOk: bool, pipeOk: bool, ghost at: int) returns (r: Room?)
      requires Valid()
      modifies cache
      ensures Valid() && Next(old(State()), Find(id, up, getOk, pipeOk), State())
      ensures r != null <==> IsFound(old(State()), id, up, getOk, pipeOk)
      ensures r != null ==> r.g.id == id && id in cache.rooms && cache.rooms[id] == r
      ensures id in old(cache.rooms) ==> r == old(cache.rooms)[id] && cache.rooms == old(cache.rooms)
      ensures r != null && id !in old(cache.rooms) ==>
        fresh(r) && r.Valid() && cache.rooms == old(cache.rooms)[id := r]
        && Redis.Loads(store.State(), id, r.g.State()) && r.State() == RoomModel.NewRoom(r.g.State())
    {
      var cached := cache.GetRoom(id);
      if cached.Some? { return cached.value; }
      if !store.Exists(id, up) { return null; }
      r := LoadRoom(id, getOk, pipeOk);
      if r != null { CacheRoom(id, r, at); }
    }

    method LoadRoom(id: string, getOk: bool, pipeOk: bool) returns (r: Room?)
      requires Valid()
      ensures r != null <==> getOk && pipeOk && id in store.games
      ensures r != null ==> fresh(r) && r.Valid() && r.g.id == id
      ensures r != null ==> Redis.Loads(store.State(), id, r.g.State())
      ensures r != null ==> r.State() == RoomModel.NewRoom(r.g.State())
    {
      var g, err := store.LoadGame(id, getOk, pipeOk);
      if err.Some? { return null; }
      r := new Room(g);
    }

    method CacheRoom(id: string, r: Room, ghost at: int)
      requires Valid() && r.g.id == id && r.Valid()
      modifies cache
      ensures Valid() && State() == old(State()).(cached := old(State()).cached + {id})
      ensures cache.rooms == old(cache.rooms)[id := r]
      ensures r.Valid() && r.State() == old(r.State()) && r.g.State() == old(r.g.State())
    {
      cache.SetRoom(r.g.id, r, at);
    }
  }
}
