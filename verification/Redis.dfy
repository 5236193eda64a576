/** The hot store of running games: repository/redis/game.go. */
module Redis {
  import opened Collections
  import opened Words
  import opened GameModel
  import opened Games

  datatype Error = GameExists | NoGame | Missing | Unreachable

  /** Game metadata as marshalled: no sessions, no board, no counter, but the list of players. */
  datatype StoredGame = StoredGame(
    createdAt: int, startedAt: Option<int>, endedAt: Option<int>, creator: string, correctWord: Word, id: string,
    players: seq<string>)

  function Stored(g: GameState, players: seq<string>): StoredGame {
    StoredGame(g.createdAt, g.startedAt, g.endedAt, g.creator, g.secret, g.id, players)
  }

  datatype Store = Store(
    games: map<string, StoredGame>,
    guesses: map<(string, string), seq<Word>>,
    boards: map<string, map<string, Word>>)
  {
    function Guesses(id: string, player: string): seq<Word> {
      if (id, player) in guesses then guesses[(id, player)] else []
    }

    function Board(id: string): map<string, Word> {
      if id in boards then boards[id] else map[]
    }

    function Push(id: string, player: string, guess: Word): Store {
      this.(guesses := guesses[(id, player) := Guesses(id, player) + [guess]])
    }

    function SetBest(id: string, player: string, guess: Word): Store {
      this.(boards := boards[id := Board(id)[player := guess]])
    }

    /** An accepted guess appended to the log, and entered in the hash when it is the player's best; each of the two
        writes may fail. */
    function AddGuess(id: string, player: string, guess: Word, isBest: bool, pushOk: bool, hashOk: bool): Store {
      var pushed := if pushOk then Push(id, player, guess) else this;
      if isBest && hashOk then pushed.SetBest(id, player, guess) else pushed
    }

    function Delete(id: string): Store
      requires id in games
    {
      Store(games - {id}, guesses - (set p | p in games[id].players :: (id, p)), boards - {id})
    }
  }

  /** A player's session as rebuilt from the log: only the name survives of the player. */
  function FromLog(s: Store, id: string, player: string): SessionState {
    SessionState(Player(0, player), s.Guesses(id, player), None, 0).Resync()
  }

  /** What loading a game may yield: the order of the board is fixed only where the sort fixes it. */
  predicate Loads(s: Store, id: string, g: GameState) {
    && id in s.games
    && var m := s.games[id];
    && Stored(g, m.players) == m
    && g.sessions == (map p | p in m.players :: FromLog(s, id, p))
    && g.finished == |g.Winners()|
    && OnSortedBoard(g)
  }

  class GameRepository {
    var games: map<string, StoredGame>
    var guesses: map<(string, string), seq<Word>>
    var boards: map<string, map<string, Word>>

    function State(): Store
      reads this
    {
      Store(games, guesses, boards)
    }

    constructor ()
      ensures State() == Store(map[], map[], map[])
    {
      games, guesses, boards := map[], map[], map[];
    }

    /** An unreachable store counts as not holding the game. */
    predicate Exists(id: string, up: bool)
      reads this
    {
      up && id in games
    }

    method CreateGame(g: Game, up: bool, setOk: bool) returns (err: Option<Error>)
      requires g.Valid()
      modifies this
      ensures err == if up && g.id in old(games) then Some(GameExists) else if !setOk then Some(Unreachable) else None
      ensures err.Some? ==> State() == old(State())
      ensures err.None? ==> exists players ::
        IsOrdering(players, g.sessions.Keys)
        && State() == old(State()).(games := old(games)[g.id := Stored(g.State(), players)])
    {
      if Exists(g.id, up) { return Some(GameExists); }
      var players := g.Players();
      if !setOk { return Some(Unreachable); }
      games := games[g.id := StoredGame(g.createdAt, g.startedAt, g.endedAt, g.creator, g.correctWord, g.id, players)];
      assert games[g.id] == Stored(g.State(), players);
      return None;
    }

    /** The pipeline's two writes may fail one by one. */
    method AddGuess(id: string, player: string, guess: Word, isBest: bool, up: bool, pushOk: bool, hashOk: bool)
      returns (err: Option<Error>)
      modifies this
      ensures !(up && id in old(games)) ==> err == Some(NoGame) && State() == old(State())
      ensures up && id in old(games) ==>
        && (err.None? <==> pushOk && (isBest ==> hashOk))
        && State() == old(State()).AddGuess(id, player, guess, isBest, pushOk, hashOk)
    {
      if !Exists(id, up) { return Some(NoGame); }
      err := None;
      if pushOk {
        guesses := guesses[(id, player) := (if (id, player) in guesses then guesses[(id, player)] else []) + [guess]];
      } else {
        err := Some(Unreachable);
      }
      if isBest {
        if hashOk {
          boards := boards[id := (if id in boards then boards[id] else map[])[player := guess]];
        } else {
          err := Some(Unreachable);
        }
      }
    }

    method GetBestGuess(id: string, player: string, up: bool) returns (w: Option<Word>, err: Option<Error>)
      ensures up && id in games && player in State().Board(id) ==> err.None? && w == Some(State().Board(id)[player])
      ensures !(up && id in games && player in State().Board(id)) ==>
        w.None? && err == Some(if Exists(id, up) then Missing else NoGame)
    {
      if !Exists(id, up) { return None, Some(NoGame); }
      if id in boards && player in boards[id] { return Some(boards[id][player]), None; }
      return None, Some(Missing);
    }

    /** A game that cannot be read counts as gone, so nothing is deleted and no error reported. */
    method DeleteGame(id: string, getOk: bool, delOk: bool) returns (err: Option<Error>)
      modifies this
      ensures !(getOk && id in old(games)) ==> err.None? && State() == old(State())
      ensures getOk && id in old(games) && !delOk ==> err.Some? && State() == old(State())
      ensures getOk && id in old(games) && delOk ==> err.None? && State() == old(State()).Delete(id)
    {
      if !(getOk && id in games) { return None; }
      if !delOk { return Some(Unreachable); }
      var keys: set<(string, string)> := {};
      var players := games[id].players;
      for i := 0 to |players|
        invariant keys == set p | p in players[..i] :: (id, p)
      {
        assert players[..i + 1] == players[..i] + [players[i]];
        keys := keys + {(id, players[i])};
      }
      assert players[..|players|] == players;
      games, guesses, boards := games - {id}, guesses - keys, boards - {id};
      return None;
    }

    /** Fresh sessions holding the logged guesses, filed by name. */
    method GetSessions(id: string, players: seq<string>) returns (sess: map<string, Session>)
      ensures sess.Keys == Elements(players)
      ensures forall u :: u in sess ==> fresh(sess[u]) && sess[u].player.username == u
      ensures forall u :: u in sess ==> sess[u].State() == SessionState(Player(0, u), State().Guesses(id, u), None, 0)
    {
      sess := map[];
      for i := 0 to |players|
        invariant sess.Keys == Elements(players[..i])
        invariant forall u :: u in sess ==> fresh(sess[u]) && sess[u].player.username == u
        invariant forall u :: u in sess ==> sess[u].State() == SessionState(Player(0, u), State().Guesses(id, u), None, 0)
      {
        assert Elements(players[..i + 1]) == Elements(players[..i]) + {players[i]};
        var s := ReadSession(id, players[i]);
        sess := sess[players[i] := s];
      }
      assert players[..|players|] == players;
    }

    method ReadSession(id: string, player: string) returns (s: Session)
      ensures fresh(s) && s.State() == SessionState(Player(0, player), State().Guesses(id, player), None, 0)
    {
      s := new Session(Player(0, player));
      var val := if (id, player) in guesses then guesses[(id, player)] else [];
      for i := 0 to |val|
        invariant s.State() == SessionState(Player(0, player), val[..i], None, 0)
      {
        s.guesses := s.guesses + [val[i]];
      }
      assert val[..|val|] == val;
    }

    method LoadGame(id: string, getOk: bool, pipeOk: bool) returns (g: Game?, err: Option<Error>)
      ensures g != null <==> getOk && pipeOk && id in games
      ensures g == null <==> err.Some?
      ensures g != null ==> fresh(g) && fresh(g.leaderboard) && fresh(g.leaderboard.ranks)
      ensures g != null ==> forall u :: u in g.sessions ==> fresh(g.sessions[u])
      ensures g != null ==> g.Valid() && Loads(State(), id, g.State())
    {
      if !(getOk && id in games) { return null, Some(Missing); }
      var m := games[id];
      if !pipeOk { return null, Some(Unreachable); }
      var sess := GetSessions(id, m.players);
      var ldb := NewRankBoard(sess);
      g := new Game.Restore(sess, ldb, m.createdAt, m.startedAt, m.endedAt, m.creator, m.correctWord, m.id);
      assert g.Valid();
      ghost var before := g.State();
      g.Resync();
      LoadedFrom(State(), id, before, g.State());
      err := None;
    }
  }

  lemma LoadedFrom(s: Store, id: string, before: GameState, g: GameState)
    requires id in s.games && before.BoardHasSessions() && Resyncs(before, g)
    requires Stored(before, s.games[id].players) == s.games[id] && before.finished == 0 && Covers(before)
    requires before.sessions.Keys == Elements(s.games[id].players)
    requires forall u :: u in before.sessions ==>
      before.sessions[u] == SessionState(Player(0, u), s.Guesses(id, u), None, 0)
    ensures Loads(s, id, g)
  {
    var players := s.games[id].players;
    assert forall p :: p in players <==> p in Elements(players);
    assert g.sessions.Keys == before.sessions.Keys;
  }

  // ---------- keys ----------

  datatype Key = GameKey(id: string) | GuessesKey(id: string, player: string) | BoardKey(id: string)

  /** The key strings of the store. */
  function KeyString(k: Key): string {
    match k
    case GameKey(id) => "game:" + id
    case GuessesKey(id, player) => "game:" + id + ":" + "session:" + player
    case BoardKey(id) => "game:" + id + ":" + "leaderboard"
  }

  /** Different entries never share a key string, whatever the players are called: ids all have one length. */
  lemma KeysAreDistinct(a: Key, b: Key)
    requires |a.id| == |b.id| && KeyString(a) == KeyString(b)
    ensures a == b
  {
    var s, n := KeyString(a), |a.id|;
    assert !a.GameKey? && !b.GameKey? ==> s[5 + n + 1] == KeyString(b)[5 + n + 1];
    assert a.id == s[5..5 + n] == KeyString(b)[5..5 + n] == b.id;
    if a.GuessesKey? && b.GuessesKey? {
      assert a.player == s[5 + n + 9..] == KeyString(b)[5 + n + 9..] == b.player;
    }
  }
}
