/** The permanent store of results: repository/postgres/game.go. */
module Postgres {
  import opened Collections
  import opened Words
  import opened GameModel
  import opened Games
  import opened Results

  datatype Error = NotFinished | NoRows | Conflict | Malformed | Panic | Unreachable

  /** The played_words column: SQL NULL, the JSON null that a session without guesses marshals to, or an array. */
  datatype Json = SqlNull | JsonNull | Array(words: seq<Word>)

  datatype GameRow = GameRow(
    creator: int, correctWord: string, createdAt: int, startedAt: Option<int>, endedAt: Option<int>)

  datatype PlayerRow = PlayerRow(
    playedWords: Json, bestGuess: Option<string>, bestGuessTime: Option<int>, finished: Option<int>, rank: Option<int>)

  const EMPTY_ROW := PlayerRow(SqlNull, None, None, None, None)

  datatype Tables = Tables(users: map<int, string>, games: map<string, GameRow>, rows: map<(string, int), PlayerRow>) {

    /** Unique usernames, and rows that refer to players. */
    predicate Consistent() {
      && (forall a, b :: a in users && b in users && users[a] == users[b] ==> a == b)
      && (forall k :: k in rows ==> k.1 in users)
    }

    predicate HasUser(name: string) { exists id :: id in users && users[id] == name }

    function PlayersOf(id: string): set<int> { set k | k in rows && k.0 == id :: k.1 }

    function NamesOf(id: string): set<string>
      requires Consistent()
    {
      set k | k in rows && k.0 == id :: users[k.1]
    }
  }

  /** The columns FinishGame writes for a player. */
  function ResultRow(g: GameState, u: string): PlayerRow
    requires u in g.sessions
  {
    var s := g.sessions[u];
    var best := s.BestGuess();
    PlayerRow(if s.guesses == [] then JsonNull else Array(s.guesses),
              if best.word == "" then None else Some(best.word),
              if best.playedAt.time == 0 then None else Some(best.playedAt.time),
              if s.Won() then Some(best.playedAt.time) else None,
              Some(if u in g.ranks then IndexOf(g.ranks, u) else 0))
  }

  /** Every row whose player id some session carries holds such a session's results; no other row changes. */
  predicate StoresResults(before: map<(string, int), PlayerRow>, g: GameState, after: map<(string, int), PlayerRow>) {
    && after.Keys == before.Keys
    && forall k :: k in before ==>
         if k.0 == g.id && Carries(g, k.1) then HoldsResult(g, k.1, after[k]) else after[k] == before[k]
  }

  predicate Carries(g: GameState, id: int) {
    exists u :: u in g.sessions && g.sessions[u].player.id == id
  }

  predicate HoldsResult(g: GameState, id: int, row: PlayerRow) {
    exists u :: u in g.sessions && g.sessions[u].player.id == id && row == ResultRow(g, u)
  }

  /** What FinishGame changes when it commits: the end time of the game and the results of its players. */
  predicate Finished(before: Tables, g: GameState, after: Tables) {
    && g.id in before.games && after.users == before.users
    && after.games == before.games[g.id := before.games[g.id].(endedAt := g.endedAt)]
    && StoresResults(before.rows, g, after.rows)
  }

  /** What the players query says about a player. */
  function LineOf(t: Tables, gid: string, id: int): Line
    requires (gid, id) in t.rows && id in t.users && t.rows[(gid, id)].playedWords.Array?
  {
    var row := t.rows[(gid, id)];
    Line(id, t.users[id], row.bestGuess, row.bestGuessTime, row.rank, |row.playedWords.words|)
  }

  /** The session of a player as rebuilt from its row: all guesses for the player who asks, the best one for others. */
  function FetchedSession(t: Tables, gid: string, id: int, asking: int): SessionState
    requires (gid, id) in t.rows && id in t.users && gid in t.games && t.rows[(gid, id)].playedWords.Array?
  {
    LineOf(t, gid, id).Session(NewWord(t.games[gid].correctWord), asking, t.rows[(gid, id)].playedWords.words)
  }

  /** What the queries and the board need of a stored game: results in every row, ranks that number them. */
  predicate Fetchable(t: Tables, gid: string, asking: int) {
    && gid in t.games && (gid, asking) in t.rows
    && (forall id :: id in t.PlayersOf(gid) ==> t.rows[(gid, id)].playedWords.Array?)
    && (forall id :: id in t.PlayersOf(gid) ==> 0 <= RankOf(t, gid, id) < |t.PlayersOf(gid)|)
    && (forall a, b :: a in t.PlayersOf(gid) && b in t.PlayersOf(gid) && a != b ==> RankOf(t, gid, a) != RankOf(t, gid, b))
  }

  function RankOf(t: Tables, gid: string, id: int): int
    requires (gid, id) in t.rows
  {
    if t.rows[(gid, id)].rank.None? then 0 else t.rows[(gid, id)].rank.value
  }

  /** The columns of the game row; EndedAt is filled from the creation time. */
  predicate HasMetadata(t: Tables, gid: string, g: GameState) {
    gid in t.games
    && var row := t.games[gid];
    && row.creator in t.users
    && (g.id, g.secret, g.createdAt, g.startedAt, g.endedAt, g.creator)
       == (gid, NewWord(row.correctWord), row.createdAt, row.startedAt, Some(row.createdAt), t.users[row.creator])
  }

  predicate HoldsSessions(t: Tables, gid: string, asking: int, sessions: map<string, SessionState>)
    requires t.Consistent() && gid in t.games
    requires forall id :: id in t.PlayersOf(gid) ==> t.rows[(gid, id)].playedWords.Array?
  {
    && sessions.Keys == t.NamesOf(gid)
    && forall id :: id in t.PlayersOf(gid) ==> sessions[t.users[id]] == FetchedSession(t, gid, id, asking)
  }

  /** What fetching a stored game yields. */
  predicate Fetches(t: Tables, gid: string, asking: int, g: GameState) {
    && t.Consistent() && Fetchable(t, gid, asking) && HasMetadata(t, gid, g)
    && HoldsSessions(t, gid, asking, g.sessions)
    && g.finished == |g.Winners()|
    && OnSortedBoard(g)
  }

  class GameRepo {
    var users: map<int, string>
    var games: map<string, GameRow>
    var rows: map<(string, int), PlayerRow>

    function State(): Tables
      reads this
    {
      Tables(users, games, rows)
    }

    predicate Valid()
      reads this
    {
      State().Consistent() && forall id :: id in games ==> games[id].creator in users
    }

    constructor (users: map<int, string>)
      requires forall a, b :: a in users && b in users && users[a] == users[b] ==> a == b
      ensures Valid() && State() == Tables(users, map[], map[])
    {
      this.users, games, rows := users, map[], map[];
    }

    /** Records the game and its players, all or nothing: the creator and the players must exist, the game must not. */
    method StartGame(g: Game, beginOk: bool, commitOk: bool) returns (err: Option<Error>)
      requires Valid() && g.Valid()
      modifies this
      ensures Valid() && users == old(users)
      ensures err.Some? ==> State() == old(State())
      ensures err.None? ==> Starts(old(State()), old(g.State()), State())
      ensures err.None? <==> beginOk && commitOk && Startable(old(State()), old(g.State()))
    {
      if !beginOk { return Some(Unreachable); }
      if !State().HasUser(g.creator) { return Some(NoRows); }
      var creator :| creator in users && users[creator] == g.creator;
      if g.id in games { return Some(Conflict); }
      var args := PlayerIds(g);
      CopyAllowedIff(State(), g.State(), args);
      if !CopyAllowed(State(), g.id, args) { return Some(Conflict); }
      if !commitOk { return Some(Unreachable); }
      InsertRows(g, args, creator);
      return None;
    }

    method InsertRows(g: Game, args: seq<int>, creator: int)
      requires Valid() && g.Valid() && DistinctIds(g.State()) && forall id :: id in args <==> Carries(g.State(), id)
      requires CopyAllowed(State(), g.id, args)
      requires creator in users && users[creator] == g.creator && g.id !in games
      modifies this
      ensures Valid() && users == old(users)
      ensures Starts(old(State()), old(g.State()), State())
    {
      StartsFrom(State(), g.State(), args, creator);
      games := games[g.id := GameRow(creator, g.correctWord.word, g.createdAt, g.startedAt, None)];
      rows := rows + EmptyRows(g.id, args);
    }

    method PlayerIds(g: Game) returns (args: seq<int>)
      requires g.Valid()
      ensures NoDuplicates(args) <==> DistinctIds(g.State())
      ensures forall id :: id in args <==> Carries(g.State(), id)
    {
      var players := g.Players();
      args := [];
      for i := 0 to |players|
        invariant |args| == i
        invariant forall k :: 0 <= k < i ==> players[k] in Elements(players) && args[k] == g.sessions[players[k]].player.id
      {
        assert players[i] in Elements(players);
        args := args + [g.sessions[players[i]].player.id];
      }
      IdsOf(g.State(), players, args);
    }

    method WipeGameData(id: string, txOk: bool) returns (err: Option<Error>)
      requires Valid()
      modifies this
      ensures Valid()
      ensures err.None? <==> txOk
      ensures State() == if txOk then Wiped(old(State()), id) else old(State())
    {
      if !txOk { return Some(Unreachable); }
      rows := map k | k in rows && k.0 != id :: rows[k];
      games := games - {id};
      return None;
    }

    /** The end time is written outside the transaction, the results inside it; a row that matches no id is skipped
        silently. */
    method FinishGame(g: Game, beginOk: bool, endOk: bool, commitOk: bool) returns (err: Option<Error>)
      requires Valid() && g.Valid()
      modifies this
      ensures Valid() && users == old(users)
      ensures err.None? <==> g.HasEnded() && beginOk && g.id in old(games) && endOk && commitOk
      ensures err.None? ==> StoresResults(old(rows), old(g.State()), rows)
      ensures err.Some? ==> rows == old(rows)
      ensures games == if g.HasEnded() && beginOk && g.id in old(games) && endOk
                       then old(games)[g.id := old(games)[g.id].(endedAt := g.endedAt)] else old(games)
    {
      if !g.HasEnded() { return Some(NotFinished); }
      if !beginOk { return Some(Unreachable); }
      if g.id !in games { return Some(NoRows); }
      if !endOk { return Some(Unreachable); }
      ghost var s := g.State();
      games := games[g.id := games[g.id].(endedAt := g.endedAt)];
      var updated := UpdateRows(g, s);
      if !commitOk { return Some(Unreachable); }
      rows := updated;
      return None;
    }

    /** The rows with the results of every session written, whatever the order of the sessions. */
    method UpdateRows(g: Game, ghost s: GameState) returns (updated: map<(string, int), PlayerRow>)
      requires g.Valid() && s == g.State()
      ensures StoresResults(rows, s, updated)
    {
      updated := rows;
      var rest := g.sessions.Keys;
      while rest != {}
        invariant rest <= g.sessions.Keys
        invariant PartlyStored(rows, s, g.sessions.Keys - rest, updated)
        decreases rest
      {
        var u :| u in rest;
        var row := ReadResult(g, u);
        var k := (g.id, g.sessions[u].player.id);
        WriteKeeps(rows, s, g.sessions.Keys - rest, updated, u);
        if k in updated {
          updated := updated[k := row];
        }
        rest := rest - {u};
        assert g.sessions.Keys - rest == g.sessions.Keys - (rest + {u}) + {u};
      }
      AllStored(rows, s, updated);
    }

    /** Fails, as its scan does, when some player's words are not an array. */
    method GamePlayers(gid: string) returns (lines: seq<Line>, ok: bool)
      requires Valid()
      ensures ok <==> forall id :: id in State().PlayersOf(gid) ==> rows[(gid, id)].playedWords.Array?
      ensures ok ==> IsPlayersResult(State(), gid, lines)
    {
      lines := [];
      var all := set k | k in rows && k.0 == gid;
      var rest := all;
      while rest != {}
        invariant rest <= all
        invariant NoDuplicates(Ids(lines)) && (forall id :: id in Ids(lines) <==> (gid, id) in all - rest)
        invariant forall i :: 0 <= i < |lines| ==> IsLineOf(State(), gid, lines[i])
        decreases rest
      {
        var k :| k in rest;
        if !rows[k].playedWords.Array? {
          var id := k.1;
          assert k == (gid, id) && id in State().PlayersOf(gid) && !rows[(gid, id)].playedWords.Array?;
          return [], false;
        }
        var line := LineOf(State(), gid, k.1);
        assert Ids(lines + [line]) == Ids(lines) + [k.1];
        lines := lines + [line];
        rest := rest - {k};
      }
      ok := true;
      AllLinesListed(State(), gid, lines);
    }

    method FetchGame(playerID: int, gameID: string, up: bool) returns (g: Game?, err: Option<Error>)
      requires Valid()
      ensures g != null <==> up && Fetchable(State(), gameID, playerID)
      ensures g == null <==> err.Some?
      ensures g != null ==> fresh(g) && g.Valid() && Fetches(State(), gameID, playerID, g.State())
    {
      if !up { return null, Some(Unreachable); }
      if gameID !in games { return null, Some(NoRows); }
      var lines, ok := GamePlayers(gameID);
      if !ok { return null, Some(Malformed); }
      if (gameID, playerID) !in rows { return null, Some(NoRows); }
      LinesAreDistinct(State(), gameID, lines);
      FetchableIff(State(), gameID, playerID, lines);
      assert playerID in State().PlayersOf(gameID);
      var words := rows[(gameID, playerID)].playedWords.words;
      var panic;
      g, panic := Rebuild(gameID, lines, playerID, words);
      if panic { return null, Some(Panic); }
      FetchedFrom(State(), gameID, playerID, lines, g.State());
      err := None;
    }

    method Rebuild(gameID: string, lines: seq<Line>, playerID: int, words: seq<Word>) returns (g: Game, panic: bool)
      requires Valid() && gameID in games && NoDuplicates(Usernames(lines))
      ensures fresh(g)
      ensures !panic <==> Placeable(lines)
      ensures !panic ==> g.Valid() && IsRebuilt(lines, playerID, words, g.State())
      ensures !panic ==> HasMetadata(State(), gameID, g.State())
    {
      var row := games[gameID];
      var none := new Session[0];
      var board := new RankBoard(none, map[]);
      g := new Game.Restore(map[], board, row.createdAt, row.startedAt, Some(row.createdAt),
                            users[row.creator], NewWord(row.correctWord), gameID);
      panic := SetSessions(g, lines, playerID, words);
    }

    method ReadResult(g: Game, u: string) returns (row: PlayerRow)
      requires g.Valid() && u in g.sessions
      ensures row == ResultRow(g.State(), u)
    {
      var s := g.sessions[u];
      PositionIsIndex(g.leaderboard.positions, Names(g.leaderboard.ranks[..]), u);
      assert g.State().sessions[u] == s.State();
      var best := s.BestGuess();
      row := PlayerRow(if s.guesses == [] then JsonNull else Array(s.guesses),
                       if best.word == "" then None else Some(best.word),
                       if best.playedAt.time == 0 then None else Some(best.playedAt.time),
                       if s.Won() then Some(best.playedAt.time) else None,
                       Some(if u in g.leaderboard.positions then g.leaderboard.positions[u] else 0));
    }
  }

  predicate IdsAlong(g: GameState, names: seq<string>, args: seq<int>) {
    && IsOrdering(names, g.sessions.Keys) && |args| == |names|
    && forall i :: 0 <= i < |args| ==> names[i] in g.sessions && args[i] == g.sessions[names[i]].player.id
  }

  lemma IdsOf(g: GameState, names: seq<string>, args: seq<int>)
    requires IdsAlong(g, names, args)
    ensures NoDuplicates(args) <==> DistinctIds(g)
    ensures forall id :: id in args <==> Carries(g, id)
  {
    forall u | u in g.sessions ensures g.sessions[u].player.id in args {
      var i := Place(g, names, u);
      assert args[i] == g.sessions[u].player.id;
    }
    if NoDuplicates(args) { IdsAreDistinct(g, names, args); }
  }

  lemma IdsAreDistinct(g: GameState, names: seq<string>, args: seq<int>)
    requires IdsAlong(g, names, args) && NoDuplicates(args)
    ensures DistinctIds(g)
  {
    forall u, v | u in g.sessions && v in g.sessions && u != v ensures g.sessions[u].player.id != g.sessions[v].player.id {
      var i := Place(g, names, u);
      var j := Place(g, names, v);
      assert args[i] != args[j];
    }
  }

  lemma Place(g: GameState, names: seq<string>, u: string) returns (i: nat)
    requires IsOrdering(names, g.sessions.Keys) && u in g.sessions
    ensures i < |names| && names[i] == u
  {
    assert u in Elements(names);
    i :| 0 <= i < |names| && names[i] == u;
  }

  predicate CopyAllowed(t: Tables, gid: string, args: seq<int>) {
    NoDuplicates(args) && forall id :: id in args ==> id in t.users && (gid, id) !in t.rows
  }

  function Inserted(t: Tables, g: GameState, args: seq<int>, creator: int): Tables {
    Tables(t.users, t.games[g.id := GameRow(creator, g.secret.word, g.createdAt, g.startedAt, None)],
           t.rows + EmptyRows(g.id, args))
  }

  function EmptyRows(gid: string, args: seq<int>): map<(string, int), PlayerRow> {
    map id | id in args :: (gid, id) := EMPTY_ROW
  }

  /** The results of the sessions in `done` have been written, and nothing else. */
  predicate PartlyStored(before: map<(string, int), PlayerRow>, g: GameState, done: set<string>,
                         after: map<(string, int), PlayerRow>)
  {
    && after.Keys == before.Keys && done <= g.sessions.Keys
    && (forall k :: k in before ==> after[k] == before[k] || (k.0 == g.id && HoldsResult(g, k.1, after[k])))
    && (forall u :: u in done && (g.id, g.sessions[u].player.id) in before ==>
          HoldsResult(g, g.sessions[u].player.id, after[(g.id, g.sessions[u].player.id)]))
  }

  lemma WriteKeeps(before: map<(string, int), PlayerRow>, g: GameState, done: set<string>,
                   after: map<(string, int), PlayerRow>, u: string)
    requires PartlyStored(before, g, done, after) && u in g.sessions
    ensures var k := (g.id, g.sessions[u].player.id);
      PartlyStored(before, g, done + {u}, if k in after then after[k := ResultRow(g, u)] else after)
  {
    assert HoldsResult(g, g.sessions[u].player.id, ResultRow(g, u));
  }

  lemma AllStored(before: map<(string, int), PlayerRow>, g: GameState, after: map<(string, int), PlayerRow>)
    requires PartlyStored(before, g, g.sessions.Keys, after)
    ensures StoresResults(before, g, after)
  {
    forall k | k in before && k.0 == g.id && Carries(g, k.1) ensures HoldsResult(g, k.1, after[k]) {
      var u :| u in g.sessions && g.sessions[u].player.id == k.1;
      assert (g.id, g.sessions[u].player.id) in before;
    }
  }

  // ---------- fetching ----------

  /** The lines of the players query, in some order. */
  predicate IsPlayersResult(t: Tables, gid: string, lines: seq<Line>) {
    && t.Consistent()
    && NoDuplicates(Ids(lines))
    && (forall id :: id in t.PlayersOf(gid) ==> id in Ids(lines))
    && (forall i :: 0 <= i < |lines| ==> IsLineOf(t, gid, lines[i]))
  }

  predicate IsLineOf(t: Tables, gid: string, line: Line)
    requires t.Consistent()
  {
    line.id in t.PlayersOf(gid) && t.rows[(gid, line.id)].playedWords.Array? && line == LineOf(t, gid, line.id)
  }

  function Ids(lines: seq<Line>): (ids: seq<int>)
    ensures |ids| == |lines|
  {
    seq(|lines|, i requires 0 <= i < |lines| => lines[i].id)
  }

  lemma AllLinesListed(t: Tables, gid: string, lines: seq<Line>)
    requires t.Consistent() && NoDuplicates(Ids(lines))
    requires forall id :: id in t.PlayersOf(gid) ==> id in Ids(lines)
    requires forall i :: 0 <= i < |lines| ==> IsLineOf(t, gid, lines[i])
    ensures IsPlayersResult(t, gid, lines)
    ensures forall id :: id in t.PlayersOf(gid) ==> t.rows[(gid, id)].playedWords.Array?
  {
    forall id | id in t.PlayersOf(gid) ensures t.rows[(gid, id)].playedWords.Array? {
      var i := LineWithId(t, gid, lines, id);
      assert IsLineOf(t, gid, lines[i]);
    }
  }

  lemma LineWithId(t: Tables, gid: string, lines: seq<Line>, id: int) returns (i: nat)
    requires id in t.PlayersOf(gid) && forall id :: id in t.PlayersOf(gid) ==> id in Ids(lines)
    ensures i < |lines| && lines[i].id == id
  {
    i :| 0 <= i < |lines| && Ids(lines)[i] == id;
  }

  lemma LinesAreDistinct(t: Tables, gid: string, lines: seq<Line>)
    requires IsPlayersResult(t, gid, lines)
    ensures NoDuplicates(Usernames(lines))
    ensures forall u :: u in Usernames(lines) <==> u in t.NamesOf(gid)
    ensures |t.PlayersOf(gid)| == |lines|
  {
    forall i, j | 0 <= i < j < |lines| ensures Usernames(lines)[i] != Usernames(lines)[j] {
      assert Ids(lines)[i] != Ids(lines)[j];
      assert IsLineOf(t, gid, lines[i]) && IsLineOf(t, gid, lines[j]);
    }
    forall id | id in t.PlayersOf(gid) ensures t.users[id] in Usernames(lines) {
      var i := LineWithId(t, gid, lines, id);
      assert IsLineOf(t, gid, lines[i]) && Usernames(lines)[i] == t.users[id];
    }
    forall id | id in Ids(lines) ensures id in t.PlayersOf(gid) {
      var i :| 0 <= i < |lines| && Ids(lines)[i] == id;
      assert IsLineOf(t, gid, lines[i]);
    }
    forall id ensures id in Elements(Ids(lines)) <==> id in t.PlayersOf(gid) {
      assert id in Elements(Ids(lines)) <==> id in Ids(lines);
    }
    assert Elements(Ids(lines)) == t.PlayersOf(gid);
    ElementsSize(Ids(lines));
  }

  /** The stored ranks can be placed on a board exactly when the game is fetchable. */
  lemma FetchableIff(t: Tables, gid: string, asking: int, lines: seq<Line>)
    requires IsPlayersResult(t, gid, lines) && gid in t.games && (gid, asking) in t.rows
    requires forall id :: id in t.PlayersOf(gid) ==> t.rows[(gid, id)].playedWords.Array?
    requires |t.PlayersOf(gid)| == |lines|
    ensures Fetchable(t, gid, asking) <==> Placeable(lines)
  {
    var rs := RankNumbers(lines);
    forall i | 0 <= i < |lines| ensures rs[i] == RankOf(t, gid, lines[i].id) { assert IsLineOf(t, gid, lines[i]); }
    if Fetchable(t, gid, asking) {
      forall i, j | 0 <= i < j < |lines| ensures rs[i] != rs[j] {
        assert Ids(lines)[i] != Ids(lines)[j];
      }
    }
    if Placeable(lines) {
      forall id | id in t.PlayersOf(gid) ensures 0 <= RankOf(t, gid, id) < |lines| {
        var i := LineWithId(t, gid, lines, id);
        assert 0 <= rs[i] < |lines|;
      }
      forall a, b | a in t.PlayersOf(gid) && b in t.PlayersOf(gid) && a != b
        ensures RankOf(t, gid, a) != RankOf(t, gid, b)
      {
        var i := LineWithId(t, gid, lines, a);
        var j := LineWithId(t, gid, lines, b);
        assert rs[i] != rs[j];
      }
    }
  }

  lemma FetchedFrom(t: Tables, gid: string, asking: int, lines: seq<Line>, g: GameState)
    requires IsPlayersResult(t, gid, lines) && Fetchable(t, gid, asking) && HasMetadata(t, gid, g)
    requires NoDuplicates(Usernames(lines)) && forall u :: u in Usernames(lines) <==> u in t.NamesOf(gid)
    requires asking in t.PlayersOf(gid) && IsRebuilt(lines, asking, t.rows[(gid, asking)].playedWords.words, g)
    ensures Fetches(t, gid, asking, g)
  {
    var words := t.rows[(gid, asking)].playedWords.words;
    RebuiltKeys(lines, |lines|, g.secret, asking, words);
    assert Usernames(lines)[..|lines|] == Usernames(lines);
    assert g.sessions.Keys == t.NamesOf(gid);
    forall id | id in t.PlayersOf(gid) ensures g.sessions[t.users[id]] == FetchedSession(t, gid, id, asking) {
      var i := LineWithId(t, gid, lines, id);
      assert IsLineOf(t, gid, lines[i]);
      RebuiltHolds(lines, |lines|, i, g.secret, asking, words);
    }
  }

  lemma CopyAllowedIff(t: Tables, g: GameState, args: seq<int>)
    requires NoDuplicates(args) <==> DistinctIds(g)
    requires forall id :: id in args <==> Carries(g, id)
    ensures CopyAllowed(t, g.id, args) <==>
      DistinctIds(g)
      && forall u :: u in g.sessions ==> g.sessions[u].player.id in t.users && (g.id, g.sessions[u].player.id) !in t.rows
  {
    forall u | u in g.sessions ensures g.sessions[u].player.id in args {
      assert Carries(g, g.sessions[u].player.id);
    }
  }

  lemma StartsFrom(t: Tables, g: GameState, args: seq<int>, creator: int)
    requires DistinctIds(g) && forall id :: id in args <==> Carries(g, id)
    requires t.Consistent() && CopyAllowed(t, g.id, args)
    requires creator in t.users && t.users[creator] == g.creator && g.id !in t.games
    ensures Starts(t, g, Inserted(t, g, args, creator)) && Inserted(t, g, args, creator).Consistent()
  {
  }

  /** The game row and an empty row for every player are new; nothing else changes. */
  ghost predicate Starts(before: Tables, g: GameState, after: Tables) {
    && after.users == before.users
    && g.id !in before.games && g.id in after.games
    && (var creator := after.games[g.id].creator;
        && creator in before.users && before.users[creator] == g.creator
        && after.games == before.games[g.id := GameRow(creator, g.secret.word, g.createdAt, g.startedAt, None)])
    && (forall k :: k in after.rows <==> k in before.rows || (k.0 == g.id && Carries(g, k.1)))
    && (forall k :: k in before.rows ==> after.rows[k] == before.rows[k])
    && (forall k :: k in after.rows && k !in before.rows ==> after.rows[k] == EMPTY_ROW)
    && DistinctIds(g)
  }

  predicate Startable(t: Tables, g: GameState) {
    && g.id !in t.games
    && t.HasUser(g.creator)
    && DistinctIds(g)
    && (forall u :: u in g.sessions ==> g.sessions[u].player.id in t.users && (g.id, g.sessions[u].player.id) !in t.rows)
  }

  predicate DistinctIds(g: GameState) {
    forall u, v :: u in g.sessions && v in g.sessions && u != v ==> g.sessions[u].player.id != g.sessions[v].player.id
  }

  function Wiped(t: Tables, id: string): Tables {
    Tables(t.users, t.games - {id}, map k | k in t.rows && k.0 != id :: t.rows[k])
  }
}
