/** A finished game survives the permanent store, unless it was reloaded from the hot one. */
module Archive {
  import opened Collections
  import opened Words
  import opened Scoring
  import opened Leaderboard
  import opened GameModel
  import opened Results
  import opened Postgres
  import Redis

  /** Every session carries the id of the registered player it belongs to. */
  predicate Registered(t: Tables, g: GameState) {
    forall u :: u in g.sessions ==> g.sessions[u].player.id in t.users && t.users[g.sessions[u].player.id] == u
  }

  /** The game's row holds its creator, secret and times; the end time aside. */
  predicate Describes(t: Tables, row: GameRow, g: GameState) {
    && row.creator in t.users && t.users[row.creator] == g.creator
    && (row.correctWord, row.createdAt, row.startedAt) == (g.secret.word, g.createdAt, g.startedAt)
  }

  /** The tables hold the game and one row for each of its players, and no other row of it. */
  ghost predicate Enrolled(t: Tables, g: GameState) {
    && t.Consistent()
    && g.id in t.games && Describes(t, t.games[g.id], g)
    && (forall id :: (g.id, id) in t.rows ==> t.users[id] in g.sessions)
    && (forall u :: u in g.sessions ==> RowOf(t, g.id, u))
  }

  ghost predicate RowOf(t: Tables, gid: string, u: string)
    requires t.Consistent()
  {
    exists id :: (gid, id) in t.rows && t.users[id] == u
  }

  /** Starting a game of registered players records it, with empty rows. */
  lemma StartRecords(before: Tables, g: GameState, after: Tables)
    requires before.Consistent() && Registered(before, g) && Starts(before, g, after)
    requires forall k :: k in before.rows ==> k.0 != g.id
    ensures Enrolled(after, g) && Registered(after, g)
    ensures forall k :: k in after.rows && k.0 == g.id ==> after.rows[k] == EMPTY_ROW
  {
    forall u | u in g.sessions ensures RowOf(after, g.id, u) {
      assert Carries(g, g.sessions[u].player.id);
      assert (g.id, g.sessions[u].player.id) in after.rows;
    }
    forall id | (g.id, id) in after.rows ensures after.users[id] in g.sessions {
      assert Carries(g, id);
    }
  }

  /** What a game must be to be stored in full: ended for everyone, every guess as long as the secret. */
  predicate Storable(g: GameState) {
    && GameOk(g) && Covers(g)
    && g.EndedPlayers() == g.sessions.Keys
    && ToUpper(g.secret.word) == g.secret.word
    && forall u :: u in g.sessions ==> FullLength(g.sessions[u], g.secret)
  }

  predicate FullLength(s: SessionState, secret: Word) {
    forall w :: w in s.guesses ==> |w.word| == |secret.word|
  }

  lemma EndedHavePlayed(g: GameState, u: string)
    requires g.EndedPlayers() == g.sessions.Keys && u in g.sessions
    ensures g.sessions[u].guesses != []
  {
    assert u in g.EndedPlayers();
  }

  /** The row of a registered player holds that player's results. */
  lemma RowHoldsResult(before: Tables, g: GameState, after: Tables, u: string)
    requires Enrolled(before, g) && Registered(before, g) && Finished(before, g, after) && u in g.sessions
    ensures var k := (g.id, g.sessions[u].player.id); k in after.rows && after.rows[k] == ResultRow(g, u)
  {
    var id :| (g.id, id) in before.rows && before.users[id] == u;
    assert id == g.sessions[u].player.id;
    assert Carries(g, id);
    var v :| v in g.sessions && g.sessions[v].player.id == id && after.rows[(g.id, id)] == ResultRow(g, v);
  }

  /** Checking the stored text again gives back the statuses of the best guess. */
  lemma BestIsRebuilt(g: GameState, u: string, line: Line)
    requires GameOk(g) && u in g.sessions && g.sessions[u].guesses != [] && FullLength(g.sessions[u], g.secret)
    requires ToUpper(g.secret.word) == g.secret.word
    requires line.bestGuess == ResultRow(g, u).bestGuess && line.bestGuessTime == ResultRow(g, u).bestGuessTime
    ensures line.Best(NewWord(g.secret.word)) == g.sessions[u].BestGuess()
  {
    var best := g.sessions[u].BestGuess();
    BestIsMaximum(g.sessions[u].guesses);
    var i :| 0 <= i < |g.sessions[u].guesses| && g.sessions[u].guesses[i] == best;
    assert IsRecorded(best, g.secret);
  }

  /** A player's rebuilt session agrees with the one that was stored on everything that is shown of it. */
  predicate SameResult(rebuilt: SessionState, s: SessionState, complete: bool) {
    && rebuilt.player == s.player
    && rebuilt.BestGuess() == s.BestGuess()
    && rebuilt.Won() == s.Won()
    && rebuilt.WordsCount() == |s.guesses|
    && rebuilt.guesses == if complete then s.guesses else [s.BestGuess()]
  }

  lemma SessionSurvives(before: Tables, g: GameState, after: Tables, u: string, asking: int)
    requires Storable(g) && Enrolled(before, g) && Registered(before, g) && Finished(before, g, after) && u in g.sessions
    ensures var id := g.sessions[u].player.id;
      && (g.id, id) in after.rows && after.rows[(g.id, id)].playedWords.Array?
      && SameResult(FetchedSession(after, g.id, id, asking), g.sessions[u], id == asking)
  {
    RowHoldsResult(before, g, after, u);
    EndedHavePlayed(g, u);
    var id, s := g.sessions[u].player.id, g.sessions[u];
    BestIsRebuilt(g, u, LineOf(after, g.id, id));
    assert SessionOk(u, s, g.secret);
    ReplayOfOne(s.BestGuess());
    BestIsMaximum(s.guesses);
  }

  lemma ReplayOfOne(w: Word)
    ensures Replay([w]) == Some(w)
  {
    assert [w][..0] == [];
  }

  /** Every row of the game is a player's, with that player's results and place on the board. */
  lemma RowIsPlayers(before: Tables, g: GameState, after: Tables, id: int)
    requires Storable(g) && Enrolled(before, g) && Registered(before, g) && Finished(before, g, after)
    requires id in after.PlayersOf(g.id)
    ensures id in after.users && after.users[id] in g.sessions && g.sessions[after.users[id]].player.id == id
    ensures after.users[id] in g.ranks && RankOf(after, g.id, id) == IndexOf(g.ranks, after.users[id])
    ensures after.rows[(g.id, id)].playedWords.Array?
  {
    assert (g.id, id) in before.rows;
    var u := after.users[id];
    assert u in Elements(g.ranks);
    RowHoldsResult(before, g, after, u);
    EndedHavePlayed(g, u);
    assert g.sessions[u].player.id == id;
  }

  /** After its results are stored, a game of registered players can be fetched by each of them. */
  lemma StoredIsFetchable(before: Tables, g: GameState, after: Tables, asking: int)
    requires Storable(g) && Enrolled(before, g) && Registered(before, g) && Finished(before, g, after)
    requires (g.id, asking) in before.rows
    ensures Fetchable(after, g.id, asking)
  {
    RowsMatchPlaces(before, g, after);
    forall id | id in after.PlayersOf(g.id)
      ensures after.rows[(g.id, id)].playedWords.Array? && 0 <= RankOf(after, g.id, id) < |after.PlayersOf(g.id)|
    {
      RowIsPlayers(before, g, after, id);
    }
    forall a, b | a in after.PlayersOf(g.id) && b in after.PlayersOf(g.id) && a != b
      ensures RankOf(after, g.id, a) != RankOf(after, g.id, b)
    {
      RowIsPlayers(before, g, after, a);
      RowIsPlayers(before, g, after, b);
    }
  }

  /** The ids of the players down the board. */
  function IdsDown(g: GameState): (ids: seq<int>)
    requires forall i :: 0 <= i < |g.ranks| ==> g.ranks[i] in g.sessions
    ensures |ids| == |g.ranks|
  {
    seq(|g.ranks|, i requires 0 <= i < |g.ranks| => g.sessions[g.ranks[i]].player.id)
  }

  lemma RankedHaveSessions(g: GameState)
    requires Covers(g)
    ensures forall i :: 0 <= i < |g.ranks| ==> g.ranks[i] in g.sessions
  {
    forall i | 0 <= i < |g.ranks| ensures g.ranks[i] in g.sessions { assert g.ranks[i] in Elements(g.ranks); }
  }

  lemma RowsMatchPlaces(before: Tables, g: GameState, after: Tables)
    requires Storable(g) && Enrolled(before, g) && Registered(before, g) && Finished(before, g, after)
    ensures |after.PlayersOf(g.id)| == |g.ranks|
  {
    RankedHaveSessions(g);
    var ids := IdsDown(g);
    forall id | id in after.PlayersOf(g.id) ensures id in Elements(ids) { RowIsDown(before, g, after, id); }
    forall i | 0 <= i < |ids| ensures ids[i] in after.PlayersOf(g.id) { RankedHasRow(before, g, after, i); }
    assert Elements(ids) == after.PlayersOf(g.id);
    IdsDownAreDistinct(before, g);
    ElementsSize(ids);
  }

  lemma RankedHasRow(before: Tables, g: GameState, after: Tables, i: nat)
    requires Storable(g) && Enrolled(before, g) && Registered(before, g) && Finished(before, g, after)
    requires i < |g.ranks| && forall k :: 0 <= k < |g.ranks| ==> g.ranks[k] in g.sessions
    ensures IdsDown(g)[i] in after.PlayersOf(g.id)
  {
    RowHoldsResult(before, g, after, g.ranks[i]);
    assert (g.id, IdsDown(g)[i]) in after.rows;
  }

  lemma RowIsDown(before: Tables, g: GameState, after: Tables, id: int)
    requires Storable(g) && Enrolled(before, g) && Registered(before, g) && Finished(before, g, after)
    requires id in after.PlayersOf(g.id) && forall i :: 0 <= i < |g.ranks| ==> g.ranks[i] in g.sessions
    ensures id in IdsDown(g)
  {
    RowIsPlayers(before, g, after, id);
    assert IdsDown(g)[IndexOf(g.ranks, after.users[id])] == id;
  }

  lemma IdsDownAreDistinct(t: Tables, g: GameState)
    requires Registered(t, g) && NoDuplicates(g.ranks) && forall i :: 0 <= i < |g.ranks| ==> g.ranks[i] in g.sessions
    ensures NoDuplicates(IdsDown(g))
  {
    forall i, j | 0 <= i < j < |g.ranks| ensures IdsDown(g)[i] != IdsDown(g)[j] {
      assert t.users[IdsDown(g)[i]] == g.ranks[i] && t.users[IdsDown(g)[j]] == g.ranks[j];
    }
  }

  /** The fetched game has the id, creator, secret, creation and start of the stored one. Its end time is the creation
      time, whenever the game ended. */
  predicate SameDetails(r: GameState, g: GameState) {
    && (r.id, r.creator, r.secret.word, r.createdAt, r.startedAt)
       == (g.id, g.creator, g.secret.word, g.createdAt, g.startedAt)
    && (r.endedAt == g.endedAt <==> g.endedAt == Some(g.createdAt))
  }

  /** What a player's row says once results are stored: all guesses; the best one, which no other beats, with its time;
      a time of finishing exactly if the secret was found, which is the time of that guess; and the place on the board. */
  lemma RowMeans(g: GameState, u: string)
    requires Storable(g) && u in g.sessions
    ensures var s, row := g.sessions[u], ResultRow(g, u);
      && s.guesses != [] && row.playedWords == Array(s.guesses)
      && (exists w :: w in s.guesses && row.bestGuess == Some(w.word) && row.bestGuessTime == Some(w.playedAt.time)
                      && forall v :: v in s.guesses ==> !v.GreaterThan(w))
      && (row.finished.Some? <==> exists w :: w in s.guesses && w.word == g.secret.word)
      && (forall w :: w in s.guesses && w.word == g.secret.word ==> row.finished == Some(w.playedAt.time))
      && row.rank.Some? && 0 <= row.rank.value < |g.ranks| && g.ranks[row.rank.value] == u
  {
    var s := g.sessions[u];
    EndedHavePlayed(g, u);
    BestIsMaximum(s.guesses);
    assert SessionOk(u, s, g.secret) && s.BestGuess() in s.guesses;
    WonIff(u, s, g.secret);
    FoundIsBest(u, s, g.secret);
    assert IsRecorded(s.BestGuess(), g.secret);
    assert u in Elements(g.ranks);
  }

  /** If the secret is among the guesses, it is the only one of its kind and the best. */
  lemma FoundIsBest(u: string, s: SessionState, secret: Word)
    requires SessionOk(u, s, secret) && secret.word != ""
    ensures forall w :: w in s.guesses && w.word == secret.word ==> s.Won() && s.BestGuess() == w
  {
    forall w | w in s.guesses && w.word == secret.word ensures s.Won() && s.BestGuess() == w {
      BestIsMaximum(s.guesses);
      WonIff(u, s, secret);
      var k :| 0 <= k < |s.guesses| && s.guesses[k] == s.BestGuess();
      RecordedIsCorrectIff(s.guesses[k], secret);
      var i :| 0 <= i < |s.guesses| && s.guesses[i] == w;
      assert i == |s.guesses| - 1 == k;
    }
  }

  lemma OneSurvives(before: Tables, g: GameState, after: Tables, asking: int, sessions: map<string, SessionState>,
                    u: string)
    requires Storable(g) && Enrolled(before, g) && Registered(before, g) && Finished(before, g, after)
    requires after.Consistent() && g.id in after.games && u in g.sessions
    requires forall id :: id in after.PlayersOf(g.id) ==> after.rows[(g.id, id)].playedWords.Array?
    requires HoldsSessions(after, g.id, asking, sessions)
    ensures u in sessions && SameResult(sessions[u], g.sessions[u], g.sessions[u].player.id == asking)
  {
    SessionSurvives(before, g, after, u, asking);
    assert g.sessions[u].player.id in after.PlayersOf(g.id);
  }

  lemma SessionsSurvive(before: Tables, g: GameState, after: Tables, asking: int, sessions: map<string, SessionState>)
    requires Storable(g) && Enrolled(before, g) && Registered(before, g) && Finished(before, g, after)
    requires after.Consistent() && g.id in after.games
    requires forall id :: id in after.PlayersOf(g.id) ==> after.rows[(g.id, id)].playedWords.Array?
    requires HoldsSessions(after, g.id, asking, sessions)
    ensures sessions.Keys == g.sessions.Keys
    ensures forall u :: u in g.sessions ==> SameResult(sessions[u], g.sessions[u], g.sessions[u].player.id == asking)
  {
    forall u | u in g.sessions
      ensures u in sessions && SameResult(sessions[u], g.sessions[u], g.sessions[u].player.id == asking)
    {
      OneSurvives(before, g, after, asking, sessions, u);
    }
    SameNames(before, g, after);
  }

  lemma SameNames(before: Tables, g: GameState, after: Tables)
    requires Enrolled(before, g) && Finished(before, g, after) && after.Consistent()
    ensures after.NamesOf(g.id) == g.sessions.Keys
  {
    forall u | u in after.NamesOf(g.id) ensures u in g.sessions { NobodyElseIsFetched(before, g, after, u); }
    forall u | u in g.sessions ensures u in after.NamesOf(g.id) {
      assert RowOf(before, g.id, u);
      var id :| (g.id, id) in before.rows && before.users[id] == u;
      assert (g.id, id) in after.rows;
    }
  }

  lemma NobodyElseIsFetched(before: Tables, g: GameState, after: Tables, u: string)
    requires Enrolled(before, g) && Finished(before, g, after) && after.Consistent() && u in after.NamesOf(g.id)
    ensures u in g.sessions
  {
    var k :| k in after.rows && k.0 == g.id && after.users[k.1] == u;
    assert (g.id, k.1) in before.rows;
  }

  /** A game of one player, who found the secret at once. */
  function ShortGame(secret: Word): GameState
    requires secret.word != ""
  {
    var guess := Checked(Word(secret.word, NullTime(1, true), []), secret);
    var s := SessionState(Player(1, "ann"), [guess], Some(guess), 0);
    GameState(map["ann" := s], ["ann"], 0, Some(0), Some(1), "ann", secret, 1, "id")
  }

  lemma ShortGameIsStorable(secret: Word)
    requires secret.word != "" && ToUpper(secret.word) == secret.word
    ensures Storable(ShortGame(secret))
  {
    var g := ShortGame(secret);
    var s := g.sessions["ann"];
    CheckedIsCorrectIff(Word(secret.word, NullTime(1, true), []), secret);
    ReplayOfOne(s.guesses[0]);
    assert SessionOk("ann", s, secret) && s.Won();
    assert g.EndedPlayers() == g.sessions.Keys;
  }

  /** The tables when that game has started, its player being registered. */
  function ShortStart(secret: Word): Tables {
    Tables(map[1 := "ann"], map["id" := GameRow(1, secret.word, 0, Some(0), None)], map[("id", 1) := EMPTY_ROW])
  }

  /** That game can be stored and fetched. */
  lemma ShortGameIsFetched(secret: Word, after: Tables)
    requires secret.word != "" && ToUpper(secret.word) == secret.word
    requires Finished(ShortStart(secret), ShortGame(secret), after)
    ensures Fetchable(after, "id", 1)
  {
    var before, g := ShortStart(secret), ShortGame(secret);
    assert RowOf(before, "id", "ann") by { assert ("id", 1) in before.rows && before.users[1] == "ann"; }
    ShortGameIsStorable(secret);
    StoredIsFetchable(before, g, after, 1);
  }

  /** Stored by FinishGame and rebuilt by FetchGame, a finished game shows every player with the same best guess,
      win flag and word count, the asking player with all guesses, and every scoring entry in its place. */
  lemma FinishedGameSurvives(before: Tables, g: GameState, after: Tables, asking: int, r: GameState)
    requires Storable(g) && Enrolled(before, g) && Registered(before, g) && Finished(before, g, after)
    requires Fetches(after, g.id, asking, r)
    ensures r.sessions.Keys == g.sessions.Keys
    ensures forall u :: u in g.sessions ==> SameResult(r.sessions[u], g.sessions[u], g.sessions[u].player.id == asking)
    ensures r.Bests() == g.Bests() && SameDetails(r, g)
    ensures DistinctTimes(g.Bests()) ==>
      var n := |ScoringPlayers(g.Bests())|; n <= |r.ranks| && n <= |g.ranks| && r.ranks[..n] == g.ranks[..n]
  {
    SessionsSurvive(before, g, after, asking, r.sessions);
    SameBestsSameBoard(g, r);
  }

  lemma EqualBests(g: GameState, r: GameState)
    requires r.sessions.Keys == g.sessions.Keys
    requires forall u :: u in g.sessions ==> r.sessions[u].BestGuess() == g.sessions[u].BestGuess()
    ensures r.Bests() == g.Bests() && g.Bests().Keys == g.sessions.Keys
  {
  }

  lemma SameBestsSameBoard(g: GameState, r: GameState)
    requires GameOk(g) && Covers(g) && OnSortedBoard(r) && r.sessions.Keys == g.sessions.Keys
    requires forall u :: u in g.sessions ==> r.sessions[u].BestGuess() == g.sessions[u].BestGuess()
    ensures r.Bests() == g.Bests()
    ensures DistinctTimes(g.Bests()) ==>
      var n := |ScoringPlayers(g.Bests())|; n <= |r.ranks| && n <= |g.ranks| && r.ranks[..n] == g.ranks[..n]
  {
    BestsAreTimed(g);
    EqualBests(g, r);
    if DistinctTimes(g.Bests()) {
      OrderedBoardsAgree(g.Bests(), g.ranks, r.ranks);
    }
  }

  // ---------- reloaded games ----------

  /** Every session carries its player's id, or none as after a reload. */
  predicate RegisteredOrReloaded(t: Tables, g: GameState) {
    && 0 !in t.users
    && forall u :: u in g.sessions ==>
         var id := g.sessions[u].player.id; id == 0 || (id in t.users && t.users[id] == u)
  }

  /** Results stored into the empty rows of a started game can be fetched exactly when no session lost its id. */
  lemma FetchableIffNotReloaded(before: Tables, g: GameState, after: Tables, asking: int)
    requires Storable(g) && Enrolled(before, g) && RegisteredOrReloaded(before, g) && Finished(before, g, after)
    requires forall k :: k in before.rows && k.0 == g.id ==> before.rows[k] == EMPTY_ROW
    requires (g.id, asking) in before.rows
    ensures Fetchable(after, g.id, asking) <==> forall u :: u in g.sessions ==> g.sessions[u].player.id != 0
  {
    if u :| u in g.sessions && g.sessions[u].player.id == 0 {
      assert RowOf(before, g.id, u);
      var id :| (g.id, id) in before.rows && before.users[id] == u;
      assert !Carries(g, id);
      assert id in after.PlayersOf(g.id) && after.rows[(g.id, id)] == EMPTY_ROW;
    } else {
      StoredIsFetchable(before, g, after, asking);
    }
  }

  /** So the results of a game that was reloaded even once are lost, however it went on. */
  lemma ReloadedResultsAreLost(
    s: Redis.Store, id: string, loaded: GameState, moves: seq<Move>, before: Tables, after: Tables, asking: int)
    requires Redis.Loads(s, id, loaded) && GameOk(loaded) && loaded.sessions != map[]
    requires forall m :: m in moves ==> m.at > 0
    requires var g := PlayAll(loaded, moves);
      Storable(g) && Enrolled(before, g) && 0 !in before.users && Finished(before, g, after)
    requires forall k :: k in before.rows && k.0 == loaded.id ==> before.rows[k] == EMPTY_ROW
    requires (loaded.id, asking) in before.rows
    ensures !Fetchable(after, loaded.id, asking)
  {
    PlayKeepsPlayers(loaded, moves);
    var g := PlayAll(loaded, moves);
    var u :| u in loaded.sessions;
    assert g.sessions[u].player.id == 0;
    FetchableIffNotReloaded(before, g, after, asking);
  }

  lemma {:induction false} PlayKeepsPlayers(g: GameState, moves: seq<Move>)
    requires GameOk(g) && forall m :: m in moves ==> m.at > 0
    ensures forall u :: u in g.sessions ==> PlayAll(g, moves).sessions[u].player == g.sessions[u].player
    decreases |moves|
  {
    if moves != [] {
      var last := |moves| - 1;
      PlayKeepsPlayers(g, moves[..last]);
      MoveExtends(PlayAll(g, moves[..last]), moves[last]);
    }
  }
}
