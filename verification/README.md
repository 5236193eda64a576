# Verified model of the Wordle server's game engine

The server lets several players guess the same five-letter word, six guesses each. A room runs one game: its loop takes
the players' messages one at a time. While the game runs, a hot store (Redis) keeps a log of every player's guesses, from
which a crashed server rebuilds the game; when it has ended, its results go to a permanent store (Postgres), from which
the board is rebuilt for players who look the game up later. A cache holds the rooms, and a collector empties it.

The project models that engine in Dafny and proves what it promises:

- `Words`, `Scoring`: guess words, their order, and the two-pass scoring, proved against a multiset specification.
- `Leaderboard`, `GameModel`: the incremental leaderboard and the game as pure state machines, with their invariants.
- `Games`: the live game on the heap. The session map and the board share their session objects; every method is proved to
  compute what the pure machine says.
- `RoomModel`, `Rooms`: the room's loop, as a state machine and on the heap with its connections and all that is sent to them.
- `Redis`, `Recovery`: the guess log, reloading from it, and runs interrupted by crashes.
- `Survival`, `Endings`: what lives on when writes get lost, and when a reloaded game ends.
- `Results`, `Postgres`, `Archive`: storing results and rebuilding a finished game from them.
- `HubModel`, `Hub`, `ServiceModel`, `Service`: the room cache with its collector, and the service over cache and stores,
  where every call may fail.
- `Stack`: a room, the service it calls and both stores as one machine, which serves other games in between and may crash
  between any two events.
- `Lifecycle`: a game from the making of its room to the fetching of its results.
- `Collections`: stock datatypes and facts about slices and map iteration.

Methods on the heap are specified by functions and relations over values, and the properties of whole runs are lemmas about
those. What ranging over a Go map yields is an arbitrary order of its keys. Clock readings, random choices, write failures
and the answers of the stores are parameters or nondeterministic. `dafny verify dfyconfig.toml` checks the project.

Assumptions, each stated where it is used: the secret is not empty, and has five letters where a finished game is stored;
clock readings are positive, and increase from guess to guess where the order of the board is to be unique; the players of
a game are present when it starts wherever the board must list them all.

## Findings

Where the code falls short of what one would expect, the exact condition is proved:

- The order of words is a strict weak order on a set of words exactly when no word without a time shares its key with two
  words played at different times (`Words.StrictWeakOrderIff`); an unplayed session beside two all-Incorrect guesses is such
  a case (`Words.UnplayedSessionBreaksWeakOrder`). Boards are therefore specified only on entries that score.
- Reloading counts only the sessions that won and sets no end, so a reloaded game ends only if it comes back with somebody
  still to end and nobody who had lost (`Endings.ReloadedGameEndsWhen`). It ends on the same moves as the unbroken game,
  whatever these are, exactly when there are no players at all, or somebody had still to end, nobody comes back having
  lost, and every player comes back with all their guesses or has won and comes back having won
  (`Endings.ReloadEndsAlikeIff`). If the log is complete and there are players, that means: somebody had still to end and
  nobody had lost (`Endings.FullReloadEndsAlikeIff`). If it is not, that is not enough: when a winning guess was not logged,
  the winner must play again (`Endings.LostWinSplitsTheEnd`).
- A closed game stays in the hot store exactly when its ending was not committed or its deletion failed
  (`Stack.ClosedIsKeptIff`). It then comes back in an open room, and ends again or not by the rule above
  (`Stack.KeptComesBack`). If every session had ended and every guess was logged, it takes no guess and never ends
  (`Stack.KeptEndRunsForGood`).
- A guess whose push to the log fails is lost at the next reload, and nothing else is: a reload holds of every player exactly
  the guesses that got through (`Recovery.ReloadHoldsWhatWasPushed`, `Stack.NothingElseIsLost`), and the game goes on as the
  uninterrupted game of the moves that survived (`Survival.SurvivorsGoOn`).
- A connection that leaves while still open takes a namesake's listed connection off the list, without closing or announcing
  it (`Rooms.Room.CloseConns`). Sending and leaving take nobody else off the list
  unannounced (`Rooms.Room.SendAll`, `Rooms.Room.Leave`).
- The collector takes rooms out of the cache by id. If an open room has taken the place of a listed one since the mark, it
  goes with it and stays open uncached; exactly then not every open room is cached any more (`Hub.LocalStorage.DoSweep`).
- Reloading drops the players' ids, so the results of a game that was reloaded never reach the permanent rows and the game
  cannot be fetched (`Archive.FetchableIffNotReloaded`, `Archive.ReloadedResultsAreLost`).
- A start that reaches the permanent store but not the hot one cannot be repeated: until the game is wiped it never gets
  into the hot store (`ServiceModel.HalfStartsIff`, `ServiceModel.HalfStartedIsStuck`).
- After its results are committed a game is still found, and comes back as a running one, exactly when it could not be
  deleted from the hot store (`ServiceModel.FinishedIsFoundIff`, `ServiceModel.StoredIsOpen`).
- `FetchGame` fills the end time from the creation time, so it is right exactly if the game ended when it was created
  (`Archive.FinishedGameSurvives`). `FinishGame` writes the end time outside its transaction, so an end time may be stored
  without results (`Postgres.GameRepo.FinishGame`).

## Model

| member | source | states |
|---|---|---|
| Words.Group | game/word/word.go:69-81 | the loop counts exactly the letters marked Correct and Exists |
| Words.SameWordIff | game/word/word.go:46-49 | two texts make the same word if and only if they differ in the case of ASCII letters only |
| Words.WordIsUpper | game/word/word.go:46-49 | a word has the letters of its text up to case and no lower-case one, and making it again changes nothing |
| Words.GreaterThanIsStrictOrder | game/word/word.go:85-101 | the order of words is irreflexive, transitive and asymmetric, on all words |
| Words.NotBeatenIsTransitive | game/word/word.go:96-100 | among words with valid times not being beaten is transitive: a strict weak order |
| Words.StrictWeakOrderIff | game/word/word.go:85-101 | incomparability is transitive on a set of words if and only if no word without a time shares its key with two words of different times |
| Words.UnplayedSessionBreaksWeakOrder | game/word/word.go:96-100 | two all-Incorrect guesses and the zero word: incomparable to the zero word, yet ordered |
| Scoring.Check | game/word/word.go:108-149 | the loops compute the specified statuses, which are fair: Correct exactly where the letters match, of a letter's misplaced copies the leftmost Exists, and as many marks per letter as copies in both words; a guess of another length is all Incorrect and leaves the word unchanged |
| Scoring.CountLetters | game/word/word.go:123-126 | the dictionary counts every letter of the secret |
| Scoring.MarkCorrect | game/word/word.go:129-134 | the first pass marks exactly the matching positions and leaves the unused copies of each letter, never a negative number |
| Scoring.MarkExisting | game/word/word.go:137-146 | the second pass completes the statuses: Exists goes leftmost first to as many misplaced letters as there are spare copies |
| Scoring.MarkAt | game/word/word.go:137-146 | one turn of that pass: the mark at its position, the letters left after it, no other mark changed |
| Scoring.ScoreIsTheFairOne | game/word/word.go:108-149 | no other marking is fair in that sense: it determines every status |
| Scoring.CorrectsAreTheMatches | game/word/word.go:128-134 | a letter is Correct if and only if it matches, and the first part of the key is the number of matching positions |
| Scoring.MarksOfLetter | game/word/word.go:128-146 | up to any position a letter has as many marks as hits plus the smaller of misses and spare copies |
| Scoring.MarksAreTheIntersection | game/word/word.go:108-149 | each letter is marked min(copies in guess, copies in secret) times: the marks are the multiset intersection |
| Scoring.TotalMarks | game/word/word.go:108-149 | the numbers of Correct and Exists add up to the size of the intersection |
| Scoring.ScoringIsSymmetric | game/word/word.go:108-149 | swapping guess and secret changes neither count |
| Scoring.OneLetterOffIsNeverExists | game/word/word.go:128-146 | with all other letters Correct the last one is never Exists |
| Scoring.CheckedIsCorrectIff | game/word/word.go:56-66 | a checked guess is correct if and only if it is the secret, and if and only if every letter counts as Correct |
| Leaderboard.ClimbAs | game/game.go:62-78 | where an entry stops: it beats everyone it passed and not the one above it |
| Leaderboard.KeysDescend | game/game.go:62-78 | keys never increase down an ordered board |
| Leaderboard.ClimbKeepsOrder | game/game.go:62-78 | replacing one best guess by a better one and bubbling that entry up keeps an ordered board ordered |
| Leaderboard.ClimbInsertsInOrder | game/game.go:49-52 | bubbling in one more entry extends an ordered prefix |
| Leaderboard.RankIsPlayersAhead | game/game.go:62-78 | on an ordered board of all players a scoring player stands below exactly the players who beat them |
| Leaderboard.ScoringPrefix | game/game.go:62-78 | the entries that score come first |
| Leaderboard.OrderedBoardsAgree | game/game.go:49-78 | the bubbled board and the fully sorted one, or any two ordered boards, agree on every entry that scores |
| Collections.RotateKeepsOrdering | game/game.go:62-78 | moving one entry up keeps the board a permutation |
| GameModel.BestIsMaximum | game/game.go:203-215 | the running best guess is one of the guesses and none beats it |
| GameModel.PlayKeepsBest | game/game.go:193-215 | playing keeps the best guess what replaying all guesses yields, so resyncing is idempotent, and it only improves |
| GameModel.RecordedIsCorrectIff | game/game.go:143-144 | a guess as recorded by Play is correct if and only if it is the secret |
| GameModel.WonIff | game/game.go:240-245 | Won, which looks at the best guess only, holds if and only if some guess is the secret, and then that guess is the last |
| GameModel.PlayKeepsSession | game/game.go:203-215 | an accepted guess keeps a session well formed: six guesses at most, none after the secret |
| GameModel.PlayKeepsGame | game/game.go:133-157 | every play keeps every session well formed and the board ordered, without duplicates and covering |
| GameModel.RerankKeepsBoard | game/game.go:148 | after a guess the bubbled board is an ordered permutation of the old one |
| GameModel.JoinKeepsGame | game/game.go:104-106 | joining under a new name keeps the game well formed |
| GameModel.StartKeepsGame | game/game.go:97-101 | starting before anyone has played gives an ordered board of all players, whatever the map order, and the time of the start |
| GameModel.PlayCounts | game/game.go:149-155 | a play keeps the number of uncounted ended sessions and sets the end time exactly when all sessions have ended and none is uncounted |
| GameModel.OutcomeOf | game/game.go:133-157 | a play is refused with the error for its reason, answers 0 and changes nothing, or adds the checked and stamped guess to its player's session alone |
| GameModel.OffsetIsPlacesGained | game/game.go:147-156 | the number Play answers is the player's old place minus the new one, which is the number of players who stood above and now stand below, each beaten by the player's best guess; 0 for a player not on the board |
| GameModel.MoveExtends | game/game.go:133-157 | a play touches no other session and nothing but sessions, board, counter and end time |
| GameModel.RejectedWhenAllEnded | game/game.go:139-141 | once all sessions have ended nothing is accepted |
| GameModel.EndsWithTheLastSession | game/game.go:149-155 | after any moves the game has ended if and only if every session has, given that no ended session went uncounted; else it never ends |
| GameModel.EventKeepsGame | game/game.go:97-157 | every event keeps sessions and board well formed and the counter exact |
| GameModel.EveryReachableGame | game/game.go:97-157 | in every state reachable from a new game the board is ordered and the counter is the number of ended sessions |
| GameModel.BubbledIsSorted | game/game.go:49-78 | under an increasing clock the board that was only ever bubbled lists every scoring player where a full sort puts them, after any moves |
| GameModel.StampsAreDistinct | game/game.go:143 | guesses made at different times give best guesses at different times |
| GameModel.RunKeepsStamps | game/game.go:143 | under an increasing clock no two players' guesses ever share a time |
| Games.Session.Play | game/game.go:203-215 | appends the guess and replaces the best guess if beaten, as the pure session does |
| Games.Session.Resync | game/game.go:193-200 | the replay loop recomputes the best guess and keeps the guesses |
| Games.RankBoard.FixPosition | game/game.go:62-78 | on the array: the entry moves up to where it stops, all others keep their order, positions stay the exact inverse, and the count is old minus new position; an unknown name moves nothing |
| Games.RankBoard.Bubble | game/game.go:65-76 | the loop of FixPosition from a given position |
| Games.RankBoard.SwapUp | game/game.go:69-71 | one swap of two entries and their positions |
| Games.BubbleStep | game/game.go:65-72 | one swap turns a rotation into the next longer one and keeps the positions inverse |
| Games.RankBoard.Resync | game/game.go:49-57 | sorts the same entries, ordered where the order is one, and numbers the positions |
| Games.SortSlice | game/game.go:50-52 | what is relied on of the library sort: a permutation, with no scoring entry below one it beats |
| Games.NewRankBoard | game/game.go:33-46 | a board of exactly the given sessions in some order, with inverse positions |
| Games.Game.New | game/game.go:119-127 | a new game has no sessions, an empty board and no start or end |
| Games.Game.Start | game/game.go:97-101 | stamps the start and builds a new board of all sessions |
| Games.Game.Join | game/game.go:104-106 | adds a fresh session for the player, whoever had the name, and leaves the board alone; the game stays well formed exactly when the name is not on the board |
| Games.Game.Play | game/game.go:133-157 | on shared session objects: the new state, the recorded guess, the offset, the best flag and the error are those of the pure play |
| Games.Game.FixBoard | game/game.go:148 | fixing the board changes the order alone and returns the players displaced, by as much as the player's position has improved |
| Games.Game.CountEnded | game/game.go:149-155 | counts a session that ended and ends the game with the last one |
| Games.Game.Resync | game/game.go:160-168 | recomputes every best guess, adds the winners to the counter and sorts the board |
| Games.Game.Players | game/game.go:170-176 | lists every player once |
| RoomModel.StepKeepsRoom | game/room.go:153-364 | every turn of the loop keeps the room's invariant |
| RoomModel.EveryReachableRoom | game/room.go:334-393 | over any run closed means not active, active means started and not ended, and at most one call ended the game's life: results for an ended game, a wipe for a started unended one |
| RoomModel.ClosedForGood | game/room.go:334-340 | a closed room never changes again |
| RoomModel.StartedByCreatorIff | game/room.go:153-177 | over any run of a new room its game has started if and only if its creator has tried to start it |
| RoomModel.BecomesActiveIff | game/room.go:153-177 | a room becomes active if and only if its creator starts it and the service stores the game |
| RoomModel.StepCountsGuesses | game/room.go:193-264 | sessions grow by exactly the guesses passed on |
| RoomModel.AtMostSixGuesses | game/room.go:193-264 | whoever leaves, is kicked out or rejoins: a run accepts no more guesses of a player than they had left of six |
| RoomModel.RefusedForOneReason | game/room.go:195-239 | a guess is refused exactly when one of the eight reasons applies, and never for two |
| RoomModel.AcceptsIff | game/room.go:195-239 | a guess is accepted if and only if the room is active, its player has made fewer than six guesses, none of them the secret, and the text is five ASCII letters and an English word |
| RoomModel.EndedIsToldWhy | game/room.go:206-215 | whoever has found the secret is refused for that, also at the sixth guess; whoever has made six without finding it, for having none left |
| RoomModel.TypedSecretPasses | game/room.go:223-231 | the secret typed in any mixture of cases passes the checks |
| RoomModel.WinsIff | game/room.go:234-241 | an accepted guess wins if and only if its text is, up to case, the one the secret was made from |
| RoomModel.EveryGuessHasFiveLetters | game/room.go:223-231 | only words of five upper-case letters are ever recorded |
| RoomModel.SessionsAreJoins | game/room.go:274-276 | over any run exactly those who joined, or were there at first, have a session |
| RoomModel.RunKeepsSessions | game/room.go:266-290 | whoever leaves or joins again: over any run everyone keeps the session, with all guesses in their order |
| Rooms.Room.constructor | game/room.go:135-150 | a room for a started unended game is active, one for an ended game closed |
| Rooms.Room.SendAll | game/room.go:405-416 | terminates for every pattern of write failures; everyone listed is written to; a connection is off the list afterwards exactly if a write to it failed, and then it is closed and announced, and everyone still listed was told |
| Rooms.Room.Leave | game/room.go:294-330 | mutually recursive with SendAll, terminates; the given connections end closed and unlisted, each that was open is announced to everyone still listed, and of the others exactly those go to whom a write failed, but for namesakes |
| Rooms.Room.AnnounceAll | game/room.go:317-329 | everyone still listed is told of each of the given connections, no connection is announced a second time, and whoever could not be written to is announced too |
| Rooms.Room.CloseConns | game/room.go:306-316 | closes and unlists what was open and leaves exactly that to be announced, each connection once; another listed connection goes exactly when an open one here has its name |
| Rooms.Room.StartGame | game/room.go:153-177 | is the start step of the state machine: only the creator, only once, active only if the service stored the game; anyone else gets the right error, and everyone is told of a start |
| Rooms.Room.PlayGuess | game/room.go:193-264 | is the play step: a guess that fails a check changes nothing and is answered with the first reason that applies; any other is played and passed on, everyone is sent the recorded guess, the places gained and the new board, and when it ends the game that too, and the room is closed |
| Rooms.Room.CheckGuess | game/room.go:195-239 | the checks in their order: the guess is accepted, or the first check it fails is the reason |
| Rooms.Room.PassOn | game/room.go:241-249 | the game never refuses a guess that the room passes on, and the service is told exactly the recorded guess and flag |
| Rooms.Room.JoinRoom | game/room.go:266-290 | an older connection of the player ends closed and announced, and a session is made for a new name only; if the first write to the new connection gets through, it ends listed, or closed and announced exactly if a later one failed, and everyone is told; if not, it ends closed and unlisted and nothing more is sent |
| Rooms.Room.SeatPlayer | game/room.go:277-289 | the same for a name that is not listed: the first write decides |
| Rooms.Room.Close | game/room.go:334-364 | closes and unlists every connection, and calls the service once for a started game |
| Rooms.Room.Handle | game/room.go:373-390 | each message is a step of the state machine and is answered with what it should be: an error to its sender alone, or the news to everyone; a connection that leaves ends closed, and announced if it was open |
| Rooms.Room.Run | game/room.go:368-393 | the loop is a run of the state machine, to the last message or until the room is closed |
| Redis.GameRepository.CreateGame | repository/redis/game.go:54-72 | stores the metadata with the list of players, or fails and changes nothing |
| Redis.GameRepository.AddGuess | repository/redis/game.go:183-213 | appends to the player's log and sets the best guess under the flag; each write may fail; an unknown game is refused |
| Redis.GameRepository.GetBestGuess | repository/redis/game.go:237-252 | returns the best guess entered for the player, or an error |
| Redis.GameRepository.DeleteGame | repository/redis/game.go:97-109 | deletes all keys of the game; a game that cannot be read counts as gone and is left without an error |
| Redis.GameRepository.GetSessions | repository/redis/game.go:135-176 | fresh sessions with exactly the logged guesses, without player ids |
| Redis.GameRepository.LoadGame | repository/redis/game.go:112-132 | a game of the stored metadata and logs, resynced; it fails exactly when a read does |
| Redis.KeysAreDistinct | repository/redis/game.go:254-266 | different entries never share a key string, whatever the players are called |
| Recovery.CreatedInSync | repository/redis/game.go:54-72 | a game as it starts is in sync with what is stored of it |
| Recovery.MoveKeepsSync | repository/redis/game.go:183-213 | every move whose writes get through keeps log and best-guess hash equal to the sessions |
| Recovery.MoveKeepsBacked | game/room.go:247-249 | whatever writes fail, the log stays a part of the guesses, in their order |
| Recovery.LoadedHasSameProgress | repository/redis/game.go:112-132 | a reloaded game has the guesses and best guesses of the stored one, an ordered board of all players, and is in sync again |
| Recovery.SameMove | game/game.go:133-157 | equal progress makes equal moves: the same error, guess and flag, and equal progress again |
| Recovery.SameScoringBoard | game/game.go:49-78 | equal progress fixes every scoring entry of the board |
| Recovery.CrashesLoseNoProgress | repository/redis/game.go:112-132 | for every run with crashes anywhere in which all writes get through (Survival has the others), stopped at any step, guesses and best guesses are those of the uninterrupted run |
| Recovery.RunStaysIntact | repository/redis/game.go:112-132 | over such a run the game stays well formed and the store in step with it |
| Recovery.CrashesKeepTheBoard | repository/redis/game.go:112-132 | and under an increasing clock so are all scoring entries of the board, whatever order the map is ranged over |
| Recovery.LogsArePushes | repository/redis/game.go:183-213 | whatever writes fail and wherever the server crashes, a player's log is what got through to it |
| Recovery.LoadedIsBacked | repository/redis/game.go:112-132 | a reload from an incomplete log is a well-formed running game of the same creator, secret, times and players with exactly the logged guesses |
| Recovery.ReloadHoldsWhatWasPushed | repository/redis/game.go:112-132 | a reload holds of every player exactly the guesses whose push got through, all of them guesses of the lost game in that order |
| Survival.AllAccepted | game/game.go:133-157 | moves whose guesses can be made one after the other, six at most and none after the secret, are all accepted, in any interleaving of the players |
| Survival.SurvivorsGoOn | game/room.go:247-249 | however often the server crashes and whatever writes get lost, the game that goes on has the guesses and best guesses of the uninterrupted game of exactly the moves that survived: the accepted ones since the last crash and the pushed ones before it |
| Survival.SurvivorsKeepTheBoard | repository/redis/game.go:112-132 | and under a clock that never repeats a reading every scoring entry of its board stands where it stands in that game |
| Endings.ReloadCounts | game/game.go:160-168 | after a reload the counter is the live one minus the losers and minus the winners whose winning guess was not logged |
| Endings.ReloadedGameEndsWhen | game/game.go:149-168 | from any log, a reloaded game ever ends if and only if it comes back with somebody still to end and nobody who had lost, and the moves end everyone |
| Endings.ReloadedGameEnds | game/game.go:149-168 | if the reload lost no guess but those of players who have won in both games, it ends on the same moves as the unbroken game if somebody had still to end and nobody had lost, and else never |
| Endings.EndStaysSet | game/game.go:149-155 | a game that was never reloaded has ended exactly when it has players and all their sessions have, whatever is played |
| Endings.WornEnds | game/game.go:133-157 | six wrong guesses of every player, but only k of one, end everyone exactly if that one has won or has no guess left after them |
| Endings.ShortLogShows | game/game.go:149-168 | a player whose log lost a guess, and who has not won in both games, can be told apart: some moves end every session of the unbroken game but not of the reloaded one |
| Endings.ReloadEndsAlikeIff | game/game.go:149-168 | from any log, a reload ends on the same moves as the unbroken game, over all moves, if and only if there are no players, or somebody had still to end, nobody comes back having lost, and every player has all their guesses or has won in both |
| Endings.FullReloadEndsAlikeIff | game/game.go:149-168 | from a complete log, if and only if somebody had still to end and nobody had lost |
| Endings.FullReloadEnds | game/game.go:149-168 | the same move by move, with the counter: the live one minus the losers |
| Endings.LostWinSplitsTheEnd | game/room.go:247-249 | the lost winning guess: somebody had still to end and nobody had lost, but the last win ends the unbroken game and not the reloaded one |
| Results.BuildSession | repository/postgres/game.go:257-279 | a rebuilt session: all guesses for the player who asks, the best one checked anew for others, and the stored count |
| Results.PlaceSessions | repository/postgres/game.go:255-283 | every session placed at its stored rank; panics exactly when a rank is outside the board |
| Results.AllPlaced | repository/postgres/game.go:280 | every slot is filled if and only if the ranks are distinct |
| Results.SetSessions | repository/postgres/game.go:250-287 | a well-formed game holding exactly the rebuilt sessions on a sorted board; panics unless the ranks number the places |
| Postgres.GameRepo.StartGame | repository/postgres/game.go:29-76 | the game row and an empty row per player, all or nothing, exactly when creator and players exist and nothing is there yet |
| Postgres.GameRepo.WipeGameData | repository/postgres/game.go:79-102 | removes the game and its rows, or nothing |
| Postgres.GameRepo.FinishGame | repository/postgres/game.go:108-167 | when it commits the rows of the sessions' players hold their results and no other row changes; the end time is written before and may stay alone |
| Postgres.GameRepo.GamePlayers | repository/postgres/queries/game.sql:12-17 | one line per player of the game; fails when some player's words are not an array |
| Postgres.GameRepo.FetchGame | repository/postgres/game.go:169-204 | succeeds exactly when the stored game is fetchable, with the stored metadata, sessions and a sorted board |
| Postgres.FetchableIff | repository/postgres/game.go:280-281 | the stored ranks can be placed if and only if they number the places of the board |
| Archive.StartRecords | repository/postgres/game.go:64-71 | starting a game of registered players leaves an empty row for each of them |
| Archive.SessionSurvives | repository/postgres/game.go:142-163 | a stored session comes back with the same best word, statuses, time, win flag and count, in full for its own player and with the best guess alone for others |
| Archive.RowMeans | repository/postgres/game.go:142-163 | the stored row: all guesses, one that none beats with its time, a time of finishing exactly if the secret was found and then the time of that guess, and the place on the board |
| Archive.RowIsPlayers | repository/postgres/game.go:143-162 | every row of a stored game holds its own player's results and place |
| Archive.StoredIsFetchable | repository/postgres/game.go:169-204 | a stored game of registered players can be fetched by each of them |
| Archive.FinishedGameSurvives | repository/postgres/game.go:250-287 | storing and rebuilding keeps creator, secret, creation and start, every player's result and every scoring entry of the board; the end time only if the game ended when it was created |
| Archive.ShortGameIsFetched | repository/postgres/game.go:108-204 | a concrete one-player game goes through storing and fetching, so the conditions above are met |
| Archive.FetchableIffNotReloaded | repository/redis/game.go:150-154 | results stored into empty rows can be fetched if and only if no session lost its player's id |
| Archive.ReloadedResultsAreLost | repository/redis/game.go:150-154 | the results of a reloaded game cannot be fetched, however it went on |
| HubModel.EventKeepsTimely | service/hub_service.go:59-130 | every event keeps the bound on how long a room can be overdue |
| HubModel.RoomsAreCollected | service/hub_service.go:72-130 | over any run no room stays cached beyond 45 minutes after the later of its insertion and its game's first hour |
| HubModel.SweepTakesOnlyExpired | service/hub_service.go:72-113 | a sweep takes out exactly what is still cached of the rooms whose games were, at the preceding mark, an hour old, or a quarter of an hour and without players |
| HubModel.NothingIsSweptEarly | service/hub_service.go:72-130 | over any run, a room taken out at a tick was cached at the tick before, and its game was then an hour old, or a quarter of an hour and without players |
| HubModel.TicksAreQuarterly | service/hub_service.go:59-60 | ticks come every fifteen minutes and mark and sweep in turn |
| Hub.LocalStorage.SetRoom | service/hub_service.go:46-50 | files the room under its id |
| Hub.LocalStorage.DeleteRoom | service/hub_service.go:53-57 | removes the id alone |
| Hub.LocalStorage.OnTick | service/hub_service.go:115-128 | a tick marks or sweeps, in turn, as the state machine does |
| Hub.LocalStorage.DoMark | service/hub_service.go:72-94 | lists exactly the cached rooms whose games are an hour old, or a quarter of an hour and without players |
| Hub.LocalStorage.DoSweep | service/hub_service.go:96-113 | removes the ids of the listed rooms and closes exactly those rooms, once each; every open room is still the cached one for its id exactly when no open room has taken the place of a listed one |
| ServiceModel.KeptUntilSettled | service/service.go:41-90 | whatever calls fail, over any run a game in the hot store stays there with every logged guess until its results or its wipe are committed |
| ServiceModel.FoundUntilSettled | service/service.go:59-80 | so it is found as long as the hot store can be read |
| ServiceModel.StoredIsOpen | repository/redis/game.go:112-132 | over any run every stored game, and so every loaded one, has started and not ended |
| ServiceModel.HalfStartedIsStuck | service/service.go:41-47 | a game whose start reached the permanent store but not the hot one never gets into the hot store unless it is wiped first |
| ServiceModel.WipedCanStart | service/service.go:41-56 | once its wipe is committed, a game of registered players can be started again if and only if the hot store takes it and does not report it as still there |
| Service.Service.NewRoom | service/service.go:31-38 | caches a fresh room for a new game under its id |
| Service.Service.StartGame | service/service.go:41-47 | the permanent store first, then the hot one; succeeds exactly when both take the game |
| Service.Service.WipeGameData | service/service.go:50-56 | deletes from the hot store only after the wipe was committed |
| Service.Service.FinishGame | service/service.go:83-90 | drops the cached room and the stored game only after the results were committed |
| Service.Service.AddGuess | service/service.go:97-99 | passes the guess to the hot store |
| Service.Service.GetRoom | service/service.go:59-80 | finds a game if and only if it is cached or can be loaded; a cached room is returned as it is, a loaded one is new and cached |
| ServiceModel.OthersStayApart | service/service.go:41-99 | what is done for other games leaves a game's entries alone in both stores |
| Stack.AskedIsStored | game/room.go:247-249 | the call that the room makes for an accepted guess stores what recovery relies on |
| Stack.StepKeepsStack | game/room.go:153-393 | every event with any answers of the service, every crash and every operation for another game keeps room and stores in step; of a closed game that is gone the hot store keeps nothing |
| Stack.RunKeepsStack | game/room.go:153-393 | so does every run, with all progress in the store if all guesses get through |
| Stack.ReloadHolds | game/room.go:135-150 | a room made for a loaded game is active, keeps the room's invariant and has the logged guesses |
| Stack.DeletionLeavesNothing | repository/redis/game.go:97-109 | deleting a game leaves neither metadata nor board nor any player's log of it |
| Stack.LogIsWhatGotThrough | game/room.go:247-249 | over any run, until the game is deleted, the log of a player is exactly the accepted guesses for which the service and the push were up, in order |
| Stack.NothingElseIsLost | service/service.go:59-80 | from a new room on, through failed starts and endings, joins, guesses, lost writes and crashes at any point: whatever can be loaded comes back in an open room with exactly the accepted guesses whose push got through, and with all progress if all did |
| Stack.ClosedIsKeptIff | game/room.go:351-363 | a closed game stays in the hot store if and only if its results or wipe were not committed or its deletion failed |
| Stack.KeptComesBack | game/game.go:133-168 | a closed game that was kept comes back in an open room, and ends exactly if it comes back with somebody still to end and nobody who had lost, once the moves end everyone; with everyone ended it takes no guess |
| Stack.KeptEndRunsForGood | game/game.go:133-168 | if every session had ended and every guess was logged, it takes no guess and never ends |
| Stack.NewStackIsOk | service/service.go:31-38 | a room for a new game under an unused id is where such runs start |
| Lifecycle.StepKeepsUnbroken | game/room.go:153-393 | without crashes every event keeps the counter exact, and an ended game closed, complete and ended for everyone |
| Lifecycle.StepKeepsRecord | repository/postgres/game.go:29-102 | every event, and every operation for another game, keeps the players registered and the running game's rows exactly theirs and empty |
| Lifecycle.RunIsStamped | game/game.go:143 | under an increasing clock no two players' guesses of a room's game share a time |
| Lifecycle.EndIsAGuess | game/room.go:260-263 | only an accepted guess ends a game, and its results are then committed as the finished game's |
| Lifecycle.LifetimeIsCommitted | repository/postgres/game.go:108-167 | such a game is committed in full: ended for everyone, each player's row its own, and, under an increasing clock, with distinct times |
| Lifecycle.PlayedGameIsFetched | repository/postgres/game.go:169-204 | end to end: a game of registered players, from its room's making through start, guesses and commit without a crash, can be fetched by each player and shows its details, every result and, under an increasing clock, every scoring place as they were |

## Left out

- Games.SortSlice: the library sort is modelled by an insertion sort of which only the stated contract is used; no order is claimed for entries that do not score.
- Postgres.GameRepo.FinishGame: atomicity of the end time is not claimed, because the code writes it outside its transaction.
- Postgres.GameRepo.FetchGame: a panic is modelled as an error; of a rank stored twice or outside the board only the panic is modelled.
- Hub.LocalStorage.OnTick: ticks are instantaneous and come exactly every fifteen minutes; a room with a nil game is not modelled, because rooms always have one.
- Recovery.CrashesLoseNoProgress: every AddGuess is taken to succeed; `Survival.SurvivorsGoOn` covers the runs in which some do not.
- Lifecycle.PlayedGameIsFetched: the game is fetched as it was committed; that later operations for other games keep its entries is `ServiceModel.OthersStayApart`.
- Rooms.PlayerConn: reading, pinging and encoding; a write succeeds or fails at will and always fails on a closed connection. Every write and its outcome is entered in a ghost log of the room.
- Messages to the players: what is sent to whom is modelled, but not the texts, the keys, and whether a leaver was kicked out.
- Goroutine races: each turn of the room's loop and each Close from outside is one atomic step, and the answers of the service are part of the event.
- Late joiners: CanJoin runs outside the loop, so a player may be admitted after the start without ever reaching the board; `Stack.LetIn` takes the check and the join as one step, and board results assume all players at the start.
- The heap classes of room and service are linked through their state machines in `Stack`: a heap room records the calls it makes without running them.
- Redis expiry, GetGame, GetGuesses, and Postgres GetGames and toGame: nothing beyond the queries.
- JSON and timestamp encoding: taken as exact; Postgres rounds times to microseconds.
- Words are strings of one-byte letters, as the room admits, so bytes and runes coincide.
- Player passwords and session stamps, HTTP handlers, tokens, invites, configuration, response formatting, the word list and random choice.
- Integer widths: counters, ranks and ids are unbounded; ranks and counts stay below the number of players and guesses.
