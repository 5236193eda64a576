/** A room as a state machine over its events: game/room.go, with clocks and service answers as event data. */
module RoomModel {
  import opened Collections
  import opened Words
  import opened GameModel

  const WORD_LENGTH := 5

  /** What a room asks of its service. */
  datatype Call = StartGame(ok: bool) | AddGuess(player: string, guess: Word, isBest: bool) | FinishGame | WipeGameData

  datatype RoomState = RoomState(active: bool, closed: bool, game: GameState, calls: seq<Call>)

  /** One turn of the room's loop, or a Close from outside it. */
  datatype RoomEvent =
    | Start(from: string, now: int, ok: bool)
    | Play(from: string, text: Option<string>, english: bool, now: int, later: int)
    | Join(player: Player)
    | Other
    | Close

  predicate IsLetter(c: char) { 'a' <= c <= 'z' || 'A' <= c <= 'Z' }

  predicate IsGuess(text: Option<string>, english: bool) {
    text.Some? && |text.value| == WORD_LENGTH && (forall i :: 0 <= i < |text.value| ==> IsLetter(text.value[i])) && english
  }

  /** The checks a guess passes before it is played. */
  predicate Accepts(s: RoomState, from: string, text: Option<string>, english: bool) {
    && s.active
    && from in s.game.sessions
    && !s.game.sessions[from].Won() && s.game.sessions[from].CanPlay()
    && IsGuess(text, english)
  }

  datatype Refusal =
    | NotActive | NoSession | AlreadyWon | NoGuessesLeft | NotText | WrongLength | WrongCharacters | NotEnglish

  /** How a guess is refused: later reasons count only when the earlier ones do not apply. */
  predicate IsRefusal(s: RoomState, from: string, text: Option<string>, english: bool, reason: Refusal) {
    match reason
    case NotActive => !s.active
    case NoSession => s.active && from !in s.game.sessions
    case AlreadyWon => s.active && from in s.game.sessions && s.game.sessions[from].Won()
    case NoGuessesLeft => Entitled(s, from) && !s.game.sessions[from].CanPlay()
    case NotText => MayGuess(s, from) && text.None?
    case WrongLength => MayGuess(s, from) && text.Some? && |text.value| != WORD_LENGTH
    case WrongCharacters => MayGuess(s, from) && HasLength(text) && !AllLetters(text.value)
    case NotEnglish => MayGuess(s, from) && HasLength(text) && AllLetters(text.value) && !english
  }

  predicate Entitled(s: RoomState, from: string) { s.active && from in s.game.sessions && !s.game.sessions[from].Won() }

  predicate MayGuess(s: RoomState, from: string) { Entitled(s, from) && s.game.sessions[from].CanPlay() }

  predicate HasLength(text: Option<string>) { text.Some? && |text.value| == WORD_LENGTH }

  predicate AllLetters(text: string) { forall i :: 0 <= i < |text| ==> IsLetter(text[i]) }

  /** A guess that fails no check is accepted; any other is refused for exactly one reason. */
  lemma RefusedForOneReason(s: RoomState, from: string, text: Option<string>, english: bool)
    ensures Accepts(s, from, text, english) <==> forall reason :: !IsRefusal(s, from, text, english, reason)
    ensures forall a, b :: IsRefusal(s, from, text, english, a) && IsRefusal(s, from, text, english, b) ==> a == b
  {
    if forall reason :: !IsRefusal(s, from, text, english, reason) {
      assert !IsRefusal(s, from, text, english, NotActive) && !IsRefusal(s, from, text, english, NoSession);
      assert !IsRefusal(s, from, text, english, AlreadyWon) && !IsRefusal(s, from, text, english, NoGuessesLeft);
      assert !IsRefusal(s, from, text, english, NotText) && !IsRefusal(s, from, text, english, WrongLength);
      assert !IsRefusal(s, from, text, english, WrongCharacters) && !IsRefusal(s, from, text, english, NotEnglish);
    }
  }

  /** In terms of the guesses made: who plays an active room has made fewer than six, none of them the secret, and types
      five ASCII letters that make an English word. */
  lemma AcceptsIff(s: RoomState, from: string, text: Option<string>, english: bool)
    requires RoomOk(s)
    ensures Accepts(s, from, text, english) <==>
      && s.active && from in s.game.sessions
      && |s.game.sessions[from].guesses| < 6
      && (forall i :: 0 <= i < |s.game.sessions[from].guesses| ==>
            s.game.sessions[from].guesses[i].word != s.game.secret.word)
      && text.Some? && |text.value| == 5 && english
      && forall i :: 0 <= i < 5 ==> IsLower(text.value[i]) || IsUpper(text.value[i])
  {
    if from in s.game.sessions { WonIff(from, s.game.sessions[from], s.game.secret); }
  }

  /** Whoever has found the secret is told so, whatever they type and however many guesses they made; whoever has made six
      guesses without finding it is told that none is left. */
  lemma EndedIsToldWhy(s: RoomState, from: string, text: Option<string>, english: bool, reason: Refusal)
    requires RoomOk(s) && s.active && from in s.game.sessions && IsRefusal(s, from, text, english, reason)
    ensures var guesses := s.game.sessions[from].guesses;
      && (reason == AlreadyWon <==> exists i :: 0 <= i < |guesses| && guesses[i].word == s.game.secret.word)
      && (reason == NoGuessesLeft <==>
            |guesses| == 6 && forall i :: 0 <= i < |guesses| ==> guesses[i].word != s.game.secret.word)
  {
    assert SessionOk(from, s.game.sessions[from], s.game.secret);
    WonIff(from, s.game.sessions[from], s.game.secret);
  }

  /** Whoever types the secret, in whatever case, has typed a guess that passes. */
  lemma TypedSecretPasses(s: RoomState, from: string, typed: string, chosen: string)
    requires MayGuess(s, from) && HasLength(Some(chosen)) && AllLetters(chosen) && SameUpToCase(typed, chosen)
    ensures Accepts(s, from, Some(typed), true)
  {
    forall i | 0 <= i < |typed| ensures IsLetter(typed[i]) {
      assert SameLetter(typed[i], chosen[i]);
    }
  }

  /** An accepted guess wins exactly when its text is the one the secret was made from, up to case. */
  lemma WinsIff(s: RoomState, from: string, text: string, english: bool, now: int, later: int, chosen: string)
    requires RoomOk(s) && Accepts(s, from, Some(text), english) && now > 0 && s.game.secret == NewWord(chosen)
    ensures var r := s.game.Play(from, NewWord(text), now, later);
      && r.err.None? && from in r.game.sessions
      && (r.game.sessions[from].Won() <==> SameUpToCase(text, chosen))
      && (r.guess.IsCorrect() <==> SameUpToCase(text, chosen))
  {
    var r := s.game.Play(from, NewWord(text), now, later);
    AcceptedIsPlayed(s, from, Some(text), english, now, later);
    PlayKeepsGame(s.game, from, text, now, later);
    OutcomeOf(s.game, Move(from, text, now, later));
    FreshGuessIsRecorded(s.game, text, now);
    RecordedIsCorrectIff(r.guess, s.game.secret);
    SameWordIff(text, chosen);
    LastGuessDecides(from, s.game.sessions[from], r.guess, s.game.secret);
  }

  /** A session that has not won wins with a guess exactly when that is the secret. */
  lemma LastGuessDecides(u: string, session: SessionState, w: Word, secret: Word)
    requires SessionOk(u, session, secret) && secret.word != "" && !session.Ended() && IsRecorded(w, secret)
    ensures session.Play(w).Won() <==> w.word == secret.word
  {
    PlayKeepsSession(u, session, w, secret);
    WonIff(u, session, secret);
    WonIff(u, session.Play(w), secret);
    var all := session.Play(w).guesses;
    assert all[|all| - 1] == w;
  }

  function NewRoom(g: GameState): RoomState {
    RoomState(g.startedAt.Some? && g.endedAt.None?, g.endedAt.Some?, g, [])
  }

  /** Closing stores the results of an ended game and wipes a started one that has not ended. */
  function Closed(s: RoomState): RoomState {
    if s.closed then s
    else s.(closed := true, active := false,
            calls := s.calls + if s.game.startedAt.None? then []
                               else if s.game.endedAt.Some? then [FinishGame] else [WipeGameData])
  }

  /** The room after an accepted guess. */
  function AfterGuess(s: RoomState, from: string, text: string, now: int, later: int): RoomState
    requires s.game.BoardHasSessions()
  {
    var r := s.game.Play(from, NewWord(text), now, later);
    if r.err.Some? then s
    else
      var t := s.(game := r.game, calls := s.calls + [AddGuess(from, r.guess, r.isBest)]);
      if r.game.endedAt.Some? then Closed(t) else t
  }

  /** The room after a player has come in: a session is made for a new name only. */
  function Entered(s: RoomState, p: Player): RoomState {
    if p.username in s.game.sessions then s else s.(game := s.game.Join(p))
  }

  /** How the room's state changes with an event; only the order of a new board is open. */
  predicate Step(s: RoomState, e: RoomEvent, t: RoomState) {
    s.game.BoardHasSessions()
    && match e
       case Start(from, now, ok) =>
         if from != s.game.creator || s.active then t == s
         else
           && IsOrdering(t.game.ranks, s.game.sessions.Keys)
           && t == s.(active := ok, game := s.game.Start(now, t.game.ranks), calls := s.calls + [StartGame(ok)])
       case Play(from, text, english, now, later) =>
         t == if Accepts(s, from, text, english) then AfterGuess(s, from, text.value, now, later) else s
       case Join(p) => t == Entered(s, p)
       case Other => t == s
       case Close => t == Closed(s)
  }

  /** The loop stops with the room: afterwards only Close can come. */
  predicate Possible(s: RoomState, e: RoomEvent) {
    (s.closed ==> e.Close?) && (e.Play? ==> e.now > 0)
  }

  predicate IsRoomRun(states: seq<RoomState>, events: seq<RoomEvent>) {
    && |states| == |events| + 1
    && forall i :: 0 <= i < |events| ==> Possible(states[i], events[i]) && Step(states[i], events[i], states[i + 1])
  }

  /** What every room keeps. */
  predicate RoomOk(s: RoomState) {
    && GameOk(s.game)
    && (s.closed ==> !s.active)
    && (s.active ==> s.game.startedAt.Some? && s.game.endedAt.None?)
    && (!s.active && !s.closed ==> NobodyPlayed(s.game) && s.game.endedAt.None?)
    && Endings(s.calls) == (if s.closed && s.game.startedAt.Some? then 1 else 0)
    && (forall c :: c in s.calls && c.FinishGame? ==> s.closed && s.game.endedAt.Some?)
    && (forall c :: c in s.calls && c.WipeGameData? ==> s.closed && s.game.startedAt.Some? && s.game.endedAt.None?)
  }

  /** A room is made for a new game, or for one reloaded before it ended. */
  predicate Hosts(g: GameState) {
    GameOk(g) && g.endedAt.None? && (g.startedAt.None? ==> NobodyPlayed(g))
  }

  predicate IsEnding(c: Call) { c.FinishGame? || c.WipeGameData? }

  /** How many calls end the game's life in the stores. */
  function Endings(calls: seq<Call>): nat {
    if calls == [] then 0 else Endings(calls[..|calls| - 1]) + if IsEnding(calls[|calls| - 1]) then 1 else 0
  }

  lemma NewRoomIsOk(g: GameState)
    requires Hosts(g)
    ensures RoomOk(NewRoom(g))
  {
  }

  lemma OneMoreCall(calls: seq<Call>, c: Call)
    ensures Endings(calls + [c]) == Endings(calls) + if IsEnding(c) then 1 else 0
    ensures forall d :: d in calls + [c] <==> d in calls || d == c
  {
    assert (calls + [c])[..|calls|] == calls;
  }

  lemma ClosedIsOk(s: RoomState)
    requires GameOk(s.game) && Endings(s.calls) == 0 && !s.closed
    requires forall c :: c in s.calls ==> !IsEnding(c)
    ensures RoomOk(Closed(s))
  {
    OneMoreCall(s.calls, FinishGame);
    OneMoreCall(s.calls, WipeGameData);
    assert s.calls + [] == s.calls;
  }

  lemma NoEndingYet(s: RoomState)
    requires RoomOk(s) && !s.closed
    ensures Endings(s.calls) == 0 && forall c :: c in s.calls ==> !IsEnding(c)
  {
  }

  /** The room's checks leave Play no reason to refuse. */
  lemma AcceptedIsPlayed(s: RoomState, from: string, text: Option<string>, english: bool, now: int, later: int)
    requires s.game.BoardHasSessions() && Accepts(s, from, text, english)
    ensures s.game.Play(from, NewWord(text.value), now, later).err.None?
  {
  }

  lemma StepKeepsRoom(s: RoomState, e: RoomEvent, t: RoomState)
    requires RoomOk(s) && Possible(s, e) && Step(s, e, t)
    ensures RoomOk(t)
  {
    match e
    case Start(from, now, ok) =>
      if t != s {
        StartKeepsGame(s.game, now, t.game.ranks);
        OneMoreCall(s.calls, StartGame(ok));
      }
    case Play(from, text, english, now, later) =>
      if Accepts(s, from, text, english) { PlayedIsOk(s, from, text.value, now, later); }
    case Join(p) =>
      if p.username !in s.game.sessions { JoinKeepsGame(s.game, p); }
    case Other =>
    case Close =>
      if !s.closed { NoEndingYet(s); ClosedIsOk(s); }
  }

  lemma PlayedIsOk(s: RoomState, from: string, text: string, now: int, later: int)
    requires RoomOk(s) && s.active && now > 0
    ensures RoomOk(AfterGuess(s, from, text, now, later))
  {
    var r := s.game.Play(from, NewWord(text), now, later);
    PlayKeepsGame(s.game, from, text, now, later);
    MoveExtends(s.game, Move(from, text, now, later));
    if r.err.None? {
      var t := s.(game := r.game, calls := s.calls + [AddGuess(from, r.guess, r.isBest)]);
      OneMoreCall(s.calls, AddGuess(from, r.guess, r.isBest));
      NoEndingYet(s);
      if r.game.endedAt.Some? { ClosedIsOk(t); }
    }
  }

  /** Over any run from a new or reloaded unended game the room is well formed: closed rooms are inactive, active ones
      host a started unended game, and at most one call ended the game's life, the right one for its state. */
  lemma {:induction false} EveryReachableRoom(states: seq<RoomState>, events: seq<RoomEvent>, g: GameState)
    requires IsRoomRun(states, events) && Hosts(g) && states[0] == NewRoom(g)
    ensures RoomOk(states[|events|]) && Endings(states[|events|].calls) <= 1
    decreases |events|
  {
    if events != [] {
      var n := |events| - 1;
      EveryReachableRoom(states[..n + 1], events[..n], g);
      StepKeepsRoom(states[n], events[n], states[n + 1]);
    } else {
      NewRoomIsOk(g);
    }
  }

  /** A closed room never changes again. */
  lemma {:induction false} ClosedForGood(states: seq<RoomState>, events: seq<RoomEvent>, i: nat, j: nat)
    requires IsRoomRun(states, events) && i <= j < |states| && states[i].closed
    ensures states[j] == states[i]
  {
    if i < j {
      ClosedForGood(states, events, i, j - 1);
      assert Possible(states[j - 1], events[j - 1]) && Step(states[j - 1], events[j - 1], states[j]);
    }
  }

  // ---------- how much can be played ----------

  function Guesses(s: RoomState, u: string): nat {
    if u in s.game.sessions then |s.game.sessions[u].guesses| else 0
  }

  /** How many guesses of `u` the room has passed on. */
  function AcceptedFrom(calls: seq<Call>, u: string): nat {
    if calls == [] then 0
    else
      var c := calls[|calls| - 1];
      AcceptedFrom(calls[..|calls| - 1], u) + if c.AddGuess? && c.player == u then 1 else 0
  }

  lemma OneMoreAccepted(calls: seq<Call>, c: Call, u: string)
    ensures AcceptedFrom(calls + [c], u) == AcceptedFrom(calls, u) + if c.AddGuess? && c.player == u then 1 else 0
  {
    assert (calls + [c])[..|calls|] == calls;
  }

  lemma ClosingAcceptsNothing(s: RoomState, u: string)
    ensures Guesses(Closed(s), u) == Guesses(s, u) && AcceptedFrom(Closed(s).calls, u) == AcceptedFrom(s.calls, u)
  {
    if !s.closed && s.game.startedAt.Some? {
      OneMoreAccepted(s.calls, if s.game.endedAt.Some? then FinishGame else WipeGameData, u);
    } else {
      assert s.calls + [] == s.calls;
    }
  }

  /** An accepted move adds one guess, to its player's session. */
  lemma MoveAddsAGuess(s: RoomState, m: Move, u: string)
    requires s.game.BoardHasSessions()
    ensures var r := s.game.Play(m.player, NewWord(m.text), m.at, m.end);
      r.err.None? ==> Guesses(s.(game := r.game), u) == Guesses(s, u) + if u == m.player then 1 else 0
  {
    OutcomeOf(s.game, m);
  }

  lemma PlayedCountsGuesses(s: RoomState, from: string, text: string, now: int, later: int, u: string)
    requires s.game.BoardHasSessions()
    ensures var t := AfterGuess(s, from, text, now, later);
      Guesses(t, u) - Guesses(s, u) == AcceptedFrom(t.calls, u) - AcceptedFrom(s.calls, u)
  {
    MoveAddsAGuess(s, Move(from, text, now, later), u);
    var r := s.game.Play(from, NewWord(text), now, later);
    if r.err.None? {
      var added := AddGuess(from, r.guess, r.isBest);
      OneMoreAccepted(s.calls, added, u);
      ClosingAcceptsNothing(s.(game := r.game, calls := s.calls + [added]), u);
    }
  }

  lemma StepCountsGuesses(s: RoomState, e: RoomEvent, t: RoomState, u: string)
    requires Step(s, e, t)
    ensures Guesses(t, u) - Guesses(s, u) == AcceptedFrom(t.calls, u) - AcceptedFrom(s.calls, u)
  {
    match e
    case Start(_, _, ok) => OneMoreAccepted(s.calls, StartGame(ok), u);
    case Play(from, text, english, now, later) =>
      if Accepts(s, from, text, english) { PlayedCountsGuesses(s, from, text.value, now, later, u); }
    case Close => ClosingAcceptsNothing(s, u);
    case _ =>
  }

  /** Whoever leaves, is kicked out or rejoins: a session only ever grows by accepted guesses, and a run accepts
      no more of a player than the guesses they had left. */
  lemma {:induction false} AtMostSixGuesses(states: seq<RoomState>, events: seq<RoomEvent>, g: GameState, u: string)
    requires IsRoomRun(states, events) && Hosts(g) && states[0] == NewRoom(g)
    ensures Guesses(states[|events|], u) == Guesses(states[0], u) + AcceptedFrom(states[|events|].calls, u)
    ensures AcceptedFrom(states[|events|].calls, u) <= 6 - Guesses(states[0], u)
    decreases |events|
  {
    EveryReachableRoom(states, events, g);
    if events != [] {
      var n := |events| - 1;
      AtMostSixGuesses(states[..n + 1], events[..n], g, u);
      StepCountsGuesses(states[n], events[n], states[n + 1], u);
    }
  }

  /** Only words of five upper-case letters are recorded. */
  predicate FiveLetters(g: GameState) {
    forall u :: u in g.sessions ==> forall w :: w in g.sessions[u].guesses ==> IsFiveLetters(w.word)
  }

  predicate IsFiveLetters(word: string) { |word| == 5 && forall i :: 0 <= i < 5 ==> IsUpper(word[i]) }

  lemma {:induction false} EveryGuessHasFiveLetters(states: seq<RoomState>, events: seq<RoomEvent>)
    requires IsRoomRun(states, events) && FiveLetters(states[0].game)
    ensures FiveLetters(states[|events|].game)
    decreases |events|
  {
    if events != [] {
      var n := |events| - 1;
      EveryGuessHasFiveLetters(states[..n + 1], events[..n]);
      StepKeepsFiveLetters(states[n], events[n], states[n + 1]);
    }
  }

  lemma MoveKeepsFiveLetters(g: GameState, m: Move)
    requires g.BoardHasSessions() && FiveLetters(g) && |m.text| == WORD_LENGTH && AllLetters(m.text)
    ensures FiveLetters(PlayMove(g, m))
  {
    OutcomeOf(g, m);
    WordIsUpper(m.text);
    assert IsFiveLetters(NewWord(m.text).word);
    assert g.Recorded(NewWord(m.text), m.at).word == NewWord(m.text).word;
  }

  lemma StepKeepsFiveLetters(s: RoomState, e: RoomEvent, t: RoomState)
    requires Step(s, e, t) && FiveLetters(s.game)
    ensures FiveLetters(t.game)
  {
    match e
    case Play(from, text, english, now, later) =>
      if Accepts(s, from, text, english) {
        MoveKeepsFiveLetters(s.game, Move(from, text.value, now, later));
      }
    case _ =>
  }

  // ---------- who starts ----------

  /** A room becomes active exactly when its creator starts it and the service stores the game. */
  lemma BecomesActiveIff(s: RoomState, e: RoomEvent, t: RoomState)
    requires Step(s, e, t)
    ensures t.game.creator == s.game.creator && t.game.secret == s.game.secret && t.game.createdAt == s.game.createdAt
    ensures !s.active && t.active <==> !s.active && e.Start? && e.from == s.game.creator && e.ok
    ensures t.game.startedAt ==
      if e.Start? && e.from == s.game.creator && !s.active then Some(e.now) else s.game.startedAt
  {
    match e
    case Play(from, text, english, now, later) =>
      if Accepts(s, from, text, english) { MoveExtends(s.game, Move(from, text.value, now, later)); }
    case _ =>
  }

  /** Over any run of a new room the game has started exactly when its creator has tried to start it. */
  lemma StartedByCreatorIff(states: seq<RoomState>, events: seq<RoomEvent>, n: nat)
    requires IsRoomRun(states, events) && n <= |events| && states[0].game.startedAt.None? && RoomOk(states[0])
    ensures states[n].game.startedAt.Some? <==>
      exists i :: 0 <= i < n && events[i].Start? && events[i].from == states[0].game.creator
  {
    forall i | 0 <= i < |events| && StartIsCreators(states, events, i) ensures StartIsCreators(states, events, i + 1) {
      StepKeepsStart(states, events, i);
    }
    StartIsCreatorsToTheEnd(states, events, n);
  }

  predicate StartIsCreators(states: seq<RoomState>, events: seq<RoomEvent>, n: nat)
    requires n <= |events| < |states|
  {
    && RoomOk(states[n]) && states[n].game.creator == states[0].game.creator
    && (states[n].game.startedAt.Some? <==>
          exists i :: 0 <= i < n && events[i].Start? && events[i].from == states[0].game.creator)
  }

  lemma StepKeepsStart(states: seq<RoomState>, events: seq<RoomEvent>, n: nat)
    requires IsRoomRun(states, events) && n < |events| && StartIsCreators(states, events, n)
    ensures StartIsCreators(states, events, n + 1)
  {
    BecomesActiveIff(states[n], events[n], states[n + 1]);
    StepKeepsRoom(states[n], events[n], states[n + 1]);
  }

  lemma {:induction false} StartIsCreatorsToTheEnd(states: seq<RoomState>, events: seq<RoomEvent>, n: nat)
    requires n <= |events| < |states| && StartIsCreators(states, events, 0)
    requires forall i :: 0 <= i < |events| && StartIsCreators(states, events, i) ==> StartIsCreators(states, events, i + 1)
    ensures StartIsCreators(states, events, n)
  {
    if n > 0 {
      StartIsCreatorsToTheEnd(states, events, n - 1);
      assert StartIsCreators(states, events, n - 1);
    }
  }

  // ---------- sessions stay ----------

  /** Everyone who has a session keeps it, with all guesses in their order. */
  predicate SessionsGrow(s: GameState, t: GameState) {
    forall u :: u in s.sessions ==> u in t.sessions && s.sessions[u].guesses <= t.sessions[u].guesses
                                    && s.sessions[u].player == t.sessions[u].player
  }

  lemma StepKeepsSessions(s: RoomState, e: RoomEvent, t: RoomState)
    requires Step(s, e, t)
    ensures SessionsGrow(s.game, t.game)
    ensures e.Join? ==> e.player.username in t.game.sessions
    ensures e.Join? && e.player.username !in s.game.sessions ==>
      t.game.sessions == s.game.sessions[e.player.username := SessionState(e.player, [], None, 0)]
    ensures !e.Join? ==> t.game.sessions.Keys == s.game.sessions.Keys
  {
    match e
    case Play(from, text, english, now, later) =>
      if Accepts(s, from, text, english) {
        MoveExtends(s.game, Move(from, text.value, now, later));
      }
    case _ =>
  }

  lemma GrowTwice(a: GameState, b: GameState, c: GameState)
    requires SessionsGrow(a, b) && SessionsGrow(b, c)
    ensures SessionsGrow(a, c)
  {
  }

  lemma {:induction false} GrowToTheEnd(states: seq<RoomState>, i: nat, j: nat)
    requires i <= j < |states| && forall k :: i <= k < j ==> SessionsGrow(states[k].game, states[k + 1].game)
    ensures SessionsGrow(states[i].game, states[j].game)
  {
    if i < j {
      GrowToTheEnd(states, i, j - 1);
      assert SessionsGrow(states[j - 1].game, states[j - 1 + 1].game);
      GrowTwice(states[i].game, states[j - 1].game, states[j].game);
    }
  }

  lemma RunKeepsSessions(states: seq<RoomState>, events: seq<RoomEvent>, i: nat, j: nat)
    requires IsRoomRun(states, events) && i <= j < |states|
    ensures SessionsGrow(states[i].game, states[j].game)
  {
    forall k | i <= k < j ensures SessionsGrow(states[k].game, states[k + 1].game) {
      StepKeepsSessions(states[k], events[k], states[k + 1]);
    }
    GrowToTheEnd(states, i, j);
  }

  /** Over any run exactly those who have joined, or were there at first, have a session. */
  lemma {:induction false} SessionsAreJoins(states: seq<RoomState>, events: seq<RoomEvent>, n: nat, u: string)
    requires IsRoomRun(states, events) && n <= |events|
    ensures u in states[n].game.sessions <==>
      u in states[0].game.sessions || exists i :: 0 <= i < n && events[i].Join? && events[i].player.username == u
  {
    if n > 0 {
      SessionsAreJoins(states, events, n - 1, u);
      StepKeepsSessions(states[n - 1], events[n - 1], states[n]);
    }
  }
}
