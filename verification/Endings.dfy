/** How and when a reloaded game ends: the counter and Play of game/game.go after a reload from the hot store. */
module Endings {
  import opened Collections
  import opened Words
  import opened Scoring
  import opened GameModel
  import opened Redis
  import opened Recovery

  // ---------- the counter ----------

  /** Sessions that used up their guesses without winning. */
  function Losers(g: GameState): set<string> { g.EndedPlayers() - g.Winners() }

  lemma WinnersHaveEnded(g: GameState)
    ensures |g.EndedPlayers()| == |g.Winners()| + |Losers(g)|
  {
    assert g.EndedPlayers() == g.Winners() + Losers(g);
  }

  /** Whoever has won after a reload had won before. */
  lemma WinsAreKept(g: GameState, s: Store, r: GameState, u: string)
    requires GameOk(g) && Backed(g, s) && Loads(s, g.id, r) && u in g.sessions
    ensures u in r.sessions && (r.sessions[u].Won() ==> g.sessions[u].Won())
  {
    LoadedIsBacked(g, s, r);
    WonIff(u, g.sessions[u], g.secret);
    WonIff(u, r.sessions[u], r.secret);
    LossyPart(r.sessions[u].guesses, g.sessions[u].guesses);
    if r.sessions[u].Won() {
      var i :| 0 <= i < |r.sessions[u].guesses| && r.sessions[u].guesses[i].word == g.secret.word;
      assert r.sessions[u].guesses[i] in g.sessions[u].guesses;
    }
  }

  lemma WinnersAreKept(g: GameState, s: Store, r: GameState)
    requires GameOk(g) && Backed(g, s) && Loads(s, g.id, r)
    ensures r.Winners() <= g.Winners()
  {
    LoadedIsBacked(g, s, r);
    forall u | u in r.Winners() ensures u in g.Winners() { WinsAreKept(g, s, r, u); }
  }

  lemma PartsAddUp(part: set<string>, all: set<string>)
    requires part <= all
    ensures |all| == |part| + |all - part|
  {
    assert all == part + (all - part);
  }

  /** Reloading counts the winners it finds and nobody else: the losers, and those whose winning guess was not logged,
      are no longer counted. */
  lemma ReloadCounts(g: GameState, s: Store, r: GameState)
    requires GameOk(g) && Backed(g, s) && Loads(s, g.id, r)
    ensures Uncounted(r) == |Losers(r)|
    ensures Uncounted(g) == 0 ==> r.finished == g.finished - |Losers(g)| - |g.Winners() - r.Winners()|
  {
    WinnersAreKept(g, s, r);
    PartsAddUp(r.Winners(), g.Winners());
    WinnersHaveEnded(g);
    WinnersHaveEnded(r);
  }

  // ---------- when it ends ----------

  /** A reloaded game ever ends exactly when it comes back with somebody still to end and nobody who had lost, and then
      with the move that ends the last session. */
  lemma ReloadedGameEndsWhen(g: GameState, s: Store, r: GameState, moves: seq<Move>)
    requires GameOk(g) && Backed(g, s) && Loads(s, g.id, r) && forall m :: m in moves ==> m.at > 0
    ensures GameOk(r)
    ensures PlayAll(r, moves).endedAt.Some? <==>
      r.EndedPlayers() != r.sessions.Keys && Losers(r) == {} && PlayAll(r, moves).EndedPlayers() == r.sessions.Keys
  {
    LoadedIsBacked(g, s, r);
    ReloadCounts(g, s, r);
    if r.EndedPlayers() == r.sessions.Keys {
      AllEndedIsFinal(r, moves);
    } else {
      EndsWithTheLastSession(r, moves);
    }
  }

  /** Every player has won in both games, or has made the same guesses in both. */
  predicate Alike(a: GameState, b: GameState) {
    && a.secret == b.secret && a.sessions.Keys == b.sessions.Keys
    && forall u :: u in a.sessions ==>
         (a.sessions[u].Won() && b.sessions[u].Won()) || a.sessions[u].guesses == b.sessions[u].guesses
  }

  lemma AlikeEnded(a: GameState, b: GameState)
    requires GameOk(a) && GameOk(b) && Alike(a, b)
    ensures a.EndedPlayers() == b.EndedPlayers()
  {
    forall u | u in a.sessions ensures a.sessions[u].Ended() == b.sessions[u].Ended() {
      assert SessionOk(u, a.sessions[u], a.secret) && SessionOk(u, b.sessions[u], b.secret);
    }
  }

  lemma AlikeMove(a: GameState, b: GameState, m: Move)
    requires GameOk(a) && GameOk(b) && Alike(a, b)
    ensures Alike(PlayMove(a, m), PlayMove(b, m))
  {
    AlikeEnded(a, b);
    OutcomeOf(a, m);
    OutcomeOf(b, m);
    MoveExtends(a, m);
    MoveExtends(b, m);
    if m.player in a.sessions { assert m.player in a.EndedPlayers() <==> m.player in b.EndedPlayers(); }
  }

  lemma {:induction false} AlikeAfter(a: GameState, b: GameState, moves: seq<Move>)
    requires GameOk(a) && GameOk(b) && Alike(a, b) && forall m :: m in moves ==> m.at > 0
    ensures Alike(PlayAll(a, moves), PlayAll(b, moves))
    decreases |moves|
  {
    if moves != [] {
      var last := |moves| - 1;
      AlikeAfter(a, b, moves[..last]);
      AlikeMove(PlayAll(a, moves[..last]), PlayAll(b, moves[..last]), moves[last]);
    }
  }

  /** So a reload that lost no guess but those of winners ends on the same moves as the unbroken game exactly when
      somebody had still to end and nobody had lost. */
  lemma ReloadedGameEnds(g: GameState, s: Store, r: GameState, moves: seq<Move>)
    requires GameOk(g) && Backed(g, s) && Loads(s, g.id, r) && Alike(g, r) && forall m :: m in moves ==> m.at > 0
    requires Uncounted(g) == 0 && (g.EndedPlayers() != g.sessions.Keys ==> g.endedAt.None?)
    ensures GameOk(r)
    ensures PlayAll(r, moves).endedAt.Some? <==>
      g.EndedPlayers() != g.sessions.Keys && Losers(r) == {} && PlayAll(g, moves).endedAt.Some?
  {
    ReloadedGameEndsWhen(g, s, r, moves);
    AlikeEnded(g, r);
    if g.EndedPlayers() != g.sessions.Keys {
      EndsWithTheLastSession(g, moves);
      AlikeAfter(g, r, moves);
      AlikeEnded(PlayAll(g, moves), PlayAll(r, moves));
    }
  }

  // ---------- wearing players out ----------

  /** A certainly wrong guess, as it is recorded. */
  function Wrong(secret: Word): Word { Checked(Word("", NullTime(1, true), []), secret) }

  /** A session after `k` wrong guesses, those after its end refused. */
  function Wearied(s: SessionState, w: Word, k: nat): SessionState {
    if k == 0 then s
    else
      var t := Wearied(s, w, k - 1);
      if t.Ended() then t else t.Play(w)
  }

  /** A winner stays as they are, anyone else has that many more guesses, six at most. */
  predicate Wearies(s: SessionState, t: SessionState, k: nat) {
    if s.Won() then t == s
    else !t.Won() && |t.guesses| == if |s.guesses| + k < MAX_GUESSES then |s.guesses| + k else MAX_GUESSES
  }

  lemma WrongIsWrong(u: string, s: SessionState, secret: Word)
    requires SessionOk(u, s, secret) && secret.word != "" && !s.Ended()
    ensures SessionOk(u, s.Play(Wrong(secret)), secret) && !s.Play(Wrong(secret)).Won()
  {
    PlayKeepsSession(u, s, Wrong(secret), secret);
    WonIff(u, s, secret);
    WonIff(u, s.Play(Wrong(secret)), secret);
  }

  /** After `k` wrong guesses the session is well formed, and worn as far as that goes. */
  predicate WearsOut(u: string, s: SessionState, secret: Word, k: nat) {
    var t := Wearied(s, Wrong(secret), k);
    SessionOk(u, t, secret) && Wearies(s, t, k)
  }

  lemma WearyingOnce(u: string, s: SessionState, secret: Word, k: nat)
    requires WearsOut(u, s, secret, k) && secret.word != ""
    ensures WearsOut(u, s, secret, k + 1)
  {
    var t := Wearied(s, Wrong(secret), k);
    if !t.Ended() { WrongIsWrong(u, t, secret); }
  }

  lemma {:induction false} WearyingEnds(u: string, s: SessionState, secret: Word, k: nat)
    requires WearsOut(u, s, secret, 0) && secret.word != ""
    ensures WearsOut(u, s, secret, k)
  {
    if k > 0 {
      WearyingEnds(u, s, secret, k - 1);
      WearyingOnce(u, s, secret, k - 1);
    }
  }

  /** `k` guesses of `u` that are certainly wrong. */
  function Pass(u: string, k: nat): (moves: seq<Move>)
    ensures OnTime(moves)
  {
    if k == 0 then [] else Pass(u, k - 1) + [Move(u, "", 1, 1)]
  }

  lemma {:induction false} PassSome(s: map<string, SessionState>, secret: Word, u: string, k: nat)
    requires u in s
    ensures PlayOnAll(s, secret, Pass(u, k)) == s[u := Wearied(s[u], Wrong(secret), k)]
  {
    if k > 0 {
      PassSome(s, secret, u, k - 1);
      PlayOnTwice(s, secret, Pass(u, k - 1), [Move(u, "", 1, 1)]);
    }
  }

  function Passes(v: string, u: string, k: nat): nat { if v == u then k else MAX_GUESSES }

  /** Six wrong guesses of each listed player, but only `k` of `u`. */
  function PassAll(names: seq<string>, u: string, k: nat): (moves: seq<Move>)
    ensures OnTime(moves)
  {
    if names == [] then []
    else
      var rest, v := names[..|names| - 1], names[|names| - 1];
      PassAll(rest, u, k) + Pass(v, Passes(v, u, k))
  }

  /** The sessions after those guesses. */
  function Worn(s: map<string, SessionState>, secret: Word, names: seq<string>, u: string, k: nat)
    : map<string, SessionState>
  {
    map v | v in s :: if v in names then Wearied(s[v], Wrong(secret), Passes(v, u, k)) else s[v]
  }

  lemma WornMore(s: map<string, SessionState>, secret: Word, names: seq<string>, v: string, u: string, k: nat)
    requires v in s && v !in names
    ensures Worn(s, secret, names, u, k)[v := Wearied(s[v], Wrong(secret), Passes(v, u, k))]
         == Worn(s, secret, names + [v], u, k)
  {
  }

  lemma {:induction false} AllPass(s: map<string, SessionState>, secret: Word, names: seq<string>, u: string, k: nat)
    requires NoDuplicates(names) && forall i :: 0 <= i < |names| ==> names[i] in s
    ensures PlayOnAll(s, secret, PassAll(names, u, k)) == Worn(s, secret, names, u, k)
    decreases |names|
  {
    if names == [] {
      assert Worn(s, secret, names, u, k) == s;
    } else {
      var rest, v := names[..|names| - 1], names[|names| - 1];
      assert names == rest + [v] && v !in rest;
      AllPass(s, secret, rest, u, k);
      PlayOnTwice(s, secret, PassAll(rest, u, k), Pass(v, Passes(v, u, k)));
      PassSome(Worn(s, secret, rest, u, k), secret, v, Passes(v, u, k));
      WornMore(s, secret, rest, v, u, k);
    }
  }

  lemma WornIsReached(g: GameState, names: seq<string>, u: string, k: nat)
    requires GameOk(g) && IsOrdering(names, g.sessions.Keys)
    ensures PlayAll(g, PassAll(names, u, k)).sessions == Worn(g.sessions, g.secret, names, u, k)
  {
    forall i | 0 <= i < |names| ensures names[i] in g.sessions { assert names[i] in Elements(names); }
    AllPass(g.sessions, g.secret, names, u, k);
    SessionsFollow(g, PassAll(names, u, k));
  }

  lemma WornHasEnded(g: GameState, names: seq<string>, u: string, k: nat, v: string)
    requires GameOk(g) && IsOrdering(names, g.sessions.Keys) && v in g.sessions
    ensures Worn(g.sessions, g.secret, names, u, k)[v].Ended()
       <==> g.sessions[v].Won() || |g.sessions[v].guesses| + Passes(v, u, k) >= MAX_GUESSES
  {
    assert v in Elements(names);
    WearyingEnds(v, g.sessions[v], g.secret, Passes(v, u, k));
  }

  lemma AllWorn(g: GameState, names: seq<string>, u: string, k: nat)
    requires GameOk(g) && IsOrdering(names, g.sessions.Keys) && u in g.sessions
    ensures (forall v :: v in g.sessions ==> Worn(g.sessions, g.secret, names, u, k)[v].Ended())
       <==> g.sessions[u].Won() || |g.sessions[u].guesses| + k >= MAX_GUESSES
  {
    forall v | v in g.sessions
      ensures Worn(g.sessions, g.secret, names, u, k)[v].Ended()
         <==> g.sessions[v].Won() || |g.sessions[v].guesses| + Passes(v, u, k) >= MAX_GUESSES
    {
      WornHasEnded(g, names, u, k, v);
    }
  }

  lemma AllEndedMeansEach(g: GameState)
    ensures g.EndedPlayers() == g.sessions.Keys <==> forall v :: v in g.sessions ==> g.sessions[v].Ended()
  {
    if g.EndedPlayers() == g.sessions.Keys {
      forall v | v in g.sessions ensures g.sessions[v].Ended() { assert v in g.EndedPlayers(); }
    }
  }

  /** After six wrong guesses of every player, but only `k` of `u`, everyone has ended, unless `u` has neither won nor
      used up all guesses. */
  lemma WornEnds(g: GameState, names: seq<string>, u: string, k: nat)
    requires GameOk(g) && IsOrdering(names, g.sessions.Keys) && u in g.sessions
    ensures var r := PlayAll(g, PassAll(names, u, k));
      r.EndedPlayers() == r.sessions.Keys <==> g.sessions[u].Won() || |g.sessions[u].guesses| + k >= MAX_GUESSES
  {
    WornIsReached(g, names, u, k);
    AllWorn(g, names, u, k);
    AllEndedMeansEach(PlayAll(g, PassAll(names, u, k)));
  }

  lemma Listing(keys: set<string>) returns (names: seq<string>)
    ensures IsOrdering(names, keys)
  {
    names := [];
    var rest := keys;
    while rest != {}
      invariant rest <= keys && NoDuplicates(names) && Elements(names) == keys - rest
      decreases rest
    {
      var u :| u in rest;
      assert u !in Elements(names) && Elements(names + [u]) == Elements(names) + {u};
      names := names + [u];
      rest := rest - {u};
    }
  }

  // ---------- the exact condition ----------

  /** Whatever is played on, both games end on the same moves. */
  ghost predicate EndsAlike(a: GameState, b: GameState)
    requires GameOk(a) && GameOk(b)
  {
    forall moves :: OnTime(moves) ==> (PlayAll(a, moves).endedAt.Some? <==> PlayAll(b, moves).endedAt.Some?)
  }

  /** These moves end every session of the one game, but not of the other. */
  predicate Separates(g: GameState, r: GameState, moves: seq<Move>)
    requires GameOk(g) && GameOk(r)
  {
    OnTime(moves)
    && PlayAll(g, moves).EndedPlayers() == g.sessions.Keys && PlayAll(r, moves).EndedPlayers() != r.sessions.Keys
  }

  /** A player whose log was short, and not because they had won before and after, can be told apart: the unbroken game
      ends without them, or after fewer of their guesses. */
  lemma ShortLogShows(g: GameState, s: Store, r: GameState, names: seq<string>, u: string)
    requires GameOk(g) && Backed(g, s) && Loads(s, g.id, r) && GameOk(r) && IsOrdering(names, g.sessions.Keys)
    requires u in g.sessions && u in r.sessions
    requires !(g.sessions[u].Won() && r.sessions[u].Won()) && g.sessions[u].guesses != r.sessions[u].guesses
    ensures exists moves :: Separates(g, r, moves)
  {
    LoadedIsBacked(g, s, r);
    WinsAreKept(g, s, r, u);
    var mine, left := g.sessions[u].guesses, r.sessions[u].guesses;
    LossyPart(left, mine);
    if |left| == |mine| { LossyWhole(left, mine); }
    assert SessionOk(u, g.sessions[u], g.secret);
    var k := if g.sessions[u].Won() then 0 else MAX_GUESSES - |mine|;
    WornEnds(g, names, u, k);
    WornEnds(r, names, u, k);
    assert Separates(g, r, PassAll(names, u, k));
  }

  /** A game that was never reloaded has ended exactly when it has players and all their sessions have. */
  predicate EndIsSet(g: GameState) {
    Uncounted(g) == 0 && (g.endedAt.Some? <==> g.sessions != map[] && g.EndedPlayers() == g.sessions.Keys)
  }

  /** It stays so, whatever is played. */
  lemma EndStaysSet(g: GameState, moves: seq<Move>)
    requires GameOk(g) && EndIsSet(g) && OnTime(moves)
    ensures EndIsSet(PlayAll(g, moves))
  {
    if g.EndedPlayers() == g.sessions.Keys {
      AllEndedIsFinal(g, moves);
    } else {
      EndsWithTheLastSession(g, moves);
    }
  }

  /** The reload lost nothing that matters for the end. */
  predicate KeepsItsEnd(g: GameState, r: GameState) {
    g.sessions == map[] || (g.EndedPlayers() != g.sessions.Keys && Losers(r) == {} && Alike(g, r))
  }

  lemma AlikeEndsAlike(g: GameState, s: Store, r: GameState)
    requires GameOk(g) && Backed(g, s) && Loads(s, g.id, r) && GameOk(r) && EndIsSet(g) && KeepsItsEnd(g, r)
    ensures EndsAlike(r, g)
  {
    LoadedIsBacked(g, s, r);
    forall moves | OnTime(moves) ensures PlayAll(r, moves).endedAt.Some? <==> PlayAll(g, moves).endedAt.Some? {
      if g.sessions == map[] {
        AllEndedIsFinal(g, moves);
        AllEndedIsFinal(r, moves);
      } else {
        ReloadedGameEnds(g, s, r, moves);
      }
    }
  }

  lemma EndedComesApart(g: GameState, r: GameState)
    requires GameOk(g) && GameOk(r) && g.endedAt.Some? && r.endedAt.None?
    ensures !EndsAlike(r, g)
  {
    assert OnTime([]) && PlayAll(g, []) == g && PlayAll(r, []) == r;
  }

  /** Moves that end the unbroken game but not the reloaded one tell them apart. */
  lemma SeparatedEndsApart(g: GameState, r: GameState, moves: seq<Move>)
    requires GameOk(g) && GameOk(r) && EndIsSet(g)
    requires g.EndedPlayers() != g.sessions.Keys && OnTime(moves)
    requires PlayAll(g, moves).EndedPlayers() == g.sessions.Keys && PlayAll(r, moves).endedAt.None?
    ensures !EndsAlike(r, g)
  {
    EndsWithTheLastSession(g, moves);
  }

  lemma LostComesApart(g: GameState, s: Store, r: GameState, names: seq<string>)
    requires GameOk(g) && Backed(g, s) && Loads(s, g.id, r) && GameOk(r) && EndIsSet(g)
    requires IsOrdering(names, g.sessions.Keys)
    requires g.EndedPlayers() != g.sessions.Keys && (r.EndedPlayers() == r.sessions.Keys || Losers(r) != {})
    ensures !EndsAlike(r, g)
  {
    var u :| u in g.sessions && u !in g.EndedPlayers();
    var moves := PassAll(names, u, MAX_GUESSES);
    WornEnds(g, names, u, MAX_GUESSES);
    ReloadedGameEndsWhen(g, s, r, moves);
    SeparatedEndsApart(g, r, moves);
  }

  lemma ShortLogComesApart(g: GameState, s: Store, r: GameState, names: seq<string>, u: string)
    requires GameOk(g) && Backed(g, s) && Loads(s, g.id, r) && GameOk(r) && EndIsSet(g)
    requires IsOrdering(names, g.sessions.Keys)
    requires g.EndedPlayers() != g.sessions.Keys && u in g.sessions && u in r.sessions
    requires !(g.sessions[u].Won() && r.sessions[u].Won()) && g.sessions[u].guesses != r.sessions[u].guesses
    ensures !EndsAlike(r, g)
  {
    ShortLogShows(g, s, r, names, u);
    var moves :| Separates(g, r, moves);
    ReloadedGameEndsWhen(g, s, r, moves);
    SeparatedEndsApart(g, r, moves);
  }

  lemma UnalikeEndsApart(g: GameState, s: Store, r: GameState)
    requires GameOk(g) && Backed(g, s) && Loads(s, g.id, r) && GameOk(r) && EndIsSet(g) && !KeepsItsEnd(g, r)
    ensures !EndsAlike(r, g)
  {
    LoadedIsBacked(g, s, r);
    var names := Listing(g.sessions.Keys);
    if g.EndedPlayers() == g.sessions.Keys {
      EndedComesApart(g, r);
    } else if r.EndedPlayers() == r.sessions.Keys || Losers(r) != {} {
      LostComesApart(g, s, r, names);
    } else {
      var u :| u in g.sessions && !(g.sessions[u].Won() && r.sessions[u].Won())
        && g.sessions[u].guesses != r.sessions[u].guesses;
      ShortLogComesApart(g, s, r, names, u);
    }
  }

  /** A reload ends on the same moves as the unbroken game, whatever these are, exactly when there are no players, or
      somebody had still to end, nobody comes back having lost, and every player comes back with all their guesses, or
      has won and comes back having won. */
  lemma ReloadEndsAlikeIff(g: GameState, s: Store, r: GameState)
    requires GameOk(g) && Backed(g, s) && Loads(s, g.id, r) && EndIsSet(g)
    ensures GameOk(r) && (EndsAlike(r, g) <==> KeepsItsEnd(g, r))
  {
    LoadedIsBacked(g, s, r);
    if KeepsItsEnd(g, r) {
      AlikeEndsAlike(g, s, r);
    } else {
      UnalikeEndsApart(g, s, r);
    }
  }

  lemma SameProgressIsAlike(a: GameState, b: GameState)
    requires SameProgress(a, b)
    ensures Alike(a, b) && Losers(a) == Losers(b) && a.EndedPlayers() == b.EndedPlayers()
  {
    SameBests(a, b);
  }

  /** From a log that lost nothing that comes down to: somebody had still to end, and nobody had lost. */
  lemma FullReloadEndsAlikeIff(g: GameState, s: Store, r: GameState)
    requires GameOk(g) && InSync(g, s) && Loads(s, g.id, r) && EndIsSet(g) && g.sessions != map[]
    ensures GameOk(r) && (EndsAlike(r, g) <==> g.EndedPlayers() != g.sessions.Keys && Losers(g) == {})
  {
    InSyncIsBacked(g, s);
    LoadedHasSameProgress(g, s, r);
    SameProgressIsAlike(g, r);
    ReloadEndsAlikeIff(g, s, r);
  }

  /** The same move by move: from such a log a reload ends with the unbroken game, or never. */
  lemma FullReloadEnds(g: GameState, s: Store, r: GameState, moves: seq<Move>)
    requires GameOk(g) && InSync(g, s) && Loads(s, g.id, r) && OnTime(moves)
    requires Uncounted(g) == 0 && (g.EndedPlayers() != g.sessions.Keys ==> g.endedAt.None?)
    ensures GameOk(r) && r.finished == g.finished - |Losers(g)|
    ensures PlayAll(r, moves).endedAt.Some? <==>
      g.EndedPlayers() != g.sessions.Keys && Losers(g) == {} && PlayAll(g, moves).endedAt.Some?
  {
    InSyncIsBacked(g, s);
    LoadedHasSameProgress(g, s, r);
    SameProgressIsAlike(g, r);
    SameBests(g, r);
    ReloadCounts(g, s, r);
    ReloadedGameEnds(g, s, r, moves);
  }

  lemma WinIsWon(g: GameState, m: Move)
    requires GameOk(g) && m.at > 0 && m.player in g.sessions && !g.sessions[m.player].Ended()
    requires ToUpper(m.text) == g.secret.word
    ensures GameOk(PlayMove(g, m)) && m.player in PlayMove(g, m).sessions && PlayMove(g, m).sessions[m.player].Won()
  {
    PlayKeepsGame(g, m.player, m.text, m.at, m.end);
    OutcomeOf(g, m);
    MoveExtends(g, m);
    var t := PlayMove(g, m).sessions[m.player];
    assert t.guesses[|t.guesses| - 1].word == g.secret.word;
    WonIff(m.player, t, g.secret);
  }

  lemma IdleHasNotEnded(u: string, s: SessionState, secret: Word)
    requires SessionOk(u, s, secret) && secret.word != "" && s.guesses == []
    ensures !s.Ended()
  {
    WonIff(u, s, secret);
  }

  lemma OnlyWinnerHasEnded(g: GameState, ann: Move)
    requires GameOk(g) && NobodyPlayed(g) && ann.at > 0 && ann.player in g.sessions && ToUpper(ann.text) == g.secret.word
    ensures var h := PlayMove(g, ann);
      && GameOk(h) && h.sessions.Keys == g.sessions.Keys && h.sessions[ann.player].Won()
      && h.EndedPlayers() == {ann.player} && Losers(h) == {}
  {
    WinIsWon(g, ann) by { IdleHasNotEnded(ann.player, g.sessions[ann.player], g.secret); }
    MoveExtends(g, ann);
    var h := PlayMove(g, ann);
    forall u | u in g.sessions && u != ann.player ensures !h.sessions[u].Ended() {
      IdleHasNotEnded(u, g.sessions[u], g.secret);
    }
    assert h.sessions[ann.player].Ended();
  }

  lemma FirstWin(g: GameState, ann: Move, bob: string)
    requires GameOk(g) && NobodyPlayed(g) && Uncounted(g) == 0 && g.endedAt.None? && ann.at > 0
    requires g.sessions.Keys == {ann.player, bob} && ann.player != bob && ToUpper(ann.text) == g.secret.word
    ensures var h := PlayMove(g, ann);
      && GameOk(h) && Uncounted(h) == 0 && h.endedAt.None? && h.sessions.Keys == g.sessions.Keys
      && h.sessions[ann.player].Won() && !h.sessions[bob].Ended() && Losers(h) == {}
      && h.EndedPlayers() != h.sessions.Keys
  {
    OnlyWinnerHasEnded(g, ann);
    PlayCounts(g, ann.player, NewWord(ann.text), ann.at, ann.end);
    assert bob !in PlayMove(g, ann).EndedPlayers();
  }

  lemma LastWinEnds(h: GameState, bob: Move, ann: string)
    requires GameOk(h) && Uncounted(h) == 0 && bob.at > 0 && h.sessions.Keys == {ann, bob.player}
    requires h.sessions[ann].Won() && !h.sessions[bob.player].Ended() && ToUpper(bob.text) == h.secret.word
    ensures PlayMove(h, bob).endedAt.Some?
  {
    WinIsWon(h, bob);
    MoveExtends(h, bob);
    OutcomeOf(h, bob);
    PlayCounts(h, bob.player, NewWord(bob.text), bob.at, bob.end);
    var r := PlayMove(h, bob);
    assert r.EndedPlayers() == r.sessions.Keys;
  }

  lemma IdleKeepsOpen(r: GameState, bob: Move, ann: string)
    requires GameOk(r) && Uncounted(r) >= 0 && r.endedAt.None? && ann in r.sessions && ann != bob.player
    requires !r.sessions[ann].Ended()
    ensures PlayMove(r, bob).endedAt.None?
  {
    MoveExtends(r, bob);
    PlayCounts(r, bob.player, NewWord(bob.text), bob.at, bob.end);
    assert ann !in PlayMove(r, bob).EndedPlayers();
  }

  /** An input that tells the two apart although somebody had still to end and nobody had lost: Ann's winning guess is
      not logged, the game is reloaded, and Bob wins. The unbroken game ends with Bob's guess, the reloaded one does
      not. */
  lemma LostWinSplitsTheEnd(g: GameState, s: Store, ann: Move, bob: Move, r: GameState)
    requires GameOk(g) && InSync(g, s) && NobodyPlayed(g) && Uncounted(g) == 0 && g.endedAt.None?
    requires ann.at > 0 && bob.at > 0
    requires g.sessions.Keys == {ann.player, bob.player} && ann.player != bob.player
    requires ToUpper(ann.text) == ToUpper(bob.text) == g.secret.word
    requires Loads(StoreMove(g, s, ann, false, false), g.id, r)
    ensures GameOk(r)
    ensures var h := PlayMove(g, ann);
      && h.BoardHasSessions() && h.EndedPlayers() != h.sessions.Keys && Losers(h) == {}
      && PlayMove(h, bob).endedAt.Some? && PlayMove(r, bob).endedAt.None?
  {
    var h, t := PlayMove(g, ann), StoreMove(g, s, ann, false, false);
    FirstWin(g, ann, bob.player);
    InSyncIsBacked(g, s);
    MoveKeepsBacked(g, s, ann, false, false);
    MoveExtends(g, ann);
    LastWinEnds(h, bob, ann.player);
    assert t == s && Logged(g.sessions[ann.player], s.Guesses(g.id, ann.player), ann.player, s.Board(g.id));
    LoadedIsBacked(h, t, r);
    ReloadCounts(h, t, r);
    IdleKeepsOpen(r, bob, ann.player);
  }
}
