/** The room's loop and its connections on the heap: game/room.go. */
module Rooms {
  import opened Collections
  import opened Words
  import opened GameModel
  import opened Games
  import opened RoomModel

  /** What an error message is about. */
  datatype Complaint = OnlyCreator | AlreadyStarted | StartFailed | BadMessage | BadGuess(reason: Refusal) | UnknownType

  /** What is sent to the players. */
  datatype Payload =
    | CError(what: Complaint)
    | CData // the game as its player sees it
    | CStart
    | CMessage(from: string)
    | CPlay(from: string, guess: Word, offset: nat, board: seq<string>)
    | CFinish
    | CJoin(name: string)
    | CLeave(name: string)

  /** A write, and whether it got through. */
  datatype Sent = Sent(conn: PlayerConn, payload: Payload, ok: bool)

  /** Since the first `from` writes the payload was written to the connection. */
  predicate Told(log: seq<Sent>, from: nat, c: PlayerConn, payload: Payload) {
    exists k :: from <= k < |log| && log[k].conn == c && log[k].payload == payload
  }

  /** Since the first `from` writes one to the connection failed. */
  predicate Failed(log: seq<Sent>, from: nat, c: PlayerConn) {
    exists k :: from <= k < |log| && log[k].conn == c && !log[k].ok
  }

  /** Who is listed, who was announced to have left, and what was written. */
  datatype Snap = Snap(players: map<string, PlayerConn>, announced: set<PlayerConn>, log: seq<Sent>)

  /** Between the two, nobody came onto the list; whoever could not be written to was announced to have left; a name went
      off the list only with such a connection or as one of `names`; and whoever was newly announced was listed before, or
      is in `gone`, and everyone still listed was told. */
  ghost predicate Spread(a: Snap, b: Snap, names: set<string>, gone: set<PlayerConn>) {
    && a.log <= b.log && a.announced <= b.announced
    && (forall n :: n in b.players ==> n in a.players && b.players[n] == a.players[n])
    && (forall k :: |a.log| <= k < |b.log| && !b.log[k].ok ==> b.log[k].conn in b.announced)
    && (forall n :: n in a.players && n !in b.players ==> n in names || Failed(b.log, |a.log|, a.players[n]))
    && (forall c :: c in b.announced && c !in a.announced ==> c in a.players.Values || c in gone)
    && (forall c, n :: c in b.announced && c !in a.announced && n in b.players ==>
          Told(b.log, |a.log|, b.players[n], CLeave(c.player.username)))
  }

  lemma ClosedIsSpread(a: Snap, b: Snap, names: set<string>)
    requires b == a.(players := a.players - names)
    ensures forall gone :: Spread(a, b, names, gone)
    ensures b.players.Keys == a.players.Keys - names
    ensures names == {} ==> b == a
  {
    if names == {} { assert b.players == a.players; }
  }

  lemma SpreadTwice(a: Snap, b: Snap, c: Snap, names: set<string>, gone: set<PlayerConn>)
    requires Spread(a, b, names, gone) && Spread(b, c, {}, gone)
    ensures Spread(a, c, names, gone)
  {
    forall n | n in a.players && n !in c.players ensures n in names || Failed(c.log, |a.log|, a.players[n]) {
      if n in b.players {
        var k :| |b.log| <= k < |c.log| && c.log[k].conn == b.players[n] && !c.log[k].ok;
        assert |a.log| <= k;
      } else if n !in names {
        FailedGrows(b.log, c.log, |a.log|, a.players[n]);
      }
    }
    forall p, n | p in c.announced && p !in a.announced && n in c.players
      ensures Told(c.log, |a.log|, c.players[n], CLeave(p.player.username))
    {
      if p in b.announced {
        ToldGrows(b.log, c.log, |a.log|, b.players[n], CLeave(p.player.username));
      } else {
        ToldEarlier(c.log, |a.log|, |b.log|, c.players[n], CLeave(p.player.username));
      }
    }
  }

  lemma FailedGrows(log: seq<Sent>, longer: seq<Sent>, from: nat, c: PlayerConn)
    requires log <= longer && Failed(log, from, c)
    ensures Failed(longer, from, c)
  {
    var k :| from <= k < |log| && log[k].conn == c && !log[k].ok;
    assert longer[k] == log[k];
  }

  lemma ToldGrows(log: seq<Sent>, longer: seq<Sent>, from: nat, c: PlayerConn, payload: Payload)
    requires log <= longer && Told(log, from, c, payload)
    ensures Told(longer, from, c, payload)
  {
    var k :| from <= k < |log| && log[k].conn == c && log[k].payload == payload;
    assert longer[k] == log[k];
  }

  lemma ToldEarlier(log: seq<Sent>, from: nat, later: nat, c: PlayerConn, payload: Payload)
    requires from <= later && Told(log, later, c, payload)
    ensures Told(log, from, c, payload)
  {
    var k :| later <= k < |log| && log[k].conn == c && log[k].payload == payload;
    assert from <= k;
  }

  /** While the payload is being sent: those not in `rest` were written to, and `errs` are those whose write failed. */
  ghost predicate Sending(a: Snap, b: Snap, rest: set<string>, errs: seq<PlayerConn>, payload: Payload) {
    && b == a.(log := b.log) && a.log <= b.log
    && (forall n :: n in a.players && n !in rest ==> Told(b.log, |a.log|, a.players[n], payload))
    && (forall k :: |a.log| <= k < |b.log| && !b.log[k].ok ==> b.log[k].conn in errs)
    && (forall c :: c in errs ==> Lists(a, c) && c.player.username !in rest && Failed(b.log, |a.log|, c))
  }

  predicate Lists(a: Snap, c: PlayerConn) { c.player.username in a.players && a.players[c.player.username] == c }

  lemma SentOneMore(a: Snap, b: Snap, c: Snap, rest: set<string>, name: string, errs: seq<PlayerConn>,
                    more: seq<PlayerConn>, payload: Payload, ok: bool)
    requires Sending(a, b, rest, errs, payload) && name in rest && name in b.players
    requires b.players[name].player.username == name
    requires c == b.(log := b.log + [Sent(b.players[name], payload, ok)])
    requires more == if ok then errs else errs + [b.players[name]]
    ensures Sending(a, c, rest - {name}, more, payload)
  {
    var last := |b.log|;
    assert c.log[last] == Sent(b.players[name], payload, ok);
    forall n | n in a.players && n !in rest - {name} ensures Told(c.log, |a.log|, a.players[n], payload) {
      if n != name { ToldGrows(b.log, c.log, |a.log|, a.players[n], payload); }
    }
    forall p | p in more ensures Failed(c.log, |a.log|, p) && Lists(a, p) && p.player.username !in rest - {name} {
      if p in errs { FailedGrows(b.log, c.log, |a.log|, p); }
    }
  }

  /** Once those who could not be written to have left, the payload has reached everyone. */
  lemma FailedHaveLeft(a: Snap, b: Snap, c: Snap, payload: Payload, errs: seq<PlayerConn>, names: set<string>,
                       gone: set<PlayerConn>)
    requires Sending(a, b, {}, errs, payload) && Spread(b, c, names, gone)
    requires gone == Elements(errs) && gone <= c.announced
    requires forall n :: n in names ==> exists p :: p in errs && p.player.username == n
    ensures Reached(a, c, payload)
  {
    forall n | n in a.players ensures Told(c.log, |a.log|, a.players[n], payload) {
      ToldGrows(b.log, c.log, |a.log|, a.players[n], payload);
    }
    forall n | n in a.players && n !in c.players ensures Failed(c.log, |a.log|, a.players[n]) {
      if n in names {
        var p :| p in errs && p.player.username == n;
        FailedGrows(b.log, c.log, |a.log|, p);
      } else {
        var k :| |b.log| <= k < |c.log| && c.log[k].conn == a.players[n] && !c.log[k].ok;
        assert |a.log| <= k;
      }
    }
    forall k | |a.log| <= k < |c.log| && !c.log[k].ok ensures c.log[k].conn in c.announced {
      if k < |b.log| { assert b.log[k] == c.log[k]; }
    }
    forall p | p in c.announced && p !in a.announced ensures p in a.players.Values {
      if p in gone { assert Lists(a, p); }
    }
    forall p, n | p in c.announced && p !in a.announced && n in c.players
      ensures Told(c.log, |a.log|, c.players[n], CLeave(p.player.username))
    {
      ToldEarlier(c.log, |a.log|, |b.log|, c.players[n], CLeave(p.player.username));
    }
  }

  /** Announcing a connection, and sending that to everyone. */
  lemma AnnouncedIsSpread(a: Snap, b: Snap, c: Snap, p: PlayerConn)
    requires b == a.(announced := a.announced + {p}) && Reached(b, c, CLeave(p.player.username))
    ensures Spread(a, c, {}, {p})
  {
  }

  /** The payload was written to everyone listed, and whoever could not be written to left. */
  ghost predicate Reached(a: Snap, b: Snap, payload: Payload) {
    Spread(a, b, {}, {}) && forall n :: n in a.players ==> Told(b.log, |a.log|, a.players[n], payload)
  }

  /** One write to this connection, and nothing else. */
  ghost predicate Answered(a: Snap, b: Snap, c: PlayerConn, payload: Payload) {
    b == a.(log := a.log + [Sent(c, payload, true)]) || b == a.(log := a.log + [Sent(c, payload, false)])
  }

  /** The payload was written to everyone listed. */
  ghost predicate Shared(a: Snap, b: Snap, payload: Payload) {
    forall n :: n in a.players ==> Told(b.log, |a.log|, a.players[n], payload)
  }

  /** The payload was written to everyone listed, but for those to whom a write had failed. */
  ghost predicate Followed(a: Snap, b: Snap, payload: Payload) {
    forall n :: n in a.players ==>
      Told(b.log, |a.log|, a.players[n], payload) || Failed(b.log, |a.log|, a.players[n])
  }

  lemma FinishFollows(a: Snap, b: Snap, c: Snap, first: Payload, second: Payload)
    requires Reached(a, b, first) && Shared(b, c, second) && b.log <= c.log
    ensures Shared(a, c, first) && Followed(a, c, second)
  {
    forall n | n in a.players
      ensures Told(c.log, |a.log|, a.players[n], first)
      ensures Told(c.log, |a.log|, a.players[n], second) || Failed(c.log, |a.log|, a.players[n])
    {
      ToldGrows(b.log, c.log, |a.log|, a.players[n], first);
      if n in b.players {
        ToldEarlier(c.log, |a.log|, |b.log|, b.players[n], second);
      } else {
        FailedGrows(b.log, c.log, |a.log|, a.players[n]);
      }
    }
  }

  lemma ReachedTwice(a: Snap, b: Snap, c: Snap, first: Payload, second: Payload)
    requires Reached(a, b, first) && Reached(b, c, second)
    ensures Reached(a, c, first) && Followed(a, c, second)
  {
    SpreadTwice(a, b, c, {}, {});
    FinishFollows(a, b, c, first, second);
  }

  /** What is sent when somebody tries to start the game. */
  ghost predicate StartAnswered(s: RoomState, sender: PlayerConn, ok: bool, a: Snap, b: Snap) {
    if s.game.creator != sender.player.username then Answered(a, b, sender, CError(OnlyCreator))
    else if s.active then Answered(a, b, sender, CError(AlreadyStarted))
    else if !ok then Answered(a, b, sender, CError(StartFailed))
    else Reached(a, b, CStart) && Followed(a, b, CData)
  }

  /** Everyone is sent the recorded guess with the places gained and the new board, and the end if it ended the game. */
  ghost predicate GuessShared(s: RoomState, from: string, text: string, now: int, later: int, a: Snap, b: Snap) {
    && s.game.BoardHasSessions()
    && var r := s.game.Play(from, NewWord(text), now, later);
       var result := CPlay(from, r.guess, r.offset, r.game.ranks);
       if r.game.endedAt.Some? then Shared(a, b, result) && Followed(a, b, CFinish) else Reached(a, b, result)
  }

  /** The game takes the guess, the service is asked to store it, and the result reaches everyone. */
  ghost predicate GuessPlayed(s: RoomState, t: RoomState, from: string, text: string, now: int, later: int, a: Snap,
                              b: Snap)
  {
    && s.game.BoardHasSessions()
    && var r := s.game.Play(from, NewWord(text), now, later);
    && r.err.None? && t == s.(game := r.game, calls := s.calls + [AddGuess(from, r.guess, r.isBest)])
    && Reached(a, b, CPlay(from, r.guess, r.offset, r.game.ranks))
  }

  lemma PlayedIsShared(s: RoomState, t: RoomState, u: RoomState, from: string, text: string, now: int, later: int,
                       a: Snap, b: Snap, c: Snap)
    requires GuessPlayed(s, t, from, text, now, later, a, b)
    requires if t.game.endedAt.Some? then Shared(b, c, CFinish) && b.log <= c.log && u == Closed(t) else c == b && u == t
    ensures u == AfterGuess(s, from, text, now, later) && GuessShared(s, from, text, now, later, a, c)
  {
    var r := s.game.Play(from, NewWord(text), now, later);
    if r.game.endedAt.Some? { FinishFollows(a, b, c, CPlay(from, r.guess, r.offset, r.game.ranks), CFinish); }
  }

  /** A guess that is accepted is shared; any other is answered with the reason why not. */
  ghost predicate PlayAnswered(s: RoomState, sender: PlayerConn, text: Option<string>, english: bool, now: int,
                               later: int, a: Snap, b: Snap)
  {
    var from := sender.player.username;
    if Accepts(s, from, text, english) then GuessShared(s, from, text.value, now, later, a, b)
    else exists reason ::
      IsRefusal(s, from, text, english, reason) && Answered(a, b, sender, CError(BadGuess(reason)))
  }

  /** Write `k` showed the joining connection the game. If it got through, the connection stays listed exactly if no later
      write to it failed, and was announced to have left if one did; if not, that was the last write, and the name is not
      listed. */
  ghost predicate SeatedAt(b: Snap, conn: PlayerConn, k: nat) {
    && k < |b.log| && b.log[k].conn == conn && b.log[k].payload == CData
    && if b.log[k].ok then
         && (Lists(b, conn) <==> !Failed(b.log, k, conn))
         && (Failed(b.log, k, conn) ==> conn in b.announced)
       else
         conn.player.username !in b.players && |b.log| == k + 1
  }

  /** If the connection was seated, all others and itself were told so, but for those to whom a write had failed. */
  ghost predicate TheyHeard(a: Snap, b: Snap, conn: PlayerConn, k: nat) {
    && |a.log| <= k < |b.log|
    && var name := conn.player.username;
       b.log[k].ok ==>
         && Told(b.log, k, conn, CJoin(name))
         && forall n :: n in a.players && n != name ==>
              Told(b.log, |a.log|, a.players[n], CJoin(name)) || Failed(b.log, |a.log|, a.players[n])
  }

  /** The first write got through, the connection was listed, and everyone was told. */
  lemma SeatedAndHeard(a: Snap, b: Snap, c: Snap, conn: PlayerConn)
    requires conn.player.username !in a.players && Reached(b, c, CJoin(conn.player.username))
    requires b == Snap(a.players[conn.player.username := conn], a.announced, a.log + [Sent(conn, CData, true)])
    requires conn.player.username in c.players ==> !Failed(c.log, |b.log|, conn)
    ensures SeatedAt(c, conn, |a.log|) && TheyHeard(a, c, conn, |a.log|)
  {
    var k, name := |a.log|, conn.player.username;
    assert c.log[k] == b.log[k];
    ToldEarlier(c.log, k, k + 1, b.players[name], CJoin(name));
    forall n | n in a.players ensures Told(c.log, k, a.players[n], CJoin(name)) {
      ToldEarlier(c.log, k, k + 1, b.players[n], CJoin(name));
    }
    if i :| k <= i < |c.log| && c.log[i].conn == conn && !c.log[i].ok {
      assert k + 1 <= i;
    }
    if name !in c.players {
      var i :| k + 1 <= i < |c.log| && c.log[i].conn == conn && !c.log[i].ok;
    }
  }

  lemma HeardAfterKick(a: Snap, b: Snap, c: Snap, conn: PlayerConn, k: nat, gone: set<PlayerConn>)
    requires TheyHeard(b, c, conn, k) && b.log <= c.log && Spread(a, b, {conn.player.username}, gone)
    ensures TheyHeard(a, c, conn, k)
  {
    if c.log[k].ok {
      var name := conn.player.username;
      forall n | n in a.players && n != name
        ensures Told(c.log, |a.log|, a.players[n], CJoin(name)) || Failed(c.log, |a.log|, a.players[n])
      {
        if n !in b.players {
          FailedGrows(b.log, c.log, |a.log|, a.players[n]);
        } else if Told(c.log, |b.log|, b.players[n], CJoin(name)) {
          ToldEarlier(c.log, |a.log|, |b.log|, b.players[n], CJoin(name));
        } else {
          var i :| |b.log| <= i < |c.log| && c.log[i].conn == b.players[n] && !c.log[i].ok;
          assert |a.log| <= i;
        }
      }
    }
  }

  /** What a turn of the loop sends. */
  ghost predicate Responds(m: Message, s: RoomState, a: Snap, b: Snap) {
    && a.announced <= b.announced && a.log <= b.log
    && match m
       case SStart(sender, _, ok) => StartAnswered(s, sender, ok, a, b)
       case SMessage(sender, isText) =>
         if isText then Reached(a, b, CMessage(sender.player.username)) else Answered(a, b, sender, CError(BadMessage))
       case SPlay(sender, text, english, now, later) => PlayAnswered(s, sender, text, english, now, later, a, b)
       case PJoin(conn) =>
         exists k: nat :: |a.log| <= k < |b.log| && SeatedAt(b, conn, k) && TheyHeard(a, b, conn, k)
       case PLeave(conn) =>
         exists names, gone :: names <= {conn.player.username} && gone <= {conn} && Spread(a, b, names, gone)
       case Unknown(sender) => Answered(a, b, sender, CError(UnknownType))
       case Shut => a.log == b.log
  }

  /** A player's connection; a write to a closed one fails, a write to an open one may. */
  class PlayerConn {
    const player: Player
    const room: Room
    var active: bool

    constructor (player: Player, room: Room)
      ensures this.player == player && this.room == room && active
    {
      this.player, this.room, active := player, room, true;
    }

    method Write(payload: Payload) returns (ok: bool)
      modifies room`log
      ensures ok ==> active
      ensures room.log == old(room.log) + [Sent(this, payload, ok)]
    {
      ok := *;
      ok := ok && active;
      room.log := room.log + [Sent(this, payload, ok)];
    }

    method Close()
      modifies this
      ensures !active
    {
      active := false;
    }
  }

  /** What the loop receives: a message of a connection, or a connection itself. */
  datatype Message =
    | SStart(sender: PlayerConn, now: int, ok: bool)
    | SMessage(sender: PlayerConn, isText: bool)
    | SPlay(sender: PlayerConn, text: Option<string>, english: bool, now: int, later: int)
    | PJoin(conn: PlayerConn)
    | PLeave(conn: PlayerConn)
    | Unknown(sender: PlayerConn)
    | Shut // not received: Close called from outside between two turns

  function ToEvent(m: Message): RoomEvent {
    match m
    case SStart(sender, now, ok) => Start(sender.player.username, now, ok)
    case SPlay(sender, text, english, now, later) => Play(sender.player.username, text, english, now, later)
    case PJoin(conn) => Join(conn.player)
    case Shut => RoomEvent.Close
    case _ => Other
  }

  /** The connections a message carries. */
  function ConnsOf(m: Message): set<PlayerConn> {
    match m
    case PJoin(conn) => {conn}
    case PLeave(conn) => {conn}
    case _ => {}
  }

  /** The connection a message came from. */
  function SenderOf(m: Message): set<PlayerConn> {
    match m
    case SStart(sender, _, _) => {sender}
    case SMessage(sender, _) => {sender}
    case SPlay(sender, _, _, _, _) => {sender}
    case Unknown(sender) => {sender}
    case _ => {}
  }

  class Room {
    var players: map<string, PlayerConn>
    const g: Game
    var active: bool
    var closed: bool
    ghost var calls: seq<Call>
    ghost var announced: set<PlayerConn> // the connections that were announced to have left
    ghost var announcements: nat // how many such announcements were made
    ghost var log: seq<Sent> // every write to a connection of this room

    /** Every listed connection is open, filed under its player's name and belongs to this room;
        only closed connections are announced to have left, each of them once. */
    ghost predicate ConnsOk()
      reads this`players, this`announced, this`announcements, players.Values, announced
    {
      && (forall n :: n in players ==>
            players[n].player.username == n && players[n].active && players[n].room == this)
      && (forall c :: c in announced ==> !c.active && c.room == this)
      && announcements == |announced|
    }

    ghost predicate Shrunk(was: map<string, PlayerConn>)
      reads this`players
    {
      forall n :: n in players ==> n in was && players[n] == was[n]
    }

    ghost predicate Valid()
      reads this, players.Values, announced, g, g.leaderboard, g.leaderboard.ranks
    {
      ConnsOk() && g.Valid()
    }

    ghost function Now(): Snap
      reads this`players, this`announced, this`log
    {
      Snap(players, announced, log)
    }

    /** The objects the game currently consists of. */
    ghost function Refs(): (map<string, Session>, RankBoard)
      reads g
    {
      (g.sessions, g.leaderboard)
    }

    ghost function State(): RoomState
      reads this, g, g.leaderboard, g.leaderboard.ranks, g.sessions.Values
    {
      RoomState(active, closed, g.State(), calls)
    }

    constructor (game: Game)
      requires game.Valid()
      ensures Valid() && g == game && players == map[] && announced == {}
      ensures State() == NewRoom(old(game.State())) && game.State() == old(game.State())
      ensures active <==> game.startedAt.Some? && game.endedAt.None?
      ensures closed <==> game.endedAt.Some?
    {
      players, g := map[], game;
      active := game.startedAt.Some? && game.endedAt.None?;
      closed := game.endedAt.Some?;
      calls, announced, announcements, log := [], {}, 0, [];
    }

    /** Sends to everyone listed; whoever cannot be written to leaves, and nobody else. */
    method SendAll(payload: Payload)
      requires ConnsOk()
      modifies this`players, this`announced, this`announcements, this`log, players.Values
      ensures ConnsOk() && Reached(old(Now()), Now(), payload)
      ensures forall n :: n in old(players) ==> (n !in players <==> Failed(log, |old(log)|, old(players)[n]))
      ensures forall n :: n in old(players) && n !in players ==>
        !old(players)[n].active && old(players)[n] in announced
      decreases |players|, 0
    {
      ghost var a := Now();
      var errs := SendEach(payload);
      if |errs| != 0 {
        FailedAreListed(a, payload, errs);
        SubsetSize(players.Keys - ActiveNames(errs) + {errs[0].player.username}, players.Keys);
        ghost var b, names, open := Now(), ActiveNames(errs), OpenConns(errs);
        Leave(errs);
        FailedHaveLeft(a, b, Now(), payload, errs, names, open);
      }
      DroppedIff(a);
    }

    /** The loop of sendAll: a write to everyone, and whose write failed. */
    method SendEach(payload: Payload) returns (errs: seq<PlayerConn>)
      requires ConnsOk()
      modifies this`log
      ensures ConnsOk() && Sending(old(Now()), Now(), {}, errs, payload)
    {
      errs := [];
      ghost var a := Now();
      var rest := players.Keys;
      while rest != {}
        invariant rest <= players.Keys && ConnsOk() && Sending(a, Now(), rest, errs, payload)
        modifies this`log
        decreases rest
      {
        var name :| name in rest;
        errs := SendNext(a, rest, name, errs, payload);
        rest := rest - {name};
      }
    }

    method SendNext(ghost a: Snap, ghost rest: set<string>, name: string, errs: seq<PlayerConn>, payload: Payload)
      returns (more: seq<PlayerConn>)
      requires ConnsOk() && name in rest && name in players && Sending(a, Now(), rest, errs, payload)
      modifies this`log
      ensures ConnsOk() && Sending(a, Now(), rest - {name}, more, payload)
    {
      ghost var b := Now();
      var p := players[name];
      var ok := p.Write(payload);
      more := if ok then errs else errs + [p];
      SentOneMore(a, b, Now(), rest, name, errs, more, payload, ok);
    }

    lemma ClosedIsNotListed(c: PlayerConn)
      requires ConnsOk() && !c.active
      ensures c !in players.Values
    {
    }

    /** Whoever is open among the connections whose write failed is listed, and there is one. */
    lemma FailedAreListed(a: Snap, payload: Payload, errs: seq<PlayerConn>)
      requires ConnsOk() && Sending(a, Now(), {}, errs, payload) && errs != []
      ensures forall c :: c in errs ==> c in players.Values && c.active && c.room == this
      ensures errs[0].player.username in ActiveNames(errs) && errs[0].player.username in players
      ensures OpenConns(errs) == Elements(errs)
    {
      forall c | c in errs ensures c in players.Values && c.active && c.room == this {
        assert players[c.player.username] == c;
      }
      assert errs[0] in errs;
    }

    /** A connection that was listed is off the list exactly when a write to it failed. */
    lemma DroppedIff(a: Snap)
      requires ConnsOk() && Spread(a, Now(), {}, {})
      ensures forall n :: n in a.players ==> (n !in players <==> Failed(log, |a.log|, a.players[n]))
      ensures forall n :: n in a.players && n !in players ==> !a.players[n].active && a.players[n] in announced
    {
      forall n | n in a.players && Failed(log, |a.log|, a.players[n])
        ensures n !in players && !a.players[n].active && a.players[n] in announced
      {
        var k :| |a.log| <= k < |log| && log[k].conn == a.players[n] && !log[k].ok;
      }
    }

    static ghost function ActiveNames(conns: seq<PlayerConn>): set<string>
      reads conns
    {
      set c | c in conns && c.active :: c.player.username
    }

    static lemma NobodyOpen(conns: seq<PlayerConn>)
      ensures OpenConns(conns) == {} ==> ActiveNames(conns) == {}
    {
      if c :| c in conns && c.active { assert c in OpenConns(conns); }
    }

    static ghost function OpenConns(conns: seq<PlayerConn>): set<PlayerConn>
      reads conns
    {
      set c | c in conns && c.active
    }

    /** Closes the connections that are still open, takes their names off the list and announces each. */
    method Leave(conns: seq<PlayerConn>)
      requires ConnsOk() && forall c :: c in conns ==> c.room == this
      modifies this`players, this`announced, this`announcements, this`log, players.Values, conns
      ensures ConnsOk()
      ensures Spread(old(Now()), Now(), old(ActiveNames(conns)), old(OpenConns(conns)))
      ensures players.Keys !! old(ActiveNames(conns))
      ensures forall c :: c in conns ==> !c.active
      ensures forall c :: c in old(OpenConns(conns)) ==> c in announced
      ensures old(OpenConns(conns)) == {} ==> Now() == old(Now())
      decreases |players.Keys - ActiveNames(conns)|, 4
    {
      ghost var a, names := Now(), ActiveNames(conns);
      ghost var listed, open := Elements(conns), OpenConns(conns);
      NobodyOpen(conns);
      var left := CloseConns(conns, listed, open);
      ghost var b := Now();
      ClosedIsSpread(a, b, names);
      AnnounceAll(left, open);
      SpreadTwice(a, b, Now(), names, open);
    }

    /** Of these closed connections exactly the first `k` have been announced. */
    ghost predicate AnnouncedUpTo(left: seq<PlayerConn>, k: nat)
      reads this`announced, left
    {
      forall j :: 0 <= j < |left| ==> !left[j].active && left[j].room == this && (left[j] in announced <==> j < k)
    }

    /** The second loop of leave: announces each of these connections. */
    method AnnounceAll(left: seq<PlayerConn>, ghost open: set<PlayerConn>)
      requires Elements(left) == open && ConnsOk() && NoDuplicates(left) && AnnouncedUpTo(left, 0)
      modifies this`players, this`announced, this`announcements, this`log, players.Values
      ensures ConnsOk() && Spread(old(Now()), Now(), {}, open)
      ensures AnnouncedUpTo(left, |left|)
      ensures forall c :: c in open ==> c in announced
      ensures open == {} ==> Now() == old(Now())
      decreases |players|, 3
    {
      ghost var a := Now();
      assert left != [] ==> left[0] in Elements(left);
      for k := 0 to |left|
        invariant ConnsOk() && AnnouncedUpTo(left, k)
        invariant Spread(a, Now(), {}, open)
        invariant k == 0 ==> Now() == a
        invariant players.Keys <= a.players.Keys && players.Values <= a.players.Values
      {
        SubsetSize(players.Keys, a.players.Keys);
        ghost var b := Now();
        AnnounceNext(left, open, k);
        SpreadTwice(a, b, Now(), {}, open);
      }
    }

    method AnnounceNext(left: seq<PlayerConn>, ghost open: set<PlayerConn>, k: nat)
      requires Elements(left) == open && ConnsOk() && NoDuplicates(left) && k < |left| && AnnouncedUpTo(left, k)
      modifies this`players, this`announced, this`announcements, this`log, players.Values
      ensures ConnsOk() && AnnouncedUpTo(left, k + 1)
      ensures Spread(old(Now()), Now(), {}, open)
      ensures players.Keys <= old(players.Keys) && players.Values <= old(players.Values)
      decreases |players|, 2
    {
      forall j | 0 <= j < |left| ensures left[j] !in players.Values { ClosedIsNotListed(left[j]); }
      ghost var before := announced;
      Announce(left[k]);
      assert left[k] in Elements(left);
      forall j | 0 <= j < |left| ensures left[j] in announced <==> j <= k {
        if j < k { assert left[j] in before; }
        if j > k { assert left[j] !in before && left[j] != left[k]; }
      }
    }

    /** Tells everyone left that this connection is gone. */
    method Announce(p: PlayerConn)
      requires ConnsOk() && !p.active && p !in announced && p.room == this
      modifies this`players, this`announced, this`announcements, this`log, players.Values
      ensures ConnsOk() && p in announced
      ensures Spread(old(Now()), Now(), {}, {p})
      decreases |players|, 1
    {
      ghost var a := Now();
      announced, announcements := announced + {p}, announcements + 1;
      ghost var b := Now();
      SendAll(CLeave(p.player.username));
      AnnouncedIsSpread(a, b, Now(), p);
    }

    /** The first loop of leave: the connections that were open, now closed and off the list. */
    method CloseConns(conns: seq<PlayerConn>, ghost listed: set<PlayerConn>, ghost open: set<PlayerConn>)
      returns (left: seq<PlayerConn>)
      requires ConnsOk() && forall c :: c in conns ==> c.room == this
      requires listed == Elements(conns) && open == OpenConns(conns)
      modifies this`players, conns
      ensures ConnsOk()
      ensures players == old(players) - old(ActiveNames(conns))
      // A listed connection, also one that is not among these, goes exactly when an open one among these has its name.
      ensures forall n :: n in old(players) ==> (n !in players <==> n in old(ActiveNames(conns)))
      ensures forall c :: c in listed ==> !c.active
      ensures NoDuplicates(left) && Elements(left) == open
      ensures AnnouncedUpTo(left, 0)
    {
      left := [];
      ghost var shut: set<PlayerConn> := {};
      for i := 0 to |conns|
        invariant ConnsOk() && players == old(players) - NamesOf(shut)
        invariant shut <= open && forall k :: 0 <= k < i && conns[k] in open ==> conns[k] in shut
        invariant forall c :: c in listed ==> (c.active <==> c in open && c !in shut)
        invariant NoDuplicates(left) && Elements(left) == shut
      {
        var p := conns[i];
        assert p in listed;
        if !p.active { continue; }
        CloseConn(p);
        ListedOnce(left, p);
        left := left + [p];
        shut := shut + {p};
      }
      assert shut == open && NamesOf(open) == old(ActiveNames(conns));
      forall j | 0 <= j < |left| ensures left[j] in open { assert left[j] in Elements(left); }
    }

    method CloseConn(p: PlayerConn)
      requires ConnsOk() && p.room == this
      modifies this`players, p
      ensures ConnsOk() && !p.active && players == old(players) - {p.player.username}
    {
      p.Close();
      players := players - {p.player.username};
    }

    static ghost function NamesOf(conns: set<PlayerConn>): set<string> {
      set c | c in conns :: c.player.username
    }

    static lemma ListedOnce(left: seq<PlayerConn>, p: PlayerConn)
      requires NoDuplicates(left) && p !in Elements(left)
      ensures NoDuplicates(left + [p]) && Elements(left + [p]) == Elements(left) + {p}
      ensures NamesOf(Elements(left) + {p}) == NamesOf(Elements(left)) + {p.player.username}
    {
    }

    // ---------- handlers ----------

    /** SendAll, seen from the room: the game and the room's flags stay as they are. */
    method Broadcast(payload: Payload)
      requires Valid()
      modifies this`players, this`announced, this`announcements, this`log, players.Values
      ensures Valid() && State() == old(State()) && Refs() == old(Refs())
      ensures Reached(old(Now()), Now(), payload)
      ensures forall n :: n in old(players) ==> (n !in players <==> Failed(log, |old(log)|, old(players)[n]))
      ensures forall n :: n in old(players) && n !in players ==>
        !old(players)[n].active && old(players)[n] in announced
    {
      SendAll(payload);
    }

    /** Writes to one connection; whether that gets through changes nothing else. */
    method Answer(c: PlayerConn, payload: Payload)
      requires Valid() && c.room == this
      modifies this`log
      ensures Valid() && State() == old(State()) && Refs() == old(Refs())
      ensures Answered(old(Now()), Now(), c, payload)
    {
      var _ := c.Write(payload);
    }

    /** Only the creator starts the game, and only once; the game is active when the service has stored it. */
    method StartGame(sender: PlayerConn, now: int, ok: bool)
      requires Valid() && sender.room == this
      modifies this, g, players.Values
      ensures Valid()
      ensures Step(old(State()), Start(sender.player.username, now, ok), State())
      ensures StartAnswered(old(State()), sender, ok, old(Now()), Now())
      ensures Shrunk(old(players)) && old(announced) <= announced && old(log) <= log
      ensures g.sessions == old(g.sessions)
      ensures g.leaderboard == old(g.leaderboard) || (fresh(g.leaderboard) && fresh(g.leaderboard.ranks))
    {
      g.BoardFollowsMap();
      if g.creator != sender.player.username {
        Answer(sender, CError(OnlyCreator));
        return;
      }
      if active {
        Answer(sender, CError(AlreadyStarted));
        return;
      }
      BeginGame(now, ok);
      TellStarted(sender, ok);
    }

    method TellStarted(sender: PlayerConn, ok: bool)
      requires Valid() && sender.room == this
      modifies this`players, this`announced, this`announcements, this`log, players.Values
      ensures Valid() && State() == old(State()) && Refs() == old(Refs())
      ensures if ok then Reached(old(Now()), Now(), CStart) && Followed(old(Now()), Now(), CData)
              else Answered(old(Now()), Now(), sender, CError(StartFailed))
    {
      if !ok {
        Answer(sender, CError(StartFailed));
        return;
      }
      ghost var a := Now();
      Broadcast(CStart);
      ghost var b := Now();
      Broadcast(CData);
      ReachedTwice(a, b, Now(), CStart, CData);
    }

    method BeginGame(now: int, ok: bool)
      requires Valid() && !active
      modifies this`active, this`calls, g
      ensures Valid()
      ensures var s := old(State());
        && IsOrdering(State().game.ranks, s.game.sessions.Keys)
        && State() == s.(active := ok, game := s.game.Start(now, State().game.ranks),
                         calls := s.calls + [Call.StartGame(ok)])
      ensures g.sessions == old(g.sessions) && fresh(g.leaderboard) && fresh(g.leaderboard.ranks)
    {
      StartBoard(now);
      CallService(Call.StartGame(ok));
      SetActive(ok);
    }

    method StartBoard(now: int)
      requires Valid()
      modifies g
      ensures Valid()
      ensures var s := old(State());
        && IsOrdering(State().game.ranks, s.game.sessions.Keys)
        && State() == s.(game := s.game.Start(now, State().game.ranks))
      ensures g.sessions == old(g.sessions) && fresh(g.leaderboard) && fresh(g.leaderboard.ranks)
    {
      g.Start(now);
    }

    method SetActive(on: bool)
      requires Valid()
      modifies this`active
      ensures Valid() && State() == old(State()).(active := on)
      ensures Refs() == old(Refs())
    {
      active := on;
    }

    /** Rejects a guess the room must not pass on; otherwise plays it, and closes the room with the game. */
    method PlayGuess(sender: PlayerConn, text: Option<string>, english: bool, now: int, later: int)
      returns (refusal: Option<Refusal>)
      requires Valid() && sender.room == this
      modifies this, g, g.leaderboard, g.leaderboard.ranks, g.sessions.Values, players.Values
      ensures Valid()
      ensures Step(old(State()), Play(sender.player.username, text, english, now, later), State())
      ensures refusal.None? ==> Accepts(old(State()), sender.player.username, text, english)
      ensures refusal.Some? ==> IsRefusal(old(State()), sender.player.username, text, english, refusal.value)
      ensures PlayAnswered(old(State()), sender, text, english, now, later, old(Now()), Now())
      ensures Shrunk(old(players)) && old(announced) <= announced && old(log) <= log
      ensures Refs() == old(Refs())
    {
      g.BoardFollowsMap();
      var name := sender.player.username;
      RefusedForOneReason(State(), name, text, english);
      refusal := CheckGuess(name, text, english);
      if refusal.Some? {
        Answer(sender, CError(BadGuess(refusal.value)));
        return;
      }
      AcceptGuess(name, text.value, now, later);
    }

    /** The checks in their order: the first that fails is answered with. */
    method CheckGuess(name: string, text: Option<string>, english: bool) returns (refusal: Option<Refusal>)
      requires Valid()
      ensures refusal.None? ==> Accepts(State(), name, text, english)
      ensures refusal.Some? ==> IsRefusal(State(), name, text, english, refusal.value)
    {
      if !active { return Some(NotActive); }
      if name !in g.sessions { return Some(NoSession); }
      var session := g.sessions[name];
      if session.Won() { return Some(AlreadyWon); }
      if !session.CanPlay() { return Some(NoGuessesLeft); }
      if text.None? { return Some(NotText); }
      if |text.value| != WORD_LENGTH { return Some(WrongLength); }
      if exists i :: 0 <= i < |text.value| && !IsLetter(text.value[i]) { return Some(WrongCharacters); }
      if !english { return Some(NotEnglish); }
      return None;
    }

    method AcceptGuess(name: string, text: string, now: int, later: int)
      requires Valid() && name in State().game.sessions && !State().game.sessions[name].Ended()
      modifies this, g, g.leaderboard, g.leaderboard.ranks, g.sessions.Values, players.Values
      ensures Valid() && old(State()).game.BoardHasSessions()
      ensures State() == AfterGuess(old(State()), name, text, now, later)
      ensures GuessShared(old(State()), name, text, now, later, old(Now()), Now())
      ensures Shrunk(old(players)) && old(announced) <= announced && old(log) <= log
      ensures Refs() == old(Refs())
    {
      ghost var a, s := Now(), State();
      ShareGuess(name, text, now, later);
      ghost var b, t := Now(), State();
      CloseIfEnded();
      PlayedIsShared(s, t, State(), name, text, now, later, a, b, Now());
    }

    /** Plays the guess and sends its result to everyone. */
    method ShareGuess(name: string, text: string, now: int, later: int)
      requires Valid() && name in State().game.sessions && !State().game.sessions[name].Ended()
      modifies this`players, this`announced, this`announcements, this`log, this`calls
      modifies g, g.leaderboard, g.leaderboard.ranks, g.sessions.Values, players.Values
      ensures Valid() && GuessPlayed(old(State()), State(), name, text, now, later, old(Now()), Now())
      ensures Refs() == old(Refs())
    {
      var played, offset := PassOn(name, text, now, later);
      Broadcast(CPlay(name, played, offset, Names(g.leaderboard.ranks[..])));
    }

    method CloseIfEnded()
      requires Valid()
      modifies this, players.Values
      ensures Valid() && Refs() == old(Refs())
      ensures State() == if old(State()).game.endedAt.Some? then Closed(old(State())) else old(State())
      ensures if old(State()).game.endedAt.Some? then Shared(old(Now()), Now(), CFinish) else Now() == old(Now())
      ensures Shrunk(old(players)) && old(announced) <= announced && old(log) <= log
    {
      if g.HasEnded() {
        Broadcast(CFinish);
        Close();
      }
    }

    /** Plays an accepted guess and has the service store it. */
    method PassOn(name: string, text: string, now: int, later: int) returns (played: Word, offset: nat)
      requires Valid() && name in State().game.sessions && !State().game.sessions[name].Ended()
      modifies this`calls, g, g.leaderboard, g.leaderboard.ranks, g.sessions.Values
      ensures Valid() && old(State()).game.BoardHasSessions()
      ensures var s := old(State()); var r := s.game.Play(name, NewWord(text), now, later);
        && r.err.None? && State() == s.(game := r.game, calls := s.calls + [AddGuess(name, r.guess, r.isBest)])
        && played == r.guess && offset == r.offset
      ensures Refs() == old(Refs())
    {
      var usersBest;
      played, offset, usersBest := PlayOn(name, text, now, later);
      CallService(AddGuess(name, played, usersBest));
    }

    method PlayOn(name: string, text: string, now: int, later: int)
      returns (played: Word, offset: nat, usersBest: bool)
      requires Valid() && name in State().game.sessions && !State().game.sessions[name].Ended()
      modifies g, g.leaderboard, g.leaderboard.ranks, g.sessions.Values
      ensures Valid() && old(State()).game.BoardHasSessions()
      ensures var s := old(State()); var r := s.game.Play(name, NewWord(text), now, later);
        && r.err.None? && State() == s.(game := r.game)
        && played == r.guess && offset == r.offset && usersBest == r.isBest
      ensures Refs() == old(Refs())
    {
      var err;
      offset, usersBest, err, played := g.Play(name, NewWord(text), now, later);
    }

    /** Kicks out an older connection of the player, adds a session for a new name, and lists the connection
        if it can be written to. */
    method JoinRoom(conn: PlayerConn) returns (ghost k: nat)
      requires Valid() && conn.room == this
      modifies this, g, players.Values, conn
      ensures Valid()
      ensures old(State()).game.BoardHasSessions() && State() == Entered(old(State()), conn.player)
      ensures ShrunkBut(old(players), conn) && old(announced) <= announced
      ensures fresh(g.sessions.Values - old(g.sessions.Values)) && g.leaderboard == old(g.leaderboard)
      ensures conn.player.username in old(players) ==>
        var kicked := old(players)[conn.player.username]; kicked in announced && !kicked.active
      ensures ListedOrClosed(conn)
      ensures old(log) <= log && |old(log)| <= k && SeatedAt(Now(), conn, k)
      ensures TheyHeard(old(Now()), Now(), conn, k)
    {
      g.BoardFollowsMap();
      var name := conn.player.username;
      ghost var a := Now();
      ghost var gone := if name in players then {players[name]} else {};
      KickOut(name);
      ghost var b := Now();
      k := Admit(conn);
      HeardAfterKick(a, b, Now(), conn, k, gone);
    }

    /** A session for a new name, then a seat for the connection. */
    method Admit(conn: PlayerConn) returns (ghost k: nat)
      requires Valid() && conn.room == this && conn.player.username !in players
      modifies this`players, this`announced, this`announcements, this`log, g, players.Values, conn
      ensures Valid()
      ensures State() == Entered(old(State()), conn.player)
      ensures ShrunkBut(old(players), conn) && old(announced) <= announced
      ensures fresh(g.sessions.Values - old(g.sessions.Values)) && g.leaderboard == old(g.leaderboard)
      ensures ListedOrClosed(conn)
      ensures old(log) <= log && k == |old(log)| && SeatedAt(Now(), conn, k)
      ensures TheyHeard(old(Now()), Now(), conn, k)
    {
      Enter(conn.player);
      k := SeatPlayer(conn);
    }

    method KickOut(name: string)
      requires Valid()
      modifies this`players, this`announced, this`announcements, this`log, players.Values
      ensures Valid() && State() == old(State()) && Refs() == old(Refs())
      ensures name !in players
      ensures Spread(old(Now()), Now(), {name}, if name in old(players) then {old(players)[name]} else {})
      ensures name in old(players) ==> old(players)[name] in announced
    {
      if name in players {
        var kicked := players[name];
        assert kicked.active && OpenConns([kicked]) == {kicked} && ActiveNames([kicked]) == {name};
        LeaveRoom([kicked]);
      }
    }

    method Enter(p: Player)
      requires Valid()
      modifies g
      ensures Valid() && Now() == old(Now())
      ensures State() == Entered(old(State()), p)
      ensures fresh(g.sessions.Values - old(g.sessions.Values)) && g.leaderboard == old(g.leaderboard)
    {
      if p.username !in g.sessions { AddSession(p); }
    }

    ghost predicate ShrunkBut(was: map<string, PlayerConn>, conn: PlayerConn)
      reads this`players
    {
      forall n :: n in players ==> players[n] == conn || (n in was && players[n] == was[n])
    }

    /** The connection is on the list, or closed. */
    predicate ListedOrClosed(conn: PlayerConn)
      reads this`players, conn
    {
      conn.active ==> conn.player.username in players && players[conn.player.username] == conn
    }

    method SeatPlayer(conn: PlayerConn) returns (ghost k: nat)
      requires Valid() && conn.room == this && conn.player.username !in players
      modifies this`players, this`announced, this`announcements, this`log, players.Values, conn
      ensures Valid() && State() == old(State()) && Refs() == old(Refs())
      ensures ShrunkBut(old(players), conn) && old(announced) <= announced
      ensures ListedOrClosed(conn)
      ensures old(log) <= log && k == |old(log)| && SeatedAt(Now(), conn, k)
      ensures TheyHeard(old(Now()), Now(), conn, k)
    {
      ghost var a := Now();
      k := |log|;
      var ok := conn.Write(CData);
      if !ok {
        CloseUnlisted(conn);
        return;
      }
      ListConn(conn);
      ghost var b := Now();
      Broadcast(CJoin(conn.player.username));
      SeatedAndHeard(a, b, Now(), conn);
    }

    method ListConn(conn: PlayerConn)
      requires Valid() && conn.active && conn.room == this
      modifies this`players
      ensures Valid() && State() == old(State())
      ensures players == old(players)[conn.player.username := conn]
      ensures Refs() == old(Refs())
    {
      players := players[conn.player.username := conn];
    }

    method AddSession(p: Player)
      requires Valid() && p.username !in g.sessions
      modifies g
      ensures Valid() && State() == old(State()).(game := old(State()).game.Join(p))
      ensures fresh(g.sessions.Values - old(g.sessions.Values)) && g.leaderboard == old(g.leaderboard)
    {
      BoardNamesHaveSessions();
      g.Join(p);
    }

    lemma BoardNamesHaveSessions()
      requires g.Valid()
      ensures forall u :: u in g.leaderboard.positions ==> u in g.sessions
    {
      forall u | u in g.leaderboard.positions ensures u in g.sessions {
        assert u in Elements(Names(g.leaderboard.ranks[..]));
        var k :| 0 <= k < g.leaderboard.ranks.Length && Names(g.leaderboard.ranks[..])[k] == u;
        assert g.leaderboard.ranks[k] in g.leaderboard.ranks[..];
      }
    }

    method CloseUnlisted(conn: PlayerConn)
      requires Valid() && conn.player.username !in players
      modifies conn
      ensures Valid() && State() == old(State())
      ensures Refs() == old(Refs())
      ensures !conn.active
    {
      conn.Close();
    }

    /** leave, seen from the room. */
    method LeaveRoom(conns: seq<PlayerConn>)
      requires Valid() && forall c :: c in conns ==> c.room == this
      modifies this`players, this`announced, this`announcements, this`log, players.Values, conns
      ensures Valid() && State() == old(State())
      ensures Spread(old(Now()), Now(), old(ActiveNames(conns)), old(OpenConns(conns)))
      ensures players.Keys !! old(ActiveNames(conns))
      ensures forall c :: c in conns ==> !c.active
      ensures forall c :: c in old(OpenConns(conns)) ==> c in announced
      ensures Refs() == old(Refs())
    {
      ghost var game := g.State();
      Leave(conns);
      assert g.State() == game;
    }

    /** Closes every connection, then has the service store the results or wipe the game. */
    method Close()
      requires Valid()
      modifies this, players.Values
      ensures Valid() && State() == Closed(old(State())) && Refs() == old(Refs())
      ensures Shrunk(old(players))
      ensures !old(closed) ==> players == map[] && forall c :: c in old(players.Values) ==> !c.active
      ensures announced == old(announced) && log == old(log)
    {
      if closed { return; }
      MarkClosed();
      CloseAll();
      if g.startedAt.Some? { CallService(if g.HasEnded() then FinishGame else WipeGameData); }
    }

    method MarkClosed()
      requires Valid()
      modifies this`closed, this`active
      ensures Valid() && State() == old(State()).(closed := true, active := false)
      ensures Refs() == old(Refs())
    {
      closed, active := true, false;
    }

    method CallService(c: Call)
      requires Valid()
      modifies this`calls
      ensures Valid() && State() == old(State()).(calls := old(State()).calls + [c])
      ensures Refs() == old(Refs())
    {
      calls := calls + [c];
    }

    method CloseAll()
      requires Valid()
      modifies this`players, players.Values
      ensures Valid() && State() == old(State())
      ensures players == map[] && forall c :: c in old(players.Values) ==> !c.active
      ensures Refs() == old(Refs())
    {
      while players != map[]
        invariant Valid() && State() == old(State()) && Refs() == old(Refs())
        invariant Shrunk(old(players))
        invariant forall n :: n in old(players) ==> n in players || !old(players)[n].active
        decreases players.Keys
      {
        var name :| name in players;
        CloseOne(name);
      }
    }

    method CloseOne(name: string)
      requires Valid() && name in players
      modifies this`players, players[name]
      ensures Valid() && State() == old(State())
      ensures players == old(players) - {name} && !old(players)[name].active
      ensures Refs() == old(Refs())
    {
      players[name].Close();
      players := players - {name};
    }

    // ---------- the loop ----------

    /** What becomes of a connection that joins or leaves. */
    ghost predicate Handled(m: Message, c: PlayerConn, wasActive: bool)
      reads this`players, this`announced, c
    {
      if m.PJoin? then ListedOrClosed(c) else !c.active && (wasActive ==> c in announced)
    }

    /** Nothing but new objects and the named connections has come into the room. */
    twostate predicate OnlyNew(conns: set<PlayerConn>)
      reads this, g
    {
      && (g.leaderboard == old(g.leaderboard) || (fresh(g.leaderboard) && fresh(g.leaderboard.ranks)))
      && fresh(g.sessions.Values - old(g.sessions.Values))
      && (forall n :: n in players ==> (n in old(players) && players[n] == old(players)[n]) || players[n] in conns)
    }

    /** One turn of the loop. */
    method Handle(m: Message)
      requires Valid() && forall c :: c in ConnsOf(m) + SenderOf(m) ==> c.room == this
      modifies this, g, g.leaderboard, g.leaderboard.ranks, g.sessions.Values, players.Values, ConnsOf(m)
      ensures Valid()
      ensures Step(old(State()), ToEvent(m), State())
      ensures OnlyNew(ConnsOf(m))
      ensures Responds(m, old(State()), old(Now()), Now())
      ensures forall c :: c in ConnsOf(m) ==> Handled(m, c, old(c.active))
    {
      match m
      case SStart(sender, now, ok) => StartGame(sender, now, ok);
      case SPlay(sender, text, english, now, later) => var _ := PlayGuess(sender, text, english, now, later);
      case _ => HandleOther(m);
    }

    method HandleOther(m: Message)
      requires Valid() && !m.SStart? && !m.SPlay? && forall c :: c in ConnsOf(m) + SenderOf(m) ==> c.room == this
      modifies this, g, players.Values, ConnsOf(m)
      ensures Valid()
      ensures Step(old(State()), ToEvent(m), State())
      ensures OnlyNew(ConnsOf(m))
      ensures Responds(m, old(State()), old(Now()), Now())
      ensures forall c :: c in ConnsOf(m) ==> Handled(m, c, old(c.active))
    {
      if m.PJoin? {
        var _ := JoinRoom(m.conn);
      } else {
        HandleRest(m);
      }
    }

    method HandleRest(m: Message)
      requires Valid() && (m.SMessage? || m.PLeave? || m.Unknown? || m.Shut?)
      requires forall c :: c in ConnsOf(m) + SenderOf(m) ==> c.room == this
      modifies this, players.Values, ConnsOf(m)
      ensures Valid()
      ensures Step(old(State()), ToEvent(m), State())
      ensures Shrunk(old(players)) && Refs() == old(Refs())
      ensures Responds(m, old(State()), old(Now()), Now())
      ensures forall c :: c in ConnsOf(m) ==> Handled(m, c, old(c.active))
    {
      g.BoardFollowsMap();
      match m
      case SMessage(sender, isText) =>
        if isText {
          Broadcast(CMessage(sender.player.username));
        } else {
          Answer(sender, CError(BadMessage));
        }
      case PLeave(conn) => LeaveRoom([conn]);
      case Unknown(sender) => Answer(sender, CError(UnknownType));
      case Shut => Close();
    }

    /** A turn as the loop sees it. */
    method Turn(m: Message)
      requires Valid() && forall c :: c in ConnsOf(m) + SenderOf(m) ==> c.room == this
      modifies this, g, g.leaderboard, g.leaderboard.ranks, g.sessions.Values, players.Values, ConnsOf(m)
      ensures Valid()
      ensures Step(old(State()), ToEvent(m), State())
      ensures OnlyNew(ConnsOf(m))
      ensures old(announced) <= announced
    {
      Handle(m);
    }

    /** The loop, until the messages run out or the room is closed: a run of the state machine. */
    method Run(messages: seq<Message>) returns (ghost states: seq<RoomState>, ghost events: seq<RoomEvent>)
      requires Valid()
      requires forall m :: m in messages ==>
        (forall c :: c in ConnsOf(m) + SenderOf(m) ==> c.room == this) && (m.SPlay? ==> m.now > 0)
      modifies this, g, g.leaderboard, g.leaderboard.ranks, g.sessions.Values, players.Values
      modifies set m, c | m in messages && c in ConnsOf(m) :: c
      ensures Valid()
      ensures |events| <= |messages| && (|events| < |messages| ==> closed)
      ensures IsRunOf(states, events, old(State()), State(), messages, |events|)
      ensures old(announced) <= announced
    {
      states, events := [State()], [];
      ghost var conns := set m, c | m in messages && c in ConnsOf(m) :: c;
      var i := 0;
      while i < |messages| && !closed
        invariant 0 <= i <= |messages|
        invariant Valid() && OnlyNew(conns)
        invariant IsRunOf(states, events, old(State()), State(), messages, i)
        invariant old(announced) <= announced
      {
        assert messages[i] in messages;
        Turn(messages[i]);
        RunExtends(states, events, old(State()), messages, i, State());
        states, events := states + [State()], events + [ToEvent(messages[i])];
        i := i + 1;
      }
    }
  }

  /** A run from one state to another, on the events of the first `n` messages. */
  predicate IsRunOf(states: seq<RoomState>, events: seq<RoomEvent>, first: RoomState, last: RoomState,
                    messages: seq<Message>, n: nat)
    requires n <= |messages|
  {
    && IsRoomRun(states, events) && |events| == n && states[0] == first && states[n] == last
    && forall k :: 0 <= k < n ==> events[k] == ToEvent(messages[k])
  }

  lemma RunExtends(states: seq<RoomState>, events: seq<RoomEvent>, first: RoomState, messages: seq<Message>, n: nat,
                   t: RoomState)
    requires n < |messages| && |states| == |events| + 1 == n + 1 && IsRunOf(states, events, first, states[n], messages, n)
    requires Possible(states[n], ToEvent(messages[n])) && Step(states[n], ToEvent(messages[n]), t)
    ensures IsRunOf(states + [t], events + [ToEvent(messages[n])], first, t, messages, n + 1)
  {
  }
}
