/**
 The mute button and the room's idea of it: the call session, the server's seat for it, and the
 confirmations on their way back. What we send the server reads in order, and what it sends we
 hear in order; a message is taken as read when it is sent, since nothing we can see happens
 between. Whoever else acts on the server (administrators, a restriction, a full room) is free.
 */
module MuteAgreement {
  import opened Basics
  import opened CallModel
  import CallRuns

  // Our place in a room, as the server holds it.
  datatype Seat = Out | In(user: string, room: string, muted: bool, byAdmin: bool)

  datatype Echo = Echo(user: string, muted: bool)

  // The server's side of the connection: our seat, and the mutes it announced that we have yet to hear.
  datatype Server = Server(seat: Seat, echoes: seq<Echo>)

  datatype World = World(session: Session, server: Server)

  const BEFORE := World(START, Server(Out, []))

  // What the server makes of a join: whether the room exists and has a place, and whether an
  // administrator muted the account.
  datatype Ruling = Ruling(admits: bool, restricted: bool)

  datatype Happening =
    | Does(event: Event, ruling: Ruling)     // a call, or any message but a mute
    | Hears                                  // the oldest announced mute reaches us
    | Announces(user: string, muted: bool)   // somebody's mute; our own, when an administrator does it
    | Evicted                                // a kick, a ban, or a sign-in elsewhere
    | Lost                                   // the connection, and all that was on the way with it

  predicate Sits(seat: Seat, user: string, room: string) {
    seat.In? && seat.user == user && seat.room == room
  }

  function ServeMute(v: Server, user: string, room: string, muted: bool): Server {
    if !Sits(v.seat, user, room) || (!muted && v.seat.byAdmin) then v
    else Server(v.seat.(muted := muted), v.echoes + [Echo(user, muted)])
  }

  function Serve(v: Server, message: Message, ruling: Ruling): Server {
    match message
    case Authenticate(_, _) => v
    case JoinRoom(room, user, _) =>
      if Sits(v.seat, user, room) || !ruling.admits then v
      else v.(seat := In(user, room, ruling.restricted, ruling.restricted))
    case LeaveRoom(room, user) => if Sits(v.seat, user, room) then v.(seat := Out) else v
    case Mute(room, user) => ServeMute(v, user, room, true)
    case Unmute(room, user) => ServeMute(v, user, room, false)
  }

  function ServeAll(v: Server, said: seq<Sent>, ruling: Ruling): Server {
    if said == [] then v
    else
      var before := ServeAll(v, said[..|said| - 1], ruling);
      var last := said[|said| - 1];
      if last.delivered then Serve(before, last.message, ruling) else before
  }

  // Another identity on the connection starts with no seat.
  function Recognised(v: Server, e: Event): Server {
    if e.AuthenticatedAs? && v.seat.In? && v.seat.user != e.user then v.(seat := Out) else v
  }

  function Happens(w: World, h: Happening): World {
    match h
    case Does(e, ruling) =>
      if e.MuteEcho? then w
      else World(Next(w.session, e), ServeAll(Recognised(w.server, e), CallRuns.Said(w.session, e), ruling))
    case Hears =>
      if w.server.echoes == [] then w
      else
        var echo := w.server.echoes[0];
        World(Next(w.session, MuteEcho(echo.user, echo.muted)), w.server.(echoes := w.server.echoes[1..]))
    case Announces(user, muted) =>
      var seat := w.server.seat;
      w.(server := Server(if seat.In? && seat.user == user then seat.(muted := muted, byAdmin := muted) else seat,
                          w.server.echoes + [Echo(user, muted)]))
    case Evicted => w.(server := w.server.(seat := Out))
    case Lost => w.(server := Server(Out, []))
  }

  function RunOf(w: World, hs: seq<Happening>): World {
    if hs == [] then w else Happens(RunOf(w, hs[..|hs| - 1]), hs[|hs| - 1])
  }

  // --- Agreement ----------------------------------------------------------------------------

  // The flag once these have been heard.
  function Heard(muted: bool, user: string, echoes: seq<Echo>): bool
    decreases |echoes|
  {
    if echoes == [] then muted
    else Heard(if echoes[0].user == user then echoes[0].muted else muted, user, echoes[1..])
  }

  function Settled(w: World): bool {
    Heard(w.session.muted, w.session.user, w.server.echoes)
  }

  predicate InTheRoom(w: World) {
    w.session.room != "" && Sits(w.server.seat, w.session.user, w.session.room)
  }

  // Where both sides have us in the same room, the button is settling on what the room has.
  predicate Agrees(w: World) {
    InTheRoom(w) ==> Settled(w) == w.server.seat.muted
  }

  // A mute an administrator put on is a mute.
  predicate Sane(w: World) {
    w.server.seat.In? && w.server.seat.byAdmin ==> w.server.seat.muted
  }

  // Something about us is still on its way.
  predicate Awaits(echoes: seq<Echo>, user: string) {
    exists e <- echoes :: e.user == user
  }

  // What the server will have for our microphone once it has read a join, if it has us at all.
  predicate SeatedBy(seat: Seat, user: string, room: string, delivered: bool, ruling: Ruling) {
    Sits(seat, user, room) || (delivered && ruling.admits)
  }

  predicate MutedBy(seat: Seat, user: string, room: string, ruling: Ruling) {
    if Sits(seat, user, room) then seat.muted else ruling.restricted
  }

  /**
   The three ways the button comes to say something else than the room:
   a change of it that is lost, or refused because an administrator muted us, with no other on its way;
   walking into a room under another flag than the server seats us with;
   and a rejoin that leaves the flag as it was, with another on its way or on the seat.
   */
  predicate Clashes(w: World, h: Happening) {
    var s, seat, echoes := w.session, w.server.seat, w.server.echoes;
    h.Does? &&
    match h.event
    case SetMuted(muted, ok) =>
      InTheRoom(w) && (!ok || (!muted && seat.byAdmin)) && muted != s.muted && !Awaits(echoes, s.user)
    case Join(room, _, ok) =>
      && room != ""
      && SeatedBy(seat, s.user, room, ok && s.user != "", h.ruling)
      && Settled(w) != MutedBy(seat, s.user, room, h.ruling)
    case AuthenticatedAs(user, joinOk, muteOk) =>
      && s.room != ""
      && !(s.muted && joinOk && muteOk)
      && SeatedBy(seat, user, s.room, joinOk, h.ruling)
      && Heard(s.muted, user, echoes) != MutedBy(seat, user, s.room, h.ruling)
    case _ => false
  }

  lemma {:induction false} HeardLast(muted: bool, user: string, echoes: seq<Echo>, last: Echo)
    ensures Heard(muted, user, echoes + [last]) == if last.user == user then last.muted else Heard(muted, user, echoes)
    decreases |echoes|
  {
    if echoes != [] {
      HeardLast(if echoes[0].user == user then echoes[0].muted else muted, user, echoes[1..], last);
      assert (echoes + [last])[1..] == echoes[1..] + [last];
    }
  }

  // The last of them about us decides, and what the flag was before only when there is none.
  lemma {:induction false} HeardDecides(before: bool, other: bool, user: string, echoes: seq<Echo>)
    ensures !Awaits(echoes, user) ==> Heard(before, user, echoes) == before
    ensures Awaits(echoes, user) ==> Heard(before, user, echoes) == Heard(other, user, echoes)
    decreases |echoes|
  {
    if echoes != [] {
      var rest := echoes[1..];
      HeardDecides(before, other, user, rest);
      assert echoes == [echoes[0]] + rest;
      assert Awaits(echoes, user) <==> echoes[0].user == user || Awaits(rest, user);
      hide Awaits;
    }
  }

  lemma {:induction false} ServeOne(v: Server, m: Sent, ruling: Ruling)
    ensures ServeAll(v, [m], ruling) == if m.delivered then Serve(v, m.message, ruling) else v
  {
    assert [m][..0] == [];
  }

  lemma {:induction false} ServeTwo(v: Server, m: Sent, n: Sent, ruling: Ruling)
    ensures var first := ServeAll(v, [m], ruling);
      ServeAll(v, [m] + [n], ruling) == if n.delivered then Serve(first, n.message, ruling) else first
  {
    assert ([m] + [n])[..1] == [m];
  }

  // Leaves, drops, sign-ins and news touch neither the flag nor the seat of somebody still in a room.
  lemma {:induction false} OthersChangeNothing(w: World, e: Event, ruling: Ruling)
    requires !e.Join? && !e.SetMuted? && !e.AuthenticatedAs? && !e.MuteEcho?
    ensures var n, s := Happens(w, Does(e, ruling)), w.session;
      n.session.room == "" ||
      (n.session.room == s.room && n.session.user == s.user && n.session.muted == s.muted && n.server == w.server)
  {
    var said := CallRuns.Said(w.session, e);
    assert said == [] || said == [said[0]];
    if said != [] {
      ServeOne(w.server, said[0], ruling);
    }
    hide ServeAll, Displace, OnNews, OnChoice, OnOffer, OnSocket, OnSignIn;
  }

  lemma {:induction false} SetMutedAgrees(w: World, muted: bool, ok: bool, ruling: Ruling)
    requires Agrees(w) && Sane(w)
    ensures var h := Does(SetMuted(muted, ok), ruling); Agrees(Happens(w, h)) <==> !Clashes(w, h)
  {
    var s := w.session;
    if s.room != "" {
      ServeOne(w.server, Sent(if muted then Mute(s.room, s.user) else Unmute(s.room, s.user), ok), ruling);
      HeardLast(muted, s.user, w.server.echoes, Echo(s.user, muted));
      HeardDecides(s.muted, muted, s.user, w.server.echoes);
      HeardDecides(muted, s.muted, s.user, w.server.echoes);
      hide ServeAll, Heard, Awaits;
    }
  }

  lemma {:induction false} JoinAgrees(w: World, room: string, name: string, ok: bool, ruling: Ruling)
    requires Agrees(w) && Sane(w)
    ensures var h := Does(Join(room, name, ok), ruling); Agrees(Happens(w, h)) <==> !Clashes(w, h)
  {
    ServeOne(w.server, Sent(JoinRoom(room, w.session.user, name), ok), ruling);
    assert ServeAll(w.server, [], ruling) == w.server;
    hide ServeAll, Heard;
  }

  lemma {:induction false} RejoinAgrees(w: World, user: string, joinOk: bool, muteOk: bool, ruling: Ruling)
    requires Agrees(w) && Sane(w)
    ensures var h := Does(AuthenticatedAs(user, joinOk, muteOk), ruling); Agrees(Happens(w, h)) <==> !Clashes(w, h)
  {
    var s, e := w.session, AuthenticatedAs(user, joinOk, muteOk);
    if s.room != "" {
      HeardLast(s.muted, user, w.server.echoes, Echo(user, true));
      RejoinServed(w, user, joinOk, muteOk, ruling);
      assert Next(s, e).room == s.room && Next(s, e).user == user && Next(s, e).muted == s.muted;
      hide Next, CallRuns.Said, ServeAll, Heard, Recognised;
    }
  }

  // What the server holds once it has read a rejoin.
  lemma {:induction false} RejoinServed(w: World, user: string, joinOk: bool, muteOk: bool, ruling: Ruling)
    requires w.session.room != ""
    ensures var s, seat := w.session, w.server.seat;
      var served := Happens(w, Does(AuthenticatedAs(user, joinOk, muteOk), ruling)).server;
      && (Sits(served.seat, user, s.room) <==> SeatedBy(seat, user, s.room, joinOk, ruling))
      && (Sits(served.seat, user, s.room) ==>
            if s.muted && joinOk && muteOk then
              served.seat.muted && served.echoes == w.server.echoes + [Echo(user, true)]
            else served.seat.muted == MutedBy(seat, user, s.room, ruling) && served.echoes == w.server.echoes)
  {
    var s := w.session;
    var v := Recognised(w.server, AuthenticatedAs(user, joinOk, muteOk));
    var join, mute := Sent(JoinRoom(s.room, user, s.displayName), joinOk), Sent(Mute(s.room, user), muteOk);
    ServeOne(v, join, ruling);
    ServeTwo(v, join, mute, ruling);
    var said := if joinOk && s.muted then [join] + [mute] else [join];
    assert CallRuns.Said(s, AuthenticatedAs(user, joinOk, muteOk)) == said;
    hide Next, ServeAll, CallRuns.Said;
  }

  // One happening at a time: agreement ends exactly with a clash.
  lemma {:induction false} StepAgreesExactlyWhen(w: World, h: Happening)
    requires Agrees(w) && Sane(w)
    ensures Agrees(Happens(w, h)) <==> !Clashes(w, h)
    ensures Sane(Happens(w, h))
  {
    StaysSane(w, h);
    match h
    case Does(e, ruling) =>
      match e {
        case SetMuted(muted, ok) => SetMutedAgrees(w, muted, ok, ruling);
        case Join(room, name, ok) => JoinAgrees(w, room, name, ok, ruling);
        case AuthenticatedAs(user, joinOk, muteOk) => RejoinAgrees(w, user, joinOk, muteOk, ruling);
        case MuteEcho(_, _) =>
        case _ =>
          OthersChangeNothing(w, e, ruling);
          hide Happens;
      }
    case Announces(user, muted) => HeardLast(w.session.muted, w.session.user, w.server.echoes, Echo(user, muted));
    case Hears =>
    case Evicted =>
    case Lost =>
  }

  lemma {:induction false} ServingStaysSane(v: Server, said: seq<Sent>, ruling: Ruling)
    requires v.seat.In? && v.seat.byAdmin ==> v.seat.muted
    ensures var n := ServeAll(v, said, ruling); n.seat.In? && n.seat.byAdmin ==> n.seat.muted
  {
    if said != [] {
      ServingStaysSane(v, said[..|said| - 1], ruling);
    }
  }

  lemma {:induction false} StaysSane(w: World, h: Happening)
    requires Sane(w)
    ensures Sane(Happens(w, h))
  {
    hide Next, CallRuns.Said, ServeAll;
    if h.Does? {
      ServingStaysSane(Recognised(w.server, h.event), CallRuns.Said(w.session, h.event), h.ruling);
    }
  }

  // --- An administrator's mute --------------------------------------------------------------

  predicate MutedByAdmin(w: World, user: string) {
    w.server.seat.In? && w.server.seat.user == user && w.server.seat.byAdmin
  }

  // An administrator takes it off, the seat it was on is lost, or we are seated anew without it.
  predicate Releases(w: World, h: Happening) {
    var s, seat := w.session, w.server.seat;
    match h
    case Announces(user, muted) => seat.In? && user == seat.user && !muted
    case Evicted => true
    case Lost => true
    case Hears => false
    case Does(e, ruling) =>
      match e
      case Leave(ok) => ok && s.room != "" && Sits(seat, s.user, s.room)
      case Join(room, _, ok) =>
        && ok && s.user != "" && ruling.admits && !Sits(seat, s.user, room)
        && (!ruling.restricted || (seat.In? && seat.user != s.user))
      case AuthenticatedAs(user, joinOk, _) =>
        || (seat.In? && seat.user != user)
        || (joinOk && s.room != "" && ruling.admits && !Sits(seat, user, s.room) && !ruling.restricted)
      case _ => false
  }

  lemma {:induction false} RejoinReleases(w: World, user: string, e: Event, ruling: Ruling)
    requires MutedByAdmin(w, user) && e.AuthenticatedAs?
    ensures MutedByAdmin(Happens(w, Does(e, ruling)), user) <==> !Releases(w, Does(e, ruling))
  {
    var s, v := w.session, Recognised(w.server, e);
    var join, mute := Sent(JoinRoom(s.room, e.user, s.displayName), e.joinOk), Sent(Mute(s.room, e.user), e.muteOk);
    ServeOne(v, join, ruling);
    ServeTwo(v, join, mute, ruling);
    assert ServeAll(v, [], ruling) == v;
    hide Next, ServeAll;
  }

  lemma {:induction false} EventReleases(w: World, user: string, e: Event, ruling: Ruling)
    requires MutedByAdmin(w, user) && !e.AuthenticatedAs?
    ensures MutedByAdmin(Happens(w, Does(e, ruling)), user) <==> !Releases(w, Does(e, ruling))
  {
    var said := CallRuns.Said(w.session, e);
    assert said == [] || said == [said[0]];
    if said != [] {
      ServeOne(w.server, said[0], ruling);
    }
    assert ServeAll(w.server, [], ruling) == w.server;
    hide Next, ServeAll;
  }

  // What we say ourselves never takes it off; walking out and in again does.
  lemma {:induction false} AdminsMuteEndsExactlyWhen(w: World, user: string, h: Happening)
    requires MutedByAdmin(w, user)
    ensures MutedByAdmin(Happens(w, h), user) <==> !Releases(w, h)
  {
    match h
    case Does(e, ruling) =>
      if e.AuthenticatedAs? {
        RejoinReleases(w, user, e, ruling);
      } else {
        EventReleases(w, user, e, ruling);
      }
      hide Happens, Releases, MutedByAdmin;
    case _ =>
      hide Next, ServeAll;
  }

  ghost predicate StandsThroughout(w: World, user: string, hs: seq<Happening>) {
    forall i :: 0 <= i <= |hs| ==> MutedByAdmin(RunOf(w, hs[..i]), user)
  }

  ghost predicate NeverReleased(w: World, hs: seq<Happening>) {
    forall i :: 0 <= i < |hs| ==> !Releases(RunOf(w, hs[..i]), hs[i])
  }

  // Over whole runs it stands exactly as long as none of those happens.
  lemma {:induction false} AdminsMuteStandsExactlyWhen(w: World, user: string, hs: seq<Happening>)
    requires MutedByAdmin(w, user)
    ensures StandsThroughout(w, user, hs) <==> NeverReleased(w, hs)
  {
    hide Happens, MutedByAdmin, Releases;
    if hs == [] {
      assert hs[..0] == [];
    } else {
      var earlier, h := hs[..|hs| - 1], hs[|hs| - 1];
      AdminsMuteStandsExactlyWhen(w, user, earlier);
      StandsSoFar(w, user, hs);
      if MutedByAdmin(RunOf(w, earlier), user) {
        AdminsMuteEndsExactlyWhen(RunOf(w, earlier), user, h);
      } else {
        assert earlier[..|earlier|] == earlier;
      }
      hide StandsThroughout, NeverReleased;
    }
  }

  lemma {:induction false} StandsSoFar(w: World, user: string, hs: seq<Happening>)
    requires hs != []
    ensures var n := |hs| - 1;
      && (StandsThroughout(w, user, hs) <==> StandsThroughout(w, user, hs[..n]) && MutedByAdmin(RunOf(w, hs), user))
      && (NeverReleased(w, hs) <==> NeverReleased(w, hs[..n]) && !Releases(RunOf(w, hs[..n]), hs[n]))
  {
    hide RunOf, MutedByAdmin, Releases;
    var n := |hs| - 1;
    assert forall i :: 0 <= i <= n ==> hs[..n][..i] == hs[..i];
    assert hs[..n + 1] == hs;
  }

  ghost predicate AgreesThroughout(w: World, hs: seq<Happening>) {
    forall i :: 0 <= i <= |hs| ==> Agrees(RunOf(w, hs[..i]))
  }

  ghost predicate NeverClashes(w: World, hs: seq<Happening>) {
    forall i :: 0 <= i < |hs| ==> !Clashes(RunOf(w, hs[..i]), hs[i])
  }

  // Over whole runs, from any agreement: drops, rejoins, kicks, toggles and administrators, in any
  // order, keep the button and the room in agreement exactly as long as nothing clashes.
  lemma {:induction false} ButtonAndRoomAgreeExactlyWhen(w: World, hs: seq<Happening>)
    requires Agrees(w) && Sane(w)
    ensures AgreesThroughout(w, hs) <==> NeverClashes(w, hs)
    ensures Sane(RunOf(w, hs))
  {
    hide Happens, Clashes, Agrees, Sane;
    if hs == [] {
      assert hs[..0] == [];
    } else {
      var n := |hs| - 1;
      var earlier := hs[..n];
      ButtonAndRoomAgreeExactlyWhen(w, earlier);
      assert forall i :: 0 <= i <= n ==> earlier[..i] == hs[..i];
      assert hs[..|hs|] == hs;
      StaysSane(RunOf(w, earlier), hs[n]);
      if AgreesThroughout(w, earlier) {
        assert Agrees(RunOf(w, earlier[..n]));
        StepAgreesExactlyWhen(RunOf(w, earlier), hs[n]);
        Extended(w, hs);
      } else {
        var i :| 0 <= i <= n && !Agrees(RunOf(w, earlier[..i]));
        assert !Agrees(RunOf(w, hs[..i]));
        var j :| 0 <= j < n && Clashes(RunOf(w, earlier[..j]), earlier[j]);
        assert Clashes(RunOf(w, hs[..j]), hs[j]);
      }
    }
  }

  lemma {:induction false} Extended(w: World, hs: seq<Happening>)
    requires hs != []
    ensures var n := |hs| - 1;
      && (AgreesThroughout(w, hs) <==> AgreesThroughout(w, hs[..n]) && Agrees(RunOf(w, hs)))
      && (NeverClashes(w, hs) <==> NeverClashes(w, hs[..n]) && !Clashes(RunOf(w, hs[..n]), hs[n]))
  {
    hide RunOf, Agrees, Clashes;
    var n := |hs| - 1;
    assert forall i :: 0 <= i <= n ==> hs[..n][..i] == hs[..i];
    assert hs[..n + 1] == hs;
  }

  // With nothing about us on its way, agreement is agreement now: button, microphone and room.
  lemma {:induction false} HeardOutAgrees(w: World)
    requires Agrees(w) && InTheRoom(w) && CallRuns.Consistent(w.session)
    requires forall e <- w.server.echoes :: e.user != w.session.user
    ensures w.session.muted == w.server.seat.muted
    ensures w.session.live.Some? ==> w.session.live.value.micMuted == w.server.seat.muted
  {
    NoneHeard(w.session.muted, w.session.user, w.server.echoes);
  }

  lemma {:induction false} NoneHeard(muted: bool, user: string, echoes: seq<Echo>)
    requires forall e <- echoes :: e.user != user
    ensures Heard(muted, user, echoes) == muted
    decreases |echoes|
  {
    if echoes != [] {
      assert echoes[0] in echoes;
      NoneHeard(muted, user, echoes[1..]);
    }
  }

  // --- Runs that show it ------------------------------------------------------------------

  lemma {:induction false} Then(hs: seq<Happening>, h: Happening)
    ensures RunOf(BEFORE, hs + [h]) == Happens(RunOf(BEFORE, hs), h)
  {
    assert (hs + [h])[..|hs|] == hs;
  }

  const FREE := Ruling(true, false)

  const SEATED := [Does(SignIn("ana", "pw", SocketConnected, true), FREE),
                   Does(AuthenticatedAs("u", true, true), FREE),
                   Does(Join("r", "Ana", true), FREE)]

  lemma {:induction false} Seated()
    ensures var w := RunOf(BEFORE, SEATED);
      && w.server == Server(In("u", "r", false, false), [])
      && w.session.room == "r" && w.session.user == "u" && !w.session.muted && w.session.live.None?
  {
    assert RunOf(BEFORE, []) == BEFORE;
    Then([], SEATED[0]);
    Then(SEATED[..1], SEATED[1]);
    Then(SEATED[..2], SEATED[2]);
    assert [] + [SEATED[0]] == SEATED[..1];
    assert SEATED[..1] + [SEATED[1]] == SEATED[..2];
    assert SEATED[..2] + [SEATED[2]] == SEATED;
    ServeOne(BEFORE.server, Sent(Authenticate("ana", "pw"), true), FREE);
    ServeOne(BEFORE.server, Sent(JoinRoom("r", "u", "Ana"), true), FREE);
    hide RunOf, ServeAll;
  }

  const MUTED := SEATED + [Does(SetMuted(true, true), FREE)]

  lemma {:induction false} Muted()
    ensures var w := RunOf(BEFORE, MUTED);
      && w.server == Server(In("u", "r", true, false), [Echo("u", true)])
      && w.session.room == "r" && w.session.user == "u" && w.session.muted
  {
    Seated();
    Then(SEATED, Does(SetMuted(true, true), FREE));
    ServeOne(RunOf(BEFORE, SEATED).server, Sent(Mute("r", "u"), true), FREE);
    hide RunOf, ServeAll;
  }

  const TOGGLED := MUTED + [Does(SetMuted(false, true), FREE)]

  // Two clicks in a row: the echo of the first turns the button back on until the second's comes.
  lemma {:induction false} EchoOvertakesTheButton()
    ensures var w := RunOf(BEFORE, TOGGLED + [Hears]);
      w.session.muted && w.server == Server(In("u", "r", false, false), [Echo("u", false)])
    ensures var w := RunOf(BEFORE, TOGGLED + [Hears] + [Hears]);
      !w.session.muted && w.server == Server(In("u", "r", false, false), [])
  {
    Muted();
    Then(MUTED, Does(SetMuted(false, true), FREE));
    ServeOne(RunOf(BEFORE, MUTED).server, Sent(Unmute("r", "u"), true), FREE);
    Then(TOGGLED, Hears);
    Then(TOGGLED + [Hears], Hears);
    hide RunOf, ServeAll;
  }

  const SIGNED_OUT := MUTED + [Hears] + [Does(Disconnect, FREE)] + [Lost]

  lemma {:induction false} SignedOutMuted()
    ensures var w := RunOf(BEFORE, SIGNED_OUT);
      w.server == BEFORE.server && w.session.room == "" && w.session.muted
  {
    Muted();
    Then(MUTED, Hears);
    Then(MUTED + [Hears], Does(Disconnect, FREE));
    Then(MUTED + [Hears] + [Does(Disconnect, FREE)], Lost);
    hide RunOf, ServeAll;
  }

  const BACK := SIGNED_OUT + [SEATED[0]] + [SEATED[1]] + [SEATED[2]]

  // Signing out muted and in again: the next room is entered with the microphone off here and on
  // for everybody else, with nothing on its way to say so.
  lemma {:induction false} NextRoomEnteredMuted()
    ensures var w := RunOf(BEFORE, BACK); w.session.muted && w.server == Server(In("u", "r", false, false), [])
  {
    SignedOutMuted();
    Then(SIGNED_OUT, SEATED[0]);
    Then(SIGNED_OUT + [SEATED[0]], SEATED[1]);
    Then(SIGNED_OUT + [SEATED[0]] + [SEATED[1]], SEATED[2]);
    ServeOne(BEFORE.server, Sent(Authenticate("ana", "pw"), true), FREE);
    ServeOne(BEFORE.server, Sent(JoinRoom("r", "u", "Ana"), true), FREE);
    hide RunOf, ServeAll;
  }

  const UNMUTED := SEATED + [Announces("u", true)] + [Hears] + [Does(Offer(SFU_USER_ID, "", true), FREE)]
                 + [Does(SetMuted(false, true), FREE)]

  // A click under an administrator's mute: the server refuses, and the microphone is open here
  // while the room has it muted, with nothing on its way to say so.
  lemma {:induction false} UnmutedUnderAForcedMute()
    ensures var w := RunOf(BEFORE, UNMUTED);
      && w.server == Server(In("u", "r", true, true), [])
      && !w.session.muted && w.session.live.Some? && !w.session.live.value.micMuted
  {
    Seated();
    Then(SEATED, Announces("u", true));
    Then(SEATED + [Announces("u", true)], Hears);
    Then(SEATED + [Announces("u", true)] + [Hears], Does(Offer(SFU_USER_ID, "", true), FREE));
    Then(SEATED + [Announces("u", true)] + [Hears] + [Does(Offer(SFU_USER_ID, "", true), FREE)],
         Does(SetMuted(false, true), FREE));
    ServeOne(Server(In("u", "r", true, true), []), Sent(Unmute("r", "u"), true), FREE);
    hide RunOf;
  }

  const FORCED := SEATED + [Announces("u", true)]

  lemma {:induction false} Forced()
    ensures var w := RunOf(BEFORE, FORCED);
      && w.server == Server(In("u", "r", true, true), [Echo("u", true)])
      && w.session.room == "r" && w.session.user == "u" && !w.session.muted
  {
    Seated();
    Then(SEATED, Announces("u", true));
    hide RunOf;
  }

  // Out of the room and in again: an administrator's mute is gone, and no administrator took it off.
  lemma {:induction false} LeavingEndsAForcedMute()
    ensures RunOf(BEFORE, FORCED + [Does(Leave(true), FREE)] + [SEATED[2]]).server.seat == In("u", "r", false, false)
  {
    Forced();
    Then(FORCED, Does(Leave(true), FREE));
    Then(FORCED + [Does(Leave(true), FREE)], SEATED[2]);
    ServeOne(RunOf(BEFORE, FORCED).server, Sent(LeaveRoom("r", "u"), true), FREE);
    ServeOne(Server(Out, [Echo("u", true)]), Sent(JoinRoom("r", "u", "Ana"), true), FREE);
    hide RunOf, ServeAll;
  }

  const DROPPED := FORCED + [Hears] + [Lost] + [SEATED[1]]

  // A dropped connection: the rejoin says the mute again, and it is our own to take off.
  lemma {:induction false} DropMakesAForcedMuteOurOwn()
    ensures RunOf(BEFORE, DROPPED).server.seat == In("u", "r", true, false)
    ensures RunOf(BEFORE, DROPPED + [Does(SetMuted(false, true), FREE)]).server.seat == In("u", "r", false, false)
  {
    Forced();
    Then(FORCED, Hears);
    Then(FORCED + [Hears], Lost);
    Then(FORCED + [Hears] + [Lost], SEATED[1]);
    Then(DROPPED, Does(SetMuted(false, true), FREE));
    var join, mute := Sent(JoinRoom("r", "u", "Ana"), true), Sent(Mute("r", "u"), true);
    ServeOne(Server(Out, []), join, FREE);
    ServeTwo(Server(Out, []), join, mute, FREE);
    ServeOne(RunOf(BEFORE, DROPPED).server, Sent(Unmute("r", "u"), true), FREE);
    hide RunOf, ServeAll;
  }
}
