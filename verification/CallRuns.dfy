/** What every run of the call session keeps, whatever drops, retries and messages interleave. */
module CallRuns {
  import opened Basics
  import opened CallModel

  // --- One media session, born after the last sign-in, muted as we are --------------------

  ghost predicate LiveIsCurrent(s: Session) {
    s.live.Some? ==>
      && s.live.value.micMuted == s.muted
      && s.live.value.settings == s.settings
      && s.live.value.born == s.log.authentications
      && s.live.value.id + 1 == s.log.built
      && s.live.value.id !in s.log.closed
  }

  ghost predicate Consistent(s: Session) {
    && LiveIsCurrent(s)
    && (forall id <- s.log.closed :: id < s.log.built)
    && (forall a <- s.log.applied :: a.media.born == a.authentications)
  }

  predicate TakesTheSession(s: Session, e: Event) {
    e.AuthenticatedAs? || e.Leave? || (e.Kicked? && e.user == s.user) || e.SessionEnded? || e.Disconnect?
  }

  lemma {:induction false} TakingItIsConsistent(s: Session, e: Event)
    requires Consistent(s) && TakesTheSession(s, e)
    ensures Consistent(Next(s, e))
  {
    hide OnSignIn, OnSocket, OnOffer, OnSetMuted, OnMuteEcho, OnNews, OnChoice;
  }

  predicate TouchesTheSession(e: Event) {
    e.Offer? || e.SetMuted? || e.MuteEcho? || IsChoice(e)
  }

  lemma {:induction false} TouchingItIsConsistent(s: Session, e: Event)
    requires Consistent(s) && TouchesTheSession(e)
    ensures Consistent(Next(s, e))
  {
    hide OnSignIn, OnSocket, OnAuthenticated, OnLeave, OnKicked, Displace, OnNews;
  }

  lemma {:induction false} OthersLeaveItAlone(s: Session, e: Event)
    requires !TakesTheSession(s, e) && !TouchesTheSession(e)
    ensures var n := Next(s, e);
      && n.live == s.live && n.muted == s.muted && n.settings == s.settings
      && n.log.built == s.log.built && n.log.closed == s.log.closed
      && n.log.authentications == s.log.authentications && n.log.applied == s.log.applied
  {
    hide OnAuthenticated, OnLeave, Displace, OnSignIn, OnSocket, OnNews, OnChoice, OnJoin;
  }

  lemma {:induction false} NextIsConsistent(s: Session, e: Event)
    requires Consistent(s)
    ensures Consistent(Next(s, e))
  {
    hide Next;
    if TakesTheSession(s, e) {
      TakingItIsConsistent(s, e);
    } else if TouchesTheSession(e) {
      TouchingItIsConsistent(s, e);
    } else {
      OthersLeaveItAlone(s, e);
    }
  }

  lemma {:induction false} RunIsConsistent(events: seq<Event>)
    ensures Consistent(Run(START, events))
  {
    if events != [] {
      hide Next, Consistent;
      RunIsConsistent(events[..|events| - 1]);
      NextIsConsistent(Run(START, events[..|events| - 1]), events[|events| - 1]);
    }
  }

  // Every session displaced so far was closed: all that were built are, but the one in hand.
  ghost predicate AllDisplacedClosed(s: Session) {
    forall id :: 0 <= id < s.log.built ==> id in s.log.closed || (s.live.Some? && s.live.value.id == id)
  }

  lemma {:induction false} TakingClosesIt(s: Session, e: Event)
    requires Consistent(s) && TakesTheSession(s, e) && AllDisplacedClosed(s)
    ensures AllDisplacedClosed(Next(s, e))
  {
    hide OnSignIn, OnSocket, OnOffer, OnSetMuted, OnMuteEcho, OnNews, OnChoice;
    var n := Next(s, e);
    assert n.live.None? && n.log.built == s.log.built;
    assert n.log.closed == if s.live.None? then s.log.closed else s.log.closed + {s.live.value.id};
  }

  lemma {:induction false} TouchingDisplacesNothing(s: Session, e: Event)
    requires Consistent(s) && TouchesTheSession(e) && AllDisplacedClosed(s)
    ensures AllDisplacedClosed(Next(s, e))
  {
    hide OnSignIn, OnSocket, OnAuthenticated, OnLeave, OnKicked, Displace, OnNews;
    var n := Next(s, e);
    assert n.log.closed == s.log.closed && (n.live.Some? <== s.live.Some?);
    assert s.live.Some? ==> n.live.value.id == s.live.value.id && n.log.built == s.log.built;
    if s.live.None? && n.live.Some? {
      assert n.log.built == s.log.built + 1 && n.live.value.id == s.log.built;
    }
  }

  // Over every run, in a room or out of one, no media session is left open behind the one in hand:
  // what a reconnection, a kick, a sign-out or a late offer displaces is closed.
  lemma {:induction false} DisplacedAreClosed(events: seq<Event>)
    ensures AllDisplacedClosed(Run(START, events))
  {
    if events != [] {
      hide Next, Consistent, AllDisplacedClosed;
      var earlier, e := events[..|events| - 1], events[|events| - 1];
      var s := Run(START, earlier);
      DisplacedAreClosed(earlier);
      RunIsConsistent(earlier);
      if TakesTheSession(s, e) {
        TakingClosesIt(s, e);
      } else if TouchesTheSession(e) {
        TouchingDisplacesNothing(s, e);
      } else {
        OthersDisplaceNothing(s, e);
      }
    }
  }

  lemma {:induction false} OthersDisplaceNothing(s: Session, e: Event)
    requires !TakesTheSession(s, e) && !TouchesTheSession(e) && AllDisplacedClosed(s)
    ensures AllDisplacedClosed(Next(s, e))
  {
    OthersLeaveItAlone(s, e);
    hide Next;
  }

  // --- Coming back after a drop -----------------------------------------------------------

  // Everything but a person's own choices about the room, the server taking us out, and what it
  // says of our mute.
  predicate Peaceful(s: Session, e: Event) {
    && !(e.SignIn? || e.Join? || e.Leave? || e.SetMuted? || e.Disconnect? || e.SessionEnded?)
    && (e.MuteEcho? || e.Kicked? ==> e.user != s.user)
  }

  ghost predicate PeacefulThroughout(s: Session, events: seq<Event>) {
    forall i :: 0 <= i < |events| ==> Peaceful(Run(s, events[..i]), events[i])
  }

  // What an event makes a session say to the server.
  function Said(s: Session, e: Event): seq<Sent> {
    match e
    case SignIn(username, password, socket, ok) =>
      if username == "" || password == "" || !socket.SocketConnected? then []
      else [Sent(Authenticate(username, password), ok)]
    case Join(room, name, ok) => if s.user == "" then [] else [Sent(JoinRoom(room, s.user, name), ok)]
    case Leave(ok) => if s.room == "" then [] else [Sent(LeaveRoom(s.room, s.user), ok)]
    case SetMuted(muted, ok) =>
      if s.room == "" then []
      else [Sent(if muted then Mute(s.room, s.user) else Unmute(s.room, s.user), ok)]
    case Socket(socket, ok) =>
      if socket.SocketConnected? && s.username != "" then [Sent(Authenticate(s.username, s.password), ok)] else []
    case AuthenticatedAs(user, joinOk, muteOk) =>
      if s.room == "" then []
      else
        [Sent(JoinRoom(s.room, user, s.displayName), joinOk)]
        + (if joinOk && s.muted then [Sent(Mute(s.room, user), muteOk)] else [])
    case _ => []
  }

  // All it says over a run of peaceful ones, read off the state the run began in.
  function Announcements(s: Session, events: seq<Event>): seq<Sent> {
    if events == [] then []
    else Announcements(s, events[..|events| - 1]) + Said(s, events[|events| - 1])
  }

  predicate SamePlace(s: Session, t: Session) {
    && t.room == s.room && t.displayName == s.displayName && t.muted == s.muted
    && t.username == s.username && t.password == s.password
  }

  lemma {:induction false} SaidIsSent(s: Session, e: Event)
    ensures Next(s, e).log.sent == s.log.sent + Said(s, e)
  {
    hide Displace, WithParticipant, Gone, SetMicrophone, OnChoice, OnNews, OnMuteEcho, OnOffer;
  }

  lemma {:induction false} PeacefulStep(s: Session, e: Event)
    requires Peaceful(s, e)
    ensures SamePlace(s, Next(s, e)) && Next(s, e).log.sent == s.log.sent + Said(s, e)
  {
    SaidIsSent(s, e);
    hide OnSignIn, OnSocket, OnNews, OnOffer, Said;
  }

  // Drops, retries and fresh authentications, however many, keep the room, the name and the mute,
  // and each time say exactly: join, then the mute if there is one, to the room we are in.
  lemma {:induction false} ReconnectingKeepsThePlace(s: Session, events: seq<Event>)
    requires PeacefulThroughout(s, events)
    ensures SamePlace(s, Run(s, events))
    ensures Run(s, events).log.sent == s.log.sent + Announcements(s, events)
  {
    if events != [] {
      hide Next, Peaceful;
      var earlier, e := events[..|events| - 1], events[|events| - 1];
      PeacefulSoFar(s, events);
      ReconnectingKeepsThePlace(s, earlier);
      PeacefulStep(Run(s, earlier), e);
      assert Said(Run(s, earlier), e) == Said(s, e);
      hide PeacefulThroughout, Said;
    }
  }

  lemma {:induction false} PeacefulSoFar(s: Session, events: seq<Event>)
    requires events != [] && PeacefulThroughout(s, events)
    ensures var earlier := events[..|events| - 1];
      PeacefulThroughout(s, earlier) && Peaceful(Run(s, earlier), events[|events| - 1])
  {
    hide Run, Peaceful;
    var earlier := events[..|events| - 1];
    assert forall i :: 0 <= i < |earlier| ==> earlier[..i] == events[..i] && earlier[i] == events[i];
  }

  // --- Nobody signed in -------------------------------------------------------------------

  // How many of these events are a socket reaching one of these states.
  function Count(events: seq<Event>, states: set<SocketState>): nat {
    if events == [] then 0
    else
      var last := events[|events| - 1];
      Count(events[..|events| - 1], states) + if last.Socket? && last.socket in states then 1 else 0
  }

  // While there are neither credentials nor an identity, all a socket does is measure once each time
  // it opens, and report the link each time it opens, fails or starts over.
  lemma {:induction false} ProbeIsInvisible(s: Session, events: seq<Event>)
    requires Probing(s) && forall e <- events :: e.Socket?
    ensures Run(s, events) ==
      s.(log := s.log.(
           probes := s.log.probes + Count(events, {SocketConnected}),
           linkReports := s.log.linkReports + Count(events, {SocketConnected, SocketFailed, SocketReconnecting})))
  {
    if events != [] {
      ProbeIsInvisible(s, events[..|events| - 1]);
      assert events[|events| - 1].Socket?;
    }
  }

  ghost predicate SaysNoPassword(sent: seq<Sent>) {
    forall m <- sent :: !m.message.Authenticate?
  }

  lemma {:induction false} SilentStep(s: Session, e: Event)
    requires s.username == "" && !e.SignIn?
    ensures Next(s, e).username == ""
    ensures s.log.sent <= Next(s, e).log.sent
    ensures SaysNoPassword(Next(s, e).log.sent[|s.log.sent|..])
  {
    SaidIsSent(s, e);
    StaysSilent(s, e);
    assert Next(s, e).log.sent[|s.log.sent|..] == Said(s, e);
    hide Next, Said;
  }

  lemma {:induction false} StaysSilent(s: Session, e: Event)
    requires s.username == "" && !e.SignIn?
    ensures Next(s, e).username == "" && SaysNoPassword(Said(s, e))
  {
    hide OnSetMuted, OnOffer, OnNews, OnMuteEcho, OnChoice, OnSignIn, OnSocket, OnJoin;
  }

  // Signed out, whatever sockets open and whatever the server says, the credentials stay gone
  // until somebody types them again.
  lemma {:induction false} SignedOutStaysOut(s: Session, events: seq<Event>)
    requires s.username == "" && forall e <- events :: !e.SignIn?
    ensures var t := Run(s, events);
      t.username == "" && s.log.sent <= t.log.sent && SaysNoPassword(t.log.sent[|s.log.sent|..])
  {
    if events != [] {
      hide Next;
      var earlier, e := events[..|events| - 1], events[|events| - 1];
      SignedOutStaysOut(s, earlier);
      assert !e.SignIn?;
      var before := Run(s, earlier);
      SilentStep(before, e);
      var after := Next(before, e).log.sent;
      assert after[|s.log.sent|..] == before.log.sent[|s.log.sent|..] + after[|before.log.sent|..];
    }
  }

  // The kick that follows the end of a session is about a stranger.
  lemma {:induction false} KickAfterTheEnd(s: Session, user: string)
    requires user != ""
    ensures Next(Next(s, SessionEnded), Kicked(user)) == Next(s, SessionEnded)
  {
    assert Next(s, SessionEnded).participants - {user} == map[];
  }

  // --- The floor --------------------------------------------------------------------------

  lemma {:induction false} NobodyOnTheFloorStep(s: Session, e: Event)
    requires s.sharer == "" && !e.ShareStarted?
    ensures Next(s, e).sharer == "" && Next(s, e).log.forwarded == s.log.forwarded
  {
    hide OnSetMuted, OnOffer, OnMuteEcho, OnChoice, OnSignIn, OnSocket, OnJoin;
  }

  // Once the floor is empty no frame is shown until a share is announced.
  lemma {:induction false} NoFrameWithoutASharer(s: Session, events: seq<Event>)
    requires s.sharer == "" && forall e <- events :: !e.ShareStarted?
    ensures Run(s, events).sharer == "" && Run(s, events).log.forwarded == s.log.forwarded
  {
    if events != [] {
      hide Next;
      NoFrameWithoutASharer(s, events[..|events| - 1]);
      assert !events[|events| - 1].ShareStarted?;
      NobodyOnTheFloorStep(Run(s, events[..|events| - 1]), events[|events| - 1]);
    }
  }

  // --- Outside a room ---------------------------------------------------------------------

  // Leaving a room ends its mute; three steps leave one standing with no room around it: signing
  // out muted, an echo that arrives after leaving, and joining a room with no name.
  lemma {:induction false} MutedOutsideARoomExactlyWhen(s: Session, e: Event)
    requires s.room == "" ==> !s.muted
    ensures Next(s, e).room == "" && Next(s, e).muted <==>
      || (e == Disconnect && s.muted)
      || (e.MuteEcho? && e.muted && e.user == s.user && s.room == "")
      || (e.Join? && e.room == "" && s.muted)
  {
    hide OnNews, OnSignIn, OnSocket, OnJoin, OnOffer, OnChoice, WithParticipant;
  }

  lemma {:induction false} Then(s: Session, events: seq<Event>, e: Event)
    ensures Run(s, events + [e]) == Next(Run(s, events), e)
  {
    assert (events + [e])[..|events|] == events;
  }

  const INTO_A_ROOM := [SignIn("ana", "pw", SocketConnected, true), AuthenticatedAs("u", true, true), Join("r", "Ana", true)]

  lemma {:induction false} IntoARoom()
    ensures var s := Run(START, INTO_A_ROOM);
      s.room == "r" && s.user == "u" && !s.muted && s.sharer == "" && s.live.None?
  {
    assert Run(START, []) == START;
    Then(START, [], INTO_A_ROOM[0]);
    Then(START, INTO_A_ROOM[..1], INTO_A_ROOM[1]);
    Then(START, INTO_A_ROOM[..2], INTO_A_ROOM[2]);
    assert [] + [INTO_A_ROOM[0]] == INTO_A_ROOM[..1];
    assert INTO_A_ROOM[..1] + [INTO_A_ROOM[1]] == INTO_A_ROOM[..2];
    assert INTO_A_ROOM[..2] + [INTO_A_ROOM[2]] == INTO_A_ROOM;
    hide Run, OnNews, OnOffer;
  }

  // Muted in a room, then signed out: the mute outlives both.
  lemma {:induction false} MutedSignOut()
    ensures var s := Run(START, INTO_A_ROOM + [SetMuted(true, true)] + [Disconnect]); s.room == "" && s.user == "" && s.muted
  {
    IntoARoom();
    Then(START, INTO_A_ROOM, SetMuted(true, true));
    Then(START, INTO_A_ROOM + [SetMuted(true, true)], Disconnect);
    hide Run;
  }

  // Likewise the floor: leaving and signing out keep whoever held it.
  lemma {:induction false} SharerOutsideARoomExactlyWhen(s: Session, e: Event)
    requires s.room == "" ==> s.sharer == ""
    ensures Next(s, e).room == "" && Next(s, e).sharer != "" <==>
      || ((e == Disconnect || e.Leave? || (e.Join? && e.room == "")) && s.sharer != "")
      || (e.ShareStarted? && e.user != "" && s.room == "")
  {
    hide OnSetMuted, OnOffer, OnMuteEcho, OnChoice, OnSignIn, OnSocket, OnJoin, WithParticipant;
  }

  // Leaving while somebody shares: the floor is still theirs, outside any room.
  lemma {:induction false} LeftDuringAShare()
    ensures var s := Run(START, INTO_A_ROOM + [ShareStarted("v", false)] + [Leave(true)]); s.room == "" && s.sharer == "v"
  {
    IntoARoom();
    Then(START, INTO_A_ROOM, ShareStarted("v", false));
    Then(START, INTO_A_ROOM + [ShareStarted("v", false)], Leave(true));
    hide Run;
  }
}
