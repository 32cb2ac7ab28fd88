/**
 The call session as a state machine: every handler and API call is one step, taken whole.

 The signaling socket, the media layer and the server are the environment. What a send or a
 factory answered is part of the event, so every run is a run with some choice of failures.
 */
module CallModel {
  import opened Basics

  datatype State = Idle | Connecting | Authenticated | InCall | Failed

  datatype SocketState = SocketDisconnected | SocketConnecting | SocketConnected | SocketFailed | SocketReconnecting

  datatype Participant = Participant(muted: bool, sharingScreen: bool, sharingAudio: bool)

  const SFU_USER_ID := "sfu"

  datatype Message =
    | Authenticate(username: string, password: string)
    | JoinRoom(room: string, user: string, name: string)
    | LeaveRoom(room: string, user: string)
    | Mute(room: string, user: string)
    | Unmute(room: string, user: string)

  datatype Sent = Sent(message: Message, delivered: bool)

  // What a person chose for their own ears: kept between calls and told to every media session.
  datatype Settings = Settings(volumes: map<string, real>, input: string, output: string)

  // A media session: which one, how many times we had been authenticated when it was built, its
  // microphone, and the settings it was told.
  datatype Media = Media(id: nat, born: nat, micMuted: bool, settings: Settings)

  // An offer, the session it was handed to, and the authentications seen by then.
  datatype Applied = Applied(sdp: string, media: Media, authentications: nat)

  // What happened so far.
  datatype Log = Log(
    sent: seq<Sent>,
    probes: nat,
    linkReports: nat,
    built: nat,
    closed: set<nat>,
    authentications: nat,
    applied: seq<Applied>,
    forwarded: nat)

  datatype Session = Session(
    state: State,
    user: string,
    room: string,
    displayName: string,
    muted: bool,
    sharer: string,
    participants: map<string, Participant>,
    username: string,
    password: string,
    settings: Settings,
    live: Option<Media>,
    log: Log)

  const START := Session(Idle, "", "", "", false, "", map[], "", "", Settings(map[], "", ""), None,
                         Log([], 0, 0, 0, {}, 0, [], 0))

  datatype Event =
    | SignIn(username: string, password: string, socket: SocketState, ok: bool)
    | Join(room: string, name: string, ok: bool)
    | Leave(ok: bool)
    | SetMuted(muted: bool, ok: bool)
    | Disconnect
    | Socket(socket: SocketState, ok: bool)
    | AuthenticatedAs(user: string, joinOk: bool, muteOk: bool)
    | UserJoined(user: string)
    | UserLeft(user: string)
    | MuteEcho(user: string, muted: bool)
    | Kicked(user: string)
    | SessionEnded
    | ShareStarted(user: string, hasAudio: bool)
    | ShareStopped(user: string)
    | Offer(from: string, sdp: string, factoryOk: bool)
    | MediaConnected
    | MediaFailed
    | RemoteVideo
    | SetVolume(user: string, volume: real)
    | SetInput(device: string)
    | SetOutput(device: string)

  function Say(s: Session, message: Message, ok: bool): Session {
    s.(log := s.log.(sent := s.log.sent + [Sent(message, ok)]))
  }

  // The live session, if any, is taken out and closed: by name, or by its own destructor when its
  // last owner lets go of it.
  function Displace(s: Session): (r: Session)
    ensures r == s.(live := None, log := s.log.(closed := r.log.closed))
  {
    if s.live.None? then s else s.(live := None, log := s.log.(closed := s.log.closed + {s.live.value.id}))
  }

  // The mute flag and the microphone behind it.
  function SetMicrophone(s: Session, muted: bool): (r: Session)
    ensures r == s.(muted := muted, live := r.live)
  {
    s.(muted := muted,
       live := if s.live.None? then None else Some(s.live.value.(micMuted := muted)))
  }

  function EnsureMedia(s: Session, factoryOk: bool): Session {
    if s.live.Some? || !factoryOk then s
    else
      s.(live := Some(Media(s.log.built, s.log.authentications, s.muted, s.settings)),
         log := s.log.(built := s.log.built + 1))
  }

  function Probing(s: Session): bool {
    s.username == "" && s.user == ""
  }

  function Held(s: Session, username: string, password: string): Session {
    s.(username := username, password := password, state := Connecting)
  }

  function OnSignIn(s: Session, username: string, password: string, socket: SocketState, ok: bool): (r: Session)
    ensures r == s.(username := r.username, password := r.password, state := r.state, log := s.log.(sent := r.log.sent))
  {
    if username == "" || password == "" then s
    else
      var held := Held(s, username, password);
      match socket
      case SocketConnected =>
        var said := Say(held, Authenticate(username, password), ok);
        if ok then said else said.(state := Failed)
      case SocketConnecting => held
      case SocketReconnecting => held
      case _ => if ok then held else held.(state := Failed)
  }

  function OnSocket(s: Session, socket: SocketState, ok: bool): (r: Session)
    ensures r == s.(state := r.state,
                     log := s.log.(sent := r.log.sent, probes := r.log.probes, linkReports := r.log.linkReports))
  {
    var reported := s.(log := s.log.(linkReports := s.log.linkReports + 1));
    match socket
    case SocketConnected =>
      var probed := reported.(log := reported.log.(probes := s.log.probes + 1));
      if s.username == "" then probed else Say(probed, Authenticate(s.username, s.password), ok)
    case SocketFailed => if Probing(s) then reported else reported.(state := Failed)
    case SocketReconnecting => if Probing(s) then reported else reported.(state := Connecting)
    case _ => s
  }

  // A fresh identity, and nothing left of the connection before it.
  function Welcomed(s: Session, user: string): Session {
    var displaced := Displace(s);
    displaced.(user := user, participants := map[], sharer := "", state := Authenticated,
               log := displaced.log.(authentications := displaced.log.authentications + 1))
  }

  function OnAuthenticated(s: Session, user: string, joinOk: bool, muteOk: bool): (r: Session)
    ensures r == Welcomed(s, user).(log := Welcomed(s, user).log.(sent := r.log.sent))
  {
    var welcomed := Welcomed(s, user);
    if s.room == "" then welcomed
    else
      var joined := Say(welcomed, JoinRoom(s.room, user, s.displayName), joinOk);
      if joinOk && s.muted then Say(joined, Mute(s.room, user), muteOk) else joined
  }

  function EndStay(s: Session): Session {
    Displace(s).(room := "", participants := map[], muted := false, state := Authenticated)
  }

  function OnLeave(s: Session, ok: bool): Session {
    if s.room == "" then Displace(s).(participants := map[], muted := false)
    else Say(EndStay(s), LeaveRoom(s.room, s.user), ok)
  }

  function Gone(s: Session, user: string): (r: Session)
    ensures r == s.(participants := s.participants - {user}, sharer := r.sharer)
  {
    s.(participants := s.participants - {user}, sharer := if user == s.sharer then "" else s.sharer)
  }

  // The whole stay in a room taken down, as a kick and the end of a session do it.
  function TornDown(s: Session): Session {
    Displace(s).(room := "", displayName := "", participants := map[], sharer := "", muted := false)
  }

  function SignedOut(s: Session): Session {
    s.(user := "", username := "", password := "")
  }

  function OnKicked(s: Session, user: string): Session {
    if user == s.user then TornDown(Gone(s, user)).(state := Authenticated) else Gone(s, user)
  }

  function WithParticipant(s: Session, user: string, p: Participant -> Participant): (r: Session)
    ensures r == s.(participants := r.participants)
  {
    if user in s.participants then s.(participants := s.participants[user := p(s.participants[user])]) else s
  }

  // What the room and the media layer tell about others and about themselves.
  predicate IsNews(e: Event) {
    || e.UserJoined? || e.UserLeft? || e.ShareStarted? || e.ShareStopped?
    || e.MediaConnected? || e.MediaFailed? || e.RemoteVideo?
  }

  function OnNews(s: Session, e: Event): (r: Session)
    requires IsNews(e)
    ensures r == s.(participants := r.participants, sharer := r.sharer, state := r.state,
                     log := s.log.(forwarded := r.log.forwarded))
  {
    match e
    case UserJoined(user) =>
      s.(participants := s.participants[
           user := if user in s.participants then s.participants[user] else Participant(false, false, false)])
    case UserLeft(user) => Gone(s, user)
    case ShareStarted(user, hasAudio) =>
      WithParticipant(s, user, (p: Participant) => p.(sharingScreen := true, sharingAudio := hasAudio)).(sharer := user)
    case ShareStopped(user) =>
      WithParticipant(s, user, (p: Participant) => p.(sharingScreen := false, sharingAudio := false))
      .(sharer := if s.sharer == user then "" else s.sharer)
    case MediaConnected => s.(state := InCall)
    case MediaFailed => s.(state := Failed)
    case RemoteVideo => if s.sharer == "" then s else s.(log := s.log.(forwarded := s.log.forwarded + 1))
  }

  predicate IsChoice(e: Event) {
    e.SetVolume? || e.SetInput? || e.SetOutput?
  }

  function Chosen(settings: Settings, e: Event): Settings
    requires IsChoice(e)
  {
    match e
    case SetVolume(user, volume) => settings.(volumes := settings.volumes[user := volume])
    case SetInput(device) => settings.(input := device)
    case SetOutput(device) => settings.(output := device)
  }

  // A choice is kept, and told to the session in hand.
  function OnChoice(s: Session, e: Event): (r: Session)
    requires IsChoice(e)
    ensures r == s.(settings := r.settings, live := r.live)
  {
    s.(settings := Chosen(s.settings, e),
       live := if s.live.None? then None else Some(s.live.value.(settings := Chosen(s.live.value.settings, e))))
  }

  function OnMuteEcho(s: Session, user: string, muted: bool): (r: Session)
    ensures r == s.(participants := r.participants, muted := r.muted, live := r.live)
  {
    var told := WithParticipant(s, user, (p: Participant) => p.(muted := muted));
    if user == s.user then SetMicrophone(told, muted) else told
  }

  function OnOffer(s: Session, from: string, sdp: string, factoryOk: bool): (r: Session)
    ensures r == s.(live := r.live, log := s.log.(built := r.log.built, applied := r.log.applied))
  {
    if from != SFU_USER_ID then s
    else
      var ready := EnsureMedia(s, factoryOk);
      if ready.live.None? then ready
      else
        ready.(log := ready.log.(
          applied := ready.log.applied + [Applied(sdp, ready.live.value, ready.log.authentications)]))
  }

  function OnJoin(s: Session, room: string, name: string, ok: bool): (r: Session)
    ensures r == s.(room := room, displayName := name, log := s.log.(sent := r.log.sent))
  {
    var inside := s.(room := room, displayName := name);
    if s.user == "" then inside else Say(inside, JoinRoom(room, s.user, name), ok)
  }

  function OnSetMuted(s: Session, muted: bool, ok: bool): (r: Session)
    ensures r == s.(muted := r.muted, live := r.live, log := s.log.(sent := r.log.sent))
  {
    if s.room == "" then s
    else Say(SetMicrophone(s, muted), if muted then Mute(s.room, s.user) else Unmute(s.room, s.user), ok)
  }

  function Next(s: Session, e: Event): Session {
    match e
    case SignIn(username, password, socket, ok) => OnSignIn(s, username, password, socket, ok)
    case Join(room, name, ok) => OnJoin(s, room, name, ok)
    case Leave(ok) => OnLeave(s, ok)
    case SetMuted(muted, ok) => OnSetMuted(s, muted, ok)
    case Disconnect => SignedOut(Displace(s).(participants := map[], room := "", state := Idle))
    case Socket(socket, ok) => OnSocket(s, socket, ok)
    case AuthenticatedAs(user, joinOk, muteOk) => OnAuthenticated(s, user, joinOk, muteOk)
    case MuteEcho(user, muted) => OnMuteEcho(s, user, muted)
    case Kicked(user) => OnKicked(s, user)
    case SessionEnded => SignedOut(TornDown(s)).(state := Idle)
    case Offer(from, sdp, factoryOk) => OnOffer(s, from, sdp, factoryOk)
    case UserJoined(_) => OnNews(s, e)
    case UserLeft(_) => OnNews(s, e)
    case ShareStarted(_, _) => OnNews(s, e)
    case ShareStopped(_) => OnNews(s, e)
    case MediaConnected => OnNews(s, e)
    case MediaFailed => OnNews(s, e)
    case RemoteVideo => OnNews(s, e)
    case SetVolume(_, _) => OnChoice(s, e)
    case SetInput(_) => OnChoice(s, e)
    case SetOutput(_) => OnChoice(s, e)
  }

  function Run(s: Session, events: seq<Event>): Session {
    if events == [] then s
    else Next(Run(s, events[..|events| - 1]), events[|events| - 1])
  }
}
