/** The session object and the media sessions it holds, proved equal to CallModel step by step. */
module CallSessions {
  import opened Basics
  import opened CallModel
  import CallRuns

  class MediaSession {
    ghost const id: nat
    ghost const born: nat
    var micMuted: bool
    var settings: Settings
    var closed: bool

    // The options the factory is given carry the devices, and no volumes.
    constructor (ghost id: nat, ghost born: nat, input: string, output: string)
      ensures this.id == id && this.born == born && !micMuted && !closed
      ensures settings == Settings(map[], input, output)
    {
      this.id, this.born := id, born;
      micMuted, closed, settings := false, false, Settings(map[], input, output);
    }

    method SetParticipantVolume(user: string, volume: real)
      modifies this`settings
      ensures settings == old(settings).(volumes := old(settings).volumes[user := volume])
    {
      settings := settings.(volumes := settings.volumes[user := volume]);
    }

    method SetInputDevice(device: string)
      modifies this`settings
      ensures settings == old(settings).(input := device)
    {
      settings := settings.(input := device);
    }

    method SetOutputDevice(device: string)
      modifies this`settings
      ensures settings == old(settings).(output := device)
    {
      settings := settings.(output := device);
    }

    method SetMicrophoneMuted(muted: bool)
      modifies this`micMuted
      ensures micMuted == muted
    {
      micMuted := muted;
    }

    method Close()
      modifies this`closed
      ensures closed
    {
      closed := true;
    }

    // The destructor, which runs once nobody holds the session any more.
    method Destroy()
      modifies this`closed
      ensures closed
    {
      Close();
    }
  }

  datatype Outcome = Accepted | Unsent | InvalidValue | Unauthorized | NotInRoom | Unavailable

  class CallSession {
    var state: State
    var localUser: string
    var roomId: string
    var displayName: string
    var muted: bool
    var screenSharer: string
    var participants: map<string, Participant>
    var pendingUsername: string
    var pendingPassword: string
    var settings: Settings
    var audio: MediaSession?

    // Every media session ever built, oldest first, and what happened to them.
    ghost var sessions: seq<MediaSession>
    ghost var log: Log

    ghost function Live(): Option<Media>
      reads this, audio
    {
      if audio == null then None else Some(Media(audio.id, audio.born, audio.micMuted, audio.settings))
    }

    ghost function Value(): Session
      reads this, audio
    {
      Session(state, localUser, roomId, displayName, muted, screenSharer, participants, pendingUsername,
              pendingPassword, settings, Live(), log)
    }

    // The session in hand is one of ours, and an object is closed exactly when it is on record as
    // closed.
    ghost predicate Tracked()
      reads this`sessions, this`log, this`audio, sessions`closed
    {
      && |sessions| == log.built
      && (forall i :: 0 <= i < log.built ==> sessions[i].id == i)
      && (forall i :: 0 <= i < log.built ==> (sessions[i].closed <==> i in log.closed))
      && (audio != null ==> audio in sessions)
    }

    ghost predicate Valid()
      reads this, sessions, audio
    {
      Tracked() && CallRuns.Consistent(Value())
    }

    constructor ()
      ensures Valid() && Value() == START
    {
      state := Idle;
      localUser, roomId, displayName, muted, screenSharer := "", "", "", false, "";
      participants := map[];
      pendingUsername, pendingPassword, settings := "", "", Settings(map[], "", "");
      audio, sessions, log := null, [], START.log;
    }

    method Send(message: Message, ok: bool) returns (r: Outcome)
      modifies this`log
      ensures log == old(log).(sent := old(log).sent + [Sent(message, ok)])
      ensures r == if ok then Accepted else Unsent
    {
      log := log.(sent := log.sent + [Sent(message, ok)]);
      return if ok then Accepted else Unsent;
    }

    // Takes the session in hand out of the call and closes it.
    method DisplaceSession()
      requires Tracked()
      modifies this`audio, this`log, audio
      ensures Tracked() && audio == null
      ensures Value() == Displace(old(Value()))
    {
      var session := audio;
      audio := null;
      if session != null {
        session.Close();
        log := log.(closed := log.closed + {session.id});
      }
    }

    method TearDown()
      requires Tracked()
      modifies this`audio, this`log, this`roomId, this`displayName, this`participants, this`screenSharer, this`muted, audio
      ensures Tracked() && Value() == TornDown(old(Value()))
    {
      hide Tracked, Displace;
      DisplaceSession();
      roomId, displayName, participants, screenSharer, muted := "", "", map[], "", false;
    }

    method SignOut()
      requires Tracked()
      modifies this`localUser, this`pendingUsername, this`pendingPassword
      ensures Tracked() && Value() == SignedOut(old(Value()))
      ensures audio == old(audio)
    {
      hide Tracked;
      localUser, pendingUsername, pendingPassword := "", "", "";
    }

    method Forget(user: string)
      requires Tracked()
      modifies this`participants, this`screenSharer
      ensures Tracked() && Value() == Gone(old(Value()), user)
      ensures audio == old(audio)
    {
      hide Tracked;
      participants := participants - {user};
      if user == screenSharer {
        screenSharer := "";
      }
    }

    method Welcome(user: string)
      requires Tracked()
      modifies this`audio, this`log, this`localUser, this`participants, this`screenSharer, this`state, audio
      ensures Tracked() && Value() == Welcomed(old(Value()), user)
    {
      hide Displace;
      DisplaceSession();
      localUser, participants, screenSharer := user, map[], "";
      log := log.(authentications := log.authentications + 1);
      state := Authenticated;
    }

    method Hold(username: string, password: string)
      requires Tracked()
      modifies this`pendingUsername, this`pendingPassword, this`state
      ensures Tracked() && Value() == Held(old(Value()), username, password)
    {
      hide Tracked;
      pendingUsername, pendingPassword, state := username, password, Connecting;
    }

    method ConnectAndAuthenticate(username: string, password: string, socket: SocketState, ok: bool)
      returns (r: Outcome)
      requires Valid()
      modifies this`pendingUsername, this`pendingPassword, this`state, this`log
      ensures Valid() && Value() == Next(old(Value()), SignIn(username, password, socket, ok))
      ensures r == InvalidValue <==> username == "" || password == ""
    {
      CallRuns.NextIsConsistent(Value(), SignIn(username, password, socket, ok));
      hide CallRuns.Consistent;
      if username == "" || password == "" {
        return InvalidValue;
      }
      hide Tracked, Held;
      Hold(username, password);
      match socket {
        case SocketConnected =>
          r := Send(Authenticate(username, password), ok);
          if r == Unsent {
            state := Failed;
          }
          return;
        case SocketConnecting => return Accepted;
        case SocketReconnecting => return Accepted;
        case SocketFailed =>
        case SocketDisconnected =>
      }
      if !ok {
        state := Failed;
        return Unavailable;
      }
      r := Accepted;
    }

    method JoinRoom(room: string, name: string, ok: bool) returns (r: Outcome)
      requires Valid()
      modifies this`roomId, this`displayName, this`log
      ensures Valid() && Value() == Next(old(Value()), Join(room, name, ok))
      ensures r == if localUser == "" then Unauthorized else if ok then Accepted else Unsent
    {
      CallRuns.NextIsConsistent(Value(), Join(room, name, ok));
      hide CallRuns.Consistent, Tracked;
      roomId, displayName := room, name;
      if localUser == "" {
        return Unauthorized;
      }
      r := Send(Message.JoinRoom(room, localUser, name), ok);
    }

    method LeaveRoom(ok: bool) returns (r: Outcome)
      requires Valid()
      modifies this`audio, this`log, this`roomId, this`participants, this`muted, this`state, audio
      ensures Valid() && Value() == Next(old(Value()), Leave(ok))
      ensures r == if old(roomId) == "" then NotInRoom else if ok then Accepted else Unsent
    {
      CallRuns.NextIsConsistent(Value(), Leave(ok));
      hide CallRuns.Consistent;
      hide Tracked, EndStay;
      var room := roomId;
      if room == "" {
        DropSession();
        return NotInRoom;
      }
      CloseStay();
      r := Send(Message.LeaveRoom(room, localUser), ok);
    }

    // The early return of `leave`: it held the last reference to the session, and lets go of it.
    method DropSession()
      requires Tracked()
      modifies this`audio, this`participants, this`muted, this`log, audio
      ensures Tracked() && Value() == Displace(old(Value())).(participants := map[], muted := false)
    {
      var session := audio;
      audio, participants, muted := null, map[], false;
      if session != null {
        session.Destroy();
        log := log.(closed := log.closed + {session.id});
      }
    }

    method CloseStay()
      requires Tracked()
      modifies this`audio, this`log, this`roomId, this`participants, this`muted, this`state, audio
      ensures Tracked() && Value() == EndStay(old(Value()))
      ensures localUser == old(localUser)
    {
      hide Tracked, Displace;
      DisplaceSession();
      roomId, participants, muted, state := "", map[], false, Authenticated;
    }

    method SetMuted(on: bool, ok: bool) returns (r: Outcome)
      requires Valid()
      modifies this`muted, this`log, audio
      ensures Valid() && Value() == Next(old(Value()), Event.SetMuted(on, ok))
      ensures r == if old(roomId) == "" then NotInRoom else if ok then Accepted else Unsent
    {
      CallRuns.NextIsConsistent(Value(), Event.SetMuted(on, ok));
      hide CallRuns.Consistent, Tracked;
      if roomId == "" {
        return NotInRoom;
      }
      muted := on;
      if audio != null {
        audio.SetMicrophoneMuted(on);
      }
      if on {
        r := Send(Mute(roomId, localUser), ok);
      } else {
        r := Send(Unmute(roomId, localUser), ok);
      }
    }

    method Disconnect()
      requires Valid()
      modifies this, audio
      ensures Valid() && Value() == Next(old(Value()), Event.Disconnect)
    {
      CallRuns.NextIsConsistent(Value(), Event.Disconnect);
      hide CallRuns.Consistent;
      hide Tracked, SignedOut, Displace;
      DisplaceSession();
      participants, roomId, state := map[], "", Idle;
      SignOut();
    }

    method HandleSignalingState(socket: SocketState, ok: bool)
      requires Valid()
      modifies this`state, this`log
      ensures Valid() && Value() == Next(old(Value()), Socket(socket, ok))
    {
      CallRuns.NextIsConsistent(Value(), Socket(socket, ok));
      hide CallRuns.Consistent, Tracked;
      match socket
      case SocketConnected =>
        Opened(ok);
      case SocketFailed =>
        ReportLink();
        if !(pendingUsername == "" && localUser == "") {
          state := Failed;
        }
      case SocketReconnecting =>
        ReportLink();
        if !(pendingUsername == "" && localUser == "") {
          state := Connecting;
        }
      case SocketDisconnected =>
      case SocketConnecting =>
    }

    // The held credentials, if any, then the first probe.
    method Opened(ok: bool)
      modifies this`log
      ensures Value() == OnSocket(old(Value()), SocketConnected, ok)
    {
      if pendingUsername != "" {
        var _ := Send(Authenticate(pendingUsername, pendingPassword), ok);
      }
      log := log.(probes := log.probes + 1);
      ReportLink();
    }

    method ReportLink()
      modifies this`log
      ensures log == old(log).(linkReports := old(log).linkReports + 1)
    {
      log := log.(linkReports := log.linkReports + 1);
    }

    method HandleAuthenticated(user: string, joinOk: bool, muteOk: bool)
      requires Valid()
      modifies this, audio
      ensures Valid() && Value() == Next(old(Value()), AuthenticatedAs(user, joinOk, muteOk))
    {
      CallRuns.NextIsConsistent(Value(), AuthenticatedAs(user, joinOk, muteOk));
      hide CallRuns.Consistent;
      hide Tracked;
      var rejoinMuted, rejoinRoom, rejoinName := muted, roomId, displayName;
      Welcome(user);
      if rejoinRoom != "" {
        var joined := Send(Message.JoinRoom(rejoinRoom, user, rejoinName), joinOk);
        if joined == Accepted && rejoinMuted {
          var _ := Send(Mute(rejoinRoom, user), muteOk);
        }
      }
    }

    method HandleUserJoined(user: string)
      requires Valid()
      modifies this`participants
      ensures Valid() && Value() == Next(old(Value()), UserJoined(user))
    {
      CallRuns.NextIsConsistent(Value(), UserJoined(user));
      hide CallRuns.Consistent, Tracked;
      if user !in participants {
        participants := participants[user := Participant(false, false, false)];
      } else {
        assert participants == participants[user := participants[user]];
      }
    }

    method HandleUserLeft(user: string)
      requires Valid()
      modifies this`participants, this`screenSharer
      ensures Valid() && Value() == Next(old(Value()), UserLeft(user))
    {
      CallRuns.NextIsConsistent(Value(), UserLeft(user));
      hide CallRuns.Consistent, Tracked, Gone;
      Forget(user);
    }

    // `mute` and `unmute` from the server, the echo of our own and somebody else's alike.
    method HandleMute(user: string, on: bool)
      requires Valid()
      modifies this`participants, this`muted, audio
      ensures Valid() && Value() == Next(old(Value()), MuteEcho(user, on))
    {
      CallRuns.NextIsConsistent(Value(), MuteEcho(user, on));
      hide CallRuns.Consistent, Tracked;
      if user in participants {
        participants := participants[user := participants[user].(muted := on)];
      }
      if user == localUser {
        muted := on;
        if audio != null {
          audio.SetMicrophoneMuted(on);
        }
      }
    }

    method HandleKicked(user: string)
      requires Valid()
      modifies this, audio
      ensures Valid() && Value() == Next(old(Value()), Kicked(user))
    {
      CallRuns.NextIsConsistent(Value(), Kicked(user));
      hide CallRuns.Consistent, Tracked, TornDown;
      Forget(user);
      if user == localUser {
        TearDown();
        state := Authenticated;
      }
    }

    method HandleSessionEnded()
      requires Valid()
      modifies this, audio
      ensures Valid() && Value() == Next(old(Value()), SessionEnded)
    {
      CallRuns.NextIsConsistent(Value(), SessionEnded);
      hide CallRuns.Consistent, Tracked, TornDown, SignedOut;
      TearDown();
      SignOut();
      state := Idle;
    }

    method HandleShareStarted(user: string, hasAudio: bool)
      requires Valid()
      modifies this`participants, this`screenSharer
      ensures Valid() && Value() == Next(old(Value()), ShareStarted(user, hasAudio))
    {
      CallRuns.NextIsConsistent(Value(), ShareStarted(user, hasAudio));
      hide CallRuns.Consistent, Tracked;
      if user in participants {
        participants := participants[user := participants[user].(sharingScreen := true, sharingAudio := hasAudio)];
      }
      screenSharer := user;
    }

    method HandleShareStopped(user: string)
      requires Valid()
      modifies this`participants, this`screenSharer
      ensures Valid() && Value() == Next(old(Value()), ShareStopped(user))
    {
      CallRuns.NextIsConsistent(Value(), ShareStopped(user));
      hide CallRuns.Consistent, Tracked;
      if user in participants {
        participants := participants[user := participants[user].(sharingScreen := false, sharingAudio := false)];
      }
      if screenSharer == user {
        screenSharer := "";
      }
    }

    method EnsureMediaSession(factoryOk: bool) returns (r: Outcome)
      requires Valid()
      modifies this`audio, this`log, this`sessions
      ensures Valid() && Value() == EnsureMedia(old(Value()), factoryOk)
      ensures r == Unavailable ==> audio == null
    {
      if audio != null {
        return Accepted;
      }
      if !factoryOk {
        return Unavailable;
      }
      var session := new MediaSession(log.built, log.authentications, settings.input, settings.output);
      session.SetMicrophoneMuted(muted);
      CarrySettings(session);
      audio, sessions := session, sessions + [session];
      log := log.(built := log.built + 1);
      r := Accepted;
    }

    // Every volume chosen so far, and the devices where one was chosen.
    method CarrySettings(session: MediaSession)
      requires session.settings == Settings(map[], settings.input, settings.output)
      modifies session`settings
      ensures session.settings == settings
    {
      var todo := settings.volumes.Keys;
      while todo != {}
        invariant todo <= settings.volumes.Keys
        invariant session.settings == Settings(settings.volumes - todo, settings.input, settings.output)
        decreases |todo|
      {
        var user :| user in todo;
        session.SetParticipantVolume(user, settings.volumes[user]);
        todo := todo - {user};
        assert session.settings.volumes == settings.volumes - todo;
      }
      assert settings.volumes - {} == settings.volumes;
      if settings.input != "" {
        session.SetInputDevice(settings.input);
      }
      if settings.output != "" {
        session.SetOutputDevice(settings.output);
      }
    }

    method SetParticipantVolume(user: string, volume: real)
      requires Valid()
      modifies this`settings, audio
      ensures Valid() && Value() == Next(old(Value()), SetVolume(user, volume))
    {
      CallRuns.NextIsConsistent(Value(), SetVolume(user, volume));
      hide CallRuns.Consistent, Tracked;
      settings := settings.(volumes := settings.volumes[user := volume]);
      if audio != null {
        audio.SetParticipantVolume(user, volume);
      }
    }

    method SetInputDevice(device: string)
      requires Valid()
      modifies this`settings, audio
      ensures Valid() && Value() == Next(old(Value()), SetInput(device))
    {
      CallRuns.NextIsConsistent(Value(), SetInput(device));
      hide CallRuns.Consistent, Tracked;
      settings := settings.(input := device);
      if audio != null {
        audio.SetInputDevice(device);
      }
    }

    method SetOutputDevice(device: string)
      requires Valid()
      modifies this`settings, audio
      ensures Valid() && Value() == Next(old(Value()), SetOutput(device))
    {
      CallRuns.NextIsConsistent(Value(), SetOutput(device));
      hide CallRuns.Consistent, Tracked;
      settings := settings.(output := device);
      if audio != null {
        audio.SetOutputDevice(device);
      }
    }

    method HandleOffer(from: string, sdp: string, factoryOk: bool)
      requires Valid()
      modifies this`audio, this`log, this`sessions
      ensures Valid() && Value() == Next(old(Value()), Offer(from, sdp, factoryOk))
    {
      if from != SFU_USER_ID {
        return;
      }
      CallRuns.NextIsConsistent(Value(), Offer(from, sdp, factoryOk));
      hide CallRuns.Consistent;
      var ready := EnsureMediaSession(factoryOk);
      if ready == Unavailable || audio == null {
        return;
      }
      log := log.(applied := log.applied + [Applied(sdp, Live().value, log.authentications)]);
    }

    method HandleMediaState(connected: bool)
      requires Valid()
      modifies this`state
      ensures Valid() && Value() == Next(old(Value()), if connected then MediaConnected else MediaFailed)
    {
      CallRuns.NextIsConsistent(Value(), if connected then MediaConnected else MediaFailed);
      hide CallRuns.Consistent, Tracked;
      state := if connected then InCall else Failed;
    }

    method HandleRemoteVideo() returns (shown: bool)
      requires Valid()
      modifies this`log
      ensures Valid() && Value() == Next(old(Value()), RemoteVideo)
      ensures shown <==> log.forwarded != old(log).forwarded
    {
      CallRuns.NextIsConsistent(Value(), RemoteVideo);
      hide CallRuns.Consistent, Tracked;
      if screenSharer == "" {
        return false;
      }
      log := log.(forwarded := log.forwarded + 1);
      shown := true;
    }
  }
}
