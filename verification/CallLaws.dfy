/**
 Who writes what: each fact of the call session is what the last event that speaks of it said,
 however many others came between. And which offers reach a media session.
 */
module CallLaws {
  import opened Basics
  import opened CallModel
  import CallRuns

  // --- The last word on each fact -----------------------------------------------------------

  datatype Fact =
    | Room | Name | Identity | Username | Password | Muted | Stage | Floor
    | MediaUp
    | Here(user: string) | MutedHere(user: string) | SharingHere(user: string) | SoundHere(user: string)
    | VolumeOf(user: string) | Input | Output

  datatype Value = Text(text: string) | Flag(on: bool) | At(state: State) | Level(level: Option<real>)

  function Of(s: Session, f: Fact): Value {
    match f
    case Room => Text(s.room)
    case Name => Text(s.displayName)
    case Identity => Text(s.user)
    case Username => Text(s.username)
    case Password => Text(s.password)
    case Muted => Flag(s.muted)
    case Stage => At(s.state)
    case Floor => Text(s.sharer)
    case MediaUp => Flag(s.live.Some?)
    case Here(user) => Flag(user in s.participants)
    case MutedHere(user) => Flag(user in s.participants && s.participants[user].muted)
    case SharingHere(user) => Flag(user in s.participants && s.participants[user].sharingScreen)
    case SoundHere(user) => Flag(user in s.participants && s.participants[user].sharingAudio)
    case VolumeOf(user) =>
      Level(if user in s.settings.volumes then Some(s.settings.volumes[user]) else None)
    case Input => Text(s.settings.input)
    case Output => Text(s.settings.output)
  }

  datatype Word = Silent | Says(value: Value)

  // The server taking us out of the room, or out of everything.
  predicate TakesUsOut(s: Session, e: Event) {
    e.SessionEnded? || (e.Kicked? && e.user == s.user)
  }

  // Nobody counts as being in the room after this, until the server names them again.
  predicate EmptiesTheRoom(s: Session, e: Event) {
    TakesUsOut(s, e) || e.Leave? || e.Disconnect? || e.AuthenticatedAs?
  }

  predicate SignsIn(e: Event) {
    e.SignIn? && e.username != "" && e.password != ""
  }

  predicate Removes(e: Event, user: string) {
    (e.UserLeft? || e.Kicked?) && e.user == user
  }

  function WordOnPlace(s: Session, e: Event, f: Fact): Word {
    match f
    case Room =>
      if e.Join? then Says(Text(e.room))
      else if e.Leave? || e.Disconnect? || TakesUsOut(s, e) then Says(Text("")) else Silent
    case Name => if e.Join? then Says(Text(e.name)) else if TakesUsOut(s, e) then Says(Text("")) else Silent
    case Identity =>
      if e.AuthenticatedAs? then Says(Text(e.user))
      else if e.Disconnect? || e.SessionEnded? then Says(Text("")) else Silent
    case Username =>
      if SignsIn(e) then Says(Text(e.username))
      else if e.Disconnect? || e.SessionEnded? then Says(Text("")) else Silent
    case Password =>
      if SignsIn(e) then Says(Text(e.password))
      else if e.Disconnect? || e.SessionEnded? then Says(Text("")) else Silent
    case Muted =>
      if e.SetMuted? && s.room != "" then Says(Flag(e.muted))
      else if e.MuteEcho? && e.user == s.user then Says(Flag(e.muted))
      else if e.Leave? || TakesUsOut(s, e) then Says(Flag(false)) else Silent
    case Stage => WordOnState(s, e)
    case _ => Silent
  }

  function WordOnState(s: Session, e: Event): Word {
    match e
    case SignIn(_, _, socket, ok) =>
      if !SignsIn(e) then Silent
      else if ok || socket.SocketConnecting? || socket.SocketReconnecting? then Says(At(Connecting))
      else Says(At(Failed))
    case Socket(socket, _) =>
      if s.username == "" && s.user == "" then Silent
      else if socket.SocketFailed? then Says(At(Failed))
      else if socket.SocketReconnecting? then Says(At(Connecting)) else Silent
    case AuthenticatedAs(_, _, _) => Says(At(Authenticated))
    case Leave(_) => if s.room == "" then Silent else Says(At(Authenticated))
    case Kicked(user) => if user == s.user then Says(At(Authenticated)) else Silent
    case Disconnect => Says(At(Idle))
    case SessionEnded => Says(At(Idle))
    case MediaConnected => Says(At(InCall))
    case MediaFailed => Says(At(Failed))
    case _ => Silent
  }

  function WordOnPeople(s: Session, e: Event, f: Fact): Word {
    match f
    case Floor =>
      if e.ShareStarted? then Says(Text(e.user))
      else if e.AuthenticatedAs? || TakesUsOut(s, e) || Removes(e, s.sharer) then Says(Text(""))
      else if e.ShareStopped? && e.user == s.sharer then Says(Text("")) else Silent
    case Here(user) =>
      if e.UserJoined? && e.user == user then Says(Flag(true))
      else if EmptiesTheRoom(s, e) || Removes(e, user) then Says(Flag(false)) else Silent
    case MutedHere(user) =>
      if e.MuteEcho? && e.user == user && user in s.participants then Says(Flag(e.muted))
      else if EmptiesTheRoom(s, e) || Removes(e, user) then Says(Flag(false)) else Silent
    case SharingHere(user) =>
      if e.ShareStarted? && e.user == user && user in s.participants then Says(Flag(true))
      else if EmptiesTheRoom(s, e) || Removes(e, user) || (e.ShareStopped? && e.user == user) then Says(Flag(false))
      else Silent
    case SoundHere(user) =>
      if e.ShareStarted? && e.user == user && user in s.participants then Says(Flag(e.hasAudio))
      else if EmptiesTheRoom(s, e) || Removes(e, user) || (e.ShareStopped? && e.user == user) then Says(Flag(false))
      else Silent
    case _ => Silent
  }

  function WordOnMedia(s: Session, e: Event, f: Fact): Word {
    match f
    case MediaUp =>
      if EmptiesTheRoom(s, e) then Says(Flag(false))
      else if e.Offer? && e.from == "sfu" && e.factoryOk then Says(Flag(true)) else Silent
    case VolumeOf(user) => if e.SetVolume? && e.user == user then Says(Level(Some(e.volume))) else Silent
    case Input => if e.SetInput? then Says(Text(e.device)) else Silent
    case Output => if e.SetOutput? then Says(Text(e.device)) else Silent
    case _ => Silent
  }

  predicate IsOfUs(f: Fact) {
    f.Room? || f.Name? || f.Identity? || f.Username? || f.Password? || f.Muted? || f.Stage?
  }

  predicate IsOfPeople(f: Fact) {
    f.Floor? || f.Here? || f.MutedHere? || f.SharingHere? || f.SoundHere?
  }

  // What an event says of a fact, if it speaks of it at all.
  function WordOn(s: Session, e: Event, f: Fact): Word {
    if IsOfUs(f) then WordOnPlace(s, e, f)
    else if IsOfPeople(f) then WordOnPeople(s, e, f)
    else WordOnMedia(s, e, f)
  }

  predicate Stands(before: Session, after: Session, e: Event, f: Fact) {
    match WordOn(before, e, f)
    case Silent => Of(after, f) == Of(before, f)
    case Says(value) => Of(after, f) == value
  }

  // The server's answers and our own leaving, which take things down.
  predicate Ends(e: Event) {
    e.Leave? || e.Disconnect? || e.AuthenticatedAs? || e.Kicked? || e.SessionEnded?
  }

  lemma {:induction false} NewsOfUs(s: Session, e: Event, f: Fact)
    requires IsOfUs(f) && !f.Stage? && (IsNews(e) || IsChoice(e))
    ensures Stands(s, Next(s, e), e, f)
  {
    hide WordOnPeople, WordOnMedia, WordOnState, OnNews, OnChoice, Displace;
  }

  lemma {:induction false} NewsOfTheStage(s: Session, e: Event, f: Fact)
    requires f.Stage? && (IsNews(e) || IsChoice(e))
    ensures Stands(s, Next(s, e), e, f)
  {
    hide WordOnPeople, WordOnMedia, OnChoice, WithParticipant, Gone, Displace;
  }

  lemma {:induction false} CallsOfUs(s: Session, e: Event, f: Fact)
    requires IsOfUs(f) && !Ends(e) && !IsNews(e) && !IsChoice(e)
    ensures Stands(s, Next(s, e), e, f)
  {
    hide WordOnPeople, WordOnMedia, WithParticipant, OnOffer, Displace;
  }

  lemma {:induction false} EndsOfUs(s: Session, e: Event, f: Fact)
    requires IsOfUs(f) && Ends(e)
    ensures Stands(s, Next(s, e), e, f)
  {
    hide WordOnPeople, WordOnMedia, Displace, OnSignIn, OnSocket, OnNews;
  }

  lemma {:induction false} SharesOfPeople(s: Session, e: Event, f: Fact)
    requires IsOfPeople(f) && e.ShareStarted?
    ensures Stands(s, Next(s, e), e, f)
  {
    hide WordOnPlace, WordOnState, WordOnMedia, Gone, Displace;
  }

  lemma {:induction false} StopsOfPeople(s: Session, e: Event, f: Fact)
    requires IsOfPeople(f) && e.ShareStopped?
    ensures Stands(s, Next(s, e), e, f)
  {
    hide WordOnPlace, WordOnState, WordOnMedia, Gone, Displace;
  }

  lemma {:induction false} ArrivalsOfPeople(s: Session, e: Event, f: Fact)
    requires IsOfPeople(f) && e.UserJoined?
    ensures Stands(s, Next(s, e), e, f)
  {
    hide WordOnPlace, WordOnState, WordOnMedia, WithParticipant, Displace, Gone;
  }

  lemma {:induction false} NewsOfPeople(s: Session, e: Event, f: Fact)
    requires IsOfPeople(f) && (e.UserLeft? || e.MediaConnected? || e.MediaFailed? || e.RemoteVideo?)
    ensures Stands(s, Next(s, e), e, f)
  {
    hide WordOnPlace, WordOnState, WordOnMedia, WithParticipant, Displace;
  }

  lemma {:induction false} EchoesOfPeople(s: Session, e: Event, f: Fact)
    requires IsOfPeople(f) && e.MuteEcho?
    ensures Stands(s, Next(s, e), e, f)
  {
    hide WordOnPlace, WordOnState, WordOnMedia, SetMicrophone, Displace, Gone;
  }

  lemma {:induction false} CallsOfPeople(s: Session, e: Event, f: Fact)
    requires IsOfPeople(f) && !Ends(e) && !IsNews(e) && !e.MuteEcho?
    ensures Stands(s, Next(s, e), e, f)
  {
    hide WordOnPlace, WordOnState, WordOnMedia, OnSignIn, OnSocket, OnJoin, OnOffer, OnSetMuted, OnChoice;
    hide Displace, WithParticipant;
  }

  lemma {:induction false} KicksOfPeople(s: Session, e: Event, f: Fact)
    requires IsOfPeople(f) && e.Kicked?
    ensures Stands(s, Next(s, e), e, f)
  {
    hide WordOnPlace, WordOnState, WordOnMedia, Displace, OnSignIn, OnSocket;
  }

  lemma {:induction false} LeavesOfPeople(s: Session, e: Event, f: Fact)
    requires IsOfPeople(f) && (e.Leave? || e.Disconnect?)
    ensures Stands(s, Next(s, e), e, f)
  {
    hide WordOnPlace, WordOnState, WordOnMedia, Displace, OnSignIn, OnSocket, OnNews, Gone;
  }

  lemma {:induction false} EndsOfPeople(s: Session, e: Event, f: Fact)
    requires IsOfPeople(f) && (e.AuthenticatedAs? || e.SessionEnded?)
    ensures Stands(s, Next(s, e), e, f)
  {
    hide WordOnPlace, WordOnState, WordOnMedia, Displace, OnSignIn, OnSocket, OnNews, Gone;
  }

  lemma {:induction false} EndsOfMedia(s: Session, e: Event, f: Fact)
    requires !IsOfUs(f) && !IsOfPeople(f) && Ends(e)
    ensures Stands(s, Next(s, e), e, f)
  {
    hide WordOnPlace, WordOnState, WordOnPeople, OnSignIn, OnSocket, OnNews;
  }

  lemma {:induction false} OthersOfMedia(s: Session, e: Event, f: Fact)
    requires !IsOfUs(f) && !IsOfPeople(f) && !Ends(e)
    ensures Stands(s, Next(s, e), e, f)
  {
    hide WordOnPlace, WordOnState, WordOnPeople, OnSignIn, OnSocket, OnNews, OnJoin, WithParticipant, Displace;
  }

  lemma {:induction false} EventStands(s: Session, e: Event, f: Fact)
    ensures Stands(s, Next(s, e), e, f)
  {
    hide Next, Stands;
    if IsOfUs(f) {
      if Ends(e) {
        EndsOfUs(s, e, f);
      } else if IsNews(e) || IsChoice(e) {
        if f.Stage? {
          NewsOfTheStage(s, e, f);
        } else {
          NewsOfUs(s, e, f);
        }
      } else {
        CallsOfUs(s, e, f);
      }
    } else if IsOfPeople(f) {
      if e.Kicked? {
        KicksOfPeople(s, e, f);
      } else if e.Leave? || e.Disconnect? {
        LeavesOfPeople(s, e, f);
      } else if Ends(e) {
        EndsOfPeople(s, e, f);
      } else if e.ShareStarted? {
        SharesOfPeople(s, e, f);
      } else if e.ShareStopped? {
        StopsOfPeople(s, e, f);
      } else if e.UserJoined? {
        ArrivalsOfPeople(s, e, f);
      } else if IsNews(e) {
        NewsOfPeople(s, e, f);
      } else if e.MuteEcho? {
        EchoesOfPeople(s, e, f);
      } else {
        CallsOfPeople(s, e, f);
      }
    } else if Ends(e) {
      EndsOfMedia(s, e, f);
    } else {
      OthersOfMedia(s, e, f);
    }
  }

  ghost predicate SilentFrom(s: Session, events: seq<Event>, f: Fact, from: nat) {
    forall j :: from <= j < |events| ==> WordOn(Run(s, events[..j]), events[j], f).Silent?
  }

  lemma {:induction false} SilentSoFar(s: Session, events: seq<Event>, f: Fact, from: nat)
    requires from < |events| && SilentFrom(s, events, f, from)
    ensures var earlier := events[..|events| - 1];
      SilentFrom(s, earlier, f, from) && WordOn(Run(s, earlier), events[|events| - 1], f).Silent?
  {
    hide Run, WordOn;
    var earlier := events[..|events| - 1];
    assert forall j :: 0 <= j < |earlier| ==> earlier[..j] == events[..j] && earlier[j] == events[j];
  }

  // Over any run, every fact is what the last event to speak of it said.
  lemma {:induction false} LastWordStands(s: Session, events: seq<Event>, f: Fact, i: nat)
    requires i < |events| && SilentFrom(s, events, f, i + 1)
    requires WordOn(Run(s, events[..i]), events[i], f).Says?
    ensures Of(Run(s, events), f) == WordOn(Run(s, events[..i]), events[i], f).value
  {
    var earlier, e := events[..|events| - 1], events[|events| - 1];
    if i == |earlier| {
      EventStands(Run(s, earlier), e, f);
    } else {
      SilentSoFar(s, events, f, i + 1);
      assert earlier[..i] == events[..i] && earlier[i] == events[i];
      LastWordStands(s, earlier, f, i);
      EventStands(Run(s, earlier), e, f);
    }
    hide Next, WordOn, Of;
  }

  // And one nobody spoke of is what it was.
  lemma {:induction false} UnspokenStands(s: Session, events: seq<Event>, f: Fact)
    requires SilentFrom(s, events, f, 0)
    ensures Of(Run(s, events), f) == Of(s, f)
  {
    if events != [] {
      var earlier := events[..|events| - 1];
      SilentSoFar(s, events, f, 0);
      UnspokenStands(s, earlier, f);
      EventStands(Run(s, earlier), events[|events| - 1], f);
      hide Next, WordOn, Of;
    }
  }

  // Before anything: idle, nobody, nowhere, open, and nothing chosen, built or counted.
  lemma {:induction false} StartsWithNothing()
    ensures START.state == Idle && START.live == None && !START.muted && START.participants == map[]
    ensures START.user == "" && START.room == "" && START.displayName == "" && START.sharer == ""
    ensures START.username == "" && START.password == ""
    ensures START.settings == Settings(map[], "", "")
    ensures START.log.sent == [] && START.log.probes == 0 && START.log.linkReports == 0 && START.log.built == 0
    ensures START.log.closed == {} && START.log.authentications == 0
    ensures START.log.applied == [] && START.log.forwarded == 0
  {
  }

  // --- Offers -------------------------------------------------------------------------------

  // Whether an offer finds a session, or makes one.
  predicate Meets(s: Session, e: Event) {
    e.Offer? && e.from == "sfu" && (s.live.Some? || e.factoryOk)
  }

  // The media layer is handed each such offer, and handed it once: in the session there was, or in
  // one built for it, muted as we are and told what was chosen.
  lemma {:induction false} OfferReachesASession(s: Session, e: Event)
    ensures var n := Next(s, e);
      if Meets(s, e) then
        && n.live.Some?
        && n.log.applied == s.log.applied + [Applied(e.sdp, n.live.value, s.log.authentications)]
        && n.live == (if s.live.Some? then s.live
                      else Some(Media(s.log.built, s.log.authentications, s.muted, s.settings)))
      else n.log.applied == s.log.applied
    ensures e.Offer? && !Meets(s, e) ==> Next(s, e) == s
  {
    hide OnSignIn, OnSocket, OnNews, OnMuteEcho, OnChoice, OnJoin, OnSetMuted;
  }

  // The offers of a run that met a session, in order.
  function Met(s: Session, events: seq<Event>): seq<string> {
    if events == [] then []
    else
      var earlier, e := events[..|events| - 1], events[|events| - 1];
      Met(s, earlier) + if Meets(Run(s, earlier), e) then [e.sdp] else []
  }

  function Descriptions(applied: seq<Applied>): seq<string> {
    seq(|applied|, i requires 0 <= i < |applied| => applied[i].sdp)
  }

  lemma {:induction false} DescriptionsJoin(a: seq<Applied>, b: Applied)
    ensures Descriptions(a + [b]) == Descriptions(a) + [b.sdp]
  {
  }

  lemma {:induction false} AppliedIsWhatMet(s: Session, events: seq<Event>)
    ensures Descriptions(Run(s, events).log.applied) == Descriptions(s.log.applied) + Met(s, events)
  {
    if events != [] {
      var earlier, e := events[..|events| - 1], events[|events| - 1];
      AppliedIsWhatMet(s, earlier);
      var before := Run(s, earlier);
      hide Next, Descriptions, Meets;
      OfferReachesASession(before, e);
      if Meets(before, e) {
        DescriptionsJoin(before.log.applied, Applied(e.sdp, Next(before, e).live.value, before.log.authentications));
      }
    }
  }

  // --- Counts -------------------------------------------------------------------------------

  function CountOf(events: seq<Event>, which: Event -> bool): nat {
    if events == [] then 0
    else CountOf(events[..|events| - 1], which) + if which(events[|events| - 1]) then 1 else 0
  }

  lemma {:induction false} AuthenticationStep(s: Session, e: Event)
    ensures Next(s, e).log.authentications == s.log.authentications + if e.AuthenticatedAs? then 1 else 0
  {
    hide OnSignIn, OnSocket, OnNews, OnMuteEcho, OnChoice, OnJoin, OnSetMuted, OnOffer;
  }

  // The number a media session is born with is how often the server had recognised us by then.
  lemma {:induction false} AuthenticationsAreCounted(s: Session, events: seq<Event>)
    ensures Run(s, events).log.authentications
         == s.log.authentications + CountOf(events, (e: Event) => e.AuthenticatedAs?)
  {
    if events != [] {
      AuthenticationsAreCounted(s, events[..|events| - 1]);
      AuthenticationStep(Run(s, events[..|events| - 1]), events[|events| - 1]);
      hide Next;
    }
  }

  // Frames that arrived while somebody held the floor.
  function Watched(s: Session, events: seq<Event>): nat {
    if events == [] then 0
    else
      var earlier := events[..|events| - 1];
      Watched(s, earlier) + if events[|events| - 1].RemoteVideo? && Run(s, earlier).sharer != "" then 1 else 0
  }

  lemma {:induction false} ForwardStep(s: Session, e: Event)
    ensures Next(s, e).log.forwarded == s.log.forwarded + if e.RemoteVideo? && s.sharer != "" then 1 else 0
  {
    hide OnSignIn, OnSocket, OnMuteEcho, OnChoice, OnJoin, OnSetMuted, OnOffer;
  }

  // A frame is shown if and only if somebody holds the floor when it comes.
  lemma {:induction false} WatchedAreForwarded(s: Session, events: seq<Event>)
    ensures Run(s, events).log.forwarded == s.log.forwarded + Watched(s, events)
  {
    if events != [] {
      WatchedAreForwarded(s, events[..|events| - 1]);
      ForwardStep(Run(s, events[..|events| - 1]), events[|events| - 1]);
      hide Next;
    }
  }
}
