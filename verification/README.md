# PartyShare client: models and proofs

A Dafny model of the stateful parts of the PartyShare desktop client, with proofs of what they
keep over every run. `dafny verify dfyconfig.toml` checks all of it.

| files | what they model |
|---|---|
| `Basics` | the vocabulary several models share |
| `AudioFormat`, `RingWindow`, `PacerModel`, `PacerRuns`, `BlockPacer` | the ring between the screen-audio capture and the encoder's clock |
| `MixMath`, `MixerModel`, `MixLaws`, `ScreenAudioMixer` | the mix of microphone and screen audio, and its peak limiter |
| `CallModel`, `CallRuns`, `CallLaws`, `CallSession`, `VideoBitrate` | the call session: room, mute, media session, floor, bitrate range |
| `MuteAgreement` | the call session against the server's seat for it, and the mutes on their way between them |
| `Backoff`, `SignalingModel`, `SignalingRuns`, `SignalingClient` | the signaling client: retries, addresses, round trips |
| `ChatLinks`, `LinkLaws`, `ChatHtml` | links in a chat line, and the line as rich text |
| `ServerAddress`, `AddressLaws` | the Server field: what is typed, the URL dialled, what is shown |
| `Words`, `ImpairmentSampler`, `SamplerLaws` | the splitmix64 draw of the network impairment |
| `VoiceGateModel`, `VoiceGate` | the envelope of the voice gate |
| `ScreenViewModel`, `ScreenView` | the frame hand-off between the media and interface threads |
| `MetricsModel`, `MetricsHistory` | the window of call readings and its rates |

Where the source updates an object in place there is a class with its fields, each of whose
methods is proved equal to a step of a value model; the theorems about whole runs are about that
model. Locks are modelled as atomicity: a handler or call is one step, and a retry firing is one
step. Only in the screen view are the halves of a call steps of their own, free to interleave.
The `Laws` files and the later parts of the `Runs` files say what a step comes to in literal
characters, numbers and fields, without the functions the model itself is made of.
What a socket, the media layer or the clock answers is a parameter of the step, so a theorem about
every run covers every choice of answers. Integers are unbounded, and where the source's width
matters it is stated: samples are 16 bit, the mix's products are shown to fit their int32 and
int64, the sampler's words wrap at 2^64.

## Where the code and its comments part

The model follows the code.

- `BlockPacer::write` counts a frame for every sample it drops, so `frames_dropped` runs ahead
  after a push larger than the room above the ring. `ConservedExactlyWhenPushesFit` says when.
- `ScreenAudioMixer`'s pacing is commented as 60 ms and 30 ms; 48000/16 and 48000/32 frames are
  62.5 ms and 31.25 ms.
- A mute should end with the stay in a room, but signing out keeps it, and the next room is then
  entered muted while the server takes the microphone for open (`MutedOutsideARoomExactlyWhen`,
  `MuteAgreement.NextRoomEnteredMuted`).
- `CallSession::set_muted` means everyone to agree about who is muted, but moves the flag and the
  microphone before the server has answered: an unmute refused under an administrator's mute leaves
  the microphone open (`MuteAgreement.UnmutedUnderAForcedMute`), and the confirmation of an older
  click undoes a newer one until its own arrives (`MuteAgreement.EchoOvertakesTheButton`).
- An administrator's mute is documented to hold until an administrator releases it
  (docs/06-protocol.md:356); leaving and joining again ends it, and a dropped connection turns it
  into a mute of one's own (`MuteAgreement.AdminsMuteEndsExactlyWhen`, `LeavingEndsAForcedMute`,
  `DropMakesAForcedMuteOurOwn`).
- `SignalingClient::State::Failed` is described as over, with nothing scheduled; a second drop
  reported by one socket can leave its retry standing (`FailedWithARetryPendingExactlyWhen`).
- The Server field's contract is that it puts back what it was shown; it does so under the two
  conditions of `FieldRoundTripsExactlyWhen`.
- A delivery in `ScreenView` can bring an older frame back (`OlderFrameComesBack`).

## Model

| member | source | states |
|---|---|---|
| `PacerRuns.RingRefinesUnboundedQueue` | client/src/audio/block_pacer.hpp:82-189 | Over every run of whole-frame pushes of any size, takes and clears, the wrapped, bounded ring hands out the same blocks, the same silences and holds the same samples as a queue of no capacity that keeps its newest target frames whenever a push leaves it over the watermark |
| `PacerRuns.BlocksAreWindowsOfTheStream` | client/src/audio/block_pacer.hpp:118-178 | Real blocks are whole cuts of everything ever pushed, in order, never overlapping, each starting on a left sample, so a sample is never lost inside a block, repeated, or moved to the other ear |
| `PacerRuns.EveryFrameIsAccountedFor` | client/src/audio/block_pacer.hpp:92-189 | For pushes of any size: twice the frames pushed, plus one for every sample `write` itself dropped, equals twice (dropped + 480 per real block + buffered + cleared) |
| `PacerRuns.ConservedExactlyWhenPushesFit` | client/src/audio/block_pacer.hpp:92-189 | The counters conserve frames if and only if no push was larger than the room left above it, the guard of the dropping branch of `write` |
| `PacerRuns.SmallPushesConserveFrames` | client/src/audio/block_pacer.hpp:92-189 | With pushes of at most 960 frames, pushed = dropped + 480 x (taken - silent) + buffered + cleared at every point of every run |
| `PacerRuns.OversizedPushMiscounts` | client/src/audio/block_pacer.hpp:162-171 | One push of 961 frames into a pacer with no watermark counts 962 frames dropped |
| `PacerRuns.RealRunsAreLong` | client/src/audio/block_pacer.hpp:118-138 | A run of real blocks that a starve ends is never shorter than the lesser of prime/480 and one more than target/480 blocks; so at least prime/480 when the target is no lower than the prime |
| `PacerRuns.NeverStuttersExactlyWhen` | client/src/audio/block_pacer.hpp:118-189 | Every run that ends in a starve is prime/480 blocks or longer if and only if a trim leaves enough behind (prime/480 <= target/480 + 1) or the ring can never prime |
| `PacerRuns.ShortestRunFinishes` | client/src/audio/block_pacer.hpp:118-189 | The run that shows the bound is reached: prime, take one block, overfill, drain |
| `PacerRuns.SilentUntilPrimed` | client/src/audio/block_pacer.hpp:122-132 | After a silent block or a clear nothing real comes out, whatever is pushed, until a take sees prime_frames buffered |
| `PacerRuns.CountersCount` | client/src/audio/block_pacer.hpp:92-138 | `blocks_taken` is how many takes there were, `blocks_silent` how many of them answered false, and `frames_pushed` half the samples that came |
| `PacerModel.PushKeeps` | client/src/audio/block_pacer.hpp:92-99 | A push of any size leaves at most the watermark buffered, and what is buffered is the tail of everything pushed |
| `PacerModel.TakeKeeps` | client/src/audio/block_pacer.hpp:118-138 | A take keeps both |
| `RingWindow.WindowGrows` | client/src/audio/block_pacer.hpp:162-171 | Writing behind the wrapped window appends to what the window reads |
| `RingWindow.WindowDropsHead` | client/src/audio/block_pacer.hpp:173-178 | Reading at the head gives the first of what the window holds and leaves the rest |
| `BlockPacers.BlockPacer.constructor` | client/src/audio/block_pacer.hpp:82-89 | An empty, unprimed ring with room for the watermark and two blocks, its target no higher than its watermark |
| `BlockPacers.BlockPacer.Push` | client/src/audio/block_pacer.hpp:92-99 | The ring after the write loop and the trim is the pacer model's push of the samples, and the stream has grown by them |
| `BlockPacers.BlockPacer.PushSilence` | client/src/audio/block_pacer.hpp:104-111 | The same as pushing that many frames of zeros |
| `BlockPacers.BlockPacer.Take` | client/src/audio/block_pacer.hpp:118-138 | True exactly when primed with a block buffered; then the block is the oldest samples, for a buffer of any length, and otherwise all zeros |
| `BlockPacers.BlockPacer.Clear` | client/src/audio/block_pacer.hpp:152-157 | Nothing buffered, unprimed, counters and stream untouched |
| `BlockPacers.BlockPacer.Write` | client/src/audio/block_pacer.hpp:162-171 | The newest of what was held and the sample, one frame counted as dropped when it was full |
| `BlockPacers.BlockPacer.Read` | client/src/audio/block_pacer.hpp:173-178 | The oldest sample, and the rest in order |
| `BlockPacers.BlockPacer.Trim` | client/src/audio/block_pacer.hpp:180-189 | Above the watermark only the newest target frames stay, and the rest are counted |
| `MixMath.LimitedFrameFits` | client/src/audio/screen_audio_mixer.cpp:59-61 | For any gain in range and any mixed frame: every product fits its int64, what reaches the final clamp lies in [-32770, 32769], and the clamp moves it by at most two |
| `MixMath.ScreenSampleFits` | client/src/audio/screen_audio_mixer.cpp:41-43 | A screen sample at any volume fits its int32 on the way and lies in [-65536, 65534] |
| `MixLaws.ScreenShare` | client/src/audio/screen_audio_mixer.cpp:41-43 | A screen sample at a gain is the sample times the gain over 256, rounded down, for every sample and gain |
| `MixLaws.SliderShare` | client/src/audio/screen_audio_mixer.cpp:65-91 | The gain of a slider position is the whole number nearest to that percentage of 256, positions below 0 and above 200 taken as those |
| `MixLaws.FrameTurnsDown` | client/src/audio/screen_audio_mixer.cpp:252-266 | A frame is heard at the gain before it unless a smaller one is the least that brings its louder side to 32767; never at more; and one step is won back behind it, up to 32768 |
| `MixMath.NeededIsTight` | client/src/audio/screen_audio_mixer.cpp:253-260 | The gain an overload asks for lies in [10923, 32768] and puts the peak on the ceiling, over it by less than its own rounding |
| `MixMath.LoweredPeakLandsOnCeiling` | client/src/audio/screen_audio_mixer.cpp:253-265 | A frame that turns the gain down leaves with its peak at 32767, or at -32767 or -32768 when it is negative |
| `MixMath.LimitingKeepsTheImage` | client/src/audio/screen_audio_mixer.cpp:246-264 | The limiter never flips a sign and never lets one channel overtake the other |
| `MixMath.GainStaysInRange` | client/src/audio/screen_audio_mixer.cpp:253-265 | One frame keeps the gain in [10923, 32768] |
| `MixMath.GainAlwaysInRange` | client/src/audio/screen_audio_mixer.cpp:231-266 | So does any stream of frames |
| `MixMath.GainClimbsBack` | client/src/audio/screen_audio_mixer.cpp:265 | n frames after the last overload the gain is min(32768, g + n) |
| `MixMath.StreamsJoin` | client/src/audio/screen_audio_mixer.cpp:224-270 | Block boundaries are invisible to the limiter: limiting two streams in turn is limiting them joined |
| `MixMath.QuietRunIsUntouched` | client/src/audio/screen_audio_mixer.cpp:246-265 | From unity, with no overload, the limited stream is the plain sum |
| `MixMath.TransparentAgain` | client/src/audio/screen_audio_mixer.cpp:246-265 | However low the gain, 21845 quiet frames later the output is the plain sum again |
| `MixMath.VolumeGainFollowsTheSlider` | client/src/audio/screen_audio_mixer.cpp:65-91 | The Q8 gain is within [0, 512], rises with the slider, is 256 at 100%, is zero exactly at zero or below, and no percentage lands on a rounding tie |
| `MixerModel.NextIsSound` | client/src/audio/screen_audio_mixer.cpp:174-276 | One call or setting keeps the limiter's gain in range, the screen gain the slider's and the pacer within its watermark |
| `MixerModel.Play` | client/src/audio/screen_audio_mixer.cpp:174-276 | So at every point of every run all three hold, and two samples were heard for every frame mixed |
| `MixerModel.EveryMixedFrameIsWide` | client/src/audio/screen_audio_mixer.cpp:236-244 | Every frame of every block lies within a full-scale voice over a full-scale screen at twice its volume |
| `MixerModel.RunIsOneStream` | client/src/audio/screen_audio_mixer.cpp:174-276 | Across volume changes, mutes, pushes, starves and blocks that cannot be mixed, everything heard is one stream through one limiter |
| `MixerModel.RunRecovers` | client/src/audio/screen_audio_mixer.cpp:224-270 | In any such run, 21845 quiet frames after an overload the output is the plain sum, across block boundaries |
| `MixerModel.QuietRunNeedsNoLimiter` | client/src/audio/screen_audio_mixer.cpp:224-270 | A run that starts at unity and never overloads sounds the same with the limiter on and off |
| `MixerModel.LimiterOffIsThePlainSum` | client/src/audio/screen_audio_mixer.cpp:224-270 | With the limiter off a run has the same frames and hears their plain sum |
| `MixerModel.MutedMicrophoneIsUnheard` | client/src/audio/screen_audio_mixer.cpp:183-270 | Muted, the microphone's samples reach neither the output nor the next state, mixed or passed through, but for the level measured for the speaking indicator, and that one is the same muted or not |
| `MixerModel.LoudnessIsAShare` | client/src/audio/screen_audio_mixer.cpp:183-190 | The square of the microphone level lies in [0, 1] and is zero for silence and only for it |
| `MixerModel.VoiceAloneIsUntouched` | client/src/audio/screen_audio_mixer.cpp:231-268 | With nothing from the screen and the limiter off or at unity, a mono voice goes out in both ears and a stereo one keeps its sides, sample for sample, if and only if the limiter is off or no sample is -32768 |
| `MixerModel.ScreenAloneIsUntouched` | client/src/audio/screen_audio_mixer.cpp:231-268 | Muted at full volume, under the same limiter, the screen goes out exactly as captured if and only if the limiter is off or no sample is -32768 |
| `MixMath.LowestSampleShows` | client/src/audio/screen_audio_mixer.cpp:252-265 | From unity, a stream whose plain sum needs no clamp comes out as that sum if and only if -32768 is not in it: the ceiling is one short of it |
| `ScreenAudioMixers.ScreenAudioMixer.constructor` | client/src/audio/screen_audio_mixer.cpp:93 | Unity gains, limiter on, the mixer's own pacing |
| `ScreenAudioMixers.ScreenAudioMixer.Mix` | client/src/audio/screen_audio_mixer.cpp:174-276 | The state left, the answer and the samples written over the front of the caller's buffer are the mixer model's, on every path; the rest of the buffer is untouched |
| `MixLaws.BlockSounds` | client/src/audio/screen_audio_mixer.cpp:192-275 | Sample by sample, for any mixed block, voice, ring, slider and mute: each side is the voice, or nothing while muted, plus the ring's own oldest sample for that ear, or nothing while it starves, at its share of 256 rounded down; with the limiter on, each is heard at the gain its frame asks for, rounded down and clipped, the gain running on from before the block to after it; with it off, clipped; the block leaves the ring by 960 samples exactly when it played, and is counted once if any frame overloaded |
| `MixLaws.StraightThrough` | client/src/audio/screen_audio_mixer.cpp:192-216 | A block that cannot be mixed comes out as the microphone's samples, or as silence while muted, in its own channels, and touches nothing but the level |
| `MixLaws.NothingToMix` | client/src/audio/screen_audio_mixer.cpp:176-179 | With no channels or no samples nothing is done or measured |
| `MixLaws.LevelIsTheMeanSquare` | client/src/audio/screen_audio_mixer.cpp:183-190 | The square of the level is the sum of the squared samples over their number and 2^30, on every path |
| `MixLaws.OtherEvents` | client/src/audio/screen_audio_mixer.cpp:87-151 | What each setting, push and capture event changes, and that it changes nothing else |
| `ScreenAudioMixers.ScreenAudioMixer.MixBlock` | client/src/audio/screen_audio_mixer.cpp:221-274 | The frame loop writes the limited stream, or the plain one, and counts the block when it had to turn down |
| `ScreenAudioMixers.ScreenAudioMixer.SetScreenVolume` | client/src/audio/screen_audio_mixer.cpp:87-91 | The percentage is clamped and the gain follows it |
| `ScreenAudioMixers.ScreenAudioMixer.MeasureLoudness` | client/src/audio/screen_audio_mixer.cpp:183-190 | The loop leaves the mean square of the microphone's samples |
| `ScreenAudioMixers.ScreenAudioMixer.Start` | client/src/audio/screen_audio_mixer.cpp:99-123 | Stopped and emptied first; running only if the capture came up |
| `ScreenAudioMixers.ScreenAudioMixer.Stop` | client/src/audio/screen_audio_mixer.cpp:125-132 | Not running, and nothing buffered |
| `ScreenAudioMixers.ScreenAudioMixer.NoteFailure` | client/src/audio/screen_audio_mixer.cpp:146-151 | A capture that ends by itself leaves what it had buffered |
| `CallRuns.RunIsConsistent` | client/src/app/call_session.cpp:219-279 | Over every run: at most one media session is in hand, built after the latest `authenticated`, its microphone muted exactly when the session is, told every volume and device chosen, and every offer went to a session built after the latest `authenticated` before it |
| `CallRuns.NextIsConsistent` | client/src/app/call_session.cpp:1078-1640 | Every handler and call keeps that |
| `CallRuns.DisplacedAreClosed` | client/src/app/call_session.cpp:219-244 | Over every run, in a room or out of one, every media session displaced was closed: by name, or on the early return of `leave` by its destructor as its last owner lets go (client/src/webrtc/libwebrtc_media_session.cpp:802-803) |
| `CallLaws.OfferReachesASession` | client/src/app/call_session.cpp:1583-1610 | An offer from the SFU with a session in hand, or a factory that works, is handed over exactly once, with its own description, in the session there was or in one built for it, muted as we are and told what was chosen; no other event hands anything over |
| `CallLaws.AppliedIsWhatMet` | client/src/app/call_session.cpp:1583-1610 | Over any run, what the media layer was handed is exactly the SFU's offers that met a session, in order |
| `CallLaws.AuthenticationsAreCounted` | client/src/app/call_session.cpp:1079-1130 | Over any run, the count a session is born with is how often `authenticated` had come |
| `CallLaws.LastWordStands` | client/src/app/call_session.cpp:80-1773 | Over any run, the room, the name, the identity, the credentials, the mute, the state, who holds the floor, who is in the room and how, whether there is a media session, and each volume and device are what the last event that speaks of them said |
| `CallLaws.UnspokenStands` | client/src/app/call_session.cpp:80-1773 | And what no event spoke of is what it was |
| `CallLaws.EventStands` | client/src/app/call_session.cpp:80-1773 | What each single event says of each of these facts |
| `CallLaws.StartsWithNothing` | client/src/app/call_session.cpp:52-64 | A session starts idle, signed out, outside any room, open, with nobody seen and nothing chosen, built or counted |
| `CallRuns.ReconnectingKeepsThePlace` | client/src/app/call_session.cpp:873-1155 | Over any drops, retries, authentications and other news of the room, the mutes and removals of other people among it: room, name, mute and credentials are unchanged, and what was sent is, for each authentication in a room, the join and then exactly when muted the mute, and for each opening with credentials held, the credentials |
| `CallRuns.PeacefulStep` | client/src/app/call_session.cpp:873-1155 | One such step says exactly that much and changes none of those |
| `CallRuns.SaidIsSent` | client/src/app/call_session.cpp:201-279 | What each call and each message makes the session say of signing in, joining, leaving and muting, and that none of these five messages is sent otherwise; answers, candidates, chat and requests are not in the log |
| `MuteAgreement.ButtonAndRoomAgreeExactlyWhen` | client/src/app/call_session.cpp:201-279 | With the server's confirmations queued in order, other people's mutes, administrators, evictions and lost connections among them: over any run from agreement, the button is at every point settling on what the room has if and only if no step clashes |
| `MuteAgreement.StepAgreesExactlyWhen` | client/src/app/call_session.cpp:1095-1155 | One step ends that agreement if and only if it is a change of mute lost, or refused under an administrator's, with nothing about us on its way; a join under another flag than the server seats us with; or a rejoin that says nothing while another flag is on its way or on the seat |
| `MuteAgreement.HeardOutAgrees` | client/src/app/call_session.cpp:268-279 | In agreement, with no confirmation about us on its way, flag, live microphone and the room's record of us are one |
| `MuteAgreement.EchoOvertakesTheButton` | client/src/app/call_session.cpp:1212-1246 | Mute and unmute in a row: the first confirmation mutes again, and the second puts it right |
| `MuteAgreement.UnmutedUnderAForcedMute` | server/src/rooms/room_manager.cpp:367-373 | An unmute refused under an administrator's mute leaves the microphone open here, muted in the room, and nothing on its way to say so |
| `MuteAgreement.NextRoomEnteredMuted` | client/src/app/call_session.cpp:803-833 | Signing out muted and in again enters the next room muted here and open for the room, with nothing on its way to say so |
| `MuteAgreement.StaysSane` | server/src/rooms/room_manager.cpp:367-380 | While an administrator's mute stands on our seat, we are muted there, whatever we say |
| `MuteAgreement.AdminsMuteEndsExactlyWhen` | server/src/rooms/room_manager.cpp:277-382 | One step takes an administrator's mute off if and only if an administrator unmutes us, the seat is lost (an eviction, a lost connection, a leave that arrives), a join or rejoin seats us anew with the account unrestricted, or the connection takes another identity |
| `MuteAgreement.AdminsMuteStandsExactlyWhen` | server/src/rooms/room_manager.cpp:277-382 | Over any run it stands at every point if and only if none of those happens; nothing else we do or hear takes it off |
| `MuteAgreement.LeavingEndsAForcedMute` | server/src/rooms/room_manager.cpp:296-306 | The run that ends it with no administrator: muted by one, leave, join again, and the seat is open |
| `MuteAgreement.DropMakesAForcedMuteOurOwn` | client/src/app/call_session.cpp:1133-1151 | Muted by an administrator, a dropped connection: the rejoin says the mute as our own, and our own unmute is then accepted |
| `CallRuns.ProbeIsInvisible` | client/src/app/call_session.cpp:873-935 | With no credentials and no identity, a sequence of socket events sends no message and changes nothing; it measures once for each opening and reports the link once for each opening, failure and new attempt |
| `CallRuns.SignedOutStaysOut` | client/src/app/call_session.cpp:803-889 | Once the credentials are gone no run sends them again until somebody signs in |
| `CallRuns.KickAfterTheEnd` | client/src/app/call_session.cpp:1384-1428 | The kick that follows the end of a session is about a stranger and changes nothing |
| `CallRuns.NoFrameWithoutASharer` | client/src/app/call_session.cpp:1722-1741 | Once nobody holds the floor no frame is forwarded until a share is announced |
| `CallLaws.WatchedAreForwarded` | client/src/app/call_session.cpp:1722-1741 | Over any run a frame is forwarded if and only if somebody holds the floor as it comes |
| `CallRuns.MutedOutsideARoomExactlyWhen` | client/src/app/call_session.cpp:803-833 | A step leaves the session muted outside a room if and only if it signs out muted, is a late echo of our mute, or joins a room with no name while muted |
| `CallRuns.MutedSignOut` | client/src/app/call_session.cpp:803-826 | A run from the start that ends muted outside any room: sign in, join, mute, sign out |
| `CallRuns.SharerOutsideARoomExactlyWhen` | client/src/app/call_session.cpp:219-236 | A step leaves a sharer on record outside a room if and only if it leaves, signs out or joins nowhere with one on record, or hears of a share while outside |
| `CallRuns.LeftDuringAShare` | client/src/app/call_session.cpp:223-236 | A run from the start that ends with a sharer on record outside any room: join, a share, leave |
| `CallSessions.CallSession.constructor` | client/src/app/call_session.cpp:52-64 | Idle, signed out, outside any room, no media session |
| `CallSessions.CallSession.ConnectAndAuthenticate` | client/src/app/call_session.cpp:80-141 | The step as coded for each state the socket can be in; both fields are required |
| `CallSessions.CallSession.JoinRoom` | client/src/app/call_session.cpp:201-217 | Room and name are kept even when refused for want of an identity |
| `CallSessions.CallSession.LeaveRoom` | client/src/app/call_session.cpp:219-249 | The stay is taken down and announced, or refused outside a room; the media session is closed either way |
| `CallSessions.CallSession.SetMuted` | client/src/app/call_session.cpp:251-279 | Flag and microphone together, announced, or refused outside a room |
| `CallSessions.CallSession.Disconnect` | client/src/app/call_session.cpp:803-833 | Session closed, room, identity and credentials gone, mute and sharer kept |
| `CallSessions.CallSession.HandleSignalingState` | client/src/app/call_session.cpp:873-935 | Credentials and then a probe go out on opening, the link is reported on opening, failure and new attempt, and a drop is shown unless it was only a probe's |
| `CallSessions.CallSession.HandleAuthenticated` | client/src/app/call_session.cpp:1079-1155 | New identity, old media closed, and the room walked back into |
| `CallSessions.CallSession.HandleUserJoined` | client/src/app/call_session.cpp:1170-1178 | A participant is added, or kept as they were |
| `CallSessions.CallSession.HandleUserLeft` | client/src/app/call_session.cpp:1180-1210 | A participant goes, and the floor with them |
| `CallSessions.CallSession.HandleMute` | client/src/app/call_session.cpp:1212-1275 | Participant, flag and microphone follow the server's word, muted or unmuted |
| `CallSessions.CallSession.HandleKicked` | client/src/app/call_session.cpp:1333-1382 | For us the whole stay is taken down; for another only they go |
| `CallSessions.CallSession.HandleSessionEnded` | client/src/app/call_session.cpp:1384-1428 | Everything but the socket is gone |
| `CallSessions.CallSession.HandleShareStarted` | client/src/app/call_session.cpp:1490-1506 | The floor is theirs |
| `CallSessions.CallSession.HandleShareStopped` | client/src/app/call_session.cpp:1508-1526 | The floor is free if it was theirs |
| `CallSessions.CallSession.HandleOffer` | client/src/app/call_session.cpp:1583-1610 | An offer from the SFU goes to the session in hand, built if there was none and the factory can |
| `CallSessions.CallSession.EnsureMediaSession` | client/src/app/call_session.cpp:1638-1822 | A new session is muted as we are and told every volume and device chosen so far |
| `CallSessions.CallSession.CarrySettings` | client/src/app/call_session.cpp:1794-1822 | The loop over the volumes and the two device calls leave the session with the settings kept |
| `CallSessions.CallSession.SetParticipantVolume` | client/src/app/call_session.cpp:615-629 | Kept for the next call, and told to the one in hand |
| `CallSessions.CallSession.SetInputDevice` | client/src/app/call_session.cpp:631-642 | The same of the microphone |
| `CallSessions.CallSession.SetOutputDevice` | client/src/app/call_session.cpp:644-655 | The same of the loudspeaker |
| `CallSessions.CallSession.HandleMediaState` | client/src/app/call_session.cpp:1759-1773 | Media connected is in call, media failed is failed |
| `CallSessions.CallSession.HandleRemoteVideo` | client/src/app/call_session.cpp:1722-1741 | A frame is forwarded exactly when somebody holds the floor |
| `VideoBitrate.BitrateSettings.SetVideoBitrate` | client/src/app/call_session.cpp:487-516 | Refused when not a range, or in automatic mode; recorded even when the session then refuses it |
| `VideoBitrate.BitrateSettings.SetAutoBitrate` | client/src/app/call_session.cpp:528-551 | Turning it on puts the recommended range in force; turning it off leaves the range |
| `VideoBitrate.BitrateSettings.SetVideoQuality` | client/src/app/call_session.cpp:558-608 | A quality the session refuses is not recorded; in automatic mode the range follows one it takes |
| `SignalingRuns.RunKeepsInvariant` | client/src/network/signaling_client.cpp:95-404 | Over every interleaving of calls, socket callbacks, retries and pongs the client's counters, phases and measurements stay consistent |
| `SignalingRuns.RoundTripTimesItsOwnProbe` | client/src/network/signaling_client.cpp:115-141 | A round trip on show is the time from the sending of one probe, sent on the socket now in hand, to the arrival of the pong that names it, and of no other probe, whatever late pongs came before |
| `SignalingRuns.NoncesAreNeverReused` | client/src/network/signaling_client.cpp:125-126 | Different probes never carry the same nonce |
| `SignalingRuns.AttemptingUntilSettled` | client/src/network/signaling_client.cpp:105-113 | `is_attempting` is true exactly from a connect to its first open or drop |
| `SignalingRuns.StateIsWhatHappened` | client/src/network/signaling_client.cpp:183-270 | Over every run each of the five states, both ways: disconnected without a socket, connecting until the one in hand reports, connected when it has opened and not dropped since, and after a drop reconnecting or failed as the drops in a row leave an attempt or not |
| `SignalingRuns.BeginsDisconnected` | client/src/network/signaling_client.cpp:57-58 | A client begins disconnected, pointed at its address, with nothing scheduled, sent or measured |
| `SignalingRuns.LogIsTheReport` | client/src/network/signaling_client.cpp:143-327 | What those are read from, told by the events alone: whether the socket in hand has reported, and the drops and retries since the last opening or connect |
| `SignalingRuns.ConnectIsRefusedExactlyWhen` | client/src/network/signaling_client.cpp:143-181 | A connect does nothing if and only if there is a socket or the address is neither ws:// nor wss:// |
| `SignalingRuns.ChangesForget` | client/src/network/signaling_client.cpp:190-248 | A connect, a drop, a retry and a disconnect each leave nothing measured and nothing in flight |
| `SignalingRuns.PongIsTimedOnce` | client/src/network/signaling_client.cpp:393-414 | The pong of the probe in flight is timed, and the same nonce again is not |
| `SignalingRuns.MillisecondsCutOff` | client/src/network/signaling_client.cpp:393-414 | A round trip is the elapsed time in whole milliseconds, cut off towards zero |
| `SignalingRuns.RetriesStayOnTheAddress` | client/src/network/signaling_client.cpp:143-236 | Between one connect and the next, whatever `set_url` says, every socket opened goes to the address that connect adopted |
| `SignalingRuns.ConnectAdoptsTheAddress` | client/src/network/signaling_client.cpp:143-236 | A connect that is not refused opens at once on the address last set, and so does every socket after it until the next connect, whatever is set in between |
| `SignalingRuns.NothingOpensAfterDisconnect` | client/src/network/signaling_client.cpp:308-344 | After a disconnect no socket opens, and none is in hand or scheduled, until the next connect |
| `SignalingRuns.KthDropWaitsTheKthDelay` | client/src/network/signaling_client.cpp:238-270 | The k-th drop since an open that schedules a retry waits the k-th delay, and a limit of N allows at most N retries between opens |
| `SignalingRuns.FailedWithARetryPendingExactlyWhen` | client/src/network/signaling_client.cpp:250-266 | `Failed` is reported with a retry still scheduled if and only if a socket with no attempt left reports a second drop before its retry has fired |
| `SignalingRuns.FailedWithARetryPending` | client/src/network/signaling_client.cpp:238-270 | The run that gets there: one attempt allowed, connect, the socket dropping twice; the retry then opens a socket from failed |
| `Backoff.KthDelay` | client/src/network/signaling_client.cpp:41-55 | For 0 < initial <= max the k-th delay is min(initial x 2^(k-1), max), but an odd max where the doubling lands one short of it; never under initial nor over max |
| `Backoff.NextDelayIsNoShorter` | client/src/network/signaling_client.cpp:41-55 | Then the delays never shorten |
| `Backoff.NeverShortensExactlyWhen` | client/src/network/signaling_client.cpp:41-55 | For a positive initial delay they never shorten if and only if it is no longer than the ceiling |
| `Backoff.AboveTheCeiling` | client/src/network/signaling_client.cpp:41-55 | A first wait no lower than the ceiling is waited once, and the ceiling from then on |
| `Backoff.ReconnectDelay` | client/src/network/signaling_client.cpp:41-55 | The doubling loop computes it, and nothing on the way exceeds the ceiling |
| `SignalingClients.SignalingClient.constructor` | client/src/network/signaling_client.cpp:57-58 | Disconnected, pointed at the address given |
| `SignalingClients.SignalingClient.SetUrl` | client/src/network/signaling_client.cpp:95-98 | Only the next connect's address changes |
| `SignalingClients.SignalingClient.Attempting` | client/src/network/signaling_client.cpp:105-113 | True exactly until the connect's first open or drop |
| `SignalingClients.SignalingClient.Connect` | client/src/network/signaling_client.cpp:143-181 | Refused with a socket in hand or an unusable address; otherwise adopts the address and opens |
| `SignalingClients.SignalingClient.OpenSocket` | client/src/network/signaling_client.cpp:183-236 | A new socket on the adopted address, with nothing measured on it |
| `SignalingClients.SignalingClient.HandleOpen` | client/src/network/signaling_client.cpp:209-220 | Connected, drops counted from zero again |
| `SignalingClients.SignalingClient.HandleDrop` | client/src/network/signaling_client.cpp:238-270 | The measurement goes; a retry is scheduled or the client has failed |
| `SignalingClients.SignalingClient.RetryFires` | client/src/network/signaling_client.cpp:285-303 | A due retry still wanted opens a new socket |
| `SignalingClients.SignalingClient.Disconnect` | client/src/network/signaling_client.cpp:308-344 | No socket, no schedule, no measurement |
| `SignalingClients.SignalingClient.Probe` | client/src/network/signaling_client.cpp:115-130 | A fresh nonce stamped before the send, or refused with no socket |
| `SignalingClients.SignalingClient.HandlePong` | client/src/network/signaling_client.cpp:393-414 | Timed exactly when it names the probe in flight |
| `ChatLinks.FindLinks` | client/src/app/chat_links.cpp:119-155 | The spans are exactly the links of the line: each from a legal http or https start to the trimmed end of its run, in order, apart, and none missed |
| `ChatLinks.ExactIsUnique` | client/src/app/chat_links.cpp:119-155 | There is only one such list, so it is all the scanner can return |
| `ChatLinks.EveryStartIsExplained` | client/src/app/chat_links.cpp:131-151 | Every legal scheme start begins a span, lies inside one, or has nothing after it that is not trimmed away |
| `LinkLaws.LinksAre` | client/src/app/chat_links.cpp:15-155 | On literal characters: every link starts with http:// or https:// in any case, not behind a letter, digit, plus, minus or dot, holds no space, control character, angle bracket or double quote, and ends at the last place where its text ends well; and any other such start is inside a link or has nothing left |
| `LinkLaws.TrimsToTheLastGoodEnd` | client/src/app/chat_links.cpp:70-115 | Trimming stops at the last place where the text ends neither in sentence punctuation nor in a closing bracket it holds more of than of its opener, counted as a multiset |
| `ChatLinks.LinkShape` | client/src/app/chat_links.cpp:38-61 | A link starts with an h that may start a scheme, holds no space, control character, bracket or quote, and is followed by one, by trimmed punctuation or by nothing |
| `ChatLinks.SchemesDoNotOverlap` | client/src/app/chat_links.cpp:145-148 | No scheme begins inside another, so skipping over a bare one misses nothing |
| `ChatLinks.Trimmed` | client/src/app/chat_links.cpp:70-115 | The greatest stopping point of the trim rule at or before the end of the run |
| `ChatLinks.TrimTrailingPunctuation` | client/src/app/chat_links.cpp:70-115 | The trimming loops, bracket counting included, find it |
| `ChatLinks.RunEnd` | client/src/app/chat_links.cpp:136-139 | The first terminator at or after a place, or the end of the line |
| `ChatLinks.StartsWithIgnoringCase` | client/src/app/chat_links.cpp:20-30 | True exactly when the prefix stands there, ASCII letter case aside |
| `ChatHtml.ToHtml` | client/src/ui/chat_view.cpp:62-86 | The rich text reads back as exactly the slices the line was cut into, which join to the line |
| `ChatHtml.ReadsBack` | client/src/ui/chat_view.cpp:62-86 | Whatever was typed, every link's destination decodes to the text shown for it, and nothing typed is taken for markup |
| `ChatHtml.FlattensToTheLine` | client/src/ui/chat_view.cpp:73-84 | Taking the tags out gives the line back |
| `ChatHtml.UnescapedUndoesEscaped` | client/src/ui/chat_view.cpp:53-55 | Unescaping undoes escaping |
| `ChatHtml.EscapedHidesMarkup` | client/src/ui/chat_view.cpp:53-55 | Escaped text holds no angle bracket and no quote |
| `ChatHtml.LinksCutCleanly` | client/src/app/chat_links.cpp:119-155 | Both ends of a link are the ends of the line or stand before an ASCII byte |
| `ChatHtml.CleanCutSplits` | client/src/app/chat_links.cpp:119-155 | Cutting valid UTF-8 (section 3 of RFC 3629) at such a place leaves two valid halves |
| `ChatHtml.ToHtmlKeepsUtf8` | client/src/ui/chat_view.cpp:62-86 | So every piece of a valid line is valid: no character is cut in two |
| `ServerAddress.ExpandIsIdempotentExactlyWhen` | client/src/app/server_address.cpp:146-195 | What expand returns expands to itself if and only if the host was not an IPv6 address typed without brackets with a ] in it |
| `ServerAddress.FieldRoundTripsExactlyWhen` | client/src/app/server_address.cpp:197-207 | What the field shows expands to the same URL again if and only if, besides, no plain address with a port has another URL after it |
| `ServerAddress.StrayBracketIsLost` | client/src/app/server_address.cpp:118-125 | Every such bare host with a bracket inside is expanded, and what it expands to does not expand to itself |
| `ServerAddress.StrayAddress` | client/src/app/server_address.cpp:118-125 | `a]:b:c` is one |
| `ServerAddress.NestedUrlIsRefusedBack` | client/src/app/server_address.cpp:197-207 | Every plain address with a port and a URL in its path is shown without its scheme and refused when it comes back |
| `ServerAddress.PathWithAUrl` | client/src/app/server_address.cpp:197-207 | `h:1/x://y` is one |
| `ServerAddress.DisplayIs` | client/src/app/server_address.cpp:197-207 | Only the scheme of a plain ws:// address that names its port comes off |
| `ServerAddress.PlainAddressIsCompleted` | client/src/app/server_address.cpp:178-195 | An address with no scheme gets ws://, and :8080 when it names no port |
| `ServerAddress.BareIpv6IsBracketed` | client/src/app/server_address.cpp:118-125 | An IPv6 address typed bare is put in brackets and gets :8080 |
| `ServerAddress.BrowserSchemeIsTranslated` | client/src/app/server_address.cpp:23-28 | http:// and https:// mean ws:// and wss:// and nothing else, refusals included |
| `AddressLaws.SchemeCaseIsIgnored` | client/src/app/server_address.cpp:23-47 | The case a scheme is typed in changes nothing |
| `AddressLaws.SchemeIsRefusedExactlyWhen` | client/src/app/server_address.cpp:157-170 | An address is refused for its scheme if and only if it has a :// in it and begins with none of ws://, wss://, http:// and https://, in any case |
| `AddressLaws.BlanksAroundAreIgnored` | client/src/app/server_address.cpp:146-155 | White space before and after an address changes nothing, and white space alone is no address |
| `AddressLaws.BlankInsideIsRefused` | client/src/app/server_address.cpp:146-155 | White space inside is refused as such |
| `AddressLaws.PortIsRefusedExactlyWhen` | client/src/app/server_address.cpp:126-142 | Behind a plain host a colon and a text is refused for its port if and only if it is not one to five digits writing a number from 1 to 65535; otherwise the address is taken as typed |
| `AddressLaws.UnclosedIsRefused` | client/src/app/server_address.cpp:93-97 | A bracket that is never closed is refused as such |
| `AddressLaws.JunkIsRefused` | client/src/app/server_address.cpp:98-108 | Anything but a port behind a closed bracket is refused as such |
| `AddressLaws.NoHostIsRefused` | client/src/app/server_address.cpp:109-132 | A port with no host is refused as such |
| `AddressLaws.EmptyBracketsAreRefused` | client/src/app/server_address.cpp:126-132 | And so are brackets with nothing in them |
| `ServerAddress.SplitYields` | client/src/app/server_address.cpp:83-142 | A split yields the rest as it stood, a port from 1 to 65535 or none, and a host that can be split off again unless its bracket was stray |
| `ServerAddress.Rejoined` | client/src/app/server_address.cpp:83-142 | Such a host, port and rest written one after the other split into themselves |
| `ServerAddress.StrayIsRefused` | client/src/app/server_address.cpp:93-108 | A bracketed host with another ] inside is refused |
| `ServerAddress.SplitOfExpanded` | client/src/app/server_address.cpp:172-194 | What follows the scheme of an expanded URL splits into the parts it was printed from, or is refused when the bracket was stray |
| `ServerAddress.ExpandServerAddress` | client/src/app/server_address.cpp:146-195 | The code, with its loop over the table of schemes, is the expansion these are about |
| `ImpairmentSamplers.ScrambleIsABijection` | client/src/media/network_impairment.hpp:119-125 | The draw is a bijection of the 64-bit state, with the inverse written out |
| `ImpairmentSamplers.DifferentStatesDrawDifferently` | client/src/media/network_impairment.hpp:119-125 | Two states draw the same word only if they are the same state |
| `ImpairmentSamplers.DrawsRepeatExactlyEvery64Bits` | client/src/media/network_impairment.hpp:119-125 | Two draws of one sampler agree if and only if they are a multiple of 2^64 draws apart |
| `ImpairmentSamplers.EveryWordIsDrawn` | client/src/media/network_impairment.hpp:119-125 | Each run of 2^64 draws draws every word exactly once, whatever the seed |
| `SamplerLaws.DrawIsSplitmix64` | client/src/media/network_impairment.hpp:119-125 | The n-th draw, bit by bit and in plain arithmetic: the state stepped n + 1 times by 0x9E3779B97F4A7C15, folded over itself by 30, 27 and 31 places with the two multiplications between, all modulo 2^64 |
| `ImpairmentSamplers.UniformIsBelowOne` | client/src/media/network_impairment.hpp:114-117 | The 53-bit fraction lies in [0, 1) |
| `SamplerLaws.UniformIsTheTopBits` | client/src/media/network_impairment.hpp:114-117 | The fraction times 2^53 is the draw over 2048, rounded down |
| `SamplerLaws.LostExactlyBelow` | client/src/media/network_impairment.hpp:87-95 | A probability loses exactly the draws below 2048 k, with k the least whole number no smaller than it times 2^53 |
| `SamplerLaws.LostShare` | client/src/media/network_impairment.hpp:87-125 | So of the 2^64 draws of any seed exactly 2048 k are lost |
| `ImpairmentSamplers.HeldWithinJitter` | client/src/media/network_impairment.hpp:98-110 | With jitter a packet is held between max(0, delay - jitter) and max(0, delay + jitter) |
| `SamplerLaws.HeldIsNearest` | client/src/media/network_impairment.hpp:98-110 | The hold is the whole number nearest to the delay plus the draw's share of the jitter, halves away from zero, and nothing when that is negative |
| `SamplerLaws.EndsAreReached` | client/src/media/network_impairment.hpp:98-110 | The lowest draw holds for the low end of the band, and the highest for its high end if and only if the jitter is no wider than 2^51 or that end is not positive |
| `ImpairmentSamplers.ImpairmentSampler.Next` | client/src/media/network_impairment.hpp:119-125 | One step of the state and the scramble of it |
| `ImpairmentSamplers.ImpairmentSampler.Drops` | client/src/media/network_impairment.hpp:87-95 | Certain at 0 and 1 without spending a draw, otherwise the next draw's fraction is below the probability |
| `ImpairmentSamplers.ImpairmentSampler.Holds` | client/src/media/network_impairment.hpp:98-110 | Within the jitter around the delay and never negative; no draw is spent without jitter |
| `Words.StirUndone` | client/src/media/network_impairment.hpp:122-124 | Folding a word onto itself by a shift of a third of its width or more is undone by folding twice |
| `VoiceGateModel.OpenExactlyWithinTheHold` | client/src/audio/voice_gate.cpp:33-46 | After any run from a reset the gate is open if and only if the unvoiced samples since the last voiced block, or the reset, are fewer than the hold |
| `VoiceGateModel.GainNeverJumps` | client/src/audio/voice_gate.cpp:64-70 | Over any run the gain at each sample is in [0, 1] and within one attack or release step of the sample before, across blocks too |
| `VoiceGateModel.RampsUp` | client/src/audio/voice_gate.cpp:64-66 | Opening, the gain after k samples is min(1, g + k x attack) |
| `VoiceGateModel.RampsDown` | client/src/audio/voice_gate.cpp:64-66 | Closing, it is max(0, g - k x release) |
| `VoiceGateModel.BlockFollowsTheVoice` | client/src/audio/voice_gate.cpp:33-71 | Each sample of a block, and the gain behind it: up by the attack step and to one at most when the block has a voice or is shorter than what is left of the hold, down by the release step and to nothing at least otherwise; with the hold, the flag and the counters after it |
| `VoiceGateModel.SilenceCloses` | client/src/audio/voice_gate.cpp:33-71 | With the hold used up, any run without a voice takes the gain down by a release step a sample, to nothing at least |
| `VoiceGateModel.VoiceOpens` | client/src/audio/voice_gate.cpp:33-71 | Any run of voice takes it up by an attack step a sample, to one at most |
| `VoiceGateModel.ReleaseSilences` | client/src/audio/voice_gate.cpp:22-71 | Once the hold is over, a release's worth of samples with no voice in them ends in silence |
| `VoiceGateModel.FreshIs` | client/src/audio/voice_gate.cpp:22-31 | Open, full gain, a whole hold ahead, and steps that take their own number of samples from one end to the other |
| `VoiceGateModel.SamplesInMs` | client/src/audio/voice_gate.cpp:12-15 | Milliseconds in samples, rounded down, and never fewer than one |
| `VoiceGateModel.SettledBlock` | client/src/audio/voice_gate.cpp:51-62 | On the two early exits the plain ramp would have multiplied every sample by one, or by zero |
| `VoiceGateModel.AttackOpensFully` | client/src/audio/voice_gate.cpp:22-25 | One attack's worth of samples opens the gate fully from anywhere |
| `VoiceGateModel.RunIsSound` | client/src/audio/voice_gate.cpp:33-71 | Hold, steps and gain stay in range |
| `VoiceGates.VoiceGate.constructor` | client/src/audio/voice_gate.cpp:18-20 | Reset at 48 kHz |
| `VoiceGates.VoiceGate.Reset` | client/src/audio/voice_gate.cpp:22-31 | Open, full gain, a full hold ahead |
| `VoiceGates.VoiceGate.Apply` | client/src/audio/voice_gate.cpp:33-71 | Short cuts and all, every sample of every channel is multiplied by the plain ramp's gain, samples past the block are untouched, and the state is the plain loop's |
| `ScreenViewModel.EveryInterleavingIsSafe` | client/src/ui/screen_view.cpp:66-199 | Under every interleaving of the two threads: a closed view holds no frame, the frame on screen was submitted in the period now open, and at most one delivery is outstanding, exactly when the flag says so |
| `ScreenViewModel.NextKeepsInvariant` | client/src/ui/screen_view.cpp:66-199 | Every atomic step keeps the invariant behind it |
| `ScreenViewModel.DeliveryShowsNewerExactlyWhenWritten` | client/src/ui/screen_view.cpp:180-189 | A delivery puts a newer frame on screen if and only if one was written since the last delivery |
| `ScreenViewModel.OlderFrameComesBack` | client/src/ui/screen_view.cpp:116-123 | A delivery that runs between a frame's write and its exchange is followed by another that brings the frame before back |
| `ScreenViewModel.StepsMove` | client/src/ui/screen_view.cpp:66-199 | What each step moves: a frame submitted to an open view lands in the pending slot alone, opening touches neither slot, closing empties both, a delivery swaps them once |
| `ScreenViews.ScreenView.SubmitLocked` | client/src/ui/screen_view.cpp:66-116 | The locked half: nothing for an empty frame or a closed view, the slot emptied when no buffer can be had; the picture on screen is untouched |
| `ScreenViews.ScreenView.ExchangeDelivery` | client/src/ui/screen_view.cpp:121-123 | A delivery is ordered exactly when none is outstanding |
| `ScreenViews.ScreenView.SetReceiving` | client/src/ui/screen_view.cpp:126-141 | Closing empties both slots, opening touches neither |
| `ScreenViews.ScreenView.TakePendingLocked` | client/src/ui/screen_view.cpp:180-188 | The slots are swapped; what comes on screen is of the open period, and newer exactly when a frame was written since the last swap |
| `ScreenViews.ScreenView.FinishDelivery` | client/src/ui/screen_view.cpp:189 | Nothing is outstanding any more, and the next delivery may be ordered |
| `MetricsModel.KeepsExactlyTheWindow` | client/src/app/metrics_history.cpp:71-74 | With time not running backwards the samples kept are exactly those of the readings no older than the window |
| `MetricsModel.RunFollows` | client/src/app/metrics_history.cpp:20-75 | After any readings the totals are the last one's and the samples a tail of all that were made |
| `MetricsModel.ClearForgetsEverything` | client/src/app/metrics_history.cpp:77-86 | A history is what the readings since the last clear alone would have made it |
| `MetricsModel.LossAddsUp` | client/src/app/metrics_history.cpp:43-48 | Between restarts, loss percentage times packets expected, summed over the intervals, is 100 x (last lost - first lost) |
| `MetricsModel.ConcealmentAddsUpExactlyWhen` | client/src/app/metrics_history.cpp:49-55 | The same holds of concealment if and only if no interval conceals samples while playing none |
| `MetricsModel.ConcealmentAddsUp` | client/src/app/metrics_history.cpp:49-55 | What the sum falls short by is what such intervals concealed |
| `MetricsModel.ConcealedWithNothingPlayed` | client/src/app/metrics_history.cpp:49-55 | Two readings that conceal ten samples and play none, and add up to nothing |
| `MetricsModel.BufferAddsUp` | client/src/app/metrics_history.cpp:56-60 | Buffer figure times samples emitted, summed over the intervals, is 1000 x the growth of the delay, but for delay that grew with nothing emitted or went down |
| `MetricsModel.NothingToMeasureAgainst` | client/src/app/metrics_history.cpp:36-43 | The first reading, the first after a clear and the first after any counter went down show no rates |
| `MetricsModel.NothingToShare` | client/src/app/metrics_history.cpp:43-60 | Nor does an interval show a rate it has nothing to take a share of |
| `MetricsModel.SampleShowsItsReading` | client/src/app/metrics_history.cpp:22-32 | Every sample shows its reading's time and figures, and the process figures when there are any, memory in units of 1048576 bytes |
| `MetricsModel.BeginsWithNothing` | client/src/app/metrics_history.cpp:14 | A history begins with no samples and nothing to measure against, over the window asked for or one millisecond, and a clear brings that back |
| `MetricsHistories.MetricsHistory.Measure` | client/src/app/metrics_history.cpp:22-61 | The sample of one reading: what it only copies, the processor and memory use when there is any, and the rates, no unsigned subtraction going below zero |
| `MetricsHistories.MetricsHistory.Observe` | client/src/app/metrics_history.cpp:20-75 | The new totals, the new sample, and the oldest dropped up to the first young enough |
| `MetricsHistories.MetricsHistory.Clear` | client/src/app/metrics_history.cpp:77-86 | Nothing kept, nothing to measure against |

## Left out

- ScreenAudioMixers.ScreenAudioMixer.Mix: keeps the square of the microphone level, in reals, where the source takes the root of it in doubles; the once-only warning about odd frames is a log line.
- ImpairmentSamplers.ImpairmentSampler.Holds: reals stand for doubles, so the rounding of the product itself is not modelled.
- VoiceGates.VoiceGate.Apply: reals stand for floats, so rounding of the steps and the gain is not modelled.
- MetricsHistories.MetricsHistory.Observe: uses reals for doubles.
- BlockPacers.BlockPacer.Push: counters are unbounded, where the source's wrap at 2^64 frames.
- SignalingClients.SignalingClient.RetryFires: one step, so a `disconnect` between the due check and the reopening is not modelled; nor are the reconnection and ping counters, the path added to a URL, and messages other than pongs.
- CallSessions.CallSession.EnsureMediaSession: one step, so another thread acting between its locked sections is not modelled; a device or volume the session refuses counts as told, and screen-audio settings are not carried.
- CallSessions.CallSession.DropSession: the call holds the only lasting reference to its media session; a factory whose session does not close itself when destroyed is not modelled.
- MuteAgreement.StepAgreesExactlyWhen: a sign-in counts as recognised when its answer arrives, so messages between the two are read under the identity answered.
- VideoBitrate.BitrateSettings.SetVideoQuality: one step, with the recommendation a parameter.
- ChatHtml.ToHtml: works on UTF-8 bytes, where the source decodes each piece to UTF-16 before escaping it; escaping touches ASCII only.
- ScreenViews.ScreenView.SubmitLocked: a frame is its stamp and period, not its pixels.
- Of a screen-audio capture only its starting, stopping and failing are modelled, as the buffer and the mix see them.
- The request-only administration calls of CallSession, its chat, list and notice messages, restrictions, screen-share start, audio levels and ICE candidates only forward what they are given.
- `nice_ceiling` is logarithms and powers of doubles.
- Widgets, painting, device capture, WebRTC, the rest of the server, configuration and storage are not part of this model.
