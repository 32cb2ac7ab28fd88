/** The 48 kHz stereo format the whole audio path works in. */
module AudioFormat {
  type Sample = s: int | -32768 <= s <= 32767

  const CHANNELS: nat := 2
  const FRAMES_PER_BLOCK: nat := 480
  const SAMPLES_PER_BLOCK: nat := 960

  function Silence(samples: nat): (s: seq<Sample>)
    ensures |s| == samples && forall i :: 0 <= i < samples ==> s[i] == 0
  {
    seq(samples, _ => 0)
  }
}
