/** The bitrate range of a screen share, and the setters that keep it in step with the quality. */
module VideoBitrate {
  datatype Size = Size(width: int, height: int)

  datatype Range = Range(min: int, max: int)

  datatype Outcome = Accepted | InvalidValue | AutomaticBitrate | RefusedBySession

  // What the media session answered when it was told of a range or a quality; none without one.
  datatype Answer = NoSession | SessionAccepts | SessionRefuses

  // The recommendation itself, for a size, a rate and a floor, belongs to another component.
  type Recommend = (Size, int, int) -> Range

  class BitrateSettings {
    const recommend: Recommend
    const floor: int
    var automatic: bool
    var range: Range
    var size: Size
    var fps: int

    // In automatic mode the range in force is the one recommended for what is being captured.
    ghost predicate InStep()
      reads this
    {
      automatic ==> range == recommend(size, fps, floor)
    }

    // Whoever builds the options in automatic mode fills the range from the recommendation.
    constructor (recommend: Recommend, floor: int, automatic: bool, range: Range, size: Size, fps: int)
      requires automatic ==> range == recommend(size, fps, floor)
      ensures InStep()
      ensures this.automatic == automatic && this.range == range && this.size == size && this.fps == fps
    {
      this.recommend, this.floor := recommend, floor;
      this.automatic, this.range, this.size, this.fps := automatic, range, size, fps;
    }

    method SetVideoBitrate(min: int, max: int, answer: Answer) returns (r: Outcome)
      requires InStep()
      modifies this`range
      ensures InStep()
      ensures var valid := 0 < min <= max;
        && range == (if valid && !automatic then Range(min, max) else old(range))
        && r == (if !valid then InvalidValue else if automatic then AutomaticBitrate
                 else if answer.SessionRefuses? then RefusedBySession else Accepted)
    {
      if min <= 0 || max < min {
        return InvalidValue;
      }
      if automatic {
        return AutomaticBitrate;
      }
      range := Range(min, max);
      return if answer.SessionRefuses? then RefusedBySession else Accepted;
    }

    method SetAutoBitrate(on: bool, answer: Answer) returns (r: Outcome)
      requires InStep()
      modifies this`automatic, this`range
      ensures InStep() && automatic == on
      ensures !on ==> range == old(range) && r == Accepted
      ensures on ==> r == if answer.SessionRefuses? then RefusedBySession else Accepted
    {
      automatic := on;
      if !on {
        return Accepted;
      }
      range := recommend(size, fps, floor);
      return if answer.SessionRefuses? then RefusedBySession else Accepted;
    }

    // The session is told first: a quality it refuses is not recorded.
    method SetVideoQuality(wanted: Size, rate: int, quality: Answer) returns (r: Outcome)
      requires InStep()
      modifies this`range, this`size, this`fps
      ensures InStep()
      ensures r == (if wanted.width <= 0 || wanted.height <= 0 || rate < 1 then InvalidValue
                    else if quality.SessionRefuses? then RefusedBySession else Accepted)
      ensures r == Accepted ==> size == wanted && fps == rate
      ensures r != Accepted ==> unchanged(this)
      ensures !automatic ==> range == old(range)
    {
      if wanted.width <= 0 || wanted.height <= 0 || rate < 1 {
        return InvalidValue;
      }
      if quality.SessionRefuses? {
        return RefusedBySession;
      }
      size, fps := wanted, rate;
      if automatic {
        range := recommend(wanted, rate, floor);
      }
      return Accepted;
    }
  }
}
