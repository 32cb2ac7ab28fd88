/**
 Handing frames from the media thread to the interface thread, as interleaved atomic steps: a
 locked section or an atomic exchange is one step, and the two threads may alternate between any.
 */
module ScreenViewModel {
  import opened Basics

  // A frame held in a slot: the how-manieth submitted, and in which open period.
  datatype Held = Held(stamp: nat, period: nat)

  datatype MediaThread = MediaIdle | Written
  datatype InterfaceThread = Resting | Swapped

  datatype View = View(
    receiving: bool,
    pending: Option<Held>,
    current: Option<Held>,
    deliveryPending: bool,
    queued: nat,
    media: MediaThread,
    interface: InterfaceThread,
    // History: frames written, periods opened, and whether one was written since the last swap.
    stamps: nat,
    period: nat,
    written: bool)

  const START := View(false, None, None, false, 0, MediaIdle, Resting, 0, 0, false)

  datatype Step =
    | Submit(empty: bool, buffered: bool)  // the locked half of `submit`
    | Exchange                              // its other half
    | SetReceiving(on: bool)
    | Swap                                  // the locked half of `take_pending_frame`
    | Store                                 // its other half

  function OnSubmit(v: View, empty: bool, buffered: bool): View {
    if empty || !v.receiving then v
    else if !buffered then v.(pending := None, written := false)
    else
      v.(pending := Some(Held(v.stamps + 1, v.period)), stamps := v.stamps + 1, written := true, media := Written)
  }

  function OnExchange(v: View): View {
    if v.deliveryPending then v.(media := MediaIdle)
    else v.(media := MediaIdle, deliveryPending := true, queued := v.queued + 1)
  }

  function OnSetReceiving(v: View, on: bool): View {
    if on then v.(receiving := true, period := if v.receiving then v.period else v.period + 1)
    else v.(receiving := false, pending := None, current := None, written := false)
  }

  predicate Enabled(v: View, s: Step) {
    match s
    case Submit(_, _) => v.media.MediaIdle?
    case Exchange => v.media.Written?
    case SetReceiving(_) => v.interface.Resting?
    case Swap => v.interface.Resting? && 0 < v.queued
    case Store => v.interface.Swapped?
  }

  // A step a thread is not ready for does not happen.
  function Next(v: View, s: Step): View {
    if !Enabled(v, s) then v
    else
      match s
      case Submit(empty, buffered) => OnSubmit(v, empty, buffered)
      case Exchange => OnExchange(v)
      case SetReceiving(on) => OnSetReceiving(v, on)
      case Swap => v.(queued := v.queued - 1, current := v.pending, pending := v.current, interface := Swapped, written := false)
      case Store => v.(deliveryPending := false, interface := Resting)
  }

  function Run(steps: seq<Step>): View {
    if steps == [] then START else Next(Run(steps[..|steps| - 1]), steps[|steps| - 1])
  }

  // --- What every interleaving keeps ------------------------------------------------------

  function Outstanding(v: View): nat {
    v.queued + if v.interface.Swapped? then 1 else 0
  }

  predicate InPeriod(v: View, slot: Option<Held>) {
    slot.Some? ==> v.receiving && slot.value.period == v.period && slot.value.stamp <= v.stamps
  }

  // While a delivery is queued, the pending frame is the newer one exactly if it was written
  // since the last swap.
  predicate Aged(v: View) {
    && (v.written ==> v.pending.Some? && v.pending.value.stamp == v.stamps)
    && (v.written && v.current.Some? ==> v.current.value.stamp < v.stamps)
    && ((0 < v.queued || v.media.Written?) && !v.written && v.pending.Some? ==>
          v.current.Some? && v.pending.value.stamp < v.current.value.stamp)
    && (v.media.Written? && !v.written && v.current.Some? ==> v.queued == 0)
  }

  predicate Invariant(v: View) {
    && Outstanding(v) == (if v.deliveryPending then 1 else 0)
    && InPeriod(v, v.pending) && InPeriod(v, v.current)
    && Aged(v)
  }

  lemma {:induction false} NextKeepsInvariant(v: View, s: Step)
    requires Invariant(v)
    ensures Invariant(Next(v, s))
  {
  }

  lemma {:induction false} RunKeepsInvariant(steps: seq<Step>)
    ensures Invariant(Run(steps))
  {
    if steps != [] {
      hide Next, Invariant;
      RunKeepsInvariant(steps[..|steps| - 1]);
      NextKeepsInvariant(Run(steps[..|steps| - 1]), steps[|steps| - 1]);
    }
  }

  // What each step moves, and that it moves no more: a frame submitted to an open view lands in the
  // pending slot alone, opening touches neither slot, closing empties both, and a delivery swaps
  // them once.
  lemma {:induction false} StepsMove(v: View, s: Step)
    requires Enabled(v, s)
    ensures var n := Next(v, s);
      match s
      case Submit(empty, buffered) =>
        && n.current == v.current && n.receiving == v.receiving && n.queued == v.queued && n.period == v.period
        && n.deliveryPending == v.deliveryPending && n.interface == v.interface
        && (empty || !v.receiving ==> n == v)
        && (!empty && v.receiving && !buffered ==> n.pending == None && n.stamps == v.stamps && n.media.MediaIdle?)
        && (!empty && v.receiving && buffered ==>
              n.pending == Some(Held(v.stamps + 1, v.period)) && n.stamps == v.stamps + 1 && n.media.Written?)
      case Exchange =>
        && n == v.(media := MediaIdle, deliveryPending := true, queued := n.queued)
        && n.queued == (if v.deliveryPending then v.queued else v.queued + 1)
      case SetReceiving(on) =>
        && n.receiving == on && n.stamps == v.stamps && n.queued == v.queued && n.deliveryPending == v.deliveryPending
        && n.media == v.media && n.interface == v.interface
        && (if on then n.pending == v.pending && n.current == v.current && n.written == v.written
            else n.pending == None && n.current == None)
        && n.period == (if on && !v.receiving then v.period + 1 else v.period)
      case Swap =>
        n == v.(current := v.pending, pending := v.current, queued := v.queued - 1, interface := Swapped, written := false)
      case Store => n == v.(deliveryPending := false, interface := Resting)
  {
  }

  // However the threads interleave: a closed view holds no frame, what is on screen was submitted
  // in the period now open, and one delivery at most is on its way.
  lemma {:induction false} EveryInterleavingIsSafe(steps: seq<Step>)
    ensures var v := Run(steps);
      && (!v.receiving ==> v.pending == None && v.current == None)
      && (v.current.Some? ==> v.current.value.period == v.period)
      && Outstanding(v) <= 1
      && (v.deliveryPending <==> Outstanding(v) == 1)
  {
    RunKeepsInvariant(steps);
  }

  predicate Newer(to: Option<Held>, from: Option<Held>) {
    to.Some? && (from.Some? ==> from.value.stamp < to.value.stamp)
  }

  // A delivery puts a newer frame on screen exactly when one was written since the last delivery;
  // otherwise it takes the picture down or brings back the one before.
  lemma {:induction false} DeliveryShowsNewerExactlyWhenWritten(steps: seq<Step>)
    requires Enabled(Run(steps), Swap)
    ensures var v := Run(steps); Newer(Next(v, Swap).current, v.current) <==> v.written
  {
    RunKeepsInvariant(steps);
  }

  const LATE_EXCHANGE := [SetReceiving(true), Submit(false, true), Exchange, Swap, Store,
                          Submit(false, true), Exchange, Submit(false, true), Swap, Store, Exchange, Swap]

  // A delivery that runs between the write of a frame and its exchange has that exchange order
  // another, and the frame before comes back.
  lemma {:induction false} OlderFrameComesBack()
    ensures Run(LATE_EXCHANGE[..9]).current == Some(Held(3, 1))
    ensures Run(LATE_EXCHANGE).current == Some(Held(1, 1))
  {
    FirstFrameShown();
    ThirdFrameShown();
    Prefix(9);
    Prefix(10);
    Prefix(11);
    hide Run;
    assert LATE_EXCHANGE[..12] == LATE_EXCHANGE;
  }

  lemma {:induction false} FirstFrameShown()
    ensures Run(LATE_EXCHANGE[..5]) == View(true, None, Some(Held(1, 1)), false, 0, MediaIdle, Resting, 1, 1, false)
  {
    assert LATE_EXCHANGE[..0] == [];
    assert Run([]) == START;
    Prefix(0);
    Prefix(1);
    Prefix(2);
    Prefix(3);
    Prefix(4);
    hide Run;
  }

  lemma {:induction false} ThirdFrameShown()
    ensures Run(LATE_EXCHANGE[..9])
         == View(true, Some(Held(1, 1)), Some(Held(3, 1)), true, 0, Written, Swapped, 3, 1, false)
  {
    FirstFrameShown();
    Prefix(5);
    Prefix(6);
    Prefix(7);
    Prefix(8);
    hide Run;
  }

  lemma {:induction false} Prefix(n: nat)
    requires n < |LATE_EXCHANGE|
    ensures Run(LATE_EXCHANGE[..n + 1]) == Next(Run(LATE_EXCHANGE[..n]), LATE_EXCHANGE[n])
  {
    assert LATE_EXCHANGE[..n + 1][..n] == LATE_EXCHANGE[..n];
  }
}
