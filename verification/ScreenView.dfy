/** The view's fields and the atomic steps the two threads take on them. */
module ScreenViews {
  import opened Basics
  import opened ScreenViewModel

  class ScreenView {
    var receiving: bool
    var pending: Option<Held>
    var current: Option<Held>
    var deliveryPending: bool
    ghost var queued: nat
    ghost var media: MediaThread
    ghost var interface: InterfaceThread
    ghost var stamps: nat
    ghost var period: nat
    ghost var written: bool

    ghost function Value(): View
      reads this
    {
      View(receiving, pending, current, deliveryPending, queued, media, interface, stamps, period, written)
    }

    ghost predicate Valid()
      reads this
    {
      Invariant(Value())
    }

    constructor ()
      ensures Valid() && Value() == START
    {
      receiving, pending, current, deliveryPending := false, None, None, false;
      queued, media, interface, stamps, period, written := 0, MediaIdle, Resting, 0, 0, false;
    }

    // The frame as the slot keeps it; true when the exchange is still to come.
    method SubmitLocked(frame: Held, empty: bool, buffered: bool) returns (wrote: bool)
      requires Valid() && Enabled(Value(), Submit(empty, buffered))
      requires frame == Held(stamps + 1, period)
      modifies this
      ensures Valid() && Value() == Next(old(Value()), Submit(empty, buffered))
      ensures wrote <==> media == Written
      ensures current == old(current)
    {
      NextKeepsInvariant(Value(), Submit(empty, buffered));
      hide Invariant;
      if empty {
        return false;
      }
      if !receiving {
        return false;
      }
      if !buffered {
        pending, written := None, false;
        return false;
      }
      pending := Some(frame);
      stamps, written, media := stamps + 1, true, Written;
      return true;
    }

    // True when this submit has to order a delivery.
    method ExchangeDelivery() returns (order: bool)
      requires Valid() && Enabled(Value(), Exchange)
      modifies this
      ensures Valid() && Value() == Next(old(Value()), Exchange)
      ensures order <==> Outstanding(old(Value())) == 0
    {
      NextKeepsInvariant(Value(), Exchange);
      hide Aged, InPeriod;
      order := !deliveryPending;
      deliveryPending := true;
      media := MediaIdle;
      if order {
        queued := queued + 1;
      }
    }

    method SetReceiving(on: bool)
      requires Valid() && Enabled(Value(), Step.SetReceiving(on))
      modifies this
      ensures Valid() && Value() == Next(old(Value()), Step.SetReceiving(on))
      ensures !receiving ==> current == None && pending == None
    {
      NextKeepsInvariant(Value(), Step.SetReceiving(on));
      hide Invariant;
      if on && !receiving {
        period := period + 1;
      }
      receiving := on;
      if on {
        return;
      }
      pending, current, written := None, None, false;
    }

    method TakePendingLocked()
      requires Valid() && Enabled(Value(), Swap)
      modifies this
      ensures Valid() && Value() == Next(old(Value()), Swap)
      ensures Newer(current, old(current)) <==> old(written)
      ensures current.Some? ==> receiving && current.value.period == period
    {
      NextKeepsInvariant(Value(), Swap);
      current, pending := pending, current;
      queued, interface, written := queued - 1, Swapped, false;
    }

    method FinishDelivery()
      requires Valid() && Enabled(Value(), Store)
      modifies this
      ensures Valid() && Value() == Next(old(Value()), Store)
      ensures Outstanding(Value()) == 0
    {
      NextKeepsInvariant(Value(), Store);
      deliveryPending := false;
      interface := Resting;
    }
  }
}
