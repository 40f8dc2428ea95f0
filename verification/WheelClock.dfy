/** Clock arithmetic of the wheel: the eight clocks are the mixed-radix digits
    of one millisecond clock, and every delay finds a bucket. */
module WheelClock {
  import opened Options
  import opened Wheel
  import Arith

  /** Between two ticks every wheel clock is the exact quotient of the time. */
  predicate Aligned(ticks: seq<nat>) {
    |ticks| == LEVELS && forall i :: 0 <= i < LEVELS ==> ticks[i] == ticks[0] / Res(i)
  }

  /** Eight digits of the given time. */
  function Digits(time: nat): (r: seq<nat>)
    ensures |r| == LEVELS && forall i :: 0 <= i < LEVELS ==> r[i] == time / Res(i)
  {
    seq(LEVELS, i requires 0 <= i < LEVELS => time / Res(i))
  }

  lemma DigitsAligned(time: nat)
    ensures Aligned(Digits(time)) && Digits(time)[0] == time
  {
    assert time / 1 == time;
  }

  /** One revolution of a wheel is one unit of the next. */
  lemma Radix(i: nat)
    requires i < LEVELS
    ensures Res(i) * Size(i) == if i + 1 < LEVELS then Res(i + 1) else HORIZON
  {
  }

  lemma CoarserDivides(i: nat, j: nat, time: nat)
    requires j <= i < LEVELS && time % Res(i) == 0
    ensures time % Res(j) == 0
    decreases i
  {
    if j < i {
      Radix(i - 1);
      Arith.ProductDivides(time, Res(i - 1), Size(i - 1), Res(i));
      CoarserDivides(i - 1, j, time);
    }
  }

  /** Wheel i reaches the next instant as soon as it is a multiple of its unit. */
  lemma ReachesMultiple(ticks: seq<nat>, i: nat)
    requires Aligned(ticks) && i < LEVELS && (ticks[0] + 1) % Res(i) == 0
    ensures InStep(ticks, i) && ticks[i] + 1 == (ticks[0] + 1) / Res(i)
    ensures Wraps(ticks, i) <==> (ticks[0] + 1) % (if i + 1 < LEVELS then Res(i + 1) else HORIZON) == 0
  {
    var next := ticks[0] + 1;
    Arith.QuotientSuccessor(ticks[0], Res(i));
    assert next == (next / Res(i)) * Res(i);
    Radix(i);
    Arith.ProductDivides(next, Res(i), Size(i), Res(i) * Size(i));
  }

  lemma {:induction false} CascadeReadyFrom(ticks: seq<nat>, i: nat)
    requires Aligned(ticks) && i < LEVELS && (ticks[0] + 1) % Res(i) == 0
    ensures CascadeReady(ticks, i) <==> (ticks[0] + 1) % HORIZON != 0
    decreases LEVELS - i
  {
    var next := ticks[0] + 1;
    ReachesMultiple(ticks, i);
    if i + 1 == LEVELS {
      assert !CascadeReady(ticks, LEVELS);
    } else if Wraps(ticks, i) {
      CascadeReadyFrom(ticks, i + 1);
    } else if next % HORIZON == 0 {
      Arith.ProductDivides(next, Res(7), Size(7), HORIZON);
      CoarserDivides(7, i + 1, next);
      assert false;
    }
  }

  /** A tick touches only existing wheels, and finds each of them in step,
      exactly when the new time is no multiple of four years. */
  lemma TickInBoundsIff(ticks: seq<nat>)
    requires Aligned(ticks)
    ensures CascadeReady(ticks, 0) <==> (ticks[0] + 1) % HORIZON != 0
  {
    CascadeReadyFrom(ticks, 0);
  }

  lemma {:induction false} AdvancedDigits(ticks: seq<nat>, i: nat, j: nat)
    requires Aligned(ticks) && i <= j < LEVELS
    requires (ticks[0] + 1) % Res(i) == 0 && CascadeReady(ticks, i)
    ensures Advanced(ticks, i)[j] == (ticks[0] + 1) / Res(j)
    decreases LEVELS - i
  {
    var next := ticks[0] + 1;
    ReachesMultiple(ticks, i);
    Arith.QuotientSuccessor(ticks[0], Res(j));
    if i < j {
      if Wraps(ticks, i) {
        AdvancedDigits(ticks, i + 1, j);
      } else if next % Res(j) == 0 {
        CoarserDivides(j, i + 1, next);
        assert false;
      }
    }
  }

  /** The cascading increments carry like a mixed-radix counter. */
  lemma AdvancedIsNextTime(ticks: seq<nat>)
    requires Aligned(ticks) && CascadeReady(ticks, 0)
    ensures Advanced(ticks, 0) == Digits(ticks[0] + 1)
  {
    forall j | 0 <= j < LEVELS
      ensures Advanced(ticks, 0)[j] == Digits(ticks[0] + 1)[j]
    {
      AdvancedDigits(ticks, 0, j);
    }
  }

  // ---- buckets ----

  /** The bucket a wheel keeps for an expiry, whatever the clocks say. */
  function Slot(i: nat, expiry: nat): (slot: nat)
    requires i < LEVELS
    ensures slot < BUCKETS && WheelOf(slot) == i
  {
    BucketOf(i, Arith.Residue(expiry / Res(i), Size(i)))
  }

  function BucketOf(i: nat, cell: nat): (slot: nat)
    requires i < LEVELS && cell < Size(i)
    ensures slot == Start(i) + cell < BUCKETS && WheelOf(slot) == i
  {
    Start(i) + cell
  }

  /** _find_bucket depends on the clock only through the expired test. */
  lemma FindBucketIsSlot(ticks: seq<nat>, i: nat, expiry: nat)
    requires |ticks| == LEVELS && i < LEVELS
    ensures FindBucket(ticks, i, expiry) ==
            if ticks[i] * Res(i) >= expiry then None else Some(Slot(i, expiry))
  {
    if ticks[i] * Res(i) < expiry {
      Arith.QuotientAfterUnits(expiry, ticks[i], Res(i));
    }
  }

  /** The chosen wheel can hold the delay in less than one revolution. */
  lemma FindWheelFits(delay: nat)
    ensures var i := FindWheel(delay);
            && (i > 0 ==> Res(i) <= delay)
            && (i < 7 ==> delay < Res(i) * Size(i))
  {
  }

  /** FindWheel is the only wheel that fits. */
  lemma FindWheelUnique(delay: nat, i: nat)
    requires i < LEVELS
    ensures FindWheel(delay) == i <==>
            (i > 0 ==> Res(i) <= delay) && (i < 7 ==> delay < Res(i) * Size(i))
  {
  }

  /** Where a timer may rest at the given time: in the bucket of its expiry, at
      least one unit ahead and, below the top wheel, within one revolution. */
  predicate PlacedAt(time: nat, slot: nat, t: Timer)
    requires slot < BUCKETS
  {
    var i := WheelOf(slot);
    var ahead := t.expiry / Res(i) - time / Res(i);
    slot == Slot(i, t.expiry) && 0 < ahead && (i < 7 ==> ahead < Size(i))
  }

  /** As above, but possibly due in the unit that begins at this time. */
  predicate DueOrPlacedAt(time: nat, slot: nat, t: Timer)
    requires slot < BUCKETS
  {
    var i := WheelOf(slot);
    var ahead := t.expiry / Res(i) - time / Res(i);
    slot == Slot(i, t.expiry) && 0 <= ahead && (i < 7 ==> ahead < Size(i))
  }

  lemma PlacedIsLater(time: nat, slot: nat, t: Timer)
    requires slot < BUCKETS && PlacedAt(time, slot, t)
    ensures time < t.expiry
  {
  }

  /** A delay counted from a multiple of the chosen unit is placed at once. */
  lemma FreshPlacement(base: nat, delay: nat, t: Timer)
    requires delay > 0 && t.expiry == base + delay
    requires base % Res(FindWheel(delay)) == 0
    ensures var i := FindWheel(delay); PlacedAt(base, Slot(i, t.expiry), t)
  {
    var i := FindWheel(delay);
    var r, k := Res(i), base / Res(i);
    FindWheelFits(delay);
    assert base == k * r;
    Arith.QuotientAfterUnits(t.expiry, k, r);
    if i > 0 {
      Arith.QuotientMonotone(r, delay, r);
      Arith.QuotientUnique(r, 1, r);
    }
    if i < 7 {
      Arith.QuotientBelow(delay, Size(i), r);
    }
  }

  /** One tick later a resting timer is either still resting, or its wheel ticks
      and it may be due. */
  lemma PlacedAfterTick(time: nat, slot: nat, t: Timer)
    requires slot < BUCKETS && PlacedAt(time, slot, t)
    ensures DueOrPlacedAt(time + 1, slot, t)
    ensures (time + 1) % Res(WheelOf(slot)) != 0 ==> PlacedAt(time + 1, slot, t)
  {
  }

  /** When a wheel reaches a bucket, the timers in its other buckets rest. */
  lemma UnreachedRests(time: nat, slot: nat, t: Timer)
    requires slot < BUCKETS && DueOrPlacedAt(time, slot, t) && slot != Slot(WheelOf(slot), time)
    ensures PlacedAt(time, slot, t)
  {
    SlotsEqualIff(WheelOf(slot), time, t.expiry);
  }

  /** No timer in any bucket of a wheel that ticks is late. */
  lemma HeldIsNotLate(time: nat, slot: nat, t: Timer)
    requires slot < BUCKETS && DueOrPlacedAt(time, slot, t) && time % Res(WheelOf(slot)) == 0
    ensures time <= t.expiry
  {
    NotBefore(time, t.expiry, Res(WheelOf(slot)));
  }

  /** Below the top wheel the whole bucket that is reached is due within the unit that
      begins now. */
  lemma ReachedIsDue(time: nat, slot: nat, t: Timer)
    requires slot < BUCKETS && DueOrPlacedAt(time, slot, t) && time % Res(WheelOf(slot)) == 0
    requires slot == Slot(WheelOf(slot), time) && WheelOf(slot) < 7
    ensures t.expiry < time + Res(WheelOf(slot))
  {
    var i := WheelOf(slot);
    SlotsEqualIff(i, time, t.expiry);
    Arith.SameResidue(time / Res(i), t.expiry / Res(i), Size(i));
    NotAfter(time, t.expiry, Res(i));
  }

  lemma SlotsEqualIff(i: nat, time: nat, expiry: nat)
    requires i < LEVELS
    ensures Slot(i, time) == Slot(i, expiry) <==> (time / Res(i)) % Size(i) == (expiry / Res(i)) % Size(i)
  {
  }

  lemma NotBefore(time: nat, expiry: nat, r: nat)
    requires 0 < r && time % r == 0 && time / r <= expiry / r
    ensures time <= expiry
  {
    Arith.QuotientTimes(time, r);
    Arith.QuotientTimes(expiry, r);
    Arith.MultiplesApart(time / r, expiry / r, r);
  }

  lemma NotAfter(time: nat, expiry: nat, r: nat)
    requires 0 < r && time % r == 0 && time / r == expiry / r
    ensures expiry < time + r
  {
    Arith.QuotientTimes(expiry, r);
    Arith.QuotientTimes(time, r);
  }
}
