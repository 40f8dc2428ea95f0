/** How often the wheels hand a timer back: counted where the cascade does it, and
    computed from the wheel that first took the timer, its expiry and the clock. */
module WheelMoves {
  import opened Wheel
  import opened WheelClock
  import opened WheelCascade
  import opened WheelOps
  import opened WheelRuns
  import opened WheelFate
  import opened WheelHeld
  import Arith

  // ---- the count of the machine ----

  /** How often t is handed back in a walk over a bucket that is reached at this time. */
  function EachBack(time: nat, timers: seq<Timer>, t: Timer): nat {
    if timers == [] then 0
    else (if timers[0] == t && time < t.expiry then 1 else 0) + EachBack(time, timers[1..], t)
  }

  /** In a tick of wheel i and of the wheels above that it reaches. */
  function HandsBack(w: Wheels, i: nat, t: Timer): nat
    requires Shaped(w) && CascadeReady(w.ticks, i)
    decreases LEVELS - i
  {
    EachBack((w.ticks[i] + 1) * Res(i), w.buckets[DueSlot(w.ticks, i)], t)
    + if Wraps(w.ticks, i) then HandsBack(BucketDone(w, i), i + 1, t) else 0
  }

  function TickBack(w: Wheels, t: Timer): nat
    requires Shaped(w) && Aligned(w.ticks) && w.ticks[0] + 1 < HORIZON
  {
    TickStaysAligned(w);
    HandsBack(w, 0, t)
  }

  function TicksBack(w: Wheels, count: nat, t: Timer): nat
    requires Shaped(w) && Aligned(w.ticks) && w.ticks[0] + count < HORIZON
    decreases count
  {
    if count == 0 then 0 else TickBack(w, t) + TicksBack(Tick(w), count - 1, t)
  }

  function RunBack(w: Wheels, ops: seq<Op>, t: Timer): nat
    requires AllWithin(w, ops)
    decreases |ops|
  {
    if ops == [] then 0
    else (if ops[0].Expire? then TicksBack(w, ops[0].count, t) else 0) + RunBack(Step(w, ops[0]), ops[1..], t)
  }

  // ---- the count on paper ----

  /** When the top wheel, in its first revolution, comes to the bucket of the expiry. */
  function Lap(expiry: nat): nat {
    (expiry / YEAR % 4) * YEAR
  }

  /** A timer of the top wheel that is due in a later revolution is put back into its
      own bucket once, when the wheel comes there. */
  function Laps(expiry: nat, i: nat, now: nat, later: nat): nat {
    if i == 7 && HORIZON <= expiry && now < Lap(expiry) <= later then 1 else 0
  }

  lemma TopTurn(expiry: nat)
    ensures Turn(7, expiry) == (expiry / YEAR) * YEAR
    ensures HORIZON <= expiry <==> HORIZON <= Turn(7, expiry)
    ensures expiry < HORIZON ==> Lap(expiry) == Turn(7, expiry)
    ensures Lap(expiry) < HORIZON && Lap(expiry) <= expiry
  {
  }

  // ---- one cascade ----

  lemma {:induction false} EachBackCounts(time: nat, timers: seq<Timer>, t: Timer)
    ensures EachBack(time, timers, t) == if time < t.expiry then multiset(timers)[t] else 0
  {
    if timers != [] {
      EachBackCounts(time, timers[1..], t);
      assert timers == [timers[0]] + timers[1..];
    }
  }

  /** A timer that is stored once counts once in its bucket and nowhere else. */
  lemma OnlyHere(buckets: seq<seq<Timer>>, slot: nat, other: nat, t: Timer)
    requires slot < |buckets| && other < |buckets| && t in buckets[slot] && Stored(buckets)[t] == 1
    ensures multiset(buckets[other])[t] == if other == slot then 1 else 0
  {
    if other == slot {
      StoredUpdate(buckets, slot, []);
      assert (Stored(buckets[slot := []]) + multiset(buckets[slot]))[t] == (Stored(buckets) + multiset([]))[t];
    } else if t in buckets[other] {
      HeldOnce(buckets, slot, other, t);
    }
  }

  lemma StillStored(w: Wheels, i: nat, time: nat, done: Wheels, t: Timer)
    requires Midway(w, i, time) && done == BucketDone(w, i) && time < t.expiry
    ensures Stored(done.buckets)[t] == Stored(w.buckets)[t]
  {
    MidwayDeals(w, i, time, 0);
    OthersNotCalled(w.calls, done.calls, time, t);
    assert Ledger(done)[t] == Ledger(w)[t];
  }

  /** The wheel of this bucket comes to it at this time. */
  predicate Reached(slot: nat, time: nat)
    requires slot < BUCKETS
  {
    time % Res(WheelOf(slot)) == 0 && slot == Slot(WheelOf(slot), time)
  }

  lemma BucketBack(w: Wheels, time: nat, due: nat, slot: nat, t: Timer)
    requires Shaped(w) && slot < BUCKETS && t in w.buckets[slot] && time < t.expiry
    requires Stored(w.buckets)[t] == 1 && due < BUCKETS
    ensures EachBack(time, w.buckets[due], t) == if slot == due then 1 else 0
  {
    EachBackCounts(time, w.buckets[due], t);
    OnlyHere(w.buckets, slot, due, t);
  }

  lemma HandsBackUnfold(w: Wheels, i: nat, time: nat, due: nat, done: Wheels, t: Timer)
    requires Midway(w, i, time) && due == Slot(i, time) && done == BucketDone(w, i)
    ensures Wraps(w.ticks, i) ==> Midway(done, i + 1, time)
    ensures HandsBack(w, i, t) ==
            EachBack(time, w.buckets[due], t) + if Wraps(w.ticks, i) then HandsBack(done, i + 1, t) else 0
  {
    StepTime(w, i, time);
    MidwayStep(w, i, time);
    BackUnfold(w, i, time, due, done, t);
  }

  lemma StepTime(w: Wheels, i: nat, time: nat)
    requires Midway(w, i, time)
    ensures (w.ticks[i] + 1) * Res(i) == time && DueSlot(w.ticks, i) == Slot(i, time)
  {
    DueSlotIsSlotOfTime(w.ticks, i);
    InStepTime(w.ticks, i, time);
  }

  lemma InStepTime(ticks: seq<nat>, i: nat, time: nat)
    requires |ticks| == LEVELS && InStep(ticks, i) && time == ticks[0] + 1
    ensures (ticks[i] + 1) * Res(i) == time
  {
    assert Res(0) == 1;
  }

  lemma BackUnfold(w: Wheels, i: nat, time: nat, due: nat, done: Wheels, t: Timer)
    requires Shaped(w) && CascadeReady(w.ticks, i) && done == BucketDone(w, i)
    requires (w.ticks[i] + 1) * Res(i) == time && due == DueSlot(w.ticks, i)
    ensures HandsBack(w, i, t) ==
            EachBack(time, w.buckets[due], t) + if Wraps(w.ticks, i) then HandsBack(done, i + 1, t) else 0
  {
  }

  lemma ReachedHere(i: nat, time: nat, slot: nat)
    requires i < LEVELS && time % Res(i) == 0 && slot < BUCKETS
    ensures slot == Slot(i, time) ==> WheelOf(slot) == i && Reached(slot, time)
    ensures WheelOf(slot) == i && slot != Slot(i, time) ==> !Reached(slot, time)
  {
  }

  /** Where the timer is when the wheels above go on. */
  lemma AfterBucket(w: Wheels, i: nat, time: nat, due: nat, done: Wheels, slot: nat, after: nat, t: Timer)
    requires Midway(w, i, time) && slot < BUCKETS && t in w.buckets[slot] && time < t.expiry
    requires due == DueSlot(w.ticks, i) && done == BucketDone(w, i)
    requires after == if slot == due then RescheduleSlot(time, t) else slot
    ensures t in done.buckets[after] && Stored(done.buckets)[t] == Stored(w.buckets)[t]
    ensures slot == due ==> WheelOf(after) <= i
  {
    BucketHolds(w, i, time, due, done, slot, after, t);
    StillStored(w, i, time, done, t);
    if slot == due {
      DueSlotIsSlotOfTime(w.ticks, i);
      StaysBelow(w, i, time, slot, t);
    }
  }

  /** A cascade from wheel i upwards hands a timer back once if it reaches the bucket
      of the timer, and otherwise not. */
  lemma {:induction false} HandsBackIff(w: Wheels, i: nat, time: nat, slot: nat, t: Timer)
    requires Midway(w, i, time) && slot < BUCKETS && t in w.buckets[slot] && time < t.expiry
    requires Stored(w.buckets)[t] == 1
    ensures HandsBack(w, i, t) == if i <= WheelOf(slot) && Reached(slot, time) then 1 else 0
    decreases LEVELS - i
  {
    var due, done := Slot(i, time), BucketDone(w, i);
    var after := if slot == due then RescheduleSlot(time, t) else slot;
    BucketBack(w, time, due, slot, t);
    HandsBackUnfold(w, i, time, due, done, t);
    StepTime(w, i, time);
    AfterBucket(w, i, time, due, done, slot, after, t);
    ReachedHere(i, time, slot);
    if Wraps(w.ticks, i) {
      HandsBackIff(done, i + 1, time, after, t);
    } else if i < WheelOf(slot) {
      NoTickAbove(w, i, time, WheelOf(slot));
    }
  }

  // ---- one tick, and many ----

  /** Below the horizon the bucket of the expiry is reached at the turn of the timer,
      or in the lap of the top wheel. */
  lemma ReachedIff(time: nat, i: nat, t: Timer)
    requires i < LEVELS && PlacedAt(time, Slot(i, t.expiry), t) && time + 1 < t.expiry && time + 1 < HORIZON
    ensures Reached(Slot(i, t.expiry), time + 1) <==>
            time + 1 == Turn(i, t.expiry) || Laps(t.expiry, i, time, time + 1) == 1
  {
    var next := time + 1;
    PlacedAfterTick(time, Slot(i, t.expiry), t);
    if next == Turn(i, t.expiry) {
      TurnIsReached(i, t.expiry, next);
    } else if i < 7 {
      if Reached(Slot(i, t.expiry), next) {
        SlotsEqualIff(i, next, t.expiry);
        SameQuotient(next, t.expiry, Res(i), Size(i), next / Res(i), t.expiry / Res(i));
      }
    } else {
      TopTurn(t.expiry);
      TopReached(next, t.expiry);
    }
  }

  lemma TopReached(time: nat, expiry: nat)
    requires time < HORIZON
    ensures Reached(Slot(7, expiry), time) <==> time == Lap(expiry)
  {
    assert time / YEAR < 4;
  }

  lemma StoredOnce(w: Wheels, i: nat, t: Timer)
    requires Sane(w) && i < LEVELS && HeldBy(w, i, t)
    ensures Stored(w.buckets)[t] == 1 && PlacedAt(Now(w), Slot(i, t.expiry), t)
  {
    StoredMember(w.buckets, t);
  }

  lemma TickBackIff(w: Wheels, slot: nat, t: Timer, next: nat)
    requires Sane(w) && next == Now(w) + 1 < HORIZON && next < t.expiry
    requires slot < BUCKETS && t in w.buckets[slot] && Stored(w.buckets)[t] == 1
    ensures TickBack(w, t) == if Reached(slot, next) then 1 else 0
  {
    TickMidway(w, Tick(w), next);
    HandsBackIff(w, 0, next, slot, t);
  }

  lemma BackOnPaper(time: nat, next: nat, i: nat, t: Timer)
    requires i < LEVELS && PlacedAt(time, Slot(i, t.expiry), t) && next == time + 1 < t.expiry && next < HORIZON
    ensures Moves(t.expiry, i, next) + Laps(t.expiry, i, time, next) ==
            if Reached(Slot(i, t.expiry), next) then 1 else 0
  {
    HeldNext(time, i, t);
    ReachedIff(time, i, t);
    TopTurn(t.expiry);
  }

  /** The lap of a later revolution comes before its turn, so the timer is still in the
      top wheel then. */
  lemma LapsCompose(expiry: nat, i: nat, now: nat, middle: nat, later: nat)
    requires i < LEVELS && now <= middle <= later && middle < expiry
    ensures Laps(expiry, i, now, middle) + Laps(expiry, HeldIn(expiry, i, middle), middle, later)
            == Laps(expiry, i, now, later)
  {
    TopTurn(expiry);
  }

  lemma {:induction false} TicksBackAre(w: Wheels, count: nat, i: nat, t: Timer, now: nat, time: nat)
    requires Sane(w) && now == Now(w) && now + count == time < HORIZON
    requires i < LEVELS && HeldBy(w, i, t) && time < t.expiry
    ensures TicksBack(w, count, t) == Moves(t.expiry, i, time) + Laps(t.expiry, i, now, time)
    decreases count
  {
    HeldNow(w, i, t);
    if count == 0 {
      PlacedBeforeTurn(now, i, t);
    } else {
      var next, soon, fewer := Tick(w), now + 1, count - 1;
      var k := HeldIn(t.expiry, i, soon);
      StoredOnce(w, i, t);
      TickBackIff(w, Slot(i, t.expiry), t, soon);
      BackOnPaper(now, soon, i, t);
      TickHolds(w, next, soon, i, t, k);
      OneTickLaw(w, next, 0);
      TicksBackAre(next, fewer, k, t, soon, time);
      PaperCompose(t.expiry, i, k, now, soon, time);
      TicksBackUnfold(w, next, count, fewer, t);
    }
  }

  lemma TicksBackUnfold(w: Wheels, next: Wheels, count: nat, fewer: nat, t: Timer)
    requires Shaped(w) && Aligned(w.ticks) && fewer + 1 == count && w.ticks[0] + count < HORIZON && next == Tick(w)
    ensures TicksBack(w, count, t) == TickBack(w, t) + TicksBack(next, fewer, t)
  {
  }

  lemma PaperCompose(expiry: nat, i: nat, k: nat, now: nat, middle: nat, later: nat)
    requires i < LEVELS && now <= middle <= later < expiry && k == HeldIn(expiry, i, middle)
    ensures HeldIn(expiry, k, later) == HeldIn(expiry, i, later)
    ensures Moves(expiry, i, middle) + Laps(expiry, i, now, middle)
            + (Moves(expiry, k, later) + Laps(expiry, k, middle, later))
            == Moves(expiry, i, later) + Laps(expiry, i, now, later)
  {
    HeldCompose(expiry, i, middle, later);
    LapsCompose(expiry, i, now, middle, later);
  }

  /** Over any regular run that does not name it, and until its expiry, a timer held by
      wheel i is handed back exactly as often as the descent on paper moves it, and
      once more if it waits in the top wheel for a later revolution. */
  lemma {:induction false} RunBackIs(w: Wheels, ops: seq<Op>, r: Wheels, i: nat, t: Timer)
    requires Sane(w) && AllRegular(w, ops) && AllWithin(w, ops) && r == Run(w, ops)
    requires forall k :: 0 <= k < |ops| ==> !Names(ops[k], t.id)
    requires i < LEVELS && HeldBy(w, i, t) && Sane(r) && Now(r) < t.expiry
    ensures RunBack(w, ops, t) == Moves(t.expiry, i, Now(r)) + Laps(t.expiry, i, Now(w), Now(r))
    decreases |ops|
  {
    HeldNow(w, i, t);
    if ops == [] {
      PlacedBeforeTurn(Now(w), i, t);
    } else {
      var next := Step(w, ops[0]);
      StepOnTime(w, ops[0]);
      CallsInOrder(next, ops[1..]);
      var k := HeldIn(t.expiry, i, Now(next));
      StepHolds(w, ops[0], next, i, t, k);
      if ops[0].Expire? {
        TicksBackAre(w, ops[0].count, i, t, Now(w), Now(next));
      }
      RunBackIs(next, ops[1..], r, k, t);
      PaperCompose(t.expiry, i, k, Now(w), Now(next), Now(r));
    }
  }

  lemma {:induction false} BelowHorizon(w: Wheels, ops: seq<Op>)
    requires AllWithin(w, ops) && Shaped(w) && Now(w) < HORIZON
    ensures Shaped(Run(w, ops)) && Now(Run(w, ops)) < HORIZON
    decreases |ops|
  {
    if ops != [] {
      BelowHorizon(Step(w, ops[0]), ops[1..]);
    }
  }

  /** So it is handed back at most i times. Each time it goes to a strictly lower wheel,
      except that a timer of the top wheel with a later revolution to wait for goes
      back to its bucket, and then it is not handed back again. */
  lemma HandedBackAtMost(w: Wheels, ops: seq<Op>, r: Wheels, i: nat, t: Timer)
    requires Sane(w) && Now(w) < HORIZON && AllRegular(w, ops) && AllWithin(w, ops) && r == Run(w, ops)
    requires forall k :: 0 <= k < |ops| ==> !Names(ops[k], t.id)
    requires i < LEVELS && HeldBy(w, i, t) && Sane(r) && Now(r) < t.expiry
    ensures RunBack(w, ops, t) <= i
    ensures HORIZON <= t.expiry && i == 7 ==> RunBack(w, ops, t) <= 1 && HeldBy(r, 7, t)
    ensures !(HORIZON <= t.expiry && i == 7) ==> RunBack(w, ops, t) + HeldIn(t.expiry, i, Now(r)) <= i
  {
    BelowHorizon(w, ops);
    RunBackIs(w, ops, r, i, t);
    MovedAtMost(t.expiry, i, Now(r));
    RunHolds(w, ops, r, i, t);
    TopTurn(t.expiry);
  }
}
