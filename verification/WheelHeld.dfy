/** Where a timer is: the wheel that holds it at any time of any run, as a function
    of the wheel that first took it, its expiry and the clock. */
module WheelHeld {
  import opened Width
  import opened Wheel
  import opened WheelClock
  import opened WheelCascade
  import opened WheelOps
  import opened WheelRuns
  import opened WheelFate
  import Arith
  import Vec

  // ---- the descent on paper ----

  /** When wheel i comes to the unit of the expiry and gives the timer away. */
  function Turn(i: nat, expiry: nat): (time: nat)
    requires i < LEVELS
    ensures time <= expiry
  {
    expiry - Arith.Residue(expiry, Res(i))
  }

  lemma NextIsLower(i: nat, expiry: nat)
    requires i < LEVELS && Turn(i, expiry) < expiry
    ensures FindWheel(expiry - Turn(i, expiry)) < i
  {
    Arith.QuotientTimes(expiry, Res(i));
    FindWheelFits(expiry - Turn(i, expiry));
    if FindWheel(expiry - Turn(i, expiry)) >= i {
      FiningRes(i, FindWheel(expiry - Turn(i, expiry)));
    }
  }

  lemma FiningRes(i: nat, j: nat)
    requires i <= j < LEVELS
    ensures Res(i) <= Res(j)
  {
  }

  /** The wheel that holds a timer which wheel i took, at a time before its expiry:
      it stays until its turn, and then goes to the wheel for what remains. */
  function HeldIn(expiry: nat, i: nat, now: nat): (j: nat)
    requires i < LEVELS && now < expiry
    ensures j <= i
    decreases i
  {
    if now < Turn(i, expiry) then i
    else
      NextIsLower(i, expiry);
      HeldIn(expiry, FindWheel(expiry - Turn(i, expiry)), now)
  }

  /** How often it has been moved by then. */
  function Moves(expiry: nat, i: nat, now: nat): (n: nat)
    requires i < LEVELS && now < expiry
    decreases i
  {
    if now < Turn(i, expiry) then 0
    else
      NextIsLower(i, expiry);
      1 + Moves(expiry, FindWheel(expiry - Turn(i, expiry)), now)
  }

  /** A timer taken by wheel i is moved at most i times, each time to a strictly
      lower wheel. */
  lemma {:induction false} MovedAtMost(expiry: nat, i: nat, now: nat)
    requires i < LEVELS && now < expiry
    ensures Moves(expiry, i, now) + HeldIn(expiry, i, now) <= i
    decreases i
  {
    if Turn(i, expiry) <= now {
      NextIsLower(i, expiry);
      MovedAtMost(expiry, FindWheel(expiry - Turn(i, expiry)), now);
    }
  }

  /** What happens until now and then until later is what happens until later. */
  lemma {:induction false} HeldCompose(expiry: nat, i: nat, now: nat, later: nat)
    requires i < LEVELS && now <= later < expiry
    ensures HeldIn(expiry, HeldIn(expiry, i, now), later) == HeldIn(expiry, i, later)
    ensures Moves(expiry, i, now) + Moves(expiry, HeldIn(expiry, i, now), later) == Moves(expiry, i, later)
    decreases i
  {
    if Turn(i, expiry) <= now {
      NextIsLower(i, expiry);
      HeldCompose(expiry, FindWheel(expiry - Turn(i, expiry)), now, later);
    }
  }

  /** A timer that rests in wheel i has its turn there still to come. */
  lemma PlacedBeforeTurn(time: nat, i: nat, t: Timer)
    requires i < LEVELS && PlacedAt(time, Slot(i, t.expiry), t)
    ensures time < Turn(i, t.expiry)
  {
    Arith.QuotientTimes(time, Res(i));
    Arith.MultiplesApart(time / Res(i), t.expiry / Res(i), Res(i));
  }

  /** One tick moves a resting timer at most once. */
  lemma HeldNext(time: nat, i: nat, t: Timer)
    requires i < LEVELS && PlacedAt(time, Slot(i, t.expiry), t) && time + 1 < t.expiry
    ensures var turned := time + 1 == Turn(i, t.expiry);
            && HeldIn(t.expiry, i, time + 1) == (if turned then FindWheel(t.expiry - (time + 1)) else i)
            && Moves(t.expiry, i, time + 1) == (if turned then 1 else 0)
  {
    PlacedBeforeTurn(time, i, t);
    if time + 1 == Turn(i, t.expiry) {
      var j := FindWheel(t.expiry - (time + 1));
      NextIsLower(i, t.expiry);
      TurnIsMultiple(i, j, t.expiry);
      FreshPlacement(time + 1, t.expiry - (time + 1), t);
      PlacedBeforeTurn(time + 1, j, t);
    }
  }

  lemma TurnIsMultiple(i: nat, j: nat, expiry: nat)
    requires j <= i < LEVELS
    ensures Turn(i, expiry) % Res(j) == 0
  {
    Arith.QuotientUnique(Turn(i, expiry), expiry / Res(i), Res(i));
    CoarserDivides(i, j, Turn(i, expiry));
  }

  // ---- one cascade ----

  lemma TickOneKeeps(w: Wheels, i: nat, t: Timer, r: Wheels, slot: nat, u: Timer)
    requires Shaped(w) && InStep(w.ticks, i) && r == TickOne(w, i, t)
    requires slot < BUCKETS && u in w.buckets[slot]
    ensures u in r.buckets[slot]
  {
  }

  lemma {:induction false} TickEachKeeps(w: Wheels, i: nat, timers: seq<Timer>, r: Wheels, slot: nat, u: Timer)
    requires Shaped(w) && InStep(w.ticks, i) && r == TickEach(w, i, timers)
    requires slot < BUCKETS && u in w.buckets[slot]
    ensures u in r.buckets[slot]
    decreases |timers|
  {
    if timers != [] {
      var next := TickOne(w, i, timers[0]);
      TickOneKeeps(w, i, timers[0], next, slot, u);
      TickEachKeeps(next, i, timers[1..], r, slot, u);
    }
  }

  lemma {:induction false} TickEachPlaces(w: Wheels, i: nat, timers: seq<Timer>, r: Wheels, time: nat, u: Timer)
    requires InHand(w, i, timers, time) && r == TickEach(w, i, timers)
    requires u in timers && time < u.expiry
    ensures u in r.buckets[RescheduleSlot(time, u)]
    decreases |timers|
  {
    var t, rest := timers[0], timers[1..];
    assert timers == [t] + rest;
    var next := TickOne(w, i, t);
    InHandStep(w, i, t, rest, time, 0, 0);
    if t == u {
      TickOneIsPush(w, i, t);
      TickEachKeeps(next, i, rest, r, RescheduleSlot(time, u), u);
    } else {
      TickEachPlaces(next, i, rest, r, time, u);
    }
  }

  /** Where a timer of the given slot is after the bucket of the present time has
      been emptied. */
  function SlotAfter(slot: nat, time: nat, t: Timer): (after: nat)
    requires slot < BUCKETS && time < t.expiry
    ensures after < BUCKETS
  {
    if time % Res(WheelOf(slot)) == 0 && slot == Slot(WheelOf(slot), time) then RescheduleSlot(time, t) else slot
  }

  /** A timer of the bucket that is reached goes to the wheel for what remains. */
  lemma ReachedMoves(w: Wheels, i: nat, time: nat, due: nat, done: Wheels, after: nat, t: Timer)
    requires Midway(w, i, time) && due == DueSlot(w.ticks, i) && done == BucketDone(w, i)
    requires t in w.buckets[due] && time < t.expiry && after == RescheduleSlot(time, t)
    ensures t in done.buckets[after]
  {
    DueSlotIsSlotOfTime(w.ticks, i);
    TakeOutCascades(w, i, time);
    TickEachPlaces(TakeOut(w, due), i, w.buckets[due], done, time, t);
  }

  /** A timer of another bucket stays there. */
  lemma OthersStay(w: Wheels, i: nat, due: nat, done: Wheels, slot: nat, t: Timer)
    requires Shaped(w) && InStep(w.ticks, i) && due == DueSlot(w.ticks, i) && done == BucketDone(w, i)
    requires slot < BUCKETS && slot != due && t in w.buckets[slot]
    ensures t in done.buckets[slot]
  {
    TickEachKeeps(TakeOut(w, due), i, w.buckets[due], done, slot, t);
  }

  lemma BucketHolds(w: Wheels, i: nat, time: nat, due: nat, done: Wheels, slot: nat, after: nat, t: Timer)
    requires Midway(w, i, time) && due == DueSlot(w.ticks, i) && done == BucketDone(w, i)
    requires slot < BUCKETS && t in w.buckets[slot] && time < t.expiry
    requires after == if slot == due then RescheduleSlot(time, t) else slot
    ensures t in done.buckets[after]
  {
    if slot == due {
      ReachedMoves(w, i, time, due, done, after, t);
    } else {
      OthersStay(w, i, due, done, slot, t);
    }
  }

  /** The wheels from i on leave the lower wheels alone. */
  lemma {:induction false} UpperTicksKeep(w: Wheels, i: nat, time: nat, r: Wheels, slot: nat, t: Timer)
    requires Midway(w, i, time) && r == WheelTick(w, i)
    requires slot < BUCKETS && WheelOf(slot) < i && t in w.buckets[slot] && time < t.expiry
    ensures t in r.buckets[slot]
    decreases LEVELS - i
  {
    var done := BucketDone(w, i);
    OthersStay(w, i, DueSlot(w.ticks, i), done, slot, t);
    if Wraps(w.ticks, i) {
      MidwayStep(w, i, time);
      UpperTicksKeep(done, i + 1, time, WheelTick(done, i + 1), slot, t);
    }
  }

  lemma NoTickAbove(w: Wheels, i: nat, time: nat, j: nat)
    requires Midway(w, i, time) && !Wraps(w.ticks, i) && i < j < LEVELS
    ensures time % Res(j) != 0
  {
    ReachesMultiple(w.ticks, i);
    if time % Res(j) == 0 {
      CoarserDivides(j, i + 1, time);
    }
  }

  lemma {:induction false} WheelTickHolds(w: Wheels, i: nat, time: nat, r: Wheels, k: nat, slot: nat, after: nat,
                                         t: Timer)
    requires Midway(w, i, time) && r == WheelTick(w, i)
    requires slot < BUCKETS && i <= k == WheelOf(slot) && t in w.buckets[slot] && time < t.expiry
    requires after == if time % Res(k) == 0 && slot == Slot(k, time) then RescheduleSlot(time, t) else slot
    ensures t in r.buckets[after]
    decreases LEVELS - i
  {
    var due, done := DueSlot(w.ticks, i), BucketDone(w, i);
    DueSlotIsSlotOfTime(w.ticks, i);
    BucketHolds(w, i, time, due, done, slot, if slot == due then RescheduleSlot(time, t) else slot, t);
    if Wraps(w.ticks, i) {
      var upper := WheelTick(done, i + 1);
      MidwayStep(w, i, time);
      if i < WheelOf(slot) {
        WheelTickHolds(done, i + 1, time, upper, k, slot, after, t);
      } else {
        StaysBelow(w, i, time, slot, t);
        UpperTicksKeep(done, i + 1, time, upper, after, t);
      }
    } else if i < WheelOf(slot) {
      NoTickAbove(w, i, time, WheelOf(slot));
    }
  }

  /** What wheel i gives away it gives to a wheel that has ticked already. */
  lemma StaysBelow(w: Wheels, i: nat, time: nat, slot: nat, t: Timer)
    requires Midway(w, i, time) && slot < BUCKETS && WheelOf(slot) == i && t in w.buckets[slot] && time < t.expiry
    ensures WheelOf(SlotAfter(slot, time, t)) < i + 1
  {
    if slot == Slot(i, time) {
      if i < 7 {
        ReachedIsDue(time, slot, t);
      }
      DescendsTo(i, time, t.expiry - time);
    }
  }

  // ---- ticks and runs ----

  /** The timer is in the bucket that wheel i keeps for its expiry. */
  predicate HeldBy(w: Wheels, i: nat, t: Timer)
    requires Shaped(w) && i < LEVELS
  {
    t in w.buckets[Slot(i, t.expiry)]
  }

  lemma TurnIsReached(i: nat, expiry: nat, turn: nat)
    requires i < LEVELS && turn == Turn(i, expiry)
    ensures turn % Res(i) == 0 && Slot(i, turn) == Slot(i, expiry)
  {
    TurnIsMultiple(i, i, expiry);
    Arith.QuotientUnique(turn, expiry / Res(i), Res(i));
    SlotsEqualIff(i, turn, expiry);
  }

  lemma SlotAfterIsHeld(time: nat, i: nat, t: Timer, next: nat, slot: nat)
    requires i < LEVELS && slot == Slot(i, t.expiry) && PlacedAt(time, slot, t) && next == time + 1 < t.expiry
    ensures SlotAfter(slot, next, t) == Slot(HeldIn(t.expiry, i, next), t.expiry)
  {
    HeldNext(time, i, t);
    PlacedAfterTick(time, slot, t);
    if next == Turn(i, t.expiry) {
      TurnMoves(next, i, t, slot);
    } else if i < 7 {
      OffTurnStays(next, i, t, slot);
    } else if next % YEAR == 0 && slot == Slot(7, next) {
      PutBack(next, t);
    }
  }

  lemma TurnMoves(next: nat, i: nat, t: Timer, slot: nat)
    requires i < LEVELS && slot == Slot(i, t.expiry) && next == Turn(i, t.expiry) < t.expiry
    ensures SlotAfter(slot, next, t) == RescheduleSlot(next, t)
  {
    TurnIsReached(i, t.expiry, next);
  }

  lemma OffTurnStays(next: nat, i: nat, t: Timer, slot: nat)
    requires i < 7 && slot == Slot(i, t.expiry) && DueOrPlacedAt(next, slot, t)
    requires next < t.expiry && next != Turn(i, t.expiry)
    ensures SlotAfter(slot, next, t) == slot
  {
    SlotsEqualIff(i, next, t.expiry);
    OffTurn(next, t.expiry, Res(i), Size(i), next / Res(i), t.expiry / Res(i), Turn(i, t.expiry));
  }

  lemma OffTurn(next: nat, expiry: nat, r: nat, n: nat, p: nat, q: nat, turn: nat)
    requires 0 < r && 0 < n && p == next / r && q == expiry / r && turn == q * r
    requires next != turn && p <= q < p + n
    ensures next % r != 0 || p % n != q % n
  {
    if next % r == 0 && p % n == q % n {
      SameQuotient(next, expiry, r, n, p, q);
      assert false;
    }
  }

  /** Only in the top wheel can a timer be in the bucket of the present time before
      its turn; then it is more than a unit ahead and is put back. */
  lemma PutBack(time: nat, t: Timer)
    requires time < t.expiry && time % YEAR == 0 && time / YEAR < t.expiry / YEAR
    ensures RescheduleSlot(time, t) == Slot(7, t.expiry)
  {
    assert t.expiry - time >= YEAR;
  }

  lemma SameQuotient(time: nat, expiry: nat, r: nat, n: nat, p: nat, q: nat)
    requires 0 < r && 0 < n && time % r == 0 && p == time / r && q == expiry / r
    requires p <= q < p + n && p % n == q % n
    ensures time == q * r
  {
    Arith.SameResidue(p, q, n);
    Arith.QuotientTimes(time, r);
  }

  lemma TickMidway(w: Wheels, r: Wheels, time: nat)
    requires Sane(w) && Now(w) + 1 == time < HORIZON && r == Tick(w)
    ensures Midway(w, 0, time) && r == WheelTick(w, 0)
  {
    TickStaysAligned(w);
    BeforeTick(w, time);
  }

  lemma TickHolds(w: Wheels, r: Wheels, time: nat, i: nat, t: Timer, j: nat)
    requires Sane(w) && Now(w) + 1 == time < HORIZON && r == Tick(w)
    requires i < LEVELS && HeldBy(w, i, t) && time < t.expiry && j == HeldIn(t.expiry, i, time)
    ensures HeldBy(r, j, t)
  {
    TickKeeps(w, r, time, Slot(i, t.expiry), t);
    RestsThere(w, Slot(i, t.expiry), t);
    SlotAfterIsHeld(Now(w), i, t, time, Slot(i, t.expiry));
  }

  lemma RestsThere(w: Wheels, slot: nat, t: Timer)
    requires Settled(w) && slot < BUCKETS && t in w.buckets[slot]
    ensures PlacedAt(Now(w), slot, t)
  {
  }

  lemma TickKeeps(w: Wheels, r: Wheels, time: nat, slot: nat, t: Timer)
    requires Sane(w) && Now(w) + 1 == time < HORIZON && r == Tick(w)
    requires slot < BUCKETS && t in w.buckets[slot] && time < t.expiry
    ensures t in r.buckets[SlotAfter(slot, time, t)]
  {
    TickMidway(w, r, time);
    WheelTickHolds(w, 0, time, r, WheelOf(slot), slot, SlotAfter(slot, time, t), t);
  }

  lemma {:induction false} TicksHold(w: Wheels, count: nat, r: Wheels, time: nat, i: nat, t: Timer, j: nat)
    requires Sane(w) && Now(w) + count == time < HORIZON && r == Ticks(w, count)
    requires i < LEVELS && HeldBy(w, i, t) && time < t.expiry && j == HeldIn(t.expiry, i, time)
    ensures HeldBy(r, j, t)
    decreases count
  {
    if count == 0 {
      HeldStill(w, i, t, time, j);
    } else {
      var next, fewer := Tick(w), count - 1;
      var k := FirstTickHolds(w, next, Now(w) + 1, time, i, t, j);
      TicksUnfold(w, count, next, fewer, r);
      TicksHold(next, fewer, r, time, k, t, j);
    }
  }

  lemma HeldStill(w: Wheels, i: nat, t: Timer, time: nat, j: nat)
    requires Settled(w) && i < LEVELS && HeldBy(w, i, t) && time == Now(w) < t.expiry && j == HeldIn(t.expiry, i, time)
    ensures j == i
  {
    HeldNow(w, i, t);
  }

  lemma FirstTickHolds(w: Wheels, next: Wheels, soon: nat, time: nat, i: nat, t: Timer, j: nat) returns (k: nat)
    requires Sane(w) && Now(w) + 1 == soon <= time < HORIZON && next == Tick(w)
    requires i < LEVELS && HeldBy(w, i, t) && time < t.expiry && j == HeldIn(t.expiry, i, time)
    ensures Sane(next) && Now(next) == soon && k < LEVELS && HeldBy(next, k, t) && j == HeldIn(t.expiry, k, time)
  {
    k := HeldIn(t.expiry, i, soon);
    TickHolds(w, next, soon, i, t, k);
    OneTickLaw(w, next, 0);
    HeldCompose(t.expiry, i, soon, time);
  }

  /** Where a timer rests, it is held until the clock moves. */
  lemma HeldNow(w: Wheels, i: nat, t: Timer)
    requires Settled(w) && i < LEVELS && HeldBy(w, i, t)
    ensures Now(w) < t.expiry && HeldIn(t.expiry, i, Now(w)) == i
  {
    PlacedIsLater(Now(w), Slot(i, t.expiry), t);
    PlacedBeforeTurn(Now(w), i, t);
  }

  lemma AddHolds(w: Wheels, delay: nat, data: nat, r: Wheels, i: nat, t: Timer)
    requires Settled(w) && NoOverflow(w, delay) && r == RuntimeAdd(w, delay, data).0
    requires i < LEVELS && HeldBy(w, i, t)
    ensures HeldBy(r, i, t)
  {
    if delay > 0 {
      AddIsPush(w, delay, data);
    }
  }

  lemma RemoveHolds(w: Wheels, h: Handle, fires: bool, r: Wheels, i: nat, t: Timer)
    requires Settled(w) && r == RuntimeRemove(w, h, fires) && t.id != h.id
    requires i < LEVELS && HeldBy(w, i, t)
    ensures HeldBy(r, i, t)
  {
    if Hits(w, h) {
      HitHolds(w, h, fires, r, Slot(i, t.expiry), t);
    } else if Now(w) < h.expiry {
      MissLaw(w, h, fires);
    }
  }

  lemma HitHolds(w: Wheels, h: Handle, fires: bool, r: Wheels, place: nat, t: Timer)
    requires Settled(w) && r == RuntimeRemove(w, h, fires) && t.id != h.id && Hits(w, h)
    requires place < BUCKETS && t in w.buckets[place]
    ensures t in r.buckets[place]
  {
    var slot := LookupSlot(Now(w), h.expiry);
    var bucket := w.buckets[slot];
    var k := FirstIndex(bucket, h.id);
    HitIsWithout(w, h, fires);
    assert r.buckets == w.buckets[slot := Vec.Without(bucket, k)];
    if place == slot {
      OthersRemain(bucket, k, t);
    }
  }

  lemma OthersRemain(bucket: seq<Timer>, k: nat, t: Timer)
    requires k < |bucket| && bucket[k] != t && t in bucket
    ensures t in Vec.Without(bucket, k)
  {
    var j :| 0 <= j < |bucket| && bucket[j] == t;
    assert Vec.Without(bucket, k)[if j < k then j else j - 1] == t;
  }

  lemma StepHolds(w: Wheels, op: Op, r: Wheels, i: nat, t: Timer, j: nat)
    requires Sane(w) && Regular(w, op) && r == Step(w, op) && !Names(op, t.id)
    requires i < LEVELS && HeldBy(w, i, t) && Now(w) <= Now(r) < t.expiry && j == HeldIn(t.expiry, i, Now(r))
    ensures HeldBy(r, j, t)
  {
    HeldNow(w, i, t);
    match op
    case Add(delay, data) => AddHolds(w, delay, data, r, i, t);
    case Expire(count) => TicksHold(w, count, r, Now(r), i, t, j);
    case Abort(h) => RemoveHolds(w, h, false, r, i, t);
    case Fire(h) => RemoveHolds(w, h, true, r, i, t);
  }

  /** Over any regular run that does not name it, a timer that has not expired is
      in the wheel that the descent on paper says, whatever else happens. */
  lemma {:induction false} RunHolds(w: Wheels, ops: seq<Op>, r: Wheels, i: nat, t: Timer)
    requires Sane(w) && AllRegular(w, ops) && AllWithin(w, ops) && r == Run(w, ops)
    requires forall k :: 0 <= k < |ops| ==> !Names(ops[k], t.id)
    requires i < LEVELS && HeldBy(w, i, t) && Sane(r) && Now(r) < t.expiry
    ensures Now(w) <= Now(r) && HeldBy(r, HeldIn(t.expiry, i, Now(r)), t)
    decreases |ops|
  {
    if ops == [] {
      HeldNow(w, i, t);
    } else {
      var next := Step(w, ops[0]);
      StepOnTime(w, ops[0]);
      CallsInOrder(next, ops[1..]);
      var k := HeldIn(t.expiry, i, Now(next));
      StepHolds(w, ops[0], next, i, t, k);
      RunHolds(next, ops[1..], r, k, t);
      HeldCompose(t.expiry, i, Now(next), Now(r));
    }
  }

  /** Abort and early fire, by history: a timer added with some delay is found, at
      any later time before its expiry, exactly when the descent on paper has
      brought it to the finest wheel or leaves at least a unit of the wheel that it
      has brought it to. Until then it has been moved no more often than its first
      wheel is high. */
  lemma FoundLaterIff(w: Wheels, delay: nat, data: nat, added: Wheels, ops: seq<Op>, r: Wheels)
    requires Sane(w) && delay > 0 && NoOverflow(w, delay) && |Stored(w.buckets)| + 1 < WORD
    requires added == RuntimeAdd(w, delay, data).0 && AllRegular(added, ops) && AllWithin(added, ops)
    requires forall k :: 0 <= k < |ops| ==> !Names(ops[k], w.nextId)
    requires r == Run(added, ops) && Sane(r) && Now(r) < NewTimer(w, delay, data).expiry
    ensures var t := NewTimer(w, delay, data); var first := FindWheel(delay);
            var j := HeldIn(t.expiry, first, Now(r));
            && HeldBy(r, j, t)
            && (Hits(r, HandleOf(t)) <==> j == 0 || t.expiry - Now(r) >= Res(j))
            && Moves(t.expiry, first, Now(r)) + j <= first
  {
    var t, first := NewTimer(w, delay, data), FindWheel(delay);
    AddLaw(w, delay, data, 0);
    AddIsPush(w, delay, data);
    AddKeepsDistinct(w, added, t);
    RunHolds(added, ops, r, first, t);
    MovedAtMost(t.expiry, first, Now(r));
    LookupHitsIff(r, Slot(HeldIn(t.expiry, first, Now(r)), t.expiry), t);
  }
}
