/** Adding, aborting and firing early: what the runtime's entry points do to the
    stored timers, and exactly when their lookup succeeds. */
module WheelOps {
  import opened Options
  import opened Width
  import opened Wheel
  import opened WheelClock
  import opened WheelCascade
  import Arith
  import Vec

  // ---- adding ----

  /** The clock that an expiry is counted from: the time rounded down to the
      unit of the wheel chosen for the delay. */
  function Base(time: nat, delay: nat): nat {
    (time / Res(FindWheel(delay))) * Res(FindWheel(delay))
  }

  /** The 64-bit sum in taskio_wheel_timer_add does not wrap. */
  predicate NoOverflow(w: Wheels, delay: nat)
    requires Shaped(w)
  {
    Base(Now(w), delay) + delay < WORD
  }

  lemma BaseBounds(time: nat, delay: nat)
    ensures Base(time, delay) == time - time % Res(FindWheel(delay))
    ensures time - Res(FindWheel(delay)) < Base(time, delay) <= time
    ensures Base(time, delay) % Res(FindWheel(delay)) == 0
  {
    var r := Res(FindWheel(delay));
    Arith.QuotientUnique(Base(time, delay), time / r, r);
  }

  lemma PlacedFromBase(time: nat, delay: nat, t: Timer)
    requires delay > 0 && t.expiry == Base(time, delay) + delay
    ensures PlacedAt(time, Slot(FindWheel(delay), t.expiry), t)
  {
    var r := Res(FindWheel(delay));
    BaseBounds(time, delay);
    FreshPlacement(Base(time, delay), delay, t);
    Arith.QuotientUnique(Base(time, delay), time / r, r);
  }

  lemma PushKeepsResting(w: Wheels, slot: nat, t: Timer, time: nat)
    requires Shaped(w) && slot < BUCKETS && Resting(w, time) && PlacedAt(time, slot, t)
    ensures Resting(Push(w, slot, t), time)
  {
  }

  /** The timer that a successful add creates. */
  function NewTimer(w: Wheels, delay: nat, data: nat): Timer
    requires Shaped(w)
  {
    Timer(w.nextId, Base(Now(w), delay) + delay, data)
  }

  lemma AddIsPush(w: Wheels, delay: nat, data: nat)
    requires Shaped(w) && Aligned(w.ticks) && delay > 0 && NoOverflow(w, delay)
    ensures var t := NewTimer(w, delay, data); var i := FindWheel(delay);
            && WheelAdd(w, i, delay, data) ==
               (Push(w.(nextId := w.nextId + 1), Slot(i, t.expiry), t), Handle(t.id, t.expiry))
            && t.expiry > 0
  {
    var t, i := NewTimer(w, delay, data), FindWheel(delay);
    assert w.ticks[i] * Res(i) == Base(Now(w), delay);
    assert (Base(Now(w), delay) + delay) % WORD == t.expiry;
    FindBucketIsSlot(w.ticks, i, t.expiry);
  }

  /** One new timer is stored and nothing is called. */
  ghost predicate AddEffect(w: Wheels, r: Wheels, t: Timer) {
    && Settled(r) && r.ticks == w.ticks && r.calls == w.calls
    && t.id == w.nextId && r.nextId == w.nextId + 1
    && Stored(r.buckets) == Stored(w.buckets) + multiset{t}
  }

  lemma CountedUp(w: Wheels, v: Wheels, t: Timer, misses: nat)
    requires v.timerLen == w.timerLen && v.armed == w.armed && |Stored(w.buckets)| + 1 < WORD
    requires Stored(v.buckets) == Stored(w.buckets) + multiset{t}
    ensures Counts(w, 0, misses) ==> Counts(Increased(v), 0, misses)
  {
    CountOfMore(v, |Stored(w.buckets)| - misses, WORD > misses);
    assert |Stored(v.buckets)| == |Stored(w.buckets)| + 1;
  }

  /** An add with a positive delay stores exactly one new timer, whose expiry is
      the delay counted from the rounded-down clock. */
  lemma AddLaw(w: Wheels, delay: nat, data: nat, misses: nat)
    requires Settled(w) && delay > 0 && NoOverflow(w, delay) && |Stored(w.buckets)| + 1 < WORD
    ensures var (r, h) := RuntimeAdd(w, delay, data); var t := NewTimer(w, delay, data);
            && h == Handle(t.id, t.expiry) && HandleValid(h)
            && AddEffect(w, r, t)
            && (Counts(w, 0, misses) ==> Counts(r, 0, misses))
  {
    var t, i := NewTimer(w, delay, data), FindWheel(delay);
    var v := w.(nextId := w.nextId + 1);
    var pushed := Push(v, Slot(i, t.expiry), t);
    AddIsPush(w, delay, data);
    assert RuntimeAdd(w, delay, data) == (Increased(pushed), Handle(t.id, t.expiry));
    PlacedFromBase(Now(w), delay, t);
    PushKeepsResting(v, Slot(i, t.expiry), t, Now(w));
    PushLedger(v, Slot(i, t.expiry), t);
    CountedUp(w, pushed, t, misses);
  }

  /** A delay of zero calls the handler at once and creates no timer. */
  lemma AddNothing(w: Wheels, data: nat)
    requires Shaped(w)
    ensures RuntimeAdd(w, 0, data) == (w.(calls := w.calls + [Direct(Now(w), data)]), Handle(0, 0))
  {
  }

  function HandleOf(t: Timer): Handle {
    Handle(t.id, t.expiry)
  }

  /** When the 64-bit sum wraps, the new timer counts as expired: its handler
      runs at once and nothing is stored, yet the timer count grows, unless the
      handle is the invalid one by chance. */
  lemma AddOverflows(w: Wheels, delay: nat, data: nat)
    requires Settled(w) && 0 < delay < WORD && !NoOverflow(w, delay) && Now(w) < HORIZON
    ensures var (r, h) := RuntimeAdd(w, delay, data);
            var t := Timer(w.nextId, Base(Now(w), delay) + delay - WORD, data);
            && h == HandleOf(t) && r.nextId == w.nextId + 1
            && r.buckets == w.buckets && r.calls == w.calls + [Handled(Now(w), t)]
            && r.timerLen == (if HandleValid(h) then (w.timerLen + 1) % WORD else w.timerLen)
            && (r.armed <==> w.armed || (HandleValid(h) && w.timerLen == 0))
            && (w.nextId > 0 ==> HandleValid(h))
  {
    var i := FindWheel(delay);
    var base := Base(Now(w), delay);
    BaseBounds(Now(w), delay);
    assert w.ticks[i] * Res(i) == base;
    assert (base + delay) % WORD == base + delay - WORD;
  }

  /** Adding an existing timer outside of a cascade: an expired one is called at once
      and neither stored nor counted; any other is stored under its own expiry. */
  lemma AddExisting(w: Wheels, t: Timer, r: Wheels, misses: nat)
    requires Settled(w) && |Stored(w.buckets)| + 1 < WORD && r == RuntimeAddFrom(w, t, false)
    ensures r.ticks == w.ticks && r.nextId == w.nextId
    ensures t.expiry <= Now(w) ==>
              && r.buckets == w.buckets && r.calls == w.calls + [Handled(Now(w), t)]
              && r.timerLen == w.timerLen && r.armed == w.armed
    ensures Now(w) < t.expiry ==>
              && Stored(r.buckets) == Stored(w.buckets) + multiset{t} && r.calls == w.calls
              && (Counts(w, 0, misses) ==> Counts(r, 0, misses))
  {
    if Now(w) < t.expiry {
      var slot := Slot(FindWheel(t.expiry - Now(w)), t.expiry);
      ExistingIsPush(w, t, r);
      PushCounts(w, slot, t, r, misses);
    } else {
      ExistingIsCalled(w, t, r);
    }
  }

  lemma ExistingIsCalled(w: Wheels, t: Timer, r: Wheels)
    requires Shaped(w) && t.expiry <= Now(w) && r == RuntimeAddFrom(w, t, false)
    ensures r == w.(calls := w.calls + [Handled(Now(w), t)])
  {
  }

  lemma PushCounts(w: Wheels, slot: nat, t: Timer, r: Wheels, misses: nat)
    requires Shaped(w) && slot < BUCKETS && r == Push(Increased(w), slot, t) && |Stored(w.buckets)| + 1 < WORD
    ensures Stored(r.buckets) == Stored(w.buckets) + multiset{t} && r.calls == w.calls && r.nextId == w.nextId
    ensures Counts(w, 0, misses) ==> Counts(r, 0, misses)
  {
    PushLedger(Increased(w), slot, t);
    CountOfMore(w, |Stored(w.buckets)| - misses, WORD > misses);
  }

  lemma ExistingIsPush(w: Wheels, t: Timer, r: Wheels)
    requires Settled(w) && Now(w) < t.expiry && r == RuntimeAddFrom(w, t, false)
    ensures r == Push(Increased(w), Slot(FindWheel(t.expiry - Now(w)), t.expiry), t)
  {
    var i, u := FindWheel(t.expiry - Now(w)), Increased(w);
    BucketAtRest(u.ticks, i, t.expiry);
    ExistingIsAdd(w, t, r, u, i);
    AddIntoBucket(u, i, t, Slot(i, t.expiry));
  }

  lemma ExistingIsAdd(w: Wheels, t: Timer, r: Wheels, u: Wheels, i: nat)
    requires Shaped(w) && Now(w) < t.expiry && r == RuntimeAddFrom(w, t, false)
    requires u == Increased(w) && i == FindWheel(t.expiry - Now(w))
    ensures r == AddFrom(u, i, t)
  {
    var time := w.ticks[0] * Res(0) + 0;
    assert time == Now(w);
    assert r == AddFrom(Increased(w), FindWheel(t.expiry - time), t);
  }

  lemma AddIntoBucket(u: Wheels, i: nat, t: Timer, slot: nat)
    requires Shaped(u) && i < LEVELS && FindBucket(u.ticks, i, t.expiry) == Some(slot)
    ensures AddFrom(u, i, t) == Push(u, slot, t)
  {
  }

  lemma BucketAtRest(ticks: seq<nat>, i: nat, expiry: nat)
    requires Aligned(ticks) && i < LEVELS && ticks[0] < expiry
    ensures FindBucket(ticks, i, expiry) == Some(Slot(i, expiry))
  {
    Arith.QuotientTimes(ticks[0], Res(i));
    FindBucketIsSlot(ticks, i, expiry);
  }

  /** It rests there as a new timer does exactly if its bucket is not the one that its
      wheel has reached, which comes round again only after a whole turn. */
  lemma ExistingRestsIff(w: Wheels, t: Timer, r: Wheels)
    requires Settled(w) && Now(w) < t.expiry && r == RuntimeAddFrom(w, t, false)
    ensures var i := FindWheel(t.expiry - Now(w));
            Settled(r) <==> i == 7 || Slot(i, t.expiry) != Slot(i, Now(w))
  {
    var i := FindWheel(t.expiry - Now(w));
    ExistingIsPush(w, t, r);
    PlacedUnlessTurned(Now(w), i, t);
    PushSettledIff(Increased(w), Slot(i, t.expiry), t, r);
  }

  lemma PushSettledIff(w: Wheels, slot: nat, t: Timer, r: Wheels)
    requires Settled(w) && slot < BUCKETS && r == Push(w, slot, t)
    ensures Settled(r) <==> PlacedAt(Now(w), slot, t)
  {
    assert t in r.buckets[slot];
  }

  lemma PlacedUnlessTurned(time: nat, i: nat, t: Timer)
    requires time < t.expiry && i == FindWheel(t.expiry - time)
    ensures PlacedAt(time, Slot(i, t.expiry), t) <==> i == 7 || Slot(i, t.expiry) != Slot(i, time)
  {
    UnitsAhead(time, t.expiry, i);
    if i < 7 {
      Arith.TurnSameResidue(time / Res(i), t.expiry / Res(i), Size(i));
      SlotsEqualIff(i, time, t.expiry);
    }
  }

  /** The bucket of an expiry is at least one unit and at most a whole turn ahead. */
  lemma UnitsAhead(time: nat, expiry: nat, i: nat)
    requires time < expiry && i == FindWheel(expiry - time)
    ensures time / Res(i) < expiry / Res(i)
    ensures i < 7 ==> expiry / Res(i) <= time / Res(i) + Size(i)
  {
    FindWheelFits(expiry - time);
    Arith.QuotientAbove(time, expiry, Res(i));
    if i < 7 {
      Arith.QuotientsApart(time, expiry, Size(i), Res(i));
    }
  }

  /** A timer fires exactly delay - (time mod unit) ticks after it was added:
      never late, and never early by a whole unit of its wheel. */
  lemma DelayBound(w: Wheels, delay: nat, data: nat)
    requires Shaped(w) && delay > 0
    ensures var wait := NewTimer(w, delay, data).expiry - Now(w); var unit := Res(FindWheel(delay));
            && wait == delay - Now(w) % unit
            && 1 <= wait && delay - unit + 1 <= wait <= delay
  {
  }

  // ---- removal from one bucket ----

  lemma WithoutAt(s: seq<Timer>, k: nat)
    requires k < |s|
    ensures Vec.Without(s, k) == if k == 0 then s[1..] else [s[0]] + Vec.Without(s[1..], k - 1)
  {
  }

  /** Removal takes out the first timer with the id and keeps the order. */
  lemma {:induction false} RemovedIsWithout(bucket: seq<Timer>, id: nat, asked: nat)
    ensures var k := FirstIndex(bucket, id);
            Vec.Removed(bucket, SameId(id), asked) ==
            if k < |bucket| then Vec.Without(bucket, k) else bucket
    decreases |bucket|
  {
    if bucket != [] {
      var k := FirstIndex(bucket, id);
      if k < |bucket| {
        WithoutAt(bucket, k);
      }
      if bucket[0].id != id {
        RemovedIsWithout(bucket[1..], id, asked + 1);
        assert [bucket[0]] + bucket[1..] == bucket;
      }
    }
  }

  lemma WithoutMultiset(bucket: seq<Timer>, k: nat)
    requires k < |bucket|
    ensures multiset(bucket) == multiset(Vec.Without(bucket, k)) + multiset{bucket[k]}
  {
    assert bucket == bucket[..k] + ([bucket[k]] + bucket[k + 1..]);
  }

  // ---- abort and early fire ----

  /** The bucket that the runtime's abort and fire look into: the wheel is chosen
      from the time that remains. */
  function LookupSlot(time: nat, expiry: nat): (slot: nat)
    requires time < expiry
    ensures slot < BUCKETS
  {
    Slot(FindWheel(expiry - time), expiry)
  }

  predicate Hits(w: Wheels, h: Handle)
    requires Shaped(w)
  {
    Now(w) < h.expiry && FirstWith(w.buckets[LookupSlot(Now(w), h.expiry)], h.id).Some?
  }

  lemma LookupIsSlot(w: Wheels, h: Handle)
    requires Shaped(w) && Aligned(w.ticks) && Now(w) < h.expiry
    ensures FindBucket(w.ticks, FindWheel(h.expiry - Now(w)), h.expiry) == Some(LookupSlot(Now(w), h.expiry))
  {
    BucketAtRest(w.ticks, FindWheel(h.expiry - Now(w)), h.expiry);
  }

  /** No two stored timers, equal or not, carry the same id. */
  ghost predicate Distinct(w: Wheels) {
    forall t :: t in Stored(w.buckets) ==>
      && t.id < w.nextId && Stored(w.buckets)[t] == 1
      && forall u :: u in Stored(w.buckets) && u.id == t.id ==> u == t
  }

  /** A timer held in wheel i is found by its handle exactly when i is the finest
      wheel or at least one unit of wheel i remains. */
  lemma LookupHitsIff(w: Wheels, slot: nat, t: Timer)
    requires Settled(w) && Distinct(w) && slot < BUCKETS && t in w.buckets[slot]
    ensures Hits(w, HandleOf(t)) <==>
            WheelOf(slot) == 0 || t.expiry - Now(w) >= Res(WheelOf(slot))
    ensures Hits(w, HandleOf(t)) ==>
            LookupSlot(Now(w), t.expiry) == slot && FirstWith(w.buckets[slot], t.id) == Some(t)
  {
    var i := WheelOf(slot);
    var remaining := t.expiry - Now(w);
    PlacedIsLater(Now(w), slot, t);
    StoredMember(w.buckets, t);
    PlacedWithinRevolution(Now(w), slot, t);
    FindWheelUnique(remaining, i);
    var looked := LookupSlot(Now(w), t.expiry);
    var found := FirstWith(w.buckets[looked], t.id);
    if found.Some? {
      StoredMember(w.buckets, found.value);
      assert found.value == t;
      if looked != slot {
        HeldOnce(w.buckets, slot, looked, t);
      }
    }
  }

  lemma PlacedWithinRevolution(time: nat, slot: nat, t: Timer)
    requires slot < BUCKETS && PlacedAt(time, slot, t)
    ensures WheelOf(slot) < 7 ==> t.expiry - time < Res(WheelOf(slot)) * Size(WheelOf(slot))
  {
    var i := WheelOf(slot);
    if i < 7 {
      Arith.QuotientsClose(time, t.expiry, Size(i), Res(i));
    }
  }

  /** A timer in two buckets is stored at least twice. */
  lemma {:induction false} HeldOnce(buckets: seq<seq<Timer>>, a: nat, b: nat, t: Timer)
    requires a < |buckets| && b < |buckets| && a != b && t in buckets[a] && t in buckets[b]
    ensures Stored(buckets)[t] >= 2
  {
    if a == 0 {
      assert buckets[1..][b - 1] == buckets[b];
      StoredMember(buckets[1..], t);
    } else if b == 0 {
      assert buckets[1..][a - 1] == buckets[a];
      StoredMember(buckets[1..], t);
    } else {
      HeldOnce(buckets[1..], a - 1, b - 1, t);
    }
  }

  lemma UpdateKeepsResting(w: Wheels, slot: nat, k: nat, time: nat)
    requires Shaped(w) && slot < BUCKETS && k < |w.buckets[slot]| && Resting(w, time)
    ensures Resting(w.(buckets := w.buckets[slot := Vec.Without(w.buckets[slot], k)]), time)
  {
  }

  /** The timer that a hit takes out. */
  function HitTimer(w: Wheels, h: Handle): Timer
    requires Shaped(w) && Hits(w, h)
  {
    FirstWith(w.buckets[LookupSlot(Now(w), h.expiry)], h.id).value
  }

  lemma HitIsWithout(w: Wheels, h: Handle, fires: bool)
    requires Shaped(w) && Aligned(w.ticks) && Hits(w, h)
    ensures var slot := LookupSlot(Now(w), h.expiry); var bucket := w.buckets[slot];
            && var k := FirstIndex(bucket, h.id);
            && bucket[k] == HitTimer(w, h)
            && RuntimeRemove(w, h, fires) == Decreased(w.(
                 buckets := w.buckets[slot := Vec.Without(bucket, k)],
                 calls := if fires then w.calls + [Handled(Now(w), HitTimer(w, h))] else w.calls))
  {
    LookupIsSlot(w, h);
    RemovedIsWithout(w.buckets[LookupSlot(Now(w), h.expiry)], h.id, 0);
  }

  /** One stored timer goes, and its handler is called exactly for a fire. */
  ghost predicate HitEffect(w: Wheels, r: Wheels, t: Timer, fires: bool) {
    && t in Stored(w.buckets)
    && Settled(r) && r.ticks == w.ticks && r.nextId == w.nextId
    && Stored(r.buckets) + multiset{t} == Stored(w.buckets)
    && r.calls == (if fires then w.calls + [Handled(r.ticks[0], t)] else w.calls)
  }

  /** A hit takes exactly the timer with the given id. */
  lemma HitLaw(w: Wheels, h: Handle, fires: bool, misses: nat)
    requires Settled(w) && Hits(w, h)
    ensures var r := RuntimeRemove(w, h, fires); var t := HitTimer(w, h);
            && t.id == h.id && HitEffect(w, r, t, fires)
            && (Counts(w, 0, misses) ==> Counts(r, 0, misses))
  {
    var slot := LookupSlot(Now(w), h.expiry);
    var bucket, t := w.buckets[slot], HitTimer(w, h);
    var k := FirstIndex(bucket, h.id);
    var shorter := Vec.Without(bucket, k);
    HitIsWithout(w, h, fires);
    UpdateKeepsResting(w, slot, k, Now(w));
    WithoutMultiset(bucket, k);
    StoredUpdate(w.buckets, slot, shorter);
    Cancel(Stored(w.buckets[slot := shorter]) + multiset{t}, Stored(w.buckets), multiset(shorter));
    StoredMember(w.buckets, t);
    assert |Stored(w.buckets[slot := shorter])| + 1 == |Stored(w.buckets)|;
    CountedDown(w, RuntimeRemove(w, h, fires), 0, 0, misses, misses);
  }

  lemma MissChangesNoBucket(w: Wheels, h: Handle, fires: bool)
    requires Shaped(w) && Aligned(w.ticks) && Now(w) < h.expiry && !Hits(w, h)
    ensures WheelRemove(w, FindWheel(h.expiry - Now(w)), h, fires) == w
  {
    var slot := LookupSlot(Now(w), h.expiry);
    LookupIsSlot(w, h);
    RemovedIsWithout(w.buckets[slot], h.id, 0);
    assert w.buckets[slot := w.buckets[slot]] == w.buckets;
  }

  /** A miss changes no bucket, yet the count goes down. */
  lemma MissLaw(w: Wheels, h: Handle, fires: bool)
    requires Shaped(w) && Aligned(w.ticks) && Now(w) < h.expiry && !Hits(w, h)
    ensures RuntimeRemove(w, h, fires) == Decreased(w)
  {
    MissChangesNoBucket(w, h, fires);
  }

  /** How often an abort or fire misses: once if the handle has not expired and
      the lookup fails. */
  function Missed(w: Wheels, h: Handle): nat
    requires Shaped(w)
  {
    if Now(w) < h.expiry && !Hits(w, h) then 1 else 0
  }

  /** An abort or fire keeps the count up to the misses. */
  lemma RemoveCounts(w: Wheels, h: Handle, fires: bool, r: Wheels, misses: nat, total: nat)
    requires Settled(w) && Counts(w, 0, misses)
    requires r == RuntimeRemove(w, h, fires) && total == misses + Missed(w, h)
    ensures Counts(r, 0, total)
  {
    if Now(w) < h.expiry {
      if Hits(w, h) {
        HitLaw(w, h, fires, misses);
      } else {
        MissLaw(w, h, fires);
        CountedDown(w, r, 0, 0, misses, total);
      }
    }
  }

  /** An abort or fire leaves the timer count as correct as it was exactly when the
      handle has expired or the lookup hits. */
  lemma RemoveCountsIff(w: Wheels, h: Handle, fires: bool, misses: nat)
    requires Settled(w) && Counts(w, 0, misses)
    ensures Counts(RuntimeRemove(w, h, fires), 0, misses) <==> h.expiry <= Now(w) || Hits(w, h)
  {
    RemoveCounts(w, h, fires, RuntimeRemove(w, h, fires), misses, misses + Missed(w, h));
    if Missed(w, h) == 1 {
      MissLaw(w, h, fires);
      assert RuntimeRemove(w, h, fires).timerLen != w.timerLen;
    }
  }

  /** Aborting a timer right after adding it works exactly for short delays and
      for those of which, after rounding the clock down, a whole unit is left. */
  lemma AbortAfterAddIff(w: Wheels, delay: nat, data: nat)
    requires Settled(w) && Distinct(w) && delay > 0 && NoOverflow(w, delay) && |Stored(w.buckets)| + 1 < WORD
    ensures var (r, h) := RuntimeAdd(w, delay, data); var unit := Res(FindWheel(delay));
            Hits(r, h) <==> delay < 10 || delay - Now(w) % unit >= unit
  {
    var (r, h) := RuntimeAdd(w, delay, data);
    var t := NewTimer(w, delay, data);
    var slot := Slot(FindWheel(delay), t.expiry);
    AddLaw(w, delay, data, 0);
    AddIsPush(w, delay, data);
    AddKeepsDistinct(w, r, t);
    DelayBound(w, delay, data);
    assert t in r.buckets[slot];
    LookupHitsIff(r, slot, t);
    FindWheelUnique(delay, 0);
  }

  lemma AddKeepsDistinct(w: Wheels, r: Wheels, t: Timer)
    requires Distinct(w) && AddEffect(w, r, t)
    ensures Distinct(r)
  {
  }

  lemma FewerStayDistinct(w: Wheels, r: Wheels)
    requires Distinct(w) && w.nextId <= r.nextId
    requires forall t :: Stored(r.buckets)[t] <= Stored(w.buckets)[t]
    ensures Distinct(r)
  {
  }

  lemma HitKeepsDistinct(w: Wheels, r: Wheels, hit: Timer, fires: bool)
    requires Distinct(w) && HitEffect(w, r, hit, fires)
    ensures Distinct(r)
  {
  }
}
