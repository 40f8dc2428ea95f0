/** One tick of the whole hierarchy, with its cascade: which handlers run, where
    the other timers go, and what is conserved. */
module WheelCascade {
  import opened Options
  import opened Width
  import opened Wheel
  import opened WheelClock
  import Arith

  /** All timers in all buckets, with multiplicity. */
  function Stored(buckets: seq<seq<Timer>>): multiset<Timer> {
    if buckets == [] then multiset{} else multiset(buckets[0]) + Stored(buckets[1..])
  }

  /** All timers whose handler has been called, with multiplicity. */
  function Called(calls: seq<Call>): multiset<Timer> {
    if calls == [] then multiset{}
    else Called(calls[..|calls| - 1]) + CalledBy(calls[|calls| - 1])
  }

  function CalledBy(call: Call): multiset<Timer> {
    match call
    case Direct(_, _) => multiset{}
    case Handled(_, t) => multiset{t}
  }

  /** Every timer the structure ever accepted and did not give up. */
  function Ledger(w: Wheels): multiset<Timer> {
    Stored(w.buckets) + Called(w.calls)
  }

  lemma {:induction false} StoredUpdate(buckets: seq<seq<Timer>>, slot: nat, bucket: seq<Timer>)
    requires slot < |buckets|
    ensures Stored(buckets[slot := bucket]) + multiset(buckets[slot]) == Stored(buckets) + multiset(bucket)
  {
    if slot == 0 {
      assert buckets[0 := bucket][1..] == buckets[1..];
    } else {
      var tail := buckets[1..];
      assert buckets[slot := bucket][1..] == tail[slot - 1 := bucket];
      StoredUpdate(tail, slot - 1, bucket);
      assert Stored(buckets[slot := bucket]) + multiset(buckets[slot])
          == multiset(buckets[0]) + (Stored(tail[slot - 1 := bucket]) + multiset(tail[slot - 1]));
    }
  }

  lemma {:induction false} StoredMember(buckets: seq<seq<Timer>>, t: Timer)
    ensures t in Stored(buckets) <==> exists slot :: 0 <= slot < |buckets| && t in buckets[slot]
  {
    if buckets != [] {
      StoredMember(buckets[1..], t);
      forall slot | 0 <= slot < |buckets| && t in buckets[slot]
        ensures t in Stored(buckets)
      {
        if slot > 0 {
          assert t in buckets[1..][slot - 1];
        }
      }
      if t in Stored(buckets) && t !in buckets[0] {
        var slot :| 0 <= slot < |buckets[1..]| && t in buckets[1..][slot];
        assert t in buckets[slot + 1];
      }
    }
  }

  lemma CalledAppend(calls: seq<Call>, call: Call)
    ensures Called(calls + [call]) == Called(calls) + CalledBy(call)
  {
  }

  lemma Cancel(a: multiset<Timer>, b: multiset<Timer>, c: multiset<Timer>)
    requires a + c == b + c
    ensures a == b
  {
    assert forall t :: a[t] + c[t] == (a + c)[t] && b[t] + c[t] == (b + c)[t];
  }

  lemma PushLedger(w: Wheels, slot: nat, t: Timer)
    requires Shaped(w) && slot < BUCKETS
    ensures Stored(Push(w, slot, t).buckets) == Stored(w.buckets) + multiset{t}
  {
    var bucket := w.buckets[slot];
    StoredUpdate(w.buckets, slot, bucket + [t]);
    assert multiset(bucket + [t]) == multiset(bucket) + multiset{t};
    Cancel(Stored(Push(w, slot, t).buckets), Stored(w.buckets) + multiset{t}, multiset(bucket));
  }

  // ---- invariants ----

  /** Every timer rests where its expiry says. */
  ghost predicate Resting(w: Wheels, time: nat)
    requires Shaped(w)
  {
    forall slot, t :: 0 <= slot < BUCKETS && t in w.buckets[slot] ==> PlacedAt(time, slot, t)
  }

  /** In the middle of a cascade towards the given time: wheels below level have
      been brought to the new time, and so have all wheels that do not tick. */
  ghost predicate Cascading(w: Wheels, time: nat, level: nat)
    requires Shaped(w)
  {
    forall slot, t :: 0 <= slot < BUCKETS && t in w.buckets[slot] ==>
      if WheelOf(slot) < level || time % Res(WheelOf(slot)) != 0 then PlacedAt(time, slot, t)
      else DueOrPlacedAt(time, slot, t)
  }

  /** The invariant between operations: clocks agree and timers rest. */
  ghost predicate Settled(w: Wheels) {
    Shaped(w) && Aligned(w.ticks) && Resting(w, w.ticks[0])
  }

  /** The calls made on the way from w to r, all at the given time, were for
      timers that expire exactly then. */
  ghost predicate CallsOnTime(before: seq<Call>, after: seq<Call>, time: nat) {
    && before <= after
    && forall k :: |before| <= k < |after| ==>
         after[k].Handled? && after[k].at == time && after[k].timer.expiry == time
  }

  /** The size_t count for a true sum, which removals that missed can push below
      zero. The timerfd is armed exactly while the sum is positive, unless there
      were so many misses that the count came round again. */
  predicate CountOf(timerLen: nat, armed: bool, sum: int, few: bool) {
    sum < WORD && timerLen == sum % WORD && (few ==> sum + WORD > 0 && (armed <==> sum > 0))
  }

  lemma CountOfLess(w: Wheels, sum: int, few: bool)
    requires few ==> sum - 1 + WORD > 0
    ensures CountOf(w.timerLen, w.armed, sum, few) ==>
              CountOf(Decreased(w).timerLen, Decreased(w).armed, sum - 1, few)
  {
  }

  lemma CountOfMore(w: Wheels, sum: int, few: bool)
    requires sum + 1 < WORD
    ensures CountOf(w.timerLen, w.armed, sum, few) ==>
              CountOf(Increased(w).timerLen, Increased(w).armed, sum + 1, few)
  {
  }

  /** The count is the number of stored timers and of those in hand, less the
      removals that missed so far. */
  ghost predicate Counts(w: Wheels, inHand: nat, misses: nat) {
    CountOf(w.timerLen, w.armed, |Stored(w.buckets)| + inHand - misses, misses < WORD)
  }

  /** Without a miss the count is the number of stored timers. */
  lemma CountsExactly(w: Wheels)
    ensures Counts(w, 0, 0) <==>
            w.timerLen == |Stored(w.buckets)| < WORD && (w.armed <==> w.timerLen > 0)
  {
  }

  lemma CountedDown(w: Wheels, r: Wheels, before: nat, after: nat, misses: nat, missesAfter: nat)
    requires r.timerLen == Decreased(w).timerLen && r.armed == Decreased(w).armed
    requires |Stored(r.buckets)| + after - missesAfter == |Stored(w.buckets)| + before - misses - 1
    requires misses <= missesAfter
    ensures Counts(w, before, misses) ==> Counts(r, after, missesAfter)
  {
    CountOfLess(w, |Stored(w.buckets)| + before - misses, missesAfter < WORD);
  }

  // ---- one timer ----

  lemma DescendsTo(i: nat, time: nat, delay: nat)
    requires i < LEVELS && time % Res(i) == 0 && (i < 7 ==> delay < Res(i))
    ensures var j := FindWheel(delay); (if i < 7 && i > 0 then j < i else j <= i) && time % Res(j) == 0
  {
    FindWheelFits(delay);
    CoarserDivides(i, FindWheel(delay), time);
  }

  /** The clock of a ticking wheel is one behind, yet its bucket is right. */
  lemma BucketWhileTicking(ticks: seq<nat>, j: nat, expiry: nat)
    requires Aligned(ticks) && j < LEVELS
    requires (ticks[0] + 1) % Res(j) == 0 && ticks[0] + 1 < expiry
    ensures FindBucket(ticks, j, expiry) == Some(Slot(j, expiry))
  {
    ReachesMultiple(ticks, j);
    FindBucketIsSlot(ticks, j, expiry);
    Arith.MultiplesApart(ticks[j], ticks[j] + 1, Res(j));
  }

  lemma DueSlotIsSlotOfTime(ticks: seq<nat>, j: nat)
    requires Aligned(ticks) && j < LEVELS && (ticks[0] + 1) % Res(j) == 0
    ensures DueSlot(ticks, j) == Slot(j, ticks[0] + 1)
  {
    ReachesMultiple(ticks, j);
  }

  /** A placed timer is not in the bucket of the present time. */
  lemma PlacedAvoidsPresent(time: nat, j: nat, t: Timer)
    requires j < 7 && PlacedAt(time, Slot(j, t.expiry), t)
    ensures Slot(j, t.expiry) != Slot(j, time)
  {
    if Slot(j, t.expiry) == Slot(j, time) {
      Arith.SameResidue(time / Res(j), t.expiry / Res(j), Size(j));
    }
  }

  /** A timer in hand that is not due goes to a strictly lower wheel (from the
      top wheel possibly to the top wheel again), into a bucket that this cascade
      has not passed, where it rests relative to the new time. */
  lemma RescheduleDescends(w: Wheels, i: nat, t: Timer)
    requires Shaped(w) && Aligned(w.ticks) && i < LEVELS
    requires (w.ticks[0] + 1) % Res(i) == 0 && w.ticks[0] + 1 < t.expiry
    requires i < 7 ==> t.expiry < w.ticks[0] + 1 + Res(i)
    ensures var time := w.ticks[0] + 1; var j := FindWheel(t.expiry - time);
            && RuntimeAddFrom(w, t, true) == Push(w, Slot(j, t.expiry), t)
            && PlacedAt(time, Slot(j, t.expiry), t)
            && (if i < 7 then j < i else j <= 7)
            && (j < 7 ==> Slot(j, t.expiry) != DueSlot(w.ticks, j))
  {
    var time := w.ticks[0] + 1;
    var j := FindWheel(t.expiry - time);
    DescendsTo(i, time, t.expiry - time);
    BucketWhileTicking(w.ticks, j, t.expiry);
    FreshPlacement(time, t.expiry - time, t);
    DueSlotIsSlotOfTime(w.ticks, j);
    if j < 7 {
      PlacedAvoidsPresent(time, j, t);
    }
  }

  lemma PushKeepsCascading(w: Wheels, slot: nat, t: Timer, time: nat, level: nat)
    requires Shaped(w) && slot < BUCKETS && Cascading(w, time, level) && PlacedAt(time, slot, t)
    ensures Cascading(Push(w, slot, t), time, level)
  {
  }

  /** The record after the handler of a timer in hand was called. */
  function Expired(w: Wheels, t: Timer): Wheels {
    Decreased(w.(calls := w.calls + [Handled(t.expiry, t)]))
  }

  lemma TickOneIsExpired(w: Wheels, i: nat, t: Timer)
    requires Shaped(w) && InStep(w.ticks, i) && t.expiry == w.ticks[0] + 1
    ensures TickOne(w, i, t) == Expired(w, t)
  {
    assert (w.ticks[i] + 1) * Res(i) == t.expiry;
  }

  predicate DueWithin(i: nat, time: nat, t: Timer)
    requires i < LEVELS
  {
    time <= t.expiry && (i < 7 ==> t.expiry < time + Res(i))
  }

  /** What becomes of timers taken in hand at the given time: each is either
      called, expiring exactly then, or stored. What else the count is off by stays. */
  ghost predicate Dealt(w: Wheels, r: Wheels, time: nat, timers: seq<Timer>, left: nat, misses: nat) {
    && r.nextId == w.nextId
    && Ledger(r) == Ledger(w) + multiset(timers)
    && CallsOnTime(w.calls, r.calls, time)
    && (Counts(w, |timers| + left, misses) ==> Counts(r, left, misses))
  }

  lemma DealtChain(w: Wheels, m: Wheels, r: Wheels, time: nat, t: Timer, rest: seq<Timer>, left: nat, misses: nat)
    requires Dealt(w, m, time, [t], |rest| + left, misses)
    requires Dealt(m, r, time, rest, left, misses)
    ensures Dealt(w, r, time, [t] + rest, left, misses)
  {
    assert multiset([t] + rest) == multiset([t]) + multiset(rest);
  }

  function RescheduleSlot(time: nat, t: Timer): (slot: nat)
    requires time < t.expiry
    ensures slot < BUCKETS
  {
    Slot(FindWheel(t.expiry - time), t.expiry)
  }

  lemma TickOneIsPush(w: Wheels, i: nat, t: Timer)
    requires Shaped(w) && Aligned(w.ticks) && InStep(w.ticks, i)
    requires (w.ticks[0] + 1) % Res(i) == 0
    requires w.ticks[0] + 1 < t.expiry && DueWithin(i, w.ticks[0] + 1, t)
    ensures TickOne(w, i, t) == Push(w, RescheduleSlot(w.ticks[0] + 1, t), t)
    ensures PlacedAt(w.ticks[0] + 1, RescheduleSlot(w.ticks[0] + 1, t), t)
  {
    RescheduleDescends(w, i, t);
  }

  lemma PushDeals(w: Wheels, slot: nat, t: Timer, time: nat, left: nat, misses: nat)
    requires Shaped(w) && slot < BUCKETS
    ensures Dealt(w, Push(w, slot, t), time, [t], left, misses)
  {
    PushLedger(w, slot, t);
  }

  lemma ExpiredDeals(w: Wheels, t: Timer, left: nat, misses: nat)
    ensures Dealt(w, Expired(w, t), t.expiry, [t], left, misses)
  {
    CalledAppend(w.calls, Handled(t.expiry, t));
    CountedDown(w, Expired(w, t), 1 + left, left, misses, misses);
  }

  lemma ExpiredKeepsCascading(w: Wheels, t: Timer, time: nat, level: nat)
    requires Shaped(w) && Cascading(w, time, level)
    ensures Cascading(Expired(w, t), time, level)
  {
  }

  lemma TickOneLaw(w: Wheels, i: nat, t: Timer, left: nat, misses: nat)
    requires Shaped(w) && Aligned(w.ticks) && InStep(w.ticks, i)
    requires (w.ticks[0] + 1) % Res(i) == 0
    requires DueWithin(i, w.ticks[0] + 1, t) && Cascading(w, w.ticks[0] + 1, i + 1)
    ensures Cascading(TickOne(w, i, t), w.ticks[0] + 1, i + 1)
    ensures Dealt(w, TickOne(w, i, t), w.ticks[0] + 1, [t], left, misses)
  {
    var time, r := w.ticks[0] + 1, TickOne(w, i, t);
    if t.expiry == time {
      TickOneIsExpired(w, i, t);
      ExpiredOneLaw(w, t, time, i + 1, left, misses, r);
    } else {
      TickOneIsPush(w, i, t);
      PushOneLaw(w, RescheduleSlot(time, t), t, time, i + 1, left, misses, r);
    }
  }

  lemma ExpiredOneLaw(w: Wheels, t: Timer, time: nat, level: nat, left: nat, misses: nat, r: Wheels)
    requires Shaped(w) && Cascading(w, time, level) && t.expiry == time && r == Expired(w, t)
    ensures Shaped(r) && Cascading(r, time, level) && Dealt(w, r, time, [t], left, misses)
  {
    ExpiredDeals(w, t, left, misses);
    ExpiredKeepsCascading(w, t, time, level);
  }

  lemma PushOneLaw(w: Wheels, slot: nat, t: Timer, time: nat, level: nat, left: nat, misses: nat, r: Wheels)
    requires Shaped(w) && slot < BUCKETS && Cascading(w, time, level) && PlacedAt(time, slot, t)
    requires r == Push(w, slot, t)
    ensures Shaped(r) && Cascading(r, time, level) && Dealt(w, r, time, [t], left, misses)
  {
    PushDeals(w, slot, t, time, left, misses);
    PushKeepsCascading(w, slot, t, time, level);
  }

  /** Wheel i has timers in hand that were in the bucket it just reached. */
  ghost predicate InHand(w: Wheels, i: nat, timers: seq<Timer>, time: nat) {
    && Shaped(w) && Aligned(w.ticks) && InStep(w.ticks, i)
    && time == w.ticks[0] + 1 && time % Res(i) == 0
    && (forall k :: 0 <= k < |timers| ==> DueWithin(i, time, timers[k]))
    && Cascading(w, time, i + 1)
  }

  lemma InHandStep(w: Wheels, i: nat, t: Timer, rest: seq<Timer>, time: nat, left: nat, misses: nat)
    requires InHand(w, i, [t] + rest, time)
    ensures InHand(TickOne(w, i, t), i, rest, time)
    ensures Dealt(w, TickOne(w, i, t), time, [t], |rest| + left, misses)
  {
    assert ([t] + rest)[0] == t;
    TickOneLaw(w, i, t, |rest| + left, misses);
    forall k | 0 <= k < |rest|
      ensures DueWithin(i, time, rest[k])
    {
      assert rest[k] == ([t] + rest)[k + 1];
    }
  }

  /** The loop over a bucket that was moved out. */
  lemma {:induction false} TickEachLaw(w: Wheels, i: nat, timers: seq<Timer>, time: nat, left: nat, misses: nat)
    requires InHand(w, i, timers, time)
    ensures Cascading(TickEach(w, i, timers), time, i + 1)
    ensures Dealt(w, TickEach(w, i, timers), time, timers, left, misses)
    decreases |timers|
  {
    if timers != [] {
      var t, rest := timers[0], timers[1..];
      assert timers == [t] + rest;
      var w1 := TickOne(w, i, t);
      InHandStep(w, i, t, rest, time, left, misses);
      TickEachLaw(w1, i, rest, time, left, misses);
      DealtChain(w, w1, TickEach(w1, i, rest), time, t, rest, left, misses);
    }
  }

  // ---- one wheel and the wheels above it ----

  lemma TakeOutStored(w: Wheels, slot: nat)
    requires Shaped(w) && slot < BUCKETS
    ensures Stored(TakeOut(w, slot).buckets) + multiset(w.buckets[slot]) == Stored(w.buckets)
  {
    StoredUpdate(w.buckets, slot, []);
  }

  /** Emptying the bucket that wheel i has reached leaves only timers of that
      wheel that rest at the new time; those taken out are due in this unit. */
  lemma TakeOutCascades(w: Wheels, i: nat, time: nat)
    requires Shaped(w) && i < LEVELS && time % Res(i) == 0 && Cascading(w, time, i)
    ensures Cascading(TakeOut(w, Slot(i, time)), time, i + 1)
    ensures var timers := w.buckets[Slot(i, time)];
            forall k :: 0 <= k < |timers| ==> DueWithin(i, time, timers[k])
  {
    var due := Slot(i, time);
    forall slot, t | 0 <= slot < BUCKETS && WheelOf(slot) == i && t in w.buckets[slot]
      ensures slot != due ==> PlacedAt(time, slot, t)
      ensures slot == due ==> DueWithin(i, time, t)
    {
      if slot != due {
        UnreachedRests(time, slot, t);
      } else {
        HeldIsNotLate(time, slot, t);
        if i < 7 {
          ReachedIsDue(time, slot, t);
        }
      }
    }
  }

  /** Above a wheel that does not wrap nothing ticks. */
  lemma NothingAbove(w: Wheels, i: nat, time: nat)
    requires Shaped(w) && i < LEVELS && Cascading(w, time, i + 1)
    requires i + 1 < LEVELS ==> time % Res(i + 1) != 0
    ensures Resting(w, time)
  {
    forall slot, t | 0 <= slot < BUCKETS && t in w.buckets[slot]
      ensures PlacedAt(time, slot, t)
    {
      if WheelOf(slot) > i && time % Res(WheelOf(slot)) == 0 {
        CoarserDivides(WheelOf(slot), i + 1, time);
        assert false;
      }
    }
  }

  lemma DealtJoin(w: Wheels, m: Wheels, r: Wheels, time: nat, timers: seq<Timer>, misses: nat)
    requires Stored(m.buckets) + multiset(timers) == Stored(w.buckets)
    requires m == w.(buckets := m.buckets)
    requires Dealt(m, r, time, timers, 0, misses)
    ensures Dealt(w, r, time, [], 0, misses)
  {
    InHandCounts(w, m, timers, misses);
    assert Ledger(m) + multiset(timers) == Ledger(w);
  }

  lemma InHandCounts(w: Wheels, m: Wheels, timers: seq<Timer>, misses: nat)
    requires Stored(m.buckets) + multiset(timers) == Stored(w.buckets)
    requires m.timerLen == w.timerLen && m.armed == w.armed
    ensures Counts(w, 0, misses) ==> Counts(m, |timers|, misses)
  {
    assert |Stored(m.buckets)| + |timers| == |Stored(w.buckets)|;
  }

  /** The bucket of one wheel, before the wheels above it tick. */
  lemma BucketLaw(w: Wheels, i: nat, misses: nat)
    requires Shaped(w) && Aligned(w.ticks) && InStep(w.ticks, i)
    requires (w.ticks[0] + 1) % Res(i) == 0 && Cascading(w, w.ticks[0] + 1, i)
    ensures Cascading(BucketDone(w, i), w.ticks[0] + 1, i + 1)
    ensures Dealt(w, BucketDone(w, i), w.ticks[0] + 1, [], 0, misses)
  {
    var time := w.ticks[0] + 1;
    var slot := DueSlot(w.ticks, i);
    DueSlotIsSlotOfTime(w.ticks, i);
    TakeOutStored(w, slot);
    TakeOutCascades(w, i, time);
    TickEachLaw(TakeOut(w, slot), i, w.buckets[slot], time, 0, misses);
    DealtJoin(w, TakeOut(w, slot), BucketDone(w, i), time, w.buckets[slot], misses);
  }

  lemma DealtTransitive(w: Wheels, e: Wheels, r: Wheels, time: nat, misses: nat)
    requires Dealt(w, e, time, [], 0, misses) && Dealt(e, r, time, [], 0, misses)
    ensures Dealt(w, r, time, [], 0, misses)
  {
  }

  /** Wheel i is about to tick towards the next time of wheel 0. */
  ghost predicate Midway(w: Wheels, i: nat, time: nat) {
    && Shaped(w) && Aligned(w.ticks) && CascadeReady(w.ticks, i)
    && time == w.ticks[0] + 1 && time % Res(i) == 0
    && Cascading(w, time, i)
  }

  lemma MidwayDeals(w: Wheels, i: nat, time: nat, misses: nat)
    requires Midway(w, i, time)
    ensures Dealt(w, BucketDone(w, i), time, [], 0, misses)
    ensures Cascading(BucketDone(w, i), time, i + 1)
  {
    BucketLaw(w, i, misses);
  }

  lemma MidwayStep(w: Wheels, i: nat, time: nat)
    requires Midway(w, i, time)
    ensures if Wraps(w.ticks, i) then Midway(BucketDone(w, i), i + 1, time)
            else Resting(BucketDone(w, i), time)
  {
    var done := BucketDone(w, i);
    MidwayDeals(w, i, time, 0);
    ReachesMultiple(w.ticks, i);
    if Wraps(w.ticks, i) {
      assert CascadeReady(done.ticks, i + 1) && time % Res(i + 1) == 0;
    } else {
      NothingAbove(done, i, time);
    }
  }

  lemma ClockMoves(w: Wheels, r: Wheels, ticks: seq<nat>, time: nat, misses: nat)
    requires Shaped(r) && |ticks| == LEVELS && Resting(r, time) && Dealt(w, r, time, [], 0, misses)
    ensures Resting(r.(ticks := ticks), time) && Dealt(w, r.(ticks := ticks), time, [], 0, misses)
  {
  }

  /** The cascade from wheel i upward calls what expires, keeps everything else,
      and leaves every timer at rest relative to the new time. */
  lemma {:induction false} WheelTickLaw(w: Wheels, i: nat, time: nat, misses: nat)
    requires Midway(w, i, time)
    ensures Resting(WheelTick(w, i), time)
    ensures Dealt(w, WheelTick(w, i), time, [], 0, misses)
    decreases LEVELS - i
  {
    var done := BucketDone(w, i);
    MidwayDeals(w, i, time, misses);
    MidwayStep(w, i, time);
    if Wraps(w.ticks, i) {
      WheelTickLaw(done, i + 1, time, misses);
      DealtTransitive(w, done, WheelTick(done, i + 1), time, misses);
      ClockMoves(w, WheelTick(done, i + 1), WheelTick(w, i).ticks, time, misses);
    } else {
      ClockMoves(w, done, WheelTick(w, i).ticks, time, misses);
    }
  }

  // ---- the tick of wheel 0 ----

  lemma {:induction false} OthersNotCalled(before: seq<Call>, after: seq<Call>, time: nat, t: Timer)
    requires CallsOnTime(before, after, time) && t.expiry != time
    ensures Called(after)[t] == Called(before)[t]
    decreases |after|
  {
    if |after| > |before| {
      OthersNotCalled(before, after[..|after| - 1], time, t);
    } else {
      assert after == before;
    }
  }

  /** One tick of the whole hierarchy to the given time: it runs the handler of
      exactly the stored timers that expire then, once for each stored copy, and
      stores every other timer exactly as often as before. */
  ghost predicate TickEffect(w: Wheels, r: Wheels, time: nat) {
    && Settled(r) && r.ticks[0] == time
    && r.nextId == w.nextId
    && CallsOnTime(w.calls, r.calls, time)
    && forall t ::
         && Stored(r.buckets)[t] == (if t.expiry == time then 0 else Stored(w.buckets)[t])
         && Called(r.calls)[t] == Called(w.calls)[t] + (if t.expiry == time then Stored(w.buckets)[t] else 0)
  }

  /** From every settled state a tick within the horizon has exactly this effect,
      and leaves clocks, placement and counters consistent. */
  lemma TickLaw(w: Wheels, misses: nat)
    requires Settled(w) && (w.ticks[0] + 1) % HORIZON != 0
    ensures CascadeReady(w.ticks, 0)
    ensures TickEffect(w, WheelTick(w, 0), w.ticks[0] + 1)
    ensures Counts(w, 0, misses) ==> Counts(WheelTick(w, 0), 0, misses)
  {
    TickInBoundsIff(w.ticks);
    ReadyTickLaw(w, WheelTick(w, 0), w.ticks[0] + 1, misses);
  }

  lemma ReadyTickLaw(w: Wheels, r: Wheels, time: nat, misses: nat)
    requires Settled(w) && time == w.ticks[0] + 1 && CascadeReady(w.ticks, 0) && r == WheelTick(w, 0)
    ensures TickEffect(w, r, time)
    ensures Counts(w, 0, misses) ==> Counts(r, 0, misses)
  {
    AdvancedIsNextTime(w.ticks);
    BeforeTick(w, time);
    WheelTickLaw(w, 0, time, misses);
    DealtIsEffect(w, r, time, misses);
  }

  /** What a whole cascade has dealt with is the effect of the tick. */
  lemma DealtIsEffect(w: Wheels, r: Wheels, time: nat, misses: nat)
    requires Shaped(r) && r.ticks == Digits(time) && Resting(r, time) && Dealt(w, r, time, [], 0, misses)
    ensures TickEffect(w, r, time)
  {
    DigitsAligned(time);
    forall t
      ensures Stored(r.buckets)[t] == (if t.expiry == time then 0 else Stored(w.buckets)[t])
      ensures Called(r.calls)[t] == Called(w.calls)[t] + (if t.expiry == time then Stored(w.buckets)[t] else 0)
    {
      assert Ledger(r)[t] == Ledger(w)[t];
      if t.expiry == time {
        RestingIsLater(r, time, t);
      } else {
        OthersNotCalled(w.calls, r.calls, time, t);
      }
    }
  }

  lemma BeforeTick(w: Wheels, time: nat)
    requires Settled(w) && time == w.ticks[0] + 1 && CascadeReady(w.ticks, 0)
    ensures Midway(w, 0, time)
  {
    forall slot, t | 0 <= slot < BUCKETS && t in w.buckets[slot]
      ensures DueOrPlacedAt(time, slot, t)
      ensures time % Res(WheelOf(slot)) != 0 ==> PlacedAt(time, slot, t)
    {
      PlacedAfterTick(w.ticks[0], slot, t);
    }
  }

  lemma RestingIsLater(w: Wheels, time: nat, t: Timer)
    requires Shaped(w) && Resting(w, time)
    ensures t in Stored(w.buckets) ==> time < t.expiry
  {
    StoredMember(w.buckets, t);
    if t in Stored(w.buckets) {
      var slot :| 0 <= slot < BUCKETS && t in w.buckets[slot];
      PlacedIsLater(time, slot, t);
    }
  }
}
