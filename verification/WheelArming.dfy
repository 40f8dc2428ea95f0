/** When the clock stands still: the timer count, the misses of aborts and early
    fires, and the timerfd that is armed by the count. */
module WheelArming {
  import opened Width
  import opened Wheel
  import opened WheelCascade
  import opened WheelOps
  import opened WheelRuns
  import opened WheelFate

  /** The aborts and fires along a run that find nothing although their handle has
      not expired. */
  function Misses(w: Wheels, ops: seq<Op>): nat
    requires AllWithin(w, ops)
    decreases |ops|
  {
    if ops == [] then 0 else MissesOf(w, ops[0]) + Misses(Step(w, ops[0]), ops[1..])
  }

  /** In every regular run the count is, modulo 2^64, the number of stored timers
      less the misses so far. */
  lemma {:induction false} RunCounts(w: Wheels, ops: seq<Op>, r: Wheels, misses: nat, total: nat)
    requires Sane(w) && AllRegular(w, ops) && Counts(w, 0, misses)
    requires AllWithin(w, ops) && r == Run(w, ops) && total == misses + Misses(w, ops)
    ensures Counts(r, 0, total)
    decreases |ops|
  {
    if ops != [] {
      var next, more := Step(w, ops[0]), misses + MissesOf(w, ops[0]);
      StepCounts(w, ops[0], next, misses, more);
      StepOnTime(w, ops[0]);
      RunCounts(next, ops[1..], r, more, total);
    }
  }

  /** A regular run from a count that is off by the given misses leaves a timer
      stored with the timerfd disarmed exactly when the misses have caught up with
      the stored timers. */
  lemma StalledIff(w: Wheels, ops: seq<Op>, r: Wheels, misses: nat, total: nat)
    requires Sane(w) && AllRegular(w, ops) && AllWithin(w, ops) && Counts(w, 0, misses)
    requires r == Run(w, ops) && total == misses + Misses(w, ops)
    ensures r.timerLen == (|Stored(r.buckets)| - total) % WORD
    ensures total < WORD ==> (Stored(r.buckets) != multiset{} && !r.armed <==> 0 < |Stored(r.buckets)| <= total)
  {
    RunCounts(w, ops, r, misses, total);
    CountSays(r, total);
  }

  lemma CountSays(r: Wheels, total: nat)
    requires Counts(r, 0, total)
    ensures r.timerLen == (|Stored(r.buckets)| - total) % WORD
    ensures total < WORD ==> (Stored(r.buckets) != multiset{} && !r.armed <==> 0 < |Stored(r.buckets)| <= total)
  {
  }

  /** A disarmed clock stands still until a timer is added. */
  lemma {:induction false} DisarmedClockStops(w: Wheels, ops: seq<Op>)
    requires !w.armed && AllWithin(w, ops) && Shaped(w)
    requires forall k :: 0 <= k < |ops| ==> !ops[k].Add?
    ensures !Run(w, ops).armed && Run(w, ops).ticks == w.ticks
    decreases |ops|
  {
    if ops != [] {
      DisarmedClockStops(Step(w, ops[0]), ops[1..]);
    }
  }

  /** The timer of a sleep as in SleepBound, with the state of the timerfd: its handler
      has been called in time, or the timer waits, and then the clock runs exactly
      while the misses are fewer than the stored timers. */
  lemma SleepRings(w: Wheels, delay: nat, data: nat, added: Wheels, ops: seq<Op>, misses: nat)
    requires Sane(w) && delay > 0 && NoOverflow(w, delay) && |Stored(w.buckets)| + 1 < WORD
    requires added == RuntimeAdd(w, delay, data).0 && AllRegular(added, ops)
    requires forall k :: 0 <= k < |ops| ==> !Names(ops[k], w.nextId)
    requires Counts(w, 0, misses)
    ensures AllWithin(added, ops)
    ensures var r := Run(added, ops); var total := misses + Misses(added, ops);
            total < WORD ==>
              || (exists at: nat :: Handled(at, Timer(w.nextId, at, data)) in r.calls
                    && 1 <= at - Now(w) <= delay && at - Now(w) > delay - Granularity(delay))
              || (NewTimer(w, delay, data) in Stored(r.buckets) && (r.armed <==> |Stored(r.buckets)| > total))
  {
    var t := NewTimer(w, delay, data);
    AddLaw(w, delay, data, misses);
    AddKeepsDistinct(w, added, t);
    RegularIsWithin(added, ops);
    StalledIff(added, ops, Run(added, ops), misses, misses + Misses(added, ops));
    TimerFate(added, ops, t);
    DelayBound(w, delay, data);
    GranularityIsUnit(delay);
    var r := Run(added, ops);
    if Now(r) >= t.expiry {
      assert Handled(t.expiry, Timer(w.nextId, t.expiry, data)) in r.calls;
    }
  }

  // ---- a run that stalls ----

  lemma ThreeSteps(w: Wheels, a: Op, b: Op, c: Op)
    requires Regular(w, a) && Regular(Step(w, a), b) && Regular(Step(Step(w, a), b), c)
    ensures AllRegular(w, [a, b, c]) && AllWithin(w, [a, b, c])
    ensures Run(w, [a, b, c]) == Step(Step(Step(w, a), b), c)
  {
    var x, y := Step(w, a), Step(Step(w, a), b);
    var z := Step(y, c);
    assert AllRegular(z, []) && AllWithin(z, []) && Run(z, []) == z;
    assert [c][1..] == [] && [b, c][1..] == [c] && [a, b, c][1..] == [b, c];
    assert AllRegular(y, [c]) && AllWithin(y, [c]) && Run(y, [c]) == z;
    assert AllRegular(x, [b, c]) && AllWithin(x, [b, c]) && Run(x, [b, c]) == z;
  }

  lemma OnlyOneIsLeft(before: multiset<Timer>, after: multiset<Timer>, u: Timer, t: Timer, time: nat)
    requires before == multiset{u} + multiset{t} && t.expiry <= time < u.expiry
    requires forall x: Timer :: after[x] == if time < x.expiry then before[x] else 0
    ensures after == multiset{u}
  {
  }

  /** The timer of ten milliseconds that is added when the clock ends in five. */
  function Brief(w: Wheels, data: nat): Timer
    requires Shaped(w)
  {
    Timer(w.nextId, Now(w) + 5, data)
  }

  lemma BriefAdded(w: Wheels, data: nat, x: Wheels, h: Handle)
    requires Sane(w) && Counts(w, 0, 0) && |Stored(w.buckets)| + 1 < WORD
    requires Now(w) % 10 == 5 && Now(w) < HORIZON && (x, h) == RuntimeAdd(w, 10, data)
    ensures h == Handle(w.nextId, Now(w) + 5) && !Hits(x, h)
    ensures Sane(x) && Now(x) == Now(w) && Counts(x, 0, 0)
    ensures Stored(x.buckets) == Stored(w.buckets) + multiset{Brief(w, data)}
  {
    BriefIsNew(w, data);
    AddLaw(w, 10, data, 0);
    AddKeepsDistinct(w, x, Brief(w, data));
    AbortAfterAddIff(w, 10, data);
  }

  lemma BriefIsNew(w: Wheels, data: nat)
    requires Shaped(w) && Now(w) % 10 == 5 && Now(w) < HORIZON
    ensures NewTimer(w, 10, data) == Brief(w, data) && NoOverflow(w, 10)
  {
    BaseBounds(Now(w), 10);
  }

  lemma BriefMissed(x: Wheels, h: Handle, y: Wheels)
    requires Sane(x) && Counts(x, 0, 0) && Now(x) < h.expiry && !Hits(x, h) && y == RuntimeRemove(x, h, false)
    ensures Sane(y) && y.ticks == x.ticks && Stored(y.buckets) == Stored(x.buckets) && Counts(y, 0, 1)
  {
    MissLaw(x, h, false);
    RemoveCounts(x, h, false, y, 0, 1);
  }

  /** Nothing is stored and the clock ends in five. A timer of ten milliseconds is added
      and aborted at once: the abort misses, the count says zero and the timerfd is
      disarmed, although the timer is still stored. */
  lemma AbortCanMiss(w: Wheels, data: nat, x: Wheels, h: Handle, y: Wheels)
    requires Sane(w) && Counts(w, 0, 0) && Stored(w.buckets) == multiset{}
    requires Now(w) % 10 == 5 && Now(w) < HORIZON
    requires (x, h) == RuntimeAdd(w, 10, data) && y == RuntimeRemove(x, h, false)
    ensures Stored(y.buckets) == multiset{Brief(w, data)} && y.timerLen == 0 && !y.armed
  {
    BriefAdded(w, data, x, h);
    BriefMissed(x, h, y);
    OneLeftOneMissed(y, Brief(w, data));
  }

  lemma WhatIsLeft(w: Wheels, count: nat, r: Wheels)
    requires Sane(w) && Now(w) + count < HORIZON && r == Ticks(w, count)
    ensures Shaped(r) && Now(r) == Now(w) + count
    ensures forall t: Timer :: Stored(r.buckets)[t] == if Now(r) < t.expiry then Stored(w.buckets)[t] else 0
  {
    forall t: Timer
      ensures Stored(r.buckets)[t] == if Now(r) < t.expiry then Stored(w.buckets)[t] else 0
    {
      TicksPass(w, count, r, t);
    }
  }

  lemma BriefFired(y: Wheels, u: Timer, t: Timer, count: nat, z: Wheels)
    requires Sane(y) && Counts(y, 0, 1) && Stored(y.buckets) == multiset{u} + multiset{t}
    requires t.expiry == Now(y) + count < u.expiry && Now(y) + count < HORIZON && z == Ticks(y, count)
    ensures Shaped(z) && Now(z) == Now(y) + count
    ensures Stored(z.buckets) == multiset{u} && z.timerLen == 0 && !z.armed
  {
    TicksCount(y, count, z, 1);
    WhatIsLeft(y, count, z);
    OnlyOneIsLeft(Stored(y.buckets), Stored(z.buckets), u, t, Now(z));
    OneLeftOneMissed(z, u);
  }

  lemma TwoLeftOneMissed(y: Wheels, u: Timer, t: Timer)
    requires Counts(y, 0, 1) && Stored(y.buckets) == multiset{u} + multiset{t}
    ensures y.armed
  {
    assert |Stored(y.buckets)| == 2;
  }

  lemma OneLeftOneMissed(z: Wheels, u: Timer)
    requires Counts(z, 0, 1) && Stored(z.buckets) == multiset{u}
    ensures z.timerLen == 0 && !z.armed
  {
    assert |Stored(z.buckets)| == 1;
  }

  /** A timer u is stored and the clock ends in five. Another timer of ten
      milliseconds is added and aborted at once. The abort misses; five expirations
      later the other timer fires and the timerfd is disarmed, although nobody has
      touched u, which is still stored. */
  lemma MissedAbortStalls(w: Wheels, u: Timer, data: nat)
    requires Sane(w) && Counts(w, 0, 0) && Stored(w.buckets) == multiset{u}
    requires Now(w) % 10 == 5 && Now(w) + 5 < HORIZON && Now(w) + 5 < u.expiry
    ensures var ops := [Add(10, data), Abort(Handle(w.nextId, Now(w) + 5)), Expire(5)];
            && AllRegular(w, ops) && AllWithin(w, ops)
            && var r := Run(w, ops);
            && Shaped(r) && Stored(r.buckets) == multiset{u} && Now(r) < u.expiry
            && r.timerLen == 0 && !r.armed
  {
    var (x, h) := RuntimeAdd(w, 10, data);
    BriefAdded(w, data, x, h);
    BriefIsNew(w, data);
    var y := RuntimeRemove(x, h, false);
    BriefMissed(x, h, y);
    TwoLeftOneMissed(y, u, Brief(w, data));
    BriefFired(y, u, Brief(w, data), 5, Ticks(y, 5));
    ThreeSteps(w, Add(10, data), Abort(h), Expire(5));
  }

  // ---- such states are reached ----

  lemma FirstAdd(start: Wheels, delay: nat, data: nat, x: Wheels, t: Timer)
    requires start == Initial() && 0 < delay < HORIZON && x == RuntimeAdd(start, delay, data).0
    requires t == Timer(0, delay, data)
    ensures Regular(start, Add(delay, data))
    ensures Sane(x) && Counts(x, 0, 0) && Now(x) == 0 && x.armed && Stored(x.buckets) == multiset{t}
  {
    InitialSimulates();
    FirstTimer(start, delay, data, t);
    AddLaw(start, delay, data, 0);
    AddKeepsDistinct(start, x, t);
    CountSays(x, 0);
  }

  lemma FirstTimer(start: Wheels, delay: nat, data: nat, t: Timer)
    requires start == Initial() && 0 < delay < HORIZON && t == Timer(0, delay, data)
    ensures NewTimer(start, delay, data) == t && NoOverflow(start, delay)
  {
    BaseBounds(0, delay);
  }

  lemma OneTicked(x: Wheels, count: nat, w: Wheels, t: Timer)
    requires Sane(x) && Counts(x, 0, 0) && Now(x) == 0 && x.armed && Stored(x.buckets) == multiset{t}
    requires count < HORIZON && w == Ticks(x, count)
    ensures Regular(x, Expire(count)) && Sane(w) && Counts(w, 0, 0) && Now(w) == count
    ensures Stored(w.buckets) == if count < t.expiry then multiset{t} else multiset{}
  {
    StepOnTime(x, Expire(count));
    TicksCount(x, count, w, 0);
    WhatIsLeft(x, count, w);
    ThatOne(Stored(x.buckets), Stored(w.buckets), t, count);
  }

  lemma ThatOne(before: multiset<Timer>, after: multiset<Timer>, t: Timer, time: nat)
    requires before == multiset{t}
    requires forall u: Timer :: after[u] == if time < u.expiry then before[u] else 0
    ensures after == if time < t.expiry then multiset{t} else multiset{}
  {
    forall u: Timer
      ensures after[u] == (if time < t.expiry then multiset{t} else multiset{})[u]
    {
    }
  }

  lemma TwoSteps(w: Wheels, a: Op, b: Op, x: Wheels, y: Wheels)
    requires Regular(w, a) && x == Step(w, a) && Regular(x, b) && y == Step(x, b)
    ensures AllRegular(w, [a, b]) && AllWithin(w, [a, b]) && Run(w, [a, b]) == y
  {
    assert AllRegular(y, []) && AllWithin(y, []) && Run(y, []) == y;
    assert [b][1..] == [] && [a, b][1..] == [b];
    assert AllRegular(x, [b]) && AllWithin(x, [b]) && Run(x, [b]) == y;
  }

  lemma AddedThenTicked(start: Wheels, delay: nat, data: nat, count: nat, t: Timer, w: Wheels)
    requires start == Initial() && 0 < delay < HORIZON && count < HORIZON && t == Timer(0, delay, data)
    requires w == Ticks(RuntimeAdd(start, delay, data).0, count)
    ensures AllRegular(start, [Add(delay, data), Expire(count)]) && AllWithin(start, [Add(delay, data), Expire(count)])
    ensures w == Run(start, [Add(delay, data), Expire(count)])
    ensures Sane(w) && Counts(w, 0, 0) && Now(w) == count
    ensures Stored(w.buckets) == if count < t.expiry then multiset{t} else multiset{}
  {
    var x := RuntimeAdd(start, delay, data).0;
    FirstAdd(start, delay, data, x, t);
    OneTicked(x, count, w, t);
    TwoSteps(start, Add(delay, data), Expire(count), x, w);
  }

  /** A timer of a second is added to the runtime as it was set up, and five
      milliseconds later everything is as MissedAbortStalls asks for. */
  lemma StallIsReached(data: nat)
    ensures var ops := [Add(1000, data), Expire(5)];
            && AllRegular(Initial(), ops) && AllWithin(Initial(), ops)
            && var w := Run(Initial(), ops); var u := Timer(0, 1000, data);
            && Sane(w) && Counts(w, 0, 0) && Stored(w.buckets) == multiset{u}
            && Now(w) % 10 == 5 && Now(w) + 5 < HORIZON && Now(w) + 5 < u.expiry
  {
    var start := Initial();
    AddedThenTicked(start, 1000, data, 5, Timer(0, 1000, data), Ticks(RuntimeAdd(start, 1000, data).0, 5));
  }

  /** With a timer of five milliseconds nothing is stored then, as AbortCanMiss asks
      for. */
  lemma MissIsReached(data: nat)
    ensures var ops := [Add(5, data), Expire(5)];
            && AllRegular(Initial(), ops) && AllWithin(Initial(), ops)
            && var w := Run(Initial(), ops);
            && Sane(w) && Counts(w, 0, 0) && Stored(w.buckets) == multiset{}
            && Now(w) % 10 == 5 && Now(w) < HORIZON
  {
    var start := Initial();
    AddedThenTicked(start, 5, data, 5, Timer(0, 5, data), Ticks(RuntimeAdd(start, 5, data).0, 5));
  }
}
