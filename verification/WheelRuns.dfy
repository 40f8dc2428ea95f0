/** Whole runs of the timing wheel against a flat list of timers with one clock. */
module WheelRuns {
  import opened Width
  import opened Wheel
  import opened WheelClock
  import opened WheelCascade
  import opened WheelOps

  /** Expire stands for one timerfd read that reports the given number of
      expirations. */
  datatype Op = Add(delay: nat, data: nat) | Expire(count: nat) | Abort(handle: Handle) | Fire(handle: Handle)

  lemma TickStaysAligned(w: Wheels)
    requires Shaped(w) && Aligned(w.ticks) && w.ticks[0] + 1 < HORIZON
    ensures CascadeReady(w.ticks, 0)
    ensures Aligned(Advanced(w.ticks, 0)) && Advanced(w.ticks, 0)[0] == w.ticks[0] + 1
  {
    TickInBoundsIff(w.ticks);
    AdvancedIsNextTime(w.ticks);
    DigitsAligned(w.ticks[0] + 1);
  }

  /** One expiration: wheel 0 ticks. */
  function Tick(w: Wheels): (r: Wheels)
    requires Shaped(w) && Aligned(w.ticks) && w.ticks[0] + 1 < HORIZON
    ensures Shaped(r) && Aligned(r.ticks) && r.ticks[0] == w.ticks[0] + 1
  {
    TickStaysAligned(w);
    WheelTick(w, 0)
  }

  /** The expirations loop of worker_run. */
  function Ticks(w: Wheels, count: nat): (r: Wheels)
    requires Shaped(w) && Aligned(w.ticks) && w.ticks[0] + count < HORIZON
    ensures Shaped(r) && Aligned(r.ticks) && r.ticks[0] == w.ticks[0] + count
    decreases count
  {
    if count == 0 then w else Ticks(Tick(w), count - 1)
  }

  /** Expirations come from an armed timerfd only, and the clock must stay below
      the horizon, where the source would tick a ninth wheel. */
  predicate Within(w: Wheels, op: Op) {
    && Shaped(w) && Aligned(w.ticks)
    && (op.Expire? ==> w.ticks[0] + op.count < HORIZON && (op.count > 0 ==> w.armed))
  }

  function Step(w: Wheels, op: Op): (r: Wheels)
    requires Within(w, op)
    ensures Shaped(r) && Aligned(r.ticks)
  {
    match op
    case Add(delay, data) => RuntimeAdd(w, delay, data).0
    case Expire(count) => Ticks(w, count)
    case Abort(h) => RuntimeRemove(w, h, false)
    case Fire(h) => RuntimeRemove(w, h, true)
  }

  predicate AllWithin(w: Wheels, ops: seq<Op>)
    decreases |ops|
  {
    ops == [] || (Within(w, ops[0]) && AllWithin(Step(w, ops[0]), ops[1..]))
  }

  function Run(w: Wheels, ops: seq<Op>): (r: Wheels)
    requires AllWithin(w, ops)
    decreases |ops|
  {
    if ops == [] then w else Run(Step(w, ops[0]), ops[1..])
  }

  lemma TicksUnfold(w: Wheels, count: nat, next: Wheels, fewer: nat, r: Wheels)
    requires Shaped(w) && Aligned(w.ticks) && fewer + 1 == count && w.ticks[0] + count < HORIZON
    requires next == Tick(w) && r == Ticks(w, count)
    ensures r == Ticks(next, fewer)
  {
  }

  lemma {:induction false} BatchesTo(w: Wheels, k: nat, j: nat, total: nat, middle: Wheels, r: Wheels)
    requires Shaped(w) && Aligned(w.ticks) && total == k + j && w.ticks[0] + total < HORIZON
    requires middle == Ticks(w, k) && r == Ticks(w, total)
    ensures r == Ticks(middle, j)
    decreases k
  {
    if k > 0 {
      var next, k', total' := Tick(w), k - 1, total - 1;
      TicksUnfold(w, k, next, k', middle);
      TicksUnfold(w, total, next, total', r);
      BatchesTo(next, k', j, total', middle, r);
    }
  }

  /** k and then j expirations are k + j expirations, however they are batched. */
  lemma BatchesCompose(w: Wheels, k: nat, j: nat)
    requires Shaped(w) && Aligned(w.ticks) && w.ticks[0] + k + j < HORIZON
    ensures Ticks(w, k + j) == Ticks(Ticks(w, k), j)
  {
    BatchesTo(w, k, j, k + j, Ticks(w, k), Ticks(w, k + j));
  }

  // ---- the reference: one clock and one list ----

  datatype Flat = Flat(now: nat, nextId: nat, pending: seq<Timer>, calls: seq<Call>)

  /** The granularity that a delay is honoured with: its largest unit. */
  function Granularity(delay: nat): (g: nat)
    ensures g > 0
  {
    if delay < 10 then 1 else if delay < 100 then 10 else if delay < 1000 then 100
    else if delay < 60 * 1000 then 1000 else if delay < 60 * 60 * 1000 then 60 * 1000
    else if delay < 24 * 60 * 60 * 1000 then 60 * 60 * 1000
    else if delay < 365 * 24 * 60 * 60 * 1000 then 24 * 60 * 60 * 1000 else 365 * 24 * 60 * 60 * 1000
  }

  function Due(pending: seq<Timer>, time: nat): seq<Timer> {
    if pending == [] then []
    else (if pending[0].expiry == time then [pending[0]] else []) + Due(pending[1..], time)
  }

  function NotDue(pending: seq<Timer>, time: nat): seq<Timer> {
    if pending == [] then []
    else (if pending[0].expiry == time then [] else [pending[0]]) + NotDue(pending[1..], time)
  }

  function CallAll(timers: seq<Timer>, time: nat): seq<Call> {
    if timers == [] then [] else [Handled(time, timers[0])] + CallAll(timers[1..], time)
  }

  function FlatTick(f: Flat): Flat {
    var time := f.now + 1;
    f.(now := time, pending := NotDue(f.pending, time), calls := f.calls + CallAll(Due(f.pending, time), time))
  }

  function FlatTicks(f: Flat, count: nat): Flat
    decreases count
  {
    if count == 0 then f else FlatTicks(FlatTick(f), count - 1)
  }

  function FlatTimer(f: Flat, delay: nat, data: nat): Timer {
    Timer(f.nextId, f.now - f.now % Granularity(delay) + delay, data)
  }

  function FlatAdd(f: Flat, delay: nat, data: nat): Flat {
    if delay == 0 then f.(calls := f.calls + [Direct(f.now, data)])
    else f.(nextId := f.nextId + 1, pending := f.pending + [FlatTimer(f, delay, data)])
  }

  function WithId(pending: seq<Timer>, id: nat): seq<Timer> {
    if pending == [] then []
    else (if pending[0].id == id then [pending[0]] else []) + WithId(pending[1..], id)
  }

  function WithoutId(pending: seq<Timer>, id: nat): seq<Timer> {
    if pending == [] then []
    else (if pending[0].id == id then [] else [pending[0]]) + WithoutId(pending[1..], id)
  }

  function FlatRemove(f: Flat, h: Handle, fires: bool): Flat {
    if h.expiry <= f.now then f
    else f.(pending := WithoutId(f.pending, h.id),
            calls := f.calls + if fires then CallAll(WithId(f.pending, h.id), f.now) else [])
  }

  function FlatStep(f: Flat, op: Op): Flat {
    match op
    case Add(delay, data) => FlatAdd(f, delay, data)
    case Expire(count) => FlatTicks(f, count)
    case Abort(h) => FlatRemove(f, h, false)
    case Fire(h) => FlatRemove(f, h, true)
  }

  function FlatRun(f: Flat, ops: seq<Op>): Flat
    decreases |ops|
  {
    if ops == [] then f else FlatRun(FlatStep(f, ops[0]), ops[1..])
  }

  // ---- which runs are covered ----

  ghost predicate Sane(w: Wheels) {
    Settled(w) && Distinct(w)
  }

  /** What a caller can check before an operation: no 64-bit overflow, and what
      makes an expiration possible. */
  ghost predicate Regular(w: Wheels, op: Op) {
    && Within(w, op)
    && (op.Add? ==> NoOverflow(w, op.delay) && |Stored(w.buckets)| + 1 < WORD)
  }

  ghost predicate AllRegular(w: Wheels, ops: seq<Op>)
    decreases |ops|
  {
    ops == [] || (Regular(w, ops[0]) && AllRegular(Step(w, ops[0]), ops[1..]))
  }

  /** How often an operation misses: an abort or fire whose handle has not expired
      and whose lookup fails. */
  function MissesOf(w: Wheels, op: Op): nat
    requires Shaped(w)
  {
    match op
    case Abort(h) => Missed(w, h)
    case Fire(h) => Missed(w, h)
    case _ => 0
  }

  /** Regular, and every abort and fire has expired or hits. */
  ghost predicate Sound(w: Wheels, op: Op) {
    Regular(w, op) && MissesOf(w, op) == 0
  }

  ghost predicate AllSound(w: Wheels, ops: seq<Op>)
    decreases |ops|
  {
    ops == [] || (Sound(w, ops[0]) && AllSound(Step(w, ops[0]), ops[1..]))
  }

  lemma {:induction false} SoundIsRegular(w: Wheels, ops: seq<Op>)
    requires AllSound(w, ops)
    ensures AllRegular(w, ops)
    decreases |ops|
  {
    if ops != [] {
      SoundIsRegular(Step(w, ops[0]), ops[1..]);
    }
  }

  lemma {:induction false} RegularIsWithin(w: Wheels, ops: seq<Op>)
    requires AllRegular(w, ops)
    ensures AllWithin(w, ops)
    decreases |ops|
  {
    if ops != [] {
      RegularIsWithin(Step(w, ops[0]), ops[1..]);
    }
  }

  // ---- the count along a run ----

  lemma OneTickLaw(w: Wheels, r: Wheels, misses: nat)
    requires Sane(w) && Now(w) + 1 < HORIZON && r == Tick(w)
    ensures TickEffect(w, r, Now(w) + 1) && Sane(r)
    ensures Counts(w, 0, misses) ==> Counts(r, 0, misses)
  {
    TickStaysAligned(w);
    TickLaw(w, misses);
    assert r == WheelTick(w, 0);
    EffectIsSane(w, r);
  }

  lemma EffectIsSane(w: Wheels, r: Wheels)
    requires Sane(w) && TickEffect(w, r, Now(w) + 1)
    ensures Sane(r)
  {
    FewerStayDistinct(w, r);
  }

  lemma {:induction false} TicksCount(w: Wheels, count: nat, r: Wheels, misses: nat)
    requires Sane(w) && Now(w) + count < HORIZON && Counts(w, 0, misses) && r == Ticks(w, count)
    ensures Counts(r, 0, misses)
    decreases count
  {
    if count > 0 {
      var next, fewer := Tick(w), count - 1;
      OneTickLaw(w, next, misses);
      TicksUnfold(w, count, next, fewer, r);
      TicksCount(next, fewer, r, misses);
    }
  }

  lemma AnyAddCounts(w: Wheels, delay: nat, data: nat, r: Wheels, misses: nat)
    requires Settled(w) && NoOverflow(w, delay) && |Stored(w.buckets)| + 1 < WORD
    requires r == RuntimeAdd(w, delay, data).0 && Counts(w, 0, misses)
    ensures Counts(r, 0, misses)
  {
    if delay == 0 {
      AddNothing(w, data);
    } else {
      AddLaw(w, delay, data, misses);
    }
  }

  /** Every regular operation keeps the count up to its misses. */
  lemma StepCounts(w: Wheels, op: Op, r: Wheels, misses: nat, total: nat)
    requires Sane(w) && Regular(w, op) && Counts(w, 0, misses)
    requires r == Step(w, op) && total == misses + MissesOf(w, op)
    ensures Counts(r, 0, total)
  {
    match op
    case Add(delay, data) => AnyAddCounts(w, delay, data, r, misses);
    case Expire(count) => TicksCount(w, count, r, misses);
    case Abort(h) => RemoveCounts(w, h, false, r, misses, total);
    case Fire(h) => RemoveCounts(w, h, true, r, misses, total);
  }

  // ---- simulation ----

  /** The wheels hold the same timers as the list and have made the same calls;
      within one tick the order of calls may differ. */
  ghost predicate Matches(w: Wheels, f: Flat) {
    && Sane(w)
    && Now(w) == f.now && w.nextId == f.nextId
    && Stored(w.buckets) == multiset(f.pending)
    && multiset(w.calls) == multiset(f.calls)
  }

  /** Moreover the timer count is exact and the timerfd armed accordingly. */
  ghost predicate Simulates(w: Wheels, f: Flat) {
    Matches(w, f) && Counts(w, 0, 0)
  }

  lemma GranularityIsUnit(delay: nat)
    ensures Granularity(delay) == Res(FindWheel(delay))
  {
  }

  lemma {:induction false} DueSplits(pending: seq<Timer>, time: nat, t: Timer)
    ensures multiset(Due(pending, time))[t] == if t.expiry == time then multiset(pending)[t] else 0
    ensures multiset(NotDue(pending, time))[t] == if t.expiry == time then 0 else multiset(pending)[t]
  {
    if pending != [] {
      DueSplits(pending[1..], time, t);
      assert pending == [pending[0]] + pending[1..];
    }
  }

  lemma {:induction false} IdSplits(pending: seq<Timer>, id: nat, t: Timer)
    ensures multiset(WithId(pending, id))[t] == if t.id == id then multiset(pending)[t] else 0
    ensures multiset(WithoutId(pending, id))[t] == if t.id == id then 0 else multiset(pending)[t]
  {
    if pending != [] {
      IdSplits(pending[1..], id, t);
      assert pending == [pending[0]] + pending[1..];
    }
  }

  lemma {:induction false} CallAllCounts(timers: seq<Timer>, time: nat, c: Call)
    ensures multiset(CallAll(timers, time))[c] ==
            if c.Handled? && c.at == time then multiset(timers)[c.timer] else 0
  {
    if timers != [] {
      CallAllCounts(timers[1..], time, c);
      assert timers == [timers[0]] + timers[1..];
    }
  }

  /** Calls made in one tick are determined by the timers they were made for. */
  lemma {:induction false} NewCallsCount(before: seq<Call>, after: seq<Call>, time: nat, c: Call)
    requires CallsOnTime(before, after, time)
    ensures if c.Handled? && c.at == time
            then multiset(after)[c] + Called(before)[c.timer] == multiset(before)[c] + Called(after)[c.timer]
            else multiset(after)[c] == multiset(before)[c]
    decreases |after|
  {
    if |after| > |before| {
      var shorter, last := after[..|after| - 1], after[|after| - 1];
      NewCallsCount(before, shorter, time, c);
      assert after == shorter + [last];
      CalledAppend(shorter, last);
    } else {
      assert after == before;
    }
  }

  lemma TimersMatch(before: multiset<Timer>, after: multiset<Timer>, pending: seq<Timer>, time: nat)
    requires before == multiset(pending)
    requires forall t :: after[t] == if t.expiry == time then 0 else before[t]
    ensures after == multiset(NotDue(pending, time))
  {
    forall t
      ensures after[t] == multiset(NotDue(pending, time))[t]
    {
      DueSplits(pending, time, t);
    }
  }

  lemma CallsMatch(before: seq<Call>, after: seq<Call>, flat: seq<Call>, pending: seq<Timer>, time: nat)
    requires CallsOnTime(before, after, time) && multiset(before) == multiset(flat)
    requires forall t :: Called(after)[t] == Called(before)[t] + if t.expiry == time then multiset(pending)[t] else 0
    ensures multiset(after) == multiset(flat + CallAll(Due(pending, time), time))
  {
    forall c: Call
      ensures multiset(after)[c] == multiset(flat + CallAll(Due(pending, time), time))[c]
    {
      NewCallsCount(before, after, time, c);
      CallAllCounts(Due(pending, time), time, c);
      if c.Handled? {
        DueSplits(pending, time, c.timer);
      }
    }
  }

  lemma TickMatches(w: Wheels, r: Wheels, f: Flat, g: Flat)
    requires Matches(w, f) && TickEffect(w, r, f.now + 1) && g == FlatTick(f)
    ensures Matches(r, g)
  {
    var time := f.now + 1;
    TickTimers(w, r, f.pending, time);
    TickCalls(w, r, f.calls, f.pending, time);
    EffectIsSane(w, r);
    EffectClock(w, r, time);
    assert g.now == time && g.nextId == f.nextId && g.pending == NotDue(f.pending, time);
    assert g.calls == f.calls + CallAll(Due(f.pending, time), time);
  }

  lemma EffectClock(w: Wheels, r: Wheels, time: nat)
    requires TickEffect(w, r, time)
    ensures Shaped(r) && Now(r) == time && r.nextId == w.nextId
  {
  }

  lemma TickTimers(w: Wheels, r: Wheels, pending: seq<Timer>, time: nat)
    requires TickEffect(w, r, time) && Stored(w.buckets) == multiset(pending)
    ensures Stored(r.buckets) == multiset(NotDue(pending, time))
  {
    TimersMatch(Stored(w.buckets), Stored(r.buckets), pending, time);
  }

  lemma TickCalls(w: Wheels, r: Wheels, calls: seq<Call>, pending: seq<Timer>, time: nat)
    requires TickEffect(w, r, time) && Stored(w.buckets) == multiset(pending) && multiset(w.calls) == multiset(calls)
    ensures multiset(r.calls) == multiset(calls + CallAll(Due(pending, time), time))
  {
    CallsMatch(w.calls, r.calls, calls, pending, time);
  }

  lemma FlatUnfold(f: Flat, count: nat, next: Flat, fewer: nat, g: Flat)
    requires fewer + 1 == count && next == FlatTick(f) && g == FlatTicks(f, count)
    ensures g == FlatTicks(next, fewer)
  {
  }

  lemma OneTickMatches(w: Wheels, r: Wheels, f: Flat, g: Flat)
    requires Matches(w, f) && Now(w) + 1 < HORIZON && r == Tick(w) && g == FlatTick(f)
    ensures Matches(r, g)
  {
    OneTickLaw(w, r, 0);
    TickMatches(w, r, f, g);
  }

  lemma {:induction false} TicksMatch(w: Wheels, f: Flat, count: nat, r: Wheels, g: Flat)
    requires Matches(w, f) && Now(w) + count < HORIZON
    requires r == Ticks(w, count) && g == FlatTicks(f, count)
    ensures Matches(r, g)
    decreases count
  {
    if count > 0 {
      var next, flatNext, fewer := Tick(w), FlatTick(f), count - 1;
      OneTickMatches(w, next, f, flatNext);
      TicksUnfold(w, count, next, fewer, r);
      FlatUnfold(f, count, flatNext, fewer, g);
      TicksMatch(next, flatNext, fewer, r, g);
    }
  }

  lemma FlatAddIsNewTimer(w: Wheels, f: Flat, delay: nat, data: nat)
    requires Shaped(w) && Now(w) == f.now && w.nextId == f.nextId && delay > 0
    ensures FlatAdd(f, delay, data) ==
            f.(nextId := f.nextId + 1, pending := f.pending + [NewTimer(w, delay, data)])
  {
    GranularityIsUnit(delay);
    BaseBounds(Now(w), delay);
  }

  lemma AddMatches(w: Wheels, r: Wheels, f: Flat, t: Timer)
    requires Matches(w, f) && AddEffect(w, r, t)
    ensures Matches(r, f.(nextId := f.nextId + 1, pending := f.pending + [t]))
  {
    AddKeepsDistinct(w, r, t);
  }

  lemma AnyAddMatches(w: Wheels, f: Flat, delay: nat, data: nat)
    requires Matches(w, f) && NoOverflow(w, delay) && |Stored(w.buckets)| + 1 < WORD
    ensures Matches(RuntimeAdd(w, delay, data).0, FlatAdd(f, delay, data))
  {
    var r := RuntimeAdd(w, delay, data).0;
    if delay == 0 {
      AddNothing(w, data);
      assert r == w.(calls := w.calls + [Direct(f.now, data)]);
    } else {
      AddLaw(w, delay, data, 0);
      AddMatches(w, r, f, NewTimer(w, delay, data));
      FlatAddIsNewTimer(w, f, delay, data);
    }
  }

  ghost predicate OnlyWithItsId(stored: multiset<Timer>, hit: Timer) {
    stored[hit] == 1 && forall u :: u in stored && u.id == hit.id ==> u == hit
  }

  lemma OthersMatch(stored: multiset<Timer>, left: multiset<Timer>, hit: Timer, pending: seq<Timer>)
    requires stored == multiset(pending) && left + multiset{hit} == stored && OnlyWithItsId(stored, hit)
    ensures left == multiset(WithoutId(pending, hit.id))
  {
    forall t
      ensures left[t] == multiset(WithoutId(pending, hit.id))[t]
    {
      IdSplits(pending, hit.id, t);
      assert (left + multiset{hit})[t] == stored[t];
    }
  }

  lemma HitMatches(stored: multiset<Timer>, hit: Timer, pending: seq<Timer>, time: nat)
    requires stored == multiset(pending) && OnlyWithItsId(stored, hit)
    ensures multiset(CallAll(WithId(pending, hit.id), time)) == multiset{Handled(time, hit)}
  {
    forall c: Call
      ensures multiset(CallAll(WithId(pending, hit.id), time))[c] == multiset{Handled(time, hit)}[c]
    {
      CallAllCounts(WithId(pending, hit.id), time, c);
      if c.Handled? {
        IdSplits(pending, hit.id, c.timer);
      }
    }
  }

  lemma HitMatchesFlat(w: Wheels, r: Wheels, f: Flat, hit: Timer, fires: bool)
    requires Matches(w, f) && HitEffect(w, r, hit, fires)
    ensures Matches(r, f.(pending := WithoutId(f.pending, hit.id),
              calls := f.calls + if fires then CallAll(WithId(f.pending, hit.id), f.now) else []))
  {
    OthersMatch(Stored(w.buckets), Stored(r.buckets), hit, f.pending);
    HitMatches(Stored(w.buckets), hit, f.pending, f.now);
    HitKeepsDistinct(w, r, hit, fires);
  }

  /** A hit and an expired handle do what the list does; a miss does nothing. */
  lemma RemoveMatches(w: Wheels, f: Flat, h: Handle, fires: bool, r: Wheels, g: Flat)
    requires Matches(w, f) && r == RuntimeRemove(w, h, fires)
    requires g == if Missed(w, h) == 1 then f else FlatRemove(f, h, fires)
    ensures Matches(r, g)
  {
    if Hits(w, h) {
      HitLaw(w, h, fires, 0);
      HitMatchesFlat(w, r, f, HitTimer(w, h), fires);
    } else if Now(w) < h.expiry {
      MissLaw(w, h, fires);
    }
  }

  lemma SimulateStep(w: Wheels, f: Flat, op: Op)
    requires Simulates(w, f) && Sound(w, op)
    ensures Simulates(Step(w, op), FlatStep(f, op))
  {
    StepCounts(w, op, Step(w, op), 0, 0);
    match op
    case Add(delay, data) => AnyAddMatches(w, f, delay, data);
    case Expire(count) => TicksMatch(w, f, count, Ticks(w, count), FlatTicks(f, count));
    case Abort(h) => RemoveMatches(w, f, h, false, Step(w, op), FlatStep(f, op));
    case Fire(h) => RemoveMatches(w, f, h, true, Step(w, op), FlatStep(f, op));
  }

  /** The refinement: along every sound run the eight cascading wheels behave
      like one clock and one flat list, the timer count equals the number of
      stored timers, and the timerfd is armed exactly when it is positive. */
  lemma {:induction false} RunRefinesFlat(w: Wheels, f: Flat, ops: seq<Op>)
    requires Simulates(w, f) && AllSound(w, ops)
    ensures AllWithin(w, ops)
    ensures Simulates(Run(w, ops), FlatRun(f, ops))
    ensures var r := Run(w, ops); r.timerLen == |Stored(r.buckets)| && (r.armed <==> r.timerLen > 0)
    decreases |ops|
  {
    SoundIsRegular(w, ops);
    RegularIsWithin(w, ops);
    if ops == [] {
      CountsExactly(w);
    } else {
      SimulateStep(w, f, ops[0]);
      RunRefinesFlat(Step(w, ops[0]), FlatStep(f, ops[0]), ops[1..]);
    }
  }

  lemma {:induction false} EmptyStored(n: nat)
    ensures Stored(seq(n, _ => [])) == multiset{}
  {
    if n > 0 {
      assert seq<seq<Timer>>(n, _ => [])[1..] == seq(n - 1, _ => []);
      EmptyStored(n - 1);
    }
  }

  /** A freshly set-up runtime simulates the empty list. */
  lemma InitialSimulates()
    ensures Simulates(Initial(), Flat(0, 0, [], []))
  {
    EmptyStored(BUCKETS);
    assert Aligned(Initial().ticks);
  }
}
