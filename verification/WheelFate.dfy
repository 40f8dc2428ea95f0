/** The life of a single timer, and the order of handler calls, over whole runs.
    Here aborts and fires of other timers may miss. */
module WheelFate {
  import opened Width
  import opened Wheel
  import opened WheelCascade
  import opened WheelOps
  import opened WheelRuns

  predicate Names(op: Op, id: nat) {
    match op
    case Abort(h) => h.id == id
    case Fire(h) => h.id == id
    case _ => false
  }

  // ---- one step ----

  /** What any step keeps and how it extends the calls. */
  ghost predicate StepEffect(w: Wheels, r: Wheels)
    requires Shaped(w)
  {
    && Sane(r) && Now(w) <= Now(r) && w.nextId <= r.nextId
    && w.calls <= r.calls
    && (forall k :: |w.calls| <= k < |r.calls| ==> Now(w) <= r.calls[k].at <= Now(r))
    && (forall j, k :: |w.calls| <= j < k < |r.calls| ==> r.calls[j].at <= r.calls[k].at)
  }

  /** What the step does to a timer that it does not name: the timer waits until
      its expiry, is called then, once, and is gone afterwards. */
  ghost predicate Follows(w: Wheels, r: Wheels, t: Timer)
    requires Shaped(w) && Shaped(r)
  {
    if Now(r) < t.expiry then
      Stored(r.buckets)[t] == Stored(w.buckets)[t] && Called(r.calls)[t] == Called(w.calls)[t]
    else
      && Stored(r.buckets)[t] == 0
      && Called(r.calls)[t] == Called(w.calls)[t] + Stored(w.buckets)[t]
      && (t in Stored(w.buckets) ==> Handled(t.expiry, t) in r.calls)
  }

  lemma EffectTransitive(w: Wheels, m: Wheels, r: Wheels)
    requires Sane(w) && StepEffect(w, m) && StepEffect(m, r)
    ensures StepEffect(w, r)
  {
  }

  lemma FollowsTransitive(w: Wheels, m: Wheels, r: Wheels, t: Timer)
    requires Shaped(w) && Sane(m) && Shaped(r) && m.calls <= r.calls && Now(m) <= Now(r)
    requires Follows(w, m, t) && Follows(m, r, t)
    ensures Follows(w, r, t)
  {
  }

  lemma NewCallOf(before: seq<Call>, after: seq<Call>, time: nat, t: Timer)
    requires CallsOnTime(before, after, time) && Called(before)[t] < Called(after)[t]
    ensures Handled(time, t) in after
    decreases |after|
  {
    assert |after| == |before| ==> after == before;
    if after[|after| - 1] != Handled(time, t) {
      NewCallOf(before, after[..|after| - 1], time, t);
    }
  }

  /** Calls made while the clock advances are made at the timer's expiry. */
  ghost predicate OnTime(w: Wheels, r: Wheels) {
    forall k :: |w.calls| <= k < |r.calls| && r.calls[k].Handled? ==> r.calls[k].at == r.calls[k].timer.expiry
  }

  lemma OnTimeTransitive(w: Wheels, m: Wheels, r: Wheels)
    requires m.calls <= r.calls && OnTime(w, m) && OnTime(m, r)
    ensures OnTime(w, r)
  {
  }

  /** The effect of expirations: as of any step, and every call is on time. */
  ghost predicate Passes(w: Wheels, r: Wheels, t: Timer)
    requires Shaped(w)
  {
    StepEffect(w, r) && Follows(w, r, t) && OnTime(w, r)
  }

  lemma TickPasses(w: Wheels, r: Wheels, t: Timer)
    requires Sane(w) && TickEffect(w, r, Now(w) + 1)
    ensures Passes(w, r, t)
  {
    FewerStayDistinct(w, r);
    RestingIsLater(w, Now(w), t);
    if t.expiry == Now(w) + 1 && t in Stored(w.buckets) {
      NewCallOf(w.calls, r.calls, t.expiry, t);
    }
  }

  lemma OneTickPasses(w: Wheels, r: Wheels, t: Timer)
    requires Sane(w) && Now(w) + 1 < HORIZON && r == Tick(w)
    ensures Passes(w, r, t)
  {
    OneTickLaw(w, r, 0);
    TickPasses(w, r, t);
  }

  lemma NoTickPasses(w: Wheels, t: Timer)
    requires Sane(w)
    ensures Passes(w, w, t)
  {
    RestingIsLater(w, Now(w), t);
  }

  lemma PassesTransitive(w: Wheels, m: Wheels, r: Wheels, t: Timer)
    ensures Sane(w) && Passes(w, m, t) && Passes(m, r, t) ==> Passes(w, r, t)
  {
    if Sane(w) && Passes(w, m, t) && Passes(m, r, t) {
      EffectTransitive(w, m, r);
      FollowsTransitive(w, m, r, t);
      OnTimeTransitive(w, m, r);
    }
  }

  lemma {:induction false} TicksPass(w: Wheels, count: nat, r: Wheels, t: Timer)
    requires Sane(w) && Now(w) + count < HORIZON && r == Ticks(w, count)
    ensures Passes(w, r, t)
    decreases count
  {
    if count == 0 {
      NoTickPasses(w, t);
    } else {
      var next, fewer := Tick(w), count - 1;
      OneTickPasses(w, next, t);
      TicksUnfold(w, count, next, fewer, r);
      TicksPass(next, fewer, r, t);
      PassesTransitive(w, next, r, t);
    }
  }

  lemma AddFollows(w: Wheels, r: Wheels, added: Timer, t: Timer)
    requires Sane(w) && AddEffect(w, r, added) && t != added
    ensures StepEffect(w, r) && Follows(w, r, t)
  {
    AddKeepsDistinct(w, r, added);
    RestingIsLater(w, Now(w), t);
  }

  lemma HitFollows(w: Wheels, r: Wheels, hit: Timer, fires: bool, t: Timer)
    requires Sane(w) && HitEffect(w, r, hit, fires) && t.id != hit.id
    ensures StepEffect(w, r) && Follows(w, r, t)
  {
    HitKeepsDistinct(w, r, hit, fires);
    RestingIsLater(w, Now(w), t);
    assert (Stored(r.buckets) + multiset{hit})[t] == Stored(w.buckets)[t];
    CalledAppend(w.calls, Handled(Now(w), hit));
  }

  lemma NothingFollows(w: Wheels, r: Wheels, t: Timer)
    requires Sane(w) && r == w.(timerLen := r.timerLen, armed := r.armed)
    ensures StepEffect(w, r) && Follows(w, r, t)
  {
    RestingIsLater(w, Now(w), t);
  }

  lemma DirectFollows(w: Wheels, data: nat, t: Timer)
    requires Sane(w)
    ensures var r := w.(calls := w.calls + [Direct(Now(w), data)]); StepEffect(w, r) && Follows(w, r, t)
  {
    RestingIsLater(w, Now(w), t);
    CalledAppend(w.calls, Direct(Now(w), data));
  }

  lemma RemoveFollows(w: Wheels, h: Handle, fires: bool, t: Timer)
    requires Sane(w) && t.id != h.id
    ensures StepEffect(w, RuntimeRemove(w, h, fires)) && Follows(w, RuntimeRemove(w, h, fires), t)
  {
    var r := RuntimeRemove(w, h, fires);
    if Hits(w, h) {
      HitLaw(w, h, fires, 0);
      HitFollows(w, r, HitTimer(w, h), fires, t);
    } else {
      if Now(w) < h.expiry {
        MissLaw(w, h, fires);
      }
      NothingFollows(w, r, t);
    }
  }

  lemma StepFollows(w: Wheels, op: Op, t: Timer)
    requires Sane(w) && Regular(w, op) && t.id != w.nextId && !Names(op, t.id)
    ensures StepEffect(w, Step(w, op)) && Follows(w, Step(w, op), t)
  {
    match op
    case Add(delay, data) =>
      if delay == 0 {
        AddNothing(w, data);
        DirectFollows(w, data, t);
      } else {
        AddLaw(w, delay, data, 0);
        AddFollows(w, Step(w, op), NewTimer(w, delay, data), t);
      }
    case Expire(count) => TicksPass(w, count, Ticks(w, count), t);
    case Abort(h) => RemoveFollows(w, h, false, t);
    case Fire(h) => RemoveFollows(w, h, true, t);
  }

  // ---- whole runs ----

  /** Over any run that does not abort or fire it, a stored timer waits until the
      clock reaches its expiry, is then called, once and at that time, and is
      neither stored nor called again. Whether the clock gets there is another
      matter, on which misses on other timers have a say: see WheelArming. */
  lemma {:induction false} TimerFate(w: Wheels, ops: seq<Op>, t: Timer)
    requires Sane(w) && AllRegular(w, ops) && t.id < w.nextId
    requires forall k :: 0 <= k < |ops| ==> !Names(ops[k], t.id)
    ensures AllWithin(w, ops)
    ensures StepEffect(w, Run(w, ops)) && Follows(w, Run(w, ops), t)
    decreases |ops|
  {
    RegularIsWithin(w, ops);
    if ops == [] {
      NothingFollows(w, w, t);
    } else {
      var m := Step(w, ops[0]);
      StepFollows(w, ops[0], t);
      TimerFate(m, ops[1..], t);
      EffectTransitive(w, m, Run(m, ops[1..]));
      FollowsTransitive(w, m, Run(m, ops[1..]), t);
    }
  }

  lemma StepOnTime(w: Wheels, op: Op)
    requires Sane(w) && Regular(w, op)
    ensures StepEffect(w, Step(w, op))
    ensures !op.Fire? ==> OnTime(w, Step(w, op))
  {
    var bystander := Timer(w.nextId + 1 + (match op case Abort(h) => h.id case Fire(h) => h.id case _ => 0), 0, 0);
    StepFollows(w, op, bystander);
    match op
    case Add(delay, data) =>
      if delay == 0 {
        AddNothing(w, data);
      } else {
        AddLaw(w, delay, data, 0);
      }
    case Expire(count) => TicksPass(w, count, Ticks(w, count), bystander);
    case Abort(h) =>
      if Hits(w, h) {
        HitLaw(w, h, false, 0);
      } else if Now(w) < h.expiry {
        MissLaw(w, h, false);
      }
    case Fire(_) =>
  }

  /** Over any regular run the handlers are called in order of time. Without
      early fires every timer handler is called at its recorded expiry, so the
      calls are in nondecreasing order of expiry. */
  lemma {:induction false} CallsInOrder(w: Wheels, ops: seq<Op>)
    requires Sane(w) && AllRegular(w, ops)
    ensures AllWithin(w, ops) && StepEffect(w, Run(w, ops))
    ensures (forall k :: 0 <= k < |ops| ==> !ops[k].Fire?) ==> OnTime(w, Run(w, ops))
    decreases |ops|
  {
    RegularIsWithin(w, ops);
    if ops == [] {
      NothingFollows(w, w, Timer(0, 0, 0));
    } else {
      var m := Step(w, ops[0]);
      StepOnTime(w, ops[0]);
      CallsInOrder(m, ops[1..]);
      EffectTransitive(w, m, Run(m, ops[1..]));
      if forall k :: 0 <= k < |ops| ==> !ops[k].Fire? {
        OnTimeTransitive(w, m, Run(m, ops[1..]));
      }
    }
  }

  /** The timer of a sleep of a positive delay: in every later regular run that does not
      abort or fire it, its handler has been called once the clock has passed the
      delay, after at least one tick, never late by the clock, and less than one
      granularity unit early. When the sleep itself is ready is another matter: see
      Sleep. */
  lemma SleepBound(w: Wheels, delay: nat, data: nat, added: Wheels, ops: seq<Op>)
    requires Sane(w) && delay > 0 && NoOverflow(w, delay) && |Stored(w.buckets)| + 1 < WORD
    requires added == RuntimeAdd(w, delay, data).0 && AllRegular(added, ops)
    requires forall k :: 0 <= k < |ops| ==> !Names(ops[k], w.nextId)
    ensures AllWithin(added, ops) && Sane(Run(added, ops))
    ensures Now(Run(added, ops)) >= Now(w) + delay ==>
              exists at: nat :: Handled(at, Timer(w.nextId, at, data)) in Run(added, ops).calls
                && 1 <= at - Now(w) <= delay && at - Now(w) > delay - Granularity(delay)
  {
    var t := NewTimer(w, delay, data);
    AddLaw(w, delay, data, 0);
    AddKeepsDistinct(w, added, t);
    TimerFate(added, ops, t);
    DelayBound(w, delay, data);
    GranularityIsUnit(delay);
    var r := Run(added, ops);
    if Now(r) >= Now(w) + delay {
      assert t in Stored(added.buckets);
      assert Handled(t.expiry, Timer(w.nextId, t.expiry, data)) in r.calls;
    }
  }
}
