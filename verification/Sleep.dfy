/** The sleep of src/common/sleep.c: an async function of two scopes over the wheels.
    Its second scope does not look whether the timer has fired. */
module Sleep {
  import opened Options
  import opened Width
  import opened Wheel
  import opened WheelCascade
  import opened WheelOps
  import opened WheelRuns
  import opened WheelFate
  import opened WheelHeld
  import opened Coroutine
  import Laws = CoroutineLaws

  /** What a sleep reads and writes: the wheels of its runtime, its duration, and the
      handle of its timer; data stands for the waker that it keeps. */
  datatype World = World(wheels: Wheels, delay: nat, data: nat, handle: Handle)

  function TimerAdded(e: World): (r: World)
    requires Shaped(e.wheels)
    ensures Shaped(r.wheels)
  {
    var (added, h) := RuntimeAdd(e.wheels, e.delay, e.data);
    e.(wheels := added, handle := h)
  }

  /** The first scope adds the timer, whose handler can run at once and then calls the
      waker; the second one forgets the handle and returns. */
  function Program<V>(v: V): seq<Scope<World, V>> {
    [Plain((e: World) =>
       if Shaped(e.wheels) then (TimerAdded(e), Suspend, TimerAdded(e).wheels.calls != e.wheels.calls)
       else (e, Suspend, false)),
     Plain((e: World) => (e.(handle := Handle(0, 0)), Return(v), false))]
  }

  /** The cleanup block. */
  function CleanedUp(e: World): Wheels
    requires Shaped(e.wheels)
  {
    if HandleValid(e.handle) then RuntimeRemove(e.wheels, e.handle, false) else e.wheels
  }

  /** A sleep that has been polled so often, which is at most once. */
  ghost predicate IsSleep<V(!new)>(lib: Library<World, V>, f: Future<World, V>, v: V, polls: nat) {
    && f.fn < |lib| && lib[f.fn] == Program(v) && Nested(lib)
    && f.counter == polls <= 1 && f.awaiting.None? && Shaped(f.env.wheels)
  }

  /** The first poll adds the timer and pends. */
  lemma FirstPoll<V(!new)>(lib: Library<World, V>, f: Future<World, V>, v: V, o: Outcome<World, V>)
    requires IsSleep(lib, f, v, 0) && o == Poll(lib, f.(counter := 1))
    ensures o.status.Pending? && o.future == f.(counter := 1, env := TimerAdded(f.env))
    ensures o.woke <==> o.future.env.wheels.calls != f.env.wheels.calls
  {
    var g := f.(counter := 1);
    assert o == Scan(lib, g, 0) && lib[f.fn][0].Plain?;
    assert o == RunBody(lib, g, 0, Ran(f.fn, 0, f.env));
  }

  /** The second poll is ready, whatever has happened to the wheels, and the handle
      is gone. */
  lemma SecondPoll<V(!new)>(lib: Library<World, V>, f: Future<World, V>, v: V, o: Outcome<World, V>)
    requires IsSleep(lib, f, v, 1) && o == Poll(lib, f.(counter := 2))
    ensures o.status == Ready(v) && !o.woke && o.future == f.(counter := 2, env := f.env.(handle := Handle(0, 0)))
  {
    SecondScope(lib, f.(counter := 2), v, Ran(f.fn, 1, f.env), o);
  }

  lemma SecondScope<V(!new)>(lib: Library<World, V>, g: Future<World, V>, v: V, event: Event<World>,
                             o: Outcome<World, V>)
    requires g.fn < |lib| && lib[g.fn] == Program(v) && Nested(lib) && g.counter == 2 && g.awaiting.None?
    requires o == Poll(lib, g) && event == Ran(g.fn, 1, g.env)
    ensures o.status == Ready(v) && !o.woke && o.future == g.(env := g.env.(handle := Handle(0, 0)))
  {
    assert o == Scan(lib, g, 0);
    assert o == Scan(lib, g, 1) && lib[g.fn][1].Plain?;
    assert o == RunBody(lib, g, 1, event);
  }

  // ---- too early ----

  /** A new timer is called, in any run that leaves it alone, exactly when the clock
      has reached its expiry; before that it is stored. */
  lemma NewTimerFate(w: Wheels, delay: nat, data: nat, added: Wheels, ops: seq<Op>, r: Wheels)
    requires Sane(w) && delay > 0 && NoOverflow(w, delay) && |Stored(w.buckets)| + 1 < WORD
    requires added == RuntimeAdd(w, delay, data).0 && AllRegular(added, ops) && AllWithin(added, ops)
    requires (forall k :: 0 <= k < |ops| ==> !Names(ops[k], w.nextId)) && r == Run(added, ops)
    ensures Sane(r)
    ensures var t := NewTimer(w, delay, data);
            && (Called(r.calls)[t] == Called(w.calls)[t] <==> Now(r) < t.expiry)
            && (Now(r) < t.expiry ==> t in Stored(r.buckets))
  {
    var t := NewTimer(w, delay, data);
    AddLaw(w, delay, data, 0);
    AddKeepsDistinct(w, added, t);
    TimerFate(added, ops, t);
  }

  /** A sleep whose first poll has left the world e reports ready at its next poll. It
      does so before its handler has run exactly if that poll comes before the clock
      has reached the expiry of its timer; then the timer stays stored, even when the
      sleep is cleaned up, as its handle is gone. */
  lemma EarlyIff<V(!new)>(lib: Library<World, V>, f: Future<World, V>, v: V, e: World, ops: seq<Op>, r: Wheels,
                          second: Outcome<World, V>)
    requires IsSleep(lib, f, v, 0) && e == TimerAdded(f.env)
    requires Sane(f.env.wheels) && |Stored(f.env.wheels.buckets)| + 1 < WORD
    requires f.env.delay > 0 && NoOverflow(f.env.wheels, f.env.delay)
    requires AllRegular(e.wheels, ops) && AllWithin(e.wheels, ops) && r == Run(e.wheels, ops)
    requires forall k :: 0 <= k < |ops| ==> !Names(ops[k], f.env.wheels.nextId)
    requires second == Poll(lib, f.(counter := 2, env := e.(wheels := r)))
    ensures second.status == Ready(v) && second.future.env == e.(wheels := r, handle := Handle(0, 0))
    ensures Sane(r) && CleanedUp(second.future.env) == r
    ensures var w := f.env.wheels; var t := NewTimer(w, f.env.delay, f.env.data);
            && (Called(r.calls)[t] == Called(w.calls)[t] <==> Now(r) < t.expiry)
            && (Now(r) < t.expiry ==> t in Stored(r.buckets))
  {
    NewTimerFate(f.env.wheels, f.env.delay, f.env.data, e.wheels, ops, r);
    SecondPollAt(lib, f, v, e.(wheels := r), second);
  }

  /** The same with the state of the world in which the second poll is made. */
  lemma SecondPollAt<V(!new)>(lib: Library<World, V>, f: Future<World, V>, v: V, e: World, o: Outcome<World, V>)
    requires IsSleep(lib, f, v, 0) && Shaped(e.wheels) && o == Poll(lib, f.(counter := 2, env := e))
    ensures o.status == Ready(v) && o.future.env == e.(handle := Handle(0, 0))
    ensures CleanedUp(o.future.env) == e.wheels
  {
    SecondPoll(lib, f.(counter := 1, env := e), v, o);
  }

  /** Input: any sleep, polled twice with nothing in between. It is ready, its handler
      has not run, and its timer is still stored after the cleanup. */
  lemma PolledTwiceIsEarly<V(!new)>(lib: Library<World, V>, f: Future<World, V>, v: V, e: World,
                                    second: Outcome<World, V>)
    requires IsSleep(lib, f, v, 0) && e == TimerAdded(f.env)
    requires Sane(f.env.wheels) && |Stored(f.env.wheels.buckets)| + 1 < WORD
    requires f.env.delay > 0 && NoOverflow(f.env.wheels, f.env.delay)
    requires second == Poll(lib, f.(counter := 2, env := e))
    ensures second.status == Ready(v) && second.future.env == e.(handle := Handle(0, 0))
    ensures CleanedUp(second.future.env) == e.wheels && e.wheels.calls == f.env.wheels.calls
    ensures NewTimer(f.env.wheels, f.env.delay, f.env.data) in Stored(e.wheels.buckets)
  {
    SecondPollAt(lib, f, v, e, second);
    AddLaw(f.env.wheels, f.env.delay, f.env.data, 0);
  }

  // ---- given up ----

  /** The size_t before n. */
  function OneLess(n: nat): nat {
    if n == 0 then WORD - 1 else n - 1
  }

  /** A sleep that was polled once is cleaned up, as the losing side of a select is. If
      its timer has expired that does nothing. Before, it takes exactly that timer out
      and calls nothing, if and only if the timer has come to the finest wheel or has
      a unit left of the wheel that holds it; otherwise the timer stays, and the count
      drops all the same. */
  lemma CleanedUpIff(f: World, e: World, ops: seq<Op>, r: Wheels, c: Wheels, t: Timer, j: nat)
    requires Sane(f.wheels) && |Stored(f.wheels.buckets)| + 1 < WORD && f.delay > 0 && NoOverflow(f.wheels, f.delay)
    requires e == TimerAdded(f) && t == NewTimer(f.wheels, f.delay, f.data)
    requires AllRegular(e.wheels, ops) && AllWithin(e.wheels, ops) && r == Run(e.wheels, ops)
    requires forall k :: 0 <= k < |ops| ==> !Names(ops[k], t.id)
    requires Shaped(r) && c == CleanedUp(e.(wheels := r))
    requires Now(r) < t.expiry ==> j == HeldIn(t.expiry, FindWheel(f.delay), Now(r))
    ensures Now(r) >= t.expiry ==> c == r
    ensures Now(r) < t.expiry && (j == 0 || t.expiry - Now(r) >= Res(j)) ==>
              && Stored(r.buckets) == Stored(c.buckets) + multiset{t} && t !in Stored(c.buckets)
              && c.calls == r.calls
    ensures Now(r) < t.expiry && !(j == 0 || t.expiry - Now(r) >= Res(j)) ==>
              && c.buckets == r.buckets && t in Stored(c.buckets) && c.calls == r.calls
              && c.timerLen == OneLess(r.timerLen)
  {
    AddLaw(f.wheels, f.delay, f.data, 0);
    NewTimerFate(f.wheels, f.delay, f.data, e.wheels, ops, r);
    if Now(r) < t.expiry {
      FoundLaterIff(f.wheels, f.delay, f.data, e.wheels, ops, r);
      RemovedOrMissed(r, t, c);
    }
  }

  /** What an abort of a stored timer does. */
  lemma RemovedOrMissed(r: Wheels, t: Timer, c: Wheels)
    requires Sane(r) && t in Stored(r.buckets) && Now(r) < t.expiry && c == RuntimeRemove(r, HandleOf(t), false)
    ensures c.calls == r.calls && c.timerLen == OneLess(r.timerLen)
    ensures Hits(r, HandleOf(t)) ==>
              Stored(r.buckets) == Stored(c.buckets) + multiset{t} && t !in Stored(c.buckets)
    ensures !Hits(r, HandleOf(t)) ==> c.buckets == r.buckets
  {
    var h := HandleOf(t);
    CountsOneLess(r, h, c);
    if Hits(r, h) {
      HitLaw(r, h, false, 0);
      var hit := HitTimer(r, h);
      assert Stored(r.buckets)[t] == (Stored(c.buckets) + multiset{hit})[t];
    } else {
      MissLaw(r, h, false);
    }
  }

  lemma CountsOneLess(r: Wheels, h: Handle, c: Wheels)
    requires Shaped(r) && Now(r) < h.expiry && c == RuntimeRemove(r, h, false)
    ensures c.timerLen == OneLess(r.timerLen)
  {
  }

  // ---- how it comes to that ----

  /** A task awaits something that is ready and has called the waker in that poll, as a
      select can, and in the same poll goes on to await a sleep. The task has been woken
      without being ready; in its next poll the sleep runs to its end, whatever the
      clock says. */
  lemma WokenTaskEndsSleep<V(!new)>(lib: Library<World, V>, f: Future<World, V>, v: V, inner: Outcome<World, V>,
                                    o: Outcome<World, V>, sleep: Future<World, V>, out: (World, V) -> World,
                                    later: Outcome<World, V>, next: Outcome<World, V>)
    requires Nested(lib) && Fits(lib, f) && f.counter > 0 && f.awaiting.Some? && o == Poll(lib, f)
    requires Fits(lib, f.awaiting.value.child)
    requires var child := f.awaiting.value.child;
             inner == Poll(lib, child.(counter := child.counter + 1)) && inner.status.Ready? && inner.woke
    requires o.future.awaiting == Some(Awaited(sleep, out)) && IsSleep(lib, sleep, v, 1)
    requires later == Poll(lib, sleep.(counter := 2))
    requires next == Poll(lib, o.future.(counter := o.future.counter + 1))
    ensures !o.status.Ready? && o.woke
    ensures later.status == Ready(v) && later.events <= next.events
    ensures later.future == sleep.(counter := 2, env := sleep.env.(handle := Handle(0, 0)))
  {
    SecondPoll(lib, sleep, v, later);
    Laws.PollUnfold(lib, o.future.(counter := o.future.counter + 1), next);
  }
}
