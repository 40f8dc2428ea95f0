/** Futures as records in memory: the macros advance the counter, enter the awaited
    future, clean it up when it is ready and clear the link, step by step. What runs
    is written down where it runs. */
module CoroutineObject {
  import opened Options
  import opened Sequences
  import C = Coroutine
  import Laws = CoroutineLaws
  import Runs = CoroutineRuns

  /** The bodies run and the conditions that failed, and the futures started and
      cleaned up, in the order in which the records do it. */
  class Trace<E(!new)> {
    ghost var events: seq<C.Event<E>>
    ghost var lives: seq<C.Life>

    constructor ()
      ensures events == [] && lives == []
    {
      events, lives := [], [];
    }

    /** Between the two points in time what has been written is this. */
    twostate predicate Grew(new events: seq<C.Event<E>>, new lives: seq<C.Life>)
      reads this
    {
      this.events == old(this.events) + events && this.lives == old(this.lives) + lives
    }
  }

  class FutureCell<E(!new), V(!new)> {
    const fn: nat
    var counter: nat
    var env: E
    var awaitFuture: FutureCell?<E, V>
    var awaitOut: (E, V) -> E

    ghost var Repr: set<FutureCell<E, V>>

    ghost predicate Valid()
      reads this, Repr
      ensures Valid() ==> this in Repr
    {
      && this in Repr
      && (awaitFuture != null ==>
            && awaitFuture in Repr && awaitFuture.Repr <= Repr && this !in awaitFuture.Repr
            && awaitFuture.Valid())
    }

    /** The record and the chain behind it hold the given future. Every method takes
        such a future to the one that the machine reaches. */
    ghost predicate Is(f: C.Future<E, V>)
      requires Valid()
      reads this, Repr
      decreases f
    {
      && fn == f.fn && counter == f.counter && env == f.env
      && (awaitFuture == null <==> f.awaiting.None?)
      && (f.awaiting.Some? ==> awaitOut == f.awaiting.value.out && awaitFuture.Is(f.awaiting.value.child))
    }

    constructor (fn: nat, counter: nat, env: E, out: (E, V) -> E)
      ensures Valid() && fresh(Repr) && Repr == {this}
      ensures Is(C.Future(fn, counter, env, None))
    {
      this.fn, this.counter, this.env := fn, counter, env;
      awaitFuture, awaitOut := null, out;
      Repr := {this};
    }

    /** The poll function: async_fn_begin, then the scopes. */
    method Poll(lib: C.Library<E, V>, trace: Trace<E>, ghost f: C.Future<E, V>)
      returns (status: C.Status<V>, woke: bool, ghost o: C.Outcome<E, V>)
      requires Valid() && Is(f) && C.Nested(lib) && Sized(lib) && C.Fits(lib, f) && f.counter > 0
      modifies Repr, trace
      ensures Valid() && fresh(Repr - old(Repr))
      ensures o == C.Poll(lib, f) && Is(o.future) && status == o.status && woke == o.woke
      ensures trace.Grew(o.events, o.lives)
      decreases fn, 1, 0, 0
    {
      if awaitFuture == null {
        status, woke, o := Scan(lib, trace, f);
      } else {
        status, woke, o := Resume(lib, trace, f);
      }
    }

    /** The awaited future is polled first; when it is ready its value is stored, it is
        cleaned up, the link is cleared, and the scopes follow in the same poll. */
    method Resume(lib: C.Library<E, V>, trace: Trace<E>, ghost f: C.Future<E, V>)
      returns (status: C.Status<V>, woke: bool, ghost o: C.Outcome<E, V>)
      requires Valid() && Is(f) && C.Nested(lib) && Sized(lib) && C.Fits(lib, f)
      requires f.counter > 0 && awaitFuture != null
      modifies Repr, trace
      ensures Valid() && fresh(Repr - old(Repr))
      ensures o == C.Poll(lib, f) && Is(o.future) && status == o.status && woke == o.woke
      ensures trace.Grew(o.events, o.lives)
      decreases fn, 0, |lib[fn]|, 3
    {
      ghost var a := f.awaiting.value;
      assert C.Fits(lib, a.child);
      var childStatus, childWoke;
      ghost var inner: C.Outcome<E, V>;
      childStatus, childWoke, inner := PollAwaited(lib, trace, f);
      o := C.Poll(lib, f);
      if childStatus.Ready? {
        ghost var g := f.(env := a.out(f.env, childStatus.value), awaiting := None);
        Settle(lib, trace, f.(awaiting := Some(a.(child := inner.future))), childStatus.value);
        ghost var resumed: C.Outcome<E, V>;
        status, woke, resumed := Scan(lib, trace, g);
        woke := childWoke || woke;
        Three(old(trace.lives), inner.lives, C.Logged(C.Cleanup(inner.future)), resumed.lives);
        Assoc(old(trace.events), inner.events, resumed.events);
      } else {
        counter := counter - 1;
        status, woke := C.Pending, childWoke;
      }
    }

    /** The awaited future is ready: its value is stored, it is cleaned up, and the
        link is cleared. */
    method Settle(lib: C.Library<E, V>, trace: Trace<E>, ghost f: C.Future<E, V>, value: V)
      requires Valid() && Is(f) && Sized(lib) && C.Fits(lib, f) && f.awaiting.Some?
      modifies Repr, trace
      ensures Valid() && Repr == old(Repr)
      ensures Is(f.(env := f.awaiting.value.out(f.env, value), awaiting := None))
      ensures trace.Grew([], C.Logged(C.Cleanup(f.awaiting.value.child)))
      decreases fn, 0, |lib[fn]|, 2
    {
      assert C.Fits(lib, f.awaiting.value.child);
      env := awaitOut(env, value);
      awaitFuture.Cleanup(lib, trace, f.awaiting.value.child);
      awaitFuture := null;
    }

    method PollAwaited(lib: C.Library<E, V>, trace: Trace<E>, ghost f: C.Future<E, V>)
      returns (status: C.Status<V>, woke: bool, ghost inner: C.Outcome<E, V>)
      requires Valid() && Is(f) && C.Nested(lib) && Sized(lib) && C.Fits(lib, f) && awaitFuture != null
      modifies Repr, trace
      ensures Valid() && fresh(Repr - old(Repr))
      ensures C.Fits(lib, f.awaiting.value.child)
      ensures var child := f.awaiting.value.child;
              inner == C.Poll(lib, child.(counter := child.counter + 1))
      ensures Is(f.(awaiting := Some(f.awaiting.value.(child := inner.future))))
      ensures status == inner.status && woke == inner.woke
      ensures trace.Grew(inner.events, inner.lives)
      decreases fn, 0, |lib[fn]|, 1
    {
      ghost var child := f.awaiting.value.child;
      assert C.Fits(lib, child);
      awaitFuture.counter := awaitFuture.counter + 1;
      status, woke, inner := awaitFuture.Poll(lib, trace, child.(counter := child.counter + 1));
      Repr := {this} + awaitFuture.Repr;
    }

    /** The scopes in textual order: each advances con and compares it with the
        counter; a while scope whose condition fails moves on to the next one. */
    method Scan(lib: C.Library<E, V>, trace: Trace<E>, ghost f: C.Future<E, V>)
      returns (status: C.Status<V>, woke: bool, ghost o: C.Outcome<E, V>)
      requires Valid() && Is(f) && C.Nested(lib) && Sized(lib) && C.Fits(lib, f) && awaitFuture == null
      modifies Repr, trace
      ensures Valid() && fresh(Repr - old(Repr))
      ensures o == C.Scan(lib, f, 0) && Is(o.future) && status == o.status && woke == o.woke
      ensures trace.Grew(o.events, o.lives)
      decreases fn, 0, |lib[fn]|, 0
    {
      var con := 0;
      ghost var g, skipped := f, [];
      while con < |lib[fn]|
        invariant con <= |lib[fn]| && Valid() && Repr == old(Repr) && awaitFuture == null
        invariant g.fn == fn && g.awaiting.None? && C.Fits(lib, g) && Is(g)
        invariant trace.Grew(skipped, [])
        invariant C.Scan(lib, f, 0) == WithEvents(skipped, C.Scan(lib, g, con))
      {
        con := con + 1;
        if con == counter {
          if lib[fn][con - 1].Plain? || lib[fn][con - 1].cond(env) {
            status, woke, o := Enter(lib, trace, con - 1, g);
            Assoc(old(trace.events), skipped, o.events);
            o := WithEvents(skipped, o);
            return;
          }
          ghost var event := C.Skipped(fn, con - 1, env);
          ghost var next := g.(counter := g.counter + 1);
          trace.events := trace.events + [event];
          Assoc(old(trace.events), skipped, [event]);
          MoreEvents(skipped, event, C.Scan(lib, next, con));
          skipped := skipped + [event];
          g := next;
          counter := counter + 1;
        }
      }
      status, woke := C.Undefined, false;
      o := WithEvents(skipped, C.Scan(lib, g, con));
    }

    /** The scope that the counter names, when it is plain or its condition holds; a while
        scope steps the counter back, so that the next poll comes here again. */
    method Enter(lib: C.Library<E, V>, trace: Trace<E>, con: nat, ghost f: C.Future<E, V>)
      returns (status: C.Status<V>, woke: bool, ghost o: C.Outcome<E, V>)
      requires Valid() && Is(f) && C.Nested(lib) && Sized(lib) && C.Fits(lib, f) && awaitFuture == null
      requires con < |lib[fn]| && con + 1 == f.counter
      requires lib[fn][con].Plain? || lib[fn][con].cond(f.env)
      modifies Repr, trace
      ensures Valid() && fresh(Repr - old(Repr))
      ensures o == C.Scan(lib, f, con) && Is(o.future) && status == o.status && woke == o.woke
      ensures trace.Grew(o.events, o.lives)
      decreases fn, 0, 0, 2
    {
      if lib[fn][con].Plain? {
        status, woke, o := RunBody(lib, trace, con, C.Ran(fn, con, env), f);
      } else {
        counter := counter - 1;
        status, woke, o := RunBody(lib, trace, con, C.Looped(fn, con, env), f.(counter := f.counter - 1));
      }
    }

    /** The body of scope con and the macro that ends it. */
    method RunBody(lib: C.Library<E, V>, trace: Trace<E>, con: nat, ghost event: C.Event<E>, ghost f: C.Future<E, V>)
      returns (status: C.Status<V>, woke: bool, ghost o: C.Outcome<E, V>)
      requires Valid() && Is(f) && C.Nested(lib) && Sized(lib) && C.Fits(lib, f) && awaitFuture == null
      requires con < |lib[fn]| && (f.counter == con + 1 || f.counter == con)
      modifies Repr, trace
      ensures Valid() && fresh(Repr - old(Repr))
      ensures o == C.RunBody(lib, f, con, event) && Is(o.future) && status == o.status && woke == o.woke
      ensures trace.Grew(o.events, o.lives)
      decreases fn, 0, 0, 1
    {
      trace.events := trace.events + [event];
      var (after, exit, byHand) := lib[fn][con].body(env);
      env := after;
      o := C.RunBody(lib, f, con, event);
      match exit
      case Yield => status, woke := C.Pending, true;
      case Suspend => status, woke := C.Pending, byHand;
      case Break =>
        counter := counter + 1;
        status, woke := C.Pending, true;
      case Return(v) => status, woke := C.Ready(v), byHand;
      case FallThrough =>
        Laws.ScanPassed(lib, f.(env := after), con + 1);
        status, woke := C.Undefined, byHand;
      case Await(callee, args, out) =>
        ghost var inner: C.Outcome<E, V>, settled: seq<C.Life>;
        status, woke, inner, settled := AwaitGet(lib, trace, callee, args, out, f.(env := after));
        woke := byHand || woke;
        Assoc(old(trace.events), [event], inner.events);
        assert o.lives == [C.Started(callee)] + (inner.lives + settled) by {
          assert inner.lives + [] == inner.lives;
        }
    }

    /** await_get: the new future is polled at once and stays linked unless it is ready
        already; then it is cleaned up. */
    method AwaitGet(lib: C.Library<E, V>, trace: Trace<E>, callee: nat, args: E, out: (E, V) -> E,
                    ghost g: C.Future<E, V>)
      returns (status: C.Status<V>, woke: bool, ghost inner: C.Outcome<E, V>, ghost settled: seq<C.Life>)
      requires Valid() && Is(g) && C.Nested(lib) && Sized(lib) && C.Fits(lib, g) && awaitFuture == null && callee < fn
      modifies Repr, trace
      ensures Valid() && fresh(Repr - old(Repr)) && callee < |lib|
      ensures inner == C.Poll(lib, C.Future(callee, 1, args, None)) && status == C.Pending
      ensures inner.status.Ready? ==> Is(g.(env := out(g.env, inner.status.value))) && woke
      ensures !inner.status.Ready? ==> Is(g.(awaiting := Some(C.Awaited(inner.future, out)))) && woke == inner.woke
      ensures settled == if inner.status.Ready? then C.Logged(C.Cleanup(inner.future)) else []
      ensures trace.Grew(inner.events, [C.Started(callee)] + (inner.lives + settled))
      decreases fn, 0, 0, 0
    {
      var child := new FutureCell<E, V>(callee, 1, args, out);
      trace.lives := trace.lives + [C.Started(callee)];
      var childStatus, childWoke;
      childStatus, childWoke, inner := child.Poll(lib, trace, C.Future(callee, 1, args, None));
      if childStatus.Ready? {
        env := out(env, childStatus.value);
        child.Cleanup(lib, trace, inner.future);
        settled := C.Logged(C.Cleanup(inner.future));
        status, woke := C.Pending, true;
      } else {
        awaitFuture, awaitOut := child, out;
        Repr := {this} + child.Repr;
        settled := [];
        status, woke := C.Pending, childWoke;
      }
      Three(old(trace.lives), [C.Started(callee)], inner.lives, settled);
    }

    /** __TASKIO_FUTURE_CLEANUP: the counter is set out of reach of every scope, the
        awaited future is cleaned up before this one, and the walk over the scopes
        finds none to run. */
    method Cleanup(lib: C.Library<E, V>, trace: Trace<E>, ghost f: C.Future<E, V>)
      requires Valid() && Is(f) && Sized(lib) && C.Fits(lib, f)
      modifies Repr, trace
      ensures Valid() && Repr == old(Repr) && Is(Closed(f))
      ensures trace.Grew([], C.Logged(C.Cleanup(f)))
      decreases fn, 0, 0, 0
    {
      counter := C.CLEANUP_COUNTER;
      if awaitFuture != null {
        assert C.Fits(lib, f.awaiting.value.child);
        awaitFuture.Cleanup(lib, trace, f.awaiting.value.child);
        LoggedAppend(C.Cleanup(f.awaiting.value.child), fn);
        Assoc(old(trace.lives), C.Logged(C.Cleanup(f.awaiting.value.child)), [C.Cleaned(fn)]);
      }
      trace.lives := trace.lives + [C.Cleaned(fn)];
      var con := 0;
      while con < |lib[fn]|
        invariant con <= |lib[fn]| < counter
      {
        con := con + 1;
        assert con != counter;
      }
    }

    /** Up to count polls of the future of a task, each as the worker makes it. */
    method PollTimes(lib: C.Library<E, V>, trace: Trace<E>, count: nat, ghost f: C.Future<E, V>)
      returns (status: C.Status<V>, ghost o: C.Outcome<E, V>)
      requires Valid() && Is(f) && C.Nested(lib) && Sized(lib) && C.Fits(lib, f)
      modifies Repr, trace
      ensures Valid() && fresh(Repr - old(Repr))
      ensures o == Runs.Polls(lib, f, count) && Is(o.future) && status == o.status
      ensures trace.Grew(o.events, o.lives)
      decreases count
    {
      o := Runs.Polls(lib, f, count);
      status := C.Pending;
      if count > 0 {
        counter := counter + 1;
        var woke;
        ghost var first: C.Outcome<E, V>, rest: C.Outcome<E, V>;
        status, woke, first := Poll(lib, trace, f.(counter := f.counter + 1));
        if !status.Ready? {
          status, rest := PollTimes(lib, trace, count - 1, first.future);
          Assoc(old(trace.events), first.events, rest.events);
          Assoc(old(trace.lives), first.lives, rest.lives);
        }
      }
    }

    /** The future of a task from a poll to its cleanup. The laws of the machine hold for
        what the records have done: the bodies ran as the structured program reads, and
        the futures came and went like calls on a stack that is empty in the end. */
    method Drive(lib: C.Library<E, V>, trace: Trace<E>, count: nat, ghost f: C.Future<E, V>, ghost out: (E, V) -> E)
      returns (status: C.Status<V>)
      requires Valid() && Is(f) && C.Nested(lib) && Sized(lib) && C.Fits(lib, f)
      requires trace.events == [] && trace.lives == []
      modifies Repr, trace
      ensures var o := Runs.Polls(lib, f, count);
              && status == o.status
              && Laws.Steps(lib, Laws.Running(Laws.Calls(lib, f, out)), trace.events, Laws.After(lib, o, out, []))
      ensures Runs.Replays(C.Cleanup(f), trace.lives, [])
    {
      ghost var o: C.Outcome<E, V>;
      status, o := PollTimes(lib, trace, count, f);
      assert trace.events == o.events && trace.lives == o.lives;
      Cleanup(lib, trace, o.future);
      DriveLaw(lib, f, count, out, o, trace.events, trace.lives);
    }
  }

  lemma DriveLaw<E(!new), V(!new)>(lib: C.Library<E, V>, f: C.Future<E, V>, count: nat, out: (E, V) -> E,
          o: C.Outcome<E, V>, events: seq<C.Event<E>>, lives: seq<C.Life>)
    requires C.Nested(lib) && C.Fits(lib, f) && o == Runs.Polls(lib, f, count)
    requires events == o.events && lives == o.lives + C.Logged(C.Cleanup(o.future))
    ensures Laws.Steps(lib, Laws.Running(Laws.Calls(lib, f, out)), events, Laws.After(lib, o, out, []))
    ensures Runs.Replays(C.Cleanup(f), lives, [])
  {
    Runs.PollsRefine(lib, f, count, out, o);
    Runs.EveryFutureCleanedOnce(lib, f, count);
  }

  /** No function has so many scopes that a scope number equals the cleanup counter. */
  ghost predicate Sized<E, V>(lib: C.Library<E, V>) {
    forall k :: 0 <= k < |lib| ==> |lib[k]| < C.CLEANUP_COUNTER
  }

  /** The chain with every counter set for cleanup. */
  ghost function Closed<E, V>(f: C.Future<E, V>): C.Future<E, V>
    decreases f
  {
    f.(counter := C.CLEANUP_COUNTER,
       awaiting := match f.awaiting
                   case None => None
                   case Some(a) => Some(a.(child := Closed(a.child))))
  }

  ghost function WithEvents<E, V>(events: seq<C.Event<E>>, o: C.Outcome<E, V>): C.Outcome<E, V> {
    o.(events := events + o.events)
  }

  lemma MoreEvents<E, V>(events: seq<C.Event<E>>, event: C.Event<E>, o: C.Outcome<E, V>)
    ensures WithEvents(events, o.(events := [event] + o.events)) == WithEvents(events + [event], o)
  {
    assert events + ([event] + o.events) == (events + [event]) + o.events;
  }

  lemma Three<T>(a: seq<T>, b: seq<T>, c: seq<T>, d: seq<T>)
    ensures ((a + b) + c) + d == a + (b + (c + d))
  {
  }

  lemma {:induction false} LoggedAppend(fns: seq<nat>, fn: nat)
    ensures C.Logged(fns + [fn]) == C.Logged(fns) + [C.Cleaned(fn)]
    decreases |fns|
  {
    AppendTail(fns, [fn]);
    if fns != [] {
      LoggedAppend(fns[1..], fn);
      assert C.Logged(fns) + [C.Cleaned(fn)] == [C.Cleaned(fns[0])] + (C.Logged(fns[1..]) + [C.Cleaned(fn)]);
    } else {
      assert [fn][1..] == [];
    }
  }
}
