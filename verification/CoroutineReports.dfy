/** What a poll tells its caller: whether it has called the waker, and its status, both
    read off the bodies that it ran. */
module CoroutineReports {
  import opened Options
  import opened Coroutine
  import opened CoroutineLaws

  // ---- wakes ----

  /** A body that calls the waker: by hand, by the macro that ends it, or because what
      it awaits is ready at once. */
  ghost predicate Wakes<E(!new), V(!new)>(lib: Library<E, V>, e: Event<E>)
    requires Nested(lib)
  {
    && !e.Skipped? && e.fn < |lib| && e.scope < |lib[e.fn]|
    && var (_, exit, byHand) := lib[e.fn][e.scope].body(e.env);
    || byHand || exit.Yield? || exit.Break?
    || (exit.Await? && Poll(lib, Future(exit.callee, 1, exit.args, None)).status.Ready?)
  }

  ghost predicate SomeWakes<E(!new), V(!new)>(lib: Library<E, V>, events: seq<Event<E>>)
    requires Nested(lib)
  {
    exists k :: 0 <= k < |events| && Wakes(lib, events[k])
  }

  lemma WakesInParts<E(!new), V(!new)>(lib: Library<E, V>, a: seq<Event<E>>, b: seq<Event<E>>)
    requires Nested(lib)
    ensures SomeWakes(lib, a + b) <==> SomeWakes(lib, a) || SomeWakes(lib, b)
  {
    if SomeWakes(lib, a) {
      var k :| 0 <= k < |a| && Wakes(lib, a[k]);
      assert (a + b)[k] == a[k];
    }
    if SomeWakes(lib, b) {
      var k :| 0 <= k < |b| && Wakes(lib, b[k]);
      assert (a + b)[|a| + k] == b[k];
    }
  }

  lemma WakesAlone<E(!new), V(!new)>(lib: Library<E, V>, e: Event<E>)
    requires Nested(lib)
    ensures SomeWakes(lib, [e]) <==> Wakes(lib, e)
  {
    assert [e][0] == e;
  }

  /** A poll, through any depth of awaits, has called the waker exactly if a body that
      it ran did. */
  lemma {:induction false} WokeIff<E(!new), V(!new)>(lib: Library<E, V>, f: Future<E, V>, o: Outcome<E, V>)
    requires Nested(lib) && Fits(lib, f) && f.counter > 0 && o == Poll(lib, f)
    ensures o.woke <==> SomeWakes(lib, o.events)
    decreases f.fn, 1, 0, 0
  {
    match f.awaiting
    case None => ScanWokeIff(lib, f, 0, o);
    case Some(a) =>
      assert Fits(lib, a.child);
      var n := a.child.(counter := a.child.counter + 1);
      var inner := Poll(lib, n);
      WokeIff(lib, n, inner);
      if inner.status.Ready? {
        var g := f.(env := a.out(f.env, inner.status.value), awaiting := None);
        var resumed := Scan(lib, g, 0);
        ScanWokeIff(lib, g, 0, resumed);
        WakesInParts(lib, inner.events, resumed.events);
      }
  }

  lemma {:induction false} ScanWokeIff<E(!new), V(!new)>(lib: Library<E, V>, f: Future<E, V>, con: nat,
          o: Outcome<E, V>)
    requires Nested(lib) && Fits(lib, f) && f.awaiting.None? && con <= |lib[f.fn]| && o == Scan(lib, f, con)
    ensures o.woke <==> SomeWakes(lib, o.events)
    decreases f.fn, 0, |lib[f.fn]| - con, 1
  {
    if con < |lib[f.fn]| {
      if con + 1 != f.counter {
        ScanWokeIff(lib, f, con + 1, o);
      } else if lib[f.fn][con].Plain? {
        BodyWokeIff(lib, f, con, Ran(f.fn, con, f.env), o);
      } else if lib[f.fn][con].cond(f.env) {
        BodyWokeIff(lib, f.(counter := f.counter - 1), con, Looped(f.fn, con, f.env), o);
      } else {
        var event, next := Skipped(f.fn, con, f.env), Scan(lib, f.(counter := f.counter + 1), con + 1);
        ScanWokeIff(lib, f.(counter := f.counter + 1), con + 1, next);
        WakesAlone(lib, event);
        WakesInParts(lib, [event], next.events);
      }
    }
  }

  lemma {:induction false} BodyWokeIff<E(!new), V(!new)>(lib: Library<E, V>, f: Future<E, V>, con: nat,
          event: Event<E>, o: Outcome<E, V>)
    requires Nested(lib) && Fits(lib, f) && f.awaiting.None? && con < |lib[f.fn]|
    requires f.counter == con + 1 || f.counter == con
    requires event == Ran(f.fn, con, f.env) || event == Looped(f.fn, con, f.env)
    requires o == RunBody(lib, f, con, event)
    ensures o.woke <==> SomeWakes(lib, o.events)
    decreases f.fn, 0, |lib[f.fn]| - con, 0
  {
    var (env, exit, _) := lib[f.fn][con].body(f.env);
    WakesAlone(lib, event);
    if exit.FallThrough? {
      ScanPassed(lib, f.(env := env), con + 1);
      assert [event] + [] == [event];
    } else if exit.Await? {
      var child := Future(exit.callee, 1, exit.args, None);
      var inner := Poll(lib, child);
      WokeIff(lib, child, inner);
      WakesInParts(lib, [event], inner.events);
    }
  }

  // ---- status ----

  /** The last event of the function fn itself, not of those that it awaits. */
  function LastOwn<E>(events: seq<Event<E>>, fn: nat): Option<Event<E>> {
    if events == [] then None
    else if events[|events| - 1].fn == fn then Some(events[|events| - 1])
    else LastOwn(events[..|events| - 1], fn)
  }

  /** What the end of the last body means to the caller. */
  function Reported<E, V>(lib: Library<E, V>, last: Option<Event<E>>): Status<V> {
    match last
    case Some(e) =>
      if e.Skipped? || e.fn >= |lib| || e.scope >= |lib[e.fn]| then Undefined
      else (
        match lib[e.fn][e.scope].body(e.env).1
        case Return(v) => Ready(v)
        case FallThrough => Undefined
        case _ => Pending)
    case None => Undefined
  }

  predicate Below<E>(events: seq<Event<E>>, fn: nat) {
    forall k :: 0 <= k < |events| ==> events[k].fn < fn
  }

  lemma {:induction false} NothingOwn<E>(events: seq<Event<E>>, fn: nat)
    requires Below(events, fn)
    ensures LastOwn(events, fn) == None
    decreases |events|
  {
    if events != [] {
      NothingOwn(events[..|events| - 1], fn);
    }
  }

  /** Events of awaited functions do not matter. */
  lemma {:induction false} LastOfParts<E>(a: seq<Event<E>>, b: seq<Event<E>>, fn: nat)
    ensures LastOwn(a + b, fn) == if LastOwn(b, fn).Some? then LastOwn(b, fn) else LastOwn(a, fn)
    decreases |b|
  {
    if b == [] {
      assert a + b == a;
    } else {
      var init := b[..|b| - 1];
      assert (a + b)[..|a + b| - 1] == a + init && (a + b)[|a + b| - 1] == b[|b| - 1];
      LastOfParts(a, init, fn);
    }
  }

  lemma LastAlone<E>(e: Event<E>)
    ensures LastOwn([e], e.fn) == Some(e)
  {
  }

  /** A poll runs bodies of its own function and of functions of smaller rank. */
  lemma {:induction false} EventsBelow<E(!new), V(!new)>(lib: Library<E, V>, f: Future<E, V>, o: Outcome<E, V>)
    requires Nested(lib) && Fits(lib, f) && f.counter > 0 && o == Poll(lib, f)
    ensures Below(o.events, f.fn + 1)
    decreases f.fn, 1, 0, 0
  {
    match f.awaiting
    case None => ScanBelow(lib, f, 0, o);
    case Some(a) =>
      assert Fits(lib, a.child);
      var n := a.child.(counter := a.child.counter + 1);
      var inner := Poll(lib, n);
      EventsBelow(lib, n, inner);
      if inner.status.Ready? {
        var g := f.(env := a.out(f.env, inner.status.value), awaiting := None);
        ScanBelow(lib, g, 0, Scan(lib, g, 0));
      }
  }

  lemma {:induction false} ScanBelow<E(!new), V(!new)>(lib: Library<E, V>, f: Future<E, V>, con: nat,
          o: Outcome<E, V>)
    requires Nested(lib) && Fits(lib, f) && f.awaiting.None? && con <= |lib[f.fn]| && o == Scan(lib, f, con)
    ensures Below(o.events, f.fn + 1)
    decreases f.fn, 0, |lib[f.fn]| - con, 1
  {
    if con < |lib[f.fn]| {
      if con + 1 != f.counter {
        ScanBelow(lib, f, con + 1, o);
      } else if lib[f.fn][con].Plain? {
        BodyBelow(lib, f, con, Ran(f.fn, con, f.env), o);
      } else if lib[f.fn][con].cond(f.env) {
        BodyBelow(lib, f.(counter := f.counter - 1), con, Looped(f.fn, con, f.env), o);
      } else {
        var g := f.(counter := f.counter + 1);
        ScanBelow(lib, g, con + 1, Scan(lib, g, con + 1));
      }
    }
  }

  lemma {:induction false} BodyBelow<E(!new), V(!new)>(lib: Library<E, V>, f: Future<E, V>, con: nat,
          event: Event<E>, o: Outcome<E, V>)
    requires Nested(lib) && Fits(lib, f) && f.awaiting.None? && con < |lib[f.fn]| && event.fn == f.fn
    requires f.counter == con + 1 || f.counter == con
    requires o == RunBody(lib, f, con, event)
    ensures Below(o.events, f.fn + 1)
    decreases f.fn, 0, |lib[f.fn]| - con, 0
  {
    var (env, exit, _) := lib[f.fn][con].body(f.env);
    if exit.FallThrough? {
      ScanPassed(lib, f.(env := env), con + 1);
    } else if exit.Await? {
      var child := Future(exit.callee, 1, exit.args, None);
      EventsBelow(lib, child, Poll(lib, child));
    }
  }

  /** The status of a poll: pending while something is awaited, else what the last body
      of the function itself says; undefined when it ran none. */
  lemma {:induction false} StatusIs<E(!new), V(!new)>(lib: Library<E, V>, f: Future<E, V>, o: Outcome<E, V>)
    requires Nested(lib) && Fits(lib, f) && f.counter > 0 && o == Poll(lib, f)
    ensures o.status == if o.future.awaiting.Some? then Pending else Reported(lib, LastOwn(o.events, f.fn))
  {
    match f.awaiting
    case None => ScanStatusIs(lib, f, 0, o);
    case Some(a) =>
      assert Fits(lib, a.child);
      var n := a.child.(counter := a.child.counter + 1);
      var inner := Poll(lib, n);
      if inner.status.Ready? {
        var g := f.(env := a.out(f.env, inner.status.value), awaiting := None);
        var resumed := Scan(lib, g, 0);
        ScanStatusIs(lib, g, 0, resumed);
        EventsBelow(lib, n, inner);
        NothingOwn(inner.events, f.fn);
        LastOfParts(inner.events, resumed.events, f.fn);
      }
  }

  lemma {:induction false} ScanStatusIs<E(!new), V(!new)>(lib: Library<E, V>, f: Future<E, V>, con: nat,
          o: Outcome<E, V>)
    requires Nested(lib) && Fits(lib, f) && f.awaiting.None? && con <= |lib[f.fn]| && o == Scan(lib, f, con)
    ensures o.status == if o.future.awaiting.Some? then Pending else Reported(lib, LastOwn(o.events, f.fn))
    decreases |lib[f.fn]| - con
  {
    if con < |lib[f.fn]| {
      if con + 1 != f.counter {
        ScanStatusIs(lib, f, con + 1, o);
      } else if lib[f.fn][con].Plain? {
        BodyStatusIs(lib, f, con, Ran(f.fn, con, f.env), o);
      } else if lib[f.fn][con].cond(f.env) {
        BodyStatusIs(lib, f.(counter := f.counter - 1), con, Looped(f.fn, con, f.env), o);
      } else {
        var event, g := Skipped(f.fn, con, f.env), f.(counter := f.counter + 1);
        var next := Scan(lib, g, con + 1);
        ScanStatusIs(lib, g, con + 1, next);
        LastAlone(event);
        LastOfParts([event], next.events, f.fn);
      }
    }
  }

  lemma BodyStatusIs<E(!new), V(!new)>(lib: Library<E, V>, f: Future<E, V>, con: nat, event: Event<E>,
          o: Outcome<E, V>)
    requires Nested(lib) && Fits(lib, f) && f.awaiting.None? && con < |lib[f.fn]|
    requires f.counter == con + 1 || f.counter == con
    requires event == Ran(f.fn, con, f.env) || event == Looped(f.fn, con, f.env)
    requires o == RunBody(lib, f, con, event)
    ensures o.status == if o.future.awaiting.Some? then Pending else Reported(lib, LastOwn(o.events, f.fn))
  {
    var (env, exit, _) := lib[f.fn][con].body(f.env);
    LastAlone(event);
    if exit.FallThrough? {
      ScanPassed(lib, f.(env := env), con + 1);
      assert [event] + [] == [event];
    } else if exit.Await? {
      var child := Future(exit.callee, 1, exit.args, None);
      var inner := Poll(lib, child);
      EventsBelow(lib, child, inner);
      NothingOwn(inner.events, f.fn);
      LastOfParts([event], inner.events, f.fn);
    }
  }
}
