/** The counter machine against the structured reading: a program is run scope by
    scope, a while scope repeats, and await is a call. */
module CoroutineLaws {
  import opened Options
  import opened Coroutine
  import opened Sequences

  // ---- the structured reading ----

  /** A call in progress: what is left of its function, and where its value goes
      in the caller. */
  datatype Frame<!E, !V> = Frame(fn: nat, rest: seq<Scope<E, V>>, env: E, out: (E, V) -> E)

  /** The innermost call comes first. */
  datatype Thread<!E, !V> = Running(stack: seq<Frame<E, V>>) | Done(value: V)

  /** A value is returned to the calls below. */
  ghost function Deliver<E, V>(below: seq<Frame<E, V>>, out: (E, V) -> E, v: V): Thread<E, V> {
    if below == [] then Done(v)
    else Running([below[0].(env := out(below[0].env, v))] + below[1..])
  }

  function Drop<E, V>(scopes: seq<Scope<E, V>>, n: nat): seq<Scope<E, V>> {
    if n <= |scopes| then scopes[n..] else []
  }

  /** After a body: a yield goes on with what is left, a break leaves the scope
      (and, misused in a plain scope, skips the next one as well), a return ends
      the call, and an await starts one. */
  ghost function AfterBody<E, V>(lib: Library<E, V>, top: Frame<E, V>, below: seq<Frame<E, V>>, exit: Exit<E,
          V>): Thread<E, V> {
    match exit
    case Return(v) => Deliver(below, top.out, v)
    case Break => Running([top.(rest := Drop(top.rest, 1))] + below)
    case Await(callee, args, out) =>
      if callee < |lib| then Running([Frame(callee, lib[callee], args, out)] + ([top] + below))
      else Running([top] + below)
    case _ => Running([top] + below)
  }

  ghost predicate CanStep<E, V>(t: Thread<E, V>) {
    t.Running? && t.stack != [] && t.stack[0].rest != []
  }

  /** One step runs one body or fails one condition. */
  ghost function Step<E, V>(lib: Library<E, V>, t: Thread<E, V>): (Thread<E, V>, Event<E>)
    requires CanStep(t)
  {
    var top, below := t.stack[0], t.stack[1..];
    var scope, left := top.rest[0], top.rest[1..];
    var k := if top.fn < |lib| && |top.rest| <= |lib[top.fn]| then |lib[top.fn]| - |top.rest| else 0;
    match scope
    case Plain(body) =>
      var (env, exit, _) := body(top.env);
      (AfterBody(lib, top.(rest := left, env := env), below, exit), Ran(top.fn, k, top.env))
    case While(cond, body) =>
      if cond(top.env) then
        var (env, exit, _) := body(top.env);
        (AfterBody(lib, top.(env := env), below, exit), Looped(top.fn, k, top.env))
      else
        (Running([top.(rest := left)] + below), Skipped(top.fn, k, top.env))
  }

  /** t reaches u by steps that make exactly the given events. */
  ghost predicate Steps<E, V>(lib: Library<E, V>, t: Thread<E, V>, events: seq<Event<E>>, u: Thread<E, V>)
    decreases |events|
  {
    if events == [] then t == u
    else CanStep(t) && Step(lib, t).1 == events[0] && Steps(lib, Step(lib, t).0, events[1..], u)
  }

  lemma OneThen<E, V>(lib: Library<E, V>, t: Thread<E, V>, events: seq<Event<E>>, u: Thread<E, V>)
    requires events != [] && CanStep(t) && Step(lib, t).1 == events[0] && Steps(lib, Step(lib, t).0, events[1..], u)
    ensures Steps(lib, t, events, u)
  {
  }

  lemma {:induction false} StepsCompose<E, V>(lib: Library<E, V>, t: Thread<E, V>, a: seq<Event<E>>, u: Thread<E, V>,
          b: seq<Event<E>>, v: Thread<E, V>)
    requires Steps(lib, t, a, u) && Steps(lib, u, b, v)
    ensures Steps(lib, t, a + b, v)
    decreases |a|
  {
    AppendTail(a, b);
    if a != [] {
      var m := Step(lib, t).0;
      StepsCompose(lib, m, a[1..], u, b, v);
      OneThen(lib, t, a + b, v);
    }
  }

  // ---- the calls behind a future ----

  /** The calls that a future stands for between two polls. */
  ghost function Calls<E, V>(lib: Library<E, V>, f: Future<E, V>, out: (E, V) -> E): seq<Frame<E, V>>
    requires Fits(lib, f)
    decreases f
  {
    (if f.awaiting.Some? then Calls(lib, f.awaiting.value.child, f.awaiting.value.out) else [])
    + [Frame(f.fn, Drop(lib[f.fn], f.counter), f.env, out)]
  }

  /** Where the thread is after a poll: the value has been delivered, or the
      future's calls are on top of the calls below. */
  ghost function After<E, V>(lib: Library<E, V>, o: Outcome<E, V>, out: (E, V) -> E, below: seq<Frame<E,
          V>>): Thread<E, V>
    requires Fits(lib, o.future)
  {
    match o.status
    case Ready(v) => Deliver(below, out, v)
    case _ => Running(Calls(lib, o.future, out) + below)
  }

  /** Past the scope that the counter names, the scan finds nothing. */
  lemma {:induction false} ScanPassed<E(!new), V(!new)>(lib: Library<E, V>, f: Future<E, V>, con: nat)
    requires Nested(lib) && Fits(lib, f) && f.awaiting.None? && f.counter <= con <= |lib[f.fn]|
    ensures Scan(lib, f, con) == Outcome(f, Undefined, false, [], [])
    decreases |lib[f.fn]| - con
  {
    if con < |lib[f.fn]| {
      ScanPassed(lib, f, con + 1);
    }
  }

  /** The single call of a future that awaits nothing. */
  ghost function Call<E, V>(lib: Library<E, V>, f: Future<E, V>, from: nat, out: (E, V) -> E): Frame<E, V>
    requires f.fn < |lib|
  {
    Frame(f.fn, Drop(lib[f.fn], from), f.env, out)
  }

  lemma FirstStep<E(!new), V(!new)>(lib: Library<E, V>, f: Future<E, V>, con: nat, out: (E, V) -> E,
          below: seq<Frame<E, V>>)
    requires f.fn < |lib| && con < |lib[f.fn]|
    ensures var scope := lib[f.fn][con]; var (env, exit, _) := scope.body(f.env);
            var t := Running([Call(lib, f, con, out)] + below);
            && CanStep(t)
            && Step(lib, t) ==
               (if scope.Plain? then
                  (AfterBody(lib, Call(lib, f.(env := env), con + 1, out), below, exit), Ran(f.fn, con, f.env))
                else if scope.cond(f.env) then
                  (AfterBody(lib, Call(lib, f.(env := env), con, out), below, exit), Looped(f.fn, con, f.env))
                else
                  (Running([Call(lib, f, con + 1, out)] + below), Skipped(f.fn, con, f.env)))
  {
  }

  /** While the awaited call is still running, the caller's call is below it. */
  lemma AwaitingAfter<E(!new), V(!new)>(lib: Library<E, V>, f: Future<E, V>, inner: Outcome<E, V>, give: (E, V) -> E,
          out: (E, V) -> E, below: seq<Frame<E, V>>)
    requires Fits(lib, inner.future) && inner.future.fn < f.fn < |lib| && !inner.status.Ready?
    ensures var g := f.(awaiting := Some(Awaited(inner.future, give)));
            Fits(lib, g) &&
            After(lib, inner, give, [Call(lib, f, f.counter, out)] + below) == Running(Calls(lib, g, out) + below)
  {
    CallsSplit(lib, f.(awaiting := Some(Awaited(inner.future, give))), out, below);
  }

  lemma DeliveredAfter<E(!new), V(!new)>(lib: Library<E, V>, f: Future<E, V>, inner: Outcome<E, V>,
          give: (E, V) -> E, out: (E, V) -> E, below: seq<Frame<E, V>>)
    requires Fits(lib, inner.future) && f.fn < |lib| && inner.status.Ready?
    ensures After(lib, inner, give, [Call(lib, f, f.counter, out)] + below) ==
            Running([Call(lib, f.(env := give(f.env, inner.status.value)), f.counter, out)] + below)
  {
  }

  lemma CallsSplit<E(!new), V(!new)>(lib: Library<E, V>, f: Future<E, V>, out: (E, V) -> E, below: seq<Frame<E, V>>)
    requires Fits(lib, f)
    ensures f.awaiting.None? ==> Calls(lib, f, out) == [Call(lib, f, f.counter, out)]
    ensures f.awaiting.Some? ==>
              Fits(lib, f.awaiting.value.child) &&
              Calls(lib, f, out) + below ==
              Calls(lib, f.awaiting.value.child, f.awaiting.value.out) + ([Call(lib, f, f.counter, out)] + below)
  {
  }

  /** One poll of a future runs the structured program behind it from where it
      is, body by body and condition by condition, to where the future then is;
      a poll that reports ready has run it to its return. */
  lemma {:induction false} PollRefines<E(!new), V(!new)>(lib: Library<E, V>, f: Future<E, V>, out: (E, V) -> E,
          below: seq<Frame<E, V>>, o: Outcome<E, V>)
    requires Nested(lib) && Fits(lib, f) && o == Poll(lib, f.(counter := f.counter + 1))
    ensures Steps(lib, Running(Calls(lib, f, out) + below), o.events, After(lib, o, out, below))
    decreases f.fn, 1, 0, 0
  {
    var n := f.(counter := f.counter + 1);
    CallsSplit(lib, f, out, below);
    PollUnfold(lib, n, o);
    match f.awaiting
    case None =>
      ScanRefines(lib, n, 0, out, below);
    case Some(a) =>
      var inner := Poll(lib, a.child.(counter := a.child.counter + 1));
      PollRefines(lib, a.child, a.out, [Call(lib, f, f.counter, out)] + below, inner);
      if inner.status.Ready? {
        ResumedRefines(lib, f, a.out, inner, o, out, below);
      } else {
        AwaitingAfter(lib, f, inner, a.out, out, below);
        StillAwaits(lib, f, inner, o, out, below);
      }
  }

  /** What a poll does, the awaited future first. */
  lemma PollUnfold<E(!new), V(!new)>(lib: Library<E, V>, n: Future<E, V>, o: Outcome<E, V>)
    requires Nested(lib) && Fits(lib, n) && n.counter > 0 && o == Poll(lib, n)
    ensures n.awaiting.None? ==> o == Scan(lib, n, 0)
    ensures n.awaiting.Some? ==>
              var a := n.awaiting.value;
              && Fits(lib, a.child)
              && var inner := Poll(lib, a.child.(counter := a.child.counter + 1));
              if inner.status.Ready? then
                var resumed := Scan(lib, n.(env := a.out(n.env, inner.status.value), awaiting := None), 0);
                && o.events == inner.events + resumed.events
                && o.future == resumed.future && o.status == resumed.status
              else
                && o.events == inner.events && o.status.Pending?
                && o.future == n.(counter := n.counter - 1, awaiting := Some(a.(child := inner.future)))
  {
  }

  /** The awaited call has returned its value, and the caller's scopes run on. */
  lemma {:induction false} ResumedRefines<E(!new), V(!new)>(lib: Library<E, V>, f: Future<E, V>, give: (E, V) -> E,
          inner: Outcome<E, V>, o: Outcome<E, V>, out: (E, V) -> E, below: seq<Frame<E, V>>)
    requires Nested(lib) && Fits(lib, f) && Fits(lib, inner.future) && inner.status.Ready?
    requires var g := f.(counter := f.counter + 1, env := give(f.env, inner.status.value), awaiting := None);
             var resumed := Scan(lib, g, 0);
             && o.events == inner.events + resumed.events
             && o.future == resumed.future && o.status == resumed.status
    requires Steps(lib, Running(Calls(lib, f, out) + below), inner.events,
                   After(lib, inner, give, [Call(lib, f, f.counter, out)] + below))
    ensures Steps(lib, Running(Calls(lib, f, out) + below), o.events, After(lib, o, out, below))
    decreases f.fn, 0, |lib[f.fn]|, 2
  {
    var g := f.(counter := f.counter + 1, env := give(f.env, inner.status.value), awaiting := None);
    DeliveredAfter(lib, f, inner, give, out, below);
    ScanRefines(lib, g, 0, out, below);
    ReadyThenScan(lib, f, inner, g, Scan(lib, g, 0), o, out, below);
  }

  /** The awaited call has returned, and the scopes go on from there. */
  lemma ReadyThenScan<E(!new), V(!new)>(lib: Library<E, V>, f: Future<E, V>, inner: Outcome<E, V>, g: Future<E, V>,
          resumed: Outcome<E, V>, o: Outcome<E, V>, out: (E, V) -> E, below: seq<Frame<E, V>>)
    requires Fits(lib, f) && f.fn < |lib| && g.fn == f.fn && Fits(lib, resumed.future)
    requires o.events == inner.events + resumed.events && o.future == resumed.future && o.status == resumed.status
    requires Steps(lib, Running(Calls(lib, f, out) + below), inner.events,
                   Running([Call(lib, g, f.counter, out)] + below))
    requires Steps(lib, Running([Call(lib, g, f.counter, out)] + below), resumed.events,
                   After(lib, resumed, out, below))
    ensures Steps(lib, Running(Calls(lib, f, out) + below), o.events, After(lib, o, out, below))
  {
    var t, u, v := Running(Calls(lib, f, out) + below), Running([Call(lib, g, f.counter, out)] + below),
                   After(lib, resumed, out, below);
    StepsCompose(lib, t, inner.events, u, resumed.events, v);
  }

  /** The awaited call has not returned: the caller stays below it. */
  lemma StillAwaits<E(!new), V(!new)>(lib: Library<E, V>, f: Future<E, V>, inner: Outcome<E, V>, o: Outcome<E, V>,
          out: (E, V) -> E, below: seq<Frame<E, V>>)
    requires Fits(lib, f) && f.awaiting.Some? && Fits(lib, inner.future) && inner.future.fn < f.fn
    requires o.events == inner.events && o.status.Pending?
    requires o.future == f.(awaiting := Some(Awaited(inner.future, f.awaiting.value.out)))
    requires Steps(lib, Running(Calls(lib, f, out) + below), inner.events, Running(Calls(lib, o.future, out) + below))
    ensures Steps(lib, Running(Calls(lib, f, out) + below), o.events, After(lib, o, out, below))
  {
  }

  lemma {:induction false} ScanRefines<E(!new), V(!new)>(lib: Library<E, V>, f: Future<E, V>, con: nat,
          out: (E, V) -> E, below: seq<Frame<E, V>>)
    requires Nested(lib) && Fits(lib, f) && f.awaiting.None? && con < f.counter && con <= |lib[f.fn]|
    ensures var o := Scan(lib, f, con);
            Steps(lib, Running([Call(lib, f, f.counter - 1, out)] + below), o.events, After(lib, o, out, below))
    decreases f.fn, 0, |lib[f.fn]| - con, 1
  {
    var o := Scan(lib, f, con);
    if con == |lib[f.fn]| {
      assert Calls(lib, f, out) == [Call(lib, f, f.counter - 1, out)];
    } else if con + 1 != f.counter {
      ScanRefines(lib, f, con + 1, out, below);
    } else {
      var scope := lib[f.fn][con];
      FirstStep(lib, f, con, out, below);
      if scope.Plain? {
        RunBodyRefines(lib, f, con, Ran(f.fn, con, f.env), out, below);
      } else if scope.cond(f.env) {
        RunBodyRefines(lib, f.(counter := con), con, Looped(f.fn, con, f.env), out, below);
      } else {
        var skipped := f.(counter := f.counter + 1);
        ScanRefines(lib, skipped, con + 1, out, below);
        assert Call(lib, skipped, con + 1, out) == Call(lib, f, con + 1, out);
        OneThen(lib, Running([Call(lib, f, con, out)] + below), o.events, After(lib, o, out, below));
      }
    }
  }

  lemma {:induction false} RunBodyRefines<E(!new), V(!new)>(lib: Library<E, V>, f: Future<E, V>, con: nat,
          event: Event<E>, out: (E, V) -> E, below: seq<Frame<E, V>>)
    requires Nested(lib) && Fits(lib, f) && f.awaiting.None? && con < |lib[f.fn]|
    requires f.counter == con + 1 || f.counter == con
    requires var t := Running([Call(lib, f, con, out)] + below); var (env, exit, _) := lib[f.fn][con].body(f.env);
             CanStep(t) && Step(lib, t) == (AfterBody(lib, Call(lib, f.(env := env), f.counter, out), below, exit),
                 event)
    ensures var o := RunBody(lib, f, con, event);
            Steps(lib, Running([Call(lib, f, con, out)] + below), o.events, After(lib, o, out, below))
    decreases f.fn, 0, |lib[f.fn]| - con, 0
  {
    var t := Running([Call(lib, f, con, out)] + below);
    var (env, exit, _) := lib[f.fn][con].body(f.env);
    var g, o := f.(env := env), RunBody(lib, f, con, event);
    if exit.Await? {
      AwaitRefines(lib, g, con, event, exit.callee, exit.args, exit.out, out, below);
      var inner := Poll(lib, Future(exit.callee, 1, exit.args, None));
      CallsSplit(lib, o.future, out, below);
      EventThen(lib, t, event, inner.events, After(lib, o, out, below));
    } else {
      SimpleBody(lib, f, con, event, out, below);
      EventThen(lib, t, event, [], After(lib, o, out, below));
    }
  }

  lemma EventThen<E, V>(lib: Library<E, V>, t: Thread<E, V>, event: Event<E>, events: seq<Event<E>>, u: Thread<E, V>)
    requires CanStep(t) && Step(lib, t).1 == event && Steps(lib, Step(lib, t).0, events, u)
    ensures Steps(lib, t, [event] + events, u)
  {
  }

  /** The ends of a body that start no call. */
  lemma SimpleBody<E(!new), V(!new)>(lib: Library<E, V>, f: Future<E, V>, con: nat, event: Event<E>,
          out: (E, V) -> E, below: seq<Frame<E, V>>)
    requires Nested(lib) && Fits(lib, f) && f.awaiting.None? && con < |lib[f.fn]|
    requires f.counter == con + 1 || f.counter == con
    requires !lib[f.fn][con].body(f.env).1.Await?
    ensures var (env, exit, _) := lib[f.fn][con].body(f.env); var o := RunBody(lib, f, con, event);
            && o.events == [event] + []
            && AfterBody(lib, Call(lib, f.(env := env), f.counter, out), below, exit) == After(lib, o, out, below)
  {
    var (env, exit, _) := lib[f.fn][con].body(f.env);
    var g, o := f.(env := env), RunBody(lib, f, con, event);
    if exit.FallThrough? {
      ScanPassed(lib, g, con + 1);
    }
    CallsSplit(lib, g, out, below);
    CallsSplit(lib, o.future, out, below);
    assert [event] + [] == [event];
  }

  lemma StartedCall<E(!new), V(!new)>(lib: Library<E, V>, mine: Frame<E, V>, below: seq<Frame<E, V>>, callee: nat,
          args: E, give: (E, V) -> E)
    requires callee < |lib|
    ensures AfterBody(lib, mine, below, Await(callee, args, give)) ==
            Running(Calls(lib, Future(callee, 0, args, None), give) + ([mine] + below))
  {
    assert lib[callee][0..] == lib[callee];
    CallsSplit(lib, Future(callee, 0, args, None), give, []);
  }

  /** The first poll of a future just awaited, made by the awaiting body. */
  lemma {:induction false} AwaitRefines<E(!new), V(!new)>(lib: Library<E, V>, g: Future<E, V>, con: nat,
          event: Event<E>, callee: nat, args: E, give: (E, V) -> E, out: (E, V) -> E, below: seq<Frame<E, V>>)
    requires Nested(lib) && Fits(lib, g) && g.awaiting.None? && con < |lib[g.fn]| && callee < g.fn
    ensures var mine := Call(lib, g, g.counter, out);
            var inner := Poll(lib, Future(callee, 1, args, None));
            var started := AfterBody(lib, mine, below, Await(callee, args, give));
            && (inner.status.Ready? ==>
                  Steps(lib, started, inner.events, Running([mine.(env := give(g.env, inner.status.value))] + below)))
            && (!inner.status.Ready? ==>
                  var h := g.(awaiting := Some(Awaited(inner.future, give)));
                  Fits(lib, h) && Steps(lib, started, inner.events, Running(Calls(lib, h, out) + below)))
    decreases g.fn, 0, 0, 0
  {
    var mine := Call(lib, g, g.counter, out);
    var child := Future(callee, 0, args, None);
    var inner := Poll(lib, Future(callee, 1, args, None));
    StartedCall(lib, mine, below, callee, args, give);
    PollRefines(lib, child, give, [mine] + below, inner);
    if inner.status.Ready? {
      DeliveredAfter(lib, g, inner, give, out, below);
    } else {
      AwaitingAfter(lib, g, inner, give, out, below);
    }
  }

  /** A break leaves exactly its own scope if it stands in a while scope or in the
      last scope; in any other plain scope the next scope is skipped as well. */
  lemma BreakLeavesScopeIff<E(!new), V(!new)>(lib: Library<E, V>, f: Future<E, V>, con: nat)
    requires Nested(lib) && Fits(lib, f) && f.awaiting.None? && con < |lib[f.fn]|
    requires f.counter == con + 1 && lib[f.fn][con].body(f.env).1.Break?
    requires lib[f.fn][con].While? ==> lib[f.fn][con].cond(f.env)
    ensures Drop(lib[f.fn], Scan(lib, f, con).future.counter) == Drop(lib[f.fn], con + 1) <==>
            lib[f.fn][con].While? || con + 1 == |lib[f.fn]|
  {
  }
}
