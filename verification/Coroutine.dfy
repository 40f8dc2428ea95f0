/** The stackless coroutine machine of include/taskio/async.h: a future holds a
    counter instead of a program point. */
module Coroutine {
  import opened Options

  /** SIZE_MAX, the counter that asks a future to clean up. */
  const CLEANUP_COUNTER: nat := 0xffff_ffff_ffff_ffff

  /** How the body of a scope ends. Await starts a call of a library function
      and names where its value goes; falling off the end is a client error. */
  datatype Exit<!E, !V> =
    | Yield
    | Suspend
    | Break
    | Return(value: V)
    | Await(callee: nat, args: E, out: (E, V) -> E)
    | FallThrough

  /** A body reads and writes the environment of its future. It also says whether it
      has called the waker by hand, as the body of a join does for every child that
      is woken while it polls its children. */
  datatype Scope<!E, !V> =
    | Plain(body: E -> (E, Exit<E, V>, bool))
    | While(cond: E -> bool, body: E -> (E, Exit<E, V>, bool))

  /** All async functions, each a sequence of scopes. */
  type Library<!E, !V> = seq<seq<Scope<E, V>>>

  datatype Future<!E, !V> = Future(fn: nat, counter: nat, env: E, awaiting: Option<Awaited<E, V>>)

  datatype Awaited<!E, !V> = Awaited(child: Future<E, V>, out: (E, V) -> E)

  /** A body that ran in a plain scope, a body that ran after its condition held,
      or a condition that failed; with the environment found. */
  datatype Event<!E> =
    | Ran(fn: nat, scope: nat, env: E)
    | Looped(fn: nat, scope: nat, env: E)
    | Skipped(fn: nat, scope: nat, env: E)

  datatype Status<!V> = Undefined | Pending | Ready(value: V)

  /** A future of the given function is started by an await, or cleaned up. */
  datatype Life = Started(fn: nat) | Cleaned(fn: nat)

  /** What one poll does; lives lists starts and cleanups in order. */
  datatype Outcome<!E, !V> = Outcome(
    future: Future<E, V>,
    status: Status<V>,
    woke: bool,
    events: seq<Event<E>>,
    lives: seq<Life>)

  // ---- well-formedness ----

  /** A future embeds the future it awaits, so function k awaits only functions
      of smaller rank. */
  ghost predicate Nested<E(!new), V(!new)>(lib: Library<E, V>) {
    forall k, i, e ::
      0 <= k < |lib| && 0 <= i < |lib[k]| && lib[k][i].body(e).1.Await? ==> lib[k][i].body(e).1.callee < k
  }

  ghost predicate Fits<E, V>(lib: Library<E, V>, f: Future<E, V>)
    decreases f
  {
    && f.fn < |lib|
    && (f.awaiting.Some? ==> f.awaiting.value.child.fn < f.fn && Fits(lib, f.awaiting.value.child))
  }

  // ---- the machine ----

  /** Cleanup reaches the awaited future first. It runs no scope, since no scope
      number equals the cleanup counter. */
  function Cleanup<E, V>(f: Future<E, V>): (order: seq<nat>)
    ensures f.awaiting.None? ==> order == [f.fn]
    decreases f
  {
    (if f.awaiting.Some? then Cleanup(f.awaiting.value.child) else []) + [f.fn]
  }

  function Logged(fns: seq<nat>): seq<Life> {
    if fns == [] then [] else [Cleaned(fns[0])] + Logged(fns[1..])
  }

  /** The poll function, entered with a counter that the poller has advanced:
      first the awaited future, then the scopes. */
  ghost function Poll<E(!new), V(!new)>(lib: Library<E, V>, f: Future<E, V>): (o: Outcome<E, V>)
    requires Nested(lib) && Fits(lib, f) && f.counter > 0
    ensures Fits(lib, o.future) && o.future.fn == f.fn
    ensures o.status.Ready? ==> o.future.awaiting.None?
    decreases f.fn, 1, 0, 0
  {
    match f.awaiting
    case None => Scan(lib, f, 0)
    case Some(a) =>
      assert Fits(lib, a.child);
      var inner := Poll(lib, a.child.(counter := a.child.counter + 1));
      match inner.status
      case Ready(v) =>
        var resumed := Scan(lib, f.(env := a.out(f.env, v), awaiting := None), 0);
        resumed.(events := inner.events + resumed.events,
                 woke := inner.woke || resumed.woke,
                 lives := inner.lives + (Logged(Cleanup(inner.future)) + resumed.lives))
      case _ =>
        Outcome(f.(counter := f.counter - 1, awaiting := Some(a.(child := inner.future))),
                Pending, inner.woke, inner.events, inner.lives)
  }

  /** The scopes in textual order; con is the number of those passed. */
  ghost function Scan<E(!new), V(!new)>(lib: Library<E, V>, f: Future<E, V>, con: nat): (o: Outcome<E, V>)
    requires Nested(lib) && Fits(lib, f) && f.awaiting.None? && con <= |lib[f.fn]|
    ensures Fits(lib, o.future) && o.future.fn == f.fn
    ensures o.status.Ready? ==> o.future.awaiting.None?
    decreases f.fn, 0, |lib[f.fn]| - con, 1
  {
    if con == |lib[f.fn]| then Outcome(f, Undefined, false, [], [])
    else if con + 1 != f.counter then Scan(lib, f, con + 1)
    else
      match lib[f.fn][con]
      case Plain(_) => RunBody(lib, f, con, Ran(f.fn, con, f.env))
      case While(cond, _) =>
        if cond(f.env) then RunBody(lib, f.(counter := f.counter - 1), con, Looped(f.fn, con, f.env))
        else
          var next := Scan(lib, f.(counter := f.counter + 1), con + 1);
          next.(events := [Skipped(f.fn, con, f.env)] + next.events)
  }

  /** The body of scope con and the macro that ends it. */
  ghost function RunBody<E(!new), V(!new)>(lib: Library<E, V>, f: Future<E, V>, con: nat,
          event: Event<E>): (o: Outcome<E, V>)
    requires Nested(lib) && Fits(lib, f) && f.awaiting.None? && con < |lib[f.fn]|
    requires f.counter == con + 1 || f.counter == con
    ensures Fits(lib, o.future) && o.future.fn == f.fn
    ensures o.status.Ready? ==> o.future.awaiting.None?
    decreases f.fn, 0, |lib[f.fn]| - con, 0
  {
    var (env, exit, byHand) := lib[f.fn][con].body(f.env);
    var g := f.(env := env);
    match exit
    case Yield => Outcome(g, Pending, true, [event], [])
    case Suspend => Outcome(g, Pending, byHand, [event], [])
    case Break => Outcome(g.(counter := g.counter + 1), Pending, true, [event], [])
    case Return(v) => Outcome(g, Ready(v), byHand, [event], [])
    case FallThrough =>
      var rest := Scan(lib, g, con + 1);
      rest.(events := [event] + rest.events, woke := byHand || rest.woke)
    case Await(callee, args, out) =>
      var inner := Poll(lib, Future(callee, 1, args, None));
      match inner.status
      case Ready(v) =>
        Outcome(g.(env := out(g.env, v)), Pending, true, [event] + inner.events,
                [Started(callee)] + (inner.lives + Logged(Cleanup(inner.future))))
      case _ =>
        Outcome(g.(awaiting := Some(Awaited(inner.future, out))), Pending, byHand || inner.woke,
                [event] + inner.events,
                [Started(callee)] + inner.lives)
  }
}
