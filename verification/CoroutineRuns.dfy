/** Repeated polls, chains of awaits, and cleanup. */
module CoroutineRuns {
  import opened Options
  import opened Coroutine
  import opened CoroutineLaws
  import opened Sequences

  // ---- repeated polls ----

  /** Up to count polls in a row, ending early when the future is ready. Joined
      events and lives; the state is that of the last poll. */
  ghost function Polls<E(!new), V(!new)>(lib: Library<E, V>, f: Future<E, V>, count: nat): (o: Outcome<E, V>)
    requires Nested(lib) && Fits(lib, f)
    ensures Fits(lib, o.future)
    decreases count
  {
    if count == 0 then Outcome(f, Pending, false, [], [])
    else
      var first := Poll(lib, f.(counter := f.counter + 1));
      if first.status.Ready? then first
      else
        var rest := Polls(lib, first.future, count - 1);
        rest.(events := first.events + rest.events,
              lives := first.lives + rest.lives)
  }

  lemma {:induction false} PollsRefine<E(!new), V(!new)>(lib: Library<E, V>, f: Future<E, V>, count: nat,
          out: (E, V) -> E, o: Outcome<E, V>)
    requires Nested(lib) && Fits(lib, f) && o == Polls(lib, f, count)
    ensures Steps(lib, Running(Calls(lib, f, out)), o.events, After(lib, o, out, []))
    decreases count
  {
    NothingBelow(Calls(lib, f, out));
    if count == 0 {
      NothingBelow(Calls(lib, o.future, out));
    } else {
      var first := Poll(lib, f.(counter := f.counter + 1));
      PollRefines(lib, f, out, [], first);
      if !first.status.Ready? {
        var rest := Polls(lib, first.future, count - 1);
        NothingBelow(Calls(lib, first.future, out));
        PollsRefine(lib, first.future, count - 1, out, rest);
        StepsCompose(lib, Running(Calls(lib, f, out)), first.events, Running(Calls(lib, first.future, out)),
                     rest.events, After(lib, rest, out, []));
        SameAfter(lib, rest, o, out);
      }
    }
  }

  lemma NothingBelow<T>(s: seq<T>)
    ensures s + [] == s
  {
  }

  lemma SameAfter<E(!new), V(!new)>(lib: Library<E, V>, rest: Outcome<E, V>, o: Outcome<E, V>, out: (E, V) -> E)
    requires Fits(lib, rest.future) && o.future == rest.future && o.status == rest.status
    ensures After(lib, o, out, []) == After(lib, rest, out, [])
  {
  }

  /** Any number of polls of a fresh call runs its function as the structured
      program reads, only cut into pieces; when the future is ready, the value is
      the one that the structured program returns. */
  lemma FunctionRefines<E(!new), V(!new)>(lib: Library<E, V>, fn: nat, env: E, count: nat, out: (E, V) -> E)
    requires Nested(lib) && fn < |lib|
    ensures var o := Polls(lib, Future(fn, 0, env, None), count);
            && Steps(lib, Running([Frame(fn, lib[fn], env, out)]), o.events, After(lib, o, out, []))
            && (o.status.Ready? ==> After(lib, o, out, []) == Done(o.status.value))
  {
    var f := Future(fn, 0, env, None);
    assert lib[fn][0..] == lib[fn];
    assert Calls(lib, f, out) == [Frame(fn, lib[fn], env, out)];
    PollsRefine(lib, f, count, out, Polls(lib, f, count));
  }

  // ---- progress ----

  lemma {:induction false} ScanFinds<E(!new), V(!new)>(lib: Library<E, V>, f: Future<E, V>, con: nat)
    requires Nested(lib) && Fits(lib, f) && f.awaiting.None? && con < f.counter <= |lib[f.fn]|
    ensures Scan(lib, f, con).events != []
    decreases f.counter - con
  {
    if con + 1 != f.counter {
      ScanFinds(lib, f, con + 1);
    }
  }

  /** As long as the innermost call has a scope left, a poll runs something. */
  lemma {:induction false} PollProgress<E(!new), V(!new)>(lib: Library<E, V>, f: Future<E, V>, out: (E, V) -> E)
    requires Nested(lib) && Fits(lib, f) && Calls(lib, f, out)[0].rest != []
    ensures Poll(lib, f.(counter := f.counter + 1)).events != []
    decreases f.fn
  {
    match f.awaiting
    case None => ScanFinds(lib, f.(counter := f.counter + 1), 0);
    case Some(a) =>
      CallsNonempty(lib, a.child, a.out);
      PollProgress(lib, a.child, a.out);
  }

  lemma CallsNonempty<E(!new), V(!new)>(lib: Library<E, V>, f: Future<E, V>, out: (E, V) -> E)
    requires Fits(lib, f)
    ensures Calls(lib, f, out) != []
  {
  }

  // ---- wakes ----

  /** A body that called the waker by hand. */
  ghost predicate WokeByHand<E, V>(lib: Library<E, V>, e: Event<E>) {
    && !e.Skipped? && e.fn < |lib| && e.scope < |lib[e.fn]|
    && lib[e.fn][e.scope].body(e.env).2
  }

  ghost predicate SomeByHand<E, V>(lib: Library<E, V>, events: seq<Event<E>>) {
    exists k :: 0 <= k < |events| && WokeByHand(lib, events[k])
  }

  lemma ByHandInParts<E, V>(lib: Library<E, V>, a: seq<Event<E>>, b: seq<Event<E>>)
    ensures SomeByHand(lib, a + b) <==> SomeByHand(lib, a) || SomeByHand(lib, b)
  {
    if SomeByHand(lib, a) {
      var k :| 0 <= k < |a| && WokeByHand(lib, a[k]);
      assert (a + b)[k] == a[k];
    }
    if SomeByHand(lib, b) {
      var k :| 0 <= k < |b| && WokeByHand(lib, b[k]);
      assert (a + b)[|a| + k] == b[k];
    }
  }

  lemma ByHandAlone<E, V>(lib: Library<E, V>, e: Event<E>)
    ensures SomeByHand(lib, [e]) <==> WokeByHand(lib, e)
  {
    assert [e][0] == e;
  }

  /** No macro of async.h wakes the task of a poll that reports ready, however deep
      the awaits go: such a poll has called the waker exactly if one of the bodies
      that it ran did so by hand. */
  lemma {:induction false} ReadyWokeIff<E(!new), V(!new)>(lib: Library<E, V>, f: Future<E, V>, o: Outcome<E, V>)
    requires Nested(lib) && Fits(lib, f) && f.counter > 0 && o == Poll(lib, f) && o.status.Ready?
    ensures o.woke <==> SomeByHand(lib, o.events)
    decreases f.fn, 1, 0, 0
  {
    match f.awaiting
    case None => ScanReadyWokeIff(lib, f, 0, o);
    case Some(a) =>
      assert Fits(lib, a.child);
      var n := a.child.(counter := a.child.counter + 1);
      var inner := Poll(lib, n);
      var g := f.(env := a.out(f.env, inner.status.value), awaiting := None);
      var resumed := Scan(lib, g, 0);
      ReadyWokeIff(lib, n, inner);
      ScanReadyWokeIff(lib, g, 0, resumed);
      ByHandInParts(lib, inner.events, resumed.events);
  }

  lemma {:induction false} ScanReadyWokeIff<E(!new), V(!new)>(lib: Library<E, V>, f: Future<E, V>, con: nat,
          o: Outcome<E, V>)
    requires Nested(lib) && Fits(lib, f) && f.awaiting.None? && con <= |lib[f.fn]|
    requires o == Scan(lib, f, con) && o.status.Ready?
    ensures o.woke <==> SomeByHand(lib, o.events)
    decreases |lib[f.fn]| - con
  {
    if con + 1 != f.counter {
      ScanReadyWokeIff(lib, f, con + 1, o);
    } else if lib[f.fn][con].Plain? {
      BodyReadyWokeIff(lib, f, con, Ran(f.fn, con, f.env), o);
    } else if lib[f.fn][con].cond(f.env) {
      BodyReadyWokeIff(lib, f.(counter := f.counter - 1), con, Looped(f.fn, con, f.env), o);
    } else {
      var event, next := Skipped(f.fn, con, f.env), Scan(lib, f.(counter := f.counter + 1), con + 1);
      ScanReadyWokeIff(lib, f.(counter := f.counter + 1), con + 1, next);
      ByHandAlone(lib, event);
      ByHandInParts(lib, [event], next.events);
    }
  }

  lemma BodyReadyWokeIff<E(!new), V(!new)>(lib: Library<E, V>, f: Future<E, V>, con: nat, event: Event<E>,
          o: Outcome<E, V>)
    requires Nested(lib) && Fits(lib, f) && f.awaiting.None? && con < |lib[f.fn]|
    requires f.counter == con + 1 || f.counter == con
    requires event == Ran(f.fn, con, f.env) || event == Looped(f.fn, con, f.env)
    requires o == RunBody(lib, f, con, event) && o.status.Ready?
    ensures o.woke <==> SomeByHand(lib, o.events)
  {
    var (env, exit, _) := lib[f.fn][con].body(f.env);
    if exit.FallThrough? {
      ScanPassed(lib, f.(env := env), con + 1);
    }
    ByHandAlone(lib, event);
  }

  // ---- chains ----

  /** The future at the end of the await chain. */
  function Leaf<E, V>(f: Future<E, V>): Future<E, V>
    decreases f
  {
    if f.awaiting.None? then f else Leaf(f.awaiting.value.child)
  }

  /** The same chain with another future at its end. */
  function WithLeaf<E, V>(f: Future<E, V>, leaf: Future<E, V>): Future<E, V>
    decreases f
  {
    if f.awaiting.None? then leaf
    else f.(awaiting := Some(f.awaiting.value.(child := WithLeaf(f.awaiting.value.child, leaf))))
  }

  lemma {:induction false} LeafFits<E(!new), V(!new)>(lib: Library<E, V>, f: Future<E, V>)
    requires Fits(lib, f)
    ensures Fits(lib, Leaf(f)) && Leaf(f).awaiting.None?
    decreases f
  {
    if f.awaiting.Some? {
      LeafFits(lib, f.awaiting.value.child);
    }
  }

  /** Polling the root of a chain whose leaf is not ready runs the leaf alone and
      leaves every future above it, its counter included, as it was. */
  lemma {:induction false} OnlyLeafAdvances<E(!new), V(!new)>(lib: Library<E, V>, f: Future<E, V>)
    requires Nested(lib) && Fits(lib, f) && f.awaiting.Some?
    ensures Fits(lib, Leaf(f))
    ensures var inner := Poll(lib, Leaf(f).(counter := Leaf(f).counter + 1));
            var o := Poll(lib, f.(counter := f.counter + 1));
            !inner.status.Ready? ==>
              o == Outcome(WithLeaf(f, inner.future), Pending, inner.woke, inner.events, inner.lives)
    decreases f
  {
    var child := f.awaiting.value.child;
    LeafFits(lib, f);
    if child.awaiting.Some? {
      OnlyLeafAdvances(lib, child);
    }
  }

  // ---- cleanup ----

  ghost predicate Increasing(s: seq<nat>) {
    forall i, k :: 0 <= i < k < |s| ==> s[i] < s[k]
  }

  lemma IncreasingOneMore(s: seq<nat>, n: nat)
    requires Increasing(s) && s != [] && s[|s| - 1] < n
    ensures Increasing(s + [n])
  {
  }

  /** Cleanup reaches the futures of the chain innermost first, each once: their
      function numbers strictly grow towards the root. */
  lemma {:induction false} CleanupInnermostFirst<E(!new), V(!new)>(lib: Library<E, V>, f: Future<E, V>)
    requires Fits(lib, f)
    ensures Cleanup(f) != [] && Cleanup(f)[0] == Leaf(f).fn && Cleanup(f)[|Cleanup(f)| - 1] == f.fn
    ensures Increasing(Cleanup(f))
    decreases f
  {
    if f.awaiting.Some? {
      CleanupInnermostFirst(lib, f.awaiting.value.child);
      IncreasingOneMore(Cleanup(f.awaiting.value.child), f.fn);
    }
  }

  /** A poll with the cleanup counter walks over all scopes and runs none. */
  lemma {:induction false} CleanupRunsNoScope<E(!new), V(!new)>(lib: Library<E, V>, f: Future<E, V>, con: nat)
    requires Nested(lib) && Fits(lib, f) && con <= |lib[f.fn]| < CLEANUP_COUNTER
    ensures var closed := f.(counter := CLEANUP_COUNTER, awaiting := None);
            Scan(lib, closed, con) == Outcome(closed, Undefined, false, [], [])
    decreases |lib[f.fn]| - con
  {
    if con < |lib[f.fn]| {
      CleanupRunsNoScope(lib, f, con + 1);
    }
  }

  /** The log of starts and cleanups, replayed on a stack of running calls: a start
      goes on top, and only the topmost call is cleaned up. */
  ghost predicate Replays(stack: seq<nat>, lives: seq<Life>, end: seq<nat>)
    decreases |lives|
  {
    if lives == [] then stack == end
    else
      match lives[0]
      case Started(k) => Replays([k] + stack, lives[1..], end)
      case Cleaned(k) => stack != [] && stack[0] == k && Replays(stack[1..], lives[1..], end)
  }

  lemma {:induction false} ReplaysCompose(a: seq<nat>, first: seq<Life>, b: seq<nat>, second: seq<Life>, c: seq<nat>)
    requires Replays(a, first, b) && Replays(b, second, c)
    ensures Replays(a, first + second, c)
    decreases |first|
  {
    AppendTail(first, second);
    if first != [] {
      match first[0]
      case Started(k) => ReplaysCompose([k] + a, first[1..], b, second, c);
      case Cleaned(k) => ReplaysCompose(a[1..], first[1..], b, second, c);
    }
  }

  lemma StartThen(fn: nat, stack: seq<nat>, lives: seq<Life>, end: seq<nat>)
    requires Replays([fn] + stack, lives, end)
    ensures Replays(stack, [Started(fn)] + lives, end)
  {
  }

  lemma {:induction false} LoggedReplays(fns: seq<nat>, below: seq<nat>)
    ensures Replays(fns + below, Logged(fns), below)
    decreases |fns|
  {
    AppendTail(fns, below);
    if fns != [] {
      LoggedReplays(fns[1..], below);
    }
  }

  /** One poll starts and cleans up futures like calls on a stack, on top of the
      chain that it found. */
  lemma {:induction false} PollReplays<E(!new), V(!new)>(lib: Library<E, V>, f: Future<E, V>, below: seq<nat>)
    requires Nested(lib) && Fits(lib, f) && f.counter > 0
    ensures var o := Poll(lib, f); Replays(Cleanup(f) + below, o.lives, Cleanup(o.future) + below)
    decreases f.fn, 1, 0, 0
  {
    match f.awaiting
    case None => ScanReplays(lib, f, 0, below);
    case Some(a) =>
      assert Fits(lib, a.child);
      var n := a.child.(counter := a.child.counter + 1);
      var inner := Poll(lib, n);
      var under := [f.fn] + below;
      PollReplays(lib, n, under);
      Assoc(Cleanup(n), [f.fn], below);
      Assoc(Cleanup(inner.future), [f.fn], below);
      if inner.status.Ready? {
        var g := f.(env := a.out(f.env, inner.status.value), awaiting := None);
        var resumed := Scan(lib, g, 0);
        LoggedReplays(Cleanup(inner.future), under);
        ScanReplays(lib, g, 0, below);
        ReplaysCompose(Cleanup(inner.future) + under, Logged(Cleanup(inner.future)), under,
                       resumed.lives, Cleanup(resumed.future) + below);
        ReplaysCompose(Cleanup(n) + under, inner.lives, Cleanup(inner.future) + under,
                       Logged(Cleanup(inner.future)) + resumed.lives, Cleanup(resumed.future) + below);
      }
  }

  lemma {:induction false} ScanReplays<E(!new), V(!new)>(lib: Library<E, V>, f: Future<E, V>, con: nat, below: seq<nat>)
    requires Nested(lib) && Fits(lib, f) && f.awaiting.None? && con <= |lib[f.fn]|
    ensures var o := Scan(lib, f, con); Replays([f.fn] + below, o.lives, Cleanup(o.future) + below)
    decreases f.fn, 0, |lib[f.fn]| - con, 1
  {
    var o := Scan(lib, f, con);
    if con == |lib[f.fn]| {
      assert o.lives == [] && o.future == f;
    } else if con + 1 != f.counter {
      ScanReplays(lib, f, con + 1, below);
      assert o == Scan(lib, f, con + 1);
    } else if lib[f.fn][con].Plain? {
      RunBodyReplays(lib, f, con, Ran(f.fn, con, f.env), below);
      assert o == RunBody(lib, f, con, Ran(f.fn, con, f.env));
    } else if lib[f.fn][con].cond(f.env) {
      RunBodyReplays(lib, f.(counter := f.counter - 1), con, Looped(f.fn, con, f.env), below);
      assert o == RunBody(lib, f.(counter := f.counter - 1), con, Looped(f.fn, con, f.env));
    } else {
      var next := Scan(lib, f.(counter := f.counter + 1), con + 1);
      ScanReplays(lib, f.(counter := f.counter + 1), con + 1, below);
      assert o.lives == next.lives && o.future == next.future;
    }
  }

  lemma {:induction false} RunBodyReplays<E(!new), V(!new)>(lib: Library<E, V>, f: Future<E, V>, con: nat,
          event: Event<E>, below: seq<nat>)
    requires Nested(lib) && Fits(lib, f) && f.awaiting.None? && con < |lib[f.fn]|
    requires f.counter == con + 1 || f.counter == con
    ensures var o := RunBody(lib, f, con, event); Replays([f.fn] + below, o.lives, Cleanup(o.future) + below)
    decreases f.fn, 0, |lib[f.fn]| - con, 0
  {
    var (env, exit, _) := lib[f.fn][con].body(f.env);
    if exit.Await? {
      AwaitReplays(lib, f.fn, exit.callee, exit.args, below);
    } else if exit.FallThrough? {
      ScanReplays(lib, f.(env := env), con + 1, below);
    }
  }

  /** The first poll of an awaited future, and its cleanup when it is ready. */
  lemma {:induction false} AwaitReplays<E(!new), V(!new)>(lib: Library<E, V>, fn: nat, callee: nat, args: E,
          below: seq<nat>)
    requires Nested(lib) && callee < fn < |lib|
    ensures var inner := Poll(lib, Future(callee, 1, args, None));
            && Replays([fn] + below, [Started(callee)] + inner.lives, (Cleanup(inner.future) + [fn]) + below)
            && Replays([fn] + below, [Started(callee)] + (inner.lives + Logged(Cleanup(inner.future))), [fn] + below)
    decreases fn, 0, 0, 0
  {
    var under := [fn] + below;
    var child: Future<E, V> := Future(callee, 1, args, None);
    var inner := Poll(lib, child);
    PollReplays(lib, child, under);
    LoggedReplays(Cleanup(inner.future), under);
    ReplaysCompose([callee] + under, inner.lives, Cleanup(inner.future) + under, Logged(Cleanup(inner.future)), under);
    Assoc(Cleanup(inner.future), [fn], below);
    StartThen(callee, under, inner.lives, Cleanup(inner.future) + under);
    StartThen(callee, under, inner.lives + Logged(Cleanup(inner.future)), under);
  }

  /** Over any number of polls futures come and go like calls on a stack, and the
      cleanup of the root empties it: every future ever started is cleaned up
      exactly once, and never before a future that it awaits. */
  lemma {:induction false} EveryFutureCleanedOnce<E(!new), V(!new)>(lib: Library<E, V>, f: Future<E, V>, count: nat)
    requires Nested(lib) && Fits(lib, f)
    ensures var o := Polls(lib, f, count);
            && Replays(Cleanup(f), o.lives, Cleanup(o.future))
            && Replays(Cleanup(f), o.lives + Logged(Cleanup(o.future)), [])
    decreases count
  {
    var o := Polls(lib, f, count);
    PollsReplay(lib, f, count);
    LoggedReplays(Cleanup(o.future), []);
    assert Cleanup(o.future) + [] == Cleanup(o.future);
    ReplaysCompose(Cleanup(f), o.lives, Cleanup(o.future), Logged(Cleanup(o.future)), []);
  }

  lemma {:induction false} PollsReplay<E(!new), V(!new)>(lib: Library<E, V>, f: Future<E, V>, count: nat)
    requires Nested(lib) && Fits(lib, f)
    ensures var o := Polls(lib, f, count); Replays(Cleanup(f), o.lives, Cleanup(o.future))
    decreases count
  {
    if count > 0 {
      var n := f.(counter := f.counter + 1);
      var first := Poll(lib, n);
      PollReplays(lib, n, []);
      assert Cleanup(n) + [] == Cleanup(f) && Cleanup(first.future) + [] == Cleanup(first.future);
      if !first.status.Ready? {
        var rest := Polls(lib, first.future, count - 1);
        PollsReplay(lib, first.future, count - 1);
        ReplaysCompose(Cleanup(f), first.lives, Cleanup(first.future), rest.lives, Cleanup(rest.future));
      }
    }
  }
}
