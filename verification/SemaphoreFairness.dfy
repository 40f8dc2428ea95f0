/** How long a waiter of the semaphore can be passed over. */
module SemaphoreFairness {
  import opened Width
  import opened Semaphore
  import opened SemaphoreLaws

  function Signals(events: seq<Event>): nat {
    if events == [] then 0 else (if events[0].Signal? then 1 else 0) + Signals(events[1..])
  }

  predicate NoDrop(events: seq<Event>) {
    forall k :: 0 <= k < |events| ==> !events[k].Drop?
  }

  /** What one step does to the two kinds of waiters. */
  ghost predicate QueueEffect(s: Sem, e: Event, t: Sem) {
    if !e.Signal? then
      && s.queue <= t.queue && t.granted == s.granted
      && t.priority == s.priority && t.handoffs == s.handoffs
    else if AsyncTurn(s) then
      && t.queue == s.queue[1..] && t.granted == s.granted + [s.queue[0]]
      && t.handoffs == s.handoffs && t.blocking == s.blocking
      && t.priority % 2 == (if s.blocking > 0 then 1 else s.priority % 2)
    else
      && t.queue == s.queue && t.granted == s.granted
      && t.handoffs == s.handoffs + (if s.awake < s.blocking then 1 else 0)
      && t.blocking == s.blocking
      && t.priority % 2 == (if s.queue != [] then 0 else s.priority % 2)
  }

  lemma TurnMoves(s: Sem, byHolder: bool)
    requires byHolder ==> s.holders > 0
    ensures var c := Entered(s, byHolder);
            && c.queue == s.queue && c.granted == s.granted && c.handoffs == s.handoffs
            && c.blocking == s.blocking && c.awake == s.awake
            && c.priority % 2 == (if s.queue != [] && s.blocking > 0 then 1 - s.priority % 2 else s.priority % 2)
  {
    ParityTurns(s.priority);
  }

  /** The wrap of the priority keeps the alternation, as 2^64 is even. */
  lemma ParityTurns(x: nat)
    ensures ((x + 1) % WORD) % 2 == 1 - x % 2
  {
    var q := (x + 1) / WORD;
    assert x + 1 == q * WORD + (x + 1) % WORD;
    assert q * WORD == 2 * (q * (WORD / 2));
  }

  lemma AsyncQueues(s: Sem, byHolder: bool, t: Sem)
    requires Lifetimes(s) && Allowed(s, Signal(byHolder)) && AsyncTurn(s) && t == SignalAsync(Entered(s, byHolder))
    ensures QueueEffect(s, Signal(byHolder), t)
  {
    TurnMoves(s, byHolder);
    SignalAsyncEffect(Entered(s, byHolder));
  }

  lemma OtherQueues(s: Sem, byHolder: bool, t: Sem)
    requires Allowed(s, Signal(byHolder)) && !AsyncTurn(s) && s.awake <= s.blocking
    requires t == if s.blocking > 0 then SignalSync(Entered(s, byHolder))
                  else Entered(s, byHolder).(counter := s.counter + 1)
    ensures QueueEffect(s, Signal(byHolder), t)
  {
    TurnMoves(s, byHolder);
  }

  lemma SignalQueues(s: Sem, byHolder: bool, t: Sem, permits: nat)
    requires Inv(s, permits) && Allowed(s, Signal(byHolder)) && t == Step(s, Signal(byHolder))
    ensures QueueEffect(s, Signal(byHolder), t)
  {
    SignalCases(s, byHolder);
    if AsyncTurn(s) {
      AsyncQueues(s, byHolder, t);
    } else {
      OtherQueues(s, byHolder, t);
    }
  }

  lemma StepQueues(s: Sem, e: Event, t: Sem, permits: nat)
    requires Inv(s, permits) && Allowed(s, e) && !e.Drop? && t == Step(s, e)
    ensures QueueEffect(s, e, t)
  {
    match e
    case Signal(byHolder) => SignalQueues(s, byHolder, t, permits);
    case Cleanup(n) => CleanupLaw(s, n);
    case _ =>
  }

  /** A step keeps the invariants and moves the waiters as described. */
  lemma StepLaw(s: Sem, e: Event, t: Sem, permits: nat)
    requires Inv(s, permits) && Allowed(s, e) && !e.Drop? && t == Step(s, e)
    ensures Inv(t, permits) && QueueEffect(s, e, t) && t.dropped == s.dropped
  {
    StepKeeps(s, e, permits);
    StepQueues(s, e, t, permits);
    if e.Signal? {
      SignalCases(s, e.byHolder);
      if AsyncTurn(s) {
        SignalAsyncLaw(Entered(s, e.byHolder));
      }
    } else if e.Cleanup? {
      CleanupLaw(s, e.node);
    }
  }

  lemma {:induction false} GrantedGrows(s: Sem, events: seq<Event>, r: Sem, permits: nat)
    requires Inv(s, permits) && AllAllowed(s, events) && NoDrop(events) && r == Run(s, events)
    ensures s.granted <= r.granted
    decreases |events|
  {
    if events != [] {
      var t := Step(s, events[0]);
      StepLaw(s, events[0], t, permits);
      GrantedGrows(t, events[1..], r, permits);
    }
  }

  lemma InLaterPart(a: seq<nat>, b: seq<nat>, c: seq<nat>, n: nat)
    requires a <= b <= c && n in c[|b|..]
    ensures n in c[|a|..]
  {
    var k :| 0 <= k < |c[|b|..]| && c[|b|..][k] == n;
    assert c[|a|..][k + |b| - |a|] == n;
  }

  lemma FirstOfLaterPart(a: seq<nat>, b: seq<nat>, n: nat)
    requires a + [n] <= b
    ensures a <= b && n in b[|a|..]
  {
    assert b[|a|..][0] == n;
  }

  /** Bounded bypass: whatever waits and signals are interleaved, the waiter at
      position p of the queue is granted within 2p + 1 signals, or one more when
      it is the turn of the blocking side. */
  lemma {:induction false} BoundedBypass(s: Sem, p: nat, events: seq<Event>, r: Sem, permits: nat)
    requires Inv(s, permits) && AllAllowed(s, events) && NoDrop(events) && r == Run(s, events)
    requires p < |s.queue| && Signals(events) >= 2 * p + 1 + s.priority % 2
    ensures s.granted <= r.granted && s.queue[p] in r.granted[|s.granted|..]
    decreases |events|
  {
    var e, rest, t := events[0], events[1..], Step(s, events[0]);
    StepLaw(s, e, t, permits);
    GrantedGrows(t, rest, r, permits);
    if e.Signal? && AsyncTurn(s) && p == 0 {
      FirstOfLaterPart(s.granted, r.granted, s.queue[0]);
    } else {
      var q := if e.Signal? && AsyncTurn(s) then p - 1 else p;
      assert t.queue[q] == s.queue[p];
      BoundedBypass(t, q, rest, r, permits);
      InLaterPart(s.granted, t.granted, r.granted, s.queue[p]);
    }
  }

  /** At each signal some thread blocks that has not been signalled yet. */
  predicate BlockedThroughout(s: Sem, events: seq<Event>)
    requires AllAllowed(s, events)
    decreases |events|
  {
    events == [] ||
    ((events[0].Signal? ==> s.awake < s.blocking) && BlockedThroughout(Step(s, events[0]), events[1..]))
  }

  predicate QueuedThroughout(s: Sem, events: seq<Event>)
    requires AllAllowed(s, events)
    decreases |events|
  {
    events == [] ||
    ((events[0].Signal? ==> s.queue != []) && QueuedThroughout(Step(s, events[0]), events[1..]))
  }

  /** While some thread waits to be signalled, threads get at least every second
      signal. */
  lemma {:induction false} BlockingShare(s: Sem, events: seq<Event>, r: Sem, permits: nat)
    requires Inv(s, permits) && AllAllowed(s, events) && NoDrop(events) && BlockedThroughout(s, events)
    requires r == Run(s, events)
    ensures r.handoffs >= s.handoffs + (Signals(events) + s.priority % 2) / 2
    decreases |events|
  {
    if events != [] {
      var t := Step(s, events[0]);
      StepLaw(s, events[0], t, permits);
      BlockingShare(t, events[1..], r, permits);
    }
  }

  /** While some future is queued, futures get at least every second signal. */
  lemma {:induction false} AsyncShare(s: Sem, events: seq<Event>, r: Sem, permits: nat)
    requires Inv(s, permits) && AllAllowed(s, events) && NoDrop(events) && QueuedThroughout(s, events)
    requires r == Run(s, events)
    ensures |r.granted| >= |s.granted| + (Signals(events) + 1 - s.priority % 2) / 2
    decreases |events|
  {
    if events != [] {
      var t := Step(s, events[0]);
      StepLaw(s, events[0], t, permits);
      AsyncShare(t, events[1..], r, permits);
    }
  }

  // ---- the bound is reached ----

  /** An uninterrupted series of signals. */
  function OutsideSignals(n: nat): seq<Event> {
    if n == 0 then [] else [Signal(false)] + OutsideSignals(n - 1)
  }

  lemma SignalAllowed(s: Sem, permits: nat)
    requires Inv(s, permits) && !s.dropped
    ensures Allowed(s, Signal(false))
  {
    assert forall n :: n in s.queue ==> n in Elements(s.queue);
  }

  /** One signal before others. */
  lemma OneSignal(s: Sem, rest: seq<Event>, t: Sem, permits: nat)
    requires Inv(s, permits) && !s.dropped && Allowed(s, Signal(false)) && t == Step(s, Signal(false))
    ensures Inv(t, permits) && !t.dropped && QueueEffect(s, Signal(false), t)
    ensures AllAllowed(t, rest) ==>
              AllAllowed(s, [Signal(false)] + rest) && Run(s, [Signal(false)] + rest) == Run(t, rest)
  {
    StepLaw(s, Signal(false), t, permits);
    assert ([Signal(false)] + rest)[1..] == rest;
  }

  /** A round of two signals: one for the threads, one for the head of the queue. */
  lemma OneRound(s: Sem, rest: seq<Event>, events: seq<Event>, permits: nat) returns (u: Sem)
    requires Inv(s, permits) && !s.dropped && s.priority % 2 == 1 && s.queue != [] && s.blocking > 0
    requires events == [Signal(false)] + ([Signal(false)] + rest)
    ensures Inv(u, permits) && !u.dropped && u.priority % 2 == 1
    ensures u.queue == s.queue[1..] && u.blocking == s.blocking
    ensures AllAllowed(u, rest) ==> AllAllowed(s, events) && Run(s, events) == Run(u, rest)
  {
    SignalAllowed(s, permits);
    var t := Step(s, Signal(false));
    OneSignal(s, [Signal(false)] + rest, t, permits);
    SignalAllowed(t, permits);
    u := Step(t, Signal(false));
    OneSignal(t, rest, u, permits);
  }

  lemma LastSignal(s: Sem, events: seq<Event>, permits: nat)
    requires Inv(s, permits) && !s.dropped && s.priority % 2 == 1 && s.queue != [] && s.blocking > 0
    requires events == [Signal(false)]
    ensures AllAllowed(s, events) && Run(s, events).queue == s.queue
  {
    SignalAllowed(s, permits);
    var t := Step(s, Signal(false));
    OneSignal(s, [], t, permits);
    assert AllAllowed(t, []) && Run(t, []) == t;
    assert events == [Signal(false)] + [];
  }

  /** As long as a thread blocks and the turn is with the threads, a series of 2p + 1
      signals grants p futures only: the waiter at position p still waits, and the
      bound is exact. */
  lemma {:induction false} BypassIsTight(s: Sem, p: nat, events: seq<Event>, permits: nat)
    requires Inv(s, permits) && !s.dropped && s.priority % 2 == 1 && p < |s.queue| && s.blocking > 0
    requires events == OutsideSignals(2 * p + 1)
    ensures AllAllowed(s, events) && Run(s, events).queue == s.queue[p..]
    decreases p
  {
    if p == 0 {
      LastSignal(s, events, permits);
    } else {
      var rest := OutsideSignals(2 * p - 1);
      assert events == [Signal(false)] + ([Signal(false)] + rest);
      var u := OneRound(s, rest, events, permits);
      BypassIsTight(u, p - 1, rest, permits);
      assert s.queue[1..][p - 1..] == s.queue[p..];
    }
  }

  function Waits(n: nat): seq<Event> {
    if n == 0 then [] else Waits(n - 1) + [Wait(false, true)]
  }

  /** A run that starts without permits: futures queue up, a thread blocks, and the
      first signal goes to a future. */
  function TightStart(p: nat): seq<Event> {
    (Waits(p + 2) + [BlockingWait]) + [Signal(false)]
  }

  lemma {:induction false} RunThenOne(s: Sem, events: seq<Event>, e: Event)
    requires AllAllowed(s, events) && Allowed(Run(s, events), e)
    ensures AllAllowed(s, events + [e]) && Run(s, events + [e]) == Step(Run(s, events), e)
    decreases |events|
  {
    if events == [] {
      assert AllAllowed(Step(s, e), []) && [e][1..] == [];
    } else {
      RunThenOne(Step(s, events[0]), events[1..], e);
      assert (events + [e])[1..] == events[1..] + [e];
    }
  }

  lemma {:induction false} WaitsQueue(n: nat, events: seq<Event>)
    requires events == Waits(n)
    ensures AllAllowed(Init(0), events)
    ensures var s := Run(Init(0), events);
            && Inv(s, 0) && !s.dropped && s.counter == 0 && |s.queue| == n
            && s.blocking == 0 && s.awake == 0 && s.priority == 0
  {
    if n == 0 {
      InitInv(0);
    } else {
      var fewer := Waits(n - 1);
      WaitsQueue(n - 1, fewer);
      OneWaits(Run(Init(0), fewer));
      RunThenOne(Init(0), fewer, Wait(false, true));
    }
  }

  lemma OneWaits(s: Sem)
    requires Inv(s, 0) && !s.dropped && s.counter == 0
    ensures var t := WaitStep(s, false, true);
            && Allowed(s, Wait(false, true)) && Inv(t, 0) && !t.dropped && t.counter == 0 && |t.queue| == |s.queue| + 1
            && t.blocking == s.blocking && t.awake == s.awake && t.priority == s.priority
  {
    SignalAllowed(s, 0);
    WaitKeeps(s, false, true, 0);
  }

  /** The bound is reached: from a semaphore without permits a run leads to a state
      from which 2p + 1 signals leave the waiter at position p waiting. */
  lemma BypassIsReached(p: nat)
    ensures AllAllowed(Init(0), TightStart(p))
    ensures var s := Run(Init(0), TightStart(p));
            && Inv(s, 0) && p < |s.queue| && s.priority % 2 == 1
            && AllAllowed(s, OutsideSignals(2 * p + 1))
            && Run(s, OutsideSignals(2 * p + 1)).queue == s.queue[p..]
  {
    var queued := Waits(p + 2);
    WaitsQueue(p + 2, queued);
    var s := Run(Init(0), queued);
    SignalAllowed(s, 0);
    RunThenOne(Init(0), queued, BlockingWait);
    var b := BlockingWaitStep(s);
    StepLaw(s, BlockingWait, b, 0);
    SignalAllowed(b, 0);
    RunThenOne(Init(0), queued + [BlockingWait], Signal(false));
    StepLaw(b, Signal(false), Step(b, Signal(false)), 0);
    BypassIsTight(Step(b, Signal(false)), p, OutsideSignals(2 * p + 1), 0);
  }
}
