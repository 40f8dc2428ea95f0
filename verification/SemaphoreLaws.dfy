/** What every run of the semaphore keeps: permits, order, and node memory. */
module SemaphoreLaws {
  import opened IntrusiveList
  import opened Width
  import opened Semaphore

  // ---- one word holds flags and count ----

  function Word(timed: bool, both: bool): bv64 {
    (if timed then TIMED else PLAIN) | (if both then 2 else 1)
  }

  predicate WordCounts(word: bv64, both: bool) {
    word == Word(false, both) || word == Word(true, both)
  }

  /** The packed count behaves like a count of two owners, except that dropping
      a plain node without waking it frees at once. */
  lemma PackedCount(timed: bool, willWake: bool)
    ensures NewWord(timed) == Word(timed, true)
    ensures NodeDrop(Word(timed, true), true) == (Word(timed, false), false)
    ensures NodeDrop(Word(timed, true), false) == (Word(timed, false), !timed)
    ensures NodeDrop(Word(timed, false), willWake).1
    ensures !WordCounts(Word(timed, true), false) && !WordCounts(Word(timed, false), true)
    ensures Word(true, true) != Word(false, true)
  {
  }

  // ---- node memory ----

  function Elements(s: seq<nat>): set<nat> {
    set n | n in s
  }

  /** A node is allocated exactly while the queue or the waiting future owns it,
      its word counts the owners, and every other node made so far has been freed
      exactly once. */
  ghost predicate Memory(nodes: map<nat, bv64>, freed: seq<nat>, queued: set<nat>, held: set<nat>, nextNode: nat) {
    && nodes.Keys == queued + held
    && (forall n :: n in nodes ==> WordCounts(nodes[n], n in queued && n in held))
    && NoRepeats(freed)
    && (forall n :: n in freed ==> n !in nodes)
    && (forall n: nat :: n < nextNode <==> n in nodes || n in freed)
  }

  /** The last owner of a node lets go: the node is freed. */
  lemma LastOwnerLetsGo(s: Sem, n: nat, willWake: bool, queued: set<nat>, held: set<nat>)
    requires Memory(s.nodes, s.freed, queued, held, s.nextNode)
    requires n in queued + held && !(n in queued && n in held)
    ensures var t := Release(s, n, willWake);
            Memory(t.nodes, t.freed, queued - {n}, held - {n}, t.nextNode)
  {
  }

  /** One of two owners lets go: memory stays in order exactly if the node is
      woken or belongs to a timed wait. */
  lemma OneOwnerLetsGo(s: Sem, n: nat, willWake: bool, queued: set<nat>, held: set<nat>, queued': set<nat>,
          held': set<nat>)
    requires Memory(s.nodes, s.freed, queued, held, s.nextNode)
    requires n in queued && n in held
    requires (queued' == queued - {n} && held' == held) || (queued' == queued && held' == held - {n})
    ensures var t := Release(s, n, willWake);
            Memory(t.nodes, t.freed, queued', held', t.nextNode) <==> willWake || s.nodes[n] == Word(true, true)
  {
    var t := Release(s, n, willWake);
    PackedCount(s.nodes[n] == Word(true, true), willWake);
    assert n in queued' + held';
    assert queued' + held' == queued + held;
  }

  // ---- invariants ----

  ghost predicate Lifetimes(s: Sem) {
    && Memory(s.nodes, s.freed, Elements(s.queue), s.held, s.nextNode)
    && NoRepeats(s.queue)
    && s.inFlight <= s.pending <= s.held
    && (forall n :: n in s.inFlight ==> n !in s.queue)
  }

  /** Permits are conserved, with permits many at the start; a free permit and a
      waiter never meet; grants are given in the order of arrival. */
  ghost predicate Accounting(s: Sem, permits: nat) {
    && s.counter + s.immediate + s.handoffs + s.unheard + |s.granted| == permits + s.signals
    && s.counter + s.holders + |s.inFlight| + s.awake + s.lost == permits + s.outsideSignals + s.unearned
    && s.awake <= s.blocking
    && (s.counter > 0 ==> s.queue == [] && s.blocking == 0)
    && (!s.dropped ==> s.granted + s.queue == s.enqueued)
  }

  ghost predicate Inv(s: Sem, permits: nat) {
    Lifetimes(s) && Accounting(s, permits)
  }

  lemma InitInv(permits: nat)
    ensures Inv(Init(permits), permits)
  {
  }

  lemma WaitKeeps(s: Sem, timed: bool, kept: bool, permits: nat)
    requires Inv(s, permits)
    ensures Inv(WaitStep(s, timed, kept), permits)
  {
    if s.counter == 0 {
      var t := WaitStep(s, timed, kept);
      PackedCount(timed, true);
      assert s.nextNode !in s.nodes && s.nextNode !in s.freed;
      assert s.nextNode !in Elements(s.queue);
      assert Elements(t.queue) == Elements(s.queue) + {s.nextNode};
      assert s.granted + (s.queue + [s.nextNode]) == (s.granted + s.queue) + [s.nextNode];
    }
  }

  // ---- signal ----

  lemma TailElements(queue: seq<nat>)
    requires queue != [] && NoRepeats(queue)
    ensures Elements(queue[1..]) == Elements(queue) - {queue[0]}
    ensures NoRepeats(queue[1..])
  {
  }

  /** The head of the queue is granted: its future will notice, or the permit is
      wasted because the future is gone. Nothing else changes but node memory. */
  ghost predicate GrantEffect(s: Sem, t: Sem)
    requires s.queue != []
  {
    && t == s.(nodes := t.nodes, freed := t.freed, queue := s.queue[1..],
               granted := s.granted + [s.queue[0]], inFlight := t.inFlight, lost := t.lost)
    && |t.inFlight| + t.lost == |s.inFlight| + s.lost + 1
    && t.lost == s.lost + (if s.queue[0] in s.pending then 0 else 1)
  }

  lemma ReleaseEffect(s: Sem, n: nat, willWake: bool)
    requires n in s.nodes
    ensures var t := Release(s, n, willWake); t == s.(nodes := t.nodes, freed := t.freed)
  {
  }

  lemma SignalAsyncEffect(s: Sem)
    requires Lifetimes(s) && s.queue != [] && QueueAllocated(s)
    ensures GrantEffect(s, SignalAsync(s))
  {
  }

  lemma SignalAsyncMemory(s: Sem)
    requires Lifetimes(s) && s.queue != [] && QueueAllocated(s)
    ensures var t := SignalAsync(s); Memory(t.nodes, t.freed, Elements(t.queue), t.held, t.nextNode)
  {
    var n, queued := s.queue[0], Elements(s.queue);
    TailElements(s.queue);
    ReleaseEffect(Popped(s), n, true);
    assert n in queued;
    if n in s.held {
      OneOwnerLetsGo(Popped(s), n, true, queued, s.held, queued - {n}, s.held);
    } else {
      LastOwnerLetsGo(Popped(s), n, true, queued, s.held);
      assert s.held - {n} == s.held;
    }
  }

  lemma SignalAsyncLaw(s: Sem)
    requires Lifetimes(s) && s.queue != [] && QueueAllocated(s)
    ensures Lifetimes(SignalAsync(s)) && GrantEffect(s, SignalAsync(s))
  {
    var t := SignalAsync(s);
    TailElements(s.queue);
    ReleaseEffect(Popped(s), s.queue[0], true);
    SignalAsyncMemory(s);
    SignalAsyncEffect(s);
    forall n | n in t.inFlight
      ensures n in t.held && n !in t.queue
    {
      assert n !in Elements(s.queue[1..]);
    }
  }

  /** The state in which a signal looks for a waiter. */
  function Entered(s: Sem, byHolder: bool): Sem
    requires byHolder ==> s.holders > 0
  {
    SignalTurn(Signalled(s, byHolder))
  }

  lemma SignalAsyncKeeps(s: Sem, byHolder: bool, permits: nat)
    requires Inv(s, permits) && Allowed(s, Signal(byHolder)) && s.queue != []
    ensures Inv(SignalAsync(Entered(s, byHolder)), permits)
  {
    var c := Entered(s, byHolder);
    SignalAsyncLaw(c);
    GrantKeepsAccounting(s, c, SignalAsync(c), permits);
  }

  lemma GrantKeepsAccounting(s: Sem, c: Sem, t: Sem, permits: nat)
    requires Accounting(s, permits) && s.queue != []
    requires c == s.(signals := s.signals + 1, priority := c.priority, holders := c.holders,
        outsideSignals := c.outsideSignals)
    requires c.holders - c.outsideSignals == s.holders - s.outsideSignals - 1
    requires GrantEffect(c, t)
    ensures Accounting(t, permits)
  {
  }

  lemma SignalOtherwiseKeeps(s: Sem, byHolder: bool, permits: nat)
    requires Inv(s, permits) && Allowed(s, Signal(byHolder))
    ensures s.blocking > 0 ==> Inv(SignalSync(Entered(s, byHolder)), permits)
    ensures s.blocking == 0 && s.queue == [] ==>
              Inv(Entered(s, byHolder).(counter := s.counter + 1), permits)
  {
  }

  lemma SignalCases(s: Sem, byHolder: bool)
    requires Allowed(s, Signal(byHolder))
    ensures Step(s, Signal(byHolder)) ==
              if AsyncTurn(s) then SignalAsync(Entered(s, byHolder))
              else if s.blocking > 0 then SignalSync(Entered(s, byHolder))
              else Entered(s, byHolder).(counter := s.counter + 1)
  {
  }

  lemma SignalKeeps(s: Sem, byHolder: bool, permits: nat)
    requires Inv(s, permits) && Allowed(s, Signal(byHolder))
    ensures Inv(Step(s, Signal(byHolder)), permits)
  {
    SignalCases(s, byHolder);
    if AsyncTurn(s) {
      SignalAsyncKeeps(s, byHolder, permits);
    } else {
      SignalOtherwiseKeeps(s, byHolder, permits);
    }
  }

  lemma NoticedKeeps(s: Sem, n: nat, kept: bool, permits: nat)
    requires Inv(s, permits) && n in s.pending
    ensures Inv(NoticedStep(s, n, kept), permits)
  {
    if n in s.inFlight {
      assert |s.inFlight - {n}| == |s.inFlight| - 1;
    } else {
      assert s.inFlight - {n} == s.inFlight;
    }
  }

  // ---- cleanup ----

  lemma CleanupLaw(s: Sem, n: nat)
    requires Lifetimes(s) && n in s.held && n in s.nodes
    ensures var t := CleanupStep(s, n);
            && Lifetimes(t)
            && t == s.(nodes := t.nodes, freed := t.freed, held := s.held - {n}, pending := s.pending - {n},
                       inFlight := s.inFlight - {n}, lost := t.lost)
            && |t.inFlight| + t.lost == |s.inFlight| + s.lost
            && t.lost == s.lost + (if n in s.inFlight then 1 else 0)
  {
    var queued := Elements(s.queue);
    var gone := s.(held := s.held - {n}, pending := s.pending - {n});
    var counted := if n in s.inFlight then gone.(inFlight := s.inFlight - {n}, lost := s.lost + 1) else gone;
    assert n !in s.inFlight ==> s.inFlight - {n} == s.inFlight;
    if n in queued {
      OneOwnerLetsGo(counted, n, true, queued, s.held, queued, s.held - {n});
    } else {
      LastOwnerLetsGo(counted, n, true, queued, s.held);
      assert queued - {n} == queued;
    }
  }

  // ---- drop ----

  /** No queued node belongs to a plain wait that is still there. */
  predicate SafeDrop(s: Sem)
    requires QueueAllocated(s)
  {
    forall k :: 0 <= k < |s.queue| ==> s.queue[k] in s.held ==> s.nodes[s.queue[k]] == Word(true, true)
  }

  lemma {:induction false} FreedStaysFreed(s: Sem, t: Sem)
    requires QueueAllocated(s) && t == DropQueue(s)
    ensures s.freed <= t.freed && t == s.(nodes := t.nodes, freed := t.freed, queue := [], dropped := true)
    decreases |s.queue|
  {
    if s.queue != [] {
      var m := Release(s.(queue := s.queue[1..]), s.queue[0], false);
      ReleaseEffect(s.(queue := s.queue[1..]), s.queue[0], false);
      DropUnfold(s, m, t);
      FreedStaysFreed(m, t);
    }
  }

  lemma DropUnfold(s: Sem, m: Sem, t: Sem)
    requires QueueAllocated(s) && s.queue != [] && t == DropQueue(s)
    requires m == Release(s.(queue := s.queue[1..]), s.queue[0], false)
    ensures QueueAllocated(m) && t == DropQueue(m) && s.freed <= m.freed
  {
    RestStaysAllocated(s, m);
  }

  lemma RestStaysAllocated(s: Sem, m: Sem)
    requires QueueAllocated(s) && s.queue != []
    requires m == Release(s.(queue := s.queue[1..]), s.queue[0], false)
    ensures QueueAllocated(m) && s.freed <= m.freed
  {
    OthersStay(s.(queue := s.queue[1..]), s.queue[0], false, m);
  }

  lemma OthersStay(s: Sem, n: nat, willWake: bool, m: Sem)
    requires n in s.nodes && m == Release(s, n, willWake)
    ensures m.queue == s.queue && s.freed <= m.freed
    ensures forall k :: k in s.nodes && k != n ==> k in m.nodes
  {
  }

  /** Dropping the semaphore keeps node memory in order exactly if no plain wait
      is still pending in the queue. */
  lemma {:induction false} DropKeepsMemoryIff(s: Sem, r: Sem)
    requires Lifetimes(s) && QueueAllocated(s) && r == DropQueue(s)
    ensures Lifetimes(r) <==> SafeDrop(s)
    decreases |s.queue|
  {
    if s.queue != [] {
      var n, queued := s.queue[0], Elements(s.queue);
      var popped := s.(queue := s.queue[1..]);
      var t := Release(popped, n, false);
      TailElements(s.queue);
      DropUnfold(s, t, r);
      FreedStaysFreed(t, r);
      assert n in queued;
      if n !in s.held {
        LastOwnerLetsGo(popped, n, false, queued, s.held);
        assert s.held - {n} == s.held;
        SafeTail(s, t);
        DropKeepsMemoryIff(t, r);
      } else if s.nodes[n] == Word(true, true) {
        OneOwnerLetsGo(popped, n, false, queued, s.held, queued - {n}, s.held);
        SafeTail(s, t);
        DropKeepsMemoryIff(t, r);
      } else {
        PackedCount(false, false);
        assert n in t.freed && n in r.freed && n in r.held;
      }
    }
  }

  lemma SafeTail(s: Sem, t: Sem)
    requires QueueAllocated(s) && s.queue != [] && QueueAllocated(t)
    requires t == Release(s.(queue := s.queue[1..]), s.queue[0], false)
    requires s.queue[0] in s.held ==> s.nodes[s.queue[0]] == Word(true, true)
    ensures SafeDrop(s) <==> SafeDrop(t)
  {
  }

  // ---- whole runs ----

  predicate Safe(s: Sem, e: Event)
    requires Allowed(s, e)
  {
    e.Drop? ==> SafeDrop(s)
  }

  lemma StepKeeps(s: Sem, e: Event, permits: nat)
    requires Inv(s, permits) && Allowed(s, e) && Safe(s, e)
    ensures Inv(Step(s, e), permits)
  {
    match e
    case Wait(timed, kept) => WaitKeeps(s, timed, kept, permits);
    case Noticed(n, kept) => NoticedKeeps(s, n, kept, permits);
    case Cleanup(n) => CleanupLaw(s, n);
    case BlockingWait =>
    case Awake =>
    case Signal(byHolder) => SignalKeeps(s, byHolder, permits);
    case Drop =>
      DropKeepsMemoryIff(s, DropQueue(s));
      FreedStaysFreed(s, DropQueue(s));
  }

  predicate AllSafe(s: Sem, events: seq<Event>)
    requires AllAllowed(s, events)
    decreases |events|
  {
    events == [] || (Safe(s, events[0]) && AllSafe(Step(s, events[0]), events[1..]))
  }

  /** In every run of a semaphore that is not dropped on pending plain waits:
      permits are conserved, no free permit coexists with a waiter, grants follow
      arrival order, and every node is freed exactly once, when both the queue
      and the waiting future have let go of it. */
  lemma {:induction false} RunKeeps(s: Sem, events: seq<Event>, permits: nat)
    requires Inv(s, permits) && AllAllowed(s, events) && AllSafe(s, events)
    ensures Inv(Run(s, events), permits)
    decreases |events|
  {
    if events != [] {
      StepKeeps(s, events[0], permits);
      RunKeeps(Step(s, events[0]), events[1..], permits);
    }
  }

  predicate OnlyHoldersSignal(events: seq<Event>) {
    forall k :: 0 <= k < |events| ==> events[k].Signal? ==> events[k].byHolder
  }

  lemma {:induction false} NoOutsideSignals(s: Sem, events: seq<Event>)
    requires AllAllowed(s, events) && OnlyHoldersSignal(events)
    ensures Run(s, events).outsideSignals == s.outsideSignals
    decreases |events|
  {
    if events != [] {
      if events[0].Drop? {
        FreedStaysFreed(s, DropQueue(s));
      }
      NoOutsideSignals(Step(s, events[0]), events[1..]);
    }
  }

  /** When only holders signal, the holders are never more than the permits and the
      polls that took a permit without a grant. What is missing from the permits is
      on its way to a future or a thread, or wasted. */
  lemma HoldersWithinPermits(permits: nat, events: seq<Event>)
    requires AllAllowed(Init(permits), events) && AllSafe(Init(permits), events) && OnlyHoldersSignal(events)
    ensures var s := Run(Init(permits), events);
            && s.holders <= permits + s.unearned
            && s.counter + s.holders + |s.inFlight| + s.awake + s.lost == permits + s.unearned
  {
    InitInv(permits);
    RunKeeps(Init(permits), events, permits);
    NoOutsideSignals(Init(permits), events);
  }

  /** Every second poll along the run follows a grant. */
  predicate OnlyGrantedPolls(s: Sem, events: seq<Event>)
    requires AllAllowed(s, events)
    decreases |events|
  {
    events == [] ||
    ((events[0].Noticed? ==> events[0].node in s.inFlight) && OnlyGrantedPolls(Step(s, events[0]), events[1..]))
  }

  lemma {:induction false} NothingUnearned(s: Sem, events: seq<Event>)
    requires AllAllowed(s, events) && OnlyGrantedPolls(s, events)
    ensures Run(s, events).unearned == s.unearned
    decreases |events|
  {
    if events != [] {
      if events[0].Drop? {
        FreedStaysFreed(s, DropQueue(s));
      }
      NothingUnearned(Step(s, events[0]), events[1..]);
    }
  }

  /** With one permit, holders that alone signal, and no poll without a grant, there
      is mutual exclusion. */
  lemma MutualExclusion(events: seq<Event>)
    requires AllAllowed(Init(1), events) && AllSafe(Init(1), events) && OnlyHoldersSignal(events)
    requires OnlyGrantedPolls(Init(1), events)
    ensures Run(Init(1), events).holders <= 1
  {
    HoldersWithinPermits(1, events);
    NothingUnearned(Init(1), events);
  }

  // ---- what each call does, to the last field ----

  /** A first poll takes a free permit, for its caller or for nobody; without one a node
      of its own joins the end of the queue. */
  lemma WaitEffect(s: Sem, timed: bool, kept: bool, t: Sem)
    requires t == WaitStep(s, timed, kept)
    ensures s.counter > 0 ==>
              && t.counter + 1 == s.counter && t.immediate == s.immediate + 1
              && t.holders - s.holders == (if kept then 1 else 0) && t.lost - s.lost == (if kept then 0 else 1)
              && t == s.(counter := t.counter, immediate := t.immediate, holders := t.holders, lost := t.lost)
    ensures s.counter == 0 ==>
              && t.queue == s.queue + [s.nextNode] && t.enqueued == s.enqueued + [s.nextNode]
              && t.nextNode == s.nextNode + 1 && t.nodes == s.nodes[s.nextNode := Word(timed, true)]
              && t.held == s.held + {s.nextNode} && t.pending == s.pending + {s.nextNode}
              && t == s.(queue := t.queue, enqueued := t.enqueued, nextNode := t.nextNode, nodes := t.nodes,
                         held := t.held, pending := t.pending)
  {
    PackedCount(timed, true);
  }

  /** A blocking wait takes a free permit, or one more thread blocks. */
  lemma BlockingWaitEffect(s: Sem, t: Sem)
    requires t == BlockingWaitStep(s)
    ensures s.counter > 0 ==>
              && t.counter + 1 == s.counter && t.immediate == s.immediate + 1 && t.holders == s.holders + 1
              && t == s.(counter := t.counter, immediate := t.immediate, holders := t.holders)
    ensures s.counter == 0 ==> t.blocking == s.blocking + 1 && t == s.(blocking := t.blocking)
  {
  }

  /** A signalled thread that runs again owns a permit and blocks no more. */
  lemma AwakeEffect(s: Sem, t: Sem)
    requires 0 < s.awake <= s.blocking && t == AwakeStep(s)
    ensures t.awake + 1 == s.awake && t.blocking + 1 == s.blocking && t.holders == s.holders + 1
    ensures t == s.(awake := t.awake, blocking := t.blocking, holders := t.holders)
  {
  }

  /** A second poll ends the wait; what was in flight to it is owned or wasted. */
  lemma NoticedEffect(s: Sem, n: nat, kept: bool, t: Sem)
    requires t == NoticedStep(s, n, kept)
    ensures t.pending == s.pending - {n} && t.inFlight == s.inFlight - {n}
    ensures t.holders - s.holders == if kept then 1 else 0
    ensures t.lost - s.lost == if n in s.inFlight && !kept then 1 else 0
    ensures t.unearned - s.unearned == if n !in s.inFlight && kept then 1 else 0
    ensures t == s.(pending := t.pending, inFlight := t.inFlight, holders := t.holders, lost := t.lost,
                    unearned := t.unearned)
  {
  }

  /** A signal that nobody waits for frees one permit; one that falls to the threads
      signals one or is lost; one that falls to the futures is a grant to the head. Only
      a choice between both moves the turn. */
  lemma SignalEffect(s: Sem, byHolder: bool, c: Sem, t: Sem, permits: nat)
    requires Inv(s, permits) && Allowed(s, Signal(byHolder)) && t == Step(s, Signal(byHolder))
    requires c == Entered(s, byHolder)
    ensures c.signals == s.signals + 1
    ensures byHolder ==> c.holders + 1 == s.holders && c.outsideSignals == s.outsideSignals
    ensures !byHolder ==> c.holders == s.holders && c.outsideSignals == s.outsideSignals + 1
    ensures c.priority == if s.queue != [] && s.blocking > 0 then (s.priority + 1) % WORD else s.priority
    ensures c == s.(signals := c.signals, holders := c.holders, outsideSignals := c.outsideSignals,
                    priority := c.priority)
    ensures s.queue == [] && s.blocking == 0 ==> t == c.(counter := s.counter + 1)
    ensures s.blocking > 0 && !AsyncTurn(s) ==>
              if s.awake < s.blocking then t == c.(awake := s.awake + 1, handoffs := s.handoffs + 1)
              else t == c.(unheard := s.unheard + 1, lost := s.lost + 1)
    ensures AsyncTurn(s) ==> GrantEffect(c, t) && Lifetimes(t)
  {
    SignalCases(s, byHolder);
    if AsyncTurn(s) {
      SignalAsyncLaw(c);
    }
  }

  // ---- first come, first served ----

  function Less(a: nat, b: nat): nat {
    if a < b then a else b
  }

  predicate AsksOnly(events: seq<Event>) {
    forall k :: 0 <= k < |events| ==> events[k].BlockingWait? || (events[k].Wait? && events[k].kept)
  }

  /** However waits of both kinds are mixed, the first ones get the free permits and all
      others wait. */
  lemma {:induction false} FirstOnesHold(s: Sem, events: seq<Event>, t: Sem)
    requires AllAllowed(s, events) && AsksOnly(events) && t == Run(s, events)
    ensures t.counter == s.counter - Less(|events|, s.counter)
    ensures t.holders == s.holders + Less(|events|, s.counter)
    ensures |t.queue| + t.blocking == |s.queue| + s.blocking + |events| - Less(|events|, s.counter)
    decreases |events|
  {
    if events != [] {
      var m := Step(s, events[0]);
      match events[0] {
        case Wait(timed, kept) => WaitEffect(s, timed, kept, m);
        case BlockingWait => BlockingWaitEffect(s, m);
      }
      FirstOnesHold(m, events[1..], t);
    }
  }

  /** A lock and its unlock leave permits, owners and waiters as they were. */
  lemma LockUnlock(s: Sem, blocking: bool, t: Sem, u: Sem, permits: nat)
    requires Inv(s, permits) && !s.dropped && s.counter > 0
    requires t == if blocking then BlockingWaitStep(s) else WaitStep(s, false, true)
    requires Allowed(t, Signal(true)) && u == Step(t, Signal(true))
    ensures u == s.(signals := s.signals + 1, immediate := s.immediate + 1)
  {
    SignalCases(t, true);
  }

  // ---- what goes wrong, and exactly when ----

  /** A permit is taken without a grant exactly when a waiting future is polled
      again although its waker was not called. */
  lemma UnearnedIff(s: Sem, e: Event, permits: nat)
    requires Inv(s, permits) && Allowed(s, e)
    ensures Step(s, e).unearned == s.unearned + 1 <==> e.Noticed? && e.kept && e.node !in s.inFlight
    ensures s.unearned <= Step(s, e).unearned <= s.unearned + 1
  {
    match e
    case Signal(byHolder) =>
      SignalCases(s, byHolder);
      if AsyncTurn(s) {
        SignalAsyncLaw(Entered(s, byHolder));
      }
    case Cleanup(n) => CleanupLaw(s, n);
    case Drop => FreedStaysFreed(s, DropQueue(s));
    case _ =>
  }

  /** All permits have holders, a further wait queues and is polled again for another
      reason: now there is one holder more than permits. The first wait on a semaphore
      with one permit leads to such a state, see OneWaiterHolds. */
  lemma UngrantedPollBreaks(s: Sem, t: Sem, permits: nat)
    requires Inv(s, permits) && !s.dropped && s.counter == 0 && s.holders == permits && t == WaitStep(s, false, true)
    ensures Inv(t, permits) && Allowed(t, Noticed(s.nextNode, true))
    ensures NoticedStep(t, s.nextNode, true).holders == permits + 1
  {
    WaitKeeps(s, false, true, permits);
    assert forall n :: n in t.queue ==> n in Elements(t.queue);
  }

  /** Exactly five events waste a permit: a signal whose turn falls on a queued node
      that no future waits for any more; a signal that falls to the threads when all
      that block have been signalled before; the cleanup of a future that was granted
      the permit but never noticed; and a wait that takes a free permit, or notices
      its grant, in a poll that tells its caller of something else. */
  lemma WastedIff(s: Sem, e: Event, permits: nat)
    requires Inv(s, permits) && Allowed(s, e)
    ensures Step(s, e).lost == s.lost + 1 <==>
              || (e.Signal? && AsyncTurn(s) && s.queue[0] !in s.pending)
              || (e.Signal? && !AsyncTurn(s) && s.blocking > 0 && s.awake == s.blocking)
              || (e.Cleanup? && e.node in s.inFlight)
              || (e.Noticed? && !e.kept && e.node in s.inFlight)
              || (e.Wait? && !e.kept && s.counter > 0)
    ensures s.lost <= Step(s, e).lost <= s.lost + 1
  {
    match e
    case Signal(byHolder) =>
      SignalCases(s, byHolder);
      if AsyncTurn(s) {
        SignalAsyncLaw(Entered(s, byHolder));
      }
    case Cleanup(n) => CleanupLaw(s, n);
    case Drop => FreedStaysFreed(s, DropQueue(s));
    case _ =>
  }

  /** A signal that falls to the threads survives exactly if one of them has not been
      signalled yet; then that thread gets the permit when it runs. */
  lemma HandOffIff(s: Sem, byHolder: bool, permits: nat)
    requires Inv(s, permits) && Allowed(s, Signal(byHolder)) && !AsyncTurn(s) && s.blocking > 0
    ensures var t := Step(s, Signal(byHolder));
            && t.counter == s.counter && t.blocking == s.blocking && t.inFlight == s.inFlight
            && (t.awake == s.awake + 1 && t.lost == s.lost <==> s.awake < s.blocking)
            && (t.awake == s.awake && t.lost == s.lost + 1 <==> s.awake == s.blocking)
  {
    SignalCases(s, byHolder);
  }

  lemma AllowedBefore(s: Sem, e: Event, rest: seq<Event>, t: Sem)
    requires Allowed(s, e) && t == Step(s, e)
    ensures AllAllowed(t, rest) ==> AllAllowed(s, [e] + rest) && Run(s, [e] + rest) == Run(t, rest)
  {
    assert ([e] + rest)[1..] == rest;
  }

  lemma SecondSignalSteps(s: Sem, t: Sem, u: Sem, v: Sem, permits: nat)
    requires Inv(s, permits) && !s.dropped && s.counter == 0 && s.queue == [] && s.blocking == 0
    requires t == BlockingWaitStep(s) && Allowed(t, Signal(false)) && u == Step(t, Signal(false))
    requires Allowed(u, Signal(false)) && v == Step(u, Signal(false))
    ensures Allowed(v, Awake)
    ensures var r := AwakeStep(v);
            && r.signals == s.signals + 2 && r.holders == s.holders + 1 && r.lost == s.lost + 1
            && r.counter == 0 && r.blocking == 0 && r.awake == 0 && r.inFlight == s.inFlight
  {
    SignalCases(t, false);
    SignalCases(u, false);
  }

  /** A thread blocks on a semaphore without permits and waiters, and two signals come
      before it runs again: it gets one permit, and the other is gone. */
  lemma SecondSignalIsLost(s: Sem, events: seq<Event>, permits: nat)
    requires Inv(s, permits) && !s.dropped && s.counter == 0 && s.queue == [] && s.blocking == 0
    requires events == [BlockingWait] + ([Signal(false)] + ([Signal(false)] + [Awake]))
    ensures AllAllowed(s, events)
    ensures var r := Run(s, events);
            && r.signals == s.signals + 2 && r.holders == s.holders + 1 && r.lost == s.lost + 1
            && r.counter == 0 && r.blocking == 0 && r.awake == 0 && r.inFlight == s.inFlight
  {
    var t := BlockingWaitStep(s);
    SignalCases(t, false);
    var u := Step(t, Signal(false));
    SignalCases(u, false);
    var v := Step(u, Signal(false));
    SecondSignalSteps(s, t, u, v, permits);
    var r := AwakeStep(v);
    assert AllAllowed(r, []) && Run(r, []) == r && [Awake] + [] == [Awake];
    AllowedBefore(v, Awake, [], r);
    AllowedBefore(u, Signal(false), [Awake], v);
    AllowedBefore(t, Signal(false), [Signal(false)] + [Awake], u);
    AllowedBefore(s, BlockingWait, [Signal(false)] + ([Signal(false)] + [Awake]), t);
  }

  /** A holder signals while the only waiter is one that has given up: nobody
      gets the permit, and the next wait has to queue. */
  lemma GivenUpWaiterTakesPermit(s: Sem, permits: nat)
    requires Inv(s, permits) && Allowed(s, Signal(true))
    requires |s.queue| == 1 && s.queue[0] !in s.held && s.blocking == 0 && s.holders == 1 && s.inFlight == {}
    ensures var t := Step(s, Signal(true));
            && t.counter == 0 && t.holders == 0 && t.inFlight == {} && t.lost == s.lost + 1
            && WaitStep(t, false, true).queue != []
  {
  }

  lemma OneWaiterHolds()
    ensures var s := WaitStep(Init(1), false, true);
            && Inv(s, 1) && s.counter == 0 && s.queue == [] && s.held == {} && s.pending == {} && s.blocking == 0
            && s.holders == 1 && s.inFlight == {} && s.nextNode == 0
  {
    InitInv(1);
    WaitKeeps(Init(1), false, true, 1);
  }

  /** Such a state is reached with one permit: one task waits and gets it, a timed
      wait queues behind and gives up. */
  lemma GivenUpWaiterReachable()
    ensures var s2 := WaitStep(WaitStep(Init(1), false, true), true, true);
            && Allowed(s2, Cleanup(0))
            && var s := CleanupStep(s2, 0);
            && Inv(s, 1) && s.queue == [0] && s.held == {} && s.blocking == 0 && s.holders == 1 && s.inFlight == {}
  {
    OneWaiterHolds();
    var s1 := WaitStep(Init(1), false, true);
    WaitKeeps(s1, true, true, 1);
    CleanupLaw(WaitStep(s1, true, true), 0);
  }
}
