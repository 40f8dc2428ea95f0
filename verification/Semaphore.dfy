/** The semaphore of src/sync/semaphore.c as a state machine. A blocking hand-off
    takes two steps: a signal reaches a thread, and later the thread runs again.
    Condition variables do not wake spuriously. */
module Semaphore {
  import opened Width

  const MASK: bv64 := 3
  const PLAIN: bv64 := 16
  const TIMED: bv64 := 32

  datatype Sem = Sem(
    // the structure itself; queue lists node ids from head to tail, and nodes
    // gives the word of flags and reference count of each allocated node; of the
    // threads that block, awake many have been signalled and not run since
    counter: nat,
    priority: nat,
    blocking: nat,
    awake: nat,
    queue: seq<nat>,
    nodes: map<nat, bv64>,
    nextNode: nat,
    dropped: bool,
    // history
    signals: nat,
    immediate: nat,
    handoffs: nat,
    unheard: nat,
    enqueued: seq<nat>,
    granted: seq<nat>,
    freed: seq<nat>,
    // clients: waiting futures not cleaned up yet, those of them that have not
    // reported yet, permits owned, permits granted but not yet noticed, permits
    // wasted, signals made without owning one, and permits taken without a grant
    held: set<nat>,
    pending: set<nat>,
    holders: nat,
    inFlight: set<nat>,
    lost: nat,
    outsideSignals: nat,
    unearned: nat)

  /** Wait is the first poll of a waiting future, and Noticed the second one, which
      reports ready. In both the caller may be told of something else that is ready
      in the same poll, as a timeout, and then does not keep the permit. Cleanup is
      the end of a waiting future that has a node. Awake is a signalled thread that
      runs again. */
  datatype Event =
    | Wait(timed: bool, kept: bool)
    | Noticed(node: nat, kept: bool)
    | Cleanup(node: nat)
    | BlockingWait
    | Awake
    | Signal(byHolder: bool)
    | Drop

  function Init(permits: nat): Sem {
    Sem(permits, 0, 0, 0, [], map[], 0, false, 0, 0, 0, 0, [], [], [], {}, {}, 0, {}, 0, 0, 0)
  }

  // ---- nodes ----

  function NewWord(timed: bool): bv64 {
    (if timed then TIMED else PLAIN) | 2
  }

  /** _node_drop: the word after the decrement, and whether memory is freed. */
  function NodeDrop(word: bv64, willWake: bool): (bv64, bool) {
    var count := word & MASK;
    var isTimed := word & TIMED != 0;
    (word - 1, count == 1 || !(willWake || isTimed))
  }

  function Release(s: Sem, n: nat, willWake: bool): Sem
    requires n in s.nodes
  {
    var (word, frees) := NodeDrop(s.nodes[n], willWake);
    if frees then s.(nodes := s.nodes - {n}, freed := s.freed + [n])
    else s.(nodes := s.nodes[n := word])
  }

  // ---- operations ----

  function WaitStep(s: Sem, timed: bool, kept: bool): Sem {
    if s.counter > 0 then
      s.(counter := s.counter - 1, immediate := s.immediate + 1,
         holders := if kept then s.holders + 1 else s.holders,
         lost := if kept then s.lost else s.lost + 1)
    else
      s.(nodes := s.nodes[s.nextNode := NewWord(timed)],
         held := s.held + {s.nextNode},
         pending := s.pending + {s.nextNode},
         queue := s.queue + [s.nextNode],
         enqueued := s.enqueued + [s.nextNode],
         nextNode := s.nextNode + 1)
  }

  function BlockingWaitStep(s: Sem): Sem {
    if s.counter > 0 then
      s.(counter := s.counter - 1, immediate := s.immediate + 1, holders := s.holders + 1)
    else
      s.(blocking := s.blocking + 1)
  }

  /** The second poll looks at nothing but the counter of the future, so it reports
      ready whether the permit was granted or not. */
  function NoticedStep(s: Sem, n: nat, kept: bool): Sem {
    var granted := n in s.inFlight;
    s.(pending := s.pending - {n}, inFlight := s.inFlight - {n},
       holders := if kept then s.holders + 1 else s.holders,
       lost := if granted && !kept then s.lost + 1 else s.lost,
       unearned := if kept && !granted then s.unearned + 1 else s.unearned)
  }

  /** The second half of taskio_semaphore_blocking_wait. */
  function AwakeStep(s: Sem): Sem
    requires 0 < s.awake <= s.blocking
  {
    s.(awake := s.awake - 1, blocking := s.blocking - 1, holders := s.holders + 1)
  }

  /** The head of the queue is taken off and its waker called; the waker finds
      a future that still waits, or the permit is wasted. */
  function Popped(s: Sem): Sem
    requires s.queue != []
  {
    var n := s.queue[0];
    var woken := if n in s.pending then s.(inFlight := s.inFlight + {n}) else s.(lost := s.lost + 1);
    woken.(queue := s.queue[1..], granted := s.granted + [n])
  }

  /** _signal_async: the permit goes to the head of the queue, even when the
      future behind it is gone. */
  function SignalAsync(s: Sem): Sem
    requires s.queue != [] && s.queue[0] in s.nodes
  {
    Release(Popped(s), s.queue[0], true)
  }

  /** _signal_sync: the count of blocked threads drops only when a thread runs, so
      the signal may find none that has not been signalled before. */
  function SignalSync(s: Sem): Sem {
    if s.awake < s.blocking then s.(awake := s.awake + 1, handoffs := s.handoffs + 1)
    else s.(unheard := s.unheard + 1, lost := s.lost + 1)
  }

  predicate AsyncTurn(s: Sem) {
    s.queue != [] && (s.blocking > 0 ==> s.priority % 2 == 0)
  }

  /** Only a choice between both kinds of waiters moves the turn. */
  function SignalTurn(s: Sem): Sem {
    s.(priority := if s.queue != [] && s.blocking > 0 then (s.priority + 1) % WORD else s.priority)
  }

  function SignalStep(s: Sem): Sem
    requires s.queue != [] ==> s.queue[0] in s.nodes
  {
    if s.queue != [] && s.blocking > 0 then
      if s.priority % 2 == 0 then SignalAsync(SignalTurn(s)) else SignalSync(SignalTurn(s))
    else if s.queue != [] then SignalAsync(s)
    else if s.blocking > 0 then SignalSync(s)
    else s.(counter := s.counter + 1)
  }

  /** The client's side of a signal, before the semaphore acts. */
  function Signalled(s: Sem, byHolder: bool): Sem
    requires byHolder ==> s.holders > 0
  {
    if byHolder then s.(signals := s.signals + 1, holders := s.holders - 1)
    else s.(signals := s.signals + 1, outsideSignals := s.outsideSignals + 1)
  }

  function CleanupStep(s: Sem, n: nat): Sem
    requires n in s.nodes
  {
    var gone := s.(held := s.held - {n}, pending := s.pending - {n});
    var counted := if n in s.inFlight then gone.(inFlight := s.inFlight - {n}, lost := s.lost + 1) else gone;
    Release(counted, n, true)
  }

  /** taskio_semaphore_drop releases every queued node without waking it. */
  function DropQueue(s: Sem): Sem
    requires forall n :: n in s.queue ==> n in s.nodes
    requires forall i, j :: 0 <= i < j < |s.queue| ==> s.queue[i] != s.queue[j]
    decreases |s.queue|
  {
    if s.queue == [] then s.(dropped := true)
    else DropQueue(Release(s.(queue := s.queue[1..]), s.queue[0], false))
  }

  predicate QueueAllocated(s: Sem) {
    && (forall n :: n in s.queue ==> n in s.nodes)
    && (forall i, j :: 0 <= i < j < |s.queue| ==> s.queue[i] != s.queue[j])
  }

  /** How futures and clients use the semaphore: a waiting future reports once; it is
      cleaned up once; permits are given back by holders, or made by outsiders; after
      the drop only futures that wait already go on. */
  predicate Allowed(s: Sem, e: Event) {
    && QueueAllocated(s)
    && (s.dropped ==> e.Cleanup? || e.Noticed?)
    && match e
       case Noticed(n, kept) => n in s.pending
       case Cleanup(n) => n in s.held && n in s.nodes
       case Signal(byHolder) => byHolder ==> s.holders > 0
       case Awake => 0 < s.awake <= s.blocking
       case _ => true
  }

  function Step(s: Sem, e: Event): Sem
    requires Allowed(s, e)
  {
    match e
    case Wait(timed, kept) => WaitStep(s, timed, kept)
    case Noticed(n, kept) => NoticedStep(s, n, kept)
    case Cleanup(n) => CleanupStep(s, n)
    case BlockingWait => BlockingWaitStep(s)
    case Awake => AwakeStep(s)
    case Signal(byHolder) => SignalStep(Signalled(s, byHolder))
    case Drop => DropQueue(s)
  }

  predicate AllAllowed(s: Sem, events: seq<Event>)
    decreases |events|
  {
    events == [] || (Allowed(s, events[0]) && AllAllowed(Step(s, events[0]), events[1..]))
  }

  function Run(s: Sem, events: seq<Event>): Sem
    requires AllAllowed(s, events)
    decreases |events|
  {
    if events == [] then s else Run(Step(s, events[0]), events[1..])
  }
}
