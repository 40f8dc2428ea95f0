/** The single-threaded run queue of src/platform/linux/runtime.c on values.
    Tasks are numbered in the order of their creation; abort is not modelled. */
module RunQueue {
  import opened IntrusiveList

  datatype Status = Suspended | Scheduled | Finished

  /** What the poll of a task does through the runtime: it calls wakers of tasks,
      spawns a task, or waits for another task's end. */
  datatype Action = WakeTask(task: nat) | Spawn | JoinOn(task: nat)

  datatype Outcome = Outcome(actions: seq<Action>, ready: bool)

  datatype Queue = Queue(
    status: seq<Status>,
    next: seq<int>,
    // tasks that wait for the end of each task, latest first
    joiners: seq<seq<nat>>,
    head: int,
    tail: int,
    pollScheduled: bool,
    // the eventfd counter, and whether the drain loop is running
    notified: nat,
    draining: bool,
    // history: tasks put into the list, polls made, tasks woken since their poll
    enqueued: seq<nat>,
    polls: seq<nat>,
    owed: set<nat>)

  predicate Shaped(r: Queue) {
    && |r.next| == |r.status| == |r.joiners|
    && NIL <= r.head < |r.next| && NIL <= r.tail < |r.next|
    && (forall k :: 0 <= k < |r.next| ==> NIL <= r.next[k] < |r.next|)
    && (forall k :: 0 <= k < |r.joiners| ==> InRange(r.joiners[k], |r.next|))
  }

  function Initial(): (r: Queue)
    ensures Shaped(r)
  {
    Queue([], [], [], NIL, NIL, false, 0, false, [], [], {})
  }

  /** task_add_event_loop and task_wake. */
  function Wake(r: Queue, t: nat): (s: Queue)
    requires Shaped(r) && t < |r.status|
    ensures Shaped(s) && |s.status| == |r.status|
  {
    var owing := r.(owed := r.owed + {t});
    if r.status[t] == Scheduled then owing
    else
      owing.(status := r.status[t := Scheduled],
             next := if r.tail != NIL then r.next[r.tail := t] else r.next,
             head := if r.tail != NIL then r.head else t,
             tail := t,
             notified := if r.pollScheduled then r.notified else r.notified + 1,
             pollScheduled := true,
             enqueued := r.enqueued + [t])
  }

  /** taskio_runtime_spawn: a suspended task is made and put into the list. */
  function SpawnTask(r: Queue): (s: Queue)
    requires Shaped(r)
    ensures Shaped(s) && |s.status| == |r.status| + 1
  {
    Wake(r.(status := r.status + [Suspended], next := r.next + [NIL], joiners := r.joiners + [[]]), |r.status|)
  }

  /** taskio_handle_join by task t: a finished target wakes it at once. */
  function JoinTask(r: Queue, t: nat, target: nat): (s: Queue)
    requires Shaped(r) && t < |r.status| && target < |r.status|
    ensures Shaped(s) && |s.status| == |r.status|
  {
    if r.status[target] == Finished then Wake(r, t)
    else r.(joiners := r.joiners[target := [t] + r.joiners[target]])
  }

  predicate ActionInRange(r: Queue, a: Action) {
    match a
    case WakeTask(t) => t < |r.status|
    case Spawn => true
    case JoinOn(t) => t < |r.status|
  }

  function Act(r: Queue, t: nat, a: Action): (s: Queue)
    requires Shaped(r) && t < |r.status| && ActionInRange(r, a)
    ensures Shaped(s) && |s.status| >= |r.status|
  {
    match a
    case WakeTask(u) => Wake(r, u)
    case Spawn => SpawnTask(r)
    case JoinOn(u) => JoinTask(r, t, u)
  }

  predicate AllInRange(r: Queue, t: nat, actions: seq<Action>)
    requires Shaped(r) && t < |r.status|
    decreases |actions|
  {
    actions == [] || (ActionInRange(r, actions[0]) && AllInRange(Act(r, t, actions[0]), t, actions[1..]))
  }

  function ActAll(r: Queue, t: nat, actions: seq<Action>): (s: Queue)
    requires Shaped(r) && t < |r.status| && AllInRange(r, t, actions)
    ensures Shaped(s) && |s.status| >= |r.status|
    decreases |actions|
  {
    if actions == [] then r else ActAll(Act(r, t, actions[0]), t, actions[1..])
  }

  /** task_wake_wakers. */
  function WakeAll(r: Queue, tasks: seq<nat>): (s: Queue)
    requires Shaped(r) && InRange(tasks, |r.status|)
    ensures Shaped(s) && |s.status| == |r.status|
    decreases |tasks|
  {
    if tasks == [] then r else WakeAll(Wake(r, tasks[0]), tasks[1..])
  }

  /** The head leaves the list before its task is polled. */
  function TakeHead(r: Queue): (s: Queue)
    requires Shaped(r) && r.head != NIL
    ensures Shaped(s) && |s.status| == |r.status|
  {
    var t := r.head;
    r.(head := r.next[t],
       tail := if r.next[t] == NIL then NIL else r.tail,
       status := r.status[t := Suspended],
       next := r.next[t := NIL],
       polls := r.polls + [t],
       owed := r.owed - {t})
  }

  function FinishTask(r: Queue, t: nat): (s: Queue)
    requires Shaped(r) && t < |r.status|
    ensures Shaped(s) && |s.status| == |r.status|
  {
    WakeAll(r.(status := r.status[t := Finished], joiners := r.joiners[t := []]), r.joiners[t])
  }

  /** One turn of the drain loop. */
  function PollHead(r: Queue, o: Outcome): (s: Queue)
    requires Shaped(r) && r.head != NIL && AllInRange(TakeHead(r), r.head, o.actions)
    ensures Shaped(s)
  {
    var acted := ActAll(TakeHead(r), r.head, o.actions);
    if o.ready then FinishTask(acted, r.head) else acted
  }

  /** The eventfd became readable: its counter is read and the drain starts. */
  function DrainStart(r: Queue): Queue {
    r.(notified := 0, draining := true)
  }

  /** The list ran empty. */
  function DrainEnd(r: Queue): Queue {
    r.(pollScheduled := false, draining := false)
  }

  predicate TurnsInRange(r: Queue, outcomes: seq<Outcome>)
    requires Shaped(r)
    decreases |outcomes|
  {
    outcomes == [] || r.head == NIL ||
    (AllInRange(TakeHead(r), r.head, outcomes[0].actions) && TurnsInRange(PollHead(r, outcomes[0]), outcomes[1..]))
  }

  /** The drain loop, given what each polled task does. */
  function Drained(r: Queue, outcomes: seq<Outcome>): (s: Queue)
    requires Shaped(r) && TurnsInRange(r, outcomes)
    ensures Shaped(s)
    decreases |outcomes|
  {
    if outcomes == [] || r.head == NIL then r else Drained(PollHead(r, outcomes[0]), outcomes[1..])
  }
}
