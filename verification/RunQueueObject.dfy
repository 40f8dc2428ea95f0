/** The run queue as the source stores it: task records linked through their
    next fields, updated in place. The runtime also keeps its history, written down
    where a task is linked, woken or polled. */
module RunQueueObject {
  import opened IntrusiveList
  import opened Options
  import R = RunQueue
  import Laws = RunQueueLaws

  /** The id stands for the address of the record. */
  class Task {
    const id: nat
    var status: R.Status
    var next: Task?
    var wakeOnReady: seq<nat>

    constructor (id: nat)
      ensures this.id == id && status == R.Suspended && next == null && wakeOnReady == []
    {
      this.id := id;
      status, next, wakeOnReady := R.Suspended, null, [];
    }
  }

  // Tasks are listed in the order of their creation; a task id is a position.

  ghost predicate Numbered(tasks: seq<Task>) {
    forall k :: 0 <= k < |tasks| ==> tasks[k].id == k
  }

  /** The record behind a task id, or null. */
  function TaskAt(tasks: seq<Task>, id: int): Task? {
    if 0 <= id < |tasks| then tasks[id] else null
  }

  ghost predicate Statuses(tasks: seq<Task>, status: seq<R.Status>)
    reads tasks`status
  {
    |status| == |tasks| && forall k :: 0 <= k < |tasks| ==> tasks[k].status == status[k]
  }

  ghost predicate Nexts(tasks: seq<Task>, next: seq<int>)
    reads tasks`next
  {
    |next| == |tasks| && forall k :: 0 <= k < |tasks| ==> tasks[k].next == TaskAt(tasks, next[k])
  }

  ghost predicate Joiners(tasks: seq<Task>, joiners: seq<seq<nat>>)
    reads tasks`wakeOnReady
  {
    |joiners| == |tasks| && forall k :: 0 <= k < |tasks| ==> tasks[k].wakeOnReady == joiners[k]
  }

  /** What the runtime holds besides its tasks, and its history. */
  datatype Record = Record(
    pollScheduled: bool,
    notified: nat,
    draining: bool,
    enqueued: seq<nat>,
    polls: seq<nat>,
    owed: set<nat>)

  function RecordOf(r: R.Queue): Record {
    Record(r.pollScheduled, r.notified, r.draining, r.enqueued, r.polls, r.owed)
  }

  /** What linking task t at the end leaves. */
  ghost predicate ScheduleStored(r: R.Queue, t: nat, s: R.Queue)
    requires R.Shaped(r) && t < |r.status|
  {
    && s.status == r.status[t := R.Scheduled] && s.joiners == r.joiners
    && s.next == (if r.tail != NIL then r.next[r.tail := t] else r.next)
    && s.head == (if r.tail != NIL then r.head else t) && s.tail == t
    && RecordOf(s) == RecordOf(r).(pollScheduled := true, enqueued := r.enqueued + [t],
                                   notified := r.notified + if r.pollScheduled then 0 else 1)
  }

  lemma WakeStores(r: R.Queue, t: nat, owing: R.Queue, s: R.Queue)
    requires R.Shaped(r) && t < |r.status| && r.status[t] != R.Scheduled
    requires owing == r.(owed := r.owed + {t}) && s == R.Wake(r, t)
    ensures R.Shaped(owing) && R.Shaped(s) && ScheduleStored(owing, t, s)
  {
  }

  /** With these outcomes the drain ends in that state. */
  ghost predicate LeadsTo(r: R.Queue, outcomes: seq<R.Outcome>, goal: R.Queue)
    requires R.Shaped(r)
  {
    R.TurnsInRange(r, outcomes) && R.Drained(r, outcomes) == goal
  }

  lemma TurnUnfold(r: R.Queue, outcomes: seq<R.Outcome>)
    requires R.Shaped(r) && r.head != NIL && R.TurnsInRange(r, outcomes) && R.Drained(r, outcomes).head == NIL
    ensures outcomes != [] && R.AllInRange(R.TakeHead(r), r.head, outcomes[0].actions)
    ensures var s := R.PollHead(r, outcomes[0]);
            R.TurnsInRange(s, outcomes[1..]) && R.Drained(s, outcomes[1..]) == R.Drained(r, outcomes)
  {
  }

  class Runtime {
    var pollHead: Task?
    var pollTail: Task?
    var pollScheduled: bool
    var notified: nat

    /** All tasks made, standing for the handles and wakers that refer to them. */
    var tasks: seq<Task>
    ghost var records: set<Task>

    // whether the drain loop runs, and history
    ghost var draining: bool
    ghost var enqueued: seq<nat>
    ghost var polls: seq<nat>
    ghost var owed: set<nat>

    ghost predicate Recorded()
      reads `tasks, `records
    {
      forall k :: 0 <= k < |tasks| ==> tasks[k] in records
    }

    /** The task records and the ends of the list. */
    ghost predicate Holds(status: seq<R.Status>, next: seq<int>, joiners: seq<seq<nat>>, first: int, last: int)
      reads `tasks, `records, `pollHead, `pollTail, tasks
    {
      && Recorded() && Numbered(tasks)
      && Statuses(tasks, status) && Nexts(tasks, next) && Joiners(tasks, joiners)
      && pollHead == TaskAt(tasks, first) && pollTail == TaskAt(tasks, last)
    }

    /** The plain fields and the history. */
    ghost function View(): Record
      reads `pollScheduled, `notified, `draining, `enqueued, `polls, `owed
    {
      Record(pollScheduled, notified, draining, enqueued, polls, owed)
    }

    /** The runtime is in the given state of the state machine. Every method takes
        such a state to the one that the machine reaches. */
    ghost predicate Is(r: R.Queue)
      requires R.Shaped(r)
      reads this, tasks
    {
      Holds(r.status, r.next, r.joiners, r.head, r.tail) && View() == RecordOf(r)
    }

    constructor ()
      ensures Is(R.Initial()) && tasks == []
    {
      pollHead, pollTail, pollScheduled, notified, tasks, records := null, null, false, 0, [], {};
      draining, enqueued, polls, owed := false, [], [], {};
    }

    /** The task goes to the end of the poll list. */
    method Link(task: Task, ghost next: seq<int>, ghost tail: int)
      requires Recorded() && Numbered(tasks) && Nexts(tasks, next)
      requires task.id < |tasks| && tasks[task.id] == task
      requires NIL <= tail < |tasks| && pollTail == TaskAt(tasks, tail)
      modifies `pollHead, `pollTail, records`next
      ensures Nexts(tasks, if tail != NIL then next[tail := task.id] else next)
      ensures pollHead == (if tail != NIL then old(pollHead) else task) && pollTail == task
    {
      if pollTail == null {
        pollHead := task;
      } else {
        pollTail.next := task;
      }
      pollTail := task;
    }

    method SetStatus(t: nat, status: R.Status, ghost before: seq<R.Status>)
      requires Recorded() && Numbered(tasks) && Statuses(tasks, before) && t < |tasks|
      modifies records`status
      ensures Statuses(tasks, before[t := status])
    {
      tasks[t].status := status;
    }

    method Notify()
      modifies `pollScheduled, `notified
      ensures pollScheduled && notified == old(notified) + if old(pollScheduled) then 0 else 1
    {
      if !pollScheduled {
        pollScheduled := true;
        notified := notified + 1;
      }
    }

    /** The task is marked and put at the end of the list. */
    method Enlist(t: nat, ghost status: seq<R.Status>, ghost next: seq<int>, ghost joiners: seq<seq<nat>>,
                  ghost first: int, ghost last: int)
      requires Holds(status, next, joiners, first, last) && t < |tasks| && NIL <= last < |tasks|
      modifies `pollHead, `pollTail, records`status, records`next
      ensures Holds(status[t := R.Scheduled], if last != NIL then next[last := t] else next, joiners,
                    if last != NIL then first else t, t)
    {
      SetStatus(t, R.Scheduled, status);
      Link(tasks[t], next, last);
    }

    /** task_add_event_loop for a task that is not scheduled. */
    method Schedule(t: nat, ghost r: R.Queue, ghost s: R.Queue)
      requires R.Shaped(r) && Is(r) && t < |tasks| && R.Shaped(s) && ScheduleStored(r, t, s)
      modifies `pollHead, `pollTail, `pollScheduled, `notified, `enqueued, records`status, records`next
      ensures Is(s)
    {
      Enlist(t, r.status, r.next, r.joiners, r.head, r.tail);
      enqueued := enqueued + [t];
      Notify();
    }

    /** task_add_event_loop. */
    method Wake(t: nat, ghost r: R.Queue)
      requires R.Shaped(r) && Is(r) && t < |tasks|
      modifies `pollHead, `pollTail, `pollScheduled, `notified, `enqueued, `owed, records`status, records`next
      ensures Is(R.Wake(r, t))
    {
      owed := owed + {t};
      ghost var owing := r.(owed := r.owed + {t});
      if tasks[t].status != R.Scheduled {
        WakeStores(r, t, owing, R.Wake(r, t));
        Schedule(t, owing, R.Wake(r, t));
      }
    }

    /** A new record, in no list. */
    method Create(ghost status: seq<R.Status>, ghost next: seq<int>, ghost joiners: seq<seq<nat>>,
                  ghost first: int, ghost last: int) returns (task: Task)
      requires Holds(status, next, joiners, first, last)
      requires NIL <= first < |tasks| && NIL <= last < |tasks| && forall k :: 0 <= k < |next| ==> next[k] < |tasks|
      modifies `tasks, `records
      ensures fresh(task) && tasks == old(tasks) + [task] && records == old(records) + {task}
      ensures Holds(status + [R.Suspended], next + [NIL], joiners + [[]], first, last)
    {
      task := new Task(|tasks|);
      tasks := tasks + [task];
      records := records + {task};
    }

    /** taskio_runtime_spawn. */
    method SpawnTask(ghost r: R.Queue) returns (task: Task)
      requires R.Shaped(r) && Is(r)
      modifies this, records`status, records`next
      ensures Is(R.SpawnTask(r)) && fresh(task) && tasks == old(tasks) + [task]
      ensures records == old(records) + {task}
    {
      ghost var created := Laws.Created(r);
      task := Create(r.status, r.next, r.joiners, r.head, r.tail);
      assert Is(created);
      Wake(|tasks| - 1, created);
    }

    /** taskio_handle_join by task t. */
    method JoinTask(t: nat, target: nat, ghost r: R.Queue)
      requires R.Shaped(r) && Is(r) && t < |tasks| && target < |tasks|
      modifies `pollHead, `pollTail, `pollScheduled, `notified, `enqueued, `owed
      modifies records`status, records`next, records`wakeOnReady
      ensures Is(R.JoinTask(r, t, target))
    {
      var task := tasks[target];
      if task.status == R.Finished {
        Wake(t, r);
      } else {
        task.wakeOnReady := [t] + task.wakeOnReady;
      }
    }

    /** The head leaves the list, and its record is reset. */
    method Unlink(ghost status: seq<R.Status>, ghost next: seq<int>, ghost joiners: seq<seq<nat>>,
                  ghost first: int, ghost last: int) returns (t: nat)
      requires Holds(status, next, joiners, first, last) && 0 <= first < |tasks| && NIL <= next[first] < |tasks|
      modifies `pollHead, `pollTail, records`status, records`next
      ensures t == first
      ensures Holds(status[first := R.Suspended], next[first := NIL], joiners, next[first],
                    if next[first] == NIL then NIL else last)
    {
      var task := pollHead;
      t := task.id;
      pollHead := task.next;
      if pollHead == null {
        pollTail := null;
      }
      task.status := R.Suspended;
      task.next := null;
    }

    /** The drain loop takes the head off before it polls it. */
    method TakeHead(ghost r: R.Queue) returns (t: nat)
      requires R.Shaped(r) && Is(r) && pollHead != null
      modifies `pollHead, `pollTail, `polls, `owed, records`status, records`next
      ensures t == r.head && Is(R.TakeHead(r))
    {
      t := Unlink(r.status, r.next, r.joiners, r.head, r.tail);
      polls, owed := polls + [t], owed - {t};
    }

    method Act(t: nat, a: R.Action, ghost r: R.Queue)
      requires R.Shaped(r) && Is(r) && t < |tasks| && R.ActionInRange(r, a)
      modifies this, records
      ensures Is(R.Act(r, t, a))
      ensures fresh(records - old(records))
    {
      match a
      case WakeTask(u) => Wake(u, r);
      case Spawn => var task := SpawnTask(r);
      case JoinOn(u) => JoinTask(t, u, r);
    }

    /** What a task does through the runtime while it is polled. */
    method ActAll(t: nat, actions: seq<R.Action>, ghost r: R.Queue) returns (ghost s: R.Queue)
      requires R.Shaped(r) && Is(r) && t < |tasks| && R.AllInRange(r, t, actions)
      modifies this, records
      ensures s == R.ActAll(r, t, actions) && Is(s)
      ensures fresh(records - old(records))
    {
      s := r;
      var k := 0;
      assert actions[0..] == actions;
      while k < |actions|
        invariant k <= |actions| && R.Shaped(s) && Is(s) && t < |s.status|
        invariant fresh(records - old(records))
        invariant R.AllInRange(s, t, actions[k..])
        invariant R.ActAll(s, t, actions[k..]) == R.ActAll(r, t, actions)
      {
        FromPosition(actions, k);
        Act(t, actions[k], s);
        s := R.Act(s, t, actions[k]);
        k := k + 1;
      }
    }

    /** task_wake_wakers. */
    method WakeAll(joiners: seq<nat>, ghost r: R.Queue) returns (ghost s: R.Queue)
      requires R.Shaped(r) && Is(r) && InRange(joiners, |r.status|)
      modifies `pollHead, `pollTail, `pollScheduled, `notified, `enqueued, `owed, records`status, records`next
      ensures s == R.WakeAll(r, joiners) && Is(s)
    {
      s := r;
      var k := 0;
      assert joiners[0..] == joiners;
      while k < |joiners|
        invariant k <= |joiners| && R.Shaped(s) && Is(s) && InRange(joiners[k..], |s.status|)
        invariant R.WakeAll(s, joiners[k..]) == R.WakeAll(r, joiners)
      {
        FromPosition(joiners, k);
        Wake(joiners[k], s);
        s := R.Wake(s, joiners[k]);
        k := k + 1;
      }
    }

    /** The end of a task; its joiners are woken, latest first. */
    method FinishTask(t: nat, ghost r: R.Queue) returns (ghost s: R.Queue)
      requires R.Shaped(r) && Is(r) && t < |tasks|
      modifies `pollHead, `pollTail, `pollScheduled, `notified, `enqueued, `owed, records
      ensures s == R.FinishTask(r, t) && Is(s)
    {
      var joiners := tasks[t].wakeOnReady;
      SetStatus(t, R.Finished, r.status);
      tasks[t].wakeOnReady := [];
      s := r.(status := r.status[t := R.Finished], joiners := r.joiners[t := []]);
      s := WakeAll(joiners, s);
    }

    /** The head is taken off and its future polled. */
    method RunHead(o: R.Outcome, ghost r: R.Queue) returns (t: nat, ghost s: R.Queue)
      requires R.Shaped(r) && Is(r) && pollHead != null && R.AllInRange(R.TakeHead(r), r.head, o.actions)
      modifies this, records
      ensures t == r.head && s == R.ActAll(R.TakeHead(r), t, o.actions)
      ensures Is(s) && fresh(records - old(records))
    {
      t := TakeHead(r);
      s := ActAll(t, o.actions, R.TakeHead(r));
    }

    /** One turn of the drain loop. */
    method PollHead(o: R.Outcome, ghost r: R.Queue) returns (ghost s: R.Queue)
      requires R.Shaped(r) && Is(r) && pollHead != null && R.AllInRange(R.TakeHead(r), r.head, o.actions)
      modifies this, records
      ensures s == R.PollHead(r, o) && Is(s) && fresh(records - old(records))
    {
      var t;
      t, s := RunHead(o, r);
      if o.ready {
        s := FinishTask(t, s);
      }
    }

    /** The turn for which the outcome at position k stands. */
    method NextTurn(outcomes: seq<R.Outcome>, k: nat, ghost r: R.Queue, ghost goal: R.Queue) returns (ghost s: R.Queue)
      requires R.Shaped(r) && Is(r) && pollHead != null && k <= |outcomes|
      requires LeadsTo(r, outcomes[k..], goal) && goal.head == NIL
      modifies this, records
      ensures k < |outcomes| && R.Shaped(s) && Is(s) && fresh(records - old(records))
      ensures LeadsTo(s, outcomes[k + 1..], goal)
    {
      TurnUnfold(r, outcomes[k..]);
      FromPosition(outcomes, k);
      s := PollHead(outcomes[k], r);
    }

    /** The drain loop: poll until the list is empty. */
    method DrainLoop(outcomes: seq<R.Outcome>, ghost r: R.Queue) returns (ghost s: R.Queue)
      requires R.Shaped(r) && Is(r) && R.TurnsInRange(r, outcomes) && R.Drained(r, outcomes).head == NIL
      modifies this, records
      ensures s == R.Drained(r, outcomes) && Is(s)
    {
      s := r;
      var k := 0;
      ghost var goal := R.Drained(r, outcomes);
      assert outcomes[0..] == outcomes;
      while pollHead != null
        invariant k <= |outcomes| && R.Shaped(s) && Is(s) && fresh(records - old(records))
        invariant LeadsTo(s, outcomes[k..], goal)
        decreases |outcomes| - k
      {
        s := NextTurn(outcomes, k, s, goal);
        k := k + 1;
      }
    }

    /** The eventfd is read. */
    method StartDrain(ghost r: R.Queue)
      requires R.Shaped(r) && Is(r)
      modifies `notified, `draining
      ensures Is(R.DrainStart(r))
    {
      notified, draining := 0, true;
    }

    /** The list is empty; the next wake notifies again. */
    method EndDrain(ghost r: R.Queue)
      requires R.Shaped(r) && Is(r)
      modifies `pollScheduled, `draining
      ensures Is(R.DrainEnd(r))
    {
      pollScheduled, draining := false, false;
    }

    /** The eventfd branch of worker_run: read the counter, drain, and let the next
        wake notify again. */
    method Drain(outcomes: seq<R.Outcome>, ghost r: R.Queue) returns (ghost s: R.Queue)
      requires R.Shaped(r) && Is(r) && R.TurnsInRange(R.DrainStart(r), outcomes)
      requires R.Drained(R.DrainStart(r), outcomes).head == NIL
      modifies this, records
      ensures s == R.DrainEnd(R.Drained(R.DrainStart(r), outcomes)) && Is(s)
    {
      StartDrain(r);
      s := DrainLoop(outcomes, R.DrainStart(r));
      EndDrain(s);
      s := R.DrainEnd(s);
    }
  }
}
