/** The run queue as its clients see it: a line of tasks that wait, what each task has
    become, and who waits for whom. No links, tails or flags are left. */
module RunQueueTasks {
  import opened IntrusiveList
  import opened RunQueue
  import opened RunQueueLaws

  /** Tasks waiting to be polled, tasks that have ended, joiners with the latest first,
      whether the eventfd is readable, and whether the drain loop runs. */
  datatype Tasks = Tasks(
    waiting: seq<nat>,
    ended: seq<bool>,
    joiners: seq<seq<nat>>,
    readable: bool,
    draining: bool)

  function Ended(status: seq<Status>): (ended: seq<bool>)
    ensures |ended| == |status| && forall k :: 0 <= k < |status| ==> (ended[k] <==> status[k] == Finished)
  {
    seq(|status|, k requires 0 <= k < |status| => status[k] == Finished)
  }

  function View(r: Queue): Tasks {
    Tasks(Waiting(r), Ended(r.status), r.joiners, r.notified > 0, r.draining)
  }

  predicate Fits(a: Tasks) {
    |a.ended| == |a.joiners| && forall k :: 0 <= k < |a.joiners| ==> InRange(a.joiners[k], |a.ended|)
  }

  // ---- the operations ----

  /** A woken task waits, at the end unless it waits already; a wake that finds the
      loop at rest makes the eventfd readable. */
  function Woken(a: Tasks, t: nat): (b: Tasks)
    requires Fits(a) && t < |a.ended|
    ensures Fits(b) && |b.ended| == |a.ended|
  {
    if t in a.waiting then a
    else a.(waiting := a.waiting + [t], ended := a.ended[t := false], readable := a.readable || !a.draining)
  }

  function AllWoken(a: Tasks, tasks: seq<nat>): (b: Tasks)
    requires Fits(a) && InRange(tasks, |a.ended|)
    ensures Fits(b) && |b.ended| == |a.ended|
    decreases |tasks|
  {
    if tasks == [] then a else AllWoken(Woken(a, tasks[0]), tasks[1..])
  }

  function Spawned(a: Tasks): (b: Tasks)
    requires Fits(a)
    ensures Fits(b) && |b.ended| == |a.ended| + 1
  {
    a.(waiting := a.waiting + [|a.ended|], ended := a.ended + [false], joiners := a.joiners + [[]],
       readable := a.readable || !a.draining)
  }

  /** Who joins a task that has ended is woken; else it waits for the end. */
  function Joining(a: Tasks, t: nat, target: nat): (b: Tasks)
    requires Fits(a) && t < |a.ended| && target < |a.ended|
    ensures Fits(b) && |b.ended| == |a.ended|
  {
    if a.ended[target] then Woken(a, t) else a.(joiners := a.joiners[target := [t] + a.joiners[target]])
  }

  /** A task has ended: nobody waits for it any more, and all who did are woken. */
  function Ending(a: Tasks, t: nat): (b: Tasks)
    requires Fits(a) && t < |a.ended|
    ensures Fits(b) && |b.ended| == |a.ended|
  {
    AllWoken(a.(ended := a.ended[t := true], joiners := a.joiners[t := []]), a.joiners[t])
  }

  function Does(a: Tasks, t: nat, action: Action): (b: Tasks)
    requires Fits(a) && t < |a.ended|
    requires (action.WakeTask? || action.JoinOn?) ==> action.task < |a.ended|
    ensures Fits(b) && |b.ended| >= |a.ended|
  {
    match action
    case WakeTask(u) => Woken(a, u)
    case Spawn => Spawned(a)
    case JoinOn(u) => Joining(a, t, u)
  }

  // ---- the queue does just that ----

  lemma WakeIs(r: Queue, t: nat)
    requires Ok(r) && t < |r.status|
    ensures View(Wake(r, t)) == Woken(View(r), t)
  {
    WakeLists(r, t, Wake(r, t));
    WakeLeaves(r, t, Wake(r, t));
    AllListed(r);
    EndedUpdate(r.status, t, Scheduled);
  }

  lemma WakeLists(r: Queue, t: nat, s: Queue)
    requires Ok(r) && t < |r.status| && s == Wake(r, t)
    ensures Waiting(s) == Joined(Waiting(r), t)
  {
    WakeLaw(r, Waiting(r), t);
    WaitingIs(s, Joined(Waiting(r), t));
  }

  lemma WakeLeaves(r: Queue, t: nat, s: Queue)
    requires Shaped(r) && t < |r.status| && s == Wake(r, t)
    ensures s.joiners == r.joiners && s.draining == r.draining
    ensures s.status == if r.status[t] == Scheduled then r.status else r.status[t := Scheduled]
    ensures s.notified == r.notified + if r.status[t] == Scheduled || r.pollScheduled then 0 else 1
  {
  }

  /** What the invariant says of the list and of its announcement. */
  lemma AllListed(r: Queue)
    requires Ok(r)
    ensures forall t :: 0 <= t < |r.status| ==> (r.status[t] == Scheduled <==> t in Waiting(r))
    ensures r.pollScheduled <==> r.notified > 0 || r.draining
  {
  }

  lemma EndedUpdate(status: seq<Status>, t: nat, now: Status)
    requires t < |status|
    ensures Ended(status[t := now]) == Ended(status)[t := now == Finished]
  {
  }

  lemma SpawnIs(r: Queue)
    requires Ok(r)
    ensures View(SpawnTask(r)) == Spawned(View(r))
  {
    var c := Created(r);
    CreatedOk(r);
    WakeIs(c, |r.status|);
    assert |r.status| !in Waiting(r) by {
      assert InRange(Waiting(r), |r.next|);
    }
    assert Ended(c.status) == Ended(r.status) + [false];
    assert (Ended(r.status) + [false])[|r.status| := false] == Ended(r.status) + [false];
  }

  lemma JoinIs(r: Queue, t: nat, target: nat)
    requires Ok(r) && t < |r.status| && target < |r.status|
    ensures View(JoinTask(r, t, target)) == Joining(View(r), t, target)
  {
    if r.status[target] == Finished {
      WakeIs(r, t);
    } else {
      assert Waiting(JoinTask(r, t, target)) == Waiting(r);
    }
  }

  lemma WakeIsOk(r: Queue, t: nat, s: Queue)
    requires Ok(r) && t < |r.status| && s == Wake(r, t)
    ensures Ok(s) && |s.status| == |r.status|
  {
    WakeGrows(r, t);
  }

  lemma ViewFits(r: Queue)
    requires Shaped(r)
    ensures Fits(View(r)) && |View(r).ended| == |r.status|
  {
  }

  lemma {:induction false} WakeAllIs(r: Queue, tasks: seq<nat>, last: Queue, a: Tasks)
    requires Ok(r) && InRange(tasks, |r.status|) && last == WakeAll(r, tasks)
    requires a == View(r) && Fits(a) && |a.ended| == |r.status|
    ensures View(last) == AllWoken(a, tasks)
    decreases |tasks|
  {
    if tasks != [] {
      var s, rest, b := Wake(r, tasks[0]), tasks[1..], Woken(a, tasks[0]);
      FirstWoken(r, tasks, last, s, rest);
      WakeIs(r, tasks[0]);
      AllWokenUnfold(a, tasks, b, rest);
      WakeAllIs(s, rest, last, b);
    }
  }

  lemma FirstWoken(r: Queue, tasks: seq<nat>, last: Queue, s: Queue, rest: seq<nat>)
    requires Ok(r) && InRange(tasks, |r.status|) && tasks != [] && last == WakeAll(r, tasks)
    requires s == Wake(r, tasks[0]) && rest == tasks[1..]
    ensures Ok(s) && InRange(rest, |s.status|) && last == WakeAll(s, rest) && |s.status| == |r.status|
  {
    WakeIsOk(r, tasks[0], s);
    WakeAllUnfold(r, tasks, s, rest, last);
  }

  lemma AllWokenUnfold(a: Tasks, tasks: seq<nat>, b: Tasks, rest: seq<nat>)
    requires Fits(a) && InRange(tasks, |a.ended|) && tasks != [] && b == Woken(a, tasks[0]) && rest == tasks[1..]
    ensures AllWoken(a, tasks) == AllWoken(b, rest)
  {
  }

  lemma FinishIs(r: Queue, t: nat)
    requires Ok(r) && t < |r.status| && t !in Waiting(r)
    ensures View(FinishTask(r, t)) == Ending(View(r), t)
  {
    var m := r.(status := r.status[t := Finished], joiners := r.joiners[t := []]);
    FinishKeeps(r, t);
    assert m == Marked(r, t) && Waiting(m) == Waiting(r);
    assert Ended(m.status) == Ended(r.status)[t := true];
    ViewFits(m);
    WakeAllIs(m, r.joiners[t], FinishTask(r, t), View(m));
  }

  lemma TakeIs(r: Queue)
    requires Ok(r) && r.head != NIL && r.draining
    ensures Waiting(r) != [] && View(TakeHead(r)) == View(r).(waiting := Waiting(r)[1..])
  {
    TakeHeadLaw(r);
    AllListed(r);
    EndedUpdate(r.status, r.head, Suspended);
  }

  lemma ActIs(r: Queue, t: nat, action: Action)
    requires Ok(r) && t < |r.status| && ActionInRange(r, action)
    ensures View(Act(r, t, action)) == Does(View(r), t, action)
  {
    match action
    case WakeTask(u) => WakeIs(r, u);
    case Spawn => SpawnIs(r);
    case JoinOn(u) => JoinIs(r, t, u);
  }

  // ---- turns and runs ----

  predicate Possible(a: Tasks, t: nat, actions: seq<Action>)
    requires Fits(a) && t < |a.ended|
    decreases |actions|
  {
    actions == [] ||
    (((actions[0].WakeTask? || actions[0].JoinOn?) ==> actions[0].task < |a.ended|)
     && Possible(Does(a, t, actions[0]), t, actions[1..]))
  }

  function DoesAll(a: Tasks, t: nat, actions: seq<Action>): (b: Tasks)
    requires Fits(a) && t < |a.ended| && Possible(a, t, actions)
    ensures Fits(b) && |b.ended| >= |a.ended|
    decreases |actions|
  {
    if actions == [] then a else DoesAll(Does(a, t, actions[0]), t, actions[1..])
  }

  lemma {:induction false} ActAllIs(r: Queue, t: nat, actions: seq<Action>, last: Queue)
    requires Ok(r) && t < |r.status| && AllInRange(r, t, actions) && last == ActAll(r, t, actions)
    ensures Possible(View(r), t, actions) && View(last) == DoesAll(View(r), t, actions)
    decreases |actions|
  {
    if actions != [] {
      var s := Act(r, t, actions[0]);
      ActIs(r, t, actions[0]);
      ActGrows(r, t, actions[0]);
      ActAllIs(s, t, actions[1..], last);
    }
  }

  predicate CanTurn(a: Tasks, o: Outcome) {
    && Fits(a) && a.waiting != [] && a.waiting[0] < |a.ended|
    && Possible(a.(waiting := a.waiting[1..]), a.waiting[0], o.actions)
  }

  /** The first task is polled; it acts, and may come to its end. */
  function Turned(a: Tasks, o: Outcome): (b: Tasks)
    requires CanTurn(a, o)
    ensures Fits(b)
  {
    var t := a.waiting[0];
    var acted := DoesAll(a.(waiting := a.waiting[1..]), t, o.actions);
    if o.ready then Ending(acted, t) else acted
  }

  lemma TurnIs(r: Queue, o: Outcome)
    requires Ok(r) && LegalTurn(r, o)
    ensures CanTurn(View(r), o) && View(PollHead(r, o)) == Turned(View(r), o)
  {
    var taken, t := TakeHead(r), r.head;
    var acted := ActAll(taken, t, o.actions);
    TakeHeadLaw(r);
    TakeIs(r);
    ActAllIs(taken, t, o.actions, acted);
    ActAllGrows(taken, t, o.actions);
    if o.ready {
      FinishIs(acted, t);
    }
  }

  predicate CanStep(a: Tasks, e: Event) {
    && Fits(a)
    && match e
       case OutsideWake(t) => t < |a.ended|
       case Turn(o) => CanTurn(a, o)
       case _ => true
  }

  function Stepped(a: Tasks, e: Event): (b: Tasks)
    requires CanStep(a, e)
    ensures Fits(b)
  {
    match e
    case OutsideWake(t) => Woken(a, t)
    case OutsideSpawn => Spawned(a)
    case Readable => a.(readable := false, draining := true)
    case Turn(o) => Turned(a, o)
    case Empty => a.(draining := false)
  }

  lemma StepIs(r: Queue, e: Event)
    requires Ok(r) && Legal(r, e)
    ensures CanStep(View(r), e) && View(Step(r, e)) == Stepped(View(r), e)
  {
    match e
    case OutsideWake(t) => WakeIs(r, t);
    case OutsideSpawn => SpawnIs(r);
    case Turn(o) => TurnIs(r, o);
    case Readable => assert Waiting(DrainStart(r)) == Waiting(r);
    case Empty => assert Waiting(DrainEnd(r)) == Waiting(r);
  }

  predicate CanRun(a: Tasks, events: seq<Event>)
    decreases |events|
  {
    events == [] || (CanStep(a, events[0]) && CanRun(Stepped(a, events[0]), events[1..]))
  }

  function Ran(a: Tasks, events: seq<Event>): Tasks
    requires CanRun(a, events)
    decreases |events|
  {
    if events == [] then a else Ran(Stepped(a, events[0]), events[1..])
  }

  /** In every run the linked, flagged queue of the source is the line of tasks that its
      clients see, and has made of each task what they see. */
  lemma {:induction false} RunRefines(r: Queue, events: seq<Event>, s: Queue)
    requires Ok(r) && AllLegal(r, events) && s == Run(r, events)
    ensures CanRun(View(r), events) && View(s) == Ran(View(r), events)
    decreases |events|
  {
    if events != [] {
      StepIs(r, events[0]);
      StepMoves(r, events[0]);
      RunRefines(Step(r, events[0]), events[1..], s);
    }
  }

  lemma InitialIs()
    ensures Ok(Initial()) && View(Initial()) == Tasks([], [], [], false, false)
  {
    InitialInv();
  }

  // ---- the end of a task ----

  /** Those of tasks that are not in q, each once, in the order of their first place. */
  function Added(q: seq<nat>, tasks: seq<nat>): seq<nat>
    decreases |tasks|
  {
    if tasks == [] then []
    else if tasks[0] in q then Added(q, tasks[1..])
    else [tasks[0]] + Added(q + [tasks[0]], tasks[1..])
  }

  lemma {:induction false} AllWokenLaw(a: Tasks, tasks: seq<nat>, b: Tasks)
    requires Fits(a) && InRange(tasks, |a.ended|) && b == AllWoken(a, tasks)
    requires forall k :: 0 <= k < |a.ended| && k in a.waiting ==> !a.ended[k]
    ensures b.waiting == a.waiting + Added(a.waiting, tasks)
    ensures b.joiners == a.joiners && |b.ended| == |a.ended|
    ensures forall k :: 0 <= k < |a.ended| ==> (b.ended[k] <==> a.ended[k] && k !in tasks)
    decreases |tasks|
  {
    if tasks == [] {
      assert a.waiting + Added(a.waiting, tasks) == a.waiting;
    } else {
      var t, rest := tasks[0], tasks[1..];
      assert tasks == [t] + rest;
      AllWokenLaw(Woken(a, t), rest, b);
      if t !in a.waiting {
        assert (a.waiting + [t]) + Added(a.waiting + [t], rest) == a.waiting + ([t] + Added(a.waiting + [t], rest));
      }
    }
  }

  lemma WaitingHasNotEnded(r: Queue)
    requires Ok(r)
    ensures forall k :: 0 <= k < |r.status| && k in Waiting(r) ==> !Ended(r.status)[k]
  {
  }

  /** When a task that is not in the list ends: it is finished, unless it waited for
      itself; nobody waits for it any more; exactly its joiners are scheduled, those
      not yet in the list at its end with the latest first; nothing else changes. */
  lemma FinishEffect(r: Queue, t: nat, s: Queue)
    requires Ok(r) && t < |r.status| && t !in Waiting(r) && s == FinishTask(r, t)
    ensures Ok(s) && |s.status| == |r.status| && s.joiners == r.joiners[t := []]
    ensures Waiting(s) == Waiting(r) + Added(Waiting(r), r.joiners[t])
    ensures s.status[t] == if t in r.joiners[t] then Scheduled else Finished
    ensures forall k :: 0 <= k < |r.status| && k != t ==>
              s.status[k] == if k in r.joiners[t] then Scheduled else r.status[k]
  {
    FinishIs(r, t);
    FinishLaw(r, t);
    WaitingHasNotEnded(r);
    ViewFits(r);
    EndingLaw(View(r), t, View(s));
    StatusesOf(r, s, t);
  }

  lemma EndingLaw(a: Tasks, t: nat, b: Tasks)
    requires Fits(a) && t < |a.ended| && t !in a.waiting && b == Ending(a, t)
    requires forall k :: 0 <= k < |a.ended| && k in a.waiting ==> !a.ended[k]
    ensures b.waiting == a.waiting + Added(a.waiting, a.joiners[t])
    ensures b.joiners == a.joiners[t := []] && |b.ended| == |a.ended|
    ensures forall k :: 0 <= k < |a.ended| ==> (b.ended[k] <==> (k == t || a.ended[k]) && k !in a.joiners[t])
  {
    AllWokenLaw(a.(ended := a.ended[t := true], joiners := a.joiners[t := []]), a.joiners[t], b);
  }

  lemma StatusesOf(r: Queue, s: Queue, t: nat)
    requires Ok(r) && Ok(s) && t < |r.status| == |s.status| && t !in Waiting(r)
    requires Waiting(s) == Waiting(r) + Added(Waiting(r), r.joiners[t])
    requires forall k :: 0 <= k < |r.status| ==>
               (Ended(s.status)[k] <==> (k == t || Ended(r.status)[k]) && k !in r.joiners[t])
    ensures s.status[t] == if t in r.joiners[t] then Scheduled else Finished
    ensures forall k :: 0 <= k < |r.status| && k != t ==>
              s.status[k] == if k in r.joiners[t] then Scheduled else r.status[k]
  {
    AllListed(r);
    AllListed(s);
    forall k | 0 <= k < |r.status|
      ensures s.status[k] ==
              if k in r.joiners[t] then Scheduled else if k == t then Finished else r.status[k]
    {
      AddedMembers(Waiting(r), r.joiners[t], k);
      StatusOf(r.status[k], s.status[k], k in Waiting(r), k in Waiting(s), k == t, k in r.joiners[t]);
    }
  }

  lemma StatusOf(before: Status, after: Status, listed: bool, listedNow: bool, ends: bool,
                 joins: bool)
    requires (before == Scheduled <==> listed) && (after == Scheduled <==> listedNow)
    requires (listedNow <==> listed || joins)
    requires (ends ==> !listed) && (after == Finished <==> (ends || before == Finished) && !joins)
    ensures after == if joins then Scheduled else if ends then Finished else before
  {
  }

  lemma {:induction false} AddedMembers(q: seq<nat>, tasks: seq<nat>, k: nat)
    ensures k in q + Added(q, tasks) <==> k in q || k in tasks
    decreases |tasks|
  {
    if tasks != [] {
      var t, rest := tasks[0], tasks[1..];
      assert tasks == [t] + rest;
      if t in q {
        AddedMembers(q, rest, k);
      } else {
        AddedMembers(q + [t], rest, k);
        assert (q + [t]) + Added(q + [t], rest) == q + Added(q, tasks);
      }
    }
  }

  // ---- joining ----

  /** A join on a task that has ended puts the joiner into the list; on any other task
      it leaves list and statuses alone and makes the joiner the latest one of that
      task. */
  lemma JoinEffect(r: Queue, t: nat, target: nat, s: Queue)
    requires Ok(r) && t < |r.status| && target < |r.status| && s == JoinTask(r, t, target)
    ensures r.status[target] == Finished ==> Waiting(s) == Joined(Waiting(r), t) && s.joiners == r.joiners
    ensures r.status[target] != Finished ==>
              && Waiting(s) == Waiting(r) && s.status == r.status && |s.joiners| == |r.joiners|
              && s.joiners[target] == [t] + r.joiners[target]
              && forall k :: 0 <= k < |r.joiners| && k != target ==> s.joiners[k] == r.joiners[k]
  {
    JoinIs(r, t, target);
  }

  lemma {:induction false} DoesAllLaw(a: Tasks, t: nat, actions: seq<Action>, b: Tasks, u: nat)
    requires Fits(a) && t < |a.ended| && u < |a.ended| && Possible(a, t, actions) && b == DoesAll(a, t, actions)
    ensures |b.ended| >= |a.ended| && (b.ended[u] ==> a.ended[u])
    ensures forall k :: k in a.joiners[u] ==> k in b.joiners[u]
    decreases |actions|
  {
    if actions != [] {
      DoesAllLaw(Does(a, t, actions[0]), t, actions[1..], b, u);
    }
  }

  /** What a turn makes of its task: finished exactly if it is ready and has not joined
      itself, and then nobody waits for it; suspended or scheduled if it is not ready. */
  lemma TurnEffect(r: Queue, o: Outcome, t: nat, acted: Queue, s: Queue)
    requires Ok(r) && LegalTurn(r, o) && t == r.head && s == PollHead(r, o)
    requires acted == ActAll(TakeHead(r), t, o.actions)
    ensures t < |acted.status| == |s.status| && |s.joiners| == |s.status|
    ensures s.status[t] == Finished <==> o.ready && t !in acted.joiners[t]
    ensures o.ready ==> s.joiners[t] == []
  {
    TakeHeadLaw(r);
    ActAllGrows(TakeHead(r), t, o.actions);
    if o.ready {
      FinishEffect(acted, t, s);
    } else {
      TakeIs(r);
      ViewFits(TakeHead(r));
      ActAllIs(TakeHead(r), t, o.actions, acted);
      DoesAllLaw(View(TakeHead(r)), t, o.actions, View(acted), t);
    }
  }

  // ---- whoever joins is woken ----

  /** The turn in which task u ends. */
  predicate Ends(r: Queue, e: Event, u: nat) {
    e.Turn? && e.outcome.ready && r.head == u
  }

  lemma SteppedKeeps(a: Tasks, e: Event, b: Tasks, u: nat, t: nat)
    requires CanStep(a, e) && b == Stepped(a, e) && u < |a.ended| && t in a.joiners[u]
    requires e.Turn? && e.outcome.ready ==> a.waiting[0] != u
    ensures u < |b.ended| && t in b.joiners[u]
  {
    if e.Turn? {
      var h := a.waiting[0];
      var taken := a.(waiting := a.waiting[1..]);
      var acted := DoesAll(taken, h, e.outcome.actions);
      DoesAllLaw(taken, h, e.outcome.actions, acted, u);
      if e.outcome.ready {
        EndingKeeps(acted, h, b, u);
      }
    }
  }

  lemma EndingKeeps(a: Tasks, h: nat, b: Tasks, u: nat)
    requires Fits(a) && h < |a.ended| && u < |a.ended| && u != h && b == Ending(a, h)
    ensures |b.ended| == |a.ended| && b.joiners[u] == a.joiners[u]
  {
    AllWokenKeeps(a.(ended := a.ended[h := true], joiners := a.joiners[h := []]), a.joiners[h], b);
  }

  lemma {:induction false} AllWokenKeeps(a: Tasks, tasks: seq<nat>, b: Tasks)
    requires Fits(a) && InRange(tasks, |a.ended|) && b == AllWoken(a, tasks)
    ensures b.joiners == a.joiners && |b.ended| == |a.ended|
    decreases |tasks|
  {
    if tasks != [] {
      AllWokenKeeps(Woken(a, tasks[0]), tasks[1..], b);
    }
  }

  lemma EndWakes(r: Queue, o: Outcome, u: nat, t: nat, s: Queue)
    requires Ok(r) && LegalTurn(r, o) && o.ready && r.head == u && s == PollHead(r, o)
    requires u < |r.joiners| && t in r.joiners[u]
    ensures t in Waiting(s)
  {
    var taken := TakeHead(r);
    var acted := ActAll(taken, u, o.actions);
    TakeHeadLaw(r);
    ActAllGrows(taken, u, o.actions);
    ViewFits(taken);
    ActAllIs(taken, u, o.actions, acted);
    DoesAllLaw(View(taken), u, o.actions, View(acted), u);
    FinishEffect(acted, u, s);
    AddedMembers(Waiting(acted), acted.joiners[u], t);
  }

  /** Along the run t waits for u until u ends, and is in the list after that turn. */
  ghost predicate WokenAtEnd(r: Queue, events: seq<Event>, t: nat, u: nat)
    requires AllLegal(r, events)
    decreases |events|
  {
    if events == [] then u < |r.joiners| && t in r.joiners[u]
    else if Ends(r, events[0], u) then t in Waiting(Step(r, events[0]))
    else WokenAtEnd(Step(r, events[0]), events[1..], t, u)
  }

  lemma StepKeepsJoiner(r: Queue, e: Event, t: nat, u: nat, s: Queue)
    requires Ok(r) && Legal(r, e) && u < |r.joiners| && t in r.joiners[u] && s == Step(r, e)
    ensures Ends(r, e, u) ==> t in Waiting(s)
    ensures !Ends(r, e, u) ==> u < |s.joiners| && t in s.joiners[u]
  {
    if Ends(r, e, u) {
      EndWakes(r, e.outcome, u, t, s);
    } else {
      StepIs(r, e);
      if e.Turn? {
        TakeHeadLaw(r);
      }
      SteppedKeeps(View(r), e, View(s), u, t);
    }
  }

  /** In every run a task that waits for another one's end is woken by the turn in which
      that end comes, whatever happens before it. */
  lemma {:induction false} JoinerIsWoken(r: Queue, events: seq<Event>, t: nat, u: nat)
    requires Ok(r) && AllLegal(r, events) && u < |r.joiners| && t in r.joiners[u]
    ensures WokenAtEnd(r, events, t, u)
    decreases |events|
  {
    if events != [] {
      var s := Step(r, events[0]);
      StepKeepsJoiner(r, events[0], t, u, s);
      StepMoves(r, events[0]);
      if !Ends(r, events[0], u) {
        JoinerIsWoken(s, events[1..], t, u);
      }
    }
  }
}
