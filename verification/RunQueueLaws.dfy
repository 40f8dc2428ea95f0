/** The run queue never loses or duplicates a task, and never sleeps on one. */
module RunQueueLaws {
  import opened IntrusiveList
  import opened RunQueue

  // ---- invariants ----

  /** The list holds q; every other task has no link. */
  ghost predicate Links(r: Queue, q: seq<nat>) {
    && Shaped(r) && ListOf(r.next, r.head, r.tail, q)
    && forall t :: 0 <= t < |r.next| && t !in q ==> r.next[t] == NIL
  }

  /** A task is scheduled exactly when it is in the list, and that is exactly
      when it was woken after its last poll. */
  ghost predicate Statuses(r: Queue, q: seq<nat>) {
    && (forall t :: 0 <= t < |r.status| ==> (r.status[t] == Scheduled <==> t in q))
    && (forall t :: t in r.owed <==> t in q)
  }

  /** A nonempty list is announced: the eventfd is readable or a drain runs. */
  ghost predicate Announced(r: Queue, q: seq<nat>) {
    && (q != [] ==> r.pollScheduled)
    && (r.pollScheduled <==> r.notified > 0 || r.draining)
    && r.notified <= 1 && !(r.notified > 0 && r.draining)
  }

  /** Tasks are polled in the order in which they were put into the list. */
  ghost predicate InOrder(r: Queue, q: seq<nat>) {
    r.enqueued == r.polls + q
  }

  /** Nobody waits for a finished task. */
  ghost predicate NoLateJoiners(r: Queue) {
    |r.joiners| == |r.status| && forall t :: 0 <= t < |r.status| && r.status[t] == Finished ==> r.joiners[t] == []
  }

  ghost predicate Inv(r: Queue, q: seq<nat>) {
    Links(r, q) && Statuses(r, q) && Announced(r, q) && InOrder(r, q)
  }

  lemma InitialInv()
    ensures Inv(Initial(), [])
  {
  }

  /** The tasks waiting after t was woken. */
  function Joined(q: seq<nat>, t: nat): seq<nat> {
    if t in q then q else q + [t]
  }

  lemma WakeLinks(r: Queue, q: seq<nat>, t: nat)
    requires Links(r, q) && Statuses(r, q) && t < |r.status|
    ensures Links(Wake(r, t), Joined(q, t))
  {
    if t !in q {
      LinkLast(r.next, r.head, r.tail, q, t);
    }
  }

  lemma Grow(a: seq<nat>, b: seq<nat>, c: nat)
    ensures (a + b) + [c] == a + (b + [c])
  {
  }

  lemma WakeLaw(r: Queue, q: seq<nat>, t: nat)
    requires Inv(r, q) && t < |r.status|
    ensures Inv(Wake(r, t), Joined(q, t))
  {
    WakeLinks(r, q, t);
    Grow(r.polls, q, t);
  }

  /** However often a task is woken before its next poll, it is in the list once. */
  lemma RepeatedWakes(r: Queue, q: seq<nat>, t: nat)
    requires Inv(r, q) && t < |r.status|
    ensures Wake(Wake(r, t), t) == Wake(r, t)
  {
  }

  /** The tasks put into the list and not polled yet. */
  function Waiting(r: Queue): seq<nat> {
    if |r.polls| <= |r.enqueued| then r.enqueued[|r.polls|..] else []
  }

  ghost predicate Ok(r: Queue) {
    Inv(r, Waiting(r)) && NoLateJoiners(r)
  }

  lemma WaitingIs(r: Queue, q: seq<nat>)
    requires InOrder(r, q)
    ensures Waiting(r) == q
  {
  }

  /** What happens to the queue while a task runs or outside of polls. */
  ghost predicate Grows(r: Queue, s: Queue) {
    && Ok(s) && r.polls == s.polls && Waiting(r) <= Waiting(s) && r.enqueued <= s.enqueued
    && r.draining == s.draining && |r.status| <= |s.status|
  }

  lemma GrowsTransitive(r: Queue, s: Queue, t: Queue)
    ensures Grows(r, s) && Grows(s, t) ==> Grows(r, t)
  {
  }

  lemma GrowsSelf(r: Queue)
    ensures Ok(r) ==> Grows(r, r)
  {
  }

  lemma JoinedGrows(q: seq<nat>, t: nat)
    ensures q <= Joined(q, t) && t in Joined(q, t)
  {
  }

  lemma WakeFields(r: Queue, t: nat)
    requires Shaped(r) && t < |r.status|
    ensures var s := Wake(r, t);
            && r.polls == s.polls && r.enqueued <= s.enqueued && r.draining == s.draining
            && |r.status| == |s.status| && (NoLateJoiners(r) ==> NoLateJoiners(s))
  {
  }

  lemma WakeGrows(r: Queue, t: nat)
    requires Ok(r) && t < |r.status|
    ensures Grows(r, Wake(r, t)) && t in Waiting(Wake(r, t))
  {
    var s, q := Wake(r, t), Joined(Waiting(r), t);
    WakeLaw(r, Waiting(r), t);
    WaitingIs(s, q);
    JoinedGrows(Waiting(r), t);
    WakeFields(r, t);
    assert Inv(s, Waiting(s));
  }

  /** A new task, not yet in the list. */
  function Created(r: Queue): Queue {
    r.(status := r.status + [Suspended], next := r.next + [NIL], joiners := r.joiners + [[]])
  }

  lemma CreatedOk(r: Queue)
    requires Ok(r)
    ensures Ok(Created(r)) && Waiting(Created(r)) == Waiting(r)
  {
    CreatedLinks(r, Waiting(r), Created(r));
    CreatedRest(r, Waiting(r), Created(r));
  }

  lemma CreatedLinks(r: Queue, q: seq<nat>, s: Queue)
    requires Links(r, q) && s == Created(r)
    ensures Links(s, q)
  {
    forall k | 0 <= k < |q|
      ensures s.next[q[k]] == At(q, k + 1)
    {
      assert r.next[q[k]] == At(q, k + 1);
    }
  }

  lemma CreatedRest(r: Queue, q: seq<nat>, s: Queue)
    requires Shaped(r) && InRange(q, |r.next|) && Statuses(r, q) && NoLateJoiners(r) && s == Created(r)
    ensures Statuses(s, q) && NoLateJoiners(s)
  {
  }

  lemma SpawnGrows(r: Queue)
    requires Ok(r)
    ensures Grows(r, SpawnTask(r)) && |r.status| in Waiting(SpawnTask(r))
  {
    CreatedOk(r);
    WakeGrows(Created(r), |r.status|);
  }

  lemma ActGrows(r: Queue, t: nat, a: Action)
    requires Ok(r) && t < |r.status| && ActionInRange(r, a)
    ensures Grows(r, Act(r, t, a))
  {
    match a
    case WakeTask(u) => WakeGrows(r, u);
    case Spawn => SpawnGrows(r);
    case JoinOn(u) =>
      if r.status[u] == Finished {
        WakeGrows(r, t);
      }
  }

  lemma {:induction false} ActAllGrows(r: Queue, t: nat, actions: seq<Action>)
    requires Ok(r) && t < |r.status| && AllInRange(r, t, actions)
    ensures Grows(r, ActAll(r, t, actions))
    decreases |actions|
  {
    if actions != [] {
      var s := Act(r, t, actions[0]);
      ActGrows(r, t, actions[0]);
      ActAllGrows(s, t, actions[1..]);
      GrowsTransitive(r, s, ActAll(s, t, actions[1..]));
    }
  }

  lemma StaysWaiting(r: Queue, s: Queue, t: nat)
    ensures Grows(r, s) && t in Waiting(r) ==> t in Waiting(s)
  {
  }

  lemma {:induction false} WakeAllGrows(r: Queue, tasks: seq<nat>)
    requires Ok(r) && InRange(tasks, |r.status|)
    ensures Grows(r, WakeAll(r, tasks))
    decreases |tasks|
  {
    if tasks == [] {
      GrowsSelf(r);
    } else {
      var s := Wake(r, tasks[0]);
      WakeGrows(r, tasks[0]);
      WakeAllGrows(s, tasks[1..]);
      GrowsTransitive(r, s, WakeAll(s, tasks[1..]));
    }
  }

  lemma WakeAllUnfold(r: Queue, tasks: seq<nat>, s: Queue, rest: seq<nat>, last: Queue)
    requires Shaped(r) && InRange(tasks, |r.status|) && tasks != [] && last == WakeAll(r, tasks)
    requires s == Wake(r, tasks[0]) && rest == tasks[1..]
    ensures last == WakeAll(s, rest)
  {
  }

  lemma {:induction false} WakeAllReaches(r: Queue, tasks: seq<nat>, k: nat, last: Queue)
    requires Ok(r) && InRange(tasks, |r.status|) && k < |tasks| && last == WakeAll(r, tasks)
    ensures tasks[k] in Waiting(last)
    decreases |tasks|
  {
    var s, rest := Wake(r, tasks[0]), tasks[1..];
    WakeGrows(r, tasks[0]);
    WakeAllUnfold(r, tasks, s, rest, last);
    if k == 0 {
      WakeAllGrows(s, rest);
      StaysWaiting(s, last, tasks[0]);
    } else {
      WakeAllReaches(s, rest, k - 1, last);
      assert rest[k - 1] == tasks[k];
    }
  }

  // ---- one turn of the drain ----

  lemma TakeHeadList(next: seq<int>, head: int, tail: int, q: seq<nat>)
    requires ListOf(next, head, tail, q) && q != []
    ensures head == q[0] < |next| && q[0] !in q[1..]
    ensures ListOf(next[head := NIL], next[head], if next[head] == NIL then NIL else tail, q[1..])
  {
    ChainTail(next, head, q);
    OtherLink(next, next[head], q[1..], head, NIL);
  }

  lemma TakeHeadLinks(r: Queue, q: seq<nat>)
    requires Links(r, q) && q != []
    ensures r.head == q[0] && Links(TakeHead(r), q[1..]) && q[0] !in q[1..]
  {
    TakeHeadList(r.next, r.head, r.tail, q);
    forall t | 0 <= t < |r.next| && t !in q[1..] && t != q[0]
      ensures t !in q
    {
    }
  }

  lemma TakeHeadLaw(r: Queue)
    requires Ok(r) && r.head != NIL && r.draining
    ensures Ok(TakeHead(r)) && Waiting(r) != [] && r.head == Waiting(r)[0]
    ensures Waiting(TakeHead(r)) == Waiting(r)[1..] && TakeHead(r).joiners == r.joiners
    ensures TakeHead(r).status == r.status[r.head := Suspended] && TakeHead(r).next[r.head] == NIL
  {
    var q := Waiting(r);
    TakeHeadLinks(r, q);
    HeadTail(r.polls, q);
    WaitingIs(TakeHead(r), q[1..]);
    assert forall t :: t in q <==> t == q[0] || t in q[1..];
  }

  /** The future is done: the status changes and the joiners are taken off. */
  function Marked(r: Queue, t: nat): Queue
    requires Shaped(r) && t < |r.status|
  {
    r.(status := r.status[t := Finished], joiners := r.joiners[t := []])
  }

  lemma FinishKeeps(r: Queue, t: nat)
    requires Ok(r) && t < |r.status| && t !in Waiting(r)
    ensures Ok(Marked(r, t))
  {
  }

  lemma FinishLaw(r: Queue, t: nat)
    requires Ok(r) && t < |r.status| && t !in Waiting(r)
    ensures Grows(r, FinishTask(r, t))
    ensures forall k :: 0 <= k < |r.joiners[t]| ==> r.joiners[t][k] in Waiting(FinishTask(r, t))
  {
    FinishKeeps(r, t);
    WakeAllGrows(Marked(r, t), r.joiners[t]);
    forall k | 0 <= k < |r.joiners[t]|
      ensures r.joiners[t][k] in Waiting(FinishTask(r, t))
    {
      WakeAllReaches(Marked(r, t), r.joiners[t], k, FinishTask(r, t));
    }
  }

  /** The queue is out of order on account of t: it is in the list though it has
      finished, or something is in the list twice. */
  ghost predicate Broken(r: Queue, t: nat) {
    && Shaped(r) && t < |r.status| && |r.polls| <= |r.enqueued| && t in Waiting(r)
    && (r.status[t] == Finished || !NoRepeats(Waiting(r)))
  }

  lemma BrokenIsNotOk(r: Queue, t: nat)
    requires Broken(r, t)
    ensures !Ok(r)
  {
  }

  lemma WakeWaits(r: Queue, u: nat)
    requires Shaped(r) && u < |r.status| && |r.polls| <= |r.enqueued|
    ensures Waiting(Wake(r, u)) == if r.status[u] == Scheduled then Waiting(r) else Waiting(r) + [u]
  {
  }

  lemma TwiceRepeats(q: seq<nat>, t: nat)
    requires t in q
    ensures !NoRepeats(q + [t])
  {
    var k :| 0 <= k < |q| && q[k] == t;
    assert (q + [t])[k] == (q + [t])[|q|];
  }

  lemma StillRepeats(q: seq<nat>, u: nat)
    requires !NoRepeats(q)
    ensures !NoRepeats(q + [u])
  {
    var i, k :| 0 <= i < k < |q| && q[i] == q[k];
    assert (q + [u])[i] == (q + [u])[k];
  }

  lemma WakeStaysBroken(r: Queue, t: nat, u: nat)
    requires Broken(r, t) && u < |r.status|
    ensures Broken(Wake(r, u), t)
  {
    WakeWaits(r, u);
    if u == t {
      TwiceRepeats(Waiting(r), t);
    } else if r.status[t] != Finished {
      StillRepeats(Waiting(r), u);
    }
  }

  lemma {:induction false} WakeAllStaysBroken(r: Queue, t: nat, tasks: seq<nat>)
    requires Broken(r, t) && InRange(tasks, |r.status|)
    ensures Broken(WakeAll(r, tasks), t)
    decreases |tasks|
  {
    if tasks != [] {
      WakeStaysBroken(r, t, tasks[0]);
      WakeAllStaysBroken(Wake(r, tasks[0]), t, tasks[1..]);
    }
  }

  lemma FinishBreaks(r: Queue, t: nat, s: Queue)
    requires Shaped(r) && |r.polls| <= |r.enqueued| && t < |r.status| && t in Waiting(r) && s == FinishTask(r, t)
    ensures !Ok(s)
  {
    var m := Marked(r, t);
    assert Waiting(m) == Waiting(r);
    WakeAllStaysBroken(m, t, r.joiners[t]);
    BrokenIsNotOk(s, t);
  }

  /** Finishing a task, with the wakes of its joiners, keeps the queue in order exactly
      if the task is not in the list, that is, if its last poll did not wake it
      again. */
  lemma FinishKeepsIff(r: Queue, t: nat)
    requires Ok(r) && t < |r.status|
    ensures Ok(FinishTask(r, t)) <==> t !in Waiting(r)
  {
    if t in Waiting(r) {
      FinishBreaks(r, t, FinishTask(r, t));
    } else {
      FinishLaw(r, t);
    }
  }

  /** A poll that reports ready has not woken its own task. */
  ghost predicate LegalTurn(r: Queue, o: Outcome) {
    && Shaped(r) && r.head != NIL && r.draining && AllInRange(TakeHead(r), r.head, o.actions)
    && (o.ready ==> r.head !in Waiting(ActAll(TakeHead(r), r.head, o.actions)))
  }

  /** A turn polls the task at the head; all others keep their place, and what
      the poll wakes comes behind them. */
  lemma TurnLaw(r: Queue, o: Outcome)
    requires Ok(r) && LegalTurn(r, o)
    ensures var s := PollHead(r, o);
            && Waiting(r) != [] && Ok(s) && s.polls == r.polls + [Waiting(r)[0]]
            && Waiting(r)[1..] <= Waiting(s) && r.enqueued <= s.enqueued && s.draining
  {
    var taken := TakeHead(r);
    var acted := ActAll(taken, r.head, o.actions);
    TakeHeadLaw(r);
    ActAllGrows(taken, r.head, o.actions);
    if o.ready {
      FinishLaw(acted, r.head);
      GrowsTransitive(taken, acted, FinishTask(acted, r.head));
    }
  }

  /** A turn that ends its task keeps the queue in order exactly if the poll has not
      left that task in the list. */
  lemma TurnKeepsIff(r: Queue, o: Outcome, acted: Queue)
    requires Ok(r) && r.head != NIL && r.draining && AllInRange(TakeHead(r), r.head, o.actions)
    requires acted == ActAll(TakeHead(r), r.head, o.actions)
    ensures Ok(PollHead(r, o)) <==> (o.ready ==> r.head !in Waiting(acted))
  {
    TakeHeadLaw(r);
    ActAllGrows(TakeHead(r), r.head, o.actions);
    if o.ready {
      FinishKeepsIff(acted, r.head);
    }
  }

  lemma WokenIsLast(r: Queue, t: nat)
    requires Ok(r) && t < |r.status| && t !in Waiting(r)
    ensures Ok(Wake(r, t)) && t in Waiting(Wake(r, t))
  {
    WakeLaw(r, Waiting(r), t);
    WaitingIs(Wake(r, t), Waiting(r) + [t]);
    WakeFields(r, t);
    assert (Waiting(r) + [t])[|Waiting(r)|] == t;
  }

  lemma OneAction(r: Queue, t: nat, a: Action)
    requires Shaped(r) && t < |r.status| && ActionInRange(r, a)
    ensures AllInRange(r, t, [a]) && ActAll(r, t, [a]) == Act(r, t, a)
  {
    assert [a][1..] == [] && AllInRange(Act(r, t, a), t, []) && ActAll(Act(r, t, a), t, []) == Act(r, t, a);
  }

  /** Any task at the head that wakes itself in its last poll, as one that awaits a
      select can. */
  lemma SelfWakeBreaks(r: Queue, o: Outcome)
    requires Ok(r) && r.head != NIL && r.draining && o == Outcome([WakeTask(r.head)], true)
    ensures AllInRange(TakeHead(r), r.head, o.actions)
    ensures !Ok(PollHead(r, o))
  {
    var taken := TakeHead(r);
    HeadIsTaken(r, taken);
    OneAction(taken, r.head, WakeTask(r.head));
    WokenIsLast(taken, r.head);
    TurnKeepsIff(r, o, Wake(taken, r.head));
  }

  lemma HeadIsTaken(r: Queue, taken: Queue)
    requires Ok(r) && r.head != NIL && r.draining && taken == TakeHead(r)
    ensures Ok(taken) && r.head < |taken.status| && r.head !in Waiting(taken)
  {
    TakeHeadLaw(r);
  }

  /** A task at the head that wakes itself and is not done stays in the list and will be
      polled again, whether what it waits for has happened or not. */
  lemma SelfWakeIsPolledAgain(r: Queue, o: Outcome)
    requires Ok(r) && r.head != NIL && r.draining && o == Outcome([WakeTask(r.head)], false)
    ensures LegalTurn(r, o) && Ok(PollHead(r, o)) && r.head in Waiting(PollHead(r, o))
  {
    var taken := TakeHead(r);
    HeadIsTaken(r, taken);
    OneAction(taken, r.head, WakeTask(r.head));
    WokenIsLast(taken, r.head);
  }

  lemma FirstTask(r: Queue)
    requires r == DrainStart(SpawnTask(Initial()))
    ensures r == Queue([Scheduled], [NIL], [[]], 0, 0, true, 0, true, [0], [], {0}) && Ok(r)
  {
    var start, s := Initial(), SpawnTask(Initial());
    InitialInv();
    assert Waiting(start) == [];
    SpawnGrows(start);
    FirstSpawned(start, s);
    StartKeeps(s, r);
  }

  lemma FirstSpawned(start: Queue, s: Queue)
    requires start == Initial() && s == SpawnTask(start)
    ensures s == Queue([Scheduled], [NIL], [[]], 0, 0, true, 1, false, [0], [], {0})
  {
    var c := Created(start);
    assert c.status == [Suspended] && c.next == [NIL] && c.joiners == [[]];
    assert s == Wake(c, 0);
  }

  lemma StartKeeps(s: Queue, r: Queue)
    requires Ok(s) && s.notified > 0 && r == DrainStart(s)
    ensures Ok(r)
  {
    assert Waiting(r) == Waiting(s);
  }

  lemma FirstTaskTaken(r: Queue, taken: Queue, woken: Queue)
    requires r == Queue([Scheduled], [NIL], [[]], 0, 0, true, 0, true, [0], [], {0})
    requires taken == TakeHead(r) && woken == Wake(taken, 0)
    ensures woken == Queue([Scheduled], [NIL], [[]], 0, 0, true, 0, true, [0, 0], [0], {0})
  {
    assert taken == Queue([Suspended], [NIL], [[]], NIL, NIL, true, 0, true, [0], [0], {});
    assert woken.enqueued == [0] + [0];
  }

  /** It can be the first task of a runtime in its first turn: it is finished and at
      the head of the list. */
  lemma FirstTaskSelfWakes(r: Queue, o: Outcome)
    requires r == DrainStart(SpawnTask(Initial())) && r.head != NIL && o == Outcome([WakeTask(r.head)], true)
    ensures Ok(r) && r.draining && AllInRange(TakeHead(r), r.head, o.actions)
    ensures var s := PollHead(r, o); s.head == 0 && s.status == [Finished] && !Ok(s)
  {
    FirstTask(r);
    SelfWakeBreaks(r, o);
    var taken := TakeHead(r);
    var woken := Wake(taken, 0);
    OneAction(taken, r.head, WakeTask(r.head));
    FirstTaskTaken(r, taken, woken);
    FirstTaskEnds(woken, FinishTask(woken, 0));
  }

  lemma FirstTaskEnds(woken: Queue, s: Queue)
    requires Shaped(woken) && woken.status == [Scheduled] && woken.joiners == [[]] && woken.head == 0
    requires s == FinishTask(woken, 0)
    ensures s.status == [Finished] && s.head == 0
  {
    assert woken.joiners[0 := []] == woken.joiners && woken.status[0 := Finished] == [Finished];
  }

  // ---- runs ----

  datatype Event =
    | OutsideWake(task: nat)
    | OutsideSpawn
    | Readable
    | Turn(outcome: Outcome)
    | Empty

  ghost predicate Legal(r: Queue, e: Event) {
    && Shaped(r)
    && match e
       case OutsideWake(t) => t < |r.status|
       case OutsideSpawn => true
       case Readable => r.notified > 0
       case Turn(o) => LegalTurn(r, o)
       case Empty => r.draining && r.head == NIL
  }

  function Step(r: Queue, e: Event): (s: Queue)
    requires Legal(r, e)
    ensures Shaped(s)
  {
    match e
    case OutsideWake(t) => Wake(r, t)
    case OutsideSpawn => SpawnTask(r)
    case Readable => DrainStart(r)
    case Turn(o) => PollHead(r, o)
    case Empty => DrainEnd(r)
  }

  ghost predicate AllLegal(r: Queue, events: seq<Event>)
    decreases |events|
  {
    events == [] || (Legal(r, events[0]) && AllLegal(Step(r, events[0]), events[1..]))
  }

  function Run(r: Queue, events: seq<Event>): Queue
    requires AllLegal(r, events)
    decreases |events|
  {
    if events == [] then r else Run(Step(r, events[0]), events[1..])
  }

  function Turns(events: seq<Event>): nat {
    if events == [] then 0 else (if events[0].Turn? then 1 else 0) + Turns(events[1..])
  }

  /** What every step keeps and how it moves the history. */
  ghost predicate Moves(r: Queue, s: Queue, turns: nat) {
    Ok(s) && r.enqueued <= s.enqueued && |s.polls| == |r.polls| + turns
  }

  lemma StepMoves(r: Queue, e: Event)
    requires Ok(r) && Legal(r, e)
    ensures Moves(r, Step(r, e), if e.Turn? then 1 else 0)
  {
    match e
    case OutsideWake(t) => WakeGrows(r, t);
    case OutsideSpawn => SpawnGrows(r);
    case Turn(o) => TurnLaw(r, o);
    case Readable =>
    case Empty =>
  }

  lemma MovesTransitive(r: Queue, s: Queue, t: Queue, a: nat, b: nat)
    ensures Moves(r, s, a) && Moves(s, t, b) ==> Moves(r, t, a + b)
  {
  }

  /** In every run: a task is scheduled exactly when it is linked once, woken
      tasks are never forgotten, and while one waits the worker is notified or
      already draining. */
  lemma {:induction false} RunKeeps(r: Queue, events: seq<Event>, s: Queue, turns: nat)
    requires Ok(r) && AllLegal(r, events) && s == Run(r, events) && turns == Turns(events)
    ensures Moves(r, s, turns)
    decreases |events|
  {
    if events != [] {
      var m, one := Step(r, events[0]), if events[0].Turn? then 1 else 0;
      StepMoves(r, events[0]);
      RunKeeps(m, events[1..], s, turns - one);
      MovesTransitive(r, m, s, one, turns - one);
    }
  }

  /** First in, first out: the task at position p of the list is polled by the
      turn number p + 1 from now, whatever happens in between. */
  lemma PolledInOrder(r: Queue, p: nat, events: seq<Event>, s: Queue)
    requires Ok(r) && AllLegal(r, events) && p < |Waiting(r)| && Turns(events) > p && s == Run(r, events)
    ensures |s.polls| > |r.polls| + p && s.polls[|r.polls| + p] == Waiting(r)[p]
  {
    RunKeeps(r, events, s, Turns(events));
    assert s.enqueued == s.polls + Waiting(s);
    assert s.polls[|r.polls| + p] == s.enqueued[|r.polls| + p] == r.enqueued[|r.polls| + p];
  }

  /** A finished task is polled again only if it was woken, and so put into the list
      once more, after it had finished. */
  lemma PolledAgainOnlyIfWoken(r: Queue, t: nat, events: seq<Event>, s: Queue, k: nat)
    requires Ok(r) && AllLegal(r, events) && s == Run(r, events)
    requires t < |r.status| && r.status[t] == Finished
    requires |r.polls| <= k < |s.polls| && s.polls[k] == t
    ensures |r.enqueued| <= k < |s.enqueued| && r.enqueued <= s.enqueued && s.enqueued[k] == t
  {
    RunKeeps(r, events, s, Turns(events));
    assert s.enqueued == s.polls + Waiting(s);
    forall i | |r.polls| <= i < |r.enqueued|
      ensures r.enqueued[i] != t
    {
      assert r.enqueued[i] == Waiting(r)[i - |r.polls|];
    }
  }
}
