/** Whole lives of a join or select: polls, wakes in between, and cleanup. */
module JoinRuns {
  import opened Options
  import opened IntrusiveList
  import opened Join
  import opened JoinLaws

  // ---- one poll of the whole join ----

  function AllWakes(outcomes: seq<Outcome>): seq<nat> {
    if outcomes == [] then [] else outcomes[0].wakes + AllWakes(outcomes[1..])
  }

  /** The outcomes of the children of the batch, in walking order. */
  ghost predicate LegalBatch(j: Join, q: seq<nat>, batch: seq<nat>, outcomes: seq<Outcome>)
    decreases |outcomes|
  {
    if batch == [] then outcomes == []
    else
      && outcomes != [] && Shaped(j) && batch[0] < |j.next|
      && InRange(outcomes[0].wakes, |j.next|)
      && Legal(j, q, batch[1..], batch[0], outcomes[0])
      && LegalBatch(PollChild(j, batch[0], outcomes[0]), q + outcomes[0].wakes, batch[1..], outcomes[1..])
  }

  lemma WalkStep(j: Join, q: seq<nat>, batch: seq<nat>, outcomes: seq<Outcome>)
    requires batch != [] && Inv(j, q, batch[0], batch) && LegalBatch(j, q, batch, outcomes)
    ensures var r := PollChild(j, batch[0], outcomes[0]);
            && Inv(r, q + outcomes[0].wakes, j.next[batch[0]], batch[1..])
            && r.polls == j.polls + [batch[0]]
  {
    assert batch == [batch[0]] + batch[1..];
    PollChildLaw(j, q, batch[0], batch[1..], outcomes[0]);
  }

  lemma WakesJoin(q: seq<nat>, outcomes: seq<Outcome>)
    requires outcomes != []
    ensures (q + outcomes[0].wakes) + AllWakes(outcomes[1..]) == q + AllWakes(outcomes)
  {
    Splice(q, q + outcomes[0].wakes, outcomes[0].wakes, AllWakes(outcomes[1..]));
  }

  /** The children of the batch whose poll reports ready, in walking order. */
  function ReadyOf(batch: seq<nat>, outcomes: seq<Outcome>): seq<nat>
    decreases |outcomes|
  {
    if batch == [] || outcomes == [] then []
    else (if outcomes[0].ready then [batch[0]] else []) + ReadyOf(batch[1..], outcomes[1..])
  }

  lemma Splice(a: seq<nat>, b: seq<nat>, c: seq<nat>, d: seq<nat>)
    requires b == a + c
    ensures b + d == a + (c + d)
  {
  }

  lemma {:induction false} WakeAllPicksNobody(j: Join, ids: seq<nat>)
    requires Shaped(j) && InRange(ids, |j.next|)
    ensures WakeAll(j, ids).picked == j.picked
    decreases |ids|
  {
    if ids != [] {
      WakeAllPicksNobody(Wake(j, ids[0]), ids[1..]);
    }
  }

  lemma ChildPicks(j: Join, c: nat, o: Outcome)
    requires Shaped(j) && c < |j.next| && InRange(o.wakes, |j.next|)
    ensures PollChild(j, c, o).picked == j.picked + if o.ready then [c] else []
  {
    WakeAllPicksNobody(j.(polls := j.polls + [c]), o.wakes);
  }

  /** The walk polls every child of the batch once, in order, whatever the
      children wake meanwhile; what they wake is the new list, and those that are
      ready are picked in that order. */
  lemma {:induction false} WalkLaw(j: Join, q: seq<nat>, start: int, batch: seq<nat>, outcomes: seq<Outcome>, r: Join)
    requires Inv(j, q, start, batch) && LegalBatch(j, q, batch, outcomes) && AllInRange(outcomes, |j.next|)
    requires r == Walk(j, start, outcomes)
    ensures Inv(r, q + AllWakes(outcomes), NIL, [])
    ensures r.polls == j.polls + batch && r.picked == j.picked + ReadyOf(batch, outcomes)
    ensures Covers(j, start, outcomes)
    decreases |outcomes|
  {
    if batch == [] {
      Units(q, []);
      Units(j.polls, []);
    } else {
      var c, o, rest := batch[0], outcomes[0], outcomes[1..];
      var m := PollChild(j, c, o);
      WalkStep(j, q, batch, outcomes);
      ChildPicks(j, c, o);
      WalkLaw(m, q + o.wakes, j.next[c], batch[1..], rest, r);
      WakesJoin(q, outcomes);
      HeadTail(j.polls, batch);
      Splice(j.picked, m.picked, if o.ready then [c] else [], ReadyOf(batch[1..], rest));
    }
  }

  lemma DetachedLaw(j: Join, q: seq<nat>)
    requires Inv(j, q, NIL, [])
    ensures Inv(Detached(j), [], j.head, q)
  {
    DetachedLinks(j, q, Detached(j));
    DetachedLedger(j, q, Detached(j));
  }

  lemma DetachedLinks(j: Join, q: seq<nat>, d: Join)
    requires Links(j, q, NIL, []) && d == Detached(j)
    ensures Links(d, [], j.head, q)
  {
  }

  lemma DetachedLedger(j: Join, q: seq<nat>, d: Join)
    requires Ledger(j, q, []) && d == Detached(j)
    ensures Ledger(d, [], q)
  {
    Units(j.polls, q);
  }

  /** One poll of the join: exactly the listed children are polled, in the order
      of their wakes, and the wakes raised meanwhile form the next list. */
  lemma PollLaw(j: Join, q: seq<nat>, outcomes: seq<Outcome>, r: Join, later: seq<nat>)
    requires Inv(j, q, NIL, []) && LegalBatch(Detached(j), [], q, outcomes) && AllInRange(outcomes, |j.next|)
    requires r == Poll(j, outcomes) && later == AllWakes(outcomes)
    ensures Inv(r, later, NIL, [])
    ensures r.polls == j.polls + q && r.picked == j.picked + ReadyOf(q, outcomes)
    ensures Covers(Detached(j), j.head, outcomes)
  {
    DetachedLaw(j, q);
    WalkLaw(Detached(j), [], j.head, q, outcomes, r);
    Units(later, []);
  }

  // ---- runs ----

  /** Between polls a child may be woken from outside. */
  datatype Event = Woken(child: nat) | Polled(outcomes: seq<Outcome>)

  /** The wakes that no poll has answered yet. */
  function Waiting(j: Join): seq<nat> {
    if |j.polls| <= |j.wakes| then j.wakes[|j.polls|..] else []
  }

  ghost predicate LegalEvent(j: Join, e: Event) {
    && Shaped(j)
    && match e
       case Woken(c) => c < |j.alive| && j.alive[c] && c !in Waiting(j)
       case Polled(outcomes) =>
         LegalBatch(Detached(j), [], Waiting(j), outcomes) && AllInRange(outcomes, |j.next|)
  }

  function Step(j: Join, e: Event): (r: Join)
    requires LegalEvent(j, e)
    ensures Shaped(r)
  {
    match e
    case Woken(c) => Wake(j, c)
    case Polled(outcomes) => Poll(j, outcomes)
  }

  ghost predicate AllLegal(j: Join, events: seq<Event>)
    decreases |events|
  {
    events == [] || (LegalEvent(j, events[0]) && AllLegal(Step(j, events[0]), events[1..]))
  }

  function Run(j: Join, events: seq<Event>): Join
    requires AllLegal(j, events)
    decreases |events|
  {
    if events == [] then j else Run(Step(j, events[0]), events[1..])
  }

  lemma WaitingIsList(j: Join, q: seq<nat>)
    requires Inv(j, q, NIL, [])
    ensures Waiting(j) == q
  {
  }

  lemma WokenKeeps(j: Join, q: seq<nat>, c: nat, r: Join, later: seq<nat>)
    requires Inv(j, q, NIL, []) && c < |j.alive| && j.alive[c] && c !in q
    requires r == Wake(j, c) && later == q + [c]
    ensures Inv(r, later, NIL, [])
  {
    OneIsFresh(j, q, c);
    WakeAllLaw(j, q, NIL, [], [c]);
    WakeAllOne(j, c);
  }

  lemma OneIsFresh(j: Join, q: seq<nat>, c: nat)
    requires c < |j.alive| && j.alive[c] && c !in q
    ensures Fresh(j, q, [], [c])
  {
  }

  lemma WakeAllOne(j: Join, c: nat)
    requires Shaped(j) && c < |j.next|
    ensures InRange([c], |j.next|) && WakeAll(j, [c]) == Wake(j, c)
  {
    assert [c][1..] == [] && WakeAll(Wake(j, c), []) == Wake(j, c);
  }

  lemma StepKeeps(j: Join, e: Event, r: Join)
    requires Inv(j, Waiting(j), NIL, []) && LegalEvent(j, e) && r == Step(j, e)
    ensures Inv(r, Waiting(r), NIL, [])
  {
    var q := Waiting(j);
    var later := match e case Woken(c) => q + [c] case Polled(outcomes) => AllWakes(outcomes);
    match e {
      case Woken(c) => WokenKeeps(j, q, c, r, later);
      case Polled(outcomes) => PollLaw(j, q, outcomes, r, later);
    }
    WaitingIsList(r, later);
  }

  /** In every run with at most one wake per child between two of its polls, the
      linked list is exactly the unanswered wakes in order: none is lost,
      repeated or overtaken, and as long as one waits the parent is awake. */
  lemma {:induction false} RunKeeps(j: Join, events: seq<Event>, r: Join)
    requires Inv(j, Waiting(j), NIL, []) && AllLegal(j, events) && r == Run(j, events)
    ensures Inv(r, Waiting(r), NIL, [])
    decreases |events|
  {
    if events != [] {
      var m := Step(j, events[0]);
      StepKeeps(j, events[0], m);
      RunKeeps(m, events[1..], r);
    }
  }

  // ---- what the poll reports ----

  /** A join is ready exactly when every child has completed. A select with
      children is ready exactly when some child has, and names one that did. */
  lemma ReportLaw(j: Join, q: seq<nat>, biased: bool, random: nat)
    requires Inv(j, q, NIL, [])
    ensures Report(j, false, biased, random) ==
            if forall c :: 0 <= c < |j.alive| ==> !j.alive[c] then Ready(None) else Pending
    ensures j.picked != [] ==>
              exists c: nat :: Report(j, true, biased, random) == Ready(Some(c)) && c < |j.alive| && !j.alive[c]
    ensures j.picked == [] && |j.alive| > 0 ==> Report(j, true, biased, random) == Pending
  {
    AllDeadIff(j.alive);
    if j.picked != [] {
      var c := j.picked[if biased then 0 else random % |j.picked|];
      assert c in j.cleaned;
    } else if |j.alive| > 0 {
      assert 0 !in j.cleaned;
    }
  }

  /** The poll in which a select finishes: when biased it names the child that was
      woken first among those that this poll finds ready, otherwise the one after a
      random number of them, counted round. */
  lemma SelectNames(j: Join, q: seq<nat>, outcomes: seq<Outcome>, r: Join, biased: bool, random: nat)
    requires Inv(j, q, NIL, []) && LegalBatch(Detached(j), [], q, outcomes) && AllInRange(outcomes, |j.next|)
    requires r == Poll(j, outcomes) && j.picked == [] && |j.alive| > 0
    ensures var ready := ReadyOf(q, outcomes);
            if ready == [] then Report(r, true, biased, random) == Pending
            else if biased then Report(r, true, biased, random) == Ready(Some(ready[0]))
            else Report(r, true, biased, random) == Ready(Some(ready[random % |ready|]))
  {
    PollLaw(j, q, outcomes, r, AllWakes(outcomes));
    Units([], ReadyOf(q, outcomes));
    ReportLaw(r, AllWakes(outcomes), biased, random);
  }

  /** An unbiased select can name any of the children that end in that poll. */
  lemma AnyIsNamed(j: Join, q: seq<nat>, outcomes: seq<Outcome>, r: Join, k: nat)
    requires Inv(j, q, NIL, []) && LegalBatch(Detached(j), [], q, outcomes) && AllInRange(outcomes, |j.next|)
    requires r == Poll(j, outcomes) && j.picked == [] && k < |ReadyOf(q, outcomes)|
    ensures exists random: nat :: Report(r, true, false, random) == Ready(Some(ReadyOf(q, outcomes)[k]))
  {
    PollLaw(j, q, outcomes, r, AllWakes(outcomes));
    Units([], ReadyOf(q, outcomes));
    NamedBy(r, k);
  }

  lemma NamedBy(r: Join, k: nat)
    requires k < |r.picked|
    ensures Report(r, true, false, k) == Ready(Some(r.picked[k]))
  {
  }

  lemma {:induction false} BatchLengths(j: Join, q: seq<nat>, batch: seq<nat>, outcomes: seq<Outcome>)
    requires LegalBatch(j, q, batch, outcomes)
    ensures |outcomes| == |batch|
    decreases |outcomes|
  {
    if batch != [] {
      BatchLengths(PollChild(j, batch[0], outcomes[0]), q + outcomes[0].wakes, batch[1..], outcomes[1..]);
    }
  }

  lemma {:induction false} FirstReadyIff(q: seq<nat>, outcomes: seq<Outcome>, k: nat)
    requires |outcomes| == |q| && NoRepeats(q) && k < |q| && outcomes[k].ready
    ensures ReadyOf(q, outcomes) != []
    ensures ReadyOf(q, outcomes)[0] == q[k] <==> forall i :: 0 <= i < k ==> !outcomes[i].ready
    decreases k
  {
    if k > 0 && !outcomes[0].ready {
      FirstReadyIff(q[1..], outcomes[1..], k - 1);
      assert forall i :: 0 <= i < k - 1 ==> outcomes[1..][i] == outcomes[i + 1];
      assert forall i :: 1 <= i < k ==> outcomes[i] == outcomes[1..][i - 1];
    }
  }

  /** Of the children that end in the poll in which a biased select finishes, the
      caller is told of one exactly if none before it in wake order has ended. */
  lemma ToldIff(j: Join, q: seq<nat>, outcomes: seq<Outcome>, k: nat, r: Join, random: nat)
    requires Inv(j, q, NIL, []) && LegalBatch(Detached(j), [], q, outcomes) && AllInRange(outcomes, |j.next|)
    requires r == Poll(j, outcomes) && j.picked == [] && k < |q| && k < |outcomes| && outcomes[k].ready
    ensures Report(r, true, true, random) == Ready(Some(q[k])) <==> forall i :: 0 <= i < k ==> !outcomes[i].ready
  {
    BatchLengths(Detached(j), [], q, outcomes);
    FirstReadyIff(q, outcomes, k);
    SelectNames(j, q, outcomes, r, true, random);
  }

  // ---- the parent is woken ----

  /** The calls of the parent's waker in a poll: one for each wake raised in it. */
  lemma PollCalls(j: Join, q: seq<nat>, outcomes: seq<Outcome>, r: Join)
    requires Inv(j, q, NIL, []) && LegalBatch(Detached(j), [], q, outcomes) && AllInRange(outcomes, |j.next|)
    requires r == Poll(j, outcomes)
    ensures r.parentCalls == |AllWakes(outcomes)|
  {
    PollLaw(j, q, outcomes, r, AllWakes(outcomes));
    PollKeepsCount(j, q, outcomes, r);
    assert r.polls == [] ==> j.polls == [] && q == [];
  }

  lemma PollKeepsCount(j: Join, q: seq<nat>, outcomes: seq<Outcome>, r: Join)
    requires Shaped(j) && AllInRange(outcomes, |j.next|) && r == Poll(j, outcomes)
    ensures |r.alive| == |j.alive|
  {
  }

  /** A select that is ready may have woken its parent in the same poll: it has
      exactly if a child of the batch was ready and a child of the batch woke one. */
  lemma SelectWokeIff(j: Join, q: seq<nat>, outcomes: seq<Outcome>, r: Join, biased: bool, random: nat)
    requires Inv(j, q, NIL, []) && LegalBatch(Detached(j), [], q, outcomes) && AllInRange(outcomes, |j.next|)
    requires r == Poll(j, outcomes) && j.picked == [] && |j.alive| > 0
    ensures Report(r, true, biased, random).Ready? && r.parentCalls > 0 <==>
            ReadyOf(q, outcomes) != [] && AllWakes(outcomes) != []
  {
    SelectNames(j, q, outcomes, r, biased, random);
    PollCalls(j, q, outcomes, r);
  }

  /** A join that is ready has not woken its parent since its last poll began. */
  lemma ReadyJoinIsQuiet(j: Join, q: seq<nat>, outcomes: seq<Outcome>, r: Join, biased: bool, random: nat)
    requires Inv(j, q, NIL, []) && LegalBatch(Detached(j), [], q, outcomes) && AllInRange(outcomes, |j.next|)
    requires r == Poll(j, outcomes)
    ensures Report(r, false, biased, random).Ready? ==> r.parentCalls == 0
  {
    PollLaw(j, q, outcomes, r, AllWakes(outcomes));
    PollCalls(j, q, outcomes, r);
    ReportLaw(r, AllWakes(outcomes), biased, random);
  }

  // ---- cleanup ----

  /** The children at or after i that are not completed, in order. */
  function AliveFrom(alive: seq<bool>, i: nat): seq<nat>
    requires i <= |alive|
    decreases |alive| - i
  {
    if i == |alive| then [] else (if alive[i] then [i] else []) + AliveFrom(alive, i + 1)
  }

  lemma {:induction false} AliveFromMembers(alive: seq<bool>, i: nat)
    requires i <= |alive|
    ensures NoRepeats(AliveFrom(alive, i))
    ensures forall c: nat :: c in AliveFrom(alive, i) <==> i <= c < |alive| && alive[c]
    ensures |AliveFrom(alive, i)| + Dead(alive[i..]) == |alive| - i
    decreases |alive| - i
  {
    if i < |alive| {
      AliveFromMembers(alive, i + 1);
      assert alive[i..][1..] == alive[i + 1..];
    }
  }

  /** The early stop of the cleanup loop skips nobody. */
  lemma {:induction false} CleanupFromLaw(j: Join, i: nat, pending: nat)
    requires Shaped(j) && i <= |j.alive| && pending == |AliveFrom(j.alive, i)|
    ensures CleanupFrom(j, i, pending) == j.(cleaned := j.cleaned + AliveFrom(j.alive, i))
    decreases |j.alive| - i
  {
    if i < |j.alive| && pending > 0 {
      if j.alive[i] {
        CleanupFromLaw(j.(cleaned := j.cleaned + [i]), i + 1, pending - 1);
        assert (j.cleaned + [i]) + AliveFrom(j.alive, i + 1) == j.cleaned + AliveFrom(j.alive, i);
      } else {
        CleanupFromLaw(j, i + 1, pending);
      }
    } else {
      assert j.cleaned + AliveFrom(j.alive, i) == j.cleaned;
    }
  }

  lemma TwoParts(a: seq<nat>, b: seq<nat>)
    requires NoRepeats(a) && NoRepeats(b) && Disjoint(a, b)
    ensures NoRepeats(a + b)
    ensures forall c: nat :: c in a + b <==> c in a || c in b
  {
  }

  lemma CleanupIsRest(j: Join)
    requires Shaped(j) && j.completed == Dead(j.alive)
    ensures j.completed <= |j.alive|
    ensures Cleanup(j).cleaned == j.cleaned + AliveFrom(j.alive, 0)
  {
    AllDeadIff(j.alive);
    AliveFromMembers(j.alive, 0);
    assert j.alive[0..] == j.alive;
    CleanupFromLaw(j, 0, |j.alive| - j.completed);
  }

  /** When the join itself is cleaned up, at any moment of its life, every child
      has been cleaned exactly once: when it completed, or now. */
  lemma EachChildCleanedOnce(j: Join)
    requires Shaped(j) && Completed(j)
    ensures j.completed <= |j.alive|
    ensures NoRepeats(Cleanup(j).cleaned)
    ensures forall c: nat :: c in Cleanup(j).cleaned <==> c < |j.alive|
  {
    var rest := AliveFrom(j.alive, 0);
    CleanupIsRest(j);
    AliveFromMembers(j.alive, 0);
    forall k | 0 <= k < |j.cleaned|
      ensures j.cleaned[k] !in rest
    {
      assert j.cleaned[k] in j.cleaned;
    }
    TwoParts(j.cleaned, rest);
  }
}
