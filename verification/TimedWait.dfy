/** A timed wait of the semaphore is a biased select between the wait and a timeout.
    What its caller is told decides whether the permit of a grant is kept. */
module TimedWait {
  import opened Options
  import opened IntrusiveList
  import opened Join
  import opened JoinLaws
  import opened JoinRuns
  import S = Semaphore
  import SemaphoreLaws

  /** The places of the two children in the select. */
  const WAIT: nat := 0
  const TIMEOUT: nat := 1

  /** The select of a timed wait on whose result nothing has been reported yet. */
  ghost predicate Undecided(j: Join, q: seq<nat>) {
    Inv(j, q, NIL, []) && |j.alive| == 2 && j.picked == []
  }

  /** The caller is told that it has the permit. */
  predicate ToldKept(j: Join, random: nat) {
    Report(j, true, true, random) == Ready(Some(WAIT))
  }

  /** Place a of the batch is reached before place b, and both are ready. */
  ghost predicate ReadyBefore(q: seq<nat>, outcomes: seq<Outcome>, a: nat, b: nat) {
    exists i, k :: 0 <= i < k < |q| && k < |outcomes| && q[i] == a && q[k] == b
                && outcomes[i].ready && outcomes[k].ready
  }

  /** With two children at most, the first ready one is the wait unless the timeout
      stands before it. */
  lemma FirstReady(q: seq<nat>, outcomes: seq<Outcome>, k: nat)
    requires |outcomes| == |q| <= 2 && NoRepeats(q) && InRange(q, 2)
    requires k < |q| && q[k] == WAIT && outcomes[k].ready
    ensures var ready := ReadyOf(q, outcomes);
            ready != [] && ready[0] == if ReadyBefore(q, outcomes, TIMEOUT, WAIT) then TIMEOUT else WAIT
  {
    if |q| == 2 {
      assert ReadyOf(q[1..], outcomes[1..]) == if outcomes[1].ready then [q[1]] else [];
      if k == 1 && outcomes[0].ready {
        assert ReadyBefore(q, outcomes, TIMEOUT, WAIT);
      }
    }
  }

  lemma ShortBatch(j: Join, q: seq<nat>)
    requires Undecided(j, q)
    ensures |q| <= 2 && NoRepeats(q) && InRange(q, 2)
  {
    AtMostTwo(q);
  }

  lemma AtMostTwo(q: seq<nat>)
    requires InRange(q, 2)
    ensures NoRepeats(q) ==> |q| <= 2
  {
    if |q| > 2 {
      assert q[0] == q[1] || q[1] == q[2] || q[0] == q[2];
    }
  }

  /** The wait notices its grant in a poll of the select. The caller keeps the permit
      unless the timeout stands before the wait among the children woken and is found
      ready too; then the caller is told of the timeout. */
  lemma GrantKeptIff(j: Join, q: seq<nat>, outcomes: seq<Outcome>, k: nat, r: Join, random: nat)
    requires Undecided(j, q) && LegalBatch(Detached(j), [], q, outcomes) && AllInRange(outcomes, |j.next|)
    requires k < |q| && k < |outcomes| && q[k] == WAIT && outcomes[k].ready && r == Poll(j, outcomes)
    ensures ToldKept(r, random) <==> !ReadyBefore(q, outcomes, TIMEOUT, WAIT)
    ensures !ToldKept(r, random) ==> Report(r, true, true, random) == Ready(Some(TIMEOUT))
  {
    ShortBatch(j, q);
    BatchLengths(Detached(j), [], q, outcomes);
    FirstReady(q, outcomes, k);
    SelectNames(j, q, outcomes, r, true, random);
  }

  /** The same for the permits: of the grant to node n, noticed in that poll, the
      permit is wasted exactly if the timeout stands before the wait. */
  lemma GrantWastedIff(s: S.Sem, n: nat, j: Join, outcomes: seq<Outcome>, k: nat, r: Join, random: nat, permits: nat)
    requires Undecided(j, Waiting(j)) && LegalEvent(j, Polled(outcomes)) && r == Step(j, Polled(outcomes))
    requires k < |Waiting(j)| && k < |outcomes| && Waiting(j)[k] == WAIT && outcomes[k].ready
    requires SemaphoreLaws.Inv(s, permits) && n in s.inFlight
    requires S.Allowed(s, S.Noticed(n, ToldKept(r, random)))
    ensures S.Step(s, S.Noticed(n, ToldKept(r, random))).lost == s.lost + 1 <==>
            ReadyBefore(Waiting(j), outcomes, TIMEOUT, WAIT)
  {
    GrantKeptIff(j, Waiting(j), outcomes, k, r, random);
  }

  /** A poll that wakes nobody. */
  function Quiet(ready: bool): Outcome {
    Outcome([], ready)
  }

  lemma QuietPairIsLegal(d: Join, a: nat, b: nat, x: bool, y: bool, q: seq<nat>, outcomes: seq<Outcome>)
    requires Shaped(d) && a < |d.next| && b < |d.next|
    requires q == [a] + [b] && outcomes == [Quiet(x)] + [Quiet(y)]
    ensures LegalBatch(d, [], q, outcomes) && AllInRange(outcomes, |d.next|)
    ensures AllWakes(outcomes) == [] && ReadyOf(q, outcomes) == (if x then [a] else []) + (if y then [b] else [])
  {
    var m := PollChild(d, a, Quiet(x));
    var n := PollChild(m, b, Quiet(y));
    assert q[1..] == [b] && outcomes[1..] == [Quiet(y)] && [b][1..] == [] && [Quiet(y)][1..] == [];
    assert LegalBatch(n, [], [], []) && [] + Quiet(y).wakes == [] && [] + Quiet(x).wakes == [];
    assert LegalBatch(m, [], [b], [Quiet(y)]);
    assert AllWakes([Quiet(y)]) == [];
    OneReady(b, Quiet(y));
  }

  lemma OneReady(c: nat, o: Outcome)
    ensures ReadyOf([c], [o]) == if o.ready then [c] else []
  {
    assert [c][1..] == [] && [o][1..] == [] && ReadyOf([], []) == [];
  }

  /** A timed wait that has been polled once and pends on both sides. */
  lemma PolledOnce(j: Join, q: seq<nat>, outcomes: seq<Outcome>, r: Join)
    requires Inv(j, q, NIL, []) && |j.alive| == 2 && j.picked == [] && q == [WAIT] + [TIMEOUT]
    requires outcomes == [Quiet(false)] + [Quiet(false)] && AllInRange(outcomes, |j.next|) && r == Poll(j, outcomes)
    ensures LegalEvent(j, Polled(outcomes)) && Undecided(r, []) && r.alive == [true, true] && r.parentCalls == 0
  {
    WaitingIsList(j, q);
    QuietPairIsLegal(Detached(j), WAIT, TIMEOUT, false, false, q, outcomes);
    PollLaw(j, q, outcomes, r, []);
    PollCalls(j, q, outcomes, r);
    assert r.picked == [] && forall c: nat :: c !in r.cleaned;
    assert |r.alive| == 2 && r.alive[0] && r.alive[1];
  }

  lemma FirstPoll(j: Join, children: nat, outcomes: seq<Outcome>, r: Join)
    requires j == Initial(children) && children == 2
    requires outcomes == [Quiet(false)] + [Quiet(false)] && r == Poll(j, outcomes)
    ensures LegalEvent(j, Polled(outcomes)) && Undecided(r, []) && r.alive == [true, true] && r.parentCalls == 0
  {
    InitialInv(children);
    assert seq(children, k => k) == [WAIT] + [TIMEOUT];
    PolledOnce(j, [WAIT] + [TIMEOUT], outcomes, r);
  }

  lemma BothWoken(r: Join, x: Join, y: Join)
    requires Undecided(r, []) && r.alive == [true, true] && x == Wake(r, TIMEOUT) && y == Wake(x, WAIT)
    ensures LegalEvent(r, Woken(TIMEOUT)) && LegalEvent(x, Woken(WAIT))
    ensures Undecided(y, [TIMEOUT, WAIT]) && Waiting(y) == [TIMEOUT, WAIT] && y.alive == [true, true]
    ensures y.parentCalls == r.parentCalls + 2
  {
    WaitingIsList(r, []);
    WokenKeeps(r, [], TIMEOUT, x, [TIMEOUT]);
    WaitingIsList(x, [TIMEOUT]);
    WokenKeeps(x, [TIMEOUT], WAIT, y, [TIMEOUT, WAIT]);
    WaitingIsList(y, [TIMEOUT, WAIT]);
  }

  lemma BothReady(y: Join, q: seq<nat>, outcomes: seq<Outcome>, z: Join, random: nat)
    requires Undecided(y, q) && Waiting(y) == q && q == [TIMEOUT] + [WAIT]
    requires outcomes == [Quiet(true)] + [Quiet(true)] && AllInRange(outcomes, |y.next|) && z == Poll(y, outcomes)
    ensures LegalEvent(y, Polled(outcomes)) && z.picked == q
    ensures Report(z, true, true, random) == Ready(Some(TIMEOUT))
  {
    QuietPairIsLegal(Detached(y), TIMEOUT, WAIT, true, true, q, outcomes);
    PollLaw(y, q, outcomes, z, []);
  }

  /** A run in which that happens: both sides pend after the first poll; the timeout
      fires, and then a signal grants the permit, before the task runs again. Both are
      ready in the next poll, the wait has taken the permit, and the caller is told of
      the timeout. */
  lemma TimeoutBeforeGrant(j: Join, children: nat, pend: seq<Outcome>, done: seq<Outcome>, random: nat)
    requires j == Initial(children) && children == 2
    requires pend == [Quiet(false)] + [Quiet(false)] && done == [Quiet(true)] + [Quiet(true)]
    ensures var events := [Polled(pend), Woken(TIMEOUT), Woken(WAIT), Polled(done)];
            && AllLegal(j, events)
            && var z := Run(j, events);
            z.picked == [TIMEOUT] + [WAIT] && Report(z, true, true, random) == Ready(Some(TIMEOUT))
  {
    var r := Poll(j, pend);
    FirstPoll(j, children, pend, r);
    var x := Wake(r, TIMEOUT);
    var y := Wake(x, WAIT);
    BothWoken(r, x, y);
    assert [TIMEOUT] + [WAIT] == [TIMEOUT, WAIT];
    var z := Poll(y, done);
    BothReady(y, [TIMEOUT] + [WAIT], done, z, random);
    FourLegal(j, r, x, y, z, Polled(pend), Woken(TIMEOUT), Woken(WAIT), Polled(done));
  }

  /** The same run up to its last poll: the waker of the timed wait has been called
      twice since it was polled. */
  lemma BothWokenBefore(j: Join, children: nat, pend: seq<Outcome>) returns (y: Join)
    requires j == Initial(children) && children == 2 && pend == [Quiet(false)] + [Quiet(false)]
    ensures AllLegal(j, [Polled(pend), Woken(TIMEOUT), Woken(WAIT)])
    ensures y == Run(j, [Polled(pend), Woken(TIMEOUT), Woken(WAIT)])
    ensures y.parentCalls == 2 && Undecided(y, [TIMEOUT, WAIT]) && Waiting(y) == [TIMEOUT, WAIT]
  {
    var r := Poll(j, pend);
    FirstPoll(j, children, pend, r);
    var x := Wake(r, TIMEOUT);
    y := Wake(x, WAIT);
    BothWoken(r, x, y);
    ThreeLegal(j, r, x, y, Polled(pend), Woken(TIMEOUT), Woken(WAIT));
  }

  lemma ThreeLegal(j: Join, r: Join, x: Join, y: Join, a: Event, b: Event, c: Event)
    requires LegalEvent(j, a) && r == Step(j, a) && LegalEvent(r, b) && x == Step(r, b)
    requires LegalEvent(x, c) && y == Step(x, c)
    ensures AllLegal(j, [a, b, c]) && Run(j, [a, b, c]) == y
  {
    assert AllLegal(y, []) && Run(y, []) == y;
    LegalBefore(x, c, [], y);
    LegalBefore(r, b, [c], x);
    LegalBefore(j, a, [b, c], r);
    assert [c] + [] == [c] && [b] + [c] == [b, c] && [a] + [b, c] == [a, b, c];
  }

  lemma FourLegal(j: Join, r: Join, x: Join, y: Join, z: Join, a: Event, b: Event, c: Event, d: Event)
    requires LegalEvent(j, a) && r == Step(j, a) && LegalEvent(r, b) && x == Step(r, b)
    requires LegalEvent(x, c) && y == Step(x, c) && LegalEvent(y, d) && z == Step(y, d)
    ensures AllLegal(j, [a, b, c, d]) && Run(j, [a, b, c, d]) == z
  {
    assert AllLegal(z, []) && Run(z, []) == z;
    LegalBefore(y, d, [], z);
    LegalBefore(x, c, [d], y);
    LegalBefore(r, b, [c, d], x);
    LegalBefore(j, a, [b, c, d], r);
    assert [d] + [] == [d] && [c] + [d] == [c, d] && [b] + [c, d] == [b, c, d] && [a] + [b, c, d] == [a, b, c, d];
  }

  lemma LegalBefore(j: Join, e: Event, rest: seq<Event>, m: Join)
    requires LegalEvent(j, e) && m == Step(j, e)
    ensures AllLegal(m, rest) ==> AllLegal(j, [e] + rest) && Run(j, [e] + rest) == Run(m, rest)
  {
    assert ([e] + rest)[1..] == rest;
  }
}
