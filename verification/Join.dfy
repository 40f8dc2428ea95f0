/** The join engine of src/common/join_ext.c on values, with the hooks of
    src/common/select.c. Children are numbered by their place in the task array;
    the intrusive list links those numbers. */
module Join {
  import opened Options
  import opened IntrusiveList

  /** What polling one child does: it may wake children (itself too) and then
      reports ready or not. Pending and undefined are treated alike. */
  datatype Outcome = Outcome(wakes: seq<nat>, ready: bool)

  datatype Result = Pending | Ready(index: Option<nat>)

  datatype Join = Join(
    next: seq<int>,
    alive: seq<bool>,
    head: int,
    tail: int,
    completed: nat,
    picked: seq<nat>,
    // calls of the parent's waker since the last poll began
    parentCalls: nat,
    // history: wakes (the first placement counts as one), polls, cleanups
    wakes: seq<nat>,
    polls: seq<nat>,
    cleaned: seq<nat>)

  predicate Shaped(j: Join) {
    |j.next| == |j.alive| && NIL <= j.head < |j.next| && NIL <= j.tail < |j.next|
    && forall k :: 0 <= k < |j.next| ==> NIL <= j.next[k] < |j.next|
  }

  /** All children are linked in order; the first poll needs no wake. */
  function Initial(len: nat): (j: Join)
    ensures Shaped(j) && |j.next| == len
  {
    Join(seq(len, k => if k + 1 < len then k + 1 else NIL), seq(len, _ => true),
         if len >= 1 then 0 else NIL, len - 1, 0, [], 0, seq(len, k => k), [], [])
  }

  /** _join_wake: the child goes to the end of the list and the parent's waker is
      called, every time. */
  function Wake(j: Join, c: nat): (r: Join)
    requires Shaped(j) && c < |j.next|
    ensures Shaped(r) && |r.next| == |j.next|
  {
    var cut := j.next[c := NIL];
    j.(next := if j.tail != NIL then cut[j.tail := c] else cut,
       head := if j.tail != NIL then j.head else c,
       tail := c,
       parentCalls := j.parentCalls + 1,
       wakes := j.wakes + [c])
  }

  function WakeAll(j: Join, ids: seq<nat>): (r: Join)
    requires Shaped(j) && InRange(ids, |j.next|)
    ensures Shaped(r) && |r.next| == |j.next|
    decreases |ids|
  {
    if ids == [] then j else WakeAll(Wake(j, ids[0]), ids[1..])
  }

  /** A ready child is reported to on_ready, cleaned up and forgotten. */
  function Complete(j: Join, c: nat): (r: Join)
    requires Shaped(j) && c < |j.next|
    ensures Shaped(r) && |r.next| == |j.next|
  {
    j.(alive := j.alive[c := false], completed := j.completed + 1,
       picked := j.picked + [c], cleaned := j.cleaned + [c])
  }

  /** One turn of the loop. The link to the next child is read beforehand. */
  function PollChild(j: Join, c: nat, o: Outcome): (r: Join)
    requires Shaped(j) && c < |j.next| && InRange(o.wakes, |j.next|)
    ensures Shaped(r) && |r.next| == |j.next|
  {
    var woken := WakeAll(j.(polls := j.polls + [c]), o.wakes);
    if o.ready then Complete(woken, c) else woken
  }

  predicate AllInRange(outcomes: seq<Outcome>, len: nat) {
    forall k :: 0 <= k < |outcomes| ==> InRange(outcomes[k].wakes, len)
  }

  /** The walk over the detached list; it ends at the first missing link. */
  function Walk(j: Join, cursor: int, outcomes: seq<Outcome>): (r: Join)
    requires Shaped(j) && NIL <= cursor < |j.next| && AllInRange(outcomes, |j.next|)
    ensures Shaped(r) && |r.next| == |j.next|
    decreases |outcomes|
  {
    if cursor == NIL || outcomes == [] then j
    else
      Walk(PollChild(j, cursor, outcomes[0]), j.next[cursor], outcomes[1..])
  }

  /** There is an outcome for every child that the walk reaches. */
  predicate Covers(j: Join, cursor: int, outcomes: seq<Outcome>)
    requires Shaped(j) && NIL <= cursor < |j.next| && AllInRange(outcomes, |j.next|)
    decreases |outcomes|
  {
    cursor == NIL ||
    (outcomes != [] && Covers(PollChild(j, cursor, outcomes[0]), j.next[cursor], outcomes[1..]))
  }

  function Detached(j: Join): Join {
    j.(head := NIL, tail := NIL, parentCalls := 0)
  }

  function Poll(j: Join, outcomes: seq<Outcome>): (r: Join)
    requires Shaped(j) && AllInRange(outcomes, |j.next|)
    ensures Shaped(r) && |r.next| == |j.next|
  {
    Walk(Detached(j), j.head, outcomes)
  }

  /** What the poll reports: select's on_finish takes the first child reported
      ready, or the one after skip others; join waits for all. */
  function Report(j: Join, select: bool, biased: bool, random: nat): Result {
    if select && j.picked != [] then
      Ready(Some(j.picked[if biased then 0 else random % |j.picked|]))
    else if j.completed == |j.alive| then Ready(None)
    else Pending
  }

  /** The cleanup loop: from child i on, while some are still pending. */
  function CleanupFrom(j: Join, i: nat, pending: nat): (r: Join)
    requires Shaped(j) && i <= |j.alive|
    decreases |j.alive| - i
  {
    if i == |j.alive| || pending == 0 then j
    else if !j.alive[i] then CleanupFrom(j, i + 1, pending)
    else CleanupFrom(j.(cleaned := j.cleaned + [i]), i + 1, pending - 1)
  }

  function Cleanup(j: Join): Join
    requires Shaped(j) && j.completed <= |j.alive|
  {
    CleanupFrom(j, 0, |j.alive| - j.completed)
  }
}
