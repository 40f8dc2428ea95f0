/** The join list never loses, repeats or reorders a wake, as long as a child is
    woken at most once between two of its polls. */
module JoinLaws {
  import opened IntrusiveList
  import opened Join

  /** The list of j is q. */
  ghost predicate Listed(j: Join, q: seq<nat>) {
    ListOf(j.next, j.head, j.tail, q)
  }

  // ---- the list under wakes ----

  lemma WakeAppends(j: Join, q: seq<nat>, c: nat)
    requires Shaped(j) && Listed(j, q) && c < |j.next| && c !in q
    ensures Listed(Wake(j, c), q + [c])
  {
  }

  /** A part of a detached list that no woken child belongs to stays linked. */
  lemma WakeSpares(j: Join, q: seq<nat>, start: int, batch: seq<nat>, c: nat)
    requires Shaped(j) && Listed(j, q) && c < |j.next| && c !in batch
    requires Chain(j.next, start, batch) && Disjoint(batch, q)
    ensures Chain(Wake(j, c).next, start, batch)
  {
  }

  lemma ListedLinks(j: Join, q: seq<nat>, k: nat)
    requires Listed(j, q) && k < |q|
    ensures j.next[q[k]] == At(q, k + 1)
  {
  }

  /** Any two lists read off the same links agree as far as both go. */
  lemma {:induction false} ChainsAgree(next: seq<int>, start: int, p: seq<nat>, q: seq<nat>, k: nat)
    requires Chain(next, start, p) && Chain(next, start, q) && k <= |p| && k <= |q|
    ensures At(p, k) == At(q, k) && p[..k] == q[..k]
  {
    if k > 0 {
      ChainsAgree(next, start, p, q, k - 1);
      assert next[p[k - 1]] == At(p, k) && next[q[k - 1]] == At(q, k);
      assert p[..k] == p[..k - 1] + [p[k - 1]] && q[..k] == q[..k - 1] + [q[k - 1]];
    }
  }

  /** Waking a queued child again: the list now ends at that child, or at the
      last place circles on it. */
  lemma {:induction false} SecondWakeCuts(j: Join, q: seq<nat>, i: nat, p: seq<nat>, k: nat)
    requires Shaped(j) && Listed(j, q) && i < |q| && Chain(Wake(j, q[i]).next, j.head, p) && NoRepeats(p)
    requires k <= i && k < |p|
    ensures p[k] == q[k]
  {
    if k > 0 {
      SecondWakeCuts(j, q, i, p, k - 1);
      assert q[k - 1] != q[i] && q[k - 1] != q[|q| - 1];
      ListedLinks(j, q, k - 1);
      assert Wake(j, q[i]).next[p[k - 1]] == At(p, k);
    }
  }

  lemma SecondWakeLink(j: Join, q: seq<nat>, i: nat)
    requires Shaped(j) && Listed(j, q) && i < |q|
    ensures Wake(j, q[i]).next[q[i]] == if i == |q| - 1 then q[i] else NIL
  {
  }

  /** What can be left of the list when child q[i] is woken again: the part up to
      it; when it was the last, no list at all. */
  lemma SecondWakeLeaves(j: Join, q: seq<nat>, i: nat, p: seq<nat>)
    requires Shaped(j) && Listed(j, q) && i < |q| && Listed(Wake(j, q[i]), p) && q[i] in p
    ensures i + 1 < |q| && p == q[..i + 1]
  {
    var r := Wake(j, q[i]);
    SecondWakeLink(j, q, i);
    var m :| 0 <= m < |p| && p[m] == q[i];
    SecondWakeCuts(j, q, i, p, if m <= i then m else i);
    assert m == i;
    ListedLinks(r, p, i);
    forall k | 0 <= k <= i
      ensures p[k] == q[k]
    {
      SecondWakeCuts(j, q, i, p, k);
    }
  }

  /** Whether some list read off the links of r contains all of q and c. */
  ghost predicate KeepsAll(r: Join, q: seq<nat>, c: nat) {
    exists p :: Listed(r, p) && c in p && forall k :: 0 <= k < |q| ==> q[k] in p
  }

  /** Without de-duplication a wake keeps the list intact exactly when the child
      is not in the list already. */
  lemma WakeKeepsListIff(j: Join, q: seq<nat>, c: nat)
    requires Shaped(j) && Listed(j, q) && c < |j.next|
    ensures KeepsAll(Wake(j, c), q, c) <==> c !in q
  {
    var r := Wake(j, c);
    if c in q {
      var i :| 0 <= i < |q| && q[i] == c;
      forall p | Listed(r, p) && c in p
        ensures q[|q| - 1] !in p
      {
        SecondWakeLeaves(j, q, i, p);
      }
    } else {
      WakeAppends(j, q, c);
      assert (q + [c])[|q|] == c;
      assert forall k :: 0 <= k < |q| ==> (q + [c])[k] == q[k];
    }
  }

  /** Waking a child that still waits in the batch being walked cuts the batch
      behind it: the children after it are not reached. */
  lemma WakeInBatchCuts(j: Join, q: seq<nat>, start: int, batch: seq<nat>, i: nat)
    requires Shaped(j) && Listed(j, q) && Chain(j.next, start, batch) && NoRepeats(batch)
    requires i < |batch| && Disjoint(batch, q)
    ensures Chain(Wake(j, batch[i]).next, start, batch[..i + 1])
  {
    var r, front := Wake(j, batch[i]), batch[..i + 1];
    forall k | 0 <= k < |front|
      ensures r.next[front[k]] == At(front, k + 1)
    {
      assert front[k] == batch[k] && batch[k] != j.tail;
      assert k < i ==> batch[k] != batch[i] && front[k + 1] == batch[k + 1];
    }
  }

  // ---- invariants ----

  function Dead(alive: seq<bool>): nat {
    if alive == [] then 0 else (if alive[0] then 0 else 1) + Dead(alive[1..])
  }

  lemma {:induction false} DeadUpdate(alive: seq<bool>, c: nat)
    requires c < |alive| && alive[c]
    ensures Dead(alive[c := false]) == Dead(alive) + 1
  {
    if c == 0 {
      assert alive[c := false][1..] == alive[1..];
    } else {
      assert alive[c := false][1..] == alive[1..][c - 1 := false];
      DeadUpdate(alive[1..], c - 1);
    }
  }

  lemma {:induction false} AllDeadIff(alive: seq<bool>)
    ensures Dead(alive) <= |alive|
    ensures Dead(alive) == |alive| <==> forall c :: 0 <= c < |alive| ==> !alive[c]
  {
    if alive != [] {
      AllDeadIff(alive[1..]);
      assert forall c :: 1 <= c < |alive| ==> alive[c] == alive[1..][c - 1];
      assert forall c :: 0 <= c < |alive[1..]| ==> alive[1..][c] == alive[c + 1];
    }
  }

  /** Children completed so far: each was cleaned once, in the order reported. */
  ghost predicate Completed(j: Join) {
    && j.completed == Dead(j.alive)
    && NoRepeats(j.cleaned)
    && (forall c: nat :: c in j.cleaned <==> c < |j.alive| && !j.alive[c])
    && j.picked == j.cleaned
  }

  ghost predicate Disjoint(batch: seq<nat>, q: seq<nat>) {
    forall k :: 0 <= k < |batch| ==> batch[k] !in q
  }

  /** The list is q, and the rest of a detached list is linked from start. */
  ghost predicate Links(j: Join, q: seq<nat>, start: int, batch: seq<nat>) {
    Shaped(j) && Listed(j, q) && Chain(j.next, start, batch) && NoRepeats(batch) && Disjoint(batch, q)
  }

  ghost predicate AllAlive(j: Join, ids: seq<nat>) {
    forall k :: 0 <= k < |ids| ==> ids[k] < |j.alive| && j.alive[ids[k]]
  }

  /** Until the first poll all children are listed without having been woken. */
  function Placed(j: Join, batch: seq<nat>): nat {
    if j.polls == [] && batch == [] then |j.alive| else 0
  }

  /** Every wake so far was answered by one poll or still waits, in order; and for
      every child in the list, unless it was placed there, the parent has been woken
      once. */
  ghost predicate Ledger(j: Join, q: seq<nat>, batch: seq<nat>) {
    && j.wakes == j.polls + (batch + q)
    && |q| == j.parentCalls + Placed(j, batch)
    && AllAlive(j, batch) && AllAlive(j, q)
  }

  /** The invariant while batch is being walked; between polls it is empty. */
  ghost predicate Inv(j: Join, q: seq<nat>, start: int, batch: seq<nat>) {
    Links(j, q, start, batch) && Ledger(j, q, batch) && Completed(j)
  }

  lemma InitialListed(len: nat)
    ensures Listed(Initial(len), seq(len, k => k))
  {
  }

  lemma InitialCompleted(len: nat)
    ensures Completed(Initial(len))
  {
    NoneDead(len);
  }

  lemma InitialInv(len: nat)
    ensures Inv(Initial(len), seq(len, k => k), NIL, [])
  {
    InitialListed(len);
    InitialCompleted(len);
    InitialLedger(len);
  }

  lemma InitialLedger(len: nat)
    ensures Ledger(Initial(len), seq(len, k => k), [])
  {
    Units([], seq(len, k => k));
  }

  lemma {:induction false} NoneDead(len: nat)
    ensures Dead(seq(len, _ => true)) == 0
  {
    if len > 0 {
      assert seq(len, _ => true)[1..] == seq(len - 1, _ => true);
      NoneDead(len - 1);
    }
  }

  /** At most one wake per child between two of its polls: only children that
      are alive, not listed, and not waiting in the batch. */
  ghost predicate Fresh(j: Join, q: seq<nat>, batch: seq<nat>, ids: seq<nat>) {
    AllAlive(j, ids) && NoRepeats(ids) && Disjoint(ids, q) && Disjoint(ids, batch)
  }

  lemma WakeLinks(j: Join, q: seq<nat>, start: int, batch: seq<nat>, c: nat)
    ensures Links(j, q, start, batch) && c < |j.next| && c !in q && c !in batch ==>
              Links(Wake(j, c), q + [c], start, batch)
  {
    if Links(j, q, start, batch) && c < |j.next| && c !in q && c !in batch {
      WakeAppends(j, q, c);
      WakeSpares(j, q, start, batch, c);
    }
  }

  lemma OneMore(q: seq<nat>, ids: seq<nat>)
    requires ids != [] && NoRepeats(ids) && Disjoint(ids, q)
    ensures (q + [ids[0]]) + ids[1..] == q + ids
    ensures NoRepeats(ids[1..]) && Disjoint(ids[1..], q + [ids[0]])
  {
  }

  lemma {:induction false} WakeAllLinks(j: Join, q: seq<nat>, start: int, batch: seq<nat>, ids: seq<nat>)
    requires Links(j, q, start, batch)
    requires InRange(ids, |j.next|) && NoRepeats(ids) && Disjoint(ids, q) && Disjoint(ids, batch)
    ensures Links(WakeAll(j, ids), q + ids, start, batch)
    decreases |ids|
  {
    if ids == [] {
      assert q + ids == q;
    } else {
      var c, rest := ids[0], ids[1..];
      OneMore(q, ids);
      WakeLinks(j, q, start, batch, c);
      WakeAllLinks(Wake(j, c), q + [c], start, batch, rest);
    }
  }

  lemma {:induction false} WakeAllKeeps(j: Join, ids: seq<nat>)
    requires Shaped(j) && InRange(ids, |j.next|)
    ensures var r := WakeAll(j, ids);
            && r == j.(next := r.next, head := r.head, tail := r.tail, parentCalls := r.parentCalls, wakes := r.wakes)
            && r.wakes == j.wakes + ids
            && r.parentCalls == j.parentCalls + |ids|
    decreases |ids|
  {
    if ids != [] {
      WakeAllKeeps(Wake(j, ids[0]), ids[1..]);
      assert (j.wakes + [ids[0]]) + ids[1..] == j.wakes + ids;
    }
  }

  lemma Regroup(a: seq<nat>, b: seq<nat>, c: seq<nat>, d: seq<nat>)
    ensures (a + (b + c)) + d == a + (b + (c + d))
    ensures a + ((b + c) + d) == (a + b) + (c + d)
  {
  }

  lemma WakeAllLaw(j: Join, q: seq<nat>, start: int, batch: seq<nat>, ids: seq<nat>)
    requires Inv(j, q, start, batch) && Fresh(j, q, batch, ids)
    ensures Inv(WakeAll(j, ids), q + ids, start, batch)
  {
    WakeAllLinks(j, q, start, batch, ids);
    WakeAllKeeps(j, ids);
    Regroup(j.polls, batch, q, ids);
  }

  lemma CompleteLaw(j: Join, q: seq<nat>, start: int, batch: seq<nat>, c: nat)
    requires Inv(j, q, start, batch) && c < |j.alive| && j.alive[c] && c !in q && c !in batch
    ensures Inv(Complete(j, c), q, start, batch)
  {
    DeadUpdate(j.alive, c);
  }

  /** What a child may do in its poll: wake only children that have been polled
      since their last wake, and not itself when it reports ready. */
  ghost predicate Legal(j: Join, q: seq<nat>, rest: seq<nat>, c: nat, o: Outcome) {
    Fresh(j, q, rest, o.wakes) && (o.ready ==> c !in o.wakes)
  }

  /** The child under the cursor leaves the batch. */
  lemma CursorLinks(j: Join, q: seq<nat>, c: nat, rest: seq<nat>)
    requires Links(j, q, c, [c] + rest)
    ensures Links(j, q, j.next[c], rest) && j.next[c] == At(rest, 0)
    ensures c !in q && c !in rest
  {
    var batch := [c] + rest;
    ChainTail(j.next, c, batch);
    assert batch[0] == c && batch[1..] == rest;
    assert forall k :: 0 <= k < |rest| ==> batch[k + 1] == rest[k];
  }

  lemma CursorLaw(j: Join, q: seq<nat>, c: nat, rest: seq<nat>)
    requires Inv(j, q, c, [c] + rest)
    ensures Inv(j.(polls := j.polls + [c]), q, j.next[c], rest)
    ensures c < |j.alive| && j.alive[c]
  {
    var batch := [c] + rest;
    CursorLinks(j, q, c, rest);
    Regroup(j.polls, [c], rest, q);
    assert batch[0] == c && forall k :: 0 <= k < |rest| ==> batch[k + 1] == rest[k];
  }

  lemma PollChildLaw(j: Join, q: seq<nat>, c: nat, rest: seq<nat>, o: Outcome)
    requires Inv(j, q, c, [c] + rest) && Legal(j, q, rest, c, o)
    ensures Inv(PollChild(j, c, o), q + o.wakes, j.next[c], rest)
    ensures PollChild(j, c, o).polls == j.polls + [c]
  {
    var polled := j.(polls := j.polls + [c]);
    CursorLaw(j, q, c, rest);
    CursorLinks(j, q, c, rest);
    WakeAllLaw(polled, q, j.next[c], rest, o.wakes);
    WakeAllKeeps(polled, o.wakes);
    if o.ready {
      CompleteLaw(WakeAll(polled, o.wakes), q + o.wakes, j.next[c], rest, c);
    }
  }
}
