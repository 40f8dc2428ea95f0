/** Singly linked lists through the next fields of numbered elements. */
module IntrusiveList {
  /** The null pointer. */
  const NIL: int := -1

  predicate InRange(ids: seq<nat>, len: nat) {
    forall k :: 0 <= k < |ids| ==> ids[k] < len
  }

  ghost predicate NoRepeats(s: seq<nat>) {
    forall i, k :: 0 <= i < k < |s| ==> s[i] != s[k]
  }

  function At(q: seq<nat>, k: nat): int {
    if k < |q| then q[k] else NIL
  }

  /** Following next from start visits exactly the elements of q and stops. */
  ghost predicate Chain(next: seq<int>, start: int, q: seq<nat>) {
    && start == At(q, 0)
    && InRange(q, |next|)
    && forall k :: 0 <= k < |q| ==> next[q[k]] == At(q, k + 1)
  }

  function Last(q: seq<nat>): int {
    if q == [] then NIL else q[|q| - 1]
  }

  /** A list with head and tail pointers that holds q, without repetition. */
  ghost predicate ListOf(next: seq<int>, head: int, tail: int, q: seq<nat>) {
    Chain(next, head, q) && tail == Last(q) && NoRepeats(q)
  }

  /** Linking c, which ends with NIL, behind the tail. */
  lemma LinkLast(next: seq<int>, head: int, tail: int, q: seq<nat>, c: nat)
    requires ListOf(next, head, tail, q) && c < |next| && c !in q && next[c] == NIL
    ensures var linked := if tail != NIL then next[tail := c] else next;
            ListOf(linked, if tail != NIL then head else c, c, q + [c])
  {
  }

  /** Changing the link of an element outside leaves a chain alone. */
  lemma OtherLink(next: seq<int>, start: int, q: seq<nat>, c: nat, to: int)
    requires Chain(next, start, q) && c < |next| && c !in q
    ensures Chain(next[c := to], start, q)
  {
  }

  /** Following the first link leaves the rest. */
  lemma ChainTail(next: seq<int>, start: int, q: seq<nat>)
    requires Chain(next, start, q) && q != []
    ensures start == q[0] < |next| && Chain(next, next[start], q[1..])
  {
  }

  lemma Units(a: seq<nat>, b: seq<nat>)
    ensures a + ([] + b) == a + (b + []) == a + b
    ensures a + [] == a == [] + a
    ensures (a + b)[|a|..] == b
  {
  }

  lemma HeadTail(a: seq<nat>, b: seq<nat>)
    requires b != []
    ensures (a + [b[0]]) + b[1..] == a + b
  {
  }
}
