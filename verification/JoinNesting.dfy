/** A join or select as a child of another. It calls the outer child's waker once for
    every child of its own that is woken, and the outer list has no de-duplication. */
module JoinNesting {
  import opened Options
  import opened IntrusiveList
  import opened Join
  import opened JoinLaws
  import opened JoinRuns
  import TimedWait

  // ---- the list under any wakes ----

  /** The list read from the head, and whether its last child links to itself. */
  datatype Shape = Shape(list: seq<nat>, circles: bool)

  function IndexOf(q: seq<nat>, c: nat): (i: nat)
    requires c in q
    ensures i < |q| && q[i] == c
  {
    if q[0] == c then 0 else 1 + IndexOf(q[1..], c)
  }

  /** A wake appends a new child; it makes the last child circle; and it cuts off
      what stands behind any other child of the list. */
  function WakeShape(s: Shape, c: nat): Shape {
    if c !in s.list then Shape(s.list + [c], false)
    else if c == Last(s.list) then Shape(s.list, true)
    else Shape(s.list[..IndexOf(s.list, c) + 1], false)
  }

  function WakeAllShape(s: Shape, ids: seq<nat>): Shape
    decreases |ids|
  {
    if ids == [] then s else WakeAllShape(WakeShape(s, ids[0]), ids[1..])
  }

  /** Where the link of place k leads. */
  function Following(s: Shape, k: nat): int
    requires k < |s.list|
  {
    if k + 1 < |s.list| then s.list[k + 1] else if s.circles then s.list[k] else NIL
  }

  /** The links of j have the shape s. */
  ghost predicate Has(j: Join, s: Shape) {
    && InRange(s.list, |j.next|) && NoRepeats(s.list)
    && j.head == At(s.list, 0) && j.tail == Last(s.list)
    && (forall k :: 0 <= k < |s.list| ==> j.next[s.list[k]] == Following(s, k))
    && (s.circles ==> s.list != [])
  }

  lemma HasIsListed(j: Join, s: Shape)
    requires Shaped(j)
    ensures !s.circles ==> (Has(j, s) <==> Listed(j, s.list))
  {
  }

  lemma WakeHas(j: Join, s: Shape, c: nat)
    requires Shaped(j) && Has(j, s) && c < |j.next|
    ensures Has(Wake(j, c), WakeShape(s, c))
  {
    if c !in s.list {
      NewHas(j, s, c, Wake(j, c));
    } else if c == Last(s.list) {
      LastCircles(j, s, Wake(j, c));
    } else {
      MiddleCuts(j, s, IndexOf(s.list, c), Wake(j, c), WakeShape(s, c).list);
    }
  }

  lemma NewHas(j: Join, s: Shape, c: nat, r: Join)
    requires Shaped(j) && Has(j, s) && c < |j.next| && c !in s.list && r == Wake(j, c)
    ensures Has(r, Shape(s.list + [c], false))
  {
    var t := Shape(s.list + [c], false);
    forall k | 0 <= k < |t.list|
      ensures r.next[t.list[k]] == Following(t, k)
    {
      if k < |s.list| - 1 {
        assert t.list[k] == s.list[k] != c && s.list[k] != s.list[|s.list| - 1];
      }
    }
  }

  lemma LastCircles(j: Join, s: Shape, r: Join)
    requires Shaped(j) && Has(j, s) && s.list != [] && r == Wake(j, s.list[|s.list| - 1])
    ensures Has(r, Shape(s.list, true))
  {
    var t := Shape(s.list, true);
    forall k | 0 <= k < |t.list|
      ensures r.next[t.list[k]] == Following(t, k)
    {
      assert k < |s.list| - 1 ==> s.list[k] != s.list[|s.list| - 1];
    }
  }

  lemma MiddleCuts(j: Join, s: Shape, i: nat, r: Join, front: seq<nat>)
    requires Shaped(j) && Has(j, s) && i + 1 < |s.list| && r == Wake(j, s.list[i]) && front == s.list[..i + 1]
    ensures Has(r, Shape(front, false))
  {
    forall k | 0 <= k < |front|
      ensures r.next[front[k]] == Following(Shape(front, false), k)
    {
      FrontKeepsLinks(j, s, i, r, k);
    }
    assert front[|front| - 1] == s.list[i];
  }

  lemma FrontKeepsLinks(j: Join, s: Shape, i: nat, r: Join, k: nat)
    requires Shaped(j) && Has(j, s) && i + 1 < |s.list| && r == Wake(j, s.list[i]) && k <= i
    ensures r.next[s.list[k]] == if k < i then s.list[k + 1] else NIL
  {
    var last := s.list[|s.list| - 1];
    assert s.list[k] != last && s.list[i] != last;
    assert k < i ==> s.list[k] != s.list[i];
    assert j.next[s.list[k]] == Following(s, k);
  }

  /** Whatever is woken in whatever order, this is the list. */
  lemma {:induction false} WakesAreExact(j: Join, s: Shape, ids: seq<nat>)
    requires Shaped(j) && Has(j, s) && InRange(ids, |j.next|)
    ensures Has(WakeAll(j, ids), WakeAllShape(s, ids))
    decreases |ids|
  {
    if ids != [] {
      WakeHas(j, s, ids[0]);
      WakesAreExact(Wake(j, ids[0]), WakeShape(s, ids[0]), ids[1..]);
    }
  }

  /** Some list read off the links holds all of ids. */
  ghost predicate Intact(j: Join, ids: seq<nat>) {
    exists p :: Listed(j, p) && forall k :: 0 <= k < |ids| ==> ids[k] in p
  }

  lemma {:induction false} ReadsShape(j: Join, s: Shape, p: seq<nat>, k: nat)
    requires Has(j, s) && Listed(j, p) && k < |p| && k < |s.list|
    ensures p[k] == s.list[k]
  {
    if k > 0 {
      ReadsShape(j, s, p, k - 1);
      ListedLinks(j, p, k - 1);
    }
  }

  /** No list can be read off links that circle; otherwise it is the one of the shape. */
  lemma OnlyList(j: Join, s: Shape, p: seq<nat>)
    requires Has(j, s) && Listed(j, p)
    ensures !s.circles && p == s.list
  {
    if p != [] && s.list != [] {
      var k := if |p| <= |s.list| then |p| - 1 else |s.list| - 1;
      ReadsShape(j, s, p, k);
      ListedLinks(j, p, k);
      forall m | 0 <= m <= k
        ensures p[m] == s.list[m]
      {
        ReadsShape(j, s, p, m);
      }
    }
  }

  lemma IntactIff(j: Join, s: Shape, ids: seq<nat>)
    requires Shaped(j) && Has(j, s)
    ensures Intact(j, ids) <==> !s.circles && forall k :: 0 <= k < |ids| ==> ids[k] in s.list
  {
    HasIsListed(j, s);
    if Intact(j, ids) {
      var p :| Listed(j, p) && forall k :: 0 <= k < |ids| ==> ids[k] in p;
      OnlyList(j, s, p);
    }
  }

  function Times(c: nat, n: nat): (ids: seq<nat>)
    ensures |ids| == n && forall k :: 0 <= k < n ==> ids[k] == c
  {
    seq(n, _ => c)
  }

  lemma {:induction false} TimesShape(s: Shape, c: nat, n: nat)
    requires s.list != [] && c == Last(s.list) && c in s.list
    ensures WakeAllShape(s, Times(c, n)) == if n == 0 then s else Shape(s.list, true)
    decreases n
  {
    if n > 0 {
      assert Times(c, n)[1..] == Times(c, n - 1);
      TimesShape(Shape(s.list, true), c, n - 1);
    }
  }

  // ---- one child woken often, others once ----

  /** All that are woken beside c are woken once and were not in the list. */
  ghost predicate OthersOnce(q: seq<nat>, ids: seq<nat>, c: nat) {
    && (forall i :: 0 <= i < |ids| && ids[i] != c ==> ids[i] !in q)
    && (forall i, k :: 0 <= i < k < |ids| && ids[i] != c ==> ids[i] != ids[k])
  }

  /** Nothing is woken between two wakes of c. */
  ghost predicate Together(ids: seq<nat>, c: nat) {
    forall i, m, k :: 0 <= i < m < k < |ids| && ids[i] == c && ids[k] == c ==> ids[m] == c
  }

  /** Nothing is lost from the list, and it ends. */
  ghost predicate Kept(s: Shape, ids: seq<nat>) {
    var t := WakeAllShape(s, ids);
    && !t.circles
    && (forall k :: 0 <= k < |s.list| ==> s.list[k] in t.list)
    && (forall k :: 0 <= k < |ids| ==> ids[k] in t.list)
  }

  lemma OthersRest(q: seq<nat>, d: nat, rest: seq<nat>, c: nat)
    requires OthersOnce(q, [d] + rest, c)
    ensures OthersOnce(q, rest, c)
    ensures d != c ==> d !in q && d !in rest && OthersOnce(q + [d], rest, c)
  {
    var ids := [d] + rest;
    assert ids[0] == d && forall k :: 0 <= k < |rest| ==> ids[k + 1] == rest[k];
  }

  /** A child outside that is not woken stays outside. */
  lemma {:induction false} StaysOut(s: Shape, ids: seq<nat>, x: nat)
    requires x !in s.list && x !in ids
    ensures x !in WakeAllShape(s, ids).list
    decreases |ids|
  {
    if ids != [] {
      StaysOut(WakeShape(s, ids[0]), ids[1..], x);
    }
  }

  lemma AppendsNew(list: seq<nat>, d: nat)
    requires NoRepeats(list) && d !in list
    ensures NoRepeats(list + [d]) && d in list + [d]
    ensures forall k :: 0 <= k < |list| ==> list[k] in list + [d]
  {
    assert (list + [d])[|list|] == d;
    assert forall k :: 0 <= k < |list| ==> (list + [d])[k] == list[k];
  }

  /** The wake of a child cuts off what stands behind it. */
  lemma CutIsOut(s: Shape, i: nat, k: nat)
    requires NoRepeats(s.list) && i < k < |s.list|
    ensures s.list[k] !in WakeShape(s, s.list[i]).list
  {
    assert s.list[i] != s.list[|s.list| - 1];
    assert IndexOf(s.list, s.list[i]) == i;
  }

  /** So a child behind c is lost as soon as c is woken again. */
  lemma {:induction false} BehindIsLost(s: Shape, c: nat, ids: seq<nat>, i: nat, k: nat)
    requires NoRepeats(s.list) && OthersOnce(s.list, ids, c) && c in ids
    requires i < k < |s.list| && s.list[i] == c
    ensures s.list[k] !in WakeAllShape(s, ids).list
    decreases |ids|
  {
    var d, rest := ids[0], ids[1..];
    assert ids == [d] + rest;
    OthersRest(s.list, d, rest, c);
    if d == c {
      CutIsOut(s, i, k);
      StaysOut(WakeShape(s, c), rest, s.list[k]);
    } else {
      AppendsNew(s.list, d);
      var r := WakeShape(s, d);
      assert r.list[i] == c && r.list[k] == s.list[k];
      BehindIsLost(r, c, rest, i, k);
    }
  }

  /** Children that are woken once and are not in the list join it in their order. */
  lemma {:induction false} FreshShape(s: Shape, ids: seq<nat>)
    requires NoRepeats(ids) && Disjoint(ids, s.list)
    ensures WakeAllShape(s, ids) == if ids == [] then s else Shape(s.list + ids, false)
    decreases |ids|
  {
    if ids == [] {
      assert s.list + ids == s.list;
    } else {
      OneMore(s.list, ids);
      FreshShape(WakeShape(s, ids[0]), ids[1..]);
    }
  }

  lemma FreshIsKept(s: Shape, ids: seq<nat>)
    requires NoRepeats(ids) && Disjoint(ids, s.list)
    ensures Kept(s, ids) <==> ids != [] || !s.circles
  {
    FreshShape(s, ids);
    var all := s.list + ids;
    assert forall k :: 0 <= k < |s.list| ==> all[k] == s.list[k];
    assert forall k :: 0 <= k < |ids| ==> all[|s.list| + k] == ids[k];
  }

  /** With others behind it, c must not be woken any more. */
  lemma MiddleKeptIff(s: Shape, c: nat, ids: seq<nat>)
    requires NoRepeats(s.list) && OthersOnce(s.list, ids, c) && c in s.list && c != Last(s.list)
    ensures Kept(s, ids) <==> c !in ids && (ids != [] || !s.circles)
  {
    if c in ids {
      BehindIsLost(s, c, ids, IndexOf(s.list, c), |s.list| - 1);
    } else {
      FreshIsKept(s, ids);
    }
  }

  /** What one wake leaves to the rest. */
  lemma KeptUnfold(s: Shape, d: nat, rest: seq<nat>, r: Shape)
    requires r == WakeShape(s, d) && d in r.list && forall k :: 0 <= k < |s.list| ==> s.list[k] in r.list
    requires forall k :: 0 <= k < |r.list| ==> r.list[k] == d || r.list[k] in s.list
    ensures Kept(s, [d] + rest) <==> Kept(r, rest)
  {
    var ids, t := [d] + rest, WakeAllShape(r, rest);
    assert ids[0] == d && ids[1..] == rest;
    if Kept(r, rest) {
      assert forall x :: x in r.list ==> x in t.list;
      assert forall k :: 1 <= k < |ids| ==> ids[k] == rest[k - 1];
    }
    if Kept(s, ids) {
      assert d in t.list by {
        assert ids[0] in t.list;
      }
      assert forall k :: 0 <= k < |rest| ==> ids[k + 1] == rest[k];
    }
  }

  lemma TogetherAgain(c: nat, rest: seq<nat>)
    ensures Together([c] + ([c] + rest), c) <==> Together([c] + rest, c)
  {
    var short, long := [c] + rest, [c] + ([c] + rest);
    assert forall k :: 0 <= k < |short| ==> long[k + 1] == short[k];
    assert long[0] == short[0];
    if !Together(long, c) {
      var i, m, k :| 0 <= i < m < k < |long| && long[i] == c && long[k] == c && long[m] != c;
      assert short[0] == c && short[m - 1] != c && short[k - 1] == c;
    }
  }

  lemma TogetherParted(c: nat, d: nat, rest: seq<nat>)
    requires d != c
    ensures Together([c] + ([d] + rest), c) <==> c !in rest
  {
    var ids := [c] + ([d] + rest);
    assert ids[0] == c && ids[1] == d && forall k :: 0 <= k < |rest| ==> ids[k + 2] == rest[k];
    if c in rest {
      var k :| 0 <= k < |rest| && rest[k] == c;
      assert ids[k + 2] == c;
    }
  }

  lemma TogetherAfter(c: nat, d: nat, rest: seq<nat>)
    requires d != c
    ensures Together([d] + rest, c) <==> Together(rest, c)
  {
    var ids := [d] + rest;
    assert ids[0] == d && forall k :: 0 <= k < |rest| ==> ids[k + 1] == rest[k];
    if !Together(rest, c) {
      var i, m, k :| 0 <= i < m < k < |rest| && rest[i] == c && rest[k] == c && rest[m] != c;
      assert ids[i + 1] == c && ids[k + 1] == c && ids[m + 1] != c;
    }
  }

  /** When c is the last child. */
  lemma {:induction false} LastKeptIff(s: Shape, c: nat, ids: seq<nat>)
    requires NoRepeats(s.list) && OthersOnce(s.list, ids, c) && c in s.list && c == Last(s.list)
    ensures Kept(s, ids) <==> Together([c] + ids, c) && if ids == [] then !s.circles else Last(ids) != c
    decreases |ids|
  {
    if ids != [] {
      var d, rest := ids[0], ids[1..];
      var r := WakeShape(s, d);
      assert ids == [d] + rest;
      OthersRest(s.list, d, rest, c);
      if d == c {
        KeptUnfold(s, d, rest, r);
        LastKeptIff(r, c, rest);
        TogetherAgain(c, rest);
      } else {
        AppendsNew(s.list, d);
        KeptUnfold(s, d, rest, r);
        MiddleKeptIff(r, c, rest);
        TogetherParted(c, d, rest);
      }
    }
  }

  lemma CountTail(d: nat, rest: seq<nat>, c: nat)
    ensures multiset([d] + rest)[c] == (if d == c then 1 else 0) + multiset(rest)[c]
    ensures rest != [] && Last(rest) == c ==> multiset(rest)[c] >= 1
  {
    if rest != [] && Last(rest) == c {
      assert rest[|rest| - 1] in rest;
    }
  }

  /** When c is not in the list yet. */
  lemma {:induction false} OutsideKeptIff(s: Shape, c: nat, ids: seq<nat>)
    requires NoRepeats(s.list) && OthersOnce(s.list, ids, c) && c !in s.list && !s.circles
    ensures Kept(s, ids) <==> Together(ids, c) && (multiset(ids)[c] <= 1 || Last(ids) != c)
    decreases |ids|
  {
    if ids != [] {
      var d, rest := ids[0], ids[1..];
      var r := WakeShape(s, d);
      assert ids == [d] + rest;
      OthersRest(s.list, d, rest, c);
      AppendsNew(s.list, d);
      KeptUnfold(s, d, rest, r);
      CountTail(d, rest, c);
      if d == c {
        OthersBehind(s.list, c, rest);
        LastKeptIff(r, c, rest);
      } else {
        OutsideKeptIff(r, c, rest);
        TogetherAfter(c, d, rest);
      }
    }
  }

  lemma OthersBehind(q: seq<nat>, c: nat, rest: seq<nat>)
    requires OthersOnce(q, rest, c)
    ensures OthersOnce(q + [c], rest, c)
  {
  }

  /** Child c is woken any number of times, others once, in any order. The list stays
      intact exactly if nothing comes between the wakes of c and, when there are
      several, another child is woken after them. */
  lemma WakesKeepIff(o: Join, q: seq<nat>, c: nat, ids: seq<nat>)
    requires Shaped(o) && Listed(o, q) && InRange(ids, |o.next|) && c !in q && OthersOnce(q, ids, c)
    ensures Intact(WakeAll(o, ids), q + ids) <==>
            Together(ids, c) && (multiset(ids)[c] <= 1 || Last(ids) != c)
  {
    var s := Shape(q, false);
    HasIsListed(o, s);
    WakesAreExact(o, s, ids);
    OutsideKeptIff(s, c, ids);
    IntactIff(WakeAll(o, ids), WakeAllShape(s, ids), q + ids);
    KeptIsAll(s, ids, WakeAllShape(s, ids));
  }

  lemma KeptIsAll(s: Shape, ids: seq<nat>, t: Shape)
    requires t == WakeAllShape(s, ids)
    ensures Kept(s, ids) <==> !t.circles && forall k :: 0 <= k < |s.list + ids| ==> (s.list + ids)[k] in t.list
  {
    var all := s.list + ids;
    assert forall k :: 0 <= k < |s.list| ==> all[k] == s.list[k];
    assert forall k :: 0 <= k < |ids| ==> all[|s.list| + k] == ids[k];
  }

  // ---- the wakes of a nested join ----

  /** A nested join or select is polled and then woken through its children ks, until
      its next poll; that is when its waker has been called s.parentCalls times. */
  ghost predicate BetweenPolls(j: Join, outcomes: seq<Outcome>, ks: seq<nat>, s: Join) {
    && Inv(j, Waiting(j), NIL, []) && LegalEvent(j, Polled(outcomes))
    && var r := Poll(j, outcomes);
    && Fresh(r, AllWakes(outcomes), [], ks) && InRange(ks, |r.next|) && s == WakeAll(r, ks)
  }

  lemma CallsAreWaiting(j: Join, outcomes: seq<Outcome>, ks: seq<nat>, s: Join)
    requires BetweenPolls(j, outcomes, ks, s)
    ensures Inv(s, Waiting(s), NIL, []) && Waiting(s) == AllWakes(outcomes) + ks
    ensures s.parentCalls == |Waiting(s)|
  {
    var q, r, first := Waiting(j), Poll(j, outcomes), AllWakes(outcomes);
    PollLaw(j, q, outcomes, r, first);
    PollCalls(j, q, outcomes, r);
    WakeAllLaw(r, first, NIL, [], ks);
    WakeAllKeeps(r, ks);
    WaitingIsList(s, first + ks);
  }

  /** The outer list after the wakes between two polls of the nested join, whatever
      else is woken in between: it is intact exactly if at most one child of the
      nested join was woken, or if the calls of its waker came in direct succession
      and another child of the outer join was woken after them. */
  lemma NestedKeepsIff(o: Join, q: seq<nat>, ids: seq<nat>, c: nat, j: Join, outcomes: seq<Outcome>, ks: seq<nat>,
                       s: Join)
    requires Shaped(o) && Listed(o, q) && InRange(ids, |o.next|) && c !in q && OthersOnce(q, ids, c)
    requires BetweenPolls(j, outcomes, ks, s) && multiset(ids)[c] == s.parentCalls
    ensures Intact(WakeAll(o, ids), q + ids) <==>
            |AllWakes(outcomes) + ks| <= 1 || (Together(ids, c) && Last(ids) != c)
  {
    CallsAreWaiting(j, outcomes, ks, s);
    WakesKeepIff(o, q, c, ids);
    OneIsTogether(ids, c);
  }

  lemma OneIsTogether(ids: seq<nat>, c: nat)
    ensures multiset(ids)[c] <= 1 ==> Together(ids, c)
  {
    if !Together(ids, c) {
      var i, m, k :| 0 <= i < m < k < |ids| && ids[i] == c && ids[k] == c && ids[m] != c;
      OccursOnce(ids, c, i, k);
    }
  }

  lemma OccursOnce(ids: seq<nat>, c: nat, i: nat, k: nat)
    requires i < k < |ids| && ids[i] == c && ids[k] == c
    ensures multiset(ids)[c] >= 2
  {
    assert ids == ids[..k] + ids[k..];
    assert ids[..k][i] == c && ids[k..][0] == c;
  }

  /** Whatever else is woken in between, what the outer join assumes of its children
      is kept exactly if at most one child of the nested join was woken. */
  lemma NestedFreshIff(o: Join, q: seq<nat>, batch: seq<nat>, ids: seq<nat>, c: nat, j: Join, outcomes: seq<Outcome>,
                       ks: seq<nat>, s: Join)
    requires AwayFrom(o, q, batch, c) && BetweenPolls(j, outcomes, ks, s)
    requires OthersFresh(o, q, batch, ids, c) && multiset(ids)[c] == s.parentCalls
    ensures Fresh(o, q, batch, ids) <==> |AllWakes(outcomes) + ks| <= 1
  {
    CallsAreWaiting(j, outcomes, ks, s);
    NoRepeatsIff(ids, c);
    AllAway(o, q, batch, ids, c);
  }

  /** A child that may be woken. */
  ghost predicate AwayFrom(o: Join, q: seq<nat>, batch: seq<nat>, c: nat) {
    c < |o.alive| && o.alive[c] && c !in q && c !in batch
  }

  /** All that are woken beside c are woken once and may be. */
  ghost predicate OthersFresh(o: Join, q: seq<nat>, batch: seq<nat>, ids: seq<nat>, c: nat) {
    && (forall i :: 0 <= i < |ids| && ids[i] != c ==> AwayFrom(o, q, batch, ids[i]))
    && (forall i, k :: 0 <= i < k < |ids| && ids[i] != c ==> ids[i] != ids[k])
  }

  lemma AllAway(o: Join, q: seq<nat>, batch: seq<nat>, ids: seq<nat>, c: nat)
    requires AwayFrom(o, q, batch, c) && OthersFresh(o, q, batch, ids, c)
    ensures AllAlive(o, ids) && Disjoint(ids, q) && Disjoint(ids, batch)
  {
    assert forall i :: 0 <= i < |ids| ==> AwayFrom(o, q, batch, ids[i]);
  }

  lemma NoRepeatsIff(ids: seq<nat>, c: nat)
    requires forall i, k :: 0 <= i < k < |ids| && ids[i] != c ==> ids[i] != ids[k]
    ensures NoRepeats(ids) <==> multiset(ids)[c] <= 1
  {
    if multiset(ids)[c] >= 2 {
      TwoPlaces(ids, c);
    } else {
      forall i, k | 0 <= i < k < |ids|
        ensures ids[i] != ids[k]
      {
        if ids[i] == c && ids[k] == c {
          OccursOnce(ids, c, i, k);
        }
      }
    }
  }

  lemma {:induction false} TwoPlaces(ids: seq<nat>, c: nat)
    requires multiset(ids)[c] >= 2
    ensures exists i, k :: 0 <= i < k < |ids| && ids[i] == c && ids[k] == c
    decreases |ids|
  {
    var init, last := ids[..|ids| - 1], ids[|ids| - 1];
    assert ids == init + [last];
    if last == c {
      assert multiset(init)[c] >= 1;
      assert c in init;
      var i :| 0 <= i < |init| && init[i] == c;
      assert ids[i] == c && ids[|ids| - 1] == c;
    } else {
      TwoPlaces(init, c);
      var i, k :| 0 <= i < k < |init| && init[i] == c && init[k] == c;
      assert ids[i] == c && ids[k] == c;
    }
  }

  /** The poll of a nested join or select by the outer one, which it wakes n times:
      the invariant of the outer join is kept exactly if that is at most once, and
      not at all when the nested one is ready. */
  lemma NestedPollKeepsIff(o: Join, q: seq<nat>, c: nat, rest: seq<nat>, n: nat, ready: bool, r: Join)
    requires Inv(o, q, c, [c] + rest) && c < |o.next| && r == PollChild(o, c, Outcome(Times(c, n), ready))
    ensures (exists p :: Inv(r, p, o.next[c], rest)) <==> n <= 1 && (ready ==> n == 0)
  {
    var ids := Times(c, n);
    if n <= 1 && (ready ==> n == 0) {
      CursorLaw(o, q, c, rest);
      CursorLinks(o, q, c, rest);
      PollChildLaw(o, q, c, rest, Outcome(ids, ready));
    } else {
      forall p
        ensures !Inv(r, p, o.next[c], rest)
      {
        TooManyWakes(o, q, c, rest, n, ready, r, p);
      }
    }
  }

  lemma TooManyWakes(o: Join, q: seq<nat>, c: nat, rest: seq<nat>, n: nat, ready: bool, r: Join, p: seq<nat>)
    requires Inv(o, q, c, [c] + rest) && c < |o.next| && r == PollChild(o, c, Outcome(Times(c, n), ready))
    requires n > 1 || (ready && n > 0)
    ensures !Inv(r, p, o.next[c], rest)
  {
    var ids := Times(c, n);
    WakeAllKeeps(o.(polls := o.polls + [c]), ids);
    WaitingOnlyIf(o, q, c, rest, ids, r, p);
    if p == q + ids {
      assert p[|q|] == c;
      assert n > 1 ==> p[|q| + 1] == c;
    }
  }

  /** The ledger leaves no choice for what is listed now. */
  lemma WaitingOnlyIf(o: Join, q: seq<nat>, c: nat, rest: seq<nat>, ids: seq<nat>, r: Join, p: seq<nat>)
    requires o.wakes == o.polls + (([c] + rest) + q)
    requires r.wakes == o.wakes + ids && r.polls == o.polls + [c]
    ensures r.wakes == r.polls + (rest + p) ==> p == q + ids
  {
    assert r.wakes == r.polls + (rest + (q + ids));
    if r.wakes == r.polls + (rest + p) {
      SameEnd(r.polls, rest + p, rest + (q + ids));
      SameEnd(rest, p, q + ids);
    }
  }

  lemma SameEnd(a: seq<nat>, b: seq<nat>, c: seq<nat>)
    requires a + b == a + c
    ensures b == c
  {
    assert b == (a + b)[|a|..] && c == (a + c)[|a|..];
  }

  // ---- it happens ----

  /** Once a child links to itself, the walk polls it for as long as it pends. */
  lemma {:induction false} CirclingWalk(o: Join, c: nat, outcomes: seq<Outcome>, r: Join)
    requires Shaped(o) && c < |o.next| && o.next[c] == c
    requires forall k :: 0 <= k < |outcomes| ==> outcomes[k] == TimedWait.Quiet(false)
    requires AllInRange(outcomes, |o.next|) && r == Walk(o, c, outcomes)
    ensures r == o.(polls := o.polls + Times(c, |outcomes|)) && !Covers(o, c, outcomes)
    decreases |outcomes|
  {
    if outcomes == [] {
      assert o.polls + Times(c, 0) == o.polls;
    } else {
      var m := PollChild(o, c, outcomes[0]);
      assert m == o.(polls := o.polls + [c]);
      CirclingWalk(m, c, outcomes[1..], r);
      assert o.polls + [c] + Times(c, |outcomes| - 1) == o.polls + Times(c, |outcomes|);
    }
  }

  /** A select of two sleeps, or a timed wait, is the only child of a join. Each has
      been polled once; both children of the select are woken before the next poll,
      and both are ready in it. The outer list circles on its only child, so the walk
      comes back to it after it has completed; the source then follows the null
      pointer that it left there. */
  lemma TwoSleepsComeBack(children: nat, pend: seq<Outcome>, done: seq<Outcome>, random: nat, one: nat, o: Join,
                          again: Outcome) returns (y: Join, outer: Join)
    requires children == 2 && pend == [TimedWait.Quiet(false)] + [TimedWait.Quiet(false)]
    requires done == [TimedWait.Quiet(true)] + [TimedWait.Quiet(true)]
    requires one == 1 && o == Poll(Initial(one), [TimedWait.Quiet(false)]) && InRange(again.wakes, one)
    ensures var events := [Polled(pend), Woken(TimedWait.TIMEOUT), Woken(TimedWait.WAIT)];
            AllLegal(Initial(children), events) && y == Run(Initial(children), events)
    ensures LegalEvent(y, Polled(done)) && Report(Poll(y, done), true, true, random).Ready?
    ensures Poll(y, done).parentCalls == 0
    ensures LegalEvent(Initial(one), Polled([TimedWait.Quiet(false)])) && Shaped(o) && |o.next| == one
    ensures outer == WakeAll(o, Times(0, y.parentCalls)) && !Intact(outer, [0])
    ensures ComesBack(Detached(outer), 0, TimedWait.Quiet(true), again)
  {
    y := BothSleepsWoken(children, pend, done, random);
    outer := OuterWokenTwice(one, o);
    CircleComesBack(Detached(outer), 0, TimedWait.Quiet(true), again);
  }

  lemma BothSleepsWoken(children: nat, pend: seq<Outcome>, done: seq<Outcome>, random: nat) returns (y: Join)
    requires children == 2 && pend == [TimedWait.Quiet(false)] + [TimedWait.Quiet(false)]
    requires done == [TimedWait.Quiet(true)] + [TimedWait.Quiet(true)]
    ensures var events := [Polled(pend), Woken(TimedWait.TIMEOUT), Woken(TimedWait.WAIT)];
            AllLegal(Initial(children), events) && y == Run(Initial(children), events)
    ensures y.parentCalls == 2
    ensures LegalEvent(y, Polled(done)) && Report(Poll(y, done), true, true, random).Ready?
    ensures Poll(y, done).parentCalls == 0
  {
    y := TimedWait.BothWokenBefore(Initial(children), children, pend);
    BothSleepsReady(y, [TimedWait.TIMEOUT, TimedWait.WAIT], done, random);
  }

  lemma BothSleepsReady(y: Join, q: seq<nat>, done: seq<Outcome>, random: nat)
    requires TimedWait.Undecided(y, q) && Waiting(y) == q && q == [TimedWait.TIMEOUT, TimedWait.WAIT]
    requires done == [TimedWait.Quiet(true)] + [TimedWait.Quiet(true)]
    ensures LegalEvent(y, Polled(done)) && Report(Poll(y, done), true, true, random).Ready?
    ensures Poll(y, done).parentCalls == 0
  {
    assert AllQuiet(done) && q == [TimedWait.TIMEOUT] + [TimedWait.WAIT];
    var z := Poll(y, done);
    TimedWait.BothReady(y, q, done, z, random);
    QuietIsLegal(Detached(y), [], q, done);
    PollCalls(y, q, done, z);
  }

  lemma OuterWokenTwice(one: nat, o: Join) returns (outer: Join)
    requires one == 1 && o == Poll(Initial(one), [TimedWait.Quiet(false)])
    ensures LegalEvent(Initial(one), Polled([TimedWait.Quiet(false)])) && Shaped(o) && |o.next| == one
    ensures outer == WakeAll(o, Times(0, 2))
    ensures outer.head == 0 && outer.tail == 0 && outer.next[0] == 0 && !Intact(outer, [0])
  {
    OuterPolledOnce(one, o);
    outer := WakeAll(o, Times(0, 2));
    OuterCircles(o, outer);
  }

  /** The walk polls child c, which completes, and then child c once more. */
  predicate ComesBack(d: Join, c: nat, first: Outcome, again: Outcome)
    requires Shaped(d) && c < |d.next| && InRange(first.wakes, |d.next|) && InRange(again.wakes, |d.next|)
  {
    var m := PollChild(d, c, first);
    && d.next[c] == c && !m.alive[c]
    && Walk(d, c, [first] + [again]) == PollChild(m, c, again)
  }

  lemma CircleComesBack(d: Join, c: nat, first: Outcome, again: Outcome)
    requires Shaped(d) && c < |d.next| && d.next[c] == c
    requires first == TimedWait.Quiet(true) && InRange(again.wakes, |d.next|)
    ensures ComesBack(d, c, first, again)
  {
    var m := PollChild(d, c, first);
    assert m.next == d.next;
    assert ([first] + [again])[1..] == [again] && [again][1..] == [];
    assert Walk(m, c, [again]) == PollChild(m, c, again);
  }

  /** A poll without wakes leaves a join pending as long as a child outside the batch
      is alive. */
  lemma StillPends(y: Join, q: seq<nat>, outcomes: seq<Outcome>, z: Join, c: nat, biased: bool, random: nat)
    requires Inv(y, q, NIL, []) && |outcomes| == |q| && AllQuiet(outcomes) && z == Poll(y, outcomes)
    requires c < |y.alive| && y.alive[c] && c !in q
    ensures LegalBatch(Detached(y), [], q, outcomes) && Inv(z, [], NIL, [])
    ensures Report(z, false, biased, random) == Pending && z.parentCalls == 0 && Poll(z, []) == z
  {
    QuietIsLegal(Detached(y), [], q, outcomes);
    PollLaw(y, q, outcomes, z, []);
    PollCalls(y, q, outcomes, z);
    PollKeepsCount(y, q, outcomes, z);
    ReadyAreListed(q, outcomes, c);
    assert c !in z.cleaned;
    ReportLaw(z, [], biased, random);
    assert Detached(z) == z;
  }

  predicate AllQuiet(outcomes: seq<Outcome>)
    ensures AllQuiet(outcomes) ==> forall len: nat :: AllInRange(outcomes, len)
  {
    forall k :: 0 <= k < |outcomes| ==> outcomes[k].wakes == []
  }

  lemma {:induction false} QuietIsLegal(d: Join, q: seq<nat>, batch: seq<nat>, outcomes: seq<Outcome>)
    requires Shaped(d) && InRange(batch, |d.next|) && |outcomes| == |batch| && AllQuiet(outcomes)
    ensures LegalBatch(d, q, batch, outcomes) && AllWakes(outcomes) == []
    decreases |outcomes|
  {
    if batch != [] {
      assert q + outcomes[0].wakes == q;
      QuietIsLegal(PollChild(d, batch[0], outcomes[0]), q, batch[1..], outcomes[1..]);
    }
  }

  lemma {:induction false} ReadyAreListed(q: seq<nat>, outcomes: seq<Outcome>, c: nat)
    requires c !in q
    ensures c !in ReadyOf(q, outcomes)
    decreases |outcomes|
  {
    if q != [] && outcomes != [] {
      ReadyAreListed(q[1..], outcomes[1..], c);
    }
  }

  /** A join of three is the only child of a join; two of the three are woken before
      its next poll, whether they are ready in it or not. The nested join pends, now
      and in every poll that follows, and the walk of the outer join over its only
      child does not end. */
  lemma ThreeSleepsCircle(children: nat, pend: seq<Outcome>, done: seq<Outcome>, one: nat, o: Join,
                          later: seq<Outcome>) returns (y: Join, outer: Join)
    requires children == 3 == |pend| && AllQuiet(pend) && (forall k :: 0 <= k < |pend| ==> !pend[k].ready)
    requires |done| == 2 && AllQuiet(done)
    requires one == 1 && o == Poll(Initial(one), [TimedWait.Quiet(false)])
    requires AllInRange(later, one) && forall k :: 0 <= k < |later| ==> later[k] == TimedWait.Quiet(false)
    ensures var events := [Polled(pend), Woken(0), Woken(1)];
            AllLegal(Initial(children), events) && y == Run(Initial(children), events)
    ensures LegalEvent(y, Polled(done))
    ensures var z := Poll(y, done); Report(z, false, true, 0) == Pending && z.parentCalls == 0 && Poll(z, []) == z
    ensures LegalEvent(Initial(one), Polled([TimedWait.Quiet(false)])) && Shaped(o) && |o.next| == one
    ensures outer == WakeAll(o, Times(0, y.parentCalls)) && !Intact(outer, [0])
    ensures Poll(outer, later).polls == outer.polls + Times(0, |later|)
  {
    y := ThreeSleepsPend(children, pend, done);
    outer := OuterWokenTwice(one, o);
    CirclingWalk(Detached(outer), 0, later, Poll(outer, later));
  }

  lemma ThreeSleepsPend(children: nat, pend: seq<Outcome>, done: seq<Outcome>) returns (y: Join)
    requires children == 3 == |pend| && AllQuiet(pend) && (forall k :: 0 <= k < |pend| ==> !pend[k].ready)
    requires |done| == 2 && AllQuiet(done)
    ensures var events := [Polled(pend), Woken(0), Woken(1)];
            AllLegal(Initial(children), events) && y == Run(Initial(children), events)
    ensures y.parentCalls == 2 && LegalEvent(y, Polled(done))
    ensures var z := Poll(y, done); Report(z, false, true, 0) == Pending && z.parentCalls == 0 && Poll(z, []) == z
  {
    y := TwoOfThreeWoken(Initial(children), children, pend);
    AnotherPends(y, [0, 1], done, 2);
  }

  lemma AnotherPends(y: Join, q: seq<nat>, done: seq<Outcome>, c: nat)
    requires Waiting(y) == q && |done| == |q| && AllQuiet(done) && c < |y.alive| && y.alive[c] && c !in q
    ensures Inv(y, q, NIL, []) ==>
              && LegalEvent(y, Polled(done))
              && var z := Poll(y, done);
              && Report(z, false, true, 0) == Pending && z.parentCalls == 0 && Poll(z, []) == z
  {
    if Inv(y, q, NIL, []) {
      StillPends(y, q, done, Poll(y, done), c, true, 0);
    }
  }

  lemma TwoOfThreeWoken(j: Join, children: nat, pend: seq<Outcome>) returns (y: Join)
    requires j == Initial(children) && children == 3
    requires |pend| == 3 && AllQuiet(pend) && forall k :: 0 <= k < |pend| ==> !pend[k].ready
    ensures AllLegal(j, [Polled(pend), Woken(0), Woken(1)]) && y == Run(j, [Polled(pend), Woken(0), Woken(1)])
    ensures Inv(y, [0, 1], NIL, []) && |y.alive| == 3 && y.alive[2] && y.parentCalls == 2 && Waiting(y) == [0, 1]
  {
    var q := [0] + ([1] + [2]);
    InitialInv(children);
    assert seq(children, k => k) == q;
    WaitingIsList(j, q);
    var r := Poll(j, pend);
    NobodyReady(j, q, pend, r);
    var x := Wake(r, 0);
    y := Wake(x, 1);
    WaitingIsList(r, []);
    WokenKeeps(r, [], 0, x, [0]);
    WaitingIsList(x, [0]);
    WokenKeeps(x, [0], 1, y, [0, 1]);
    WaitingIsList(y, [0, 1]);
    TimedWait.ThreeLegal(j, r, x, y, Polled(pend), Woken(0), Woken(1));
  }

  lemma NobodyReady(j: Join, q: seq<nat>, outcomes: seq<Outcome>, r: Join)
    requires Inv(j, q, NIL, []) && j.picked == [] && |outcomes| == |q| && AllQuiet(outcomes) && r == Poll(j, outcomes)
    requires forall k :: 0 <= k < |outcomes| ==> !outcomes[k].ready
    ensures LegalBatch(Detached(j), [], q, outcomes) && Inv(r, [], NIL, []) && r.parentCalls == 0
    ensures |r.alive| == |j.alive| && forall c :: 0 <= c < |r.alive| ==> r.alive[c]
  {
    QuietIsLegal(Detached(j), [], q, outcomes);
    PollLaw(j, q, outcomes, r, []);
    PollCalls(j, q, outcomes, r);
    PollKeepsCount(j, q, outcomes, r);
    NoneReady(q, outcomes);
    assert forall c: nat :: c !in r.cleaned;
  }

  lemma {:induction false} NoneReady(q: seq<nat>, outcomes: seq<Outcome>)
    requires forall k :: 0 <= k < |outcomes| ==> !outcomes[k].ready
    ensures ReadyOf(q, outcomes) == []
    decreases |outcomes|
  {
    if q != [] && outcomes != [] {
      NoneReady(q[1..], outcomes[1..]);
    }
  }

  lemma OuterPolledOnce(one: nat, o: Join)
    requires one == 1 && o == Poll(Initial(one), [TimedWait.Quiet(false)])
    ensures LegalEvent(Initial(one), Polled([TimedWait.Quiet(false)]))
    ensures Shaped(o) && |o.next| == 1 && Listed(o, [])
  {
    InitialInv(one);
    assert seq(one, k => k) == [0];
    var outcomes := [TimedWait.Quiet(false)];
    assert outcomes[1..] == [] && [0][1..] == [];
    assert LegalBatch(Detached(Initial(one)), [], [0], outcomes);
    WaitingIsList(Initial(one), [0]);
    PollLaw(Initial(one), [0], outcomes, o, AllWakes(outcomes));
    assert AllWakes(outcomes) == [];
  }

  lemma OuterCircles(o: Join, outer: Join)
    requires Shaped(o) && |o.next| == 1 && Listed(o, []) && outer == WakeAll(o, Times(0, 2))
    ensures outer.head == 0 && outer.tail == 0 && outer.next[0] == 0 && !Intact(outer, [0])
  {
    var s := Shape([], false);
    HasIsListed(o, s);
    WakesAreExact(o, s, Times(0, 2));
    assert Times(0, 2)[1..] == Times(0, 1);
    var first := WakeShape(s, 0);
    assert first == Shape([0], false);
    TimesShape(first, 0, 1);
    assert WakeAllShape(s, Times(0, 2)) == Shape([0], true);
    IntactIff(outer, Shape([0], true), [0]);
  }

  /** In its first poll a select of two finds the first child pending, which wakes
      itself, and the second ready: it is ready, and its parent has been woken. */
  lemma SelectWakesAndReports(j: Join, children: nat, outcomes: seq<Outcome>, r: Join, random: nat)
    requires children == 2 && j == Initial(children)
    requires outcomes == [Outcome([0], false)] + [Outcome([], true)] && r == Poll(j, outcomes)
    ensures LegalEvent(j, Polled(outcomes))
    ensures Report(r, true, true, random) == Ready(Some(1)) && r.parentCalls == 1
  {
    var q := [0] + [1];
    InitialInv(children);
    assert seq(children, k => k) == q;
    WaitingIsList(j, q);
    FirstWakesSecondEnds(Detached(j), 0, 1, Outcome([0], false), Outcome([], true), q, outcomes);
    WokenAndReady(0, 1, Outcome([0], false), Outcome([], true), q, outcomes);
    SelectNames(j, q, outcomes, r, true, random);
    PollCalls(j, q, outcomes, r);
  }

  lemma FirstWakesSecondEnds(d: Join, a: nat, b: nat, x: Outcome, y: Outcome, q: seq<nat>, outcomes: seq<Outcome>)
    requires Shaped(d) && a < |d.next| && b < |d.next| && a != b && d.alive[a]
    requires x == Outcome([a], false) && y == Outcome([], true) && q == [a] + [b] && outcomes == [x] + [y]
    ensures LegalBatch(d, [], q, outcomes) && AllInRange(outcomes, |d.next|)
  {
    LastEnds(PollChild(d, a, x), [a], b, y);
    assert Legal(d, [], [b], a, x);
    BatchBefore(d, [], a, [b], x, [y], PollChild(d, a, x), [a]);
  }

  lemma BatchBefore(d: Join, q: seq<nat>, a: nat, rest: seq<nat>, x: Outcome, more: seq<Outcome>, m: Join,
                    later: seq<nat>)
    requires Shaped(d) && a < |d.next| && InRange(x.wakes, |d.next|) && Legal(d, q, rest, a, x)
    requires m == PollChild(d, a, x) && later == q + x.wakes && LegalBatch(m, later, rest, more)
    ensures LegalBatch(d, q, [a] + rest, [x] + more)
  {
    assert ([a] + rest)[1..] == rest && ([x] + more)[1..] == more;
  }

  lemma WokenAndReady(a: nat, b: nat, x: Outcome, y: Outcome, q: seq<nat>, outcomes: seq<Outcome>)
    requires x == Outcome([a], false) && y == Outcome([], true) && q == [a] + [b] && outcomes == [x] + [y]
    ensures ReadyOf(q, outcomes) == [b] && AllWakes(outcomes) == [a]
  {
    assert q[1..] == [b] && outcomes[1..] == [y] && [y][1..] == [];
    TimedWait.OneReady(b, y);
    assert AllWakes([]) == [] && AllWakes([y]) == [];
  }

  lemma LastEnds(m: Join, q: seq<nat>, b: nat, y: Outcome)
    requires Shaped(m) && b < |m.next| && y == Outcome([], true)
    ensures LegalBatch(m, q, [b], [y])
  {
    var n := PollChild(m, b, y);
    assert [b][1..] == [] && [y][1..] == [] && LegalBatch(n, q + y.wakes, [], []);
    assert Legal(m, q, [], b, y);
  }
}
