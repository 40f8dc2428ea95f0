/** The order of the calls, within one tick as well: the timers that expire together
    stand in one line, wheel by wheel and bucket by bucket, which no cascade changes. */
module WheelOrder {
  import opened Sequences
  import opened Wheel
  import opened WheelClock
  import opened WheelCascade
  import opened WheelOps
  import opened WheelRuns
  import opened WheelHeld
  import opened WheelExact
  import opened WheelMoves
  import Arith
  import Vec

  // ---- the line ----

  /** What wheel i holds for the given expiry, in the order of its bucket. */
  function Of(buckets: seq<seq<Timer>>, expiry: nat, i: nat): seq<Timer>
    requires |buckets| == BUCKETS && i < LEVELS
  {
    Due(buckets[Slot(i, expiry)], expiry)
  }

  /** What the wheels from i on hold for it. */
  function Line(buckets: seq<seq<Timer>>, expiry: nat, i: nat): seq<Timer>
    requires |buckets| == BUCKETS && i <= LEVELS
    decreases LEVELS - i
  {
    if i == LEVELS then [] else Of(buckets, expiry, i) + Line(buckets, expiry, i + 1)
  }

  lemma {:induction false} DueInParts(a: seq<Timer>, b: seq<Timer>, expiry: nat)
    ensures Due(a + b, expiry) == Due(a, expiry) + Due(b, expiry)
  {
    if a == [] {
      assert a + b == b;
    } else {
      DueInParts(a[1..], b, expiry);
      assert (a + b)[0] == a[0] && (a + b)[1..] == a[1..] + b;
      Assoc(if a[0].expiry == expiry then [a[0]] else [], Due(a[1..], expiry), Due(b, expiry));
    }
  }

  lemma {:induction false} NoneDue(timers: seq<Timer>, expiry: nat)
    requires forall k :: 0 <= k < |timers| ==> timers[k].expiry != expiry
    ensures Due(timers, expiry) == []
  {
    if timers != [] {
      NoneDue(timers[1..], expiry);
    }
  }

  lemma {:induction false} CallsInParts(a: seq<Timer>, b: seq<Timer>, time: nat)
    ensures CallAll(a + b, time) == CallAll(a, time) + CallAll(b, time)
  {
    if a == [] {
      assert a + b == b;
    } else {
      CallsInParts(a[1..], b, time);
      assert (a + b)[1..] == a[1..] + b;
    }
  }

  lemma LineUnfold(a: seq<seq<Timer>>, expiry: nat, i: nat)
    requires |a| == BUCKETS && i < LEVELS
    ensures Line(a, expiry, i) == Of(a, expiry, i) + Line(a, expiry, i + 1)
    ensures Of(a, expiry, i) == [] ==> Line(a, expiry, i) == Line(a, expiry, i + 1)
  {
  }

  lemma {:induction false} LineSame(a: seq<seq<Timer>>, b: seq<seq<Timer>>, expiry: nat, i: nat)
    requires |a| == |b| == BUCKETS && i <= LEVELS
    requires forall k :: i <= k < LEVELS ==> Of(a, expiry, k) == Of(b, expiry, k)
    ensures Line(a, expiry, i) == Line(b, expiry, i)
    decreases LEVELS - i
  {
    if i < LEVELS {
      LineSame(a, b, expiry, i + 1);
    }
  }

  /** The part of wheel i goes behind that of wheel j, with nothing in between. */
  ghost predicate Moved(a: seq<seq<Timer>>, b: seq<seq<Timer>>, expiry: nat, j: nat, i: nat)
    requires |a| == |b| == BUCKETS && j < i < LEVELS
  {
    && (forall k :: 0 <= k < LEVELS && k != i && k != j ==> Of(b, expiry, k) == Of(a, expiry, k))
    && (forall k :: j < k < i ==> Of(a, expiry, k) == [])
    && Of(b, expiry, i) == [] && Of(b, expiry, j) == Of(a, expiry, j) + Of(a, expiry, i)
  }

  lemma {:induction false} MovedBetween(a: seq<seq<Timer>>, b: seq<seq<Timer>>, expiry: nat, j: nat, i: nat, k: nat)
    requires |a| == |b| == BUCKETS && j < i < LEVELS && Moved(a, b, expiry, j, i) && j < k <= i
    ensures Line(a, expiry, k) == Of(a, expiry, i) + Line(b, expiry, k)
    decreases i - k
  {
    LineUnfold(a, expiry, k);
    LineUnfold(b, expiry, k);
    if k == i {
      LineSame(a, b, expiry, i + 1);
    } else {
      MovedBetween(a, b, expiry, j, i, k + 1);
    }
  }

  lemma {:induction false} MovedKeepsLine(a: seq<seq<Timer>>, b: seq<seq<Timer>>, expiry: nat, j: nat, i: nat, k: nat)
    requires |a| == |b| == BUCKETS && j < i < LEVELS && Moved(a, b, expiry, j, i) && k <= j
    ensures Line(b, expiry, k) == Line(a, expiry, k)
    decreases j - k
  {
    LineUnfold(a, expiry, k);
    LineUnfold(b, expiry, k);
    if k == j {
      MovedBetween(a, b, expiry, j, i, j + 1);
      Assoc(Of(a, expiry, j), Of(a, expiry, i), Line(b, expiry, j + 1));
    } else {
      MovedKeepsLine(a, b, expiry, j, i, k + 1);
    }
  }

  // ---- one bucket ----

  lemma PushOf(buckets: seq<seq<Timer>>, slot: nat, t: Timer, expiry: nat, k: nat)
    requires |buckets| == BUCKETS && slot < BUCKETS && k < LEVELS
    ensures Of(buckets[slot := buckets[slot] + [t]], expiry, k) ==
            Of(buckets, expiry, k) + if slot == Slot(k, expiry) && t.expiry == expiry then [t] else []
  {
    DueInParts(buckets[slot], [t], expiry);
    DueAlone(t, expiry);
  }

  /** What a walk over timers in hand adds to the parts of an expiry still to come. */
  function Given(timers: seq<Timer>, time: nat, expiry: nat, k: nat): seq<Timer> {
    if time < expiry && k == FindWheel(expiry - time) then Due(timers, expiry) else []
  }

  lemma GivenInParts(a: seq<Timer>, b: seq<Timer>, time: nat, expiry: nat, k: nat)
    ensures Given(a + b, time, expiry, k) == Given(a, time, expiry, k) + Given(b, time, expiry, k)
  {
    DueInParts(a, b, expiry);
  }

  lemma CallsOfParts(a: seq<Timer>, b: seq<Timer>, time: nat)
    ensures CallAll(Due(a + b, time), time) == CallAll(Due(a, time), time) + CallAll(Due(b, time), time)
  {
    DueInParts(a, b, time);
    CallsInParts(Due(a, time), Due(b, time), time);
  }

  lemma OneOf(w: Wheels, i: nat, t: Timer, r: Wheels, time: nat, expiry: nat, k: nat)
    requires InHand(w, i, [t], time) && r == TickOne(w, i, t) && time <= expiry && k < LEVELS
    ensures Of(r.buckets, expiry, k) == Of(w.buckets, expiry, k) + Given([t], time, expiry, k)
  {
    assert [t][0] == t;
    DueAlone(t, expiry);
    if t.expiry == time {
      TickOneIsExpired(w, i, t);
    } else {
      TickOneIsPush(w, i, t);
      PushOf(w.buckets, RescheduleSlot(time, t), t, expiry, k);
    }
  }

  lemma OneCalled(w: Wheels, i: nat, t: Timer, r: Wheels, time: nat)
    requires InHand(w, i, [t], time) && r == TickOne(w, i, t)
    ensures r.calls == w.calls + CallAll(Due([t], time), time)
  {
    assert [t][0] == t && [t][1..] == [];
    DueAlone(t, time);
    if t.expiry == time {
      TickOneIsExpired(w, i, t);
    } else {
      TickOneIsPush(w, i, t);
    }
  }

  lemma DueAlone(t: Timer, expiry: nat)
    ensures Due([t], expiry) == if t.expiry == expiry then [t] else []
  {
    assert [t][1..] == [];
  }

  lemma HeadInHand(w: Wheels, i: nat, t: Timer, rest: seq<Timer>, time: nat)
    requires InHand(w, i, [t] + rest, time)
    ensures InHand(w, i, [t], time)
  {
    assert ([t] + rest)[0] == t;
  }

  lemma EachUnfold(w: Wheels, i: nat, timers: seq<Timer>, t: Timer, rest: seq<Timer>, next: Wheels, r: Wheels)
    requires Shaped(w) && InStep(w.ticks, i) && timers == [t] + rest && next == TickOne(w, i, t)
    requires r == TickEach(w, i, timers)
    ensures r == TickEach(next, i, rest)
  {
    assert timers[0] == t && timers[1..] == rest;
  }

  lemma {:induction false} EachOf(w: Wheels, i: nat, timers: seq<Timer>, r: Wheels, time: nat, expiry: nat, k: nat)
    requires InHand(w, i, timers, time) && r == TickEach(w, i, timers) && time <= expiry && k < LEVELS
    ensures Of(r.buckets, expiry, k) == Of(w.buckets, expiry, k) + Given(timers, time, expiry, k)
    ensures r.calls == w.calls + CallAll(Due(timers, time), time)
    decreases |timers|
  {
    if timers == [] {
      assert Due(timers, time) == [] && CallAll([], time) == [] && Given(timers, time, expiry, k) == [];
    } else {
      var t, rest := timers[0], timers[1..];
      var next := TickOne(w, i, t);
      assert timers == [t] + rest;
      InHandStep(w, i, t, rest, time, 0, 0);
      HeadInHand(w, i, t, rest, time);
      OneOf(w, i, t, next, time, expiry, k);
      OneCalled(w, i, t, next, time);
      EachOf(next, i, rest, r, time, expiry, k);
      EachUnfold(w, i, timers, t, rest, next, r);
      GivenInParts([t], rest, time, expiry, k);
      CallsOfParts([t], rest, time);
      Assoc(Of(w.buckets, expiry, k), Given([t], time, expiry, k), Given(rest, time, expiry, k));
      Assoc(w.calls, CallAll(Due([t], time), time), CallAll(Due(rest, time), time));
    }
  }

  lemma CascadingAt(w: Wheels, i: nat, time: nat, slot: nat, t: Timer)
    requires Midway(w, i, time) && slot < BUCKETS && t in w.buckets[slot]
    ensures DueOrPlacedAt(time, slot, t)
    ensures WheelOf(slot) < i || time % Res(WheelOf(slot)) != 0 ==> PlacedAt(time, slot, t)
  {
  }

  lemma OtherBucket(w: Wheels, i: nat, time: nat, due: nat, expiry: nat)
    requires Midway(w, i, time) && due < BUCKETS && WheelOf(due) == i && Slot(i, expiry) != due
    ensures Due(w.buckets[due], expiry) == []
  {
    var bucket := w.buckets[due];
    forall m | 0 <= m < |bucket|
      ensures bucket[m].expiry != expiry
    {
      CascadingAt(w, i, time, due, bucket[m]);
    }
    NoneDue(bucket, expiry);
  }

  /** One bucket of the cascade: its timers are called in their order, or go in their
      order behind those that wait in a lower wheel. */
  lemma BucketOf(w: Wheels, i: nat, time: nat, done: Wheels, expiry: nat, k: nat)
    requires Midway(w, i, time) && done == BucketDone(w, i) && time <= expiry && k < LEVELS
    ensures done.calls == w.calls + CallAll(Of(w.buckets, time, i), time)
    ensures Of(done.buckets, expiry, k) ==
            (if k == i && Slot(i, expiry) == Slot(i, time) then [] else Of(w.buckets, expiry, k))
            + (if Slot(i, expiry) == Slot(i, time) then Given(w.buckets[Slot(i, time)], time, expiry, k) else [])
  {
    var due := Slot(i, time);
    DueSlotIsSlotOfTime(w.ticks, i);
    TakeOutCascades(w, i, time);
    EachOf(TakeOut(w, due), i, w.buckets[due], done, time, expiry, k);
    if Slot(i, expiry) != due {
      OtherBucket(w, i, time, due, expiry);
    }
  }

  lemma BetweenIsEmpty(w: Wheels, i: nat, time: nat, expiry: nat, k: nat)
    requires Midway(w, i, time) && k < i && time < expiry && expiry - time < Res(k)
    ensures Of(w.buckets, expiry, k) == []
  {
    var slot := Slot(k, expiry);
    var bucket := w.buckets[slot];
    CoarserDivides(i, k, time);
    Arith.QuotientTimes(time, Res(k));
    Arith.QuotientUnique(expiry, time / Res(k), Res(k));
    forall m | 0 <= m < |bucket|
      ensures bucket[m].expiry != expiry
    {
      CascadingAt(w, i, time, slot, bucket[m]);
    }
    NoneDue(bucket, expiry);
  }

  lemma BelowUnit(delay: nat, k: nat)
    requires FindWheel(delay) < k < LEVELS
    ensures delay < Res(k)
  {
    FindWheelFits(delay);
    FiningRes(FindWheel(delay) + 1, k);
  }

  lemma {:induction false} SomeDue(timers: seq<Timer>, expiry: nat) returns (t: Timer)
    requires Due(timers, expiry) != []
    ensures t in timers && t.expiry == expiry
  {
    t := timers[0];
    if t.expiry != expiry {
      t := SomeDue(timers[1..], expiry);
    }
  }

  /** No bucket of a cascade changes the line of an expiry that is still to come. */
  lemma BucketKeepsLine(w: Wheels, i: nat, time: nat, done: Wheels, expiry: nat)
    requires Midway(w, i, time) && done == BucketDone(w, i) && time < expiry
    ensures Line(done.buckets, expiry, 0) == Line(w.buckets, expiry, 0)
  {
    forall k | 0 <= k < LEVELS
      ensures Of(done.buckets, expiry, k) ==
              (if k == i && Slot(i, expiry) == Slot(i, time) then [] else Of(w.buckets, expiry, k))
              + (if Slot(i, expiry) == Slot(i, time) then Given(w.buckets[Slot(i, time)], time, expiry, k) else [])
    {
      BucketOf(w, i, time, done, expiry, k);
    }
    var j := FindWheel(expiry - time);
    if Slot(i, expiry) != Slot(i, time) || Of(w.buckets, expiry, i) == [] || i == j {
      LineSame(done.buckets, w.buckets, expiry, 0);
    } else {
      TakeOutCascades(w, i, time);
      var t := SomeDue(w.buckets[Slot(i, time)], expiry);
      assert DueWithin(i, time, t);
      DescendsTo(i, time, expiry - time);
      forall k | j < k < i
        ensures Of(w.buckets, expiry, k) == []
      {
        BelowUnit(expiry - time, k);
        BetweenIsEmpty(w, i, time, expiry, k);
      }
      MovedKeepsLine(w.buckets, done.buckets, expiry, j, i, 0);
    }
  }

  // ---- one cascade ----

  lemma {:induction false} CascadeKeepsLine(w: Wheels, i: nat, time: nat, r: Wheels, expiry: nat)
    requires Midway(w, i, time) && r == WheelTick(w, i) && time < expiry
    ensures Line(r.buckets, expiry, 0) == Line(w.buckets, expiry, 0)
    decreases LEVELS - i
  {
    var done := BucketDone(w, i);
    BucketKeepsLine(w, i, time, done, expiry);
    if Wraps(w.ticks, i) {
      MidwayStep(w, i, time);
      CascadeKeepsLine(done, i + 1, time, WheelTick(done, i + 1), expiry);
    }
  }

  lemma {:induction false} NoneAbove(w: Wheels, i: nat, time: nat, k: nat)
    requires Midway(w, i, time) && !Wraps(w.ticks, i) && i < k <= LEVELS
    ensures Line(w.buckets, time, k) == []
    decreases LEVELS - k
  {
    if k < LEVELS {
      var slot := Slot(k, time);
      var bucket := w.buckets[slot];
      NoTickAbove(w, i, time, k);
      forall m | 0 <= m < |bucket|
        ensures bucket[m].expiry != time
      {
        CascadingAt(w, i, time, slot, bucket[m]);
        PlacedIsLater(time, slot, bucket[m]);
      }
      NoneDue(bucket, time);
      LineUnfold(w.buckets, time, k);
      NoneAbove(w, i, time, k + 1);
    }
  }

  lemma BucketKeepsAbove(w: Wheels, i: nat, time: nat, done: Wheels)
    requires Midway(w, i, time) && done == BucketDone(w, i)
    ensures Line(done.buckets, time, i + 1) == Line(w.buckets, time, i + 1)
  {
    forall k | i + 1 <= k < LEVELS
      ensures Of(done.buckets, time, k) == Of(w.buckets, time, k)
    {
      BucketOf(w, i, time, done, time, k);
    }
    LineSame(done.buckets, w.buckets, time, i + 1);
  }

  /** A cascade calls the line of the present time, from wheel i on, in its order. */
  lemma {:induction false} CascadeCallsLine(w: Wheels, i: nat, time: nat, r: Wheels)
    requires Midway(w, i, time) && r == WheelTick(w, i)
    ensures r.calls == w.calls + CallAll(Line(w.buckets, time, i), time)
    decreases LEVELS - i
  {
    var done, here, above := BucketDone(w, i), Of(w.buckets, time, i), Line(w.buckets, time, i + 1);
    BucketOf(w, i, time, done, time, i);
    LineUnfold(w.buckets, time, i);
    CallsInParts(here, above, time);
    if Wraps(w.ticks, i) {
      MidwayStep(w, i, time);
      CascadeCallsLine(done, i + 1, time, WheelTick(done, i + 1));
      BucketKeepsAbove(w, i, time, done);
      Assoc(w.calls, CallAll(here, time), CallAll(above, time));
    } else {
      NoneAbove(w, i, time, i + 1);
    }
  }

  // ---- the flat list is the line ----

  /** The calls are those of the flat list, one by one, and for every expiry to come
      the list holds its timers in the order of the line. */
  ghost predicate InLine(w: Wheels, f: Flat) {
    && Shaped(w) && w.calls == f.calls
    && forall expiry: nat :: f.now < expiry ==> Due(f.pending, expiry) == Line(w.buckets, expiry, 0)
  }

  lemma {:induction false} NotDueKeeps(pending: seq<Timer>, time: nat, expiry: nat)
    requires time != expiry
    ensures Due(NotDue(pending, time), expiry) == Due(pending, expiry)
  {
    if pending != [] {
      NotDueKeeps(pending[1..], time, expiry);
      DueInParts(if pending[0].expiry == time then [] else [pending[0]], NotDue(pending[1..], time), expiry);
    }
  }

  lemma TickKeepsList(w: Wheels, r: Wheels, f: Flat, time: nat, expiry: nat)
    requires Midway(w, 0, time) && r == WheelTick(w, 0) && InLine(w, f) && f.now + 1 == time < expiry
    ensures Due(NotDue(f.pending, time), expiry) == Line(r.buckets, expiry, 0)
  {
    CascadeKeepsLine(w, 0, time, r, expiry);
    NotDueKeeps(f.pending, time, expiry);
  }

  lemma OneTickInLine(w: Wheels, r: Wheels, f: Flat, g: Flat, time: nat)
    requires Sane(w) && time == Now(w) + 1 < HORIZON && r == Tick(w)
    requires InLine(w, f) && f.now == Now(w) && g == FlatTick(f)
    ensures InLine(r, g)
  {
    TickMidway(w, r, time);
    CascadeCallsLine(w, 0, time, r);
    assert g.now == time && g.pending == NotDue(f.pending, time);
    forall expiry: nat | time < expiry
      ensures Due(g.pending, expiry) == Line(r.buckets, expiry, 0)
    {
      TickKeepsList(w, r, f, time, expiry);
    }
    assert r.calls == g.calls;
  }

  lemma {:induction false} TicksInLine(w: Wheels, f: Flat, count: nat, r: Wheels, g: Flat)
    requires Sane(w) && Now(w) + count < HORIZON && r == Ticks(w, count)
    requires InLine(w, f) && f.now == Now(w) && g == FlatTicks(f, count)
    ensures InLine(r, g)
    decreases count
  {
    if count > 0 {
      var next, flatNext, fewer := Tick(w), FlatTick(f), count - 1;
      OneTickInLine(w, next, f, flatNext, Now(w) + 1);
      OneTickLaw(w, next, 0);
      TicksUnfold(w, count, next, fewer, r);
      FlatUnfold(f, count, flatNext, fewer, g);
      TicksInLine(next, flatNext, fewer, r, g);
    }
  }

  // ---- adding ----

  lemma {:induction false} DueAreMembers(timers: seq<Timer>, expiry: nat, k: nat)
    requires k < |Due(timers, expiry)|
    ensures Due(timers, expiry)[k] in timers && Due(timers, expiry)[k].expiry == expiry
  {
    var first := if timers[0].expiry == expiry then [timers[0]] else [];
    if k >= |first| {
      DueAreMembers(timers[1..], expiry, k - |first|);
    }
  }

  /** The list knows for each timer of the line which wheel holds it. */
  lemma AboveIff(w: Wheels, x: Exact, u: Timer, t: Timer, j: nat, k: nat)
    requires Agrees(w, x) && k < LEVELS && u in w.buckets[Slot(k, t.expiry)] && u.expiry == t.expiry
    ensures Above(x, u, t, j) <==> j < k
  {
    StoredMember(w.buckets, u);
    PlacedHeld(w, x, u);
    var held := HeldIn(u.expiry, x.first[u.id], Now(w));
    OnlyOnePlace(w, Slot(held, u.expiry), Slot(k, t.expiry), u);
    assert held == k;
  }

  lemma PartIsAbove(w: Wheels, x: Exact, t: Timer, j: nat, k: nat, part: seq<Timer>)
    requires Agrees(w, x) && k < LEVELS && part == Of(w.buckets, t.expiry, k)
    ensures forall m :: 0 <= m < |part| ==> (Above(x, part[m], t, j) <==> j < k)
  {
    forall m | 0 <= m < |part|
      ensures Above(x, part[m], t, j) <==> j < k
    {
      DueAreMembers(w.buckets[Slot(k, t.expiry)], t.expiry, m);
      AboveIff(w, x, part[m], t, j, k);
    }
  }

  lemma {:induction false} InsertSkips(x: Exact, a: seq<Timer>, b: seq<Timer>, t: Timer, j: nat)
    requires forall m :: 0 <= m < |a| ==> !Above(x, a[m], t, j)
    ensures Insert(x, a + b, t, j) == a + Insert(x, b, t, j)
    decreases |a|
  {
    if a == [] {
      assert a + b == b;
    } else {
      var rest := a[1..];
      assert (a + b)[0] == a[0] && (a + b)[1..] == rest + b && a == [a[0]] + rest;
      InsertSkips(x, rest, b, t, j);
      Assoc([a[0]], rest, Insert(x, b, t, j));
    }
  }

  lemma {:induction false} InsertBeforeHigher(w: Wheels, x: Exact, t: Timer, j: nat, i: nat, line: seq<Timer>)
    requires Agrees(w, x) && j < i <= LEVELS && line == Line(w.buckets, t.expiry, i)
    ensures Insert(x, line, t, j) == [t] + line
    decreases LEVELS - i
  {
    if i < LEVELS {
      var part := Of(w.buckets, t.expiry, i);
      LineUnfold(w.buckets, t.expiry, i);
      if part == [] {
        InsertBeforeHigher(w, x, t, j, i + 1, line);
      } else {
        PartIsAbove(w, x, t, j, i, part);
        assert line[0] == part[0];
      }
    }
  }

  /** Inserting before the timers of higher wheels is pushing into wheel j. */
  lemma {:induction false} InsertIntoLine(w: Wheels, x: Exact, t: Timer, j: nat, i: nat, pushed: seq<seq<Timer>>)
    requires Agrees(w, x) && i <= j < LEVELS
    requires pushed == w.buckets[Slot(j, t.expiry) := w.buckets[Slot(j, t.expiry)] + [t]]
    ensures Insert(x, Line(w.buckets, t.expiry, i), t, j) == Line(pushed, t.expiry, i)
    decreases j - i
  {
    var part, above := Of(w.buckets, t.expiry, i), Line(w.buckets, t.expiry, i + 1);
    LineUnfold(w.buckets, t.expiry, i);
    LineUnfold(pushed, t.expiry, i);
    PartIsAbove(w, x, t, j, i, part);
    InsertSkips(x, part, above, t, j);
    PushOf(w.buckets, Slot(j, t.expiry), t, t.expiry, i);
    if i == j {
      InsertBeforeHigher(w, x, t, j, i + 1, above);
      PushKeepsOthers(w.buckets, j, t, t.expiry, i + 1, pushed);
      Assoc(part, [t], above);
    } else {
      InsertIntoLine(w, x, t, j, i + 1, pushed);
    }
  }

  lemma PushKeepsOthers(buckets: seq<seq<Timer>>, j: nat, t: Timer, expiry: nat, i: nat, pushed: seq<seq<Timer>>)
    requires |buckets| == BUCKETS && j < LEVELS && i <= LEVELS && (expiry != t.expiry || j < i)
    requires pushed == buckets[Slot(j, t.expiry) := buckets[Slot(j, t.expiry)] + [t]]
    ensures Line(pushed, expiry, i) == Line(buckets, expiry, i)
  {
    forall k | i <= k < LEVELS
      ensures Of(pushed, expiry, k) == Of(buckets, expiry, k)
    {
      PushOf(buckets, Slot(j, t.expiry), t, expiry, k);
    }
    LineSame(pushed, buckets, expiry, i);
  }

  lemma DueHead(u: Timer, rest: seq<Timer>, expiry: nat)
    ensures Due([u] + rest, expiry) == if u.expiry == expiry then [u] + Due(rest, expiry) else Due(rest, expiry)
  {
    assert ([u] + rest)[1..] == rest;
  }

  lemma {:induction false} InsertDue(x: Exact, pending: seq<Timer>, t: Timer, j: nat, expiry: nat)
    ensures Due(Insert(x, pending, t, j), expiry) ==
            if expiry == t.expiry then Insert(x, Due(pending, expiry), t, j) else Due(pending, expiry)
  {
    if pending == [] {
      DueHead(t, [], expiry);
      assert [t] + [] == [t];
    } else {
      var u, rest := pending[0], pending[1..];
      assert pending == [u] + rest;
      DueHead(u, rest, expiry);
      if Above(x, u, t, j) {
        DueHead(t, pending, expiry);
      } else {
        InsertDue(x, rest, t, j, expiry);
        DueHead(u, Insert(x, rest, t, j), expiry);
        HeadOfInsert(x, u, Due(rest, expiry), t, j);
      }
    }
  }

  lemma HeadOfInsert(x: Exact, u: Timer, rest: seq<Timer>, t: Timer, j: nat)
    requires !Above(x, u, t, j)
    ensures Insert(x, [u] + rest, t, j) == [u] + Insert(x, rest, t, j)
  {
    assert ([u] + rest)[1..] == rest;
  }

  lemma PushInLine(w: Wheels, x: Exact, t: Timer, j: nat, pushed: seq<seq<Timer>>, pending: seq<Timer>, expiry: nat)
    requires Agrees(w, x) && InLine(w, x.flat) && j < LEVELS && x.flat.now < expiry
    requires pushed == w.buckets[Slot(j, t.expiry) := w.buckets[Slot(j, t.expiry)] + [t]]
    requires pending == Insert(x, x.flat.pending, t, j)
    ensures Due(pending, expiry) == Line(pushed, expiry, 0)
  {
    InsertDue(x, x.flat.pending, t, j, expiry);
    if expiry == t.expiry {
      InsertIntoLine(w, x, t, j, 0, pushed);
    } else {
      PushKeepsOthers(w.buckets, j, t, expiry, 0, pushed);
    }
  }

  lemma AddPushes(w: Wheels, f: Flat, delay: nat, data: nat, r: Wheels, t: Timer, j: nat)
    requires Shaped(w) && Aligned(w.ticks) && delay > 0 && NoOverflow(w, delay) && r == RuntimeAdd(w, delay, data).0
    requires Now(w) == f.now && w.nextId == f.nextId && t == FlatTimer(f, delay, data) && j == FindWheel(delay)
    ensures r.buckets == w.buckets[Slot(j, t.expiry) := w.buckets[Slot(j, t.expiry)] + [t]] && r.calls == w.calls
  {
    AddIsPush(w, delay, data);
    GranularityIsUnit(delay);
    BaseBounds(Now(w), delay);
  }

  lemma AddInLine(w: Wheels, x: Exact, delay: nat, data: nat, r: Wheels, y: Exact)
    requires Agrees(w, x) && InLine(w, x.flat) && NoOverflow(w, delay)
    requires r == RuntimeAdd(w, delay, data).0 && y == ExactAdd(x, delay, data)
    ensures InLine(r, y.flat)
  {
    if delay == 0 {
      AddNothing(w, data);
    } else {
      var t, j := FlatTimer(x.flat, delay, data), FindWheel(delay);
      AddPushes(w, x.flat, delay, data, r, t, j);
      forall expiry: nat | y.flat.now < expiry
        ensures Due(y.flat.pending, expiry) == Line(r.buckets, expiry, 0)
      {
        PushInLine(w, x, t, j, r.buckets, y.flat.pending, expiry);
      }
    }
  }

  // ---- aborting and firing ----

  lemma {:induction false} WithoutInParts(a: seq<Timer>, b: seq<Timer>, id: nat)
    ensures WithoutId(a + b, id) == WithoutId(a, id) + WithoutId(b, id)
  {
    if a == [] {
      assert a + b == b;
    } else {
      WithoutInParts(a[1..], b, id);
      assert (a + b)[0] == a[0] && (a + b)[1..] == a[1..] + b;
      Assoc(if a[0].id == id then [] else [a[0]], WithoutId(a[1..], id), WithoutId(b, id));
    }
  }

  lemma {:induction false} NobodyWithout(timers: seq<Timer>, id: nat)
    requires forall k :: 0 <= k < |timers| ==> timers[k].id != id
    ensures WithoutId(timers, id) == timers
  {
    if timers != [] {
      NobodyWithout(timers[1..], id);
    }
  }

  lemma MiddleWithout(front: seq<Timer>, t: Timer, back: seq<Timer>)
    requires forall k :: 0 <= k < |front| ==> front[k].id != t.id
    requires forall k :: 0 <= k < |back| ==> back[k].id != t.id
    ensures WithoutId(front + ([t] + back), t.id) == front + back
  {
    var rest := [t] + back;
    WithoutInParts(front, rest, t.id);
    WithoutHead(t, back, rest);
    NobodyWithout(front, t.id);
    NobodyWithout(back, t.id);
  }

  lemma WithoutHead(t: Timer, back: seq<Timer>, rest: seq<Timer>)
    requires rest == [t] + back
    ensures WithoutId(rest, t.id) == WithoutId(back, t.id)
  {
    assert rest[0] == t && rest[1..] == back;
  }

  lemma OneWithout(timers: seq<Timer>, i: nat)
    requires i < |timers| && forall k :: 0 <= k < |timers| && k != i ==> timers[k].id != timers[i].id
    ensures WithoutId(timers, timers[i].id) == Vec.Without(timers, i)
  {
    var front, back := timers[..i], timers[i + 1..];
    assert timers == front + ([timers[i]] + back);
    assert forall k :: 0 <= k < |front| ==> front[k] == timers[k];
    assert forall k :: 0 <= k < |back| ==> back[k] == timers[i + 1 + k];
    MiddleWithout(front, timers[i], back);
  }

  lemma {:induction false} DueWithout(timers: seq<Timer>, id: nat, expiry: nat)
    ensures Due(WithoutId(timers, id), expiry) == WithoutId(Due(timers, expiry), id)
  {
    if timers != [] {
      var t, rest := timers[0], timers[1..];
      DueWithout(rest, id, expiry);
      DueInParts(if t.id == id then [] else [t], WithoutId(rest, id), expiry);
      WithoutInParts(if t.expiry == expiry then [t] else [], Due(rest, expiry), id);
      assert [t][1..] == [];
    }
  }

  lemma {:induction false} LineWithout(a: seq<seq<Timer>>, b: seq<seq<Timer>>, id: nat, expiry: nat, i: nat)
    requires |a| == |b| == BUCKETS && i <= LEVELS
    requires forall slot :: 0 <= slot < BUCKETS ==> b[slot] == WithoutId(a[slot], id)
    ensures Line(b, expiry, i) == WithoutId(Line(a, expiry, i), id)
    decreases LEVELS - i
  {
    if i < LEVELS {
      LineWithout(a, b, id, expiry, i + 1);
      DueWithout(a[Slot(i, expiry)], id, expiry);
      WithoutInParts(Of(a, expiry, i), Line(a, expiry, i + 1), id);
    }
  }

  /** A hit takes the timers with the id out of every bucket, as there is only one. */
  lemma HitEverywhere(w: Wheels, h: Handle, fires: bool, r: Wheels)
    requires Sane(w) && Hits(w, h) && r == RuntimeRemove(w, h, fires)
    ensures forall slot :: 0 <= slot < BUCKETS ==> r.buckets[slot] == WithoutId(w.buckets[slot], h.id)
  {
    var place := LookupSlot(Now(w), h.expiry);
    var bucket := w.buckets[place];
    var i := FirstIndex(bucket, h.id);
    HitIsWithout(w, h, fires);
    forall slot | 0 <= slot < BUCKETS
      ensures r.buckets[slot] == WithoutId(w.buckets[slot], h.id)
    {
      if slot == place {
        forall k | 0 <= k < |bucket| && k != i
          ensures bucket[k].id != h.id
        {
          NoOther(w, place, i, place, k);
        }
        OneWithout(bucket, i);
      } else {
        forall k | 0 <= k < |w.buckets[slot]|
          ensures w.buckets[slot][k].id != h.id
        {
          NoOther(w, place, i, slot, k);
        }
        NobodyWithout(w.buckets[slot], h.id);
      }
    }
  }

  lemma NoOther(w: Wheels, a: nat, i: nat, b: nat, k: nat)
    requires Sane(w) && a < BUCKETS && b < BUCKETS && i < |w.buckets[a]| && k < |w.buckets[b]| && (a != b || i != k)
    ensures w.buckets[a][i].id != w.buckets[b][k].id
  {
    var t, u := w.buckets[a][i], w.buckets[b][k];
    StoredMember(w.buckets, t);
    StoredMember(w.buckets, u);
    if a != b {
      if t == u {
        OnlyOnePlace(w, a, b, t);
      }
    } else {
      OnlyHere(w.buckets, a, a, t);
      TwiceInBucket(w.buckets[a], i, k);
    }
  }

  lemma TwiceInBucket(bucket: seq<Timer>, i: nat, k: nat)
    requires i < |bucket| && k < |bucket| && i != k
    ensures multiset(bucket)[bucket[i]] == 1 ==> bucket[i] != bucket[k]
  {
    var lo, hi := if i < k then i else k, if i < k then k else i;
    assert bucket == bucket[..hi] + bucket[hi..];
    assert bucket[..hi][lo] == bucket[lo] && bucket[hi..][0] == bucket[hi];
  }

  lemma OnlyTimer(timers: seq<Timer>, t: Timer)
    requires multiset(timers) == multiset{t}
    ensures timers == [t]
  {
    assert |multiset(timers)| == 1;
    assert timers[0] in multiset(timers);
  }

  lemma HitCalls(w: Wheels, f: Flat, hit: Timer)
    requires Matches(w, f) && hit in Stored(w.buckets)
    ensures CallAll(WithId(f.pending, hit.id), f.now) == [Handled(f.now, hit)]
  {
    var found := WithId(f.pending, hit.id);
    forall t
      ensures multiset(found)[t] == multiset{hit}[t]
    {
      IdSplits(f.pending, hit.id, t);
    }
    OnlyTimer(found, hit);
    assert [hit][1..] == [];
  }

  lemma HitInLine(w: Wheels, f: Flat, h: Handle, fires: bool, r: Wheels, pending: seq<Timer>, expiry: nat)
    requires Sane(w) && Hits(w, h) && r == RuntimeRemove(w, h, fires) && InLine(w, f)
    requires pending == WithoutId(f.pending, h.id) && f.now < expiry
    ensures Due(pending, expiry) == Line(r.buckets, expiry, 0)
  {
    HitEverywhere(w, h, fires, r);
    LineWithout(w.buckets, r.buckets, h.id, expiry, 0);
    DueWithout(f.pending, h.id, expiry);
  }

  lemma RemoveInLine(w: Wheels, f: Flat, h: Handle, fires: bool, r: Wheels, g: Flat)
    requires Matches(w, f) && InLine(w, f) && r == RuntimeRemove(w, h, fires)
    requires g == if Missed(w, h) == 1 then f else FlatRemove(f, h, fires)
    ensures InLine(r, g)
  {
    if Hits(w, h) {
      HitLaw(w, h, fires, 0);
      HitCalls(w, f, HitTimer(w, h));
      forall expiry: nat | g.now < expiry
        ensures Due(g.pending, expiry) == Line(r.buckets, expiry, 0)
      {
        HitInLine(w, f, h, fires, r, g.pending, expiry);
      }
      assert r.calls == g.calls;
    } else if Now(w) < h.expiry {
      MissLaw(w, h, fires);
    }
  }

  // ---- runs ----

  lemma StepInLine(w: Wheels, x: Exact, op: Op, r: Wheels, y: Exact)
    requires Agrees(w, x) && InLine(w, x.flat) && Regular(w, op) && r == Step(w, op) && y == ExactStep(x, op)
    ensures InLine(r, y.flat)
  {
    match op
    case Add(delay, data) => AddInLine(w, x, delay, data, r, y);
    case Expire(count) => TicksInLine(w, x.flat, count, r, y.flat);
    case Abort(h) =>
      HitsIffFound(w, x, h);
      RemoveInLine(w, x.flat, h, false, r, y.flat);
    case Fire(h) =>
      HitsIffFound(w, x, h);
      RemoveInLine(w, x.flat, h, true, r, y.flat);
  }

  /** The refinement with the order: along every regular run the wheels make the very
      calls of the flat list, one after the other. Timers that expire together are
      called in the order of the list, where a new timer stands behind those of its
      own and lower wheels and before those of higher ones. */
  lemma {:induction false} RunRefinesInOrder(w: Wheels, x: Exact, ops: seq<Op>)
    requires Agrees(w, x) && InLine(w, x.flat) && AllRegular(w, ops)
    ensures AllWithin(w, ops)
    ensures Agrees(Run(w, ops), ExactRun(x, ops))
    ensures InLine(Run(w, ops), ExactRun(x, ops).flat)
    decreases |ops|
  {
    RegularIsWithin(w, ops);
    if ops != [] {
      var r, y := Step(w, ops[0]), ExactStep(x, ops[0]);
      StepAgrees(w, x, ops[0], r, y);
      StepInLine(w, x, ops[0], r, y);
      RunRefinesInOrder(r, y, ops[1..]);
    }
  }

  lemma {:induction false} EmptyLine(buckets: seq<seq<Timer>>, expiry: nat, i: nat)
    requires |buckets| == BUCKETS && i <= LEVELS && forall slot :: 0 <= slot < BUCKETS ==> buckets[slot] == []
    ensures Line(buckets, expiry, i) == []
    decreases LEVELS - i
  {
    if i < LEVELS {
      EmptyLine(buckets, expiry, i + 1);
    }
  }

  /** A freshly set-up runtime is in line with the empty list. */
  lemma InitialInLine()
    ensures InLine(Initial(), Flat(0, 0, [], []))
  {
    forall expiry: nat
      ensures Line(Initial().buckets, expiry, 0) == []
    {
      EmptyLine(Initial().buckets, expiry, 0);
    }
  }
}
