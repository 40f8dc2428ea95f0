/** The flat list once more, now with what the wheels do wrong: the list knows for
    each timer which wheel took it first, and so which aborts and fires miss. */
module WheelExact {
  import opened Width
  import opened Wheel
  import opened WheelClock
  import opened WheelCascade
  import opened WheelOps
  import opened WheelRuns
  import opened WheelFate
  import opened WheelHeld

  /** first gives the wheel that took each timer, by id. */
  datatype Exact = Exact(flat: Flat, first: map<nat, nat>, misses: nat)

  /** The bucket of a pending timer, from its history. */
  predicate IsAt(x: Exact, t: Timer, slot: nat) {
    && t.id in x.first && x.first[t.id] < LEVELS && x.flat.now < t.expiry
    && Slot(HeldIn(t.expiry, x.first[t.id], x.flat.now), t.expiry) == slot
  }

  /** A pending timer with the id of the handle is where the lookup looks. */
  predicate Found(x: Exact, h: Handle) {
    && x.flat.now < h.expiry
    && exists k :: 0 <= k < |x.flat.pending| && x.flat.pending[k].id == h.id
                && IsAt(x, x.flat.pending[k], LookupSlot(x.flat.now, h.expiry))
  }

  function ExactRemove(x: Exact, h: Handle, fires: bool): Exact {
    if x.flat.now < h.expiry && !Found(x, h) then x.(misses := x.misses + 1)
    else x.(flat := FlatRemove(x.flat, h, fires))
  }

  /** A pending timer that expires together with t and is in a higher wheel than j. */
  predicate Above(x: Exact, u: Timer, t: Timer, j: nat) {
    && u.expiry == t.expiry && u.id in x.first && x.first[u.id] < LEVELS && x.flat.now < u.expiry
    && j < HeldIn(u.expiry, x.first[u.id], x.flat.now)
  }

  /** Lower wheels call first: the new timer goes before those in higher wheels. */
  function Insert(x: Exact, pending: seq<Timer>, t: Timer, j: nat): seq<Timer> {
    if pending == [] then [t]
    else if Above(x, pending[0], t, j) then [t] + pending
    else [pending[0]] + Insert(x, pending[1..], t, j)
  }

  function ExactAdd(x: Exact, delay: nat, data: nat): Exact {
    if delay == 0 then x.(flat := FlatAdd(x.flat, delay, data))
    else
      var t, j := FlatTimer(x.flat, delay, data), FindWheel(delay);
      x.(flat := x.flat.(nextId := x.flat.nextId + 1, pending := Insert(x, x.flat.pending, t, j)),
         first := x.first[x.flat.nextId := j])
  }

  function ExactStep(x: Exact, op: Op): Exact {
    match op
    case Add(delay, data) => ExactAdd(x, delay, data)
    case Expire(count) => x.(flat := FlatTicks(x.flat, count))
    case Abort(h) => ExactRemove(x, h, false)
    case Fire(h) => ExactRemove(x, h, true)
  }

  function ExactRun(x: Exact, ops: seq<Op>): Exact
    decreases |ops|
  {
    if ops == [] then x else ExactRun(ExactStep(x, ops[0]), ops[1..])
  }

  // ---- the relation ----

  predicate HasPlace(w: Wheels, x: Exact, t: Timer)
    requires Shaped(w)
  {
    exists slot: nat :: slot < BUCKETS && IsAt(x, t, slot) && t in w.buckets[slot]
  }

  ghost predicate Placed(w: Wheels, x: Exact)
    requires Shaped(w)
  {
    forall t :: t in Stored(w.buckets) ==> HasPlace(w, x, t)
  }

  ghost predicate Agrees(w: Wheels, x: Exact) {
    Matches(w, x.flat) && Counts(w, 0, x.misses) && Placed(w, x)
  }

  lemma PlacedHeld(w: Wheels, x: Exact, t: Timer)
    requires Shaped(w) && Placed(w, x) && t in Stored(w.buckets) && Now(w) == x.flat.now
    ensures t.id in x.first && x.first[t.id] < LEVELS && Now(w) < t.expiry
    ensures HeldBy(w, HeldIn(t.expiry, x.first[t.id], Now(w)), t)
  {
    assert HasPlace(w, x, t);
  }

  lemma OnlyOnePlace(w: Wheels, a: nat, b: nat, t: Timer)
    requires Sane(w) && a < BUCKETS && b < BUCKETS && t in w.buckets[a] && t in w.buckets[b]
    ensures a == b
  {
    StoredMember(w.buckets, t);
    if a != b {
      HeldOnce(w.buckets, a, b, t);
    }
  }

  lemma HitIsFound(w: Wheels, x: Exact, h: Handle)
    requires Matches(w, x.flat) && Placed(w, x) && Hits(w, h)
    ensures Found(x, h)
  {
    var slot, pending := LookupSlot(Now(w), h.expiry), x.flat.pending;
    var t := FirstWith(w.buckets[slot], h.id).value;
    StoredMember(w.buckets, t);
    assert HasPlace(w, x, t);
    var place: nat :| IsAt(x, t, place) && place < BUCKETS && t in w.buckets[place];
    OnlyOnePlace(w, place, slot, t);
    assert t in multiset(pending);
    var k :| 0 <= k < |pending| && pending[k] == t;
    assert IsAt(x, pending[k], slot);
  }

  lemma FoundIsHit(w: Wheels, x: Exact, h: Handle)
    requires Matches(w, x.flat) && Placed(w, x) && Found(x, h)
    ensures Hits(w, h)
  {
    var slot, pending := LookupSlot(Now(w), h.expiry), x.flat.pending;
    var k :| 0 <= k < |pending| && pending[k].id == h.id && IsAt(x, pending[k], slot);
    assert pending[k] in multiset(pending);
    PlacedHeld(w, x, pending[k]);
  }

  /** The list knows exactly which lookups hit. */
  lemma HitsIffFound(w: Wheels, x: Exact, h: Handle)
    requires Matches(w, x.flat) && Placed(w, x)
    ensures Hits(w, h) <==> Found(x, h)
  {
    if Hits(w, h) {
      HitIsFound(w, x, h);
    } else if Found(x, h) {
      FoundIsHit(w, x, h);
    }
  }

  // ---- steps ----

  /** A timer that is stored before and after keeps its history. */
  lemma KeptIsAt(w: Wheels, x: Exact, op: Op, r: Wheels, y: Exact, t: Timer)
    requires Agrees(w, x) && Regular(w, op) && r == Step(w, op) && y == ExactStep(x, op)
    requires Sane(r) && Now(w) <= Now(r) == y.flat.now < t.expiry
    requires t in Stored(w.buckets) && t in Stored(r.buckets)
    ensures HasPlace(r, y, t)
  {
    PlacedHeld(w, x, t);
    var first := x.first[t.id];
    var i := HeldIn(t.expiry, first, Now(w));
    var j := HeldIn(t.expiry, i, Now(r));
    HeldCompose(t.expiry, first, Now(w), Now(r));
    StaysHeld(w, op, r, i, t, j);
    assert first == y.first[t.id] && IsAt(y, t, Slot(j, t.expiry));
  }

  lemma StaysHeld(w: Wheels, op: Op, r: Wheels, i: nat, t: Timer, j: nat)
    requires Sane(w) && Regular(w, op) && r == Step(w, op)
    requires Sane(r) && Now(w) <= Now(r) < t.expiry && t in Stored(w.buckets) && t in Stored(r.buckets)
    requires i < LEVELS && HeldBy(w, i, t) && j == HeldIn(t.expiry, i, Now(r))
    ensures HeldBy(r, j, t)
  {
    if Names(op, t.id) {
      HeldNow(w, i, t);
      NamedHolds(w, op.handle, op.Fire?, r, i, t);
    } else {
      StepHolds(w, op, r, i, t, j);
    }
  }

  lemma NamedHolds(w: Wheels, h: Handle, fires: bool, r: Wheels, i: nat, t: Timer)
    requires Sane(w) && r == RuntimeRemove(w, h, fires) && t.id == h.id && t in Stored(r.buckets)
    requires i < LEVELS && HeldBy(w, i, t) && t in Stored(w.buckets)
    ensures HeldBy(r, i, t)
  {
    if Hits(w, h) {
      HitTakesIt(w, h, fires, r, t);
    } else if Now(w) < h.expiry {
      MissLaw(w, h, fires);
    }
  }

  /** A hit leaves no timer with the id behind. */
  lemma HitTakesIt(w: Wheels, h: Handle, fires: bool, r: Wheels, t: Timer)
    requires Sane(w) && r == RuntimeRemove(w, h, fires) && Hits(w, h)
    requires t.id == h.id && t in Stored(w.buckets)
    ensures t !in Stored(r.buckets)
  {
    HitLaw(w, h, fires, 0);
    var hit := HitTimer(w, h);
    assert Stored(w.buckets)[t] == (Stored(r.buckets) + multiset{hit})[t];
    assert hit in Stored(w.buckets);
  }

  /** What is stored after a step was stored before, or has just been added. */
  lemma StoredBefore(w: Wheels, op: Op, r: Wheels, t: Timer)
    requires Sane(w) && Regular(w, op) && r == Step(w, op) && t in Stored(r.buckets)
    ensures Sane(r) && Now(w) <= Now(r) < t.expiry
    ensures t in Stored(w.buckets) || (op.Add? && op.delay > 0 && t == NewTimer(w, op.delay, op.data))
  {
    StepOnTime(w, op);
    RestingIsLater(r, Now(r), t);
    match op
    case Add(delay, data) =>
      if delay == 0 {
        AddNothing(w, data);
      } else {
        AddLaw(w, delay, data, 0);
      }
    case Expire(count) => TicksPass(w, count, r, t);
    case Abort(h) => RemovedWasStored(w, h, false, r, t);
    case Fire(h) => RemovedWasStored(w, h, true, r, t);
  }

  lemma RemovedWasStored(w: Wheels, h: Handle, fires: bool, r: Wheels, t: Timer)
    requires Settled(w) && r == RuntimeRemove(w, h, fires) && t in Stored(r.buckets)
    ensures t in Stored(w.buckets)
  {
    if Hits(w, h) {
      HitLaw(w, h, fires, 0);
    } else if Now(w) < h.expiry {
      MissLaw(w, h, fires);
    }
  }

  lemma AddedIsAt(w: Wheels, x: Exact, delay: nat, data: nat, r: Wheels, y: Exact)
    requires Agrees(w, x) && delay > 0 && NoOverflow(w, delay) && |Stored(w.buckets)| + 1 < WORD
    requires r == RuntimeAdd(w, delay, data).0 && y == ExactStep(x, Add(delay, data))
    ensures HasPlace(r, y, NewTimer(w, delay, data))
  {
    var t := NewTimer(w, delay, data);
    AddLaw(w, delay, data, 0);
    AddIsPush(w, delay, data);
    HeldNow(r, FindWheel(delay), t);
    assert IsAt(y, t, Slot(FindWheel(delay), t.expiry));
  }

  lemma StepPlaces(w: Wheels, x: Exact, op: Op, r: Wheels, y: Exact)
    requires Agrees(w, x) && Regular(w, op) && r == Step(w, op) && y == ExactStep(x, op)
    requires Matches(r, y.flat)
    ensures Placed(r, y)
  {
    forall t | t in Stored(r.buckets)
      ensures HasPlace(r, y, t)
    {
      StepPlacesOne(w, x, op, r, y, t);
    }
  }

  lemma StepPlacesOne(w: Wheels, x: Exact, op: Op, r: Wheels, y: Exact, t: Timer)
    requires Agrees(w, x) && Regular(w, op) && r == Step(w, op) && y == ExactStep(x, op)
    requires Matches(r, y.flat) && t in Stored(r.buckets)
    ensures HasPlace(r, y, t)
  {
    StoredBefore(w, op, r, t);
    if t in Stored(w.buckets) {
      KeptIsAt(w, x, op, r, y, t);
    } else {
      AddedIsAt(w, x, op.delay, op.data, r, y);
    }
  }

  lemma {:induction false} InsertAdds(x: Exact, pending: seq<Timer>, t: Timer, j: nat)
    ensures multiset(Insert(x, pending, t, j)) == multiset(pending) + multiset{t}
  {
    if pending != [] {
      InsertAdds(x, pending[1..], t, j);
      assert pending == [pending[0]] + pending[1..];
    }
  }

  lemma ExactAddMatches(w: Wheels, x: Exact, delay: nat, data: nat, r: Wheels, y: Exact)
    requires Matches(w, x.flat) && NoOverflow(w, delay) && |Stored(w.buckets)| + 1 < WORD
    requires r == RuntimeAdd(w, delay, data).0 && y == ExactAdd(x, delay, data)
    ensures Matches(r, y.flat) && y.misses == x.misses
  {
    AnyAddMatches(w, x.flat, delay, data);
    if delay > 0 {
      InsertAdds(x, x.flat.pending, FlatTimer(x.flat, delay, data), FindWheel(delay));
    }
  }

  lemma StepMatches(w: Wheels, x: Exact, op: Op, r: Wheels, y: Exact)
    requires Agrees(w, x) && Regular(w, op) && r == Step(w, op) && y == ExactStep(x, op)
    ensures Matches(r, y.flat) && y.misses == x.misses + MissesOf(w, op)
  {
    match op
    case Add(delay, data) => ExactAddMatches(w, x, delay, data, r, y);
    case Expire(count) => TicksMatch(w, x.flat, count, r, y.flat);
    case Abort(h) =>
      HitsIffFound(w, x, h);
      RemoveMatches(w, x.flat, h, false, r, y.flat);
    case Fire(h) =>
      HitsIffFound(w, x, h);
      RemoveMatches(w, x.flat, h, true, r, y.flat);
  }

  lemma StepAgrees(w: Wheels, x: Exact, op: Op, r: Wheels, y: Exact)
    requires Agrees(w, x) && Regular(w, op) && r == Step(w, op) && y == ExactStep(x, op)
    ensures Agrees(r, y)
  {
    StepMatches(w, x, op, r, y);
    StepCounts(w, op, r, x.misses, y.misses);
    StepPlaces(w, x, op, r, y);
  }

  /** The exact refinement: along every regular run, whatever its aborts and fires
      hit or miss, the eight wheels hold the timers and have made the calls of the
      flat list that knows each timer's first wheel; the count is the number of
      pending timers less the misses, and the timerfd is armed exactly while the
      misses are fewer. */
  lemma {:induction false} RunRefinesExact(w: Wheels, x: Exact, ops: seq<Op>)
    requires Agrees(w, x) && AllRegular(w, ops)
    ensures AllWithin(w, ops)
    ensures Agrees(Run(w, ops), ExactRun(x, ops))
    decreases |ops|
  {
    RegularIsWithin(w, ops);
    if ops != [] {
      var r, y := Step(w, ops[0]), ExactStep(x, ops[0]);
      StepAgrees(w, x, ops[0], r, y);
      RunRefinesExact(r, y, ops[1..]);
    }
  }

  /** A freshly set-up runtime agrees with the empty list. */
  lemma InitialAgrees()
    ensures Agrees(Initial(), Exact(Flat(0, 0, [], []), map[], 0))
  {
    InitialSimulates();
  }
}
