/** The hierarchical timing wheel on values: one record holds the eight clocks
    and the 543 buckets, one function per operation of src/wheel.c and of the
    timer half of the Linux runtime. */
module Wheel {
  import opened Options
  import opened Width
  import Vec

  const LEVELS: nat := 8
  const BUCKETS: nat := 543
  const YEAR: nat := 31536000000

  /** One tick too far: at this clock the top wheel wraps. */
  const HORIZON: nat := 4 * YEAR

  /** A handler is a function of data only, so data stands for both. */
  datatype Timer = Timer(id: nat, expiry: nat, data: nat)

  datatype Handle = Handle(id: nat, expiry: nat)

  /** One handler invocation and the clock at which it was made. */
  datatype Call = Direct(at: nat, data: nat) | Handled(at: nat, timer: Timer)

  datatype Wheels = Wheels(
    ticks: seq<nat>,
    buckets: seq<seq<Timer>>,
    timerLen: nat,
    armed: bool,
    nextId: nat,
    calls: seq<Call>)

  // ---- the table of _wheel_setup ----

  const RESOLUTIONS: seq<nat> := [1, 10, 100, 1000, 60000, 3600000, 86400000, YEAR]
  const LENGTHS: seq<nat> := [10, 10, 10, 60, 60, 24, 365, 4]
  const STARTS: seq<nat> := [0, 10, 20, 30, 90, 150, 174, 539]

  function Res(i: nat): (r: nat)
    requires i < LEVELS
    ensures r > 0
  {
    RESOLUTIONS[i]
  }

  function Size(i: nat): (n: nat)
    requires i < LEVELS
    ensures n > 0
  {
    LENGTHS[i]
  }

  /** Where the buckets of a wheel begin: after those of the wheels below. */
  function Start(i: nat): (s: nat)
    requires i < LEVELS
    ensures s + Size(i) == if i + 1 < LEVELS then STARTS[i + 1] else BUCKETS
    ensures s + Size(i) <= BUCKETS
  {
    STARTS[i]
  }

  /** The wheel that owns a flat bucket. */
  function WheelOf(slot: nat): (i: nat)
    requires slot < BUCKETS
    ensures i < LEVELS && Start(i) <= slot < Start(i) + Size(i)
  {
    if slot < 10 then 0 else if slot < 20 then 1 else if slot < 30 then 2 else if slot < 90 then 3
    else if slot < 150 then 4 else if slot < 174 then 5 else if slot < 539 then 6 else 7
  }

  predicate Shaped(w: Wheels) {
    |w.ticks| == LEVELS && |w.buckets| == BUCKETS
  }

  function Initial(): (w: Wheels)
    ensures Shaped(w)
  {
    Wheels(seq(LEVELS, _ => 0), seq(BUCKETS, _ => []), 0, false, 0, [])
  }

  function Now(w: Wheels): nat
    requires Shaped(w)
  {
    w.ticks[0]
  }

  // ---- src/wheel.c ----

  /** _find_bucket: none when the wheel's own clock has reached the expiry. */
  function FindBucket(ticks: seq<nat>, i: nat, expiry: nat): (slot: Option<nat>)
    requires |ticks| == LEVELS && i < LEVELS
    ensures slot.Some? ==> Start(i) <= slot.value < Start(i) + Size(i)
  {
    var time := ticks[i] * Res(i);
    if time >= expiry then None
    else
      var remainingTicks := (expiry - time) / Res(i);
      Some(Start(i) + (ticks[i] + remainingTicks) % Size(i))
  }

  function Push(w: Wheels, slot: nat, t: Timer): (r: Wheels)
    requires Shaped(w) && slot < BUCKETS
    ensures Shaped(r)
  {
    w.(buckets := w.buckets[slot := w.buckets[slot] + [t]])
  }

  function AddFrom(w: Wheels, i: nat, t: Timer): (r: Wheels)
    requires Shaped(w) && i < LEVELS
    ensures Shaped(r) && r.ticks == w.ticks
  {
    match FindBucket(w.ticks, i, t.expiry)
    case Some(slot) => Push(w, slot, t)
    case None => w.(calls := w.calls + [Handled(Now(w), t)])
  }

  /** taskio_wheel_timer_add: the expiry is computed in 64-bit arithmetic from
      the wheel's own coarse clock. */
  function WheelAdd(w: Wheels, i: nat, delay: nat, data: nat): (r: (Wheels, Handle))
    requires Shaped(w) && i < LEVELS
    ensures Shaped(r.0) && r.0.ticks == w.ticks
  {
    if delay == 0 then (w.(calls := w.calls + [Direct(Now(w), data)]), Handle(0, 0))
    else
      var t := Timer(w.nextId, (w.ticks[i] * Res(i) + delay) % WORD, data);
      (AddFrom(w.(nextId := w.nextId + 1), i, t), Handle(t.id, t.expiry))
  }

  predicate HandleValid(h: Handle) {
    h.id != 0 || h.expiry != 0
  }

  /** The predicate of taskio_timer_fire and taskio_timer_abort. */
  function SameId(id: nat): (nat, Timer) -> Vec.Answer {
    (_, t: Timer) => if t.id == id then Vec.RemoveAndStop else Vec.Keep
  }

  /** The position of the first timer with the given id, or the length. */
  function FirstIndex(bucket: seq<Timer>, id: nat): (k: nat)
    ensures k <= |bucket|
    ensures k < |bucket| ==> bucket[k].id == id
    ensures forall j :: 0 <= j < k ==> bucket[j].id != id
  {
    if bucket == [] || bucket[0].id == id then 0 else 1 + FirstIndex(bucket[1..], id)
  }

  function FirstWith(bucket: seq<Timer>, id: nat): Option<Timer> {
    var k := FirstIndex(bucket, id);
    if k < |bucket| then Some(bucket[k]) else None
  }

  function WheelRemove(w: Wheels, i: nat, h: Handle, fires: bool): (r: Wheels)
    requires Shaped(w) && i < LEVELS
    ensures Shaped(r) && r.ticks == w.ticks
  {
    match FindBucket(w.ticks, i, h.expiry)
    case None => w
    case Some(slot) =>
      var found := FirstWith(w.buckets[slot], h.id);
      w.(buckets := w.buckets[slot := Vec.Removed(w.buckets[slot], SameId(h.id), 0)],
         calls := if fires && found.Some? then w.calls + [Handled(Now(w), found.value)] else w.calls)
  }

  // ---- src/platform/linux/runtime_ext.c ----

  function FindWheel(delay: nat): (i: nat)
    ensures i < LEVELS
  {
    if delay / YEAR > 0 then 7
    else if delay / 86400000 > 0 then 6
    else if delay / 3600000 > 0 then 5
    else if delay / 60000 > 0 then 4
    else if delay / 1000 > 0 then 3
    else if delay / 100 > 0 then 2
    else if delay / 10 > 0 then 1
    else 0
  }

  /** The counter is a size_t; the timer is armed when it leaves zero. */
  function Increased(w: Wheels): (r: Wheels)
    ensures r.ticks == w.ticks && r.buckets == w.buckets
  {
    w.(timerLen := (w.timerLen + 1) % WORD, armed := w.armed || w.timerLen == 0)
  }

  /** Disarmed when the last timer goes; zero wraps to the largest size_t. */
  function Decreased(w: Wheels): (r: Wheels)
    ensures r.ticks == w.ticks && r.buckets == w.buckets
  {
    w.(timerLen := if w.timerLen == 0 then WORD - 1 else w.timerLen - 1,
       armed := w.armed && w.timerLen != 1)
  }

  function RuntimeAdd(w: Wheels, delay: nat, data: nat): (r: (Wheels, Handle))
    requires Shaped(w)
    ensures Shaped(r.0) && r.0.ticks == w.ticks
  {
    var (added, h) := WheelAdd(w, FindWheel(delay), delay, data);
    (if HandleValid(h) then Increased(added) else added, h)
  }

  /** taskio_runtime_add_timer_from. While wheel 0 is ticking its clock is one
      behind, so a reschedule counts one unit more. The precondition is the
      assertion in the source. */
  function RuntimeAddFrom(w: Wheels, t: Timer, isRescheduling: bool): (r: Wheels)
    requires Shaped(w) && (isRescheduling ==> w.ticks[0] * Res(0) + Res(0) < t.expiry)
    ensures Shaped(r) && r.ticks == w.ticks
  {
    var time := w.ticks[0] * Res(0) + if isRescheduling then Res(0) else 0;
    if time >= t.expiry then w.(calls := w.calls + [Handled(time, t)])
    else AddFrom(if isRescheduling then w else Increased(w), FindWheel(t.expiry - time), t)
  }

  /** Abort (fires == false) and early fire share their lookup. */
  function RuntimeRemove(w: Wheels, h: Handle, fires: bool): (r: Wheels)
    requires Shaped(w)
    ensures Shaped(r) && r.ticks == w.ticks
  {
    if Now(w) >= h.expiry then w
    else Decreased(WheelRemove(w, FindWheel(h.expiry - Now(w)), h, fires))
  }

  // ---- the cascade: taskio_wheel_timer_tick, _wheel_expiry and _wheel_loop ----

  /** Wheel i is about to reach the same instant as wheel 0. */
  predicate InStep(ticks: seq<nat>, i: nat)
    requires |ticks| == LEVELS
  {
    i < LEVELS && (ticks[i] + 1) * Res(i) == ticks[0] * Res(0) + Res(0)
  }

  predicate Wraps(ticks: seq<nat>, i: nat)
    requires |ticks| == LEVELS && i < LEVELS
  {
    (ticks[i] + 1) % Size(i) == 0
  }

  /** Every wheel the cascade reaches exists and is in step. */
  predicate CascadeReady(ticks: seq<nat>, i: nat)
    requires |ticks| == LEVELS
    decreases LEVELS - i
  {
    InStep(ticks, i) && (Wraps(ticks, i) ==> CascadeReady(ticks, i + 1))
  }

  /** The clocks after a tick of wheel i. */
  function Advanced(ticks: seq<nat>, i: nat): (r: seq<nat>)
    requires |ticks| == LEVELS && CascadeReady(ticks, i)
    ensures |r| == LEVELS && forall j :: 0 <= j < i ==> r[j] == ticks[j]
    decreases LEVELS - i
  {
    var upper := if Wraps(ticks, i) then Advanced(ticks, i + 1) else ticks;
    upper[i := upper[i] + 1]
  }

  /** One timer taken out of the bucket that wheel i has just reached. */
  function TickOne(w: Wheels, i: nat, t: Timer): (r: Wheels)
    requires Shaped(w) && InStep(w.ticks, i)
    ensures Shaped(r) && r.ticks == w.ticks
  {
    var time := (w.ticks[i] + 1) * Res(i);
    if time >= t.expiry then Decreased(w.(calls := w.calls + [Handled(time, t)]))
    else RuntimeAddFrom(w, t, true)
  }

  function TickEach(w: Wheels, i: nat, timers: seq<Timer>): (r: Wheels)
    requires Shaped(w) && InStep(w.ticks, i)
    ensures Shaped(r) && r.ticks == w.ticks
    decreases |timers|
  {
    if timers == [] then w else TickEach(TickOne(w, i, timers[0]), i, timers[1..])
  }

  function DueSlot(ticks: seq<nat>, i: nat): (slot: nat)
    requires |ticks| == LEVELS && i < LEVELS
    ensures Start(i) <= slot < Start(i) + Size(i)
  {
    Start(i) + (ticks[i] + 1) % Size(i)
  }

  /** taskio_vec_move: the bucket is empty while its timers are looked at. */
  function TakeOut(w: Wheels, slot: nat): (r: Wheels)
    requires Shaped(w) && slot < BUCKETS
    ensures Shaped(r)
  {
    w.(buckets := w.buckets[slot := []])
  }

  function BucketDone(w: Wheels, i: nat): (e: Wheels)
    requires Shaped(w) && InStep(w.ticks, i)
    ensures Shaped(e) && e.ticks == w.ticks
  {
    var slot := DueSlot(w.ticks, i);
    TickEach(TakeOut(w, slot), i, w.buckets[slot])
  }

  /** The clock of the wheel moves only after the upper wheels have ticked. */
  function WheelTick(w: Wheels, i: nat): (r: Wheels)
    requires Shaped(w) && CascadeReady(w.ticks, i)
    ensures Shaped(r) && r.ticks == Advanced(w.ticks, i)
    decreases LEVELS - i
  {
    var done := BucketDone(w, i);
    var upper := if Wraps(w.ticks, i) then WheelTick(done, i + 1) else done;
    upper.(ticks := upper.ticks[i := upper.ticks[i] + 1])
  }
}
