/** The timer half of the runtime as the source runs it: clocks and buckets are
    updated in place, and a tick calls back into the runtime. */
module TimerRuntime {
  import opened Options
  import opened Width
  import W = Wheel
  import WheelRuns
  import WheelClock
  import WheelOps
  import Vec

  class HierarchyWheel {
    const ticks: array<nat>
    const buckets: array<seq<W.Timer>>
    var timerLen: nat
    var armed: bool
    var nextId: nat

    /** The handler calls made so far. */
    ghost var calls: seq<W.Call>

    ghost predicate Valid()
      reads this
    {
      ticks.Length == W.LEVELS && buckets.Length == W.BUCKETS
    }

    ghost function View(): (w: W.Wheels)
      requires Valid()
      reads this, ticks, buckets
      ensures W.Shaped(w)
    {
      W.Wheels(ticks[..], buckets[..], timerLen, armed, nextId, calls)
    }

    constructor ()
      ensures Valid() && fresh(ticks) && fresh(buckets)
      ensures View() == W.Initial()
    {
      ticks := new nat[W.LEVELS](_ => 0);
      buckets := new seq<W.Timer>[W.BUCKETS](_ => []);
      timerLen, armed, nextId, calls := 0, false, 0, [];
      new;
      assert ticks[..] == W.Initial().ticks && buckets[..] == W.Initial().buckets;
    }

    method FindBucket(i: nat, expiry: nat) returns (slot: Option<nat>)
      requires Valid() && i < W.LEVELS
      ensures slot == W.FindBucket(ticks[..], i, expiry)
    {
      var time := ticks[i] * W.Res(i);
      if time >= expiry {
        return None;
      }
      var remainingTicks := (expiry - time) / W.Res(i);
      return Some(W.Start(i) + (ticks[i] + remainingTicks) % W.Size(i));
    }

    method AddFrom(i: nat, t: W.Timer)
      requires Valid() && i < W.LEVELS
      modifies buckets, this`calls
      ensures View() == W.AddFrom(old(View()), i, t)
    {
      var slot := FindBucket(i, t.expiry);
      match slot
      case Some(s) =>
        buckets[s] := buckets[s] + [t];
      case None =>
        calls := calls + [W.Handled(ticks[0], t)];
    }

    method WheelAdd(i: nat, delay: nat, data: nat) returns (h: W.Handle)
      requires Valid() && i < W.LEVELS
      modifies buckets, this`calls, this`nextId
      ensures (View(), h) == W.WheelAdd(old(View()), i, delay, data)
    {
      if delay == 0 {
        calls := calls + [W.Direct(ticks[0], data)];
        return W.Handle(0, 0);
      }
      var t := W.Timer(nextId, (ticks[i] * W.Res(i) + delay) % WORD, data);
      nextId := nextId + 1;
      AddFrom(i, t);
      return W.Handle(t.id, t.expiry);
    }

    method IncreaseTimerLen()
      requires Valid()
      modifies this`timerLen, this`armed
      ensures View() == W.Increased(old(View()))
    {
      var before := timerLen;
      timerLen := (timerLen + 1) % WORD;
      if before == 0 {
        armed := true;
      }
    }

    method DecreaseTimerLen()
      requires Valid()
      modifies this`timerLen, this`armed
      ensures View() == W.Decreased(old(View()))
    {
      var before := timerLen;
      timerLen := if timerLen == 0 then WORD - 1 else timerLen - 1;
      if before == 1 {
        armed := false;
      }
    }

    method RuntimeAdd(delay: nat, data: nat) returns (h: W.Handle)
      requires Valid()
      modifies this, buckets
      ensures (View(), h) == W.RuntimeAdd(old(View()), delay, data)
    {
      h := WheelAdd(W.FindWheel(delay), delay, data);
      if W.HandleValid(h) {
        IncreaseTimerLen();
      }
    }

    /** The precondition is the assertion in the source. */
    method RuntimeAddFrom(t: W.Timer, isRescheduling: bool)
      requires Valid()
      requires isRescheduling ==> ticks[0] * W.Res(0) + W.Res(0) < t.expiry
      modifies this, buckets
      ensures View() == W.RuntimeAddFrom(old(View()), t, isRescheduling)
    {
      var time := ticks[0] * W.Res(0);
      if isRescheduling {
        time := time + W.Res(0);
      }
      if time >= t.expiry {
        calls := calls + [W.Handled(time, t)];
        return;
      }
      if !isRescheduling {
        IncreaseTimerLen();
      }
      AddFrom(W.FindWheel(t.expiry - time), t);
    }

    method RuntimeRemove(h: W.Handle, fires: bool)
      requires Valid()
      modifies this, buckets
      ensures View() == W.RuntimeRemove(old(View()), h, fires)
    {
      var time := ticks[0];
      if time >= h.expiry {
        return;
      }
      WheelRemove(W.FindWheel(h.expiry - time), h, fires);
      DecreaseTimerLen();
    }

    method WheelRemove(i: nat, h: W.Handle, fires: bool)
      requires Valid() && i < W.LEVELS
      modifies buckets, this`calls
      ensures View() == W.WheelRemove(old(View()), i, h, fires)
    {
      var slot := FindBucket(i, h.expiry);
      if slot.Some? {
        RemoveFirst(slot.value, h.id, fires);
      }
    }

    /** taskio_vec_remove_if with the predicate of fire or abort: look for the id, call
        the handler for a fire, shift the rest left, and stop. */
    method RemoveFirst(slot: nat, id: nat, fires: bool)
      requires Valid() && slot < W.BUCKETS
      modifies buckets, this`calls
      ensures buckets[..] == old(buckets[..])[slot := Vec.Removed(old(buckets[slot]), W.SameId(id), 0)]
      ensures var found := W.FirstWith(old(buckets[slot]), id);
              calls == if fires && found.Some? then old(calls) + [W.Handled(ticks[0], found.value)] else old(calls)
    {
      var running := true;
      var i: nat := 0;
      ghost var bucket := buckets[slot];
      WheelOps.RemovedIsWithout(bucket, id, 0);
      while i < |buckets[slot]| && running
        invariant calls == old(calls) || !running
        invariant running ==> buckets[..] == old(buckets[..]) && i <= W.FirstIndex(bucket, id)
        invariant !running ==> i == W.FirstIndex(bucket, id) < |bucket|
        invariant !running ==> buckets[..] == old(buckets[..])[slot := Vec.Without(bucket, i)]
        invariant !running ==> calls == if fires then old(calls) + [W.Handled(ticks[0], bucket[i])] else old(calls)
        decreases |bucket| - i, running
      {
        if buckets[slot][i].id == id {
          if fires {
            calls := calls + [W.Handled(ticks[0], buckets[slot][i])];
          }
          running := false;
          buckets[slot] := Vec.Without(buckets[slot], i);
        } else {
          i := i + 1;
        }
      }
    }

    /** One timer of a bucket that was moved out: call it or hand it back. */
    method TickOne(i: nat, t: W.Timer)
      requires Valid() && W.InStep(ticks[..], i)
      modifies this, buckets
      ensures View() == W.TickOne(old(View()), i, t)
    {
      var time := (ticks[i] + 1) * W.Res(i);
      if time >= t.expiry {
        calls := calls + [W.Handled(time, t)];
        DecreaseTimerLen();
      } else {
        RuntimeAddFrom(t, true);
      }
    }

    /** The loop of taskio_wheel_timer_tick over the bucket that it moved out. */
    method TickBucket(i: nat)
      requires Valid() && W.InStep(ticks[..], i)
      modifies this, buckets
      ensures View() == W.BucketDone(old(View()), i)
    {
      var slot := W.Start(i) + (ticks[i] + 1) % W.Size(i);
      var timers := buckets[slot];
      buckets[slot] := [];
      assert View() == W.TakeOut(old(View()), slot);
      ghost var done := W.BucketDone(old(View()), i);
      var k := 0;
      assert timers[0..] == timers;
      while k < |timers|
        invariant k <= |timers|
        invariant W.TickEach(View(), i, timers[k..]) == done
      {
        FromPosition(timers, k);
        TickOne(i, timers[k]);
        k := k + 1;
      }
    }

    method Advance(i: nat)
      requires Valid() && i < W.LEVELS
      modifies ticks
      ensures View() == old(View()).(ticks := old(View().ticks[i := View().ticks[i] + 1]))
    {
      ticks[i] := ticks[i] + 1;
    }

    /** taskio_wheel_timer_tick, calling itself for the next wheel on a wrap. */
    method WheelTick(i: nat)
      requires Valid() && W.CascadeReady(ticks[..], i)
      modifies this, ticks, buckets
      ensures View() == W.WheelTick(old(View()), i)
      decreases W.LEVELS - i
    {
      var tick := ticks[i] + 1;
      TickBucket(i);
      if tick > 0 && tick % W.Size(i) == 0 {
        WheelTick(i + 1);
      }
      Advance(i);
    }

    /** A timerfd read that reports the given number of expirations. */
    method Expire(expirations: nat)
      requires Valid() && WheelClock.Aligned(ticks[..]) && ticks[0] + expirations < W.HORIZON
      modifies this, ticks, buckets
      ensures View() == WheelRuns.Ticks(old(View()), expirations)
    {
      var left: nat := expirations;
      ghost var goal := WheelRuns.Ticks(View(), expirations);
      while left > 0
        invariant WheelClock.Aligned(ticks[..]) && ticks[0] + left < W.HORIZON
        invariant WheelRuns.Ticks(View(), left) == goal
      {
        WheelRuns.TickStaysAligned(View());
        WheelTick(0);
        left := left - 1;
      }
    }
  }
}
