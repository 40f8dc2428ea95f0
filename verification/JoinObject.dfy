/** The join engine as the source runs it: the task array, the intrusive list
    through its elements, and the loops over it. */
module JoinObject {
  import opened Options
  import opened IntrusiveList
  import J = Join

  class JoinTasks {
    const next: array<int>
    const alive: array<bool>
    var head: int
    var tail: int
    var completed: nat
    var picked: seq<nat>
    var parentCalls: nat

    ghost var wakes: seq<nat>
    ghost var polls: seq<nat>
    ghost var cleaned: seq<nat>

    ghost function View(): J.Join
      reads this, next, alive
    {
      J.Join(next[..], alive[..], head, tail, completed, picked, parentCalls, wakes, polls, cleaned)
    }

    ghost predicate Valid()
      reads this, next, alive
    {
      J.Shaped(View())
    }

    constructor (len: nat)
      ensures Valid() && View() == J.Initial(len) && fresh(next) && fresh(alive)
    {
      next := new int[len](k => if k + 1 < len then k + 1 else NIL);
      alive := new bool[len](_ => true);
      head, tail := if len >= 1 then 0 else NIL, len - 1;
      completed, picked, parentCalls := 0, [], 0;
      wakes, polls, cleaned := seq(len, k => k), [], [];
      new;
      assert next[..] == J.Initial(len).next && alive[..] == J.Initial(len).alive;
    }

    /** _join_wake. */
    method Wake(c: nat)
      requires Valid() && c < next.Length
      modifies this, next
      ensures Valid() && View() == J.Wake(old(View()), c)
    {
      next[c] := NIL;
      if tail != NIL {
        next[tail] := c;
      } else {
        head := c;
      }
      tail := c;
      parentCalls := parentCalls + 1;
      wakes := wakes + [c];
    }

    /** The poll of one child, which may call wakers before it answers. */
    method PollChild(c: nat, o: J.Outcome)
      requires Valid() && c < next.Length && InRange(o.wakes, next.Length)
      modifies this, next, alive
      ensures Valid() && View() == J.PollChild(old(View()), c, o)
    {
      polls := polls + [c];
      ghost var goal := J.WakeAll(View(), o.wakes);
      assert o.wakes[0..] == o.wakes;
      var k := 0;
      while k < |o.wakes|
        invariant k <= |o.wakes| && Valid()
        invariant J.WakeAll(View(), o.wakes[k..]) == goal
      {
        FromPosition(o.wakes, k);
        Wake(o.wakes[k]);
        k := k + 1;
      }
      if o.ready {
        picked := picked + [c];
        cleaned := cleaned + [c];
        completed := completed + 1;
        alive[c] := false;
      }
    }

    /** The loop over the detached list, then the report. */
    method Poll(outcomes: seq<J.Outcome>, select: bool, biased: bool, random: nat) returns (result: J.Result)
      requires Valid() && J.AllInRange(outcomes, next.Length)
      requires J.Covers(J.Detached(View()), head, outcomes)
      modifies this, next, alive
      ensures Valid() && View() == J.Poll(old(View()), outcomes)
      ensures result == J.Report(View(), select, biased, random)
    {
      var cursor := head;
      head, tail, parentCalls := NIL, NIL, 0;
      assert View() == J.Detached(old(View()));
      ghost var goal := J.Walk(View(), cursor, outcomes);
      assert outcomes[0..] == outcomes;
      var k := 0;
      while cursor != NIL
        invariant k <= |outcomes| && Valid() && NIL <= cursor < next.Length
        invariant J.Covers(View(), cursor, outcomes[k..])
        invariant J.Walk(View(), cursor, outcomes[k..]) == goal
        decreases |outcomes| - k
      {
        FromPosition(outcomes, k);
        var following := next[cursor];
        PollChild(cursor, outcomes[k]);
        cursor := following;
        k := k + 1;
      }
      if select && picked != [] {
        return J.Ready(Some(picked[if biased then 0 else random % |picked|]));
      }
      return if completed == alive.Length then J.Ready(None) else J.Pending;
    }

    method Cleanup()
      requires Valid() && completed <= alive.Length
      modifies `cleaned
      ensures Valid() && View() == J.Cleanup(old(View()))
    {
      var pending := alive.Length - completed;
      ghost var goal := J.Cleanup(View());
      var i := 0;
      while i < alive.Length && pending > 0
        invariant i <= alive.Length && pending >= 0 && Valid()
        invariant J.CleanupFrom(View(), i, pending) == goal
      {
        if alive[i] {
          cleaned := cleaned + [i];
          pending := pending - 1;
        }
        i := i + 1;
      }
    }
  }
}
