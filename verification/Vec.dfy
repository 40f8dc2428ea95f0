/** The growable array of src/collections/vec.h. */
module Vec {
  import opened Width

  /** The four answers of a removal predicate. */
  datatype Answer = Remove | Keep | RemoveAndStop | KeepAndStop {
    predicate Removes() { Remove? || RemoveAndStop? }
    predicate Stops() { RemoveAndStop? || KeepAndStop? }
  }

  /** Ordered removal on values. The predicate may depend on how often it was
      asked before, so every sequence of answers is covered. */
  function Removed<T>(s: seq<T>, p: (nat, T) -> Answer, asked: nat): seq<T>
    decreases |s|
  {
    if s == [] then []
    else
      match p(asked, s[0])
      case Remove => Removed(s[1..], p, asked + 1)
      case Keep => [s[0]] + Removed(s[1..], p, asked + 1)
      case RemoveAndStop => s[1..]
      case KeepAndStop => s
  }

  /** The elements whose flag is set, in order. */
  function Picked<T>(s: seq<T>, flags: seq<bool>): seq<T>
    requires |flags| == |s|
    decreases |s|
  {
    if s == [] then []
    else (if flags[0] then [s[0]] else []) + Picked(s[1..], flags[1..])
  }

  /** Element j stays unless the predicate was still running and answered to
      remove it. */
  predicate Survives<T>(s: seq<T>, p: (nat, T) -> Answer, asked: nat, j: nat)
    requires j < |s|
  {
    (exists i :: 0 <= i < j && p(asked + i, s[i]).Stops()) || !p(asked + j, s[j]).Removes()
  }

  lemma PickedAll<T>(s: seq<T>, flags: seq<bool>)
    requires |flags| == |s| && forall j :: 0 <= j < |s| ==> flags[j]
    ensures Picked(s, flags) == s
  {
  }

  /** Removal keeps exactly the surviving positions and their order. */
  lemma {:induction false} RemovedKeepsSurvivors<T>(s: seq<T>, p: (nat, T) -> Answer, asked: nat, flags: seq<bool>)
    requires |flags| == |s|
    requires forall j :: 0 <= j < |s| ==> flags[j] == Survives(s, p, asked, j)
    ensures Removed(s, p, asked) == Picked(s, flags)
    decreases |s|
  {
    if s != [] {
      var tail := s[1..];
      if p(asked, s[0]).Stops() {
        forall j | 0 <= j < |tail|
          ensures flags[1..][j]
        {
          assert Survives(s, p, asked, j + 1);
        }
        PickedAll(tail, flags[1..]);
        assert [s[0]] + tail == s;
      } else {
        forall j | 0 <= j < |tail|
          ensures flags[1..][j] == Survives(tail, p, asked + 1, j)
        {
          assert flags[1..][j] == Survives(s, p, asked, j + 1);
          if Survives(s, p, asked, j + 1) && p(asked + 1 + j, tail[j]).Removes() {
            var i :| 0 <= i < j + 1 && p(asked + i, s[i]).Stops();
            assert tail[i - 1] == s[i];
            assert p(asked + 1 + (i - 1), tail[i - 1]).Stops();
          }
          if Survives(tail, p, asked + 1, j) && p(asked + 1 + j, tail[j]).Removes() {
            var i :| 0 <= i < j && p(asked + 1 + i, tail[i]).Stops();
            assert tail[i] == s[i + 1];
            assert p(asked + (i + 1), s[i + 1]).Stops();
          }
        }
        RemovedKeepsSurvivors(tail, p, asked + 1, flags[1..]);
      }
    }
  }

  /** size_t arithmetic: both directions wrap. */
  function Decremented(i: nat): nat
    requires i < WORD
  {
    if i == 0 then WORD - 1 else i - 1
  }

  function Incremented(i: nat): nat
    requires i < WORD
  {
    if i + 1 == WORD then 0 else i + 1
  }

  function Without<T>(s: seq<T>, i: nat): seq<T>
    requires i < |s|
  {
    s[..i] + s[i + 1..]
  }

  /** The outcome when the first i elements are already decided. */
  function RemovedFrom<T>(s: seq<T>, i: nat, p: (nat, T) -> Answer, asked: nat): seq<T>
    requires i <= |s|
  {
    s[..i] + Removed(s[i..], p, asked)
  }

  /** Deciding element i leaves the outcome of the whole removal unchanged. */
  lemma RemovalStep<T>(s: seq<T>, i: nat, p: (nat, T) -> Answer, asked: nat)
    requires i < |s|
    ensures var answer := p(asked, s[i]);
            var next := if answer.Removes() then Without(s, i) else s;
            RemovedFrom(s, i, p, asked) ==
            if answer.Stops() then next
            else RemovedFrom(next, if answer.Removes() then i else i + 1, p, asked + 1)
  {
  }

  class Vec<T(0)> {
    var len: nat
    var capacity: nat
    var data: array?<T>

    ghost predicate Valid()
      reads this, data
    {
      && len <= capacity < WORD
      && (data == null <==> capacity == 0)
      && (data != null ==> data.Length == capacity)
    }

    ghost function Contents(): seq<T>
      requires Valid()
      reads this, data
    {
      if data == null then [] else data[..len]
    }

    constructor ()
      ensures Valid() && Contents() == [] && data == null
    {
      len, capacity, data := 0, 0, null;
    }

    /** Appends, doubling a full array; a first push allocates 16 places. */
    method PushLast(x: T)
      requires Valid()
      requires len < capacity || 2 * capacity + 16 < WORD
      modifies this, data
      ensures Valid() && Contents() == old(Contents()) + [x]
      ensures capacity == if old(len < capacity) then old(capacity)
                          else if old(capacity) > 0 then old(capacity) * 2 else 16
      ensures data == old(data) || fresh(data)
    {
      if len >= capacity {
        var newCapacity := if capacity > 0 then capacity * 2 else 16;
        var newData := new T[newCapacity];
        if data != null {
          forall k | 0 <= k < capacity {
            newData[k] := data[k];
          }
        }
        assert newData[..len] == Contents();
        capacity := newCapacity;
        data := newData;
      }
      data[len] := x;
      len := len + 1;
    }

    /** The source gives up its storage, so nothing is shared afterwards. */
    method MoveFrom(src: Vec<T>)
      requires src.Valid() && src != this
      modifies this, src
      ensures Valid() && Contents() == old(src.Contents()) && data == old(src.data)
      ensures src.Valid() && src.Contents() == [] && src.data == null
    {
      len, capacity, data := src.len, src.capacity, src.data;
      src.len, src.capacity, src.data := 0, 0, null;
    }

    /** The memmove of taskio_vec_remove_if: the tail shifts left by one. */
    method RemoveAt(i: nat)
      requires Valid() && i < len
      modifies this, data
      ensures Valid() && data == old(data) && capacity == old(capacity)
      ensures Contents() == Without(old(Contents()), i)
    {
      var moveLen := len - i - 1;
      if moveLen > 0 {
        forall k | i <= k < i + moveLen {
          data[k] := data[k + 1];
        }
      }
      len := len - 1;
    }

    /** The loop of taskio_vec_remove_if: after a removal the unsigned index
        steps back, below zero when the first element goes. */
    method RemoveIf(p: (nat, T) -> Answer)
      requires Valid()
      modifies this, data
      ensures Valid() && data == old(data) && capacity == old(capacity)
      ensures Contents() == Removed(old(Contents()), p, 0)
    {
      var running := true;
      var i := 0;
      var asked := 0;
      ghost var goal := Removed(Contents(), p, 0);
      assert Contents()[0..] == Contents();
      while i < len && running
        invariant Valid() && data == old(data) && capacity == old(capacity)
        invariant 0 <= i <= len == |Contents()|
        invariant goal == if running then RemovedFrom(Contents(), i, p, asked) else Contents()
        decreases len - i, running
      {
        var answer := p(asked, data[i]);
        RemovalStep(Contents(), i, p, asked);
        if answer.Stops() {
          running := false;
        }
        if answer.Removes() {
          RemoveAt(i);
          i := Decremented(i);
        }
        i := Incremented(i);
        asked := asked + 1;
      }
    }
  }
}
