/** The semaphore as the source stores it: a record with an intrusive queue of
    waiter nodes, updated in place. The record also keeps its history, written down
    where a permit is given, a waker called, and a node freed. */
module SemaphoreObject {
  import opened Width
  import S = Semaphore

  /** The id stands for the address of the node. */
  class WaiterNode {
    ghost const id: nat
    var word: bv64
    var next: WaiterNode?

    constructor (ghost id: nat, word: bv64)
      ensures this.id == id && this.word == word && next == null
    {
      this.id, this.word := id, word;
      next := null;
    }

    /** _node_drop; the caller gives the memory back when told so. */
    method Drop(willWake: bool) returns (frees: bool)
      modifies this`word
      ensures (word, frees) == S.NodeDrop(old(word), willWake)
    {
      var counterWithFlags := word;
      word := word - 1;
      var count := counterWithFlags & S.MASK;
      var isTimed := counterWithFlags & S.TIMED != 0;
      frees := count == 1 || !(willWake || isTimed);
    }
  }

  // The nodes made so far are listed by node id. Words and links are separate
  // heap predicates, since an operation on one leaves the other alone.

  ghost predicate Numbered(made: seq<WaiterNode>) {
    forall k :: 0 <= k < |made| ==> made[k].id == k
  }

  /** Each allocated node carries its word. */
  ghost predicate Words(made: seq<WaiterNode>, nodes: map<nat, bv64>)
    reads made`word
  {
    forall n :: n in nodes ==> n < |made| && made[n].word == nodes[n]
  }

  ghost predicate Known(made: seq<WaiterNode>, queue: seq<nat>) {
    forall k :: 0 <= k < |queue| ==> queue[k] < |made|
  }

  function NodeAt(made: seq<WaiterNode>, queue: seq<nat>, k: nat): WaiterNode?
    requires Known(made, queue)
  {
    if k < |queue| then made[queue[k]] else null
  }

  /** The chain from first to last through next visits the queue in order. */
  ghost predicate Linked(made: seq<WaiterNode>, first: WaiterNode?, last: WaiterNode?, queue: seq<nat>)
    requires Known(made, queue)
    reads made`next
  {
    && first == NodeAt(made, queue, 0)
    && last == (if queue == [] then null else NodeAt(made, queue, |queue| - 1))
    && forall k :: 0 <= k < |queue| ==> made[queue[k]].next == NodeAt(made, queue, k + 1)
  }

  lemma LinkedTail(made: seq<WaiterNode>, first: WaiterNode, last: WaiterNode?, queue: seq<nat>)
    requires Known(made, queue) && Linked(made, first, last, queue)
    ensures queue != [] && Known(made, queue[1..])
    ensures Linked(made, first.next, if first.next == null then null else last, queue[1..])
  {
    var rest := queue[1..];
    assert made[queue[0]].next == NodeAt(made, queue, 1);
    forall k | 0 <= k < |rest|
      ensures made[rest[k]].next == NodeAt(made, rest, k + 1)
    {
      assert rest[k] == queue[k + 1];
      assert made[queue[k + 1]].next == NodeAt(made, queue, k + 2);
    }
  }

  /** The chain once the old last node points to a new node. */
  lemma LinkedLonger(made: seq<WaiterNode>, node: WaiterNode, first: WaiterNode?, queue: seq<nat>)
    requires Known(made, queue) && queue != [] && first == NodeAt(made, queue, 0)
    requires NodeAt(made, queue, |queue| - 1).next == node && node.next == null
    requires forall k :: 0 <= k < |queue| - 1 ==> made[queue[k]].next == NodeAt(made, queue, k + 1)
    ensures Known(made + [node], queue + [|made|])
    ensures Linked(made + [node], first, node, queue + [|made|])
  {
    var all, longer := made + [node], queue + [|made|];
    assert all[|made|] == node;
    forall k | 0 <= k < |longer|
      ensures all[longer[k]].next == NodeAt(all, longer, k + 1)
    {
      if k < |queue| - 1 {
        assert made[queue[k]].next == NodeAt(made, queue, k + 1);
      }
    }
  }

  /** A new node changes nothing about the older ones. */
  lemma OneMore(made: seq<WaiterNode>, node: WaiterNode, nodes: map<nat, bv64>)
    requires Numbered(made) && node.id == |made| && Words(made, nodes)
    ensures Numbered(made + [node]) && Words(made + [node], nodes[|made| := node.word])
  {
    assert (made + [node])[|made|] == node;
  }

  /** The word map after one owner of node n has let go. */
  function NodesAfter(nodes: map<nat, bv64>, n: nat, willWake: bool): map<nat, bv64>
    requires n in nodes
  {
    var (word, frees) := S.NodeDrop(nodes[n], willWake);
    if frees then nodes - {n} else nodes[n := word]
  }

  function FreedBy(nodes: map<nat, bv64>, n: nat, willWake: bool): seq<nat>
    requires n in nodes
  {
    if S.NodeDrop(nodes[n], willWake).1 then [n] else []
  }

  /** The queue, nodes and frees of state t are those of s without the head. */
  ghost predicate HeadGone(s: S.Sem, t: S.Sem, willWake: bool) {
    && s.queue != [] && s.queue[0] in s.nodes
    && t.nextNode == s.nextNode && t.queue == s.queue[1..]
    && t.nodes == NodesAfter(s.nodes, s.queue[0], willWake)
    && t.freed == s.freed + FreedBy(s.nodes, s.queue[0], willWake)
  }

  ghost predicate SameNodes(s: S.Sem, t: S.Sem) {
    t.queue == s.queue && t.nodes == s.nodes && t.nextNode == s.nextNode && t.freed == s.freed
  }

  /** What the semaphore holds besides its nodes, and its history. */
  datatype Record = Record(
    counter: nat,
    priority: nat,
    blocking: nat,
    awake: nat,
    signals: nat,
    immediate: nat,
    handoffs: nat,
    unheard: nat,
    enqueued: seq<nat>,
    granted: seq<nat>)

  function RecordOf(s: S.Sem): Record {
    Record(s.counter, s.priority, s.blocking, s.awake, s.signals, s.immediate, s.handoffs, s.unheard, s.enqueued,
           s.granted)
  }

  /** What a signal does to the record. */
  ghost predicate SignalStored(s: S.Sem, t: S.Sem) {
    && t.priority == (if s.queue != [] && s.blocking > 0 then (s.priority + 1) % WORD else s.priority)
    && t.blocking == s.blocking && t.signals == s.signals && t.immediate == s.immediate && t.enqueued == s.enqueued
    && t.counter == (if s.queue == [] && s.blocking == 0 then s.counter + 1 else s.counter)
    && (if S.AsyncTurn(s) then HeadGone(s, t, true) && t.granted == s.granted + [s.queue[0]]
        else SameNodes(s, t) && t.granted == s.granted)
    && var threads := !S.AsyncTurn(s) && s.blocking > 0;
    && t.awake == (if threads && s.awake < s.blocking then s.awake + 1 else s.awake)
    && t.handoffs == (if threads && s.awake < s.blocking then s.handoffs + 1 else s.handoffs)
    && t.unheard == (if threads && s.awake >= s.blocking then s.unheard + 1 else s.unheard)
  }

  lemma AsyncStored(s: S.Sem)
    requires s.queue != [] && s.queue[0] in s.nodes
    ensures var t := S.SignalAsync(s);
            && HeadGone(s, t, true) && t.granted == s.granted + [s.queue[0]]
            && t == s.(nodes := t.nodes, freed := t.freed, queue := t.queue, granted := t.granted,
                       inFlight := t.inFlight, lost := t.lost)
  {
  }

  lemma SignalStores(s: S.Sem, t: S.Sem)
    requires S.QueueAllocated(s) && t == S.SignalStep(s)
    ensures SignalStored(s, t)
  {
    if S.AsyncTurn(s) {
      AsyncStored(S.SignalTurn(s));
    }
  }

  lemma EnteredStores(s: S.Sem, byHolder: bool, entered: S.Sem, t: S.Sem)
    requires S.Allowed(s, S.Signal(byHolder))
    requires entered == S.Signalled(s, byHolder) && t == S.Step(s, S.Signal(byHolder))
    ensures SameNodes(s, entered) && RecordOf(entered) == RecordOf(s).(signals := s.signals + 1)
    ensures SignalStored(entered, t)
  {
    SignalStores(entered, t);
  }

  lemma DropTakesHead(s: S.Sem, t: S.Sem)
    requires S.QueueAllocated(s) && s.queue != []
    requires t == S.Release(s.(queue := s.queue[1..]), s.queue[0], false)
    ensures HeadGone(s, t, false) && S.QueueAllocated(t) && S.DropQueue(s) == S.DropQueue(t)
  {
  }

  lemma CleanupStores(s: S.Sem, n: nat, t: S.Sem)
    requires n in s.nodes && t == S.CleanupStep(s, n)
    ensures t.nodes == NodesAfter(s.nodes, n, true) && t.freed == s.freed + FreedBy(s.nodes, n, true)
    ensures t.queue == s.queue && t.nextNode == s.nextNode && RecordOf(t) == RecordOf(s)
  {
  }

  lemma WaitStores(s: S.Sem, timed: bool, t: S.Sem)
    requires s.counter == 0 && t == S.WaitStep(s, timed, true)
    ensures t.nextNode == s.nextNode + 1 && t.queue == s.queue + [s.nextNode] && t.freed == s.freed
    ensures t.nodes == s.nodes[s.nextNode := S.NewWord(timed)]
    ensures RecordOf(t) == RecordOf(s).(enqueued := s.enqueued + [s.nextNode])
  {
  }

  class TaskioSemaphore {
    var counter: nat
    var priority: nat
    var blocking: nat
    var head: WaiterNode?
    var tail: WaiterNode?

    /** The condition variable: threads that it has woken and that have not run. */
    var awake: nat

    ghost var made: seq<WaiterNode>

    // history
    ghost var signals: nat
    ghost var immediate: nat
    ghost var handoffs: nat
    ghost var unheard: nat
    ghost var enqueued: seq<nat>
    ghost var granted: seq<nat>
    ghost var freed: seq<nat>

    /** The nodes made, those queued, the words of those allocated, those freed. */
    ghost predicate Holds(count: nat, queue: seq<nat>, nodes: map<nat, bv64>, gone: seq<nat>)
      reads `head, `tail, `made, `freed, made
    {
      && |made| == count && Numbered(made) && Known(made, queue)
      && Words(made, nodes) && Linked(made, head, tail, queue) && freed == gone
    }

    ghost predicate Nodes(s: S.Sem)
      reads `head, `tail, `made, `freed, made
    {
      Holds(s.nextNode, s.queue, s.nodes, s.freed)
    }

    /** The plain fields and the history. */
    ghost function View(): Record
      reads `counter, `priority, `blocking, `awake, `signals, `immediate, `handoffs, `unheard, `enqueued, `granted
    {
      Record(counter, priority, blocking, awake, signals, immediate, handoffs, unheard, enqueued, granted)
    }

    /** The object is in the given state of the state machine, as far as the machine
        speaks of the semaphore and not of its clients. Every method takes such a
        state to the one that the machine reaches. */
    ghost predicate Is(s: S.Sem)
      reads this, made
    {
      View() == RecordOf(s) && Nodes(s)
    }

    constructor (permits: nat)
      ensures Is(S.Init(permits))
    {
      counter, priority, blocking, awake := permits, 0, 0, 0;
      head, tail := null, null;
      made := [];
      signals, immediate, handoffs, unheard := 0, 0, 0, 0;
      enqueued, granted, freed := [], [], [];
    }

    /** One owner of a node lets go; its memory is given back when that was the last
        one. */
    method DropNode(node: WaiterNode, ghost nodes: map<nat, bv64>, willWake: bool)
      requires Numbered(made) && Words(made, nodes)
      requires node.id in nodes && made[node.id] == node
      modifies node`word, `freed
      ensures Words(made, NodesAfter(nodes, node.id, willWake))
      ensures freed == old(freed) + FreedBy(nodes, node.id, willWake)
    {
      var frees := node.Drop(willWake);
      if frees {
        freed := freed + [node.id];
      }
    }

    /** One owner of a node lets go, and nothing else happens. */
    method LetGo(node: WaiterNode, willWake: bool, ghost s: S.Sem, ghost t: S.Sem)
      requires Nodes(s) && node.id in s.nodes && made[node.id] == node
      requires t.nodes == NodesAfter(s.nodes, node.id, willWake) && t.queue == s.queue && t.nextNode == s.nextNode
      requires t.freed == s.freed + FreedBy(s.nodes, node.id, willWake)
      modifies node`word, `freed
      ensures Nodes(t)
    {
      DropNode(node, s.nodes, willWake);
    }

    /** Links a new node at the end of the queue. */
    method Append(node: WaiterNode, ghost queue: seq<nat>)
      requires Known(made, queue) && Linked(made, head, tail, queue)
      requires node.next == null && node !in made
      requires forall i, j :: 0 <= i < j < |queue| ==> queue[i] != queue[j]
      requires Numbered(made)
      modifies `head, `tail, `made, made`next
      ensures made == old(made) + [node] && Known(made, queue + [|old(made)|])
      ensures Linked(made, head, tail, queue + [|old(made)|])
    {
      if head == null {
        head := node;
        tail := node;
      } else {
        assert tail in made;
        tail.next := node;
        forall k | 0 <= k < |queue| - 1
          ensures made[queue[k]] != tail
        {
          assert made[queue[k]].id == queue[k] != queue[|queue| - 1] == tail.id;
        }
        LinkedLonger(made, node, head, queue);
        tail := node;
      }
      made := made + [node];
    }

    method NewNode(timed: bool) returns (node: WaiterNode)
      ensures fresh(node) && node.id == |made| && node.next == null && node.word == S.NewWord(timed)
    {
      node := new WaiterNode(|made|, if timed then S.TIMED | 2 else S.PLAIN | 2);
    }

    /** A new node joins the queue. */
    method Enqueue(node: WaiterNode, ghost queue: seq<nat>, ghost nodes: map<nat, bv64>, ghost gone: seq<nat>)
      requires Holds(|made|, queue, nodes, gone) && node.id == |made| && node.next == null && node !in made
      requires forall i, j :: 0 <= i < j < |queue| ==> queue[i] != queue[j]
      modifies `head, `tail, `made, `enqueued, made`next
      ensures made == old(made) + [node] && enqueued == old(enqueued) + [node.id]
      ensures Holds(node.id + 1, queue + [node.id], nodes[node.id := node.word], gone)
    {
      ghost var before := made;
      Append(node, queue);
      OneMore(before, node, nodes);
      enqueued := enqueued + [node.id];
    }

    /** A wait that finds no permit. */
    method Queue(node: WaiterNode, ghost s: S.Sem, ghost t: S.Sem)
      requires Is(s) && S.QueueAllocated(s) && node.id == |made| && node.next == null && node !in made
      requires t.nextNode == s.nextNode + 1 && t.queue == s.queue + [s.nextNode] && t.freed == s.freed
      requires t.nodes == s.nodes[s.nextNode := node.word]
      requires RecordOf(t) == RecordOf(s).(enqueued := s.enqueued + [s.nextNode])
      modifies `head, `tail, `made, `enqueued, made`next
      ensures Is(t) && made == old(made) + [node]
    {
      Enqueue(node, s.queue, s.nodes, s.freed);
    }

    /** The first poll of a waiting future; no node means that it is ready. */
    method Wait(timed: bool, ghost kept: bool, ghost s: S.Sem) returns (node: WaiterNode?)
      requires Is(s) && S.QueueAllocated(s)
      modifies this, made`next
      ensures Is(S.WaitStep(s, timed, kept))
      ensures node == null <==> s.counter > 0
      ensures node != null ==> made == old(made) + [node] && fresh(node)
    {
      if counter > 0 {
        counter := counter - 1;
        immediate := immediate + 1;
        return null;
      }
      ghost var t := S.WaitStep(s, timed, true);
      WaitStores(s, timed, t);
      node := NewNode(timed);
      Queue(node, s, t);
    }

    /** taskio_semaphore_blocking_wait up to the point where the thread blocks. */
    method BlockingWait(ghost s: S.Sem) returns (blocks: bool)
      requires Is(s)
      modifies `counter, `blocking, `immediate
      ensures Is(S.BlockingWaitStep(s))
      ensures blocks <==> old(counter) == 0
      ensures counter == old(counter) - (if old(counter) > 0 then 1 else 0)
      ensures immediate == old(immediate) + (if old(counter) > 0 then 1 else 0)
      ensures blocking == old(blocking) + (if old(counter) > 0 then 0 else 1)
    {
      blocks := counter == 0;
      if counter > 0 {
        counter := counter - 1;
        immediate := immediate + 1;
      } else {
        blocking := blocking + 1;
      }
    }

    /** The rest of it, once the thread runs again. */
    method Awake(ghost s: S.Sem)
      requires Is(s) && 0 < s.awake <= s.blocking
      modifies `blocking, `awake
      ensures Is(S.AwakeStep(s))
      ensures blocking + 1 == old(blocking) && awake + 1 == old(awake)
    {
      awake := awake - 1;
      blocking := blocking - 1;
    }

    /** The head node leaves the queue. */
    method TakeHead(ghost queue: seq<nat>) returns (node: WaiterNode)
      requires Numbered(made) && Known(made, queue) && queue != [] && Linked(made, head, tail, queue)
      modifies `head, `tail
      ensures node == made[queue[0]] && node.id == queue[0]
      ensures Known(made, queue[1..]) && Linked(made, head, tail, queue[1..])
    {
      node := head;
      LinkedTail(made, head, tail, queue);
      head := node.next;
      if head == null {
        tail := null;
      }
    }

    /** _signal_async: the head node leaves the queue, its waker is called, and it
        loses one owner. */
    method SignalAsync(ghost s: S.Sem, ghost t: S.Sem)
      requires Nodes(s) && HeadGone(s, t, true)
      modifies `head, `tail, `granted, `freed, made`word
      ensures Nodes(t) && granted == old(granted) + [s.queue[0]]
    {
      var node := TakeHead(s.queue);
      granted := granted + [node.id];
      DropNode(node, s.nodes, true);
    }

    /** _signal_sync: the condition variable wakes a thread, if one still waits. */
    method SignalSync()
      modifies `awake, `handoffs, `unheard
      ensures awake == old(awake) + (if old(awake) < blocking then 1 else 0)
      ensures handoffs == old(handoffs) + (if old(awake) < blocking then 1 else 0)
      ensures unheard == old(unheard) + (if old(awake) < blocking then 0 else 1)
    {
      if awake < blocking {
        awake := awake + 1;
        handoffs := handoffs + 1;
      } else {
        unheard := unheard + 1;
      }
    }

    /** The turn of the futures, in a state of which t is the rest. */
    method ToFuture(ghost s: S.Sem, ghost t: S.Sem)
      requires View() == RecordOf(t).(granted := s.granted) && Nodes(s)
      requires HeadGone(s, t, true) && t.granted == s.granted + [s.queue[0]]
      modifies `head, `tail, `granted, `freed, made`word
      ensures Is(t)
    {
      SignalAsync(s, t);
    }

    /** The choice of taskio_semaphore_signal: with waiters of both kinds the
        parity of the priority decides. */
    method Choose(ghost s: S.Sem, ghost t: S.Sem)
      requires Is(s) && SignalStored(s, t)
      modifies this, made`word
      ensures Is(t)
    {
      if head != null && blocking > 0 {
        var priorityValue := priority;
        priority := (priority + 1) % WORD;
        if priorityValue % 2 == 0 {
          ToFuture(s, t);
        } else {
          SignalSync();
        }
      } else if head != null {
        ToFuture(s, t);
      } else if blocking > 0 {
        SignalSync();
      } else {
        counter := counter + 1;
      }
    }

    method Count(ghost s: S.Sem, ghost t: S.Sem)
      requires Is(s) && SameNodes(s, t) && RecordOf(t) == RecordOf(s).(signals := s.signals + 1)
      modifies `signals
      ensures Is(t)
    {
      signals := signals + 1;
    }

    method Signal(ghost s: S.Sem, ghost byHolder: bool)
      requires Is(s) && S.Allowed(s, S.Signal(byHolder))
      modifies this, made`word
      ensures Is(S.Step(s, S.Signal(byHolder)))
    {
      ghost var entered, t := S.Signalled(s, byHolder), S.Step(s, S.Signal(byHolder));
      EnteredStores(s, byHolder, entered, t);
      Count(s, entered);
      Choose(entered, t);
    }

    /** The cleanup of a waiting future that has a node. */
    method Cleanup(node: WaiterNode, ghost s: S.Sem)
      requires Is(s) && S.Allowed(s, S.Cleanup(node.id)) && node.id < |made| && made[node.id] == node
      modifies `freed, made`word
      ensures Is(S.CleanupStep(s, node.id))
    {
      ghost var t := S.CleanupStep(s, node.id);
      CleanupStores(s, node.id, t);
      LetGo(node, true, s, t);
    }

    /** One node of the walk in taskio_semaphore_drop. */
    method DropFirst(node: WaiterNode, ghost last: WaiterNode?, ghost s: S.Sem, ghost t: S.Sem)
      returns (next: WaiterNode?, ghost newLast: WaiterNode?)
      requires Numbered(made) && Known(made, s.queue) && Words(made, s.nodes) && Linked(made, node, last, s.queue)
      requires freed == s.freed && HeadGone(s, t, false)
      modifies `freed, made`word
      ensures Known(made, t.queue) && Words(made, t.nodes) && Linked(made, next, newLast, t.queue)
      ensures freed == t.freed
    {
      LinkedTail(made, node, last, s.queue);
      next := node.next;
      newLast := if next == null then null else last;
      DropNode(node, s.nodes, false);
    }

    /** taskio_semaphore_drop walks the queue and lets go of every node; the links and
        the fields of the semaphore stay as they are, pointing to what is gone. */
    method DropSemaphore(ghost s: S.Sem)
      requires Is(s) && S.QueueAllocated(s)
      modifies `freed, made`word
      ensures Words(made, S.DropQueue(s).nodes) && freed == S.DropQueue(s).freed
    {
      var node := head;
      ghost var last, t := tail, s;
      while node != null
        invariant Known(made, t.queue) && Linked(made, node, last, t.queue)
        invariant Words(made, t.nodes) && freed == t.freed && S.QueueAllocated(t)
        invariant S.DropQueue(t) == S.DropQueue(s)
        decreases |t.queue|
      {
        LinkedTail(made, node, last, t.queue);
        ghost var u := S.Release(t.(queue := t.queue[1..]), t.queue[0], false);
        DropTakesHead(t, u);
        node, last := DropFirst(node, last, t, u);
        t := u;
      }
    }
  }
}
