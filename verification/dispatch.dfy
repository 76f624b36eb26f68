/**
 * The stretches of the cpu and parse_and_enqueue functions that run under a
 * queue's mutex, on the linked queues. `Machine` proves that they do what
 * `Scheduler` says.
 */
module Dispatch {
  import opened ReadyQueue
  import opened Scheduler

  /** A burst as the state machine sees it, its history left out. */
  ghost function Value(b: BurstItem): Burst
    reads b
  {
    Burst(b.pid, b.burstLength, b.remainingTime, 0, 0)
  }

  ghost function Line(items: seq<BurstItem>): (line: seq<Burst>)
    reads items
    ensures |line| == |items| && forall i :: 0 <= i < |items| ==> line[i] == Value(items[i])
  {
    seq(|items|, i requires 0 <= i < |items| reads items => Value(items[i]))
  }

  /** Joining and leaving the linked queue is joining and leaving the line of the state machine. */
  lemma LineFollows(items: seq<BurstItem>, v: BurstItem, k: nat)
    ensures Marked(items) <==> EndsMarked(Line(items))
    ensures Line(Joined(items, v, Marked(items))) == Enqueued(Line(items), Value(v))
    ensures k < |items| ==> Line(Without(items, k)) == Without(Line(items), k)
  {
  }

  predicate DistinctPids(items: seq<BurstItem>) {
    forall i, j :: 0 <= i < j < |items| ==> items[i].pid != items[j].pid
  }

  /** The queues share no nodes. */
  ghost predicate Apart(q: Queue, q': Queue)
    reads q`Repr, q'`Repr
  {
    q != q' && q.Repr !! q'.Repr
  }

  // ----- cpu ------------------------------------------------------------------------------

  /** `k` is the earliest shortest burst among the first `n`. */
  ghost predicate ShortestUpTo(items: seq<BurstItem>, k: nat, n: nat)
    requires k < |items| && n <= |items|
    reads items
  {
    && items[k].pid != -1
    && (forall i :: 0 <= i < k && i < n && items[i].pid != -1 ==> items[k].remainingTime < items[i].remainingTime)
    && (forall i :: k < i < n && items[i].pid != -1 ==> items[k].remainingTime <= items[i].remainingTime)
  }

  lemma ShortestInLine(items: seq<BurstItem>, k: nat)
    requires k < |items| && ShortestUpTo(items, k, |items|)
    ensures IsShortest(Line(items), k)
  {
  }

  /** The scan of the SJF branch. */
  method FindShortest(queue: Queue) returns (shortest: Node, ghost k: nat)
    requires queue.Linked() && queue.Carries()
    requires queue.items != [] && queue.items[0].pid != -1
    ensures k < |queue.items| && shortest in queue.nodes && shortest.data == queue.items[k]
    ensures IsShortest(Line(queue.items), k)
    ensures shortest.data.pid != -1
    ensures forall i :: 0 <= i < |queue.items| && queue.items[i].pid != -1 ==>
      shortest.data.remainingTime <= queue.items[i].remainingTime
      && (i < k ==> shortest.data.remainingTime < queue.items[i].remainingTime)
  {
    hide IsShortest;
    queue.HeadIsFirst();
    queue.Successor(0);
    hide Queue.Linked, Queue.Carries;
    shortest := queue.head;
    k := 0;
    var cur := queue.head;
    ghost var n := 0;
    while cur != null
      invariant n <= |queue.nodes| && cur == if n < |queue.nodes| then queue.nodes[n] else null
      invariant k < |queue.nodes| && shortest == queue.nodes[k] && (k < n || k == 0)
      invariant ShortestUpTo(queue.items, k, n)
      decreases |queue.nodes| - n
    {
      queue.Successor(n);
      queue.Successor(k);
      if cur.data.pid != -1 && cur.data.remainingTime < shortest.data.remainingTime {
        shortest := cur;
        k := n;
      }
      cur := cur.next;
      n := n + 1;
    }
    queue.Successor(k);
    ShortestInLine(queue.items, k);
  }

  lemma OnlyOneWithPid(items: seq<BurstItem>, k: nat, m: nat)
    requires DistinctPids(items) && k < |items| && m < |items| && items[k].pid == items[m].pid
    ensures k == m
  {
  }

  /** The SJF branch: scan, then dequeue by pid. */
  method TakeShortest(queue: Queue) returns (burst: BurstItem, ghost k: nat)
    requires queue.Valid() && DistinctPids(queue.items)
    requires queue.items != [] && queue.items[0].pid != -1
    modifies queue, queue.Repr
    ensures queue.Valid() && queue.Repr == old(queue.Repr) && IsShortest(old(Line(queue.items)), k)
    ensures k < |old(queue.items)| && burst == old(queue.items)[k] && burst.pid != -1
    ensures queue.items == Without(old(queue.items), k)
  {
    var shortest, next;
    shortest, k := FindShortest(queue);
    hide IsShortest, DistinctPids, Line, Load, Without, Queue.Linked;
    ghost var items, m := queue.items, 0;
    next, m := queue.DequeueAt(shortest.data.pid);
    OnlyOneWithPid(items, k, m);
    burst := next;
  }

  /** A CPU at its queue, which is not empty: leave at the marker, else dequeue what is due. */
  method TakeNext(queue: Queue, alg: Algorithm) returns (burst: BurstItem?, ghost k: nat)
    requires queue.Valid() && queue.items != [] && DistinctPids(queue.items)
    modifies queue, queue.Repr
    ensures queue.Valid() && queue.Repr == old(queue.Repr)
    ensures old(queue.items)[0].pid == -1 ==> burst == null && queue.items == old(queue.items)
    ensures old(queue.items)[0].pid != -1 ==>
      && (if alg == SJF then IsShortest(old(Line(queue.items)), k) else k == 0)
      && k < |old(queue.items)| && burst == old(queue.items)[k] && burst.pid != -1
      && queue.items == Without(old(queue.items), k)
  {
    queue.Successor(0);
    hide IsShortest, DistinctPids, Line, Load, Without;
    k := 0;
    if queue.head.data.pid == -1 {
      burst := null;
    } else if alg == SJF {
      burst, k := TakeShortest(queue);
    } else {
      burst := queue.Dequeue();
    }
  }

  // ----- among the other queues -----------------------------------------------------------

  ghost function Footprint(queues: seq<Queue>): set<Node>
    reads queues
  {
    set q, o | q in queues && o in q.Repr :: o
  }

  ghost predicate Ready(queues: seq<Queue>)
    reads queues, Footprint(queues)
  {
    && (forall q :: q in queues ==> q.Valid())
    && forall i, j :: 0 <= i < |queues| && 0 <= j < |queues| && i != j ==> Apart(queues[i], queues[j])
  }

  /** enqueue, among the other queues. */
  method EnqueueAt(queues: seq<Queue>, k: nat, value: BurstItem)
    requires Ready(queues) && k < |queues|
    requires value.pid == -1 ==> !Marked(queues[k].items)
    modifies queues[k], queues[k].Repr
    ensures Ready(queues) && fresh(queues[k].Repr - old(queues[k].Repr))
    ensures queues[k].items == Joined(old(queues[k].items), value, Marked(old(queues[k].items)))
    ensures forall i :: 0 <= i < |queues| && i != k ==>
      queues[i].items == old(queues[i].items) && queues[i].Repr == old(queues[i].Repr)
  {
    hide Load, Joined;
    forall i | 0 <= i < |queues| && i != k ensures queues[i].Valid() && Apart(queues[i], queues[k]) {
      assert queues[i] in queues;
    }
    assert queues[k] in queues;
    queues[k].Enqueue(value);
    forall q | q in queues ensures q.Valid() {
      var i :| 0 <= i < |queues| && q == queues[i];
      assert i != k ==> Apart(queues[i], queues[k]);
    }
  }

  /** A CPU's turn at queue `k`, among the other queues. */
  method TakeAt(queues: seq<Queue>, k: nat, alg: Algorithm) returns (burst: BurstItem?, ghost place: nat)
    requires Ready(queues) && k < |queues| && queues[k].items != [] && DistinctPids(queues[k].items)
    modifies queues[k], queues[k].Repr
    ensures Ready(queues)
    ensures old(queues[k].items)[0].pid == -1 ==> burst == null && queues[k].items == old(queues[k].items)
    ensures old(queues[k].items)[0].pid != -1 ==>
      && (if alg == SJF then IsShortest(old(Line(queues[k].items)), place) else place == 0)
      && place < |old(queues[k].items)| && burst == old(queues[k].items)[place] && burst.pid != -1
      && queues[k].items == Without(old(queues[k].items), place)
    ensures forall i :: 0 <= i < |queues| && i != k ==> queues[i].items == old(queues[i].items)
  {
    hide Load, Without, IsShortest, DistinctPids, Line;
    forall i | 0 <= i < |queues| && i != k ensures queues[i].Valid() && Apart(queues[i], queues[k]) {
      assert queues[i] in queues;
    }
    assert queues[k] in queues;
    burst, place := TakeNext(queues[k], alg);
    forall q | q in queues ensures q.Valid() {
      var i :| 0 <= i < |queues| && q == queues[i];
      assert i != k ==> Apart(queues[i], queues[k]);
    }
  }

  /**
   * CPU `cpuIdx` runs the burst in its hands, then puts it back into queue `k` or among
   * the finished bursts, in queue `f`.
   */
  method Run(burst: BurstItem, alg: Algorithm, cpuIdx: int, now: int, queues: seq<Queue>, k: nat, f: nat)
      returns (execTime: int)
    requires Ready(queues) && k < |queues| && f < |queues| && k != f
    requires burst.pid != -1
    modifies burst, queues[k], queues[k].Repr, queues[f], queues[f].Repr
    ensures Ready(queues)
    ensures Value(burst) == Ran(alg, old(Value(burst))).(executed := 0)
    ensures execTime == Ran(alg, old(Value(burst))).executed
    ensures var target := if MustRequeue(alg, old(Value(burst))) then k else f;
      && queues[target].items == Joined(old(queues[target].items), burst, Marked(old(queues[target].items)))
      && forall i :: 0 <= i < |queues| && i != target ==> queues[i].items == old(queues[i].items)
    ensures burst.arrivalTime == old(burst.arrivalTime)
    ensures MustRequeue(alg, old(Value(burst))) <==> alg.RR? && old(burst.remainingTime) > alg.quantum
    ensures alg.RR? && old(burst.remainingTime) > alg.quantum ==>
      && execTime == alg.quantum && burst.remainingTime == old(burst.remainingTime) - alg.quantum
      && burst.finishTime == old(burst.finishTime) && burst.turnaroundTime == old(burst.turnaroundTime)
      && burst.processorId == old(burst.processorId)
    ensures !(alg.RR? && old(burst.remainingTime) > alg.quantum) ==>
      && execTime == (if alg == FCFS then burst.burstLength else old(burst.remainingTime))
      && burst.remainingTime == 0
    ensures !MustRequeue(alg, old(Value(burst))) ==>
      burst.finishTime == now && burst.turnaroundTime == now - burst.arrivalTime && burst.processorId == cpuIdx
  {
    hide Load, Joined, Queue.Valid, Apart, Marked;
    if alg.RR? && burst.remainingTime > alg.quantum {
      execTime := alg.quantum;
      burst.remainingTime := burst.remainingTime - alg.quantum;
      EnqueueAt(queues, k, burst);
    } else {
      execTime := if alg == FCFS then burst.burstLength else burst.remainingTime;
      burst.remainingTime := 0;
      burst.finishTime := now;
      burst.turnaroundTime := burst.finishTime - burst.arrivalTime;
      burst.processorId := cpuIdx;
      EnqueueAt(queues, f, burst);
    }
  }

  // ----- parse_and_enqueue ------------------------------------------------------------------

  /** The queue of least load, the first of them on ties. */
  method LeastLoaded(queues: seq<Queue>) returns (k: nat)
    requires Ready(queues) && queues != []
    ensures k < |queues|
    ensures forall i :: 0 <= i < |queues| ==> Load(queues[k].items) <= Load(queues[i].items)
    ensures forall i :: 0 <= i < k ==> Load(queues[k].items) < Load(queues[i].items)
  {
    hide Load;
    assert forall i :: 0 <= i < |queues| ==> queues[i] in queues;
    k := 0;
    var load := queues[0].queueLoad;
    for i := 0 to |queues|
      invariant k < |queues| && load == Load(queues[k].items) && (k < i || k == 0)
      invariant forall j :: 0 <= j < i ==> load <= Load(queues[j].items)
      invariant forall j :: 0 <= j < k ==> load < Load(queues[j].items)
    {
      if queues[i].queueLoad < load {
        k := i;
        load := queues[i].queueLoad;
      }
    }
  }

  class Producer {
    var nextPid: int
    var rrQueueIdx: nat

    constructor ()
      ensures nextPid == 1 && rrQueueIdx == 0
    {
      nextPid, rrQueueIdx := 1, 0;
    }

    /** The queue that the selection method names. */
    method Select(queues: seq<Queue>, selection: Selection) returns (k: nat)
      requires Ready(queues) && rrQueueIdx < |queues|
      ensures k < |queues|
      ensures selection == SingleQueue ==> k == 0
      ensures selection == RoundMethod ==> k == rrQueueIdx
      ensures selection == LoadMethod ==>
        && (forall i :: 0 <= i < |queues| ==> Load(queues[k].items) <= Load(queues[i].items))
        && (forall i :: 0 <= i < k ==> Load(queues[k].items) < Load(queues[i].items))
    {
      match selection {
        case RoundMethod => k := rrQueueIdx;
        case LoadMethod => k := LeastLoaded(queues);
        case SingleQueue => k := 0;
      }
    }

    /**
     * A PL line: create a burst and put it in queue `k`, which `Select` has named. The ready
     * queues are the first `n`.
     */
    method Arrive(queues: seq<Queue>, n: nat, selection: Selection, k: nat, burstLength: int, now: int)
        returns (bi: BurstItem)
      requires Ready(queues) && rrQueueIdx < n <= |queues| && nextPid > 0
      requires k < n && (selection == RoundMethod ==> k == rrQueueIdx)
      modifies this, queues[k], queues[k].Repr
      ensures Ready(queues) && rrQueueIdx < n
      ensures queues[k].items == Joined(old(queues[k].items), bi, Marked(old(queues[k].items)))
      ensures forall i :: 0 <= i < |queues| && i != k ==> queues[i].items == old(queues[i].items)
      ensures fresh(bi) && Value(bi) == Burst(old(nextPid), burstLength, burstLength, 0, 0)
      ensures bi.arrivalTime == now && bi.processorId == k && nextPid == old(nextPid) + 1
      ensures bi.finishTime == bi.turnaroundTime == -1
      ensures rrQueueIdx == if selection == RoundMethod then (k + 1) % n else old(rrQueueIdx)
    {
      hide Load, Joined;
      bi := new BurstItem(nextPid, burstLength, now, k);
      EnqueueAt(queues, k, bi);
      nextPid := nextPid + 1;
      rrQueueIdx := if selection == RoundMethod then (rrQueueIdx + 1) % n else rrQueueIdx;
    }
  }

  /** `items` is `was` with a marker at its end. */
  predicate GotMarker(was: seq<BurstItem>, items: seq<BurstItem>) {
    Marked(items) && items[..|items| - 1] == was
  }

  /** One marker for one queue. */
  method MarkOne(queues: seq<Queue>, k: nat) returns (bi: BurstItem)
    requires Ready(queues) && k < |queues| && !Marked(queues[k].items)
    modifies queues[k], queues[k].Repr
    ensures Ready(queues) && fresh(queues[k].Repr - old(queues[k].Repr))
    ensures fresh(bi) && Value(bi) == MARKER
    ensures queues[k].items == old(queues[k].items) + [bi] && GotMarker(old(queues[k].items), queues[k].items)
    ensures forall i :: 0 <= i < |queues| && i != k ==>
      queues[i].items == old(queues[i].items) && queues[i].Repr == old(queues[i].Repr)
  {
    hide Load;
    bi := new BurstItem(-1, 0, 0, 0);
    EnqueueAt(queues, k, bi);
  }

  /** The end of parse_and_enqueue: one marker at the end of every queue. */
  method MarkAll(queues: seq<Queue>)
    requires Ready(queues) && forall i :: 0 <= i < |queues| ==> !Marked(queues[i].items)
    modifies queues, Footprint(queues)
    ensures Ready(queues)
    ensures forall i :: 0 <= i < |queues| ==> GotMarker(old(queues[i].items), queues[i].items)
  {
    assert forall i :: 0 <= i < |queues| ==> queues[i] in queues;
    hide Load, GotMarker, Marked, Ready;
    for i := 0 to |queues|
      invariant Ready(queues)
      invariant forall j :: 0 <= j < i ==> GotMarker(old(queues[j].items), queues[j].items)
      invariant forall j :: i <= j < |queues| ==> queues[j].items == old(queues[j].items)
      invariant forall j :: 0 <= j < |queues| ==> fresh(queues[j].Repr - old(queues[j].Repr))
    {
      assert queues[i] in queues;
      var bi := MarkOne(queues, i);
    }
  }
}
