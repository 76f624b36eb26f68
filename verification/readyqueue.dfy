/**
 * The doubly linked ready queue, refined to the sequence of its bursts. An end
 * marker (pid -1), once enqueued, stays last.
 */
module ReadyQueue {
  import opened Collections

  class BurstItem {
    const pid: int
    const burstLength: int
    var arrivalTime: int
    var remainingTime: int
    var finishTime: int
    var turnaroundTime: int
    var processorId: int

    constructor (pid: int, burstLength: int, arrivalTime: int, processorId: int)
      ensures this.pid == pid && this.burstLength == burstLength && this.arrivalTime == arrivalTime
      ensures remainingTime == burstLength && finishTime == -1 && turnaroundTime == -1
      ensures this.processorId == processorId
    {
      this.pid, this.burstLength, this.arrivalTime := pid, burstLength, arrivalTime;
      remainingTime, finishTime, turnaroundTime := burstLength, -1, -1;
      this.processorId := processorId;
    }
  }

  class Node {
    var data: BurstItem
    var next: Node?
    var prev: Node?

    constructor (data: BurstItem)
      ensures this.data == data && next == null && prev == null
    {
      this.data, next, prev := data, null, null;
    }
  }

  /** `v` joins the line: in front of the last element if that is the marker, else at the end. */
  function Joined<T>(line: seq<T>, v: T, marked: bool): (line': seq<T>)
    requires marked ==> line != []
    ensures |line'| == |line| + 1
    ensures forall i :: 0 <= i < |line| - 1 ==> line'[i] == line[i]
    ensures marked ==> line'[|line| - 1] == v && line'[|line|] == line[|line| - 1]
    ensures !marked ==> line'[|line|] == v && (line != [] ==> line'[|line| - 1] == line[|line| - 1])
  {
    if marked then line[..|line| - 1] + [v] + line[|line| - 1..] else line + [v]
  }

  function Without<T>(line: seq<T>, k: nat): (line': seq<T>)
    requires k < |line|
    ensures |line'| == |line| - 1
    ensures forall i :: 0 <= i < k ==> line'[i] == line[i]
    ensures forall i :: k <= i < |line'| ==> line'[i] == line[i + 1]
  {
    line[..k] + line[k + 1..]
  }

  predicate Marked(items: seq<BurstItem>) {
    items != [] && items[|items| - 1].pid == -1
  }

  predicate MarkerOnlyLast(items: seq<BurstItem>) {
    forall i :: 0 <= i < |items| - 1 ==> items[i].pid != -1
  }

  ghost function Load(items: seq<BurstItem>): int {
    if items == [] then 0 else Load(items[..|items| - 1]) + items[|items| - 1].burstLength
  }

  lemma {:induction false} LoadConcat(a: seq<BurstItem>, b: seq<BurstItem>)
    ensures Load(a + b) == Load(a) + Load(b)
    decreases |b|
  {
    if b == [] {
      assert a + b == a;
    } else {
      assert (a + b)[..|a + b| - 1] == a + b[..|b| - 1];
      LoadConcat(a, b[..|b| - 1]);
    }
  }

  lemma LoadOne(v: BurstItem)
    ensures Load([v]) == v.burstLength
  {
    assert [v][..0] == [];
  }

  lemma LoadJoined(items: seq<BurstItem>, v: BurstItem)
    ensures Load(Joined(items, v, Marked(items))) == Load(items) + v.burstLength
  {
    LoadOne(v);
    LoadConcat(items, [v]);
    hide Load;
    if Marked(items) {
      var front, last := items[..|items| - 1], items[|items| - 1..];
      assert items == front + last;
      LoadConcat(front, last);
      LoadConcat(front, [v]);
      LoadConcat(front + [v], last);
    }
  }

  lemma LoadWithout(items: seq<BurstItem>, k: nat)
    requires k < |items|
    ensures Load(Without(items, k)) == Load(items) - items[k].burstLength
  {
    hide Load;
    var before, v, after := items[..k], items[k], items[k + 1..];
    assert items == (before + [v]) + after;
    LoadOne(v);
    LoadConcat(before + [v], after);
    LoadConcat(before, [v]);
    LoadConcat(before, after);
  }

  lemma {:induction false} LoadUpdate(items: seq<BurstItem>, k: nat, v: BurstItem)
    requires k < |items|
    ensures Load(items[k := v]) == Load(items) - items[k].burstLength + v.burstLength
  {
    var last := |items| - 1;
    if k < last {
      assert items[k := v][..last] == items[..last][k := v];
      LoadUpdate(items[..last], k, v);
    } else {
      assert items[k := v][..last] == items[..last];
    }
  }

  /** The first `p` places hold what they will hold in the end. */
  predicate Settled(items: seq<BurstItem>, p: nat) {
    forall a, b :: 0 <= a < p && a < b < |items| ==> items[a].pid <= items[b].pid
  }

  /** The same bursts in some order. */
  ghost predicate Rearranged(items: seq<BurstItem>, items': seq<BurstItem>) {
    multiset(items') == multiset(items) && Load(items') == Load(items)
  }

  lemma SwapRearranges(items: seq<BurstItem>, was: seq<BurstItem>, p: nat, q: nat)
    requires p < q < |items| && Rearranged(was, items)
    ensures Rearranged(was, Swapped(items, p, q))
  {
    LoadUpdate(items, p, items[q]);
    LoadUpdate(items[p := items[q]], q, items[p]);
  }

  lemma UnmarkedBag(items: seq<BurstItem>, items': seq<BurstItem>)
    requires MarkerOnlyLast(items) && !Marked(items)
    requires multiset(items') == multiset(items)
    ensures MarkerOnlyLast(items') && !Marked(items')
  {
    forall k | 0 <= k < |items'| ensures items'[k].pid != -1 {
      assert items'[k] in multiset(items');
      assert items'[k] in items;
    }
  }

  /** Place `p` holds the least of what follows before place `q`. */
  predicate LeastBefore(items: seq<BurstItem>, p: nat, q: nat) {
    forall x :: p < x < q && x < |items| ==> items[p].pid <= items[x].pid
  }

  lemma NothingBetween(items: seq<BurstItem>, p: nat)
    ensures LeastBefore(items, p, p + 1)
  {
  }

  lemma KeepSettles(items: seq<BurstItem>, p: nat, q: nat)
    requires p < q < |items| && items[p].pid <= items[q].pid
    requires LeastBefore(items, p, q)
    ensures LeastBefore(items, p, q + 1)
  {
  }

  lemma PassSettles(items: seq<BurstItem>, p: nat)
    requires Settled(items, p) && LeastBefore(items, p, |items|)
    ensures Settled(items, p + 1)
  {
  }

  lemma LastSettles(items: seq<BurstItem>, p: nat)
    requires Settled(items, p) && |items| <= p + 1
    ensures Settled(items, |items|)
  {
  }

  lemma SwapSettles(items: seq<BurstItem>, p: nat, q: nat)
    requires p < q < |items| && items[p].pid > items[q].pid
    requires Settled(items, p) && LeastBefore(items, p, q)
    ensures Settled(Swapped(items, p, q), p) && LeastBefore(Swapped(items, p, q), p, q + 1)
  {
  }

  class Queue {
    var head: Node?
    var tail: Node?
    var size: int
    var queueLoad: int
    ghost var nodes: seq<Node>       // the nodes from head to tail
    ghost var items: seq<BurstItem>  // the bursts in line, first to last
    ghost var Repr: set<Node>        // the nodes, past and present

    ghost predicate Linked()
      reads `head, `tail, `nodes, nodes`next, nodes`prev
    {
      && (forall i, j :: 0 <= i < j < |nodes| ==> nodes[i] != nodes[j])
      && (nodes == [] ==> head == null && tail == null)
      && (nodes != [] ==>
            && head == nodes[0] && nodes[0].prev == null
            && tail == nodes[|nodes| - 1] && nodes[|nodes| - 1].next == null)
      && (forall i {:trigger nodes[i].next} :: 0 <= i < |nodes| - 1 ==> nodes[i].next == nodes[i + 1])
      && (forall i {:trigger nodes[i].prev} :: 0 < i < |nodes| ==> nodes[i].prev == nodes[i - 1])
    }

    ghost predicate Carries()
      reads `nodes, `items, nodes`data
    {
      |items| == |nodes| && forall i :: 0 <= i < |nodes| ==> nodes[i].data == items[i]
    }

    ghost predicate Valid()
      reads this, Repr
    {
      && (forall i :: 0 <= i < |nodes| ==> nodes[i] in Repr)
      && Linked() && Carries()
      && size == |items| && queueLoad == Load(items) && MarkerOnlyLast(items)
    }

    constructor ()
      ensures Valid() && items == [] && Repr == {}
    {
      head, tail, size, queueLoad := null, null, 0, 0;
      nodes, items, Repr := [], [], {};
    }

    /** Hook a new node in between the last node and the one in front of it. */
    method LinkBeforeTail(newNode: Node)
      requires Linked() && |nodes| > 1
      requires newNode !in nodes && newNode.next == null && newNode.prev == null
      modifies `nodes, nodes`next, nodes`prev, newNode`next, newNode`prev
      ensures Linked() && nodes == Joined(old(nodes), newNode, true)
    {
      hide Joined, Without;
      tail.prev.next := newNode;
      newNode.prev := tail.prev;
      newNode.next := tail;
      tail.prev := newNode;
      nodes := Joined(nodes, newNode, true);
    }

    /** Hook a new node in: in front of a trailing marker, else at the end. */
    method Link(newNode: Node)
      requires Linked() && Carries() && MarkerOnlyLast(items)
      requires newNode !in nodes && newNode.next == null && newNode.prev == null
      modifies `head, `tail, `nodes, nodes`next, nodes`prev, newNode`next, newNode`prev
      ensures Linked() && nodes == Joined(old(nodes), newNode, Marked(items))
    {
      hide Joined, Without;
      if head == null {
        head := newNode;
        tail := newNode;
        nodes := Joined(nodes, newNode, false);
      } else if head.data.pid == -1 {
        assert |nodes| == 1;
        head := newNode;
        head.next := tail;
        tail.prev := head;
        nodes := Joined(nodes, newNode, true);
      } else if tail.data.pid == -1 {
        LinkBeforeTail(newNode);
      } else {
        tail.next := newNode;
        newNode.prev := tail;
        tail := newNode;
        nodes := Joined(nodes, newNode, false);
      }
    }

    /** Unhook the head. */
    method UnlinkHead()
      requires Linked() && nodes != []
      modifies `head, `tail, `nodes, nodes`next, nodes`prev
      ensures Linked() && nodes == Without(old(nodes), 0)
    {
      hide Joined, Without;
      var cur := head;
      head := head.next;
      if head != null {
        head.prev := null;
      } else {
        tail := null;
      }
      cur.next := null;
      cur.prev := null;
      nodes := Without(nodes, 0);
    }

    /** Unhook a node behind the head. */
    method UnlinkBehind(cur: Node, ghost k: nat)
      requires Linked() && 0 < k < |nodes| && cur == nodes[k]
      modifies `tail, `nodes, nodes`next, nodes`prev
      ensures Linked() && nodes == Without(old(nodes), k)
    {
      hide Joined, Without;
      cur.prev.next := cur.next;
      if cur.next != null {
        cur.next.prev := cur.prev;
      } else {
        tail := cur.prev;
      }
      cur.next := null;
      cur.prev := null;
      nodes := Without(nodes, k);
    }

    /** enqueue. */
    method Enqueue(value: BurstItem)
      requires Valid()
      requires value.pid == -1 ==> !Marked(items)
      modifies this, Repr
      ensures Valid() && fresh(Repr - old(Repr))
      ensures items == Joined(old(items), value, Marked(old(items)))
    {
      hide Load, Linked, Joined, Without;
      LoadJoined(items, value);
      var newNode := new Node(value);
      size := size + 1;
      queueLoad := queueLoad + value.burstLength;
      Link(newNode);
      Repr := Repr + {newNode};
      items := Joined(items, value, Marked(items));
    }

    method TakeHead() returns (res: BurstItem)
      requires Valid() && head != null
      modifies this, Repr
      ensures Valid() && Repr == old(Repr) && old(items) != []
      ensures res == old(items)[0] && nodes == Without(old(nodes), 0) && items == Without(old(items), 0)
    {
      hide Load, Joined, Without;
      LoadWithout(items, 0);
      res := head.data;
      UnlinkHead();
      hide Linked;
      size := size - 1;
      queueLoad := queueLoad - res.burstLength;
      items := Without(items, 0);
    }

    /** dequeue: the head, whatever it is. */
    method Dequeue() returns (res: BurstItem?)
      requires Valid()
      modifies this, Repr
      ensures Valid() && Repr == old(Repr)
      ensures old(items) == [] ==> res == null && nodes == old(nodes) && items == old(items)
      ensures old(items) != [] ==>
        res == old(items)[0] && nodes == Without(old(nodes), 0) && items == Without(old(items), 0)
    {
      if head == null {
        return null;
      }
      res := TakeHead();
    }

    /** dequeue_at: the first burst with this pid. */
    method DequeueAt(pid: int) returns (res: BurstItem?, ghost k: nat)
      requires Valid()
      modifies this, Repr
      ensures Valid() && Repr == old(Repr)
      ensures k <= |old(items)| && forall i :: 0 <= i < k ==> old(items)[i].pid != pid
      ensures k == |old(items)| ==> res == null && nodes == old(nodes) && items == old(items)
      ensures k < |old(items)| ==> res == old(items)[k] && res.pid == pid
      ensures k < |old(items)| ==> nodes == Without(old(nodes), k) && items == Without(old(items), k)
    {
      hide Load, Joined, Without;
      k := 0;
      var cur := head;
      while cur != null && cur.data.pid != pid
        invariant 0 <= k <= |nodes|
        invariant cur == if k < |nodes| then nodes[k] else null
        invariant forall i :: 0 <= i < k ==> items[i].pid != pid
        decreases |nodes| - k
        modifies {}
      {
        assert k + 1 < |nodes| ==> nodes[k].next == nodes[k + 1];
        cur := cur.next;
        k := k + 1;
      }
      if cur == null {
        return null, k;
      }
      if cur == head {
        res := Dequeue();
        return res, k;
      }
      hide Linked;
      LoadWithout(items, k);
      UnlinkBehind(cur, k);
      size := size - 1;
      queueLoad := queueLoad - cur.data.burstLength;
      res := cur.data;
      items := Without(items, k);
    }

    /** Swap what two nodes carry. */
    method Exchange(i: Node, j: Node, ghost p: nat, ghost q: nat)
      requires Linked() && Carries() && p < q < |nodes| && i == nodes[p] && j == nodes[q]
      modifies `items, i`data, j`data
      ensures Linked() && Carries() && items == Swapped(old(items), p, q)
    {
      var temp := i.data;
      i.data := j.data;
      j.data := temp;
      items := Swapped(items, p, q);
    }

    lemma HeadIsFirst()
      requires Linked() && Carries() && items != []
      ensures nodes != [] && head == nodes[0]
    {
    }

    lemma Successor(k: nat)
      requires Linked() && Carries() && k < |nodes|
      ensures nodes[k].next == if k + 1 < |nodes| then nodes[k + 1] else null
      ensures |items| == |nodes| && nodes[k].data == items[k]
    {
    }

    /** The inner loop of sort. */
    method Pass(i: Node, ghost p: nat)
      requires Linked() && Carries() && p < |nodes| && i == nodes[p] && Settled(items, p)
      modifies `items, nodes`data
      ensures Linked() && Carries() && Settled(items, p + 1)
      ensures Rearranged(old(items), items)
    {
      hide Load, Linked, Carries, Settled, LeastBefore, Swapped;
      assert Rearranged(items, items);
      hide Rearranged;
      Successor(p);
      NothingBetween(items, p);
      var j := i.next;
      ghost var q := p + 1;
      while j != null
        invariant p < q <= |nodes| == |items| && j == if q < |nodes| then nodes[q] else null
        invariant Linked() && Carries() && Settled(items, p) && LeastBefore(items, p, q)
        invariant Rearranged(old(items), items)
        decreases |nodes| - q
      {
        Successor(p);
        Successor(q);
        if i.data.pid > j.data.pid {
          SwapSettles(items, p, q);
          SwapRearranges(items, old(items), p, q);
          Exchange(i, j, p, q);
        } else {
          KeepSettles(items, p, q);
        }
        j := j.next;
        q := q + 1;
      }
      PassSettles(items, p);
    }

    /** sort: exchange sort by pid. */
    method Sort()
      requires Valid() && !Marked(items)
      modifies `items, nodes`data
      ensures Valid() && !Marked(items)
      ensures multiset(items) == multiset(old(items))
      ensures Settled(items, |items|)
    {
      if head == null {
        return;
      }
      assert Settled(items, 0);
      hide Load, MarkerOnlyLast, Marked, Settled, Linked;
      var i := head;
      ghost var p := 0;
      while i.next != null
        invariant p < |nodes| && i == nodes[p]
        invariant Linked() && Carries() && Settled(items, p)
        invariant Rearranged(old(items), items)
        decreases |nodes| - p
      {
        Pass(i, p);
        Successor(p);
        i := i.next;
        p := p + 1;
      }
      UnmarkedBag(old(items), items);
      Successor(p);
      LastSettles(items, p);
    }
  }
}
