/** The linked word list with its dummy head: counting, in-place exchange sort and top-K. */
module WordList {
  import opened Collections
  import opened WordOrder

  class Node {
    var word: string
    var freq: int
    var next: Node?
    var prev: Node?

    constructor (word: string, freq: int)
      ensures this.word == word && this.freq == freq && next == null && prev == null
    {
      this.word, this.freq, next, prev := word, freq, null, null;
    }
  }

  const INT_MAX := 0x7FFF_FFFF

  /** The first `p` places hold what they will hold in the end. */
  predicate Settled(table: seq<Entry>, p: nat) {
    forall a, b :: 0 <= a < p && a < b < |table| ==> !Before(table[b], table[a])
  }

  /** Place `p` holds the first, in reporting order, of what follows before place `q`. */
  predicate FirstBefore(table: seq<Entry>, p: nat, q: nat) {
    forall x :: p < x < q && x < |table| ==> !Before(table[x], table[p])
  }

  lemma NothingBetween(table: seq<Entry>, p: nat)
    ensures FirstBefore(table, p, p + 1)
  {
  }

  lemma KeepSettles(table: seq<Entry>, p: nat, q: nat)
    requires p < q < |table| && !Before(table[q], table[p])
    requires FirstBefore(table, p, q)
    ensures FirstBefore(table, p, q + 1)
  {
  }

  lemma SwapSettles(table: seq<Entry>, p: nat, q: nat)
    requires p < q < |table| && Before(table[q], table[p])
    requires Settled(table, p) && FirstBefore(table, p, q)
    ensures Settled(Swapped(table, p, q), p) && FirstBefore(Swapped(table, p, q), p, q + 1)
  {
    hide Before;
    var table' := Swapped(table, p, q);
    BeforeAsymmetric(table[q], table[p]);
    forall x | p < x < q ensures !Before(table'[x], table'[p]) {
      if Before(table[x], table[q]) {
        BeforeTransitive(table[x], table[q], table[p]);
      }
    }
  }

  lemma PassSettles(table: seq<Entry>, p: nat)
    requires Settled(table, p) && FirstBefore(table, p, |table|)
    ensures Settled(table, p + 1)
  {
    hide Before;
  }

  lemma LastSettles(table: seq<Entry>, p: nat)
    requires Settled(table, p) && |table| <= p + 1
    ensures Settled(table, |table|)
  {
    hide Before;
  }

  predicate ProperWords(table: seq<Entry>) {
    DistinctWords(table) && forall i :: 0 <= i < |table| ==> table[i].word != ""
  }

  /** The same entries in another order. */
  ghost predicate Rearranged(table: seq<Entry>, table': seq<Entry>) {
    multiset(table') == multiset(table) && (ProperWords(table) ==> ProperWords(table'))
  }

  lemma RearrangedKeeps(was: seq<Entry>, table: seq<Entry>)
    requires Rearranged(was, table) && ProperWords(was)
    ensures ProperWords(table) && multiset(table) == multiset(was)
  {
  }

  lemma SwapRearranges(table: seq<Entry>, was: seq<Entry>, p: nat, q: nat)
    requires p < q < |table| && Rearranged(was, table)
    ensures Rearranged(was, Swapped(table, p, q))
  {
  }

  class List {
    var head: Node                // the dummy
    ghost var nodes: seq<Node>    // the dummy and the nodes behind it
    ghost var table: seq<Entry>   // the words behind the dummy
    ghost var Repr: set<Node>

    ghost predicate Linked()
      reads `head, `nodes, nodes`next
    {
      && nodes != [] && head == nodes[0]
      && (forall i, j :: 0 <= i < j < |nodes| ==> nodes[i] != nodes[j])
      && (forall i {:trigger nodes[i].next} :: 0 <= i < |nodes| ==>
            nodes[i].next == if i + 1 < |nodes| then nodes[i + 1] else null)
    }

    ghost predicate Carries()
      reads `nodes, `table, nodes`word, nodes`freq
    {
      && |nodes| == |table| + 1 && nodes[0].word == ""
      && forall i :: 0 <= i < |table| ==> nodes[i + 1].word == table[i].word && nodes[i + 1].freq == table[i].freq
    }

    ghost predicate Valid()
      reads this, Repr
    {
      && (forall i :: 0 <= i < |nodes| ==> nodes[i] in Repr)
      && Linked() && Carries()
      && ProperWords(table)
    }

    constructor ()
      ensures Valid() && table == [] && fresh(Repr)
    {
      head := new Node("", INT_MAX);
      new;
      nodes, table, Repr := [head], [], {head};
    }

    lemma Successor(k: nat)
      requires Linked() && Carries() && k < |nodes|
      ensures nodes[k].next == if k + 1 < |nodes| then nodes[k + 1] else null
      ensures k > 0 ==> nodes[k].word == table[k - 1].word && nodes[k].freq == table[k - 1].freq
      ensures |nodes| == |table| + 1
    {
    }

    /** The walk of insert: to the node in front of the word, or to the last node. */
    method Walk(word: string) returns (cur: Node, ghost k: nat)
      requires Linked() && Carries() && DistinctWords(table)
      ensures k == IndexOf(table, word) && k < |nodes| && cur == nodes[k]
      ensures cur.next != null ==> cur.next.word == word
      ensures cur.next != null <==> k < |table|
    {
      Successor(0);
      HeadIsDummy();
      hide Linked, Carries;
      cur := head;
      k := 0;
      while cur.next != null && cur.next.word != word
        invariant k <= |table| && |nodes| == |table| + 1 && cur == nodes[k]
        invariant forall i :: 0 <= i < k ==> table[i].word != word
        invariant Linked() && Carries()
        decreases |nodes| - k
        modifies {}
      {
        Successor(k);
        Successor(k + 1);
        cur := cur.next;
        k := k + 1;
      }
      Successor(k);
      if k < |table| {
        Successor(k + 1);
        IndexOfIs(table, word, k);
      }
    }

    lemma HeadIsDummy()
      requires Linked() && Carries()
      ensures head == nodes[0] && head.word == ""
    {
    }

    /** insert. */
    method Insert(word: string, freq: int)
      requires Valid() && word != ""
      modifies this, Repr
      ensures Valid() && fresh(Repr - old(Repr))
      ensures table == Inserted(old(table), word, freq)
    {
      hide FreqOf;
      InsertedCounts(table, word, freq, word);
      var cur;
      ghost var k;
      cur, k := Walk(word);
      Successor(k);
      HeadIsDummy();
      if cur.next != null && cur.next.word == word {
        Successor(k + 1);
        cur.next.freq := cur.next.freq + freq;
        table := Inserted(table, word, freq);
        return;
      }
      if cur.word == word {
        // Only the dummy could match here, and no word is empty.
        assert false;
      }
      Append(cur, word, freq);
    }

    /** Hang a new node behind the last one. */
    method Append(cur: Node, word: string, freq: int)
      requires Valid() && cur == nodes[|table|] && word != ""
      requires DistinctWords(table + [Entry(word, freq)])
      modifies this, Repr
      ensures Valid() && fresh(Repr - old(Repr))
      ensures table == old(table) + [Entry(word, freq)]
    {
      var newNode := new Node(word, freq);
      newNode.prev := cur;
      newNode.next := cur.next;
      cur.next := newNode;
      nodes, table, Repr := nodes + [newNode], table + [Entry(word, freq)], Repr + {newNode};
    }

    /** swap: exchange what two nodes carry. */
    method Swap(a: Node, b: Node, ghost p: nat, ghost q: nat)
      requires Linked() && Carries() && p < q < |table| && a == nodes[p + 1] && b == nodes[q + 1]
      modifies `table, a`word, a`freq, b`word, b`freq
      ensures Linked() && Carries() && table == Swapped(old(table), p, q)
    {
      var aWord, aFreq := a.word, a.freq;
      a.freq := b.freq;
      a.word := b.word;
      b.freq := aFreq;
      b.word := aWord;
      table := Swapped(table, p, q);
    }

    /** The body of the inner loop of sort. */
    method CompareAndSwap(cur: Node, idx: Node, ghost p: nat, ghost q: nat, ghost was: seq<Entry>)
      requires Linked() && Carries() && p < q < |table| && cur == nodes[p + 1] && idx == nodes[q + 1]
      requires Settled(table, p) && FirstBefore(table, p, q) && Rearranged(was, table)
      modifies `table, cur`word, cur`freq, idx`word, idx`freq
      ensures Linked() && Carries() && |table| == old(|table|)
      ensures Settled(table, p) && FirstBefore(table, p, q + 1) && Rearranged(was, table)
    {
      Successor(p + 1);
      Successor(q + 1);
      hide Linked, Carries, Settled, FirstBefore, Swapped, Before, StrCmp, Rearranged;
      BeforeByComparison(table[q], table[p]);
      if cur.freq < idx.freq || (cur.freq == idx.freq && StrCmp(cur.word, idx.word) > 0) {
        SwapSettles(table, p, q);
        SwapRearranges(table, was, p, q);
        Swap(cur, idx, p, q);
      } else {
        KeepSettles(table, p, q);
      }
    }

    /** The inner loop of sort. */
    method Pass(cur: Node, ghost p: nat)
      requires Linked() && Carries() && p < |table| && cur == nodes[p + 1] && Settled(table, p)
      modifies `table, nodes`word, nodes`freq
      ensures Linked() && Carries() && Settled(table, p + 1)
      ensures Rearranged(old(table), table)
    {
      assert Rearranged(table, table);
      Successor(p + 1);
      NothingBetween(table, p);
      hide Linked, Carries, Settled, FirstBefore, Swapped, Before, StrCmp, Rearranged;
      var idx := cur.next;
      ghost var q := p + 1;
      while idx != null
        invariant p < q <= |table| && |nodes| == |table| + 1 && idx == if q < |table| then nodes[q + 1] else null
        invariant Linked() && Carries() && Settled(table, p) && FirstBefore(table, p, q)
        invariant Rearranged(old(table), table)
        decreases |table| - q
      {
        Successor(q + 1);
        CompareAndSwap(cur, idx, p, q, old(table));
        idx := idx.next;
        q := q + 1;
      }
      PassSettles(table, p);
    }

    /** sort: exchange sort into reporting order. */
    method Sort()
      requires Valid() && table != []
      modifies `table, nodes`word, nodes`freq
      ensures Valid()
      ensures multiset(table) == multiset(old(table)) && Settled(table, |table|)
    {
      assert Settled(table, 0) && Rearranged(table, table);
      Successor(0);
      HeadIsDummy();
      hide Settled, Linked, Carries, Rearranged, ProperWords;
      var cur := head.next;
      ghost var p := 0;
      Successor(1);
      while cur.next != null
        invariant p < |table| && |nodes| == |table| + 1 && cur == nodes[p + 1]
        invariant Linked() && Carries() && Settled(table, p)
        invariant Rearranged(old(table), table)
        decreases |table| - p
      {
        Successor(p + 1);
        Pass(cur, p);
        Successor(p + 1);
        cur := cur.next;
        p := p + 1;
      }
      Successor(p + 1);
      LastSettles(table, p);
      RearrangedKeeps(old(table), table);
    }
  }

  /** The comparison that sort makes is the reporting order. */
  lemma BeforeByComparison(later: Entry, earlier: Entry)
    ensures Before(later, earlier) <==>
      earlier.freq < later.freq || (earlier.freq == later.freq && StrCmp(earlier.word, later.word) > 0)
  {
    StrCmpIsDictionary(later.word, earlier.word);
    StrCmpFlips(earlier.word, later.word);
  }
}
