/**
 * Dijkstra's reduction argument, shared by the safety test (threads want their
 * remaining need) and by deadlock detection (threads want their pending request).
 */
module Banker {
  import opened Collections
  import opened Vectors

  /** What is free, what each thread holds, and what each thread still wants. */
  datatype Ledger = Ledger(free: Vector, held: Matrix, wants: Matrix)

  predicate Shaped(l: Ledger) {
    && IsMatrix(l.held, |l.held|, |l.free|)
    && IsMatrix(l.wants, |l.held|, |l.free|)
  }

  /** Nobody holds a negative amount. */
  predicate WellFormed(l: Ledger) {
    Shaped(l) && forall i :: 0 <= i < |l.held| ==> NonNegative(l.held[i])
  }

  ghost function Threads(l: Ledger): set<int> {
    Range(|l.held|)
  }

  /** How much of resource `j` there is once the threads in `done` have returned everything. */
  ghost function Work(l: Ledger, done: set<int>, j: nat): int
    requires Shaped(l) && j < |l.free|
  {
    l.free[j] + ColumnSum(l.held, done, |l.held|, j)
  }

  lemma WorkAdd(l: Ledger, done: set<int>, x: int, j: nat)
    requires Shaped(l) && j < |l.free| && 0 <= x < |l.held| && x !in done
    ensures Work(l, done + {x}, j) == Work(l, done, j) + l.held[x][j]
  {
    ColumnSumAdd(l.held, done, x, |l.held|, j);
  }

  ghost predicate Fits(l: Ledger, i: int, done: set<int>)
    requires Shaped(l) && 0 <= i < |l.held|
  {
    forall j :: 0 <= j < |l.free| ==> l.wants[i][j] <= Work(l, done, j)
  }

  ghost function Elements(order: seq<int>): set<int> {
    set x | x in order
  }

  /** Distinct threads, each of which can be served from the work its predecessors leave. */
  ghost predicate ServableOrder(l: Ledger, order: seq<int>)
    requires Shaped(l)
  {
    && (forall k :: 0 <= k < |order| ==> 0 <= order[k] < |l.held|)
    && (forall k, k' :: 0 <= k < k' < |order| ==> order[k] != order[k'])
    && forall k :: 0 <= k < |order| ==> Fits(l, order[k], Elements(order[..k]))
  }

  /** All threads can be served, one after the other. */
  ghost predicate Safe(l: Ledger)
    requires Shaped(l)
  {
    exists order :: ServableOrder(l, order) && Elements(order) == Threads(l)
  }

  /** No member of `d` can be served even if all threads outside `d` return everything. */
  ghost predicate Stuck(l: Ledger, d: set<int>)
    requires Shaped(l)
  {
    && d <= Threads(l)
    && forall i :: i in d ==> !Fits(l, i, Threads(l) - d)
  }

  /** The threads that belong to some stuck set. */
  ghost function Deadlocked(l: Ledger): set<int>
    requires Shaped(l)
  {
    set i | i in Threads(l) && exists d :: Stuck(l, d) && i in d
  }

  lemma FitsMonotone(l: Ledger, i: int, fewer: set<int>, more: set<int>)
    requires WellFormed(l) && 0 <= i < |l.held| && fewer <= more
    requires Fits(l, i, fewer)
    ensures Fits(l, i, more)
  {
    forall j | 0 <= j < |l.free| ensures l.wants[i][j] <= Work(l, more, j) {
      ColumnSumMonotone(l.held, fewer, more, |l.held|, j);
    }
  }

  /** The deadlocked threads form a stuck set, and it contains every other one. */
  lemma DeadlockedIsLargestStuck(l: Ledger)
    requires WellFormed(l)
    ensures Stuck(l, Deadlocked(l))
    ensures forall d :: Stuck(l, d) ==> d <= Deadlocked(l)
  {
    var all := Deadlocked(l);
    forall i | i in all ensures !Fits(l, i, Threads(l) - all) {
      var d :| Stuck(l, d) && i in d;
      assert d <= all;
      if Fits(l, i, Threads(l) - all) {
        FitsMonotone(l, i, Threads(l) - all, Threads(l) - d);
      }
    }
  }

  /** A servable order cannot touch a stuck set: its first member there would have to fit. */
  lemma {:induction false} OrderAvoidsStuck(l: Ledger, order: seq<int>, d: set<int>, k: nat)
    requires WellFormed(l) && ServableOrder(l, order) && Stuck(l, d) && k <= |order|
    ensures Elements(order[..k]) !! d
  {
    if k > 0 {
      OrderAvoidsStuck(l, order, d, k - 1);
      var before := Elements(order[..k - 1]);
      assert order[..k] == order[..k - 1] + [order[k - 1]];
      forall x | x in before ensures x in Threads(l) - d {
        assert x in order[..k - 1];
      }
      if order[k - 1] in d {
        FitsMonotone(l, order[k - 1], before, Threads(l) - d);
      }
    }
  }

  /** Appending a new thread that fits keeps an order servable, whichever such thread is taken. */
  lemma ExtendOrder(l: Ledger, order: seq<int>, x: int)
    requires WellFormed(l) && ServableOrder(l, order)
    requires x in Threads(l) && x !in Elements(order) && Fits(l, x, Elements(order))
    ensures ServableOrder(l, order + [x])
    ensures Elements(order + [x]) == Elements(order) + {x}
  {
    var longer := order + [x];
    forall k | 0 <= k < |longer| ensures Fits(l, longer[k], Elements(longer[..k])) {
      assert longer[..k] == order[..k];
      assert order[..|order|] == order;
    }
  }

  /**
   * When nobody outside a servable order fits, the rest is exactly the deadlocked set.
   * So every way of picking threads ends with the same answer.
   */
  lemma MaximalOrderLeavesDeadlocked(l: Ledger, order: seq<int>)
    requires WellFormed(l) && ServableOrder(l, order)
    requires forall x :: x in Threads(l) - Elements(order) ==> !Fits(l, x, Elements(order))
    ensures Deadlocked(l) == Threads(l) - Elements(order)
  {
    var rest := Threads(l) - Elements(order);
    forall x | x in Elements(order) ensures x in Threads(l) {
      assert x in order;
    }
    assert Threads(l) - rest == Elements(order);
    assert Stuck(l, rest);
    DeadlockedIsLargestStuck(l);
    OrderAvoidsStuck(l, order, Deadlocked(l), |order|);
    assert order[..|order|] == order;
  }

  /** Every servable order extends to one that stops at the deadlocked set. */
  lemma {:induction false} CompleteOrder(l: Ledger, order: seq<int>) returns (full: seq<int>)
    requires WellFormed(l) && ServableOrder(l, order)
    ensures order <= full && ServableOrder(l, full)
    ensures Elements(full) == Threads(l) - Deadlocked(l)
    decreases |Threads(l) - Elements(order)|
  {
    if x :| x in Threads(l) - Elements(order) && Fits(l, x, Elements(order)) {
      ExtendOrder(l, order, x);
      assert x in Threads(l) - Elements(order);
      SubsetSize(Threads(l) - Elements(order + [x]), Threads(l) - Elements(order));
      full := CompleteOrder(l, order + [x]);
    } else {
      MaximalOrderLeavesDeadlocked(l, order);
      full := order;
      forall x | x in order ensures x in Threads(l) { }
    }
  }

  /** Safety is exactly the absence of deadlock: some full order exists iff no thread is stuck. */
  lemma SafeIffNoneDeadlocked(l: Ledger)
    requires WellFormed(l)
    ensures Safe(l) <==> Deadlocked(l) == {}
  {
    var full := CompleteOrder(l, []);
    if Safe(l) {
      var order :| ServableOrder(l, order) && Elements(order) == Threads(l);
      MaximalOrderLeavesDeadlocked(l, order);
    }
  }

  /** A safe ledger has no nonempty stuck set, and the other way round. */
  lemma SafeIffNoStuckSet(l: Ledger)
    requires WellFormed(l)
    ensures Safe(l) <==> forall d :: Stuck(l, d) ==> d == {}
  {
    SafeIffNoneDeadlocked(l);
    DeadlockedIsLargestStuck(l);
  }

  /** A safe ledger with nonnegative wants never overdraws what is free. */
  lemma SafeImpliesFree(l: Ledger)
    requires WellFormed(l) && |l.held| > 0
    requires forall i :: 0 <= i < |l.wants| ==> NonNegative(l.wants[i])
    requires Safe(l)
    ensures NonNegative(l.free)
  {
    var order :| ServableOrder(l, order) && Elements(order) == Threads(l);
    assert 0 in Threads(l);
    assert 0 in order;
    assert Elements(order[..0]) == {};
    forall j | 0 <= j < |l.free| ensures 0 <= l.free[j] {
      assert Fits(l, order[0], {});
      EmptySum(l.held, |l.held|, j);
      assert l.wants[order[0]][j] <= Work(l, {}, j);
      assert NonNegative(l.wants[order[0]]);
    }
  }

  lemma {:induction false} EmptySum(a: Matrix, n: nat, j: nat)
    requires n <= |a| && forall i :: 0 <= i < n ==> j < |a[i]|
    ensures ColumnSum(a, {}, n, j) == 0
  {
    if n > 0 {
      EmptySum(a, n - 1, j);
    }
  }

  /** Hand `r` to thread `t`, which then wants `row`. */
  function Move(l: Ledger, t: int, r: Vector, row: Vector): (l': Ledger)
    requires Shaped(l) && 0 <= t < |l.held| && |r| == |row| == |l.free|
    ensures Shaped(l')
  {
    Ledger(Minus(l.free, r), l.held[t := Plus(l.held[t], r)], l.wants[t := row])
  }

  /** What moves to `t` only leaves the work of those sets that do not contain `t`. */
  lemma WorkAfterMove(l: Ledger, t: int, r: Vector, row: Vector, done: set<int>, j: nat)
    requires Shaped(l) && 0 <= t < |l.held| && |r| == |row| == |l.free| && j < |l.free|
    ensures Work(Move(l, t, r, row), done, j) == Work(l, done, j) - if t in done then 0 else r[j]
  {
    ColumnSumUpdate(l.held, t, Plus(l.held[t], r), done, |l.held|, j);
  }

  /** Moving resources to a thread outside `d` changes nothing for `d`. */
  lemma StuckAfterMoveOutside(l: Ledger, t: int, r: Vector, row: Vector, d: set<int>)
    requires Shaped(l) && 0 <= t < |l.held| && |r| == |row| == |l.free| && t !in d
    ensures Stuck(Move(l, t, r, row), d) <==> Stuck(l, d)
  {
    var l' := Move(l, t, r, row);
    if d <= Threads(l) {
      var rest := Threads(l) - d;
      forall i | i in d ensures Fits(l, i, rest) <==> Fits(l', i, rest) {
        assert l'.wants[i] == l.wants[i];
        forall j | 0 <= j < |l.free| ensures Work(l', rest, j) == Work(l, rest, j) {
          WorkAfterMove(l, t, r, row, rest, j);
        }
      }
    }
  }

  /** Hand `r` to thread `t` against what it wants. */
  function Grant(l: Ledger, t: int, r: Vector): (l': Ledger)
    requires Shaped(l) && 0 <= t < |l.held| && |r| == |l.free|
    ensures Shaped(l')
  {
    Move(l, t, r, Minus(l.wants[t], r))
  }

  lemma GrantWellFormed(l: Ledger, t: int, r: Vector)
    requires WellFormed(l) && 0 <= t < |l.held| && |r| == |l.free| && NonNegative(r)
    ensures WellFormed(Grant(l, t, r))
    ensures forall j :: 0 <= j < |l.free| ==>
      Work(Grant(l, t, r), Threads(l), j) == Work(l, Threads(l), j)
  {
    forall j | 0 <= j < |l.free|
      ensures Work(Grant(l, t, r), Threads(l), j) == Work(l, Threads(l), j)
    {
      WorkAfterMove(l, t, r, Minus(l.wants[t], r), Threads(l), j);
    }
  }

  lemma GrantsCommute(l: Ledger, t: int, r: Vector, w: int, q: Vector)
    requires Shaped(l) && 0 <= t < |l.held| && 0 <= w < |l.held| && t != w
    requires |r| == |q| == |l.free|
    ensures Grant(Grant(l, t, r), w, q) == Grant(Grant(l, w, q), t, r)
  {
  }

  /** A grant never unblocks a stuck set. */
  lemma GrantKeepsStuck(l: Ledger, t: int, r: Vector, d: set<int>)
    requires Shaped(l) && 0 <= t < |l.held| && |r| == |l.free| && NonNegative(r)
    requires Stuck(l, d)
    ensures Stuck(Grant(l, t, r), d)
  {
    if t !in d {
      StuckAfterMoveOutside(l, t, r, Minus(l.wants[t], r), d);
    } else {
      var l', rest := Grant(l, t, r), Threads(l) - d;
      forall i | i in d ensures !Fits(l', i, rest) {
        var j :| 0 <= j < |l.free| && l.wants[i][j] > Work(l, rest, j);
        WorkAfterMove(l, t, r, Minus(l.wants[t], r), rest, j);
        assert l'.wants[i][j] > Work(l', rest, j);
      }
    }
  }

  /** Taking a grant back, whole or in part, keeps a safe ledger safe. */
  lemma UndoneGrantIsSafe(l: Ledger, t: int, r: Vector)
    requires WellFormed(l) && 0 <= t < |l.held| && |r| == |l.free| && NonNegative(r)
    requires Safe(Grant(l, t, r))
    ensures Safe(l)
  {
    SafeIffNoStuckSet(l);
    SafeIffNoStuckSet(Grant(l, t, r));
    forall d | Stuck(l, d) ensures d == {} {
      GrantKeepsStuck(l, t, r, d);
    }
  }

  lemma WorkWithoutEmptyHanded(l: Ledger, t: int, done: set<int>, j: nat)
    requires Shaped(l) && 0 <= t < |l.held| && l.held[t] == Zeros(|l.free|) && j < |l.free|
    ensures Work(l, done - {t}, j) == Work(l, done, j) == Work(l, done + {t}, j)
  {
    ColumnSumIgnoresZeros(l.held, done - {t}, done, |l.held|, j);
    ColumnSumIgnoresZeros(l.held, done + {t}, done, |l.held|, j);
  }

  /** A thread that holds nothing is not what keeps the others stuck, whatever it wants. */
  lemma StuckWithoutEmptyHanded(l: Ledger, t: int, row: Vector, d: set<int>)
    requires Shaped(l) && 0 <= t < |l.held| && |row| == |l.free|
    requires l.held[t] == Zeros(|l.free|)
    requires Stuck(l, d)
    ensures Stuck(l.(wants := l.wants[t := row]), d - {t})
  {
    var l', d' := l.(wants := l.wants[t := row]), d - {t};
    var rest, rest' := Threads(l) - d, Threads(l) - d';
    assert rest' == if t in d then rest + {t} else rest;
    forall i | i in d' ensures !Fits(l', i, rest') {
      var j :| 0 <= j < |l.free| && l.wants[i][j] > Work(l, rest, j);
      WorkWithoutEmptyHanded(l, t, rest, j);
      assert l'.wants[i][j] > Work(l', rest', j);
    }
  }

  /** What a thread wants is irrelevant while it holds nothing and the whole stock covers it. */
  lemma WantsOfEmptyHanded(l: Ledger, t: int, row: Vector)
    requires WellFormed(l) && 0 <= t < |l.held| && |row| == |l.free|
    requires l.held[t] == Zeros(|l.free|)
    requires Fits(l, t, Threads(l))
    requires Safe(l.(wants := l.wants[t := row]))
    ensures Safe(l)
  {
    SafeIffNoStuckSet(l);
    SafeIffNoStuckSet(l.(wants := l.wants[t := row]));
    assert Fits(l, t, Threads(l) - {t}) by {
      forall j | 0 <= j < |l.free| ensures Work(l, Threads(l) - {t}, j) == Work(l, Threads(l), j) {
        WorkWithoutEmptyHanded(l, t, Threads(l), j);
      }
    }
    forall d | Stuck(l, d) ensures d == {} {
      StuckWithoutEmptyHanded(l, t, row, d);
      assert d == {} || d == {t};
    }
  }

  /** Someone in a nonempty set that is not stuck wants no more than is free, if the others hold nothing. */
  lemma SomeoneFitsFree(l: Ledger, d: set<int>) returns (i: int)
    requires WellFormed(l) && d <= Threads(l)
    requires forall k :: k in Threads(l) - d ==> l.held[k] == Zeros(|l.free|)
    requires !Stuck(l, d)
    ensures i in d && AtMost(l.wants[i], l.free)
  {
    i :| i in d && Fits(l, i, Threads(l) - d);
    forall j | 0 <= j < |l.free| ensures l.wants[i][j] <= l.free[j] {
      ColumnSumIgnoresZeros(l.held, Threads(l) - d, {}, |l.held|, j);
      EmptySum(l.held, |l.held|, j);
    }
  }

  /** Granting to a thread whose entire need is free keeps a safe ledger safe. */
  lemma GrantToCoveredIsSafe(l: Ledger, t: int, r: Vector)
    requires WellFormed(l) && 0 <= t < |l.held| && |r| == |l.free| && NonNegative(r)
    requires AtMost(l.wants[t], l.free)
    requires Safe(l)
    ensures Safe(Grant(l, t, r))
  {
    var l' := Grant(l, t, r);
    SafeIffNoStuckSet(l);
    SafeIffNoStuckSet(l');
    forall d | Stuck(l', d) ensures d == {} {
      if t in d {
        var j :| 0 <= j < |l.free| && l'.wants[t][j] > Work(l', Threads(l) - d, j);
        ColumnSumMonotone(l'.held, {}, Threads(l) - d, |l.held|, j);
        assert false;
      }
      StuckAfterMoveOutside(l, t, r, Minus(l.wants[t], r), d);
    }
  }

  /** The larger the wants, the larger the stuck sets. */
  lemma StuckMonotoneInWants(l: Ledger, wants: Matrix, d: set<int>)
    requires Shaped(l) && IsMatrix(wants, |l.held|, |l.free|)
    requires forall i :: 0 <= i < |l.held| ==> AtMost(l.wants[i], wants[i])
    requires Stuck(l, d)
    ensures Stuck(l.(wants := wants), d)
  {
    var l' := l.(wants := wants);
    forall i | i in d ensures !Fits(l', i, Threads(l) - d) {
      var j :| 0 <= j < |l.free| && l.wants[i][j] > Work(l, Threads(l) - d, j);
      assert wants[i][j] > Work(l', Threads(l) - d, j);
    }
  }

  // ----- lowest index first -------------------------------------------------------------------

  /** `x` is the lowest thread outside `done` that fits. */
  ghost predicate LowestFit(l: Ledger, x: int, done: set<int>)
    requires Shaped(l)
  {
    && 0 <= x < |l.held| && x !in done && Fits(l, x, done)
    && forall y :: 0 <= y < x && y !in done ==> !Fits(l, y, done)
  }

  /** The order in which the reduction serves threads: always the lowest that fits. */
  ghost predicate GreedyOrder(l: Ledger, order: seq<int>)
    requires Shaped(l)
  {
    forall k :: 0 <= k < |order| ==> LowestFit(l, order[k], Elements(order[..k]))
  }

  /** The reduction serves all threads. */
  ghost predicate Passes(l: Ledger)
    requires Shaped(l)
  {
    exists order :: GreedyOrder(l, order) && Elements(order) == Threads(l)
  }

  lemma ExtendGreedy(l: Ledger, order: seq<int>, x: int)
    requires Shaped(l) && GreedyOrder(l, order) && LowestFit(l, x, Elements(order))
    ensures GreedyOrder(l, order + [x]) && Elements(order + [x]) == Elements(order) + {x}
  {
    var longer := order + [x];
    forall k | 0 <= k < |longer| ensures LowestFit(l, longer[k], Elements(longer[..k])) {
      assert longer[..k] == order[..k];
      assert order[..|order|] == order;
    }
  }

  lemma GreedyIsServable(l: Ledger, order: seq<int>)
    requires Shaped(l) && GreedyOrder(l, order)
    ensures ServableOrder(l, order)
  {
    forall k, k' | 0 <= k < k' < |order| ensures order[k] != order[k'] {
      assert order[k] in order[..k'];
    }
  }

  /** There is only one way to go on. */
  lemma {:induction false} GreedyIsUnique(l: Ledger, order: seq<int>, order': seq<int>, n: nat)
    requires Shaped(l) && GreedyOrder(l, order) && GreedyOrder(l, order')
    requires n <= |order| && n <= |order'|
    ensures order[..n] == order'[..n]
  {
    if n > 0 {
      GreedyIsUnique(l, order, order', n - 1);
      var x, y := order[n - 1], order'[n - 1];
      assert LowestFit(l, x, Elements(order[..n - 1])) && LowestFit(l, y, Elements(order[..n - 1]));
      assert order[..n] == order[..n - 1] + [x] && order'[..n] == order'[..n - 1] + [y];
    }
  }

  /** An order that goes on longer shows who is next. */
  lemma NextServed(l: Ledger, order: seq<int>, longer: seq<int>) returns (x: int)
    requires Shaped(l) && GreedyOrder(l, order) && GreedyOrder(l, longer) && |order| < |longer|
    ensures x in Threads(l) - Elements(order) && Fits(l, x, Elements(order))
  {
    x := longer[|order|];
    GreedyIsUnique(l, longer, order, |order|);
    assert order[..|order|] == order;
    assert LowestFit(l, x, Elements(longer[..|order|]));
  }

  /** A reduction that has come to its end tells whether all threads are served, in every ledger. */
  lemma EndOfGreedy(l: Ledger, order: seq<int>)
    requires Shaped(l) && GreedyOrder(l, order)
    requires forall x :: x in Threads(l) - Elements(order) ==> !Fits(l, x, Elements(order))
    ensures Passes(l) <==> Elements(order) == Threads(l)
  {
    if Passes(l) {
      var full :| GreedyOrder(l, full) && Elements(full) == Threads(l);
      if |full| > |order| {
        var x := NextServed(l, order, full);
        assert false;
      }
      GreedyIsUnique(l, full, order, |full|);
      assert full[..|full|] == full;
      forall x | x in full ensures x in order { }
      forall x | x in order ensures x in Threads(l) { }
    }
  }

  lemma {:induction false} FirstFitting(l: Ledger, x: int, done: set<int>) returns (y: int)
    requires Shaped(l) && 0 <= x < |l.held| && x !in done && Fits(l, x, done)
    ensures LowestFit(l, y, done)
    decreases x
  {
    if z :| 0 <= z < x && z !in done && Fits(l, z, done) {
      y := FirstFitting(l, z, done);
    } else {
      y := x;
    }
  }

  lemma {:induction false} CompleteGreedy(l: Ledger, order: seq<int>) returns (full: seq<int>)
    requires Shaped(l) && GreedyOrder(l, order)
    ensures GreedyOrder(l, full)
    ensures forall x :: x in Threads(l) - Elements(full) ==> !Fits(l, x, Elements(full))
    decreases |Threads(l) - Elements(order)|
  {
    if x :| x in Threads(l) - Elements(order) && Fits(l, x, Elements(order)) {
      var y := FirstFitting(l, x, Elements(order));
      ExtendGreedy(l, order, y);
      assert y in Threads(l) - Elements(order);
      SubsetSize(Threads(l) - Elements(order + [y]), Threads(l) - Elements(order));
      full := CompleteGreedy(l, order + [y]);
    } else {
      full := order;
    }
  }

  /** With nonnegative holdings, taking the lowest index first never loses a solution. */
  lemma PassesIffSafe(l: Ledger)
    requires WellFormed(l)
    ensures Passes(l) <==> Safe(l)
  {
    var order := CompleteGreedy(l, []);
    GreedyIsServable(l, order);
    MaximalOrderLeavesDeadlocked(l, order);
    EndOfGreedy(l, order);
    SafeIffNoneDeadlocked(l);
    forall x | x in order ensures x in Threads(l) { }
  }

  /** A negative holding breaks that: serving thread 0 first takes what thread 1 needs. */
  lemma NegativeHoldingMisleads()
    ensures Safe(Ledger([1], [[-1], [0]], [[0], [1]])) && !Passes(Ledger([1], [[-1], [0]], [[0], [1]]))
  {
    var l := Ledger([1], [[-1], [0]], [[0], [1]]);
    assert Threads(l) == {0, 1};
    forall done ensures Work(l, done, 0) == if 0 in done then 0 else 1 {
      assert ColumnSum(l.held, done, 1, 0) == if 0 in done then -1 else 0;
      assert ColumnSum(l.held, done, 2, 0) == ColumnSum(l.held, done, 1, 0);
    }
    assert Elements([]) == {} && Elements([0]) == {0} && Elements([1]) == {1} && Elements([1, 0]) == {0, 1};
    assert [1, 0][..0] == [] && [1, 0][..1] == [1] && [0][..0] == [];
    assert ServableOrder(l, [1, 0]);
    assert GreedyOrder(l, [0]);
    EndOfGreedy(l, [0]);
  }
}
