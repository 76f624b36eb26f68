/** What the avoid argument of rm_init decides: whether threads can deadlock, and when they can without it. */
module Avoidance {
  import opened Collections
  import opened Vectors
  import opened Banker
  import opened Protocol
  import opened ProtocolInvariant
  import opened DeadlockTheorems

  /** Some run from here ends with deadlocked threads. */
  ghost predicate CanDeadlock(s: State) {
    exists run, end :: Leads(s, run, end) && DeadlockedThreads(end) != {}
  }

  /** Two instances, of the same type or of different ones. */
  predicate TwoInstances(stock: Vector) {
    || (exists j :: 0 <= j < |stock| && stock[j] >= 2)
    || (exists j, k :: 0 <= j < k < |stock| && stock[j] >= 1 && stock[k] >= 1)
  }

  // ----- two instances are needed ---------------------------------------------------------------

  /** What a deadlocked thread waits for, another deadlocked thread has. */
  lemma HeldByOther(s: State, d: set<int>, t: int) returns (j: nat, holder: int)
    requires Invariant(s) && Stuck(Pending(s), d) && t in d
    ensures j < s.M() && holder in d && holder != t && IsThread(s, holder) && s.allocation[holder][j] > 0
  {
    BookedWellFormed(s);
    assert Accounted(s, t);
    var l := Pending(s);
    j :| 0 <= j < s.M() && l.wants[t][j] > Work(l, Threads(l) - d, j);
    var others := Range(s.N()) - {t};
    ColumnSumAdd(s.allocation, others, t, s.N(), j);
    assert others + {t} == Range(s.N());
    assert s.maxDemand[t][j] == s.need[t][j] + s.allocation[t][j];
    if forall i :: i in d && i != t ==> s.allocation[i][j] == 0 {
      ColumnSumIgnoresZeros(s.allocation, Threads(l) - d, others, s.N(), j);
      assert false;
    }
    holder :| holder in d && holder != t && s.allocation[holder][j] != 0;
    assert Accounted(s, holder);
  }

  /** Two threads cannot hold more than there is. */
  lemma HeldTogether(s: State, a: int, b: int, j: nat)
    requires Invariant(s) && IsThread(s, a) && IsThread(s, b) && a != b && j < s.M()
    ensures s.allocation[a][j] + s.allocation[b][j] <= s.existing[j]
    ensures s.allocation[a][j] <= s.existing[j]
  {
    BookedWellFormed(s);
    EmptySum(s.allocation, s.N(), j);
    ColumnSumAdd(s.allocation, {}, a, s.N(), j);
    ColumnSumAdd(s.allocation, {a}, b, s.N(), j);
    assert {} + {a} == {a};
    ColumnSumMonotone(s.allocation, {a} + {b}, Range(s.N()), s.N(), j);
    ColumnSumMonotone(s.allocation, {a}, Range(s.N()), s.N(), j);
  }

  lemma DeadlockTakesTwo(s: State)
    requires Invariant(s) && DeadlockedThreads(s) != {}
    ensures s.N() >= 2 && TwoInstances(s.existing)
  {
    BookedWellFormed(s);
    DeadlockedIsLargestStuck(Pending(s));
    var d := DeadlockedThreads(s);
    assert d <= Range(s.N());
    hide Invariant, Stuck, DeadlockedThreads;
    var t := Pick(d);
    var j, first := HeldByOther(s, d, t);
    var k, second := HeldByOther(s, d, first);
    HeldTogether(s, first, second, j);
    HeldTogether(s, second, first, k);
    assert j != k || s.existing[j] >= 2;
  }

  // ----- two instances are enough ---------------------------------------------------------------

  /** One instance of type `j`. */
  function One(m: nat, j: nat): (v: Vector)
    ensures |v| == m && forall i :: 0 <= i < m ==> v[i] == if i == j then 1 else 0
  {
    seq(m, i => if i == j then 1 else 0)
  }

  /** With avoidance off, an empty-handed thread claims everything and is granted what is there. */
  lemma TakeSome(s: State, t: int, r: Vector) returns (run: seq<Action>, end: State)
    requires Invariant(s) && s.mode == 0 && IsThread(s, t) && s.phase[t] == Idle && !Holds(s, t)
    requires |r| == s.M() && NonNegative(r) && AtMost(r, s.available) && AtMost(r, s.existing)
    ensures Leads(s, run, end) && Invariant(end) && end.mode == 0 && end.existing == s.existing
    ensures end.available == Minus(s.available, r) && end.phase == s.phase
    ensures end.allocation == s.allocation[t := r]
    ensures end.need == s.need[t := Minus(s.existing, r)]
  {
    var claim, ask := Claim(t, s.existing), Request(t, r);
    assert NonNegative(s.existing) by {
      assert Accounted(s, t);
      assert forall j :: 0 <= j < s.M() ==> s.maxDemand[t][j] == s.need[t][j] + s.allocation[t][j];
    }
    StepInvariant(s, claim);
    var mid := Do(s, claim);
    StepInvariant(mid, ask);
    end := Do(mid, ask);
    assert Plus(Zeros(s.M()), r) == r;
    LeadsOne(s, claim);
    LeadsOne(mid, ask);
    LeadsConcat(s, [claim], mid, [ask], end);
    run := [claim] + [ask];
  }

  /** Thread 0 has an instance of type `j`, thread 1 one of type `k`, and both may still ask for the rest. */
  lemma EachHasOne(s: State, j: nat, k: nat)
    requires Invariant(s) && s.N() >= 2 && j < s.M() && k < s.M()
    requires s.available == Minus(Minus(s.existing, One(s.M(), j)), One(s.M(), k))
    requires s.need[0] == Minus(s.existing, One(s.M(), j)) && s.need[1] == Minus(s.existing, One(s.M(), k))
    requires forall i :: 2 <= i < s.N() ==> !Holds(s, i)
    ensures !Safe(Needs(s))
  {
    BookedWellFormed(s);
    var l, d := Needs(s), {0, 1};
    var rest := Threads(l) - d;
    forall i | i in rest ensures l.held[i] == Zeros(s.M()) {
      assert !Holds(s, i);
    }
    forall i | 0 <= i < s.M() ensures Work(l, rest, i) == s.available[i] {
      ColumnSumIgnoresZeros(l.held, rest, {}, s.N(), i);
      EmptySum(l.held, s.N(), i);
    }
    assert l.wants[0][k] > Work(l, rest, k) && l.wants[1][j] > Work(l, rest, j);
    assert Stuck(l, d);
    SafeIffNoStuckSet(l);
    assert 0 in d;
  }

  lemma OneEach(existing: Vector, j: nat, k: nat)
    requires NonNegative(existing) && j < |existing| && k < |existing|
    requires if j == k then existing[j] >= 2 else existing[j] >= 1 && existing[k] >= 1
    ensures AtMost(One(|existing|, j), existing) && AtMost(One(|existing|, k), existing)
    ensures AtMost(One(|existing|, k), Minus(existing, One(|existing|, j)))
  {
  }

  lemma EachTakesOne(n: nat, existing: Vector, j: nat, k: nat) returns (run: seq<Action>, both: State)
    requires NonNegative(existing) && n >= 2 && j < |existing| && k < |existing|
    requires if j == k then existing[j] >= 2 else existing[j] >= 1 && existing[k] >= 1
    ensures Leads(Initial(n, existing, 0), run, both) && Invariant(both) && !Safe(Needs(both))
  {
    var s := Initial(n, existing, 0);
    var u, v := One(|existing|, j), One(|existing|, k);
    InitialInvariant(n, existing, 0);
    OneEach(existing, j, k);
    hide Invariant, Leads, One, Minus;
    var first, mid := TakeSome(s, 0, u);
    var second;
    second, both := TakeSome(mid, 1, v);
    EachHasOne(both, j, k);
    LeadsConcat(s, first, mid, second, both);
    run := first + second;
  }

  lemma TwoCanDeadlock(n: nat, existing: Vector, j: nat, k: nat)
    requires NonNegative(existing) && n >= 2 && j < |existing| && k < |existing|
    requires if j == k then existing[j] >= 2 else existing[j] >= 1 && existing[k] >= 1
    ensures CanDeadlock(Initial(n, existing, 0))
  {
    var run, both := EachTakesOne(n, existing, j, k);
    var rest, end := UnsafeCanDeadlock(both);
    LeadsConcat(Initial(n, existing, 0), run, both, rest, end);
  }

  /**
   * With avoidance on, threads never deadlock. With avoidance off they can, exactly when
   * there are two of them and two instances.
   */
  lemma CanDeadlockIff(n: nat, existing: Vector, mode: int)
    requires NonNegative(existing) && (mode == 0 || mode == 1)
    ensures CanDeadlock(Initial(n, existing, mode)) <==> mode == 0 && n >= 2 && TwoInstances(existing)
  {
    var s := Initial(n, existing, mode);
    InitialInvariant(n, existing, mode);
    if CanDeadlock(s) {
      var run, end :| Leads(s, run, end) && DeadlockedThreads(end) != {};
      RunInvariant(s, run, end);
      RunBooked(s, run, end);
      if mode == 1 {
        AvoidanceExcludesDeadlock(end);
      }
      DeadlockTakesTwo(end);
    }
    if mode == 0 && n >= 2 && TwoInstances(existing) {
      if j :| 0 <= j < |existing| && existing[j] >= 2 {
        TwoCanDeadlock(n, existing, j, j);
      } else {
        var j, k :| 0 <= j < k < |existing| && existing[j] >= 1 && existing[k] >= 1;
        TwoCanDeadlock(n, existing, j, k);
      }
    }
  }
}
