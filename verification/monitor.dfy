/**
 * The resource manager library on its arrays and matrices. Every call is proved
 * to do what `Protocol` says; a call that has to wait returns at the wait, and
 * `Resume` is the rest of it after a wake-up.
 */
module Monitor {
  import opened Collections
  import opened Vectors
  import opened Banker
  import opened Protocol
  import opened ProtocolInvariant
  import opened DeadlockTheorems
  import opened Misuse
  import opened Effects
  import opened Avoidance

  const MAXR := 100
  const MAXP := 100

  datatype Outcome = Error | Returned | Blocked

  /** Array `a` holds the entries of `m`. */
  ghost predicate Shows(a: array2<int>, m: Matrix)
    reads a
  {
    && IsMatrix(m, a.Length0, a.Length1)
    && forall i, j :: 0 <= i < a.Length0 && 0 <= j < a.Length1 ==> a[i, j] == m[i][j]
  }

  /** arrLessThan, applied to row `i` of a matrix. */
  method RowAtMost(ghost m: Matrix, a: array2<int>, i: nat, work: array<int>) returns (b: bool)
    requires Shows(a, m) && i < a.Length0 && a.Length1 == work.Length
    ensures b == AtMost(m[i], work[..])
  {
    for j := 0 to a.Length1
      invariant forall k :: 0 <= k < j ==> m[i][k] <= work[k]
    {
      if a[i, j] > work[j] {
        return false;
      }
    }
    return true;
  }

  /** The entry-by-entry check of a request, a claim or a release against row `i`. */
  method AtMostRow(v: Vector, ghost m: Matrix, a: array2<int>, i: nat) returns (b: bool)
    requires Shows(a, m) && i < a.Length0 && a.Length1 == |v|
    ensures b == AtMost(v, m[i])
  {
    for j := 0 to |v|
      invariant forall k :: 0 <= k < j ==> v[k] <= m[i][k]
    {
      if v[j] > a[i, j] {
        return false;
      }
    }
    return true;
  }

  method AtMostArray(v: Vector, a: array<int>) returns (b: bool)
    requires |v| <= a.Length
    ensures b <==> forall j :: 0 <= j < |v| ==> v[j] <= a[j]
  {
    for j := 0 to |v|
      invariant forall k :: 0 <= k < j ==> v[k] <= a[k]
    {
      if v[j] > a[j] {
        return false;
      }
    }
    return true;
  }

  // ----- the reduction loop ----------------------------------------------------------------

  /** `order` has been served, lowest first: its threads are finished and their holdings are in `work`. */
  ghost predicate Reduced(l: Ledger, order: seq<int>, work: Vector, finish: seq<bool>)
    requires Shaped(l) && |work| == |l.free| && |finish| == |l.held|
  {
    && GreedyOrder(l, order)
    && (forall i :: 0 <= i < |finish| ==> (finish[i] <==> i in Elements(order)))
    && forall j :: 0 <= j < |work| ==> work[j] == Work(l, Elements(order), j)
  }

  lemma ReductionStarts(l: Ledger, finish: seq<bool>)
    requires Shaped(l) && |finish| == |l.held| && forall i :: 0 <= i < |finish| ==> !finish[i]
    ensures Reduced(l, [], l.free, finish)
  {
    assert Elements([]) == {};
    forall j | 0 <= j < |l.free| ensures Work(l, {}, j) == l.free[j] {
      EmptySum(l.held, |l.held|, j);
    }
  }

  lemma ReductionSteps(l: Ledger, order: seq<int>, work: Vector, finish: seq<bool>, x: int)
    requires Shaped(l) && |work| == |l.free| && |finish| == |l.held|
    requires Reduced(l, order, work, finish)
    requires 0 <= x < |finish| && !finish[x] && AtMost(l.wants[x], work)
    requires forall y :: 0 <= y < x && !finish[y] ==> !AtMost(l.wants[y], work)
    ensures Reduced(l, order + [x], Plus(work, l.held[x]), finish[x := true])
    ensures |Threads(l) - Elements(order + [x])| < |Threads(l) - Elements(order)|
  {
    hide GreedyOrder, Work, Elements;
    assert LowestFit(l, x, Elements(order));
    ExtendGreedy(l, order, x);
    forall j | 0 <= j < |work|
      ensures Work(l, Elements(order + [x]), j) == Plus(work, l.held[x])[j]
    {
      WorkAdd(l, Elements(order), x, j);
    }
    assert x in Threads(l) - Elements(order);
    SubsetSize(Threads(l) - Elements(order + [x]), Threads(l) - Elements(order));
  }

  /** What is left unfinished: nobody iff the reduction passes, and the deadlocked threads if no holding is negative. */
  ghost predicate Verdict(l: Ledger, finish: seq<bool>)
    requires Shaped(l) && |finish| == |l.held|
  {
    && (Passes(l) <==> forall i :: 0 <= i < |finish| ==> finish[i])
    && (WellFormed(l) ==> forall i :: 0 <= i < |finish| ==> (finish[i] <==> i !in Deadlocked(l)))
  }

  lemma ReductionEnds(l: Ledger, order: seq<int>, work: Vector, finish: seq<bool>)
    requires Shaped(l) && |work| == |l.free| && |finish| == |l.held|
    requires Reduced(l, order, work, finish)
    requires forall x :: 0 <= x < |finish| && !finish[x] ==> !AtMost(l.wants[x], work)
    ensures Verdict(l, finish)
  {
    forall x | x in Threads(l) - Elements(order) ensures !Fits(l, x, Elements(order)) {
      assert !finish[x];
    }
    EndOfGreedy(l, order);
    GreedyIsServable(l, order);
    forall i | i in Elements(order) ensures i in Threads(l) { }
    assert Elements(order) == Threads(l) <==> forall i :: 0 <= i < |finish| ==> finish[i] by {
      assert forall i :: i in Threads(l) ==> (finish[i] <==> i in Elements(order));
    }
    if WellFormed(l) {
      MaximalOrderLeavesDeadlocked(l, order);
      assert forall i :: 0 <= i < |finish| ==> i in Threads(l);
    }
  }

  /** The lowest unfinished thread that `work` covers, or -1. */
  method FirstFit(ghost m: Matrix, wants: array2<int>, work: array<int>, finish: array<bool>) returns (x: int)
    requires Shows(wants, m) && wants.Length0 == finish.Length && wants.Length1 == work.Length
    ensures -1 <= x < finish.Length
    ensures x >= 0 ==> !finish[x] && AtMost(m[x], work[..])
    ensures forall k :: 0 <= k < (if x < 0 then finish.Length else x) && !finish[k] ==>
      !AtMost(m[k], work[..])
  {
    for i := 0 to finish.Length
      invariant forall k :: 0 <= k < i && !finish[k] ==> !AtMost(m[k], work[..])
    {
      if !finish[i] {
        var fits := RowAtMost(m, wants, i, work);
        if fits {
          return i;
        }
      }
    }
    return -1;
  }

  /** Thread `x` returns what it holds. */
  method AddToWork(ghost m: Matrix, held: array2<int>, x: nat, work: array<int>)
    requires Shows(held, m) && x < held.Length0 && held.Length1 == work.Length
    modifies work
    ensures work[..] == Plus(old(work[..]), m[x])
  {
    for i := 0 to work.Length
      invariant forall j :: 0 <= j < work.Length ==>
        work[j] == old(work[j]) + if j < i then m[x][j] else 0
    {
      work[i] := work[i] + held[x, i];
    }
  }

  /** The loop that is_state_safe and rm_detection have in common. */
  method Reduce(ghost l: Ledger, held: array2<int>, wants: array2<int>, work: array<int>, finish: array<bool>)
      returns (ghost rounds: nat)
    requires Shows(held, l.held) && Shows(wants, l.wants) && work[..] == l.free && Shaped(l)
    requires held.Length0 == wants.Length0 == finish.Length && held.Length1 == wants.Length1 == work.Length
    requires forall i :: 0 <= i < finish.Length ==> !finish[i]
    modifies work, finish
    ensures Verdict(l, finish[..])
    ensures rounds <= finish.Length
  {
    hide Reduced, Verdict;
    ghost var order: seq<int> := [];
    rounds := 0;
    ReductionStarts(l, finish[..]);
    assert Threads(l) - Elements(order) <= Threads(l);
    SubsetSize(Threads(l) - Elements(order), Threads(l));
    while true
      invariant Reduced(l, order, work[..], finish[..])
      invariant rounds + |Threads(l) - Elements(order)| <= finish.Length
      decreases |Threads(l) - Elements(order)|
    {
      var x := FirstFit(l.wants, wants, work, finish);
      if x == -1 {
        ReductionEnds(l, order, work[..], finish[..]);
        return;
      }
      ReductionSteps(l, order, work[..], finish[..], x);
      AddToWork(l.held, held, x, work);
      finish[x] := true;
      order := order + [x];
      rounds := rounds + 1;
    }
  }

  method CountUnfinished(finish: array<bool>, ghost unfinished: set<int>) returns (count: nat)
    requires forall i :: 0 <= i < finish.Length ==> (finish[i] <==> i !in unfinished)
    requires unfinished <= Range(finish.Length)
    ensures count == |unfinished|
  {
    count := 0;
    assert unfinished * Range(0) == {};
    for i := 0 to finish.Length
      invariant count == |unfinished * Range(i)|
    {
      CountUpTo(unfinished, i);
      if !finish[i] {
        count := count + 1;
      }
    }
    assert unfinished * Range(finish.Length) == unfinished;
  }

  // ----- loops over one matrix -------------------------------------------------------------

  ghost predicate IsZero(a: array2<int>, n: nat, m: nat)
    reads a
  {
    a.Length0 == n && a.Length1 == m && Shows(a, ZeroRows(n, m))
  }

  method ZeroMatrix(n: nat, m: nat) returns (a: array2<int>)
    ensures fresh(a) && IsZero(a, n, m)
  {
    a := new int[n, m];
    for i := 0 to n
      invariant forall k, j :: 0 <= k < i && 0 <= j < m ==> a[k, j] == 0
    {
      for j := 0 to m
        invariant forall k, j' :: 0 <= k < n && 0 <= j' < m && (k < i || (k == i && j' < j)) ==> a[k, j'] == 0
      {
        a[i, j] := 0;
      }
    }
  }

  method ZeroMatrices(n: nat, m: nat)
      returns (a0: array2<int>, a1: array2<int>, a2: array2<int>, a3: array2<int>)
    ensures fresh(a0) && fresh(a1) && fresh(a2) && fresh(a3)
    ensures a0 != a1 && a0 != a2 && a0 != a3 && a1 != a2 && a1 != a3 && a2 != a3
    ensures IsZero(a0, n, m) && IsZero(a1, n, m) && IsZero(a2, n, m) && IsZero(a3, n, m)
  {
    hide IsZero;
    a0 := ZeroMatrix(n, m);
    a1 := ZeroMatrix(n, m);
    a2 := ZeroMatrix(n, m);
    a3 := ZeroMatrix(n, m);
  }

  method CopyStock(rExist: Vector, available: array<int>, existing: array<int>)
    requires |rExist| == available.Length <= existing.Length && available != existing
    modifies available, existing
    ensures forall j :: 0 <= j < |rExist| ==> available[j] == existing[j] == rExist[j]
  {
    for i := 0 to |rExist|
      invariant forall j :: 0 <= j < i ==> available[j] == existing[j] == rExist[j]
    {
      available[i] := rExist[i];
      existing[i] := rExist[i];
    }
  }

  /** A working copy of `available` without `request`. */
  method WorkingCopy(available: array<int>, request: Vector, ghost free: Vector) returns (work: array<int>)
    requires |request| == |free| == available.Length
    requires forall j :: 0 <= j < |free| ==> available[j] == free[j]
    ensures fresh(work) && work[..] == Minus(free, request)
  {
    work := new int[available.Length];
    for i := 0 to available.Length
      modifies work
      invariant forall k :: 0 <= k < i ==> work[k] == free[k] - request[k]
    {
      work[i] := available[i] - request[i];
    }
  }

  method AddTo(ghost v: Vector, a: array<int>, w: Vector)
    requires |v| == |w| == a.Length && forall j :: 0 <= j < |v| ==> a[j] == v[j]
    modifies a
    ensures forall j :: 0 <= j < |v| ==> a[j] == Plus(v, w)[j]
  {
    for i := 0 to a.Length
      invariant forall j :: 0 <= j < a.Length ==> a[j] == v[j] + if j < i then w[j] else 0
    {
      a[i] := a[i] + w[i];
    }
  }

  method SubtractFrom(ghost v: Vector, a: array<int>, w: Vector)
    requires |v| == |w| == a.Length && forall j :: 0 <= j < |v| ==> a[j] == v[j]
    modifies a
    ensures forall j :: 0 <= j < |v| ==> a[j] == Minus(v, w)[j]
  {
    for i := 0 to a.Length
      invariant forall j :: 0 <= j < a.Length ==> a[j] == v[j] - if j < i then w[j] else 0
    {
      a[i] := a[i] - w[i];
    }
  }

  /** Signal every condition variable. */
  method SignalAll(ghost phase: seq<Phase>, cvs: array<Phase>)
    requires |phase| == cvs.Length && forall i :: 0 <= i < |phase| ==> cvs[i] == phase[i]
    modifies cvs
    ensures forall i :: 0 <= i < |phase| ==> cvs[i] == Signalled(phase)[i]
  {
    for i := 0 to cvs.Length
      invariant forall k :: 0 <= k < cvs.Length ==> cvs[k] == if k < i then Signalled(phase)[k] else phase[k]
    {
      if cvs[i] == Waiting {
        cvs[i] := Woken;
      }
    }
  }

  method AllTrue(a: array<bool>) returns (all: bool)
    ensures all <==> forall i :: 0 <= i < a.Length ==> a[i]
  {
    all := true;
    for i := 0 to a.Length
      invariant all <==> forall k :: 0 <= k < i ==> a[k]
    {
      if !a[i] {
        all := false;
      }
    }
  }

  /** Replace row `t` by `row`, entry by entry. */
  method SetRow(ghost m: Matrix, a: array2<int>, t: nat, row: Vector)
    requires Shows(a, m) && t < a.Length0 && |row| == a.Length1
    modifies a
    ensures Shows(a, m[t := row])
  {
    for k := 0 to a.Length1
      invariant forall i, j :: 0 <= i < a.Length0 && 0 <= j < a.Length1 ==>
        a[i, j] == if i == t && j < k then row[j] else m[i][j]
    {
      a[t, k] := row[k];
    }
  }

  /** Move `v` from row `t` of one matrix to row `t` of the other. */
  method Shift(ghost m: Matrix, from: array2<int>, ghost m': Matrix, to: array2<int>, t: nat, v: Vector)
    requires from != to && Shows(from, m) && Shows(to, m') && t < from.Length0 == to.Length0
    requires |v| == from.Length1 == to.Length1
    modifies from, to
    ensures Shows(from, m[t := Minus(m[t], v)]) && Shows(to, m'[t := Plus(m'[t], v)])
  {
    for k := 0 to |v|
      invariant forall i, j :: 0 <= i < from.Length0 && 0 <= j < from.Length1 ==>
        from[i, j] == m[i][j] - if i == t && j < k then v[j] else 0
      invariant forall i, j :: 0 <= i < to.Length0 && 0 <= j < to.Length1 ==>
        to[i, j] == m'[i][j] + if i == t && j < k then v[j] else 0
    {
      from[t, k] := from[t, k] - v[k];
      to[t, k] := to[t, k] + v[k];
    }
  }

  /** How often a loop from 0 up to `n` runs. */
  function Count(n: int): nat { if n < 0 then 0 else n }

  // ----- the library -----------------------------------------------------------------------

  /** What is_state_safe takes out of the matrices is what it put in. */
  lemma MovedBack(s: State, t: int, r: Vector)
    requires Shape(s) && IsThread(s, t) && |r| == s.M()
    ensures s.need[t := Minus(s.need[t], r)][t := Plus(Minus(s.need[t], r), r)] == s.need
    ensures s.allocation[t := Plus(s.allocation[t], r)][t := Minus(Plus(s.allocation[t], r), r)] == s.allocation
  {
    assert Plus(Minus(s.need[t], r), r) == s.need[t];
    assert Minus(Plus(s.allocation[t], r), r) == s.allocation[t];
  }

  class ResourceManager {
    var DA: int
    var N: nat
    var M: nat
    var ExistingRes: array<int>
    var maxDemand: array2<int>
    var allocation: array2<int>
    var need: array2<int>
    var requests: array2<int>
    var available: array<int>
    var cvs: array<Phase>
    var tcount: nat
    const tids: array<int>  // the handle of each thread
    ghost var state: State  // the protocol state that the fields represent

    ghost function Repr(): set<object>
      reads this
    {
      {this, ExistingRes, maxDemand, allocation, need, requests, available, cvs}
    }

    ghost predicate Dimensioned()
      reads this
    {
      && M <= ExistingRes.Length == MAXR && N <= MAXP
      && tids.Length == MAXP && tids != ExistingRes && tids != available
      && ExistingRes != available && available.Length == M && cvs.Length == N
      && maxDemand.Length0 == allocation.Length0 == need.Length0 == requests.Length0 == N
      && maxDemand.Length1 == allocation.Length1 == need.Length1 == requests.Length1 == M
      && maxDemand != allocation && maxDemand != need && maxDemand != requests
      && allocation != need && allocation != requests && need != requests
    }

    ghost predicate Represents(s: State)
      requires Dimensioned()
      reads this, Repr()
    {
      && s.mode == DA && s.N() == |s.phase| == N && s.M() == |s.available| == M
      && (forall j :: 0 <= j < M ==> ExistingRes[j] == s.existing[j])
      && (forall j :: 0 <= j < M ==> available[j] == s.available[j])
      && (forall i :: 0 <= i < N ==> cvs[i] == s.phase[i])
      && Shows(allocation, s.allocation) && Shows(need, s.need)
      && Shows(maxDemand, s.maxDemand) && Shows(requests, s.requests)
    }

    /** The fields and `state` are two views of the same thing. */
    ghost predicate Represented()
      reads this, Repr()
    {
      Dimensioned() && Represents(state) && Shape(state)
    }

    ghost predicate Valid()
      reads this, Repr()
    {
      Represented() && Invariant(state)
    }

    constructor ()
      ensures Valid() && tcount == 0 && N == 0
    {
      DA, N, M, tcount := 0, 0, 0, 0;
      ExistingRes, tids := new int[MAXR], new int[MAXP](_ => 0);
      available := new int[0];
      cvs := new Phase[0];
      maxDemand, allocation := new int[0, 0], new int[0, 0];
      need, requests := new int[0, 0], new int[0, 0];
      new;
      state := Initial(0, [], 0);
      InitialInvariant(0, [], 0);
    }

    method Install(n: nat, m: nat, avoid: int, stock: array<int>, sleepers: array<Phase>)
      modifies this
      ensures N == n && M == m && DA == avoid && available == stock && cvs == sleepers
      ensures ExistingRes == old(ExistingRes) && tcount == old(tcount)
      ensures fresh(maxDemand) && fresh(allocation) && fresh(need) && fresh(requests)
      ensures maxDemand != allocation && maxDemand != need && maxDemand != requests
      ensures allocation != need && allocation != requests && need != requests
      ensures IsZero(maxDemand, n, m) && IsZero(allocation, n, m) && IsZero(need, n, m) && IsZero(requests, n, m)
    {
      hide IsZero;
      InstallMatrices(n, m);
      DA, N, M := avoid, n, m;
      available, cvs := stock, sleepers;
    }

    method InstallMatrices(n: nat, m: nat)
      modifies `maxDemand, `allocation, `need, `requests
      ensures fresh(maxDemand) && fresh(allocation) && fresh(need) && fresh(requests)
      ensures maxDemand != allocation && maxDemand != need && maxDemand != requests
      ensures allocation != need && allocation != requests && need != requests
      ensures IsZero(maxDemand, n, m) && IsZero(allocation, n, m) && IsZero(need, n, m) && IsZero(requests, n, m)
    {
      hide IsZero;
      var a0, a1, a2, a3 := ZeroMatrices(n, m);
      maxDemand, allocation, need, requests := a0, a1, a2, a3;
    }

    /** The part of rm_init behind its check. */
    method Begin(n: nat, m: nat, rExist: Vector, avoid: int)
      requires Dimensioned() && n <= MAXP && m <= MAXR && |rExist| == m
      modifies this, ExistingRes
      ensures Represented() && state == Initial(n, rExist, avoid) && DA == avoid && N == n && M == m
      ensures tcount == old(tcount) && ExistingRes == old(ExistingRes)
    {
      hide Shows, ZeroRows;
      var stock := new int[m];
      CopyStock(rExist, stock, ExistingRes);
      var sleepers := new Phase[n](_ => Idle);
      Install(n, m, avoid, stock, sleepers);
      state := Initial(n, rExist, avoid);
    }

    /**
     * rm_init. It takes any counts, any stock and any mode. With a negative count every loop
     * over it does nothing, as with 0.
     */
    method Init(pCount: int, rCount: int, rExist: Vector, avoid: int) returns (rc: int)
      requires Represented() && |rExist| == Count(rCount)
      modifies this, ExistingRes
      ensures Represented() && tcount == old(tcount)
      ensures rc == if pCount > MAXP || rCount > MAXR || tcount > 0 then -1 else 0
      ensures rc == -1 ==> state == old(state)
      ensures rc == 0 ==> state == Initial(Count(pCount), rExist, avoid)
      ensures rc == 0 ==>
        && DA == state.mode == avoid
        && N == |state.phase| == (if pCount < 0 then 0 else pCount) && M == (if rCount < 0 then 0 else rCount)
        && state.existing == state.available == rExist
        && |state.maxDemand| == |state.allocation| == |state.need| == |state.requests| == N
        && forall i :: 0 <= i < N ==>
          && state.maxDemand[i] == state.allocation[i] == state.need[i] == state.requests[i] == Zeros(M)
          && state.phase[i] == Idle
      ensures rc == 0 ==> (Valid() <==> NonNegative(rExist) && (avoid == 0 || avoid == 1))
      ensures rc == 0 && Valid() ==> (CanDeadlock(state) <==> avoid == 0 && pCount >= 2 && TwoInstances(rExist))
    {
      hide Invariant, Shape, Dimensioned, Represents, CanDeadlock, TwoInstances;
      if pCount > MAXP || rCount > MAXR || tcount > 0 {
        return -1;
      }
      Begin(Count(pCount), Count(rCount), rExist, avoid);
      InitialEffect(Count(pCount), rExist, avoid);
      InitialInvariant(Count(pCount), rExist, avoid);
      if NonNegative(rExist) && (avoid == 0 || avoid == 1) {
        CanDeadlockIff(Count(pCount), rExist, avoid);
      }
      return 0;
    }

    /** rm_thread_started, called by the thread with handle `self`. */
    method ThreadStarted(tid: nat, self: int) returns (rc: int)
      requires Represented() && tid < MAXP
      modifies `tcount, tids
      ensures Represented() && tcount == old(tcount) + 1 && rc == 0
      ensures tids[..] == old(tids[..])[tid := self]
    {
      hide Invariant, Shows;
      tcount := tcount + 1;
      tids[tid] := self;
      return 0;
    }

    /** get_tid: the first entry with this handle; the thread's own entry if handles are distinct. */
    method GetTid(self: int) returns (tid: int)
      requires Represented()
      ensures -1 <= tid < MAXP
      ensures forall i :: 0 <= i < (if tid == -1 then MAXP else tid) ==> tids[i] != self
      ensures tid != -1 ==> tids[tid] == self
      ensures forall t :: 0 <= t < MAXP && tids[t] == self ==>
        (forall i :: 0 <= i < MAXP && i != t ==> tids[i] != self) ==> tid == t
    {
      for i := 0 to MAXP
        invariant forall k :: 0 <= k < i ==> tids[k] != self
      {
        if tids[i] == self {
          return i;
        }
      }
      return -1;
    }

    /** is_available. */
    method IsAvailable(request: Vector) returns (b: bool)
      requires Represented() && |request| == M
      ensures b == AtMost(request, state.available)
    {
      b := AtMostArray(request, available);
    }

    /**
     * is_state_safe, called by thread `tid`: it moves the request into the matrices,
     * reduces, and moves it out again. The answer is exact and nothing has changed.
     */
    method IsStateSafe(tid: nat, request: Vector) returns (safe: bool)
      requires Represented() && tid < N && |request| == M
      modifies need, allocation
      ensures Represented()
      ensures safe == Passes(Grant(Needs(state), tid, request))
      ensures WellFormed(Grant(Needs(state), tid, request)) ==> safe == Safe(Grant(Needs(state), tid, request))
    {
      hide Invariant, Safe, Passes, Deadlocked, WellFormed, Shows;
      ghost var l := Grant(Needs(state), tid, request);
      var work := WorkingCopy(available, request, state.available);
      var finish := new bool[N](_ => false);
      Shift(state.need, need, state.allocation, allocation, tid, request);
      ghost var rounds := Reduce(l, allocation, need, work, finish);
      safe := AllTrue(finish);
      assert safe <==> forall i :: 0 <= i < |finish[..]| ==> finish[..][i];
      if WellFormed(l) {
        PassesIffSafe(l);
      }
      Shift(l.held, allocation, l.wants, need, tid, request);
      MovedBack(state, tid, request);
    }

    /** rm_claim. It checks the stock only, and keeps the monitor valid if it is called as documented. */
    method Claim(tid: nat, claim: Vector) returns (rc: int)
      requires Represented() && tid < N && |claim| == M && state.phase[tid] == Idle
      modifies `state, maxDemand, need
      ensures Represented() && state == Claimed(old(state), tid, claim)
      ensures rc == if forall j :: 0 <= j < M ==> claim[j] <= old(state).existing[j] then 0 else -1
      ensures rc == -1 ==> state == old(state)
      ensures rc == 0 ==>
        && state.maxDemand == old(state).maxDemand[tid := claim] && state.need == old(state).need[tid := claim]
        && state.mode == old(state).mode && state.existing == old(state).existing
        && state.available == old(state).available && state.allocation == old(state).allocation
        && state.requests == old(state).requests && state.phase == old(state).phase
      ensures old(Valid()) && rc == 0 ==> (Valid() <==> NonNegative(claim) && !Holds(old(state), tid))
    {
      hide Invariant, Shows;
      var fits := AtMostArray(claim, ExistingRes);
      ClaimEffect(state, tid, claim);
      if !fits {
        return -1;
      }
      if Invariant(state) {
        ClaimNeedsEmptyHands(state, tid, claim);
      }
      SetRow(state.maxDemand, maxDemand, tid, claim);
      SetRow(state.need, need, tid, claim);
      state := Claimed(state, tid, claim);
      return 0;
    }

    /** One pass through the wait loops of rm_request, and the allocation behind them. */
    method Attempt(tid: nat, request: Vector) returns (granted: bool)
      requires Represented() && tid < N && |request| == M
      requires state.phase[tid] == Woken && state.requests[tid] == request
      modifies `state, available, allocation, need, requests, cvs
      ensures Represented() && state == Rechecked(old(state), tid)
      ensures granted <==> Guard(old(state), tid)
      ensures granted ==> state.allocation == old(state).allocation[tid := Plus(old(state).allocation[tid], request)]
      ensures !granted ==> state.phase == old(state).phase[tid := Waiting] && state.allocation == old(state).allocation
    {
      hide Safe, Shows;
      var enough := IsAvailable(request);
      var blocked := DA == 0 && !enough;
      if DA == 1 {
        var safe := IsStateSafe(tid, request);
        blocked := !safe || !enough;
      }
      if blocked {
        Sleep(tid);
      } else {
        Allocate(tid, request);
      }
      return !blocked;
    }

    method Sleep(tid: nat)
      requires Represented() && tid < N
      modifies `state, cvs
      ensures Represented() && state == old(state).(phase := old(state).phase[tid := Waiting])
    {
      hide Invariant, Shows;
      cvs[tid] := Waiting;
      state := state.(phase := state.phase[tid := Waiting]);
    }

    method Allocate(tid: nat, request: Vector)
      requires Represented() && tid < N && |request| == M && state.requests[tid] == request
      modifies `state, available, allocation, need, requests, cvs
      ensures Represented() && state == Allocated(old(state), tid)
      ensures state.available == Minus(old(state).available, request)
      ensures state.allocation == old(state).allocation[tid := Plus(old(state).allocation[tid], request)]
      ensures state.need == old(state).need[tid := Minus(old(state).need[tid], request)]
      ensures state.requests == old(state).requests[tid := Zeros(M)] && state.phase == old(state).phase[tid := Idle]
    {
      hide Invariant, Shows;
      SubtractFrom(state.available, available, request);
      Shift(state.need, need, state.allocation, allocation, tid, request);
      SetRow(state.requests, requests, tid, Zeros(M));
      cvs[tid] := Idle;
      state := Allocated(state, tid);
    }

    method Enter(tid: nat, request: Vector)
      requires Represented() && tid < N && |request| == M
      modifies `state, requests, cvs
      ensures Represented() && state == Entered(old(state), tid, request)
    {
      hide Shows;
      SetRow(state.requests, requests, tid, request);
      cvs[tid] := Woken;
      state := Entered(state, tid, request);
    }

    /** The part of rm_request behind its checks. */
    method Serve(tid: nat, request: Vector) returns (outcome: Outcome)
      requires Represented() && tid < N && |request| == M
      modifies `state, available, allocation, need, requests, cvs
      ensures Represented() && state == Rechecked(Entered(old(state), tid, request), tid)
      ensures outcome == if Guard(Entered(old(state), tid, request), tid) then Returned else Blocked
    {
      hide Guard, Rechecked, Shows;
      Enter(tid, request);
      var granted := Attempt(tid, request);
      return if granted then Returned else Blocked;
    }

    /** rm_request, up to its return or its first wait. */
    method Request(tid: nat, request: Vector) returns (outcome: Outcome)
      requires Represented() && tid < N && |request| == M && state.phase[tid] == Idle
      modifies `state, available, allocation, need, requests, cvs
      ensures Represented() && state == Requested(old(state), tid, request)
      ensures old(Valid()) && NonNegative(request) ==> Valid()
      ensures old(Valid()) && outcome != Error && !NonNegative(request) ==> (Booked(state) <==>
        outcome == Returned && NonNegative(Plus(old(state).allocation[tid], request)))
      ensures outcome ==
        if Refused(old(state), tid, request) then Error
        else if Guard(Entered(old(state), tid, request), tid) then Returned
        else Blocked
      ensures outcome == Error <==>
        (exists j :: 0 <= j < M && (request[j] > old(state).need[tid][j] || request[j] > old(state).existing[j]))
      ensures outcome == Error ==> state == old(state)
      ensures outcome != Error && state.mode == 0 ==>
        (outcome == Returned <==> forall j :: 0 <= j < M ==> request[j] <= old(state).available[j])
      ensures outcome != Error && state.mode == 1 && old(Valid()) && NonNegative(request) ==>
        (outcome == Returned <==> Safe(Grant(Needs(old(state)), tid, request)))
      ensures var s := old(state);
        state.mode == s.mode && state.existing == s.existing && state.maxDemand == s.maxDemand
      ensures outcome == Returned ==>
        var s := old(state);
        && state.available == Minus(s.available, request)
        && state.allocation == s.allocation[tid := Plus(s.allocation[tid], request)]
        && state.need == s.need[tid := Minus(s.need[tid], request)]
        && state.requests == s.requests[tid := Zeros(M)] && state.phase == s.phase[tid := Idle]
      ensures outcome == Blocked ==>
        var s := old(state);
        && state.available == s.available && state.allocation == s.allocation && state.need == s.need
        && state.requests == s.requests[tid := request] && state.phase == s.phase[tid := Waiting]
    {
      RefusalMeans(state, tid, request);
      RequestEffect(state, tid, request);
      GuardMeans(Entered(state, tid, request), tid);
      RequestKeeps(state, tid, request);
      var needed := AtMostRow(request, state.need, need, tid);
      var stocked := AtMostArray(request, ExistingRes);
      hide Invariant, Booked, Guard, Rechecked, Shows, Safe;
      if !needed || !stocked {
        return Error;
      }
      outcome := Serve(tid, request);
    }

    /** rm_request, from a wake-up to its return or its next wait. */
    method Resume(tid: nat, request: Vector) returns (outcome: Outcome)
      requires Represented() && tid < N && |request| == M
      requires state.phase[tid] == Woken && state.requests[tid] == request
      modifies `state, available, allocation, need, requests, cvs
      ensures Represented() && state == Rechecked(old(state), tid)
      ensures old(Valid()) ==> Valid()
      ensures outcome == if Guard(old(state), tid) then Returned else Blocked
      ensures state.mode == 0 ==>
        (outcome == Returned <==> forall j :: 0 <= j < M ==> request[j] <= old(state).available[j])
      ensures state.mode == 1 && old(Valid()) ==>
        (outcome == Returned <==> Safe(Grant(Needs(old(state)), tid, request)))
      ensures var s := old(state);
        state.mode == s.mode && state.existing == s.existing && state.maxDemand == s.maxDemand
      ensures outcome == Returned ==>
        var s := old(state);
        && state.available == Minus(s.available, request)
        && state.allocation == s.allocation[tid := Plus(s.allocation[tid], request)]
        && state.need == s.need[tid := Minus(s.need[tid], request)]
        && state.requests == s.requests[tid := Zeros(M)] && state.phase == s.phase[tid := Idle]
      ensures outcome == Blocked ==>
        var s := old(state);
        && state.available == s.available && state.allocation == s.allocation && state.need == s.need
        && state.requests == s.requests && state.phase == s.phase[tid := Waiting]
    {
      RecheckEffect(state, tid);
      GuardMeans(state, tid);
      if Invariant(state) {
        RecheckedInvariant(state, tid);
      }
      hide Invariant, Guard, Rechecked, Shows, Safe;
      var granted := Attempt(tid, request);
      return if granted then Returned else Blocked;
    }

    /** The part of rm_release behind its check. */
    method Return(tid: nat, release: Vector)
      requires Represented() && tid < N && |release| == M && AtMost(release, state.allocation[tid])
      modifies `state, available, allocation, need, cvs
      ensures Represented() && state == Released(old(state), tid, release)
    {
      hide Shows;
      AddTo(state.available, available, release);
      Shift(state.allocation, allocation, state.need, need, tid, release);
      SignalAll(state.phase, cvs);
      state := Released(state, tid, release);
    }

    /** rm_release. */
    method Release(tid: nat, release: Vector) returns (rc: int)
      requires Represented() && tid < N && |release| == M && state.phase[tid] == Idle
      modifies `state, available, allocation, need, cvs
      ensures Represented() && state == Released(old(state), tid, release)
      ensures old(Valid()) && rc == 0 ==> (Valid() <==>
        && AtMost(Negated(release), old(state).need[tid]) && AtMost(Negated(release), old(state).available)
        && (old(state).Avoids() ==> Passes(Grant(Needs(old(state)), tid, Negated(release)))))
      ensures old(Valid()) && NonNegative(release) ==> Valid()
      ensures rc == if forall j :: 0 <= j < M ==> release[j] <= old(state).allocation[tid][j] then 0 else -1
      ensures rc == -1 ==> state == old(state)
      ensures rc == 0 ==>
        && state.mode == old(state).mode && state.existing == old(state).existing
        && state.maxDemand == old(state).maxDemand && state.requests == old(state).requests
        && state.available == Plus(old(state).available, release)
        && state.allocation == old(state).allocation[tid := Minus(old(state).allocation[tid], release)]
        && state.need == old(state).need[tid := Plus(old(state).need[tid], release)]
        && forall i :: 0 <= i < N ==>
          state.phase[i] == if old(state).phase[i] == Waiting then Woken else old(state).phase[i]
    {
      hide Invariant, Shows;
      ReleaseEffect(state, tid, release);
      var held := AtMostRow(release, state.allocation, allocation, tid);
      if !held {
        return -1;
      }
      if Invariant(state) {
        ReleaseKeepsInvariantIff(state, tid, release);
        if NonNegative(release) {
          ReleasedInvariant(state, tid, release);
        }
      }
      Return(tid, release);
      return 0;
    }

    lemma DeadlockedIsStuck()
      requires Valid()
      ensures Stuck(Pending(state), DeadlockedThreads(state))
      ensures forall d' :: Stuck(Pending(state), d') ==> d' <= DeadlockedThreads(state)
    {
      BookedWellFormed(state);
      DeadlockedIsLargestStuck(Pending(state));
    }

    /** rm_detection: the number of threads in the largest stuck set. */
    method Detection() returns (count: nat)
      requires Valid()
      ensures count == if tcount == 0 then 0 else |DeadlockedThreads(state)|
      ensures DA == 1 ==> count == 0
      ensures tcount > 0 ==> exists d ::
        Stuck(Pending(state), d) && |d| == count && forall d' :: Stuck(Pending(state), d') ==> d' <= d
    {
      DeadlockedIsStuck();
      if tcount == 0 {
        return 0;
      }
      if state.Avoids() {
        AvoidanceExcludesDeadlock(state);
      }
      BookedWellFormed(state);
      hide Invariant, Deadlocked, WellFormed, Shows;
      ghost var l := Pending(state);
      var work := WorkingCopy(available, Zeros(M), state.available);
      assert work[..] == l.free;
      var finish := new bool[N](_ => false);
      ghost var rounds := Reduce(l, allocation, requests, work, finish);
      assert Deadlocked(l) <= Threads(l) by {
        DeadlockedIsLargestStuck(l);
      }
      count := CountUnfinished(finish, Deadlocked(l));
    }
  }
}
