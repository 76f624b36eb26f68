/**
 * What becomes of the guarantees when callers do not keep what `rm.c` documents or
 * relies on, which the library does not check. Each property that fails is shown on an
 * input, and the exact condition under which it holds is proved.
 */
module Misuse {
  import opened Collections
  import opened Vectors
  import opened Banker
  import opened Protocol
  import opened ProtocolInvariant
  import opened DeadlockTheorems

  // ----- stock and mode -----------------------------------------------------------------------

  /** On no run is more given out than there is. */
  ghost predicate NeverOverdraws(n: nat, existing: Vector, mode: int) {
    forall run, end :: Leads(Initial(n, existing, mode), run, end) ==> NonNegative(end.available)
  }

  /** With one thread, or with nothing to give, the claims alone keep the stock from being overdrawn. */
  lemma FewCannotOverdraw(s: State)
    requires Booked(s) && NonNegative(s.existing)
    requires s.N() < 2 || s.existing == Zeros(s.M())
    ensures NonNegative(s.available)
  {
    forall j | 0 <= j < s.M() ensures s.available[j] >= 0 {
      forall t | IsThread(s, t) ensures 0 <= s.allocation[t][j] <= s.existing[j] {
        assert Accounted(s, t);
        assert s.maxDemand[t][j] == s.need[t][j] + s.allocation[t][j];
      }
      EmptySum(s.allocation, s.N(), j);
      if s.N() == 1 {
        assert ColumnSum(s.allocation, Range(1), 1, j) == s.allocation[0][j];
      } else {
        ColumnSumIgnoresZeros(s.allocation, Range(s.N()), {}, s.N(), j);
      }
    }
  }

  /** Thread `t`, which holds nothing, claims the whole stock and gets it. */
  lemma TakeAll(s: State, t: int) returns (run: seq<Action>, end: State)
    requires Booked(s) && !s.Guarded() && NonNegative(s.existing)
    requires IsThread(s, t) && s.phase[t] == Idle && !Holds(s, t)
    ensures Leads(s, run, end) && Booked(end) && end.mode == s.mode && end.existing == s.existing
    ensures end.available == Minus(s.available, s.existing) && end.N() == s.N()
    ensures forall i :: IsThread(s, i) && i != t ==>
      end.phase[i] == s.phase[i] && end.allocation[i] == s.allocation[i]
  {
    var claim, ask := Claim(t, s.existing), Request(t, s.existing);
    StepBooked(s, claim);
    var mid := Do(s, claim);
    StepBooked(mid, ask);
    end := Do(mid, ask);
    LeadsOne(s, claim);
    LeadsOne(mid, ask);
    LeadsConcat(s, [claim], mid, [ask], end);
    run := [claim] + [ask];
  }

  /** In a mode other than 0 and 1 both wait loops are skipped, and two threads get the same instances. */
  lemma OtherModeOverdraws(n: nat, existing: Vector, mode: int) returns (run: seq<Action>, end: State)
    requires NonNegative(existing) && existing != Zeros(|existing|) && n >= 2 && mode != 0 && mode != 1
    ensures Leads(Initial(n, existing, mode), run, end) && !NonNegative(end.available)
  {
    var s := Initial(n, existing, mode);
    InitialBooked(n, existing, mode);
    var first, mid := TakeAll(s, 0);
    var rest;
    rest, end := TakeAll(mid, 1);
    LeadsConcat(s, first, mid, rest, end);
    run := first + rest;
    var j :| 0 <= j < |existing| && existing[j] != 0;
    assert end.available[j] == -existing[j];
  }

  /**
   * rm_init checks neither the stock, whose negative entries its documentation promises to
   * refuse, nor the mode. Nothing is ever overdrawn exactly when the stock is not negative
   * and either the mode is a documented one or there is nobody to share with or nothing to share.
   */
  lemma NeverOverdrawsIff(n: nat, existing: Vector, mode: int)
    ensures NeverOverdraws(n, existing, mode) <==>
      && NonNegative(existing)
      && (mode == 0 || mode == 1 || n < 2 || existing == Zeros(|existing|))
  {
    var s := Initial(n, existing, mode);
    assert Leads(s, [], s) && s.available == existing;
    if NonNegative(existing) {
      if mode == 0 || mode == 1 || n < 2 || existing == Zeros(|existing|) {
        forall run, end | Leads(s, run, end) ensures NonNegative(end.available) {
          RunCannotOverdraw(n, existing, mode, run, end);
        }
      } else {
        var run, end := OtherModeOverdraws(n, existing, mode);
        assert !NeverOverdraws(n, existing, mode);
      }
    }
  }

  lemma RunCannotOverdraw(n: nat, existing: Vector, mode: int, run: seq<Action>, end: State)
    requires NonNegative(existing) && Leads(Initial(n, existing, mode), run, end)
    requires mode == 0 || mode == 1 || n < 2 || existing == Zeros(|existing|)
    ensures NonNegative(end.available)
  {
    var s := Initial(n, existing, mode);
    if mode == 0 || mode == 1 {
      InitialInvariant(n, existing, mode);
      RunInvariant(s, run, end);
    } else {
      InitialBooked(n, existing, mode);
      RunBooked(s, run, end);
      FewCannotOverdraw(end);
    }
  }

  /** Two settings that rm_init accepts: a stock of -1, and a mode of 2 with one instance for two threads. */
  lemma InitAcceptsOverdraws()
    ensures !NeverOverdraws(1, [-1], 0) && !NeverOverdraws(2, [1], 2)
  {
    NeverOverdrawsIff(1, [-1], 0);
    NeverOverdrawsIff(2, [1], 2);
    assert [-1][0] < 0 && [1][0] != 0;
  }

  // ----- a second claim -----------------------------------------------------------------------

  lemma OneThreadPasses(l: Ledger)
    requires Shaped(l) && |l.held| == 1 && AtMost(l.wants[0], l.free)
    ensures Passes(l)
  {
    assert [0][..0] == [] && Elements([]) == {} && Elements([0]) == {0} == Threads(l);
    forall j | 0 <= j < |l.free| ensures Work(l, {}, j) == l.free[j] {
      EmptySum(l.held, 1, j);
    }
    assert LowestFit(l, 0, Elements([0][..0]));
    assert GreedyOrder(l, [0]);
  }

  /** Vectors of one entry. */
  lemma OneEntry(x: int, y: int)
    ensures Plus([x], [y]) == [x + y] && Minus([x], [y]) == [x - y] && Zeros(1) == [0]
    ensures AtMost([x], [y]) <==> x <= y
  {
    assert [x][0] == x && [y][0] == y;
  }

  /** Avoidance is on, and the only thread has claimed the only instance and got it. */
  const HELD := State(1, [1], [0], [[1]], [[0]], [[1]], [[0]], [Idle])

  lemma HeldIsReachable()
    ensures Reachable(HELD)
  {
    var s0 := Initial(1, [1], 1);
    var claim, ask := Claim(0, [1]), Request(0, [1]);
    var s1 := Do(s0, claim);
    OneEntry(1, 1);
    OneEntry(0, 1);
    OneThreadPasses(Grant(Needs(Entered(s1, 0, [1])), 0, [1]));
    hide Passes;
    assert Do(s1, ask) == HELD;
    LeadsOne(s0, claim);
    LeadsOne(s1, ask);
    LeadsConcat(s0, [claim], s1, [ask], HELD);
    assert s0.Guarded() && NonNegative([1]);
  }

  /** If it claims the instance again and asks for it again, it waits for itself, for ever. */
  lemma SecondClaimDeadlocks() returns (end: State)
    ensures Reachable(HELD) && AtMost([1], HELD.existing)
    ensures end == Requested(Claimed(HELD, 0, [1]), 0, [1])
    ensures end.phase == [Waiting] && DeadlockedThreads(end) == {0}
  {
    HeldIsReachable();
    hide Reachable, Passes;
    var again := Claimed(HELD, 0, [1]);
    OneEntry(1, 1);
    OneEntry(1, 0);
    end := Requested(again, 0, [1]);
    OneThreadStuck(Pending(end));
  }

  lemma OneThreadStuck(l: Ledger)
    requires Shaped(l) && |l.held| == 1 && !AtMost(l.wants[0], l.free)
    ensures Deadlocked(l) == {0}
  {
    var d := {0};
    assert Threads(l) == d && Threads(l) - d == {};
    forall j | 0 <= j < |l.free| ensures Work(l, {}, j) == l.free[j] {
      EmptySum(l.held, 1, j);
    }
    assert Stuck(l, d);
    assert 0 in Deadlocked(l);
  }

  // ----- negative requests and releases ---------------------------------------------------------

  /**
   * rm_release does not refuse negative entries, which take instead of give. An accepted
   * release keeps the invariant exactly when what it takes would be granted as a request:
   * the need and the stock cover it, and under avoidance the safety test passes.
   */
  lemma ReleaseKeepsInvariantIff(s: State, t: int, r: Vector)
    requires Invariant(s) && IsThread(s, t) && |r| == s.M()
    requires s.phase[t] == Idle && AtMost(r, s.allocation[t])
    ensures Invariant(Released(s, t, r)) <==>
      && AtMost(Negated(r), s.need[t]) && AtMost(Negated(r), s.available)
      && (s.Avoids() ==> Passes(Grant(Needs(s), t, Negated(r))))
  {
    var s' := Released(s, t, r);
    ReleasedConserves(s, t, r);
    ReleaseUndoesGrant(s, t, r);
    ReleaseAccounts(s, t, r);
    assert Invariant(s') ==> Accounted(s', t);
    if AtMost(Negated(r), s.need[t]) {
      BookedWellFormed(s');
      PassesIffSafe(Needs(s'));
      assert NonNegative(s'.available) <==> AtMost(Negated(r), s.available) by {
        assert forall j :: 0 <= j < s.M() ==> (s'.available[j] >= 0 <==> Negated(r)[j] <= s.available[j]);
      }
    }
  }

  lemma ReleaseAccounts(s: State, t: int, r: Vector)
    requires Booked(s) && IsThread(s, t) && |r| == s.M()
    requires s.phase[t] == Idle && AtMost(r, s.allocation[t])
    ensures forall i :: IsThread(s, i) && i != t ==> Accounted(Released(s, t, r), i)
    ensures Accounted(Released(s, t, r), t) <==> AtMost(Negated(r), s.need[t])
  {
    var s' := Released(s, t, r);
    assert Accounted(s, t);
    forall i | IsThread(s, i) && i != t ensures Accounted(s', i) {
      assert Accounted(s, i);
    }
    assert NonNegative(s'.need[t]) <==> AtMost(Negated(r), s.need[t]) by {
      assert forall j :: 0 <= j < s.M() ==> (s'.need[t][j] >= 0 <==> Negated(r)[j] <= s.need[t][j]);
    }
    assert s'.maxDemand[t] == Plus(s'.need[t], s'.allocation[t]);
  }

  /**
   * rm_request does not refuse negative entries either. An accepted request keeps the books
   * exactly when it has none, or is granted without making a holding negative.
   */
  lemma RequestKeepsBooksIff(s: State, t: int, r: Vector)
    requires Booked(s) && IsThread(s, t) && |r| == s.M()
    requires s.phase[t] == Idle && !Refused(s, t, r)
    ensures Booked(Requested(s, t, r)) <==>
      || NonNegative(r)
      || (Guard(Entered(s, t, r), t) && NonNegative(Plus(s.allocation[t], r)))
  {
    var s' := Entered(s, t, r);
    if NonNegative(r) {
      EnteredBooked(s, t, r);
      RecheckedBooked(s', t);
    } else if !Guard(s', t) {
      assert Rechecked(s', t).requests[t] == r;
      assert Booked(Rechecked(s', t)) ==> Accounted(Rechecked(s', t), t);
    } else {
      GrantedAccounts(s, t, r);
    }
  }

  /**
   * A granted negative request is a release that signals nobody, so for the whole invariant
   * nobody who sleeps may be able to proceed then.
   */
  lemma RequestKeepsInvariantIff(s: State, t: int, r: Vector)
    requires Invariant(s) && IsThread(s, t) && |r| == s.M()
    requires s.phase[t] == Idle && !Refused(s, t, r)
    ensures Invariant(Requested(s, t, r)) <==>
      || NonNegative(r)
      || (&& Guard(Entered(s, t, r), t) && NonNegative(Plus(s.allocation[t], r))
          && forall w :: IsThread(s, w) && s.phase[w] == Waiting ==> !Guard(Requested(s, t, r), w))
  {
    var end := Requested(s, t, r);
    RequestKeepsBooksIff(s, t, r);
    if NonNegative(r) {
      StepInvariant(s, Request(t, r));
    } else if Guard(Entered(s, t, r), t) && NonNegative(Plus(s.allocation[t], r)) {
      BookedWellFormed(end);
      assert Needs(end) == Grant(Needs(Entered(s, t, r)), t, r);
      PassesIffSafe(Needs(end));
    }
  }

  lemma GrantedAccounts(s: State, t: int, r: Vector)
    requires Booked(s) && IsThread(s, t) && |r| == s.M()
    requires s.phase[t] == Idle && !Refused(s, t, r)
    ensures Booked(Allocated(Entered(s, t, r), t)) <==> NonNegative(Plus(s.allocation[t], r))
  {
    var s' := Allocated(Entered(s, t, r), t);
    assert Accounted(s, t);
    forall i | IsThread(s, i) && i != t ensures Accounted(s', i) {
      assert Accounted(s, i);
    }
    forall j | 0 <= j < s.M()
      ensures ColumnSum(s'.allocation, Range(s.N()), s.N(), j)
           == ColumnSum(s.allocation, Range(s.N()), s.N(), j) + r[j]
    {
      ColumnSumUpdate(s.allocation, t, Plus(s.allocation[t], r), Range(s.N()), s.N(), j);
    }
    assert s'.allocation[t] == Plus(s.allocation[t], r) && s'.need[t] == Minus(s.need[t], r);
    assert s'.maxDemand[t] == Plus(s'.need[t], s'.allocation[t]);
    assert NonNegative(s'.need[t]);
    assert Accounted(s', t) <==> NonNegative(s'.allocation[t]);
  }

  /** Thread 1 has the only instance, which thread 0 may still ask for. */
  const TAKEN := State(0, [1], [0], [[0], [1]], [[1], [0]], [[1], [1]], [[0], [0]], [Idle, Idle])

  lemma TwoThreadsBooked(s: State)
    requires Shape(s) && s.N() == 2 && s.M() == 1 && Accounted(s, 0) && Accounted(s, 1)
    requires s.available[0] + s.allocation[0][0] + s.allocation[1][0] == s.existing[0]
    ensures Booked(s)
  {
    assert ColumnSum(s.allocation, Range(2), 1, 0) == ColumnSum(s.allocation, Range(2), 0, 0) + s.allocation[0][0];
    assert ColumnSum(s.allocation, Range(2), 2, 0) == s.allocation[0][0] + s.allocation[1][0];
    hide Accounted, ColumnSum;
  }

  lemma TakenIsValid()
    ensures Invariant(TAKEN)
  {
    assert Accounted(TAKEN, 0) by { OneEntry(1, 0); }
    assert Accounted(TAKEN, 1) by { OneEntry(0, 1); }
    hide Accounted, Conserved;
    TwoThreadsBooked(TAKEN);
  }

  /** Releasing -1, thread 0 takes the instance that is not there. */
  lemma NegativeReleaseOverdraws()
    ensures Invariant(TAKEN) && Released(TAKEN, 0, [-1]).available == [-1]
    ensures Released(TAKEN, 0, [-1]).allocation == [[1], [1]]
  {
    TakenIsValid();
    hide Invariant;
    OneEntry(0, -1);
    OneEntry(-1, 0);
    assert [[0], [1]][0 := [1]] == [[1], [1]];
  }

  /** Thread 0 has both instances, and thread 1 sleeps until there is one. */
  const AWAITED := State(0, [2], [0], [[2], [0]], [[0], [1]], [[2], [1]], [[0], [1]], [Idle, Waiting])

  lemma AwaitedIsValid()
    ensures Invariant(AWAITED)
  {
    assert Accounted(AWAITED, 0) by { OneEntry(0, 2); }
    assert Accounted(AWAITED, 1) by { OneEntry(1, 0); }
    hide Accounted, Conserved;
    TwoThreadsBooked(AWAITED);
  }

  /** Requesting -1, thread 0 gives one back but signals nobody, and thread 1 sleeps on. */
  lemma NegativeRequestLosesWakeup() returns (end: State)
    ensures Invariant(AWAITED) && end == Requested(AWAITED, 0, [-1])
    ensures Booked(end) && end.phase[1] == Waiting && Guard(end, 1)
  {
    AwaitedIsValid();
    RequestKeepsBooksIff(AWAITED, 0, [-1]);
    hide Invariant, Booked;
    OneEntry(2, -1);
    OneEntry(0, -1);
    OneEntry(-1, 0);
    OneEntry(-1, 2);
    end := Requested(AWAITED, 0, [-1]);
  }
}
