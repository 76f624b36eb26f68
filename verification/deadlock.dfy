/**
 * What the invariant buys: avoidance excludes deadlock, detected deadlock is
 * permanent, and detection is exact with respect to all possible runs.
 */
module DeadlockTheorems {
  import opened Collections
  import opened Vectors
  import opened Banker
  import opened Protocol
  import opened ProtocolInvariant

  ghost function DeadlockedThreads(s: State): set<int>
    requires Shape(s)
  {
    Deadlocked(Pending(s))
  }

  /** Threads that are inside rm_request or hold something. */
  ghost function Active(s: State): set<int>
    requires Shape(s)
  {
    set t | t in Range(s.N()) && (s.phase[t] != Idle || Holds(s, t))
  }

  // ----- avoidance ------------------------------------------------------------------------

  /** Among threads that the rest holds nothing against, one can run to its full demand. */
  lemma CoveredThread(s: State, active: set<int>) returns (t: int)
    requires Invariant(s) && s.Avoids() && active != {} && active <= Range(s.N())
    requires forall i :: IsThread(s, i) && i !in active ==> !Holds(s, i)
    ensures t in active && AtMost(s.need[t], s.available) && Guard(s, t)
  {
    BookedWellFormed(s);
    SafeIffNoStuckSet(Needs(s));
    t := SomeoneFitsFree(Needs(s), active);
    assert Accounted(s, t);
    GrantToCoveredIsSafe(Needs(s), t, s.requests[t]);
    GuardIsSafe(s, t);
  }

  /** A request that passes the safety test is available, so is_available adds nothing to it. */
  lemma SafeRequestIsAvailable(s: State, t: int)
    requires Invariant(s) && IsThread(s, t)
    requires Passes(Grant(Needs(s), t, s.requests[t]))
    ensures AtMost(s.requests[t], s.available)
  {
    var l := Grant(Needs(s), t, s.requests[t]);
    assert Accounted(s, t);
    BookedWellFormed(s);
    GrantWellFormed(Needs(s), t, s.requests[t]);
    PassesIffSafe(l);
    forall i | 0 <= i < |l.wants| ensures NonNegative(l.wants[i]) {
      assert Accounted(s, i);
    }
    SafeImpliesFree(l);
    forall j | 0 <= j < s.M() ensures s.requests[t][j] <= s.available[j] {
      assert l.free[j] == s.available[j] - s.requests[t][j];
    }
  }

  /** Deadlock freedom: sleeping threads are always waiting for a thread that is not asleep. */
  lemma SleepersWaitForHolder(s: State, sleepers: set<int>)
    requires Invariant(s) && s.Avoids() && sleepers != {} && sleepers <= Range(s.N())
    requires forall t :: t in sleepers ==> s.phase[t] == Waiting
    ensures exists t :: IsThread(s, t) && t !in sleepers && Holds(s, t)
  {
    if forall t :: IsThread(s, t) && t !in sleepers ==> !Holds(s, t) {
      var t := CoveredThread(s, sleepers);
      assert false;
    }
  }

  /** With avoidance on, detection has nothing to report. */
  lemma AvoidanceExcludesDeadlock(s: State)
    requires Invariant(s) && s.Avoids()
    ensures DeadlockedThreads(s) == {}
  {
    BookedWellFormed(s);
    SafeIffNoStuckSet(Needs(s));
    DeadlockedIsLargestStuck(Pending(s));
    forall i | IsThread(s, i) ensures AtMost(s.requests[i], s.need[i]) {
      assert Accounted(s, i);
    }
    StuckMonotoneInWants(Pending(s), s.need, DeadlockedThreads(s));
  }

  // ----- permanence -----------------------------------------------------------------------

  /** A member of a stuck set is blocked: what it asks for is not even there. */
  lemma StuckIsBlocked(s: State, d: set<int>, t: int)
    requires Invariant(s) && Stuck(Pending(s), d) && t in d
    ensures s.phase[t] != Idle && !AtMost(s.requests[t], s.available) && !Guard(s, t)
  {
    BookedWellFormed(s);
    var l := Pending(s);
    var j :| 0 <= j < s.M() && l.wants[t][j] > Work(l, Threads(l) - d, j);
    ColumnSumMonotone(l.held, {}, Threads(l) - d, s.N(), j);
    assert Accounted(s, t);
  }

  lemma AllocatedKeepsStuck(s: State, t: int, d: set<int>)
    requires Shape(s) && IsThread(s, t) && Stuck(Pending(s), d) && t !in d
    ensures Stuck(Pending(Allocated(s, t)), d)
  {
    StuckAfterMoveOutside(Pending(s), t, s.requests[t], Zeros(s.M()), d);
  }

  lemma ReleasedKeepsStuck(s: State, t: int, r: Vector, d: set<int>)
    requires Shape(s) && IsThread(s, t) && |r| == s.M() && Stuck(Pending(s), d) && t !in d
    ensures Stuck(Pending(Released(s, t, r)), d)
  {
    if AtMost(r, s.allocation[t]) {
      var l := Pending(Released(s, t, r));
      assert Move(l, t, r, s.requests[t]) == Pending(s) by {
        assert Minus(Plus(s.available, r), r) == s.available;
        assert Plus(Minus(s.allocation[t], r), r) == s.allocation[t];
      }
      StuckAfterMoveOutside(l, t, r, s.requests[t], d);
    }
  }

  lemma RequestKeepsStuck(s: State, t: int, r: Vector, d: set<int>)
    requires Shape(s) && IsThread(s, t) && |r| == s.M() && Stuck(Pending(s), d) && t !in d
    ensures Stuck(Pending(Entered(s, t, r)), d)
  {
    var l := Pending(s);
    assert Move(l, t, Zeros(s.M()), r) == Pending(Entered(s, t, r)) by {
      assert Minus(s.available, Zeros(s.M())) == s.available;
      assert Plus(s.allocation[t], Zeros(s.M())) == s.allocation[t];
    }
    StuckAfterMoveOutside(l, t, Zeros(s.M()), r, d);
  }

  /** No action of anybody breaks up a stuck set. */
  lemma StepKeepsStuck(s: State, a: Action, d: set<int>)
    requires Invariant(s) && Enabled(s, a) && Stuck(Pending(s), d)
    ensures Stuck(Pending(Do(s, a)), d)
  {
    hide Stuck, Invariant, Safe, Guard, AtMost;
    if a.t in d {
      StuckIsBlocked(s, d, a.t);
    }
    match a
    case Claim(t, v) =>
      assert Pending(Do(s, a)) == Pending(s);
    case Request(t, v) =>
      RequestKeepsStuck(s, t, v, d);
      AllocatedKeepsStuck(Entered(s, t, v), t, d);
    case Recheck(t) =>
      if t !in d { AllocatedKeepsStuck(s, t, d); }
    case Release(t, v) => ReleasedKeepsStuck(s, t, v, d);
    case SpuriousWake(t) =>
  }

  /** Nor does it touch the requests in it. */
  lemma StepKeepsRequests(s: State, a: Action, d: set<int>)
    requires Invariant(s) && Enabled(s, a) && Stuck(Pending(s), d)
    ensures Do(s, a).N() == s.N()
    ensures forall t :: t in d ==> Do(s, a).requests[t] == s.requests[t]
  {
    assert d <= Range(s.N());
    if a.t in d {
      StuckIsBlocked(s, d, a.t);
    }
    hide Stuck, Invariant, Safe, Guard, AtMost;
  }

  lemma {:induction false} RunKeepsStuck(s: State, run: seq<Action>, end: State, d: set<int>)
    requires Invariant(s) && Leads(s, run, end) && Stuck(Pending(s), d)
    ensures Invariant(end) && end.N() == s.N() && Stuck(Pending(end), d)
    ensures forall t :: t in d ==> end.requests[t] == s.requests[t]
    decreases |run|
  {
    if run != [] {
      StepInvariant(s, run[0]);
      StepKeepsStuck(s, run[0], d);
      StepKeepsRequests(s, run[0], d);
      RunKeepsStuck(Do(s, run[0]), run[1..], end, d);
    }
  }

  /** Deadlock is permanent, so the number that rm_detection reports never decreases. */
  lemma DeadlockIsPermanent(s: State, run: seq<Action>, end: State)
    requires Invariant(s) && Leads(s, run, end)
    ensures Shape(end) && DeadlockedThreads(s) <= DeadlockedThreads(end)
    ensures |DeadlockedThreads(s)| <= |DeadlockedThreads(end)|
  {
    BookedWellFormed(s);
    DeadlockedIsLargestStuck(Pending(s));
    RunKeepsStuck(s, run, end, DeadlockedThreads(s));
    BookedWellFormed(end);
    DeadlockedIsLargestStuck(Pending(end));
    SubsetSize(DeadlockedThreads(s), DeadlockedThreads(end));
  }

  // ----- everybody else can finish --------------------------------------------------------

  /** Some active thread that is not deadlocked is outside its wait loop or passes its guard now. */
  lemma RunnableThread(s: State) returns (t: int)
    requires Invariant(s) && Active(s) - DeadlockedThreads(s) != {}
    ensures t in Active(s) - DeadlockedThreads(s) && Guard(s, t)
  {
    BookedWellFormed(s);
    var dead := DeadlockedThreads(s);
    if s.Avoids() {
      AvoidanceExcludesDeadlock(s);
      t := CoveredThread(s, Active(s));
    } else {
      DeadlockedIsLargestStuck(Pending(s));
      var all := Active(s) + dead;
      assert !Stuck(Pending(s), all);
      t := SomeoneFitsFree(Pending(s), all);
      if t in dead {
        StuckIsBlocked(s, dead, t);
        assert false;
      }
    }
  }

  /**
   * No wake-up is lost: when nobody is on the way back from a wait and no idle thread
   * holds anything, those who sleep are exactly the deadlocked ones.
   */
  lemma SleepersAreDeadlocked(s: State)
    requires Invariant(s)
    requires forall t :: IsThread(s, t) ==> s.phase[t] != Woken && (s.phase[t] == Idle ==> !Holds(s, t))
    ensures DeadlockedThreads(s) == set t | t in Range(s.N()) && s.phase[t] == Waiting
  {
    BookedWellFormed(s);
    DeadlockedIsLargestStuck(Pending(s));
    forall t | t in DeadlockedThreads(s) ensures s.phase[t] == Waiting {
      StuckIsBlocked(s, DeadlockedThreads(s), t);
    }
    if Active(s) - DeadlockedThreads(s) != {} {
      var t := RunnableThread(s);
      assert false;
    }
    forall t | t in Range(s.N()) && s.phase[t] == Waiting ensures t in DeadlockedThreads(s) {
      assert t in Active(s);
    }
  }

  lemma LeadsConcat(s: State, run: seq<Action>, mid: State, run': seq<Action>, end: State)
    requires Leads(s, run, mid) && Leads(mid, run', end)
    ensures Leads(s, run + run', end)
    decreases |run|
  {
    if run == [] {
      assert run + run' == run';
    } else {
      assert (run + run')[1..] == run[1..] + run';
      LeadsConcat(Do(s, run[0]), run[1..], mid, run', end);
    }
  }

  /** The actions of threads that only finish what they are doing, with no spurious wake-up. */
  predicate Finishing(run: seq<Action>) {
    forall a :: a in run ==> a.Recheck? || a.Release?
  }

  /** Nothing but the phases of sleepers differs between `s` and `s'` outside thread `t`. */
  ghost predicate SameButFor(s: State, s': State, t: int)
    requires Shape(s) && Shape(s')
  {
    && s'.mode == s.mode && s'.N() == s.N() && s'.M() == s.M()
    && forall i :: IsThread(s, i) && i != t ==>
         s'.allocation[i] == s.allocation[i] && s'.need[i] == s.need[i] && s'.requests[i] == s.requests[i]
         && (s'.phase[i] == Idle <==> s.phase[i] == Idle)
  }

  /** `end` is `s` after thread `t` has got what it asked for and given everything back. */
  ghost predicate ServedToTheEnd(s: State, t: int, end: State)
    requires Shape(s) && Shape(end) && IsThread(s, t)
  {
    && SameButFor(s, end, t)
    && end.phase[t] == Idle && !Holds(end, t) && end.requests[t] == Zeros(s.M())
    && end.available == Plus(s.available, s.allocation[t])
  }

  lemma ReturnAll(s: State, t: int) returns (run: seq<Action>, end: State)
    requires Invariant(s) && IsThread(s, t) && s.phase[t] == Idle
    ensures Finishing(run) && Leads(s, run, end) && Invariant(end)
    ensures ServedToTheEnd(s, t, end)
  {
    assert Accounted(s, t);
    var give := Release(t, s.allocation[t]);
    end := Do(s, give);
    StepInvariant(s, give);
    run := [give];
    assert Leads(end, [], end);
    assert run[1..] == [];
    assert Minus(s.allocation[t], s.allocation[t]) == Zeros(s.M());
  }

  lemma ServedAfterAllocation(s: State, t: int, end: State)
    requires Invariant(s) && IsThread(s, t) && Shape(end)
    requires ServedToTheEnd(Allocated(s, t), t, end)
    ensures ServedToTheEnd(s, t, end)
  {
    assert end.available == Plus(s.available, s.allocation[t]);
    var mid := Allocated(s, t);
    forall i | IsThread(s, i) && i != t
      ensures end.allocation[i] == s.allocation[i] && end.requests[i] == s.requests[i]
      ensures end.phase[i] == Idle <==> s.phase[i] == Idle
    {
      assert mid.allocation[i] == s.allocation[i];
    }
  }

  /** A thread whose guard holds gets its request and then gives everything back. */
  lemma ServeAndRelease(s: State, t: int) returns (run: seq<Action>, end: State)
    requires Invariant(s) && IsThread(s, t) && Guard(s, t)
    ensures Finishing(run) && Leads(s, run, end) && Invariant(end)
    ensures ServedToTheEnd(s, t, end)
  {
    if s.phase[t] == Idle {
      run, end := ReturnAll(s, t);
    } else {
      var recheck := Recheck(t);
      assert Enabled(s, recheck) && Do(s, recheck) == Allocated(s, t);
      StepInvariant(s, recheck);
      var rest;
      rest, end := ReturnAll(Allocated(s, t), t);
      ServedAfterAllocation(s, t, end);
      run := [recheck] + rest;
      assert run[1..] == rest;
    }
  }

  lemma ServedLedger(s: State, t: int, end: State)
    requires Shape(s) && Shape(end) && IsThread(s, t) && ServedToTheEnd(s, t, end)
    ensures Pending(s) == Move(Pending(end), t, s.allocation[t], s.requests[t])
  {
    assert Minus(Plus(s.available, s.allocation[t]), s.allocation[t]) == s.available;
    assert Plus(Zeros(s.M()), s.allocation[t]) == s.allocation[t];
    assert end.allocation[t := s.allocation[t]] == s.allocation;
    assert end.requests[t := s.requests[t]] == s.requests;
  }

  /** Serving a thread to the end leaves the deadlocked threads as they are. */
  lemma ServedKeepsDeadlocked(s: State, t: int, end: State)
    requires Invariant(s) && Invariant(end) && IsThread(s, t) && ServedToTheEnd(s, t, end)
    requires t !in DeadlockedThreads(s)
    ensures DeadlockedThreads(end) == DeadlockedThreads(s)
  {
    BookedWellFormed(s);
    BookedWellFormed(end);
    var dead, dead' := DeadlockedThreads(s), DeadlockedThreads(end);
    DeadlockedIsLargestStuck(Pending(s));
    DeadlockedIsLargestStuck(Pending(end));
    ServedLedger(s, t, end);
    StuckAfterMoveOutside(Pending(end), t, s.allocation[t], s.requests[t], dead);
    if t in dead' {
      StuckIsBlocked(end, dead', t);
      assert false;
    }
    StuckAfterMoveOutside(Pending(end), t, s.allocation[t], s.requests[t], dead');
  }

  ghost function Unfinished(s: State): set<int>
    requires Shape(s)
  {
    Active(s) - DeadlockedThreads(s)
  }

  lemma FinishOne(s: State) returns (run: seq<Action>, end: State)
    requires Invariant(s) && Unfinished(s) != {}
    ensures Finishing(run) && Leads(s, run, end) && Invariant(end) && end.N() == s.N()
    ensures DeadlockedThreads(end) == DeadlockedThreads(s)
    ensures |Unfinished(end)| < |Unfinished(s)|
  {
    var t := RunnableThread(s);
    run, end := ServeAndRelease(s, t);
    ServedKeepsDeadlocked(s, t, end);
    assert t in Unfinished(s) && t !in Unfinished(end) && Unfinished(end) <= Unfinished(s);
    SubsetSize(Unfinished(end), Unfinished(s));
  }

  /**
   * From every state there is a run, needing no further request and no spurious
   * wake-up, after which all threads except the deadlocked ones have been granted
   * what they asked for and hold nothing.
   */
  lemma {:induction false} AllOthersCanFinish(s: State) returns (run: seq<Action>, end: State)
    requires Invariant(s)
    ensures Finishing(run) && Leads(s, run, end) && Invariant(end) && end.N() == s.N()
    ensures Active(end) <= DeadlockedThreads(s)
    decreases |Unfinished(s)|
  {
    hide Invariant;
    if Unfinished(s) == {} {
      run, end := [], s;
    } else {
      var first, mid := FinishOne(s);
      var rest;
      rest, end := AllOthersCanFinish(mid);
      run := first + rest;
      LeadsConcat(s, first, mid, rest, end);
    }
  }

  /** Thread `t` is inside rm_request. */
  ghost predicate Blocked(s: State, t: int) {
    Shape(s) && IsThread(s, t) && s.phase[t] != Idle
  }

  lemma DeadlockedStaysBlocked(s: State, t: int, run: seq<Action>, end: State)
    requires Invariant(s) && t in DeadlockedThreads(s) && Leads(s, run, end)
    ensures Blocked(end, t)
  {
    BookedWellFormed(s);
    DeadlockedIsLargestStuck(Pending(s));
    RunKeepsStuck(s, run, end, DeadlockedThreads(s));
    StuckIsBlocked(end, DeadlockedThreads(s), t);
  }

  lemma OtherCanReturn(s: State, t: int) returns (run: seq<Action>, end: State)
    requires Invariant(s) && IsThread(s, t) && t !in DeadlockedThreads(s)
    ensures Leads(s, run, end) && !Blocked(end, t)
  {
    run, end := AllOthersCanFinish(s);
    assert t !in Active(end) && t in Range(end.N());
  }

  /** No continuation of `s` ever lets the request of thread `t` return. */
  ghost predicate NeverServed(s: State, t: int) {
    forall run, end :: Leads(s, run, end) ==> Blocked(end, t)
  }

  /** Detection is exact: a thread is reported iff its request can never return. */
  lemma DetectedIffNeverServed(s: State, t: int)
    requires Invariant(s) && IsThread(s, t)
    ensures t in DeadlockedThreads(s) <==> NeverServed(s, t)
  {
    if t in DeadlockedThreads(s) {
      forall run, end | Leads(s, run, end) ensures Blocked(end, t) {
        DeadlockedStaysBlocked(s, t, run, end);
      }
      assert NeverServed(s, t);
    } else {
      var run, end := OtherCanReturn(s, t);
      assert !NeverServed(s, t);
    }
  }

  /** With avoidance on, every reachable state can be run down to one where all is returned. */
  lemma AvoidanceCanAlwaysFinish(s: State) returns (run: seq<Action>, end: State)
    requires Invariant(s) && s.Avoids()
    ensures Finishing(run) && Leads(s, run, end) && Shape(end) && end.N() == s.N()
    ensures Active(end) == {}
  {
    AvoidanceExcludesDeadlock(s);
    run, end := AllOthersCanFinish(s);
  }

  // ----- unsafe states can deadlock -----------------------------------------------------------

  /** A member of a set that is stuck on its needs cannot have all it may still ask for. */
  lemma NeedExceedsAvailable(s: State, d: set<int>, t: int)
    requires Invariant(s) && Stuck(Needs(s), d) && t in d
    ensures !AtMost(s.need[t], s.available)
  {
    BookedWellFormed(s);
    var l := Needs(s);
    var j :| 0 <= j < s.M() && l.wants[t][j] > Work(l, Threads(l) - d, j);
    ColumnSumMonotone(l.held, {}, Threads(l) - d, s.N(), j);
    EmptySum(l.held, s.N(), j);
  }

  /** Among the active threads that are not stuck on their needs, one can have all it may ask for. */
  lemma CoverableThread(s: State) returns (t: int)
    requires Invariant(s) && !s.Avoids() && Active(s) - Deadlocked(Needs(s)) != {}
    ensures t in Active(s) - Deadlocked(Needs(s)) && Guard(s, t)
  {
    BookedWellFormed(s);
    var dead := Deadlocked(Needs(s));
    DeadlockedIsLargestStuck(Needs(s));
    var all := Active(s) + dead;
    assert !Stuck(Needs(s), all);
    t := SomeoneFitsFree(Needs(s), all);
    if t in dead {
      NeedExceedsAvailable(s, dead, t);
      assert false;
    }
    assert Accounted(s, t);
  }

  lemma ServedNeeds(s: State, t: int, end: State, d: set<int>)
    requires Invariant(s) && Invariant(end) && IsThread(s, t) && ServedToTheEnd(s, t, end)
    requires Stuck(Needs(s), d) && t !in d
    ensures Stuck(Needs(end), d)
  {
    hide Stuck;
    assert Needs(s) == Move(Needs(end), t, s.allocation[t], s.need[t]) by {
      assert Minus(Plus(s.available, s.allocation[t]), s.allocation[t]) == s.available;
      assert Plus(Zeros(s.M()), s.allocation[t]) == s.allocation[t];
      assert end.allocation[t := s.allocation[t]] == s.allocation;
      assert end.need[t := s.need[t]] == s.need;
    }
    StuckAfterMoveOutside(Needs(end), t, s.allocation[t], s.need[t], d);
  }

  /** All active threads are stuck on their needs. */
  ghost predicate OnlyStuckActive(s: State)
    requires Shape(s)
  {
    Active(s) <= Deadlocked(Needs(s))
  }

  lemma ServedIsNotActive(s: State, t: int, end: State)
    requires Shape(s) && Shape(end) && IsThread(s, t) && ServedToTheEnd(s, t, end)
    requires t in Active(s)
    ensures |Active(end)| < |Active(s)|
  {
    assert t !in Active(end) && Active(end) <= Active(s);
    SubsetSize(Active(end), Active(s));
  }

  lemma DrainOne(s: State) returns (run: seq<Action>, end: State)
    requires Invariant(s) && !s.Avoids() && !OnlyStuckActive(s)
    ensures Finishing(run) && Leads(s, run, end) && Invariant(end) && !end.Avoids()
    ensures Deadlocked(Needs(s)) <= Deadlocked(Needs(end))
    ensures |Active(end)| < |Active(s)|
  {
    var t := CoverableThread(s);
    run, end := ServeAndRelease(s, t);
    BookedWellFormed(s);
    BookedWellFormed(end);
    DeadlockedIsLargestStuck(Needs(s));
    DeadlockedIsLargestStuck(Needs(end));
    hide Stuck, Deadlocked, Invariant, WellFormed;
    ServedNeeds(s, t, end, Deadlocked(Needs(s)));
    ServedIsNotActive(s, t, end);
  }

  /** The threads that are not stuck on their needs can be run to the end, and the others still are. */
  lemma {:induction false} DrainOthers(s: State) returns (run: seq<Action>, end: State)
    requires Invariant(s) && !s.Avoids()
    ensures Finishing(run) && Leads(s, run, end) && Invariant(end) && !end.Avoids()
    ensures Deadlocked(Needs(s)) <= Deadlocked(Needs(end)) && OnlyStuckActive(end)
    decreases |Active(s)|
  {
    hide Invariant, Deadlocked;
    if OnlyStuckActive(s) {
      run, end := [], s;
    } else {
      var first, mid := DrainOne(s);
      var rest;
      rest, end := DrainOthers(mid);
      run := first + rest;
      LeadsConcat(s, first, mid, rest, end);
    }
  }

  /** `d` is stuck on its needs, and nobody outside it is active. */
  ghost predicate Cornered(s: State, d: set<int>) {
    Invariant(s) && !s.Avoids() && Stuck(Needs(s), d) && Active(s) <= d
  }

  predicate WithinClaims(run: seq<Action>) {
    forall a :: a in run ==> a.Recheck? || a.Release? || a.Request?
  }

  lemma NeedWithinStock(s: State, t: int)
    requires Invariant(s) && IsThread(s, t)
    ensures NonNegative(s.need[t]) && !Refused(s, t, s.need[t])
  {
    assert Accounted(s, t);
    forall j | 0 <= j < s.M() ensures s.need[t][j] <= s.existing[j] {
      assert s.maxDemand[t][j] == s.need[t][j] + s.allocation[t][j];
    }
  }

  /** An idle member that asks for all it may ask for is put to sleep. */
  lemma AskForAll(s: State, d: set<int>, t: int) returns (ask: Action, end: State)
    requires Cornered(s, d) && t in d && s.phase[t] == Idle
    ensures ask.Request? && Enabled(s, ask) && end == Do(s, ask)
    ensures Cornered(end, d) && end.phase == s.phase[t := Waiting]
  {
    NeedWithinStock(s, t);
    NeedExceedsAvailable(s, d, t);
    ask := Request(t, s.need[t]);
    end := Do(s, ask);
    StepInvariant(s, ask);
    hide Invariant, Safe, NonNegative;
    assert Needs(end) == Needs(s);
  }

  /** A woken member sleeps on, or gets what it asked for and is as stuck as before. */
  lemma RecheckCornered(s: State, d: set<int>, t: int) returns (end: State)
    requires Cornered(s, d) && t in d && s.phase[t] == Woken
    ensures Enabled(s, Recheck(t)) && end == Do(s, Recheck(t)) && Cornered(end, d)
    ensures end.phase == s.phase[t := Waiting] || end.phase == s.phase[t := Idle]
  {
    assert Accounted(s, t);
    end := Do(s, Recheck(t));
    StepInvariant(s, Recheck(t));
    if Guard(s, t) {
      assert Needs(end) == Grant(Needs(s), t, s.requests[t]);
      GrantKeepsStuck(Needs(s), t, s.requests[t], d);
    } else {
      assert Needs(end) == Needs(s);
    }
  }

  lemma LeadsOne(s: State, a: Action)
    requires Shape(s) && Enabled(s, a)
    ensures Leads(s, [a], Do(s, a))
  {
    assert [a][1..] == [];
    assert Leads(Do(s, a), [], Do(s, a));
  }

  /** The members of `d` that are not asleep. */
  ghost function Awake(s: State, d: set<int>): set<int>
    requires Shape(s) && d <= Range(s.N())
  {
    set t | t in d && s.phase[t] != Waiting
  }

  lemma FewerAwake(s: State, end: State, d: set<int>, t: int)
    requires Shape(s) && Shape(end) && d <= Range(s.N())
    requires t in Awake(s, d) && end.phase == s.phase[t := Waiting]
    ensures |Awake(end, d)| < |Awake(s, d)|
  {
    SubsetSize(Awake(end, d), Awake(s, d));
  }

  lemma PutToSleep(s: State, d: set<int>, t: int) returns (run: seq<Action>, end: State)
    requires Cornered(s, d) && t in Awake(s, d)
    ensures WithinClaims(run) && Leads(s, run, end)
    ensures Cornered(end, d) && |Awake(end, d)| < |Awake(s, d)|
  {
    hide Invariant, Enabled, Do, Active;
    assert d <= Range(s.N());
    hide Stuck;
    run, end := [], s;
    if s.phase[t] == Woken {
      end := RecheckCornered(s, d, t);
      run := [Recheck(t)];
      LeadsOne(s, Recheck(t));
    }
    if end.phase[t] == Idle {
      var mid, ask := end, Recheck(t);
      ask, end := AskForAll(mid, d, t);
      LeadsOne(mid, ask);
      LeadsConcat(s, run, mid, [ask], end);
      run := run + [ask];
    }
    hide Cornered, Leads;
    FewerAwake(s, end, d, t);
  }

  lemma {:induction false} PutAllToSleep(s: State, d: set<int>) returns (run: seq<Action>, end: State)
    requires Cornered(s, d)
    ensures WithinClaims(run) && Leads(s, run, end)
    ensures Cornered(end, d) && Awake(end, d) == {}
    decreases |Awake(s, d)|
  {
    if Awake(s, d) == {} {
      run, end := [], s;
    } else {
      var t := Pick(Awake(s, d));
      var first, mid := PutToSleep(s, d, t);
      hide Cornered, Awake;
      var rest;
      rest, end := PutAllToSleep(mid, d);
      run := first + rest;
      LeadsConcat(s, first, mid, rest, end);
    }
  }

  /** With everybody else empty-handed, those who all sleep wait for each other. */
  lemma SleepersAreStuck(s: State, d: set<int>)
    requires Cornered(s, d) && Awake(s, d) == {}
    ensures Stuck(Pending(s), d)
  {
    var l := Pending(s);
    forall t | t in d ensures !Fits(l, t, Threads(l) - d) {
      assert t !in Awake(s, d) && !Guard(s, t);
      var j :| 0 <= j < s.M() && s.requests[t][j] > s.available[j];
      ColumnSumIgnoresZeros(l.held, Threads(l) - d, {}, s.N(), j);
      EmptySum(l.held, s.N(), j);
      assert l.wants[t][j] > Work(l, Threads(l) - d, j);
    }
  }

  /**
   * What the safety test guards against: every unsafe state can be driven into deadlock
   * without a further claim, and the threads that end up deadlocked include all those
   * that could not be served.
   */
  lemma UnsafeCanDeadlock(s: State) returns (run: seq<Action>, end: State)
    requires Invariant(s) && !Safe(Needs(s))
    ensures WithinClaims(run) && Leads(s, run, end) && Shape(end)
    ensures {} < Deadlocked(Needs(s)) <= DeadlockedThreads(end)
  {
    BookedWellFormed(s);
    SafeIffNoneDeadlocked(Needs(s));
    var drain, mid := DrainOthers(s);
    BookedWellFormed(mid);
    DeadlockedIsLargestStuck(Needs(mid));
    var d := Deadlocked(Needs(mid));
    var rest;
    rest, end := PutAllToSleep(mid, d);
    run := drain + rest;
    LeadsConcat(s, drain, mid, rest, end);
    SleepersAreStuck(end, d);
    BookedWellFormed(end);
    DeadlockedIsLargestStuck(Pending(end));
  }

  // ----- the claim is not optional --------------------------------------------------------

  /** In either mode a request is refused iff it would take its thread beyond its claim. */
  lemma RefusedIffBeyondClaim(s: State, t: int, r: Vector)
    requires Invariant(s) && IsThread(s, t) && |r| == s.M()
    ensures Refused(s, t, r) <==> !AtMost(Plus(s.allocation[t], r), s.maxDemand[t])
  {
    assert Accounted(s, t);
    forall j | 0 <= j < s.M()
      ensures r[j] <= s.need[t][j] <==> s.allocation[t][j] + r[j] <= s.maxDemand[t][j]
      ensures r[j] <= s.need[t][j] ==> r[j] <= s.existing[j]
    {
      assert s.maxDemand[t][j] == s.need[t][j] + s.allocation[t][j] <= s.existing[j];
    }
  }

  /** Claims are documented to matter for avoidance only; without one, any request for something is refused. */
  lemma UnclaimedIsRefused(s: State, t: int, r: Vector)
    requires Invariant(s) && IsThread(s, t) && s.maxDemand[t] == Zeros(s.M())
    requires |r| == s.M() && NonNegative(r)
    ensures Refused(s, t, r) <==> r != Zeros(s.M())
  {
    RefusedIffBeyondClaim(s, t, r);
    assert Accounted(s, t);
    forall j | 0 <= j < s.M() ensures s.allocation[t][j] == 0 {
      assert s.maxDemand[t][j] == s.need[t][j] + s.allocation[t][j];
    }
    if AtMost(Plus(s.allocation[t], r), s.maxDemand[t]) {
      assert forall j :: 0 <= j < s.M() ==> r[j] == Plus(s.allocation[t], r)[j] <= 0;
      assert r == Zeros(s.M());
    }
  }

  /** With avoidance off and one instance free, the only thread is refused that instance. */
  lemma FreeInstanceRefused()
    ensures Reachable(Initial(1, [1], 0)) && Refused(Initial(1, [1], 0), 0, [1])
  {
    var s := Initial(1, [1], 0);
    assert NonNegative([1]) && Leads(s, [], s);
    assert [1][0] > s.need[0][0];
  }

  lemma StepKeepsDemand(s: State, a: Action, t: int)
    requires Shape(s) && Enabled(s, a) && IsThread(s, t) && (a.Claim? ==> a.t != t)
    ensures IsThread(Do(s, a), t) && Do(s, a).maxDemand[t] == s.maxDemand[t]
    ensures Do(s, a).M() == s.M()
  {
  }

  /** Without a claim of its own a thread holds nothing, whether or not avoidance is on. */
  lemma {:induction false} UnclaimedHoldsNothing(s: State, run: seq<Action>, end: State, t: int)
    requires Invariant(s) && IsThread(s, t) && s.maxDemand[t] == Zeros(s.M())
    requires Leads(s, run, end)
    requires forall a :: a in run && a.Claim? ==> a.t != t
    ensures Shape(end) && IsThread(end, t) && !Holds(end, t)
    decreases |run|
  {
    if run == [] {
      assert Accounted(s, t);
      forall j | 0 <= j < s.M() ensures s.allocation[t][j] == 0 {
        assert s.maxDemand[t][j] == s.need[t][j] + s.allocation[t][j];
      }
      assert s.allocation[t] == Zeros(s.M());
    } else {
      StepInvariant(s, run[0]);
      StepKeepsDemand(s, run[0], t);
      UnclaimedHoldsNothing(Do(s, run[0]), run[1..], end, t);
    }
  }
}
