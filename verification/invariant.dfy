/** Every reachable state of the resource manager satisfies `Protocol.Invariant`. */
module ProtocolInvariant {
  import opened Collections
  import opened Vectors
  import opened Banker
  import opened Protocol

  lemma BookedWellFormed(s: State)
    requires Booked(s)
    ensures WellFormed(Needs(s)) && WellFormed(Pending(s))
  {
    forall t | IsThread(s, t) ensures NonNegative(s.allocation[t]) {
      assert Accounted(s, t);
    }
  }

  /** What the wait loops test, in terms of safety. */
  lemma GuardIsSafe(s: State, t: int)
    requires Shape(s) && IsThread(s, t) && WellFormed(Needs(s)) && NonNegative(s.requests[t])
    ensures s.Avoids() ==>
      (Guard(s, t) <==> AtMost(s.requests[t], s.available) && Safe(Grant(Needs(s), t, s.requests[t])))
  {
    GrantWellFormed(Needs(s), t, s.requests[t]);
    PassesIffSafe(Grant(Needs(s), t, s.requests[t]));
  }

  // ----- the books, in every mode ------------------------------------------------------------

  lemma InitialBooked(n: nat, existing: Vector, mode: int)
    ensures Booked(Initial(n, existing, mode)) <==> n == 0 || NonNegative(existing)
  {
    var s := Initial(n, existing, mode);
    forall j | 0 <= j < s.M() ensures ColumnSum(s.allocation, Range(n), n, j) == 0 {
      ColumnSumIgnoresZeros(s.allocation, Range(n), {}, n, j);
      EmptySum(s.allocation, n, j);
    }
    if n > 0 && Booked(s) {
      assert Accounted(s, 0);
      forall j | 0 <= j < s.M() ensures 0 <= existing[j] {
        assert s.maxDemand[0][j] <= existing[j];
      }
    }
  }

  lemma PhasesBooked(s: State, phase: seq<Phase>)
    requires Booked(s) && |phase| == s.N()
    requires forall t :: IsThread(s, t) && phase[t] == Idle ==> s.phase[t] == Idle
    ensures Booked(s.(phase := phase))
  {
    var s' := s.(phase := phase);
    forall t | IsThread(s', t) ensures Accounted(s', t) {
      assert Accounted(s, t);
    }
  }

  lemma EnteredBooked(s: State, t: int, r: Vector)
    requires Booked(s) && IsThread(s, t) && |r| == s.M() && NonNegative(r) && AtMost(r, s.need[t])
    ensures Booked(Entered(s, t, r))
  {
    var s' := Entered(s, t, r);
    forall i | IsThread(s', i) ensures Accounted(s', i) {
      assert Accounted(s, i);
    }
  }

  /** An allocation keeps the books, whether or not the stock covers it. */
  lemma AllocatedBooked(s: State, t: int)
    requires Booked(s) && IsThread(s, t)
    ensures Booked(Allocated(s, t))
  {
    var r, s' := s.requests[t], Allocated(s, t);
    forall i | IsThread(s, i) ensures Accounted(s', i) {
      assert Accounted(s, i);
    }
    forall j | 0 <= j < s.M()
      ensures ColumnSum(s'.allocation, Range(s.N()), s.N(), j)
           == ColumnSum(s.allocation, Range(s.N()), s.N(), j) + r[j]
    {
      ColumnSumUpdate(s.allocation, t, Plus(s.allocation[t], r), Range(s.N()), s.N(), j);
    }
  }

  lemma RecheckedBooked(s: State, t: int)
    requires Booked(s) && IsThread(s, t)
    ensures Booked(Rechecked(s, t))
  {
    if Guard(s, t) {
      AllocatedBooked(s, t);
    } else {
      PhasesBooked(s, s.phase[t := Waiting]);
    }
  }

  lemma ReleasedBooked(s: State, t: int, r: Vector)
    requires Booked(s) && IsThread(s, t) && |r| == s.M() && NonNegative(r) && s.phase[t] == Idle
    ensures Booked(Released(s, t, r))
  {
    if AtMost(r, s.allocation[t]) {
      var s' := Released(s, t, r);
      forall i | IsThread(s, i) ensures Accounted(s', i) {
        assert Accounted(s, i);
      }
      ReleasedConserves(s, t, r);
    }
  }

  lemma ReleasedConserves(s: State, t: int, r: Vector)
    requires Shape(s) && Conserved(s) && IsThread(s, t) && |r| == s.M()
    ensures Conserved(Released(s, t, r))
  {
    var s' := Released(s, t, r);
    if AtMost(r, s.allocation[t]) {
      forall j | 0 <= j < s.M()
        ensures ColumnSum(s'.allocation, Range(s.N()), s.N(), j)
             == ColumnSum(s.allocation, Range(s.N()), s.N(), j) - r[j]
      {
        ColumnSumUpdate(s.allocation, t, Minus(s.allocation[t], r), Range(s.N()), s.N(), j);
      }
    }
  }

  lemma ClaimedBooked(s: State, t: int, c: Vector)
    requires Booked(s) && IsThread(s, t) && |c| == s.M() && NonNegative(c)
    requires s.phase[t] == Idle && !Holds(s, t)
    ensures Booked(Claimed(s, t, c))
  {
    if AtMost(c, s.existing) {
      var s' := Claimed(s, t, c);
      forall i | IsThread(s', i) ensures Accounted(s', i) {
        assert Accounted(s, i);
      }
    }
  }

  lemma StepBooked(s: State, a: Action)
    requires Booked(s) && Enabled(s, a)
    ensures Booked(Do(s, a))
    ensures Do(s, a).mode == s.mode && Do(s, a).N() == s.N() && Do(s, a).existing == s.existing
  {
    match a
    case Claim(t, v) => ClaimedBooked(s, t, v);
    case Request(t, v) =>
      if !Refused(s, t, v) {
        EnteredBooked(s, t, v);
        RecheckedBooked(Entered(s, t, v), t);
      }
    case Recheck(t) => RecheckedBooked(s, t);
    case Release(t, v) => ReleasedBooked(s, t, v);
    case SpuriousWake(t) => PhasesBooked(s, s.phase[t := Woken]);
  }

  /** In every mode, every run keeps the books. */
  lemma {:induction false} RunBooked(s: State, run: seq<Action>, end: State)
    requires Booked(s) && Leads(s, run, end)
    ensures Booked(end) && end.mode == s.mode && end.N() == s.N() && end.existing == s.existing
    decreases |run|
  {
    if run != [] {
      StepBooked(s, run[0]);
      RunBooked(Do(s, run[0]), run[1..], end);
    }
  }

  // ----- the invariant, in the two documented modes -------------------------------------------

  lemma EmptyHandedIsSafe(n: nat, existing: Vector, mode: int)
    requires NonNegative(existing)
    ensures Safe(Needs(Initial(n, existing, mode)))
  {
    var s := Initial(n, existing, mode);
    SafeIffNoStuckSet(Needs(s));
    forall d | Stuck(Needs(s), d) ensures d == {} {
      forall i | i in d ensures false {
        var j :| 0 <= j < s.M() && Needs(s).wants[i][j] > Work(Needs(s), Threads(Needs(s)) - d, j);
        ColumnSumMonotone(s.allocation, {}, Threads(Needs(s)) - d, n, j);
      }
    }
  }

  /** rm_init does not check the stock for negative entries, which its documentation promises to refuse. */
  lemma InitialInvariant(n: nat, existing: Vector, mode: int)
    ensures Invariant(Initial(n, existing, mode)) <==> NonNegative(existing) && (mode == 0 || mode == 1)
  {
    InitialBooked(n, existing, mode);
    if NonNegative(existing) {
      EmptyHandedIsSafe(n, existing, mode);
    }
  }

  /** Going to sleep is right when the guard is false, and waking up always is. */
  lemma PhasesInvariant(s: State, phase: seq<Phase>)
    requires Invariant(s) && |phase| == s.N()
    requires forall t :: IsThread(s, t) && phase[t] == Idle ==> s.phase[t] == Idle
    requires forall t :: IsThread(s, t) && phase[t] == Waiting ==> !Guard(s, t)
    ensures Invariant(s.(phase := phase))
  {
    var s' := s.(phase := phase);
    PhasesBooked(s, phase);
    forall t | IsThread(s', t) && phase[t] == Waiting ensures !Guard(s', t) {
      assert Needs(s') == Needs(s);
    }
  }

  /** Allocating to one thread never makes another one's guard true. */
  lemma AllocationUnblocksNobody(s: State, t: int, w: int)
    requires Invariant(s) && IsThread(s, t) && IsThread(s, w) && t != w
    ensures Guard(Allocated(s, t), w) ==> Guard(s, w)
  {
    assert Accounted(s, t) && Accounted(s, w);
    if s.Avoids() && Guard(Allocated(s, t), w) {
      var r, q := s.requests[t], s.requests[w];
      BookedWellFormed(s);
      AllocatedBooked(s, t);
      BookedWellFormed(Allocated(s, t));
      GuardIsSafe(s, w);
      GuardIsSafe(Allocated(s, t), w);
      hide Safe, Guard, Invariant, Booked;
      GrantsCommute(Needs(s), t, r, w, q);
      assert Needs(Allocated(s, t)) == Grant(Needs(s), t, r);
      GrantWellFormed(Needs(s), w, q);
      UndoneGrantIsSafe(Grant(Needs(s), w, q), t, r);
    }
  }

  lemma RecheckedInvariant(s: State, t: int)
    requires Invariant(s) && IsThread(s, t)
    requires s.phase[t] == Woken
    ensures Invariant(Rechecked(s, t))
  {
    var s' := Rechecked(s, t);
    if Guard(s, t) {
      AllocatedBooked(s, t);
      BookedWellFormed(s);
      assert Accounted(s, t);
      GuardIsSafe(s, t);
      assert Needs(s') == Grant(Needs(s), t, s.requests[t]);
      forall w | IsThread(s, w) && s'.phase[w] == Waiting ensures !Guard(s', w) {
        AllocationUnblocksNobody(s, t, w);
      }
    } else {
      PhasesInvariant(s, s'.phase);
    }
  }

  lemma EnteredInvariant(s: State, t: int, r: Vector)
    requires Invariant(s) && IsThread(s, t) && |r| == s.M() && NonNegative(r)
    requires s.phase[t] == Idle && AtMost(r, s.need[t])
    ensures Invariant(Entered(s, t, r))
  {
    var s' := Entered(s, t, r);
    EnteredBooked(s, t, r);
    forall w | IsThread(s, w) && s'.phase[w] == Waiting ensures !Guard(s', w) {
      assert !Guard(s, w);
    }
  }

  /** The same amounts, taken instead of given. */
  function Negated(r: Vector): (v: Vector)
    ensures |v| == |r| && forall j :: 0 <= j < |r| ==> v[j] == -r[j]
  {
    Minus(Zeros(|r|), r)
  }

  /** A release, whole or partial, is a grant taken back. */
  lemma ReleaseUndoesGrant(s: State, t: int, r: Vector)
    requires Shape(s) && IsThread(s, t) && |r| == s.M() && AtMost(r, s.allocation[t])
    ensures Grant(Needs(Released(s, t, r)), t, r) == Needs(s)
    ensures Needs(Released(s, t, r)) == Grant(Needs(s), t, Negated(r))
  {
    assert Minus(Plus(s.available, r), r) == s.available;
    assert Plus(Minus(s.allocation[t], r), r) == s.allocation[t];
    assert Minus(Plus(s.need[t], r), r) == s.need[t];
    assert Plus(s.available, r) == Minus(s.available, Negated(r));
    assert Minus(s.allocation[t], r) == Plus(s.allocation[t], Negated(r));
    assert Plus(s.need[t], r) == Minus(s.need[t], Negated(r));
  }

  lemma ReleasedInvariant(s: State, t: int, r: Vector)
    requires Invariant(s) && IsThread(s, t) && |r| == s.M() && NonNegative(r)
    requires s.phase[t] == Idle
    ensures Invariant(Released(s, t, r))
  {
    if AtMost(r, s.allocation[t]) {
      ReleasedBooked(s, t, r);
      if s.Avoids() {
        BookedWellFormed(Released(s, t, r));
        ReleaseUndoesGrant(s, t, r);
        UndoneGrantIsSafe(Needs(Released(s, t, r)), t, r);
      }
    }
  }

  /** A claim by an empty-handed thread is invisible to the safety test of anybody else. */
  lemma ClaimIsInvisible(l: Ledger, s: State, t: int, c: Vector)
    requires Invariant(s) && IsThread(s, t) && |c| == s.M() && NonNegative(c) && AtMost(c, s.existing)
    requires WellFormed(l) && |l.held| == s.N() && |l.free| == s.M()
    requires l.held[t] == Zeros(s.M())
    requires forall j :: 0 <= j < s.M() ==> Work(l, Threads(l), j) == s.existing[j]
    requires l.wants[t] == s.need[t]
    ensures Safe(l) <==> Safe(l.(wants := l.wants[t := c]))
  {
    var l' := l.(wants := l.wants[t := c]);
    assert l'.wants[t := s.need[t]] == l.wants;
    assert forall j :: 0 <= j < s.M() ==> Work(l', Threads(l'), j) == s.existing[j];
    if Safe(l) { WantsOfEmptyHanded(l', t, s.need[t]); }
    if Safe(l') { WantsOfEmptyHanded(l, t, c); }
  }

  lemma ClaimedGrant(s: State, t: int, c: Vector, w: int, q: Vector)
    requires Shape(s) && IsThread(s, t) && IsThread(s, w) && t != w
    requires |c| == |q| == s.M() && AtMost(c, s.existing)
    ensures Grant(Needs(Claimed(s, t, c)), w, q)
         == Grant(Needs(s), w, q).(wants := Grant(Needs(s), w, q).wants[t := c])
  {
    var want := Minus(s.need[w], q);
    assert s.need[t := c][w := want] == s.need[w := want][t := c];
  }

  /** A claim never makes a guard true. */
  lemma ClaimUnblocksNobody(s: State, t: int, c: Vector, w: int)
    requires Invariant(s) && IsThread(s, t) && |c| == s.M() && NonNegative(c)
    requires s.phase[t] == Idle && !Holds(s, t)
    requires IsThread(s, w) && s.phase[w] != Idle
    ensures Guard(Claimed(s, t, c), w) ==> Guard(s, w)
  {
    if AtMost(c, s.existing) && s.Avoids() && Guard(Claimed(s, t, c), w) {
      var q := s.requests[w];
      assert NonNegative(q) by { assert Accounted(s, w); }
      BookedWellFormed(s);
      ClaimedBooked(s, t, c);
      BookedWellFormed(Claimed(s, t, c));
      GuardIsSafe(s, w);
      GuardIsSafe(Claimed(s, t, c), w);
      GrantWellFormed(Needs(s), w, q);
      hide Safe, Passes, NoLostWakeup, Accounted;
      ClaimedGrant(s, t, c, w, q);
      ClaimIsInvisible(Grant(Needs(s), w, q), s, t, c);
    }
  }

  lemma ClaimedInvariant(s: State, t: int, c: Vector)
    requires Invariant(s) && IsThread(s, t) && |c| == s.M() && NonNegative(c)
    requires s.phase[t] == Idle && !Holds(s, t)
    ensures Invariant(Claimed(s, t, c))
  {
    hide Safe, Guard;
    var s' := Claimed(s, t, c);
    if AtMost(c, s.existing) {
      ClaimedBooked(s, t, c);
      BookedWellFormed(s);
      if s.Avoids() {
        ClaimIsInvisible(Needs(s), s, t, c);
      }
      forall w | IsThread(s, w) && s'.phase[w] == Waiting ensures !Guard(s', w) {
        ClaimUnblocksNobody(s, t, c, w);
      }
    }
  }

  /** A demand that is the need and the allocation together leaves nothing allocated. */
  lemma ClaimBalances(s: State, t: int, c: Vector)
    requires Shape(s) && IsThread(s, t) && |c| == s.M() && AtMost(c, s.existing)
    requires Accounted(Claimed(s, t, c), t)
    ensures NonNegative(c) && !Holds(s, t)
  {
    forall j | 0 <= j < s.M() ensures s.allocation[t][j] == 0 {
      assert c[j] == Plus(c, s.allocation[t])[j];
    }
    assert s.allocation[t] == Zeros(s.M());
  }

  /**
   * rm_claim checks neither that its caller holds nothing, for which its documentation
   * asks, nor that the claim is not negative. Both are exactly what an accepted claim
   * needs to keep the books right.
   */
  lemma ClaimNeedsEmptyHands(s: State, t: int, c: Vector)
    requires Invariant(s) && IsThread(s, t) && |c| == s.M()
    requires s.phase[t] == Idle && AtMost(c, s.existing)
    ensures Invariant(Claimed(s, t, c)) <==> NonNegative(c) && !Holds(s, t)
  {
    if NonNegative(c) && !Holds(s, t) {
      ClaimedInvariant(s, t, c);
    } else if Invariant(Claimed(s, t, c)) {
      ClaimBalances(s, t, c);
      assert false;
    }
  }

  lemma StepInvariant(s: State, a: Action)
    requires Invariant(s) && Enabled(s, a)
    ensures Invariant(Do(s, a))
  {
    match a
    case Claim(t, v) => ClaimedInvariant(s, t, v);
    case Request(t, v) =>
      if !Refused(s, t, v) {
        EnteredInvariant(s, t, v);
        RecheckedInvariant(Entered(s, t, v), t);
      }
    case Recheck(t) => RecheckedInvariant(s, t);
    case Release(t, v) => ReleasedInvariant(s, t, v);
    case SpuriousWake(t) =>
      PhasesInvariant(s, Do(s, a).phase);
  }

  lemma {:induction false} RunInvariant(s: State, run: seq<Action>, end: State)
    requires Invariant(s) && Leads(s, run, end)
    ensures Invariant(end)
    decreases |run|
  {
    if run != [] {
      StepInvariant(s, run[0]);
      RunInvariant(Do(s, run[0]), run[1..], end);
    }
  }

  /** Conservation, covered requests, safety under avoidance and no lost wake-up, on every run. */
  lemma ReachableInvariant(s: State)
    requires Reachable(s)
    ensures Invariant(s)
  {
    var n: nat, existing, mode, run :|
      NonNegative(existing) && Initial(n, existing, mode).Guarded() && Leads(Initial(n, existing, mode), run, s);
    InitialInvariant(n, existing, mode);
    RunInvariant(Initial(n, existing, mode), run, s);
  }
}
