/** What each library call does, field by field, and what a thread holds after any run. */
module Effects {
  import opened Collections
  import opened Vectors
  import opened Banker
  import opened Protocol
  import opened ProtocolInvariant
  import opened DeadlockTheorems
  import opened Misuse

  /** rm_init: the stock is all available, nothing is claimed, held or asked for, and nobody waits. */
  lemma InitialEffect(n: nat, existing: Vector, mode: int)
    ensures var s := Initial(n, existing, mode);
      && s.mode == mode && s.existing == s.available == existing && |s.phase| == n
      && |s.maxDemand| == |s.allocation| == |s.need| == |s.requests| == n
      && forall i :: 0 <= i < n ==>
        && s.maxDemand[i] == s.allocation[i] == s.need[i] == s.requests[i] == Zeros(|existing|)
        && s.phase[i] == Idle
  {
  }

  /** rm_claim: the claim replaces demand and need of the thread, or nothing changes. */
  lemma ClaimEffect(s: State, t: int, c: Vector)
    requires Shape(s) && IsThread(s, t) && |c| == s.M()
    ensures var s' := Claimed(s, t, c);
      if exists j :: 0 <= j < s.M() && c[j] > s.existing[j] then s' == s else
      && s'.maxDemand == s.maxDemand[t := c] && s'.need == s.need[t := c]
      && s'.mode == s.mode && s'.existing == s.existing && s'.available == s.available
      && s'.allocation == s.allocation && s'.requests == s.requests && s'.phase == s.phase
  {
  }

  /** What rm_request refuses: more than the need, or more than the stock. */
  lemma RefusalMeans(s: State, t: int, r: Vector)
    requires Shape(s) && IsThread(s, t) && |r| == s.M()
    ensures Refused(s, t, r) <==> exists j :: 0 <= j < s.M() && (r[j] > s.need[t][j] || r[j] > s.existing[j])
  {
    if !AtMost(r, s.need[t]) {
      var j :| 0 <= j < s.M() && r[j] > s.need[t][j];
    } else if !AtMost(r, s.existing) {
      var j :| 0 <= j < s.M() && r[j] > s.existing[j];
    }
  }

  /** What lets a request through: the stock with avoidance off, safety with avoidance on. */
  lemma GuardMeans(s: State, t: int)
    requires Shape(s) && IsThread(s, t)
    ensures s.mode == 0 ==> (Guard(s, t) <==> forall j :: 0 <= j < s.M() ==> s.requests[t][j] <= s.available[j])
    ensures s.mode == 1 && Invariant(s) ==>
      (Guard(s, t) <==> Safe(Ledger(Minus(s.available, s.requests[t]),
                                    s.allocation[t := Plus(s.allocation[t], s.requests[t])],
                                    s.need[t := Minus(s.need[t], s.requests[t])])))
  {
    assert Grant(Needs(s), t, s.requests[t]).held == s.allocation[t := Plus(s.allocation[t], s.requests[t])];
    if s.mode == 1 && Invariant(s) {
      assert Accounted(s, t);
      BookedWellFormed(s);
      GuardIsSafe(s, t);
      GrantWellFormed(Needs(s), t, s.requests[t]);
      PassesIffSafe(Grant(Needs(s), t, s.requests[t]));
      if Safe(Grant(Needs(s), t, s.requests[t])) {
        SafeRequestIsAvailable(s, t);
      }
    }
  }

  /** One pass through the wait loops: all that was asked for is moved, or the thread sleeps. */
  lemma RecheckEffect(s: State, t: int)
    requires Shape(s) && IsThread(s, t)
    ensures var s', r := Rechecked(s, t), s.requests[t];
      && s'.mode == s.mode && s'.existing == s.existing && s'.maxDemand == s.maxDemand
      && if Guard(s, t) then
        && s'.available == Minus(s.available, r)
        && s'.allocation == s.allocation[t := Plus(s.allocation[t], r)]
        && s'.need == s.need[t := Minus(s.need[t], r)]
        && s'.requests == s.requests[t := Zeros(s.M())] && s'.phase == s.phase[t := Idle]
      else
        && s'.available == s.available && s'.allocation == s.allocation && s'.need == s.need
        && s'.requests == s.requests && s'.phase == s.phase[t := Waiting]
  {
  }

  /** rm_request up to its return or its first wait. */
  lemma RequestEffect(s: State, t: int, r: Vector)
    requires Shape(s) && IsThread(s, t) && |r| == s.M()
    ensures var s' := Requested(s, t, r);
      if Refused(s, t, r) then s' == s else
      && s'.mode == s.mode && s'.existing == s.existing && s'.maxDemand == s.maxDemand
      && if Guard(Entered(s, t, r), t) then
        && s'.available == Minus(s.available, r)
        && s'.allocation == s.allocation[t := Plus(s.allocation[t], r)]
        && s'.need == s.need[t := Minus(s.need[t], r)]
        && s'.requests == s.requests[t := Zeros(s.M())] && s'.phase == s.phase[t := Idle]
      else
        && s'.available == s.available && s'.allocation == s.allocation && s'.need == s.need
        && s'.requests == s.requests[t := r] && s'.phase == s.phase[t := Waiting]
  {
    if !Refused(s, t, r) {
      RecheckEffect(Entered(s, t, r), t);
    }
  }

  /** rm_release: all that is given back is moved and every sleeper is woken, or nothing changes. */
  lemma ReleaseEffect(s: State, t: int, r: Vector)
    requires Shape(s) && IsThread(s, t) && |r| == s.M()
    ensures var s' := Released(s, t, r);
      if exists j :: 0 <= j < s.M() && r[j] > s.allocation[t][j] then s' == s else
      && s'.mode == s.mode && s'.existing == s.existing && s'.maxDemand == s.maxDemand
      && s'.available == Plus(s.available, r)
      && s'.allocation == s.allocation[t := Minus(s.allocation[t], r)]
      && s'.need == s.need[t := Plus(s.need[t], r)] && s'.requests == s.requests
      && |s'.phase| == |s.phase| && forall i :: 0 <= i < |s.phase| ==>
           s'.phase[i] == if s.phase[i] == Waiting then Woken else s.phase[i]
  {
  }

  /** What a request that is not refused keeps. */
  lemma RequestKeeps(s: State, t: int, r: Vector)
    requires Shape(s) && IsThread(s, t) && |r| == s.M() && s.phase[t] == Idle
    ensures Invariant(s) && NonNegative(r) ==> Invariant(Requested(s, t, r))
    ensures Invariant(s) && NonNegative(r) && !Refused(s, t, r) ==> Invariant(Entered(s, t, r))
    ensures Invariant(s) && !NonNegative(r) && !Refused(s, t, r) ==> (Booked(Requested(s, t, r)) <==>
      Guard(Entered(s, t, r), t) && NonNegative(Plus(s.allocation[t], r)))
  {
    if Invariant(s) && !Refused(s, t, r) {
      RequestKeepsBooksIff(s, t, r);
      if NonNegative(r) {
        EnteredInvariant(s, t, r);
        StepInvariant(s, Request(t, r));
      }
    }
  }

  // ----- over a run ---------------------------------------------------------------------------

  /** What an action gives to thread `t`: the whole request when its call returns, less what it releases. */
  ghost function Gain(s: State, a: Action, t: int, j: nat): int
    requires Shape(s) && Enabled(s, a) && IsThread(s, t) && j < s.M()
  {
    if a.t != t then 0
    else match a
      case Request(_, v) => if !Refused(s, t, v) && Do(s, a).phase[t] == Idle then v[j] else 0
      case Recheck(_) => if Do(s, a).phase[t] == Idle then s.requests[t][j] else 0
      case Release(_, v) => if AtMost(v, s.allocation[t]) then -v[j] else 0
      case Claim(_, _) => 0
      case SpuriousWake(_) => 0
  }

  ghost function Gains(s: State, run: seq<Action>, end: State, t: int, j: nat): int
    requires Leads(s, run, end) && IsThread(s, t) && j < s.M()
    decreases |run|
  {
    if run == [] then 0
    else
      StepGain(s, run[0], t, j);
      Gain(s, run[0], t, j) + Gains(Do(s, run[0]), run[1..], end, t, j)
  }

  lemma StepGain(s: State, a: Action, t: int, j: nat)
    requires Shape(s) && Enabled(s, a) && IsThread(s, t) && j < s.M()
    ensures IsThread(Do(s, a), t) && j < Do(s, a).M()
    ensures Do(s, a).allocation[t][j] == s.allocation[t][j] + Gain(s, a, t, j)
  {
    match a
    case Claim(i, v) => ClaimEffect(s, i, v);
    case Request(i, v) => RequestEffect(s, i, v);
    case Recheck(i) => RecheckEffect(s, i);
    case Release(i, v) => ReleaseEffect(s, i, v);
    case SpuriousWake(i) =>
  }

  /** After any run a thread holds what its calls have been granted, less what it has released. */
  lemma {:induction false} HoldingsAddUp(s: State, run: seq<Action>, end: State, t: int, j: nat)
    requires Leads(s, run, end) && IsThread(s, t) && j < s.M()
    ensures IsThread(end, t) && j < end.M()
    ensures end.allocation[t][j] == s.allocation[t][j] + Gains(s, run, end, t, j)
    decreases |run|
  {
    if run != [] {
      StepGain(s, run[0], t, j);
      HoldingsAddUp(Do(s, run[0]), run[1..], end, t, j);
    }
  }
}
