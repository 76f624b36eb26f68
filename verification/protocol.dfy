/**
 * The resource manager as a state machine. One action is one stretch of a
 * library call that runs under the mutex, from one wait to the next.
 */
module Protocol {
  import opened Collections
  import opened Vectors
  import opened Banker

  /** Where a thread is: outside rm_request, asleep on its condition variable, or signalled there. */
  datatype Phase = Idle | Waiting | Woken

  datatype State = State(
    mode: int,  // DA
    existing: Vector,
    available: Vector,
    allocation: Matrix,
    need: Matrix,
    maxDemand: Matrix,
    requests: Matrix,
    phase: seq<Phase>)
  {
    function N(): nat { |allocation| }
    function M(): nat { |existing| }
    predicate Avoids() { mode == 1 }
    predicate Guarded() { mode == 0 || mode == 1 }  // the only modes in which rm_request waits
  }

  predicate Shape(s: State) {
    && |s.available| == s.M()
    && IsMatrix(s.allocation, s.N(), s.M())
    && IsMatrix(s.need, s.N(), s.M())
    && IsMatrix(s.maxDemand, s.N(), s.M())
    && IsMatrix(s.requests, s.N(), s.M())
    && |s.phase| == s.N()
  }

  predicate IsThread(s: State, t: int) { 0 <= t < s.N() }

  predicate Holds(s: State, t: int)
    requires IsThread(s, t)
  {
    s.allocation[t] != Zeros(s.M())
  }

  /** The ledger that the safety test reduces. */
  function Needs(s: State): (l: Ledger)
    requires Shape(s)
    ensures Shaped(l)
  {
    Ledger(s.available, s.allocation, s.need)
  }

  /** The ledger that deadlock detection reduces. */
  function Pending(s: State): (l: Ledger)
    requires Shape(s)
    ensures Shaped(l)
  {
    Ledger(s.available, s.allocation, s.requests)
  }

  // ----- what the library calls do ----------------------------------------------------

  /** The condition that both wait loops of rm_request test for thread `t`. */
  ghost predicate Guard(s: State, t: int)
    requires Shape(s) && IsThread(s, t)
  {
    && (s.Guarded() ==> AtMost(s.requests[t], s.available))
    && (s.Avoids() ==> Passes(Grant(Needs(s), t, s.requests[t])))
  }

  /** The allocation at the end of rm_request. */
  function Allocated(s: State, t: int): (s': State)
    requires Shape(s) && IsThread(s, t)
    ensures Shape(s')
  {
    var r := s.requests[t];
    s.(available := Minus(s.available, r),
       allocation := s.allocation[t := Plus(s.allocation[t], r)],
       need := s.need[t := Minus(s.need[t], r)],
       requests := s.requests[t := Zeros(s.M())],
       phase := s.phase[t := Idle])
  }

  /** Thread `t` holds the mutex at the test of its wait loop. */
  ghost function Rechecked(s: State, t: int): (s': State)
    requires Shape(s) && IsThread(s, t)
    ensures Shape(s')
  {
    if Guard(s, t) then Allocated(s, t) else s.(phase := s.phase[t := Waiting])
  }

  predicate Refused(s: State, t: int, r: Vector)
    requires Shape(s) && IsThread(s, t) && |r| == s.M()
  {
    !AtMost(r, s.need[t]) || !AtMost(r, s.existing)
  }

  /** Thread `t` has recorded its request and is about to test its guard. */
  function Entered(s: State, t: int, r: Vector): (s': State)
    requires Shape(s) && IsThread(s, t) && |r| == s.M()
    ensures Shape(s')
  {
    s.(requests := s.requests[t := r], phase := s.phase[t := Woken])
  }

  /** rm_request up to its first wait or its return. */
  ghost function Requested(s: State, t: int, r: Vector): (s': State)
    requires Shape(s) && IsThread(s, t) && |r| == s.M()
    ensures Shape(s')
  {
    if Refused(s, t, r) then s else Rechecked(Entered(s, t, r), t)
  }

  /** Signal every condition variable: whoever sleeps there is woken. */
  function Signalled(phase: seq<Phase>): (p: seq<Phase>)
    ensures |p| == |phase|
    ensures forall i :: 0 <= i < |phase| ==> p[i] == if phase[i] == Waiting then Woken else phase[i]
  {
    seq(|phase|, i requires 0 <= i < |phase| => if phase[i] == Waiting then Woken else phase[i])
  }

  function Released(s: State, t: int, r: Vector): (s': State)
    requires Shape(s) && IsThread(s, t) && |r| == s.M()
    ensures Shape(s')
  {
    if !AtMost(r, s.allocation[t]) then s
    else s.(available := Plus(s.available, r),
            allocation := s.allocation[t := Minus(s.allocation[t], r)],
            need := s.need[t := Plus(s.need[t], r)],
            phase := Signalled(s.phase))
  }

  function Claimed(s: State, t: int, c: Vector): (s': State)
    requires Shape(s) && IsThread(s, t) && |c| == s.M()
    ensures Shape(s')
  {
    if !AtMost(c, s.existing) then s
    else s.(maxDemand := s.maxDemand[t := c], need := s.need[t := c])
  }

  function Initial(n: nat, existing: Vector, mode: int): (s: State)
    ensures Shape(s)
  {
    var zero := ZeroRows(n, |existing|);
    State(mode, existing, existing, zero, zero, zero, zero, seq(n, _ => Idle))
  }

  // ----- runs ---------------------------------------------------------------------------

  datatype Action =
    | Claim(t: int, v: Vector)
    | Request(t: int, v: Vector)
    | Recheck(t: int)
    | Release(t: int, v: Vector)
    | SpuriousWake(t: int)

  /** What the callers promise, and what the mutex and the condition variables allow. */
  ghost predicate Enabled(s: State, a: Action)
    requires Shape(s)
  {
    IsThread(s, a.t) &&
    match a
    case Claim(t, v) => s.phase[t] == Idle && |v| == s.M() && NonNegative(v) && !Holds(s, t)
    case Request(t, v) => s.phase[t] == Idle && |v| == s.M() && NonNegative(v)
    case Recheck(t) => s.phase[t] == Woken
    case Release(t, v) => s.phase[t] == Idle && |v| == s.M() && NonNegative(v)
    case SpuriousWake(t) => s.phase[t] == Waiting
  }

  ghost function Do(s: State, a: Action): (s': State)
    requires Shape(s) && Enabled(s, a)
    ensures Shape(s')
  {
    match a
    case Claim(t, v) => Claimed(s, t, v)
    case Request(t, v) => Requested(s, t, v)
    case Recheck(t) => Rechecked(s, t)
    case Release(t, v) => Released(s, t, v)
    case SpuriousWake(t) => s.(phase := s.phase[t := Woken])
  }

  /** `run` is a possible run from `s` to `end`. */
  ghost predicate Leads(s: State, run: seq<Action>, end: State): (b: bool)
    ensures b ==> Shape(s) && Shape(end)
    decreases |run|
  {
    Shape(s) &&
    if run == [] then end == s
    else Enabled(s, run[0]) && Leads(Do(s, run[0]), run[1..], end)
  }

  ghost predicate Reachable(s: State): (b: bool)
    ensures b ==> Shape(s)
  {
    exists n: nat, existing, mode, run ::
      NonNegative(existing) && Initial(n, existing, mode).Guarded() && Leads(Initial(n, existing, mode), run, s)
  }

  // ----- the invariant ------------------------------------------------------------------

  /** Nothing is created or lost. */
  ghost predicate Conserved(s: State)
    requires Shape(s)
  {
    forall j :: 0 <= j < s.M() ==>
      s.available[j] + ColumnSum(s.allocation, Range(s.N()), s.N(), j) == s.existing[j]
  }

  /**
   * Need and allocation add up to a demand that the stock covers. A request is pending
   * only while its thread is inside rm_request, and its need covers it.
   */
  ghost predicate Accounted(s: State, t: int)
    requires Shape(s) && IsThread(s, t)
  {
    && NonNegative(s.allocation[t]) && NonNegative(s.need[t]) && NonNegative(s.requests[t])
    && s.maxDemand[t] == Plus(s.need[t], s.allocation[t])
    && AtMost(s.maxDemand[t], s.existing)
    && AtMost(s.requests[t], s.need[t])
    && (s.phase[t] == Idle ==> s.requests[t] == Zeros(s.M()))
  }

  /** The books are right: this much holds in every mode, however much is given out. */
  ghost predicate Booked(s: State): (b: bool)
    ensures b ==> Shape(s)
  {
    Shape(s) && Conserved(s) && forall t :: IsThread(s, t) ==> Accounted(s, t)
  }

  /** No sleeping thread could proceed: every wake-up that matters has been sent. */
  ghost predicate NoLostWakeup(s: State)
    requires Shape(s)
  {
    forall t :: IsThread(s, t) && s.phase[t] == Waiting ==> !Guard(s, t)
  }

  ghost predicate Invariant(s: State): (b: bool)
    ensures b ==> Shape(s)
  {
    && Booked(s) && s.Guarded() && NonNegative(s.available)
    && (s.Avoids() ==> Safe(Needs(s)))
    && NoLostWakeup(s)
  }
}
