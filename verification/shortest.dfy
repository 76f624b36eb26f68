/** Shortest job first over whole runs: once nothing arrives any more, lengths never fall. */
module ShortestFirst {
  import opened ReadyQueue
  import opened Scheduler
  import opened SchedulerTheorems

  predicate NoArrivals(run: seq<Action>) {
    forall a :: a in run ==> !a.Arrive?
  }

  /** The lengths never fall. */
  predicate Rising(lengths: seq<int>) {
    forall i, j :: 0 <= i < j < |lengths| ==> lengths[i] <= lengths[j]
  }

  predicate AllAtLeast(lengths: seq<int>, m: int) {
    forall i :: 0 <= i < |lengths| ==> m <= lengths[i]
  }

  /** No burst in line is shorter than `m`. */
  predicate LineAtLeast(q: seq<Burst>, m: int) {
    forall i :: 0 <= i < |q| && q[i].pid != -1 ==> m <= q[i].length
  }

  /** The lengths of the bursts that are dispatched from queue `q` on a run, in order. */
  ghost function Dispatched(s: State, run: seq<Action>, end: State, q: nat): seq<int>
    requires Leads(s, run, end)
    decreases |run|
  {
    if run == [] then []
    else (if TakesFrom(s.cfg, run[0], q) then [s.queues[q][run[0].k].length] else [])
         + Dispatched(Do(s, run[0]), run[1..], end, q)
  }

  /** Without round robin a burst in line has not run yet. */
  lemma LineHasNotRun(s: State, q: nat, i: nat)
    requires Invariant(s) && s.cfg.alg == SJF
    requires q < |s.queues| && i < |s.queues[q]| && s.queues[q][i].pid != -1
    ensures s.queues[q][i].remaining == s.queues[q][i].length
  {
    assert LineAccounted(s.cfg.alg, s.queues[q]);
    assert Accounted(s.cfg.alg, s.queues[q][i], false);
  }

  /** What is dispatched is no longer than anything that stays, and nothing comes back. */
  lemma StepLeavesLonger(s: State, a: Action, q: nat, m: int)
    requires Invariant(s) && s.cfg.alg == SJF && Enabled(s, a) && !a.Arrive?
    requires q < |s.queues| && LineAtLeast(s.queues[q], m)
    ensures TakesFrom(s.cfg, a, q) ==>
      s.queues[q][a.k].length >= m && LineAtLeast(Do(s, a).queues[q], s.queues[q][a.k].length)
    ensures !TakesFrom(s.cfg, a, q) ==> LineAtLeast(Do(s, a).queues[q], m)
  {
    if TakesFrom(s.cfg, a, q) {
      forall i | 0 <= i < |s.queues[q]| && s.queues[q][i].pid != -1
        ensures s.queues[q][a.k].length <= s.queues[q][i].length
      {
        LineHasNotRun(s, q, i);
        LineHasNotRun(s, q, a.k);
      }
    }
  }

  lemma {:induction false} DispatchedRises(s: State, run: seq<Action>, end: State, q: nat, m: int)
    requires Invariant(s) && s.cfg.alg == SJF && Leads(s, run, end) && NoArrivals(run)
    requires q < |s.queues| && LineAtLeast(s.queues[q], m)
    ensures Rising(Dispatched(s, run, end, q)) && AllAtLeast(Dispatched(s, run, end, q), m)
    decreases |run|
  {
    if run != [] {
      StepInvariant(s, run[0]);
      StepLeavesLonger(s, run[0], q, m);
      var m' := if TakesFrom(s.cfg, run[0], q) then s.queues[q][run[0].k].length else m;
      hide Invariant, LineAtLeast;
      DispatchedRises(Do(s, run[0]), run[1..], end, q, m');
    }
  }

  lemma {:induction false} SomeLowerBound(q: seq<Burst>) returns (m: int)
    ensures LineAtLeast(q, m)
  {
    if q == [] {
      m := 0;
    } else {
      m := SomeLowerBound(q[1..]);
      assert forall i :: 0 < i < |q| ==> q[i] == q[1..][i - 1];
      if q[0].length < m { m := q[0].length; }
    }
  }

  /** However many CPUs serve a queue, its bursts are dispatched in order of length. */
  lemma ShortestDispatchedFirst(s: State, run: seq<Action>, end: State, q: nat)
    requires Invariant(s) && s.cfg.alg == SJF && Leads(s, run, end) && NoArrivals(run)
    requires q < |s.queues|
    ensures Rising(Dispatched(s, run, end, q))
  {
    var m := SomeLowerBound(s.queues[q]);
    DispatchedRises(s, run, end, q, m);
  }

  // ----- ties -----------------------------------------------------------------------------------

  /** `x` is in line somewhere in front of `y`. */
  predicate Ahead(line: seq<Burst>, x: Burst, y: Burst) {
    exists i, j :: 0 <= i < j < |line| && line[i] == x && line[j] == y
  }

  /** On the run `b` is dispatched from queue `q`. */
  ghost predicate DispatchedOn(s: State, run: seq<Action>, end: State, q: nat, b: Burst)
    requires Leads(s, run, end)
    decreases |run|
  {
    run != [] &&
    (|| (TakesFrom(s.cfg, run[0], q) && s.queues[q][run[0].k] == b)
     || DispatchedOn(Do(s, run[0]), run[1..], end, q, b))
  }

  /** Whatever joins the line, nothing gets between two bursts in it but behind the first. */
  lemma JoiningKeepsAhead(line: seq<Burst>, b: Burst, x: Burst, y: Burst)
    requires Ahead(line, x, y) && x.pid != -1 && y.pid != -1
    ensures Ahead(Enqueued(line, b), x, y)
  {
    var i, j :| 0 <= i < j < |line| && line[i] == x && line[j] == y;
    assert Enqueued(line, b)[i] == x && Enqueued(line, b)[j] == y;
  }

  /** A dispatch does not take the one behind before one that is ahead and no longer. */
  lemma TakingKeepsAhead(line: seq<Burst>, k: nat, x: Burst, y: Burst)
    requires Ahead(line, x, y) && x.pid != -1 && y.pid != -1 && x.remaining <= y.remaining
    requires IsShortest(line, k) && line[k] != x
    ensures Ahead(Without(line, k), x, y)
  {
    var i, j :| 0 <= i < j < |line| && line[i] == x && line[j] == y;
    assert k != i && k != j;
    var i', j' := if i < k then i else i - 1, if j < k then j else j - 1;
    assert Without(line, k)[i'] == x && Without(line, k)[j'] == y;
  }

  lemma StepKeepsAhead(s: State, a: Action, q: nat, x: Burst, y: Burst)
    requires Shape(s) && Enabled(s, a) && s.cfg.alg == SJF && q < |s.queues|
    requires Ahead(s.queues[q], x, y) && x.pid != -1 && y.pid != -1 && x.remaining <= y.remaining
    ensures Ahead(Do(s, a).queues[q], x, y) || (TakesFrom(s.cfg, a, q) && s.queues[q][a.k] == x)
  {
    hide Ahead, Enqueued, Without;
    match a
    case Arrive(length, _) =>
      JoiningKeepsAhead(s.queues[q], Burst(s.nextPid, length, length, 0, 0), x, y);
    case Mark =>
      JoiningKeepsAhead(s.queues[q], MARKER, x, y);
    case Take(c, k) =>
      if s.cfg.QueueOf(c) == q && s.queues[q][k] != x {
        TakingKeepsAhead(s.queues[q], k, x, y);
      }
    case Finish(c) =>
    case Exit(c) =>
  }

  /** Until the one ahead is dispatched, both stay in line, in order, whatever arrives. */
  lemma {:induction false} AheadUntilDispatched(s: State, run: seq<Action>, end: State, q: nat, x: Burst, y: Burst)
    requires Leads(s, run, end) && s.cfg.alg == SJF && q < |s.queues|
    requires Ahead(s.queues[q], x, y) && x.pid != -1 && y.pid != -1 && x.remaining <= y.remaining
    ensures q < |end.queues| && (DispatchedOn(s, run, end, q, x) || Ahead(end.queues[q], x, y))
    decreases |run|
  {
    if run != [] {
      StepKeepsAhead(s, run[0], q, x, y);
      if !(TakesFrom(s.cfg, run[0], q) && s.queues[q][run[0].k] == x) {
        AheadUntilDispatched(Do(s, run[0]), run[1..], end, q, x, y);
      } else {
        QueuesStay(s, run, end);
      }
    }
  }

  lemma {:induction false} QueuesStay(s: State, run: seq<Action>, end: State)
    requires Leads(s, run, end)
    ensures |end.queues| == |s.queues|
    decreases |run|
  {
    if run != [] {
      QueuesStay(Do(s, run[0]), run[1..], end);
    }
  }

  lemma OnePlace(s: State, q: nat, j: nat, k: nat)
    requires Invariant(s) && q < |s.queues| && j < |s.queues[q]| && k < |s.queues[q]|
    requires s.queues[q][j].pid == s.queues[q][k].pid
    ensures j == k
  {
    if j != k {
      LinePidsAreDistinct(s, q, if j < k then j else k, if j < k then k else j);
    }
  }

  /** First come, first served among equals: whoever is ahead and no longer is dispatched first. */
  lemma NotOvertaken(s: State, run: seq<Action>, end: State, take: Action, q: nat, x: Burst, y: Burst)
    requires Invariant(s) && Leads(s, run, end) && s.cfg.alg == SJF && q < |s.queues|
    requires Ahead(s.queues[q], x, y) && x.pid != -1 && y.pid != -1 && x.remaining <= y.remaining
    requires Enabled(end, take) && TakesFrom(s.cfg, take, q) && end.queues[q][take.k] == y
    ensures DispatchedOn(s, run, end, q, x)
  {
    AheadUntilDispatched(s, run, end, q, x, y);
    RunInvariant(s, run, end);
    if Ahead(end.queues[q], x, y) {
      var i, j :| 0 <= i < j < |end.queues[q]| && end.queues[q][i] == x && end.queues[q][j] == y;
      OnePlace(end, q, j, take.k);
      assert false;
    }
  }

  // ----- one CPU --------------------------------------------------------------------------------

  function Lengths(line: seq<Burst>): (lengths: seq<int>)
    ensures |lengths| == |line| && forall i :: 0 <= i < |line| ==> lengths[i] == line[i].length
  {
    seq(|line|, i requires 0 <= i < |line| => line[i].length)
  }

  /** The length of the burst in the only CPU's hands, if there is one. */
  function InHand(s: State): seq<int>
    requires |s.cpus| == 1
  {
    if s.cpus[0].Holding? then [s.cpus[0].b.length] else []
  }

  lemma StepOfOneCpu(s: State, a: Action)
    requires Invariant(s) && s.cfg.alg == SJF && s.cfg.cpus == 1 && Enabled(s, a)
    ensures var taken := if TakesFrom(s.cfg, a, 0) then [s.queues[0][a.k].length] else [];
      Lengths(s.finished) + InHand(s) + taken == Lengths(Do(s, a).finished) + InHand(Do(s, a))
  {
    if a.Finish? {
      assert !EndsMarked(s.finished) by {
        assert forall k :: 0 <= k < |s.finished| ==> Completed(s.cfg.alg, s.finished[k]);
      }
      assert Do(s, a).finished == s.finished + [Ran(SJF, s.cpus[0].b)];
    }
  }

  lemma Regroup(a: seq<int>, b: seq<int>, c: seq<int>)
    ensures a + (b + c) == (a + b) + c
  {
  }

  lemma RisingTail(before: seq<int>, all: seq<int>, after: seq<int>, hand: seq<int>)
    requires Rising(all) && before + all == after + hand && |before| <= |after|
    ensures Rising(after[|before|..])
  {
    var n := |before|;
    assert forall i :: n <= i < |after| ==> after[i] == (after + hand)[i] == (before + all)[i] == all[i - n];
  }

  /** One CPU finishes the bursts in the order in which it takes them. */
  lemma {:induction false} FinishedAsDispatched(s: State, run: seq<Action>, end: State)
    requires Invariant(s) && s.cfg.alg == SJF && s.cfg.cpus == 1 && Leads(s, run, end)
    ensures Lengths(s.finished) + InHand(s) + Dispatched(s, run, end, 0) == Lengths(end.finished) + InHand(end)
    decreases |run|
  {
    if run != [] {
      var mid := Do(s, run[0]);
      StepInvariant(s, run[0]);
      StepOfOneCpu(s, run[0]);
      FinishedAsDispatched(mid, run[1..], end);
      var taken := if TakesFrom(s.cfg, run[0], 0) then [s.queues[0][run[0].k].length] else [];
      var rest := Dispatched(mid, run[1..], end, 0);
      assert Dispatched(s, run, end, 0) == taken + rest;
      hide *;
      Regroup(Lengths(s.finished) + InHand(s), taken, rest);
    }
  }

  /** Once nothing arrives any more, one CPU that starts with its hands free finishes the bursts in order of length. */
  lemma ShortestFinishedFirst(s: State, run: seq<Action>, end: State)
    requires Invariant(s) && s.cfg.alg == SJF && s.cfg.cpus == 1 && Leads(s, run, end) && NoArrivals(run)
    requires !s.cpus[0].Holding?
    ensures |s.finished| <= |end.finished|
    ensures Rising(Lengths(end.finished)[|s.finished|..])
  {
    FinishedAsDispatched(s, run, end);
    ShortestDispatchedFirst(s, run, end, 0);
    FinishedGrows(s, run, end);
    var all, before := Dispatched(s, run, end, 0), Lengths(s.finished);
    assert InHand(s) == [] && before + InHand(s) == before;
    hide Invariant, Leads, Dispatched, Rising;
    RisingTail(before, all, Lengths(end.finished), InHand(end));
  }

  lemma {:induction false} FinishedGrows(s: State, run: seq<Action>, end: State)
    requires Leads(s, run, end)
    ensures |s.finished| <= |end.finished|
    decreases |run|
  {
    if run != [] {
      FinishedGrows(Do(s, run[0]), run[1..], end);
    }
  }
}
