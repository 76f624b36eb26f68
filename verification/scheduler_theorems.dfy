/** What holds on every run of the scheduler. */
module SchedulerTheorems {
  import opened Collections
  import opened ReadyQueue
  import opened Scheduler

  // ----- adding up --------------------------------------------------------------------------

  lemma {:induction false} InLineConcat(w: Tally, a: seq<Burst>, b: seq<Burst>)
    ensures InLine(w, a + b) == InLine(w, a) + InLine(w, b)
    decreases |b|
  {
    if b == [] {
      assert a + b == a;
    } else {
      assert (a + b)[..|a + b| - 1] == a + b[..|b| - 1];
      InLineConcat(w, a, b[..|b| - 1]);
    }
  }

  lemma InLineOne(w: Tally, b: Burst)
    ensures InLine(w, [b]) == Weight(w, b)
  {
  }

  lemma InLineEnqueued(w: Tally, q: seq<Burst>, b: Burst)
    ensures InLine(w, Enqueued(q, b)) == InLine(w, q) + Weight(w, b)
  {
    InLineOne(w, b);
    hide InLine;
    if EndsMarked(q) {
      var front, last := q[..|q| - 1], q[|q| - 1..];
      assert q == front + last;
      InLineConcat(w, front, last);
      InLineConcat(w, front, [b]);
      InLineConcat(w, front + [b], last);
    } else {
      InLineConcat(w, q, [b]);
    }
  }

  lemma InLineWithout(w: Tally, q: seq<Burst>, k: nat)
    requires k < |q|
    ensures InLine(w, q) == InLine(w, Without(q, k)) + Weight(w, q[k])
  {
    hide InLine;
    var before, b, after := q[..k], q[k], q[k + 1..];
    assert q == (before + [b]) + after;
    InLineOne(w, b);
    InLineConcat(w, before + [b], after);
    InLineConcat(w, before, [b]);
    InLineConcat(w, before, after);
  }

  lemma {:induction false} QueuesUpdate(w: Tally, queues: seq<seq<Burst>>, i: nat, q: seq<Burst>)
    requires i < |queues|
    ensures InQueues(w, queues[i := q]) == InQueues(w, queues) - InLine(w, queues[i]) + InLine(w, q)
  {
    var last := |queues| - 1;
    if i < last {
      assert queues[i := q][..last] == queues[..last][i := q];
      QueuesUpdate(w, queues[..last], i, q);
    } else {
      assert queues[i := q][..last] == queues[..last];
    }
  }

  lemma {:induction false} CpusUpdate(w: Tally, cpus: seq<Cpu>, c: nat, x: Cpu)
    requires c < |cpus|
    ensures OnCpus(w, cpus[c := x]) == OnCpus(w, cpus) - CpuWeight(w, cpus[c]) + CpuWeight(w, x)
  {
    var last := |cpus| - 1;
    if c < last {
      assert cpus[c := x][..last] == cpus[..last][c := x];
      CpusUpdate(w, cpus[..last], c, x);
    } else {
      assert cpus[c := x][..last] == cpus[..last];
    }
  }

  lemma {:induction false} EmptyQueues(w: Tally, queues: seq<seq<Burst>>)
    requires forall i :: 0 <= i < |queues| ==> queues[i] == []
    ensures InQueues(w, queues) == 0
  {
    if queues != [] {
      EmptyQueues(w, queues[..|queues| - 1]);
    }
  }

  lemma {:induction false} IdleCpus(w: Tally, cpus: seq<Cpu>)
    requires forall c :: 0 <= c < |cpus| ==> CpuWeight(w, cpus[c]) == 0
    ensures OnCpus(w, cpus) == 0
  {
    if cpus != [] {
      IdleCpus(w, cpus[..|cpus| - 1]);
    }
  }

  /** What an action adds to the queues and CPUs together. */
  ghost function LiveGain(w: Tally, s: State, a: Action): int
    requires Shape(s) && Enabled(s, a)
  {
    match a
    case Arrive(length, q) => Weight(w, Burst(s.nextPid, length, length, 0, 0))
    case Mark => Weight(w, MARKER)
    case Take(c, k) =>
      var b := s.queues[s.cfg.QueueOf(c)][k];
      CpuWeight(w, Holding(Taken(b))) - CpuWeight(w, Polling) - Weight(w, b)
    case Finish(c) =>
      var b := s.cpus[c].b;
      CpuWeight(w, Polling) - CpuWeight(w, Holding(b))
      + if MustRequeue(s.cfg.alg, b) then Weight(w, Ran(s.cfg.alg, b)) else 0
    case Exit(c) => CpuWeight(w, Exited) - CpuWeight(w, Polling)
  }

  /** What an action adds to the finished bursts. */
  ghost function FinishedGain(w: Tally, s: State, a: Action): int
    requires Shape(s) && Enabled(s, a)
  {
    if a.Finish? && !MustRequeue(s.cfg.alg, s.cpus[a.c].b) then Weight(w, Ran(s.cfg.alg, s.cpus[a.c].b)) else 0
  }

  lemma StepWeights(w: Tally, s: State, a: Action)
    requires Shape(s) && Enabled(s, a)
    ensures InQueues(w, Do(s, a).queues) + OnCpus(w, Do(s, a).cpus)
         == InQueues(w, s.queues) + OnCpus(w, s.cpus) + LiveGain(w, s, a)
    ensures InLine(w, Do(s, a).finished) == InLine(w, s.finished) + FinishedGain(w, s, a)
  {
    hide InLine, InQueues, OnCpus, Enqueued, Weight, CpuWeight;
    var s' := Do(s, a);
    match a
    case Arrive(length, q) =>
      InLineEnqueued(w, s.queues[q], Burst(s.nextPid, length, length, 0, 0));
      QueuesUpdate(w, s.queues, q, s'.queues[q]);
    case Mark =>
      InLineEnqueued(w, s.queues[s.marked], MARKER);
      QueuesUpdate(w, s.queues, s.marked, s'.queues[s.marked]);
    case Take(c, k) =>
      var q := s.cfg.QueueOf(c);
      InLineWithout(w, s.queues[q], k);
      QueuesUpdate(w, s.queues, q, s'.queues[q]);
      CpusUpdate(w, s.cpus, c, s'.cpus[c]);
    case Finish(c) =>
      var q := s.cfg.QueueOf(c);
      var b := Ran(s.cfg.alg, s.cpus[c].b);
      CpusUpdate(w, s.cpus, c, Polling);
      InLineEnqueued(w, s.finished, b);
      InLineEnqueued(w, s.queues[q], b);
      QueuesUpdate(w, s.queues, q, Enqueued(s.queues[q], b));
    case Exit(c) => CpusUpdate(w, s.cpus, c, Exited);
  }

  // ----- no burst is lost or doubled ----------------------------------------------------------

  /** Only an arrival creates a burst; every other action moves at most one from place to place. */
  lemma StepCopies(s: State, a: Action, pid: int)
    requires Shape(s) && Enabled(s, a) && pid != -1
    ensures Copies(Do(s, a), pid) == Copies(s, pid) + if a.Arrive? && pid == s.nextPid then 1 else 0
  {
    hide InLine, InQueues, OnCpus, Do;
    StepWeights(Occurrences(pid), s, a);
  }

  lemma StepKeepsBursts(s: State, a: Action)
    requires Invariant(s) && Enabled(s, a)
    ensures EachInOnePlace(Do(s, a))
  {
    hide Copies;
    forall pid | pid != -1
      ensures Copies(Do(s, a), pid) == if 1 <= pid < Do(s, a).nextPid then 1 else 0
    {
      StepCopies(s, a, pid);
    }
  }

  lemma QueueIsPart(w: Tally, queues: seq<seq<Burst>>, i: nat)
    requires i < |queues|
    ensures InLine(w, queues[i]) <= InQueues(w, queues)
  {
  }

  /** The pids in a queue are distinct, so the pid that SJF passes to dequeue_at names one burst. */
  lemma LinePidsAreDistinct(s: State, q: nat, i: nat, j: nat)
    requires Invariant(s) && q < |s.queues| && i < j < |s.queues[q]|
    ensures s.queues[q][i].pid != s.queues[q][j].pid
  {
    var line := s.queues[q];
    var pid := line[i].pid;
    assert MarkedLast(line, q < s.marked);
    assert Copies(s, pid) <= 1;
    if pid == line[j].pid {
      var w := Occurrences(pid);
      InLineWithout(w, line, j);
      InLineWithout(w, Without(line, j), i);
      QueueIsPart(w, s.queues, q);
      assert false;
    }
  }

  // ----- markers, accounting ----------------------------------------------------------------

  lemma EnqueuedLine(alg: Algorithm, q: seq<Burst>, b: Burst, marked: bool)
    requires MarkedLast(q, marked) && LineAccounted(alg, q)
    requires b.pid != -1 && Accounted(alg, b, false)
    ensures MarkedLast(Enqueued(q, b), marked) && LineAccounted(alg, Enqueued(q, b))
  {
  }

  lemma MarkedLine(alg: Algorithm, q: seq<Burst>)
    requires MarkedLast(q, false) && LineAccounted(alg, q)
    ensures MarkedLast(Enqueued(q, MARKER), true) && LineAccounted(alg, Enqueued(q, MARKER))
  {
  }

  lemma ShortenedLine(alg: Algorithm, q: seq<Burst>, k: nat, marked: bool)
    requires k < |q| && q[k].pid != -1
    requires MarkedLast(q, marked) && LineAccounted(alg, q)
    ensures MarkedLast(Without(q, k), marked) && LineAccounted(alg, Without(q, k))
  {
    var q' := Without(q, k);
    if marked {
      assert q'[|q'| - 1] == q[|q| - 1];
    } else if q' != [] {
      assert q'[|q'| - 1] == if k < |q| - 1 then q[|q| - 1] else q[|q| - 2];
    }
  }

  lemma StepKeepsLines(s: State, a: Action)
    requires Invariant(s) && Enabled(s, a)
    ensures forall q :: 0 <= q < |s.queues| ==>
      && MarkedLast(Do(s, a).queues[q], q < Do(s, a).marked)
      && LineAccounted(s.cfg.alg, Do(s, a).queues[q])
  {
    hide MarkedLast, LineAccounted, EachInOnePlace, NoneLeftBehind, Completed, Enqueued, Without;
    var alg := s.cfg.alg;
    match a
    case Arrive(length, q) =>
      EnqueuedLine(alg, s.queues[q], Burst(s.nextPid, length, length, 0, 0), q < s.marked);
    case Mark => MarkedLine(alg, s.queues[s.marked]);
    case Take(c, k) =>
      var q := s.cfg.QueueOf(c);
      ShortenedLine(alg, s.queues[q], k, q < s.marked);
    case Finish(c) =>
      var q := s.cfg.QueueOf(c);
      if MustRequeue(alg, s.cpus[c].b) {
        EnqueuedLine(alg, s.queues[q], Ran(alg, s.cpus[c].b), q < s.marked);
      }
    case Exit(c) =>
  }

  lemma StepKeepsHands(s: State, a: Action)
    requires Invariant(s) && Enabled(s, a)
    ensures forall c :: 0 <= c < |s.cpus| && Do(s, a).cpus[c].Holding? ==>
      Accounted(s.cfg.alg, Do(s, a).cpus[c].b, true)
  {
    hide EachInOnePlace, NoneLeftBehind, Completed, Enqueued;
    if a.Take? {
      var q := s.cfg.QueueOf(a.c);
      assert LineAccounted(s.cfg.alg, s.queues[q]);
      assert s.queues[q][a.k] != MARKER;
    }
  }

  lemma StepKeepsFinished(s: State, a: Action)
    requires Invariant(s) && Enabled(s, a)
    ensures forall k :: 0 <= k < |Do(s, a).finished| ==> Completed(s.cfg.alg, Do(s, a).finished[k])
  {
    hide EachInOnePlace, NoneLeftBehind, LineAccounted, MarkedLast;
    if a.Finish? && !MustRequeue(s.cfg.alg, s.cpus[a.c].b) {
      assert !EndsMarked(s.finished);
      assert Completed(s.cfg.alg, Ran(s.cfg.alg, s.cpus[a.c].b));
    }
  }

  lemma StepLeavesNoneBehind(s: State, a: Action, q: nat)
    requires Invariant(s) && Enabled(s, a) && q < |s.queues|
    ensures NoneLeftBehind(Do(s, a), q)
  {
    hide EachInOnePlace, LineAccounted, Accounted, Completed, Enqueued, Without;
    var s' := Do(s, a);
    assert NoneLeftBehind(s, q) && MarkedLast(s.queues[q], q < s.marked);
    if forall c: nat :: Serves(s', c, q) ==> s'.cpus[c] == Exited {
      assert Serves(s, q, q);
      if a.Exit? && s.cfg.QueueOf(a.c) == q {
        assert s'.queues[q] == s.queues[q] == [MARKER];
      } else if (a.Take? || a.Finish?) && s.cfg.QueueOf(a.c) == q {
        assert Serves(s', a.c, q);
      } else {
        assert forall c: nat :: Serves(s, c, q) ==> Serves(s', c, q) && s'.cpus[c] == s.cpus[c];
      }
    }
  }

  lemma StepInvariant(s: State, a: Action)
    requires Invariant(s) && Enabled(s, a)
    ensures Invariant(Do(s, a))
  {
    StepKeepsBursts(s, a);
    StepKeepsLines(s, a);
    StepKeepsHands(s, a);
    StepKeepsFinished(s, a);
    forall q | 0 <= q < |s.queues| ensures NoneLeftBehind(Do(s, a), q) {
      StepLeavesNoneBehind(s, a, q);
    }
  }

  lemma InitialInvariant(cfg: Config)
    requires cfg.Sensible()
    ensures Invariant(Initial(cfg))
  {
    var s := Initial(cfg);
    forall pid ensures Copies(s, pid) == 0 {
      EmptyQueues(Occurrences(pid), s.queues);
      IdleCpus(Occurrences(pid), s.cpus);
    }
    forall q | 0 <= q < |s.queues| ensures NoneLeftBehind(s, q) {
      assert Serves(s, q, q);
    }
  }

  lemma {:induction false} RunInvariant(s: State, run: seq<Action>, end: State)
    requires Invariant(s) && Leads(s, run, end)
    ensures Invariant(end)
    decreases |run|
  {
    if run != [] {
      StepInvariant(s, run[0]);
      RunInvariant(Do(s, run[0]), run[1..], end);
    }
  }

  lemma ReachableInvariant(s: State)
    requires Reachable(s)
    ensures Invariant(s)
  {
    var cfg: Config, run :| cfg.Sensible() && Leads(Initial(cfg), run, s);
    InitialInvariant(cfg);
    RunInvariant(Initial(cfg), run, s);
  }

  // ----- the end of a run -----------------------------------------------------------------------

  /** Every CPU action brings the end exactly one action nearer. */
  lemma StepProgress(s: State, a: Action)
    requires Invariant(s) && Enabled(s, a) && a.ByCpu()
    ensures Due(Do(s, a)) == Due(s) - 1
  {
    hide InLine, InQueues, OnCpus, EachInOnePlace, NoneLeftBehind, Completed, MarkedLast;
    StepWeights(ActionsDue(s.cfg.alg), s, a);
  }

  /** Once nothing arrives any more, all runs to the same end state have the same length. */
  lemma {:induction false} CpuRunsAreExact(s: State, run: seq<Action>, end: State)
    requires Invariant(s) && Leads(s, run, end) && forall a :: a in run ==> a.ByCpu()
    ensures |run| == Due(s) - Due(end)
    decreases |run|
  {
    hide Due, Invariant;
    if run != [] {
      StepProgress(s, run[0]);
      StepInvariant(s, run[0]);
      CpuRunsAreExact(Do(s, run[0]), run[1..], end);
    }
  }

  lemma {:induction false} ShortestExists(q: seq<Burst>) returns (k: nat)
    requires q != [] && q[0].pid != -1
    ensures IsShortest(q, k)
  {
    if |q| == 1 {
      k := 0;
    } else {
      var front, last := q[..|q| - 1], q[|q| - 1];
      k := ShortestExists(front);
      if last.pid != -1 && last.remaining < q[k].remaining {
        assert forall i :: 0 <= i < |front| && front[i].pid != -1 ==> front[k].remaining <= front[i].remaining;
        k := |q| - 1;
      }
    }
  }

  /** With all markers in place, no CPU comes to rest except by exiting. */
  lemma CpusNeverStarve(s: State, c: nat) returns (a: Action)
    requires Invariant(s) && s.marked == |s.queues| && c < |s.cpus| && s.cpus[c] != Exited
    ensures Enabled(s, a) && a.ByCpu()
  {
    var q := s.queues[s.cfg.QueueOf(c)];
    assert MarkedLast(q, true);
    if s.cpus[c].Holding? {
      a := Finish(c);
    } else if q[0].pid == -1 {
      a := Exit(c);
    } else if s.cfg.alg == SJF {
      var k := ShortestExists(q);
      a := Take(c, k);
    } else {
      a := Take(c, 0);
    }
  }

  /** All CPUs have left. */
  predicate AllExited(s: State) {
    forall c :: 0 <= c < |s.cpus| ==> s.cpus[c] == Exited
  }

  /** What schedule relies on when it frees the queues: nothing but the marker is in any of them. */
  lemma ExitedMeansDrained(s: State)
    requires Reachable(s) && AllExited(s)
    ensures s.marked == |s.queues| && forall q :: 0 <= q < |s.queues| ==> s.queues[q] == [MARKER]
    ensures forall k :: 0 <= k < |s.finished| ==> Completed(s.cfg.alg, s.finished[k])
    ensures forall pid :: pid != -1 ==>
      InLine(Occurrences(pid), s.finished) == if 1 <= pid < s.nextPid then 1 else 0
  {
    ReachableInvariant(s);
    forall q | 0 <= q < |s.queues| ensures s.queues[q] == [MARKER] && q < s.marked {
      assert NoneLeftBehind(s, q);
      assert MarkedLast(s.queues[q], q < s.marked);
    }
    assert s.queues[|s.queues| - 1] == [MARKER];
    forall pid | pid != -1
      ensures InLine(Occurrences(pid), s.finished) == if 1 <= pid < s.nextPid then 1 else 0
    {
      OnlyMarkers(s.queues, pid);
      IdleCpus(Occurrences(pid), s.cpus);
      assert Copies(s, pid) == InLine(Occurrences(pid), s.finished);
    }
  }

  lemma {:induction false} OnlyMarkers(queues: seq<seq<Burst>>, pid: int)
    requires pid != -1 && forall i :: 0 <= i < |queues| ==> queues[i] == [MARKER]
    ensures InQueues(Occurrences(pid), queues) == 0
  {
    if queues != [] {
      InLineOne(Occurrences(pid), MARKER);
      OnlyMarkers(queues[..|queues| - 1], pid);
    }
  }

  lemma BagWithout<T>(a: seq<T>, k: nat)
    requires k < |a|
    ensures multiset(a) == multiset(Without(a, k)) + multiset{a[k]}
  {
    assert a == a[..k] + [a[k]] + a[k + 1..];
  }

  lemma SameBagWithoutLast<T>(a: seq<T>, b: seq<T>) returns (k: nat)
    requires a != [] && multiset(a) == multiset(b)
    ensures k < |b| && b[k] == a[|a| - 1]
    ensures multiset(a[..|a| - 1]) == multiset(Without(b, k))
  {
    var front, x := a[..|a| - 1], a[|a| - 1];
    assert a == front + [x];
    assert x in multiset(b);
    k :| 0 <= k < |b| && b[k] == x;
    BagWithout(b, k);
    BagCancel(multiset(Without(b, k)), multiset(front), multiset{x});
  }

  lemma {:induction false} InLineOfBag(w: Tally, a: seq<Burst>, b: seq<Burst>)
    requires multiset(a) == multiset(b)
    ensures InLine(w, a) == InLine(w, b)
    decreases |a|
  {
    if a == [] {
      assert |multiset(b)| == 0;
    } else {
      var k := SameBagWithoutLast(a, b);
      InLineOfBag(w, a[..|a| - 1], Without(b, k));
      InLineWithout(w, b, k);
    }
  }

  lemma {:induction false} Occurring(q: seq<Burst>, pid: int)
    ensures InLine(Occurrences(pid), q) > 0 <==> exists k :: 0 <= k < |q| && q[k].pid == pid
  {
    if q != [] {
      var last := |q| - 1;
      Occurring(q[..last], pid);
      if k :| 0 <= k < |q| && q[k].pid == pid {
        assert k < last ==> q[..last][k].pid == pid;
      }
    }
  }

  predicate PidsRise(q: seq<Burst>) {
    forall a, b :: 0 <= a < b < |q| ==> q[a].pid <= q[b].pid
  }

  lemma {:induction false} RisingPidsAreAll(q: seq<Burst>, n: nat)
    requires PidsRise(q) && forall k :: 0 <= k < |q| ==> q[k].pid != -1
    requires forall pid :: pid != -1 ==> InLine(Occurrences(pid), q) == if 1 <= pid <= n then 1 else 0
    ensures |q| == n && forall k :: 0 <= k < n ==> q[k].pid == k + 1
  {
    forall k | 0 <= k < |q| ensures 1 <= q[k].pid <= n {
      Occurring(q, q[k].pid);
    }
    if n > 0 {
      var last := |q| - 1;
      Occurring(q, n);
      assert q[last].pid == n;
      forall pid | pid != -1
        ensures InLine(Occurrences(pid), q[..last]) == if 1 <= pid <= n - 1 then 1 else 0
      {
        assert InLine(Occurrences(pid), q) == InLine(Occurrences(pid), q[..last]) + Weight(Occurrences(pid), q[last]);
      }
      RisingPidsAreAll(q[..last], n - 1);
    }
  }

  /** The final report: when all CPUs have left, the sorted finished queue is 1, 2, ..., n, all run to completion. */
  lemma FinalReport(s: State, report: seq<Burst>)
    requires Reachable(s) && AllExited(s)
    requires multiset(report) == multiset(s.finished) && PidsRise(report)
    ensures |report| == s.nextPid - 1
    ensures forall k :: 0 <= k < |report| ==> report[k].pid == k + 1 && Completed(s.cfg.alg, report[k])
  {
    ReachableInvariant(s);
    ExitedMeansDrained(s);
    forall k | 0 <= k < |report| ensures Completed(s.cfg.alg, report[k]) {
      assert report[k] in multiset(s.finished);
    }
    forall pid | pid != -1
      ensures InLine(Occurrences(pid), report) == if 1 <= pid <= s.nextPid - 1 then 1 else 0
    {
      InLineOfBag(Occurrences(pid), report, s.finished);
    }
    RisingPidsAreAll(report, s.nextPid - 1);
  }

  /**
   * Every run drains: once the markers are in, a run in which the CPUs have done
   * all they can has made exactly the actions due and left the system drained.
   */
  lemma EveryMaximalRunDrains(s: State, run: seq<Action>, end: State)
    requires Reachable(s) && s.marked == |s.queues|
    requires Leads(s, run, end) && forall a :: a in run ==> a.ByCpu()
    requires forall a: Action :: a.ByCpu() ==> !Enabled(end, a)
    ensures AllExited(end) && Due(end) == 0 && |run| == Due(s)
  {
    ReachableInvariant(s);
    RunInvariant(s, run, end);
    CpuRunKeepsMarks(s, run, end);
    forall c | 0 <= c < |end.cpus| ensures end.cpus[c] == Exited {
      if end.cpus[c] != Exited {
        var a := CpusNeverStarve(end, c);
      }
    }
    CpuRunsAreExact(s, run, end);
    forall q | 0 <= q < |end.queues| ensures end.queues[q] == [MARKER] {
      assert NoneLeftBehind(end, q);
    }
    NoMoreActions(end.cfg.alg, end.queues);
    IdleCpus(ActionsDue(end.cfg.alg), end.cpus);
  }

  lemma {:induction false} NoMoreActions(alg: Algorithm, queues: seq<seq<Burst>>)
    requires forall i :: 0 <= i < |queues| ==> queues[i] == [MARKER]
    ensures InQueues(ActionsDue(alg), queues) == 0
  {
    if queues != [] {
      InLineOne(ActionsDue(alg), MARKER);
      NoMoreActions(alg, queues[..|queues| - 1]);
    }
  }

  lemma {:induction false} CpuRunKeepsMarks(s: State, run: seq<Action>, end: State)
    requires Leads(s, run, end) && forall a :: a in run ==> a.ByCpu()
    ensures end.marked == s.marked && |end.queues| == |s.queues|
    decreases |run|
  {
    if run != [] {
      assert run[0].ByCpu() && Do(s, run[0]).marked == s.marked;
      CpuRunKeepsMarks(Do(s, run[0]), run[1..], end);
    }
  }

  // ----- round robin ------------------------------------------------------------------------------

  /** Round robin dispatches a burst ceil(length / Q) times, and at least once; the others dispatch it once. */
  lemma {:induction false} RoundsAreCeiling(alg: Algorithm, length: int)
    requires alg.RR? ==> alg.quantum > 0
    ensures !alg.RR? || length <= 0 ==> Rounds(alg, length) == 1
    ensures alg.RR? && length > 0 ==>
      (Rounds(alg, length) - 1) * alg.quantum < length <= Rounds(alg, length) * alg.quantum
    decreases length
  {
    if alg.RR? && length > alg.quantum {
      RoundsAreCeiling(alg, length - alg.quantum);
      var n, q := Rounds(alg, length - alg.quantum), alg.quantum;
      assert (n - 1) * q + q == n * q && (n + 1) * q == n * q + q;
    }
  }

  // ----- round method -----------------------------------------------------------------------------

  /** RoundMethod deals the bursts out to the queues in turn: burst p goes to queue (p - 1) mod n. */
  ghost predicate DealsInTurn(s: State)
    requires Shape(s)
  {
    s.cfg.selection == RoundMethod ==>
      exists rounds: int :: s.nextPid - 1 == Dealt(rounds, |s.queues|) + s.nextQueue
  }

  ghost function Dealt(rounds: int, n: int): int { rounds * n }

  lemma NextInTurn(rounds: int, n: nat, k: nat)
    requires k < n
    ensures (k + 1) % n == if k + 1 == n then 0 else k + 1
    ensures Dealt(rounds + 1, n) == Dealt(rounds, n) + n
  {
  }

  lemma StepDealsInTurn(s: State, a: Action)
    requires Shape(s) && Enabled(s, a) && DealsInTurn(s)
    ensures DealsInTurn(Do(s, a))
  {
    if s.cfg.selection == RoundMethod {
      var n := |s.queues|;
      var rounds: int :| s.nextPid - 1 == Dealt(rounds, n) + s.nextQueue;
      NextInTurn(rounds, n, s.nextQueue);
      hide Dealt;
      var s' := Do(s, a);
      var rounds' := if a.Arrive? && s.nextQueue + 1 == n then rounds + 1 else rounds;
      assert s'.nextPid - 1 == Dealt(rounds', |s'.queues|) + s'.nextQueue;
    }
  }

  lemma {:induction false} RunDealsInTurn(s: State, run: seq<Action>, end: State)
    requires Leads(s, run, end) && DealsInTurn(s)
    ensures DealsInTurn(end)
    decreases |run|
  {
    if run != [] {
      StepDealsInTurn(s, run[0]);
      RunDealsInTurn(Do(s, run[0]), run[1..], end);
    }
  }

  lemma ReachableDealsInTurn(s: State)
    requires Reachable(s)
    ensures DealsInTurn(s)
  {
    var cfg: Config, run :| cfg.Sensible() && Leads(Initial(cfg), run, s);
    assert 0 == Dealt(0, cfg.Queues()) + 0;
    RunDealsInTurn(Initial(cfg), run, s);
  }

  lemma MultiplesAreApart(n: int, d: int)
    requires n >= 0
    ensures d >= 1 ==> n * d >= n
    ensures d <= -1 ==> n * d <= -n
  {
  }

  lemma ModUnique(x: int, n: nat, rounds: int, k: nat)
    requires k < n && x == Dealt(rounds, n) + k
    ensures x % n == k
  {
    var d := rounds - x / n;
    assert n * d == x % n - k;
    MultiplesAreApart(n, d);
  }

  predicate DealtTo(pid: int, n: nat, q: nat)
    requires n > 0
  {
    pid >= 1 && (pid - 1) % n == q
  }

  predicate LineDealtTo(line: seq<Burst>, n: nat, q: nat)
    requires n > 0
  {
    forall i :: 0 <= i < |line| && line[i].pid != -1 ==> DealtTo(line[i].pid, n, q)
  }

  /** Under RoundMethod a burst is in its own queue or in the hands of a CPU that serves it. */
  ghost predicate InTurnPlaces(s: State)
    requires Shape(s)
  {
    var n := |s.queues|;
    s.cfg.selection == RoundMethod ==>
      && (forall q :: 0 <= q < n ==> LineDealtTo(s.queues[q], n, q))
      && (forall c :: 0 <= c < |s.cpus| && s.cpus[c].Holding? ==> DealtTo(s.cpus[c].b.pid, n, s.cfg.QueueOf(c)))
  }

  lemma DealtLines(line: seq<Burst>, n: nat, q: nat, b: Burst, k: nat)
    requires n > 0 && LineDealtTo(line, n, q)
    ensures b.pid == -1 || DealtTo(b.pid, n, q) ==> LineDealtTo(Enqueued(line, b), n, q)
    ensures k < |line| ==> LineDealtTo(Without(line, k), n, q)
    ensures k < |line| && line[k].pid != -1 ==> DealtTo(line[k].pid, n, q)
  {
    hide DealtTo;
  }

  lemma NextPidIsInTurn(s: State)
    requires Shape(s) && DealsInTurn(s) && s.nextPid >= 1 && s.cfg.selection == RoundMethod
    ensures DealtTo(s.nextPid, |s.queues|, s.nextQueue)
  {
    var rounds: int :| s.nextPid - 1 == Dealt(rounds, |s.queues|) + s.nextQueue;
    ModUnique(s.nextPid - 1, |s.queues|, rounds, s.nextQueue);
  }

  lemma StepLinesInTurn(s: State, a: Action, q: nat)
    requires Shape(s) && Enabled(s, a) && InTurnPlaces(s) && s.cfg.selection == RoundMethod && q < |s.queues|
    requires a.Arrive? ==> DealtTo(s.nextPid, |s.queues|, s.nextQueue)
    ensures LineDealtTo(Do(s, a).queues[q], |s.queues|, q)
  {
    hide DealtTo, LineDealtTo, Enqueued, Without;
    match a
    case Arrive(length, _) => DealtLines(s.queues[q], |s.queues|, q, Burst(s.nextPid, length, length, 0, 0), 0);
    case Mark => DealtLines(s.queues[q], |s.queues|, q, MARKER, 0);
    case Take(_, k) => DealtLines(s.queues[q], |s.queues|, q, MARKER, k);
    case Finish(c) => DealtLines(s.queues[q], |s.queues|, q, Ran(s.cfg.alg, s.cpus[c].b), 0);
    case Exit(_) =>
  }

  lemma StepHandsInTurn(s: State, a: Action, c: nat)
    requires Shape(s) && Enabled(s, a) && InTurnPlaces(s) && s.cfg.selection == RoundMethod && c < |s.cpus|
    ensures Do(s, a).cpus[c].Holding? ==> DealtTo(Do(s, a).cpus[c].b.pid, |s.queues|, s.cfg.QueueOf(c))
  {
    hide DealtTo, LineDealtTo, Enqueued, Without;
    if a.Take? && a.c == c {
      DealtLines(s.queues[s.cfg.QueueOf(c)], |s.queues|, s.cfg.QueueOf(c), MARKER, a.k);
    }
  }

  lemma StepInTurnPlaces(s: State, a: Action)
    requires Shape(s) && Enabled(s, a) && InTurnPlaces(s) && DealsInTurn(s) && s.nextPid >= 1
    ensures InTurnPlaces(Do(s, a)) && Do(s, a).nextPid >= 1
  {
    if s.cfg.selection == RoundMethod {
      NextPidIsInTurn(s);
      hide DealtTo, DealsInTurn, LineDealtTo, Enqueued, Without, IsShortest;
      forall q | 0 <= q < |s.queues| ensures LineDealtTo(Do(s, a).queues[q], |s.queues|, q) {
        StepLinesInTurn(s, a, q);
      }
      forall c | 0 <= c < |s.cpus| && Do(s, a).cpus[c].Holding?
        ensures DealtTo(Do(s, a).cpus[c].b.pid, |s.queues|, s.cfg.QueueOf(c))
      {
        StepHandsInTurn(s, a, c);
      }
      assert |Do(s, a).queues| == |s.queues| && |Do(s, a).cpus| == |s.cpus|;
    }
  }

  lemma {:induction false} RunInTurnPlaces(s: State, run: seq<Action>, end: State)
    requires Leads(s, run, end) && InTurnPlaces(s) && DealsInTurn(s) && s.nextPid >= 1
    ensures InTurnPlaces(end)
    decreases |run|
  {
    if run != [] {
      StepInTurnPlaces(s, run[0]);
      StepDealsInTurn(s, run[0]);
      RunInTurnPlaces(Do(s, run[0]), run[1..], end);
    }
  }

  /** Under RoundMethod burst p is only ever run by a CPU of queue (p - 1) mod n. */
  lemma ReachableInTurnPlaces(s: State)
    requires Reachable(s)
    ensures InTurnPlaces(s)
  {
    var cfg: Config, run :| cfg.Sensible() && Leads(Initial(cfg), run, s);
    assert 0 == Dealt(0, cfg.Queues()) + 0;
    RunInTurnPlaces(Initial(cfg), run, s);
  }

  // ----- first come, first served -------------------------------------------------------------

  predicate TakesFrom(cfg: Config, a: Action, q: nat) {
    a.Take? && cfg.QueueOf(a.c) == q
  }

  function CountTakes(cfg: Config, run: seq<Action>, q: nat): nat {
    if run == [] then 0
    else (if TakesFrom(cfg, run[0], q) then 1 else 0) + CountTakes(cfg, run[1..], q)
  }

  predicate InPlace(s: State, q: nat, k: nat, b: Burst) {
    q < |s.queues| && k < |s.queues[q]| && s.queues[q][k] == b
  }

  /** Without SJF, each dispatch from a queue moves everybody in it up by one, and nothing else does. */
  lemma StepKeepsTurn(s: State, a: Action, q: nat, k: nat, b: Burst)
    requires Shape(s) && Enabled(s, a) && s.cfg.alg != SJF
    requires InPlace(s, q, k, b) && b.pid != -1
    ensures !TakesFrom(s.cfg, a, q) ==> InPlace(Do(s, a), q, k, b)
    ensures TakesFrom(s.cfg, a, q) && k > 0 ==> InPlace(Do(s, a), q, k - 1, b)
    ensures TakesFrom(s.cfg, a, q) && k == 0 ==> Do(s, a).cpus[a.c] == Holding(Taken(b))
  {
  }

  /** Bounded bypass: after `d` dispatches from its queue, a burst has exactly `d` fewer ahead of it. */
  lemma {:induction false} TurnsComeInOrder(s: State, run: seq<Action>, end: State, q: nat, k: nat, b: Burst)
    requires Leads(s, run, end) && s.cfg.alg != SJF
    requires InPlace(s, q, k, b) && b.pid != -1
    requires CountTakes(s.cfg, run, q) <= k
    ensures InPlace(end, q, k - CountTakes(s.cfg, run, q), b)
    decreases |run|
  {
    if run != [] {
      StepKeepsTurn(s, run[0], q, k, b);
      var k' := if TakesFrom(s.cfg, run[0], q) then k - 1 else k;
      TurnsComeInOrder(Do(s, run[0]), run[1..], end, q, k', b);
    }
  }

  /** A burst with `k` ahead of it is dispatched by the very next dispatch after `k` others. */
  lemma DispatchedInTurn(s: State, run: seq<Action>, end: State, take: Action, q: nat, k: nat, b: Burst)
    requires Leads(s, run, end) && s.cfg.alg != SJF
    requires InPlace(s, q, k, b) && b.pid != -1
    requires CountTakes(s.cfg, run, q) == k
    requires Enabled(end, take) && TakesFrom(s.cfg, take, q)
    ensures Do(end, take).cpus[take.c] == Holding(Taken(b))
  {
    TurnsComeInOrder(s, run, end, q, k, b);
    StepKeepsTurn(end, take, q, 0, b);
  }
}
