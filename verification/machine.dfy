/**
 * The scheduler on its linked queues. Each locked stretch of the CPUs and of the
 * producer is proved to be the action of `Scheduler` that it stands for, so what
 * `SchedulerTheorems` proves of all runs holds of the queues.
 */
module Machine {
  import opened Collections
  import opened ReadyQueue
  import opened Scheduler
  import opened SchedulerTheorems
  import opened Dispatch

  /** `item` stands for burst `b`; the history of `b` is not stored. */
  ghost predicate Same(item: BurstItem, b: Burst)
    reads item
  {
    item.pid == b.pid && item.burstLength == b.length && item.remainingTime == b.remaining
  }

  ghost predicate SameLine(items: seq<BurstItem>, line: seq<Burst>)
    reads items
  {
    |items| == |line| && forall i :: 0 <= i < |items| ==> Same(items[i], line[i])
  }

  lemma SameJoined(items: seq<BurstItem>, line: seq<Burst>, item: BurstItem, b: Burst)
    requires SameLine(items, line) && Same(item, b)
    ensures Marked(items) <==> EndsMarked(line)
    ensures SameLine(Joined(items, item, Marked(items)), Enqueued(line, b))
  {
  }

  lemma SameWithout(items: seq<BurstItem>, line: seq<Burst>, k: nat)
    requires SameLine(items, line) && k < |line|
    ensures SameLine(Without(items, k), Without(line, k))
  {
  }

  lemma SameShortest(items: seq<BurstItem>, line: seq<Burst>, k: nat)
    requires SameLine(items, line) && IsShortest(Line(items), k)
    ensures IsShortest(line, k)
  {
  }

  lemma {:induction false} LeadsOn(s: State, run: seq<Action>, end: State, a: Action)
    requires Leads(s, run, end) && Enabled(end, a)
    ensures Leads(s, run + [a], Do(end, a))
    decreases |run|
  {
    if run == [] {
      assert [a][1..] == [];
      assert Leads(Do(s, a), [], Do(s, a));
    } else {
      assert (run + [a])[1..] == run[1..] + [a];
      LeadsOn(Do(s, run[0]), run[1..], end, a);
    }
  }

  lemma ReachableStep(s: State, a: Action)
    requires Reachable(s) && Enabled(s, a)
    ensures Reachable(Do(s, a))
  {
    var cfg: Config, run :| cfg.Sensible() && Leads(Initial(cfg), run, s);
    LeadsOn(Initial(cfg), run, s, a);
  }

  lemma PidsArePositive(s: State)
    requires Reachable(s)
    ensures s.nextPid > 0
  {
    ReachableInvariant(s);
  }

  lemma NotYetMarked(s: State, items: seq<BurstItem>)
    requires Reachable(s) && s.marked < |s.queues| && SameLine(items, s.queues[s.marked])
    ensures !Marked(items)
  {
    ReachableInvariant(s);
    assert MarkedLast(s.queues[s.marked], false);
  }

  /** `s'` is what action `a` makes of `s`. */
  predicate Steps(s: State, a: Action, s': State) {
    Shape(s) && Enabled(s, a) && s' == Do(s, a)
  }

  lemma LineIsDistinct(s: State, q: nat, items: seq<BurstItem>)
    requires Reachable(s) && q < |s.queues| && SameLine(items, s.queues[q])
    ensures DistinctPids(items)
  {
    ReachableInvariant(s);
    forall i, j | 0 <= i < j < |items| ensures items[i].pid != items[j].pid {
      LinePidsAreDistinct(s, q, i, j);
    }
  }

  /** The ready queues and the finished queue. */
  function AllLines(s: State): seq<seq<Burst>> {
    s.queues + [s.finished]
  }

  /** A CPU that finds the marker at the head leaves. */
  lemma ExitIsDue(s: State, c: nat, items: seq<BurstItem>)
    requires Shape(s) && c < |s.cpus| && s.cpus[c] == Polling
    requires SameLine(items, s.queues[s.cfg.QueueOf(c)]) && items != [] && items[0].pid == -1
    ensures Enabled(s, Exit(c))
  {
  }

  /** A CPU that does not may take the burst that its algorithm names. */
  lemma TakeIsDue(s: State, c: nat, k: nat, items: seq<BurstItem>)
    requires Shape(s) && c < |s.cpus| && s.cpus[c] == Polling
    requires SameLine(items, s.queues[s.cfg.QueueOf(c)]) && k < |items| && items[0].pid != -1
    requires if s.cfg.alg == SJF then IsShortest(Line(items), k) else k == 0
    ensures Enabled(s, Take(c, k)) && Same(items[k], Taken(s.queues[s.cfg.QueueOf(c)][k]))
    ensures SameLine(Without(items, k), Without(s.queues[s.cfg.QueueOf(c)], k))
    ensures AllLines(Do(s, Take(c, k))) ==
      AllLines(s)[s.cfg.QueueOf(c) := Without(s.queues[s.cfg.QueueOf(c)], k)]
  {
    SameWithout(items, s.queues[s.cfg.QueueOf(c)], k);
    if s.cfg.alg == SJF {
      SameShortest(items, s.queues[s.cfg.QueueOf(c)], k);
    }
  }

  lemma {:induction false} CpuIsPart(w: Tally, cpus: seq<Cpu>, c: nat)
    requires c < |cpus|
    ensures CpuWeight(w, cpus[c]) <= OnCpus(w, cpus)
  {
    if c < |cpus| - 1 {
      CpuIsPart(w, cpus[..|cpus| - 1], c);
    }
  }

  /** A burst in a CPU's hands is in no queue. */
  lemma InHandNotInLine(s: State, c: nat, q: nat, i: nat)
    requires Reachable(s) && c < |s.cpus| && s.cpus[c].Holding?
    requires q < |AllLines(s)| && i < |AllLines(s)[q]|
    ensures AllLines(s)[q][i].pid != s.cpus[c].b.pid
  {
    ReachableInvariant(s);
    var pid := s.cpus[c].b.pid;
    var w := Occurrences(pid);
    assert Accounted(s.cfg.alg, s.cpus[c].b, true);
    CpuIsPart(w, s.cpus, c);
    assert Copies(s, pid) <= 1;
    if AllLines(s)[q][i].pid == pid {
      Occurring(AllLines(s)[q], pid);
      if q < |s.queues| {
        QueueIsPart(w, s.queues, q);
      }
      assert false;
    }
  }

  /** Nor is it in another CPU's hands. */
  lemma InOneHand(s: State, c: nat, c': nat)
    requires Reachable(s) && c < |s.cpus| && c' < |s.cpus| && c != c'
    requires s.cpus[c].Holding? && s.cpus[c'].Holding?
    ensures s.cpus[c'].b.pid != s.cpus[c].b.pid
  {
    ReachableInvariant(s);
    var pid := s.cpus[c].b.pid;
    var w := Occurrences(pid);
    assert Accounted(s.cfg.alg, s.cpus[c].b, true);
    CpusUpdate(w, s.cpus, c, Polling);
    CpuIsPart(w, s.cpus[c := Polling], c');
    assert Copies(s, pid) <= 1;
    if s.cpus[c'].b.pid == pid {
      assert false;
    }
  }

  /** Finishing puts the burst in one line and leaves the others alone. */
  lemma FinishLines(s: State, c: nat)
    requires Shape(s) && c < |s.cpus| && s.cpus[c].Holding?
    ensures Enabled(s, Action.Finish(c))
    ensures var b := s.cpus[c].b;
      var target := if MustRequeue(s.cfg.alg, b) then s.cfg.QueueOf(c) else |s.queues|;
      AllLines(Do(s, Action.Finish(c)))
        == AllLines(s)[target := Enqueued(AllLines(s)[target], Ran(s.cfg.alg, b))]
  {
  }

  /** What running does to a burst does not depend on its history. */
  lemma RanAlike(alg: Algorithm, v: Burst, b: Burst)
    requires v.pid == b.pid && v.length == b.length && v.remaining == b.remaining && v.executed == 0
    ensures MustRequeue(alg, v) == MustRequeue(alg, b)
    ensures Ran(alg, v).pid == Ran(alg, b).pid && Ran(alg, v).length == Ran(alg, b).length
    ensures Ran(alg, v).remaining == Ran(alg, b).remaining
    ensures Ran(alg, v).executed == Ran(alg, b).executed - b.executed
  {
  }

  /** An arrival or a marker joins one line and leaves the others alone. */
  lemma ProducedLines(s: State, a: Action)
    requires Shape(s) && Enabled(s, a) && (a.Arrive? || a.Mark?)
    ensures var k := if a.Arrive? then a.q else s.marked;
      var b := if a.Arrive? then Burst(s.nextPid, a.length, a.length, 0, 0) else MARKER;
      AllLines(Do(s, a)) == AllLines(s)[k := Enqueued(AllLines(s)[k], b)]
  {
  }

  /** Whatever order the items are put in, the bursts they stand for can be put in the same. */
  lemma {:induction false} SameOrder(items: seq<BurstItem>, line: seq<Burst>, items': seq<BurstItem>)
      returns (line': seq<Burst>)
    requires SameLine(items, line) && multiset(items') == multiset(items)
    ensures SameLine(items', line') && multiset(line') == multiset(line)
    decreases |items'|
  {
    if items' == [] {
      line' := [];
      assert |multiset(items)| == |items| == 0;
      assert line == [];
    } else {
      var k := SameBagWithoutLast(items', items);
      var rest := SameOrder(Without(items, k), Without(line, k), items'[..|items'| - 1]);
      BagWithout(line, k);
      line' := rest + [line[k]];
    }
  }

  lemma NoMarkerFinished(s: State, items: seq<BurstItem>)
    requires Reachable(s) && SameLine(items, s.finished)
    ensures !Marked(items)
  {
    ReachableInvariant(s);
    assert forall k :: 0 <= k < |s.finished| ==> Completed(s.cfg.alg, s.finished[k]);
  }

  lemma DrainedLine(s: State, q: nat, items: seq<BurstItem>)
    requires Reachable(s) && AllExited(s) && q < |s.queues| && SameLine(items, s.queues[q])
    ensures |items| == 1 && items[0].pid == -1
  {
    ExitedMeansDrained(s);
  }

  /** The finished items in pid order are a complete report. */
  lemma ReportIsComplete(s: State, items: seq<BurstItem>, items': seq<BurstItem>)
    requires Reachable(s) && AllExited(s) && SameLine(items, s.finished)
    requires multiset(items') == multiset(items) && Settled(items', |items'|)
    ensures |items'| == s.nextPid - 1
    ensures forall k :: 0 <= k < |items'| ==> items'[k].pid == k + 1 && items'[k].remainingTime == 0
  {
    var line := SameOrder(items, s.finished, items');
    FinalReport(s, line);
  }

  /** What a PL line has said about a burst, and when. */
  datatype Arrival = Arrival(length: int, time: int)

  /** Which CPU has finished a burst, and when. */
  datatype Ending = Ending(cpu: nat, time: int)

  /** The item keeps what was said when it arrived. Burst p is at place p - 1. */
  ghost predicate ArrivedAs(item: BurstItem, arrived: seq<Arrival>)
    reads item
  {
    && 1 <= item.pid <= |arrived|
    && item.burstLength == arrived[item.pid - 1].length && item.arrivalTime == arrived[item.pid - 1].time
  }

  /** The item shows who finished it and when. */
  ghost predicate EndedAs(item: BurstItem, ended: map<int, Ending>)
    reads item
  {
    && item.pid in ended
    && item.processorId == ended[item.pid].cpu && item.finishTime == ended[item.pid].time
    && item.turnaroundTime == item.finishTime - item.arrivalTime
  }

  method NewQueues(n: nat) returns (all: seq<Queue>)
    ensures |all| == n && fresh(all) && Ready(all)
    ensures forall k :: 0 <= k < n ==> all[k].items == [] && all[k].Repr == {}
  {
    all := [];
    for i := 0 to n
      invariant |all| == i && fresh(all) && Ready(all)
      invariant forall k :: 0 <= k < i ==> all[k].items == [] && all[k].Repr == {}
    {
      var queue := new Queue();
      all := all + [queue];
    }
  }

  class SchedProps {
    const cfg: Config
    const lines: seq<Queue>      // the ready queues, and the finished queue behind them
    const producer: Producer
    var inHand: seq<BurstItem?>  // the burst that each CPU runs
    var left: seq<bool>          // the CPUs that have left their loop
    var marked: nat              // how many queues have got their marker
    ghost var state: State
    ghost var arrived: seq<Arrival>     // what has arrived, by pid
    ghost var ended: map<int, Ending>   // what has been finished, by pid

    /** The bursts in the queues. */
    ghost function InLines(): set<BurstItem>
      reads lines
    {
      set q, x | q in lines && x in q.items :: x
    }

    ghost predicate LinesAre(all: seq<seq<Burst>>)
      reads lines, InLines()
    {
      |lines| == |all| && forall q :: 0 <= q < |lines| ==>
        assert forall x :: x in lines[q].items ==> x in InLines();
        SameLine(lines[q].items, all[q])
    }

    ghost predicate CpuIs(c: nat, cpu: Cpu)
      requires c < |inHand| && c < |left|
      reads `inHand, `left, inHand
    {
      && (inHand[c] != null <==> cpu.Holding?)
      && (cpu.Holding? ==> Same(inHand[c], cpu.b))
      && (left[c] <==> cpu.Exited?)
    }

    ghost predicate CpusAre(cpus: seq<Cpu>)
      reads `inHand, `left, inHand
    {
      |inHand| == |left| == |cpus| && forall c :: 0 <= c < |cpus| ==> CpuIs(c, cpus[c])
    }

    ghost predicate CountersAre(s: State)
      reads `marked, producer
    {
      s.cfg == cfg && producer.nextPid == s.nextPid && producer.rrQueueIdx == s.nextQueue && marked == s.marked
    }

    ghost predicate Represents(s: State)
      reads `inHand, `left, `marked, producer, lines, InLines(), inHand
    {
      LinesAre(AllLines(s)) && CpusAre(s.cpus) && CountersAre(s)
    }

    ghost predicate Follows()
      reads `state, `inHand, `left, `marked, producer, lines, Footprint(lines), InLines(), inHand
    {
      Ready(lines) && Represents(state) && Reachable(state)
    }

    /** Every burst carries its length and arrival time, and the finished ones who finished them when. */
    ghost predicate Stamped()
      reads `arrived, `ended, `inHand, producer, lines, InLines(), inHand
    {
      && |arrived| == producer.nextPid - 1 && lines != []
      && (forall q, x | 0 <= q < |lines| && x in lines[q].items ::
            assert x in InLines();
            x.pid != -1 ==> ArrivedAs(x, arrived))
      && (forall c :: 0 <= c < |inHand| && inHand[c] != null ==> ArrivedAs(inHand[c], arrived))
      && (forall x :: x in lines[|lines| - 1].items ==>
            assert x in InLines();
            EndedAs(x, ended))
      && (cfg.selection == RoundMethod && !cfg.single && cfg.cpus > 0 ==>
            forall pid :: pid in ended ==> (pid - 1) % cfg.cpus == ended[pid].cpu)
    }

    ghost predicate Valid()
      reads this, producer, lines, Footprint(lines), InLines(), inHand
    {
      Follows() && Stamped()
    }

    /** The fields have made the step, and the state follows. */
    ghost method Advance(a: Action)
      requires Ready(lines) && Reachable(state) && Enabled(state, a) && Represents(Do(state, a))
      modifies `state
      ensures Follows() && state == Do(old(state), a)
    {
      hide Queue.Valid, Apart, SameLine, Reachable, Do, Enabled;
      ReachableStep(state, a);
      state := Do(state, a);
    }

    /** The queues as schedule creates them; nobody has run yet. */
    constructor (cfg: Config)
      requires cfg.Sensible()
      ensures Valid() && state == Initial(cfg) && arrived == [] && ended == map[]
      ensures this.cfg == cfg && |lines| == (if cfg.single then 1 else cfg.cpus) + 1
      ensures forall q :: 0 <= q < |lines| ==> lines[q].items == []
      ensures |inHand| == |left| == cfg.cpus && forall c :: 0 <= c < cfg.cpus ==> inHand[c] == null && !left[c]
      ensures marked == 0 && producer.nextPid == 1 && producer.rrQueueIdx == 0
    {
      var all := NewQueues(cfg.Queues() + 1);
      this.cfg, lines := cfg, all;
      producer := new Producer();
      inHand, left := seq(cfg.cpus, _ => null), seq(cfg.cpus, _ => false);
      marked, state, arrived, ended := 0, Initial(cfg), [], map[];
      new;
      assert Leads(state, [], state);
    }

    lemma LineOf(q: nat)
      requires LinesAre(AllLines(state)) && q < |state.queues|
      ensures lines[q] in lines && SameLine(lines[q].items, state.queues[q])
      ensures lines[q].items == [] <==> state.queues[q] == []
    {
    }

    /** CPU `c` leaves its loop. */
    method Leave(c: nat)
      requires Follows() && Enabled(state, Exit(c))
      modifies `left, `state
      ensures Follows() && state == Do(old(state), Exit(c)) && left == old(left)[c := true]
    {
      hide Queue.Valid, Apart, SameLine, Reachable;
      left := left[c := true];
      Advance(Exit(c));
    }

    /** CPU `c` has taken the burst at place `k` out of its queue. */
    method Grab(c: nat, burst: BurstItem, ghost k: nat)
      requires Ready(lines) && Reachable(state) && Enabled(state, Take(c, k))
      requires LinesAre(AllLines(Do(state, Take(c, k)))) && CpusAre(state.cpus) && CountersAre(state)
      requires Same(burst, Taken(state.queues[cfg.QueueOf(c)][k]))
      modifies `inHand, `state
      ensures Follows() && state == Do(old(state), Take(c, k)) && inHand == old(inHand)[c := burst]
    {
      hide Queue.Valid, Apart, SameLine, Reachable, Without;
      inHand := inHand[c := burst];
      Advance(Take(c, k));
    }

    lemma EachLine(all: seq<seq<Burst>>)
      requires LinesAre(all)
      ensures |lines| == |all| && forall i :: 0 <= i < |lines| ==> SameLine(lines[i].items, all[i])
    {
    }

    /** One line has changed. */
    lemma OneLine(all: seq<seq<Burst>>, q: nat, line: seq<Burst>)
      requires q < |lines| == |all| && SameLine(lines[q].items, line)
      requires forall i :: 0 <= i < |lines| && i != q ==> SameLine(lines[i].items, all[i])
      ensures LinesAre(all[q := line])
    {
    }

    /** What CPU `c` does to its queue, which is not empty. */
    method TakeDue(c: nat) returns (burst: BurstItem?, ghost k: nat)
      requires Ready(lines) && LinesAre(AllLines(state)) && Reachable(state) && state.cfg == cfg
      requires cfg.QueueOf(c) < |lines| - 1 == |state.queues|
      requires c < |state.cpus| && state.cpus[c] == Polling && state.queues[cfg.QueueOf(c)] != []
      modifies lines[cfg.QueueOf(c)], lines[cfg.QueueOf(c)].Repr
      ensures Ready(lines)
      ensures burst == null ==> Enabled(state, Exit(c)) && LinesAre(AllLines(state))
      ensures burst != null ==>
        && Enabled(state, Take(c, k)) && LinesAre(AllLines(Do(state, Take(c, k))))
        && Same(burst, Taken(state.queues[cfg.QueueOf(c)][k]))
      ensures var q := cfg.QueueOf(c);
        var items := old(lines[q].items);
        && items != [] && (burst == null <==> items[0].pid == -1)
        && lines[q].items == (if burst == null then items else if k < |items| then Without(items, k) else items)
        && (burst != null ==> k < |items| && burst == items[k] && burst.pid != -1 && (cfg.alg != SJF ==> k == 0))
        && forall i :: 0 <= i < |lines| && i != q ==> lines[i].items == old(lines[i].items)
    {
      hide Reachable, Ready, Without, Line, SameLine, Same, IsShortest, DistinctPids;
      hide Do, Enabled, Shape, AllLines, LinesAre;
      var q := cfg.QueueOf(c);
      ghost var items := lines[q].items;
      LineOf(q);
      LineIsDistinct(state, q, items);
      EachLine(AllLines(state));
      burst, k := TakeAt(lines, q, cfg.alg);
      if burst == null {
        ExitIsDue(state, c, items);
        OneLine(AllLines(state), q, AllLines(state)[q]);
        assert AllLines(state)[q := AllLines(state)[q]] == AllLines(state);
      } else {
        TakeIsDue(state, c, k, items);
        OneLine(AllLines(state), q, Without(state.queues[q], k));
      }
    }

    /** The bursts themselves have not changed, only where they are. */
    twostate lemma StampsMove(q: nat)
      requires old(Stamped()) && q < |lines| - 1
      requires arrived == old(arrived) && ended == old(ended) && producer.nextPid == old(producer.nextPid)
      requires forall i :: 0 <= i < |lines| && i != q ==> lines[i].items == old(lines[i].items)
      requires forall x :: x in lines[q].items ==> x in old(lines[q].items)
      requires forall c :: 0 <= c < |inHand| && inHand[c] != null ==>
        inHand[c] in old(inHand) || (inHand[c] in old(lines[q].items) && inHand[c].pid != -1)
      requires forall i, x | 0 <= i < |lines| && x in old(lines[i].items) :: unchanged(x)
      requires forall c | 0 <= c < |old(inHand)| && old(inHand[c]) != null :: unchanged(old(inHand[c]))
      ensures Stamped()
    {
    }

    method MakeTurn(c: nat) returns (ghost a: Action)
      requires Follows() && c < |inHand| && inHand[c] == null && !left[c]
      modifies `inHand, `left, `state, lines[cfg.QueueOf(c)], lines[cfg.QueueOf(c)].Repr
      ensures Follows() && cfg.QueueOf(c) < |lines| - 1
      ensures old(state).queues[cfg.QueueOf(c)] == [] ==> state == old(state)
      ensures old(state).queues[cfg.QueueOf(c)] != [] ==> Steps(old(state), a, state) && a.ByCpu() && a.c == c
      ensures var q := if cfg.single then 0 else c;
        var items := old(lines[q].items);
        && (forall i :: 0 <= i < |lines| && i != q ==> lines[i].items == old(lines[i].items))
        && (items == [] ==> lines[q].items == [] && inHand == old(inHand) && left == old(left))
        && (items != [] && items[0].pid == -1 ==>
              && a == Exit(c) && lines[q].items == items
              && inHand == old(inHand) && left == old(left)[c := true])
        && (items != [] && items[0].pid != -1 ==>
              && a.Take? && a.k < |items| && (cfg.alg != SJF ==> a.k == 0) && items[a.k].pid != -1
              && inHand == old(inHand)[c := items[a.k]] && left == old(left)
              && lines[q].items == Without(items, a.k))
    {
      var q := cfg.QueueOf(c);
      LineOf(q);
      a := Exit(c);
      if lines[q].size == 0 {
        return;
      }
      hide Reachable, Ready, Same, LinesAre, Do, Enabled, Without;
      var burst;
      ghost var k;
      burst, k := TakeDue(c);
      if burst == null {
        Leave(c);
      } else {
        a := Take(c, k);
        Grab(c, burst, k);
      }
    }

    /** The locked stretch at the top of the cpu loop. */
    method Turn(c: nat) returns (ghost a: Action)
      requires Valid() && c < |inHand| && inHand[c] == null && !left[c]
      modifies `inHand, `left, `state, lines[cfg.QueueOf(c)], lines[cfg.QueueOf(c)].Repr
      ensures Valid() && arrived == old(arrived) && ended == old(ended)
      ensures old(state).queues[cfg.QueueOf(c)] == [] ==> state == old(state)
      ensures old(state).queues[cfg.QueueOf(c)] != [] ==> Steps(old(state), a, state) && a.ByCpu() && a.c == c
      ensures var q := if cfg.single then 0 else c;
        var items := old(lines[q].items);
        && (forall i :: 0 <= i < |lines| && i != q ==> lines[i].items == old(lines[i].items))
        && (items == [] ==> lines[q].items == [] && inHand == old(inHand) && left == old(left))
        && (items != [] && items[0].pid == -1 ==>
              && a == Exit(c) && lines[q].items == items
              && inHand == old(inHand) && left == old(left)[c := true])
        && (items != [] && items[0].pid != -1 ==>
              && a.Take? && a.k < |items| && (cfg.alg != SJF ==> a.k == 0) && items[a.k].pid != -1
              && inHand == old(inHand)[c := items[a.k]] && left == old(left)
              && lines[q].items == Without(items, a.k))
    {
      hide Follows, Do, Enabled, ArrivedAs, EndedAs, Stamped;
      a := MakeTurn(c);
      StampsMove(cfg.QueueOf(c));
    }

    /** The burst in the hands of CPU `c` is nowhere else. */
    ghost predicate OnlyInHand(c: nat)
      requires c < |inHand| && inHand[c] != null
      reads `inHand, lines
    {
      && (forall q, x | 0 <= q < |lines| && x in lines[q].items :: x != inHand[c] && x.pid != inHand[c].pid)
      && forall i :: 0 <= i < |inHand| && i != c ==> inHand[i] != inHand[c]
    }

    lemma HandOf(c: nat)
      requires Follows() && c < |inHand| && inHand[c] != null
      ensures cfg.QueueOf(c) < |lines| - 1 == |state.queues| && state.cfg == cfg
      ensures c < |state.cpus| && state.cpus[c].Holding? && Same(inHand[c], state.cpus[c].b) && inHand[c].pid > 0
      ensures OnlyInHand(c)
      ensures forall q :: 0 <= q < |lines| ==> inHand[c] !in lines[q].items
      ensures forall c' :: 0 <= c' < |inHand| && c' != c ==> inHand[c'] != inHand[c]
    {
      ReachableInvariant(state);
      assert Accounted(cfg.alg, state.cpus[c].b, true);
      forall q, x | 0 <= q < |lines| && x in lines[q].items ensures x.pid != inHand[c].pid {
        var i :| 0 <= i < |lines[q].items| && lines[q].items[i] == x;
        InHandNotInLine(state, c, q, i);
      }
      forall c' | 0 <= c' < |inHand| && c' != c ensures inHand[c'] != inHand[c] {
        if inHand[c'] != null {
          InOneHand(state, c, c');
        }
      }
    }

    /**
     * CPU `c` has run `burst` for `execTime` until `now`, and has put it back into its queue
     * if there was more to do than the quantum, else among the finished ones.
     */
    twostate predicate HasRun(new c: nat, burst: BurstItem, new now: int, new execTime: int)
      requires lines != []
      reads lines, burst
    {
      var r := old(burst.remainingTime);
      var requeued := cfg.alg.RR? && r > cfg.alg.quantum;
      var target := if !requeued then |lines| - 1 else if cfg.single then 0 else c;
      && target < |lines| && burst.arrivalTime == old(burst.arrivalTime)
      && lines[target].items == Joined(old(lines[target].items), burst, Marked(old(lines[target].items)))
      && (forall i :: 0 <= i < |lines| && i != target ==> lines[i].items == old(lines[i].items))
      && (requeued ==>
            && execTime == cfg.alg.quantum && burst.remainingTime == r - cfg.alg.quantum
            && burst.processorId == old(burst.processorId) && burst.finishTime == old(burst.finishTime)
            && burst.turnaroundTime == old(burst.turnaroundTime))
      && (!requeued ==>
            && execTime == (if cfg.alg == FCFS then burst.burstLength else r) && burst.remainingTime == 0
            && burst.processorId == c && burst.finishTime == now
            && burst.turnaroundTime == now - burst.arrivalTime)
    }

    /** What CPU `c` does with the burst in its hands. */
    method RunDue(c: nat, now: int) returns (execTime: int)
      requires Follows() && c < |inHand| && inHand[c] != null
      modifies inHand[c], lines[cfg.QueueOf(c)], lines[cfg.QueueOf(c)].Repr
      modifies lines[|lines| - 1], lines[|lines| - 1].Repr
      ensures Ready(lines) && Enabled(state, Action.Finish(c))
      ensures LinesAre(AllLines(Do(state, Action.Finish(c))))
      ensures forall c' :: 0 <= c' < |inHand| && c' != c ==> CpuIs(c', state.cpus[c'])
      ensures execTime == Ran(cfg.alg, state.cpus[c].b).executed - state.cpus[c].b.executed
      ensures HasRun(c, old(inHand[c]), now, execTime)
    {
      hide Reachable, Ready, Joined, SameLine, Enqueued, Do, Enabled, Shape, Ran, MustRequeue, AllLines, LinesAre;
      hide OnlyInHand;
      HandOf(c);
      var q, f := cfg.QueueOf(c), |lines| - 1;
      var burst := inHand[c];
      ghost var b := state.cpus[c].b;
      FinishLines(state, c);
      RanAlike(cfg.alg, Value(burst), b);
      EachLine(AllLines(state));
      ghost var target := if MustRequeue(cfg.alg, b) then q else f;
      ghost var items := lines[target].items;
      execTime := Run(burst, cfg.alg, c, now, lines, q, f);
      SameJoined(items, AllLines(state)[target], burst, Ran(cfg.alg, b));
      OneLine(AllLines(state), target, Enqueued(AllLines(state)[target], Ran(cfg.alg, b)));
    }

    /** CPU `c` has its hands free again. */
    method Drop(c: nat)
      requires Ready(lines) && Reachable(state) && Enabled(state, Action.Finish(c)) && CountersAre(state)
      requires LinesAre(AllLines(Do(state, Action.Finish(c))))
      requires |inHand| == |left| == |state.cpus| && c < |inHand| && !left[c]
      requires forall c' :: 0 <= c' < |inHand| && c' != c ==> CpuIs(c', state.cpus[c'])
      modifies `inHand, `state
      ensures Follows() && state == Do(old(state), Action.Finish(c)) && inHand == old(inHand)[c := null]
    {
      hide Queue.Valid, Apart, SameLine, Same, Reachable, Enqueued;
      inHand := inHand[c := null];
      Advance(Action.Finish(c));
    }

    method MakeFinish(c: nat, now: int) returns (execTime: int)
      requires Follows() && c < |inHand| && inHand[c] != null
      modifies `inHand, `state, inHand[c], lines[cfg.QueueOf(c)], lines[cfg.QueueOf(c)].Repr
      modifies lines[|lines| - 1], lines[|lines| - 1].Repr
      ensures Follows() && Steps(old(state), Action.Finish(c), state) && inHand == old(inHand)[c := null]
      ensures forall x :: x in old(InLines()) && x != old(inHand[c]) ==> unchanged(x)
      ensures forall i :: 0 <= i < |old(inHand)| && i != c && old(inHand)[i] != null ==> unchanged(old(inHand)[i])
      ensures execTime == Ran(cfg.alg, old(state).cpus[c].b).executed - old(state).cpus[c].b.executed
      ensures HasRun(c, old(inHand[c]), now, execTime)
    {
      HandOf(c);
      hide Reachable, Ready, LinesAre, Do, Ran, Joined, Marked;
      execTime := RunDue(c, now);
      Drop(c);
    }

    ghost method SetEnded(newEnded: map<int, Ending>)
      requires Follows()
      modifies `ended
      ensures Follows() && ended == newEnded
    {
      hide Queue.Valid, Apart, SameLine, Same, Reachable;
      ended := newEnded;
    }

    /** One burst has changed: it has gone back, or is among the finished ones with its stamp. */
    twostate lemma StampsFinish(new c: nat, burst: BurstItem, new now: int, new execTime: int)
      requires old(Stamped()) && c < |old(inHand)| && old(inHand)[c] == burst
      requires arrived == old(arrived) && producer.nextPid == old(producer.nextPid)
      requires inHand == old(inHand)[c := null] && |lines| > 1 && (cfg.single || c < |lines| - 1)
      requires HasRun(c, burst, now, execTime)
      requires ended == if cfg.alg.RR? && old(burst.remainingTime) > cfg.alg.quantum then old(ended)
        else old(ended)[burst.pid := Ending(c, now)]
      requires old(OnlyInHand(c))
      requires forall x :: x in old(InLines()) && x != burst ==> unchanged(x)
      requires forall i :: 0 <= i < |old(inHand)| && i != c && old(inHand)[i] != null ==> unchanged(old(inHand)[i])
      requires cfg.selection == RoundMethod && !cfg.single ==> cfg.cpus > 0 && (burst.pid - 1) % cfg.cpus == c
      ensures Stamped()
    {
      forall i, x | 0 <= i < |lines| && x in lines[i].items && x.pid != -1 ensures ArrivedAs(x, arrived) {
        if x != burst {
          assert x in old(lines[i].items) && x in old(InLines());
        }
      }
      forall x | x in lines[|lines| - 1].items ensures EndedAs(x, ended) {
        if x != burst {
          assert x in old(lines[|lines| - 1].items) && x in old(InLines()) && old(EndedAs(x, ended));
        }
      }
    }

    lemma HandIsInTurn(c: nat)
      requires Follows() && c < |inHand| && inHand[c] != null
      ensures cfg.selection == RoundMethod && !cfg.single ==> cfg.cpus > 0 && (inHand[c].pid - 1) % cfg.cpus == c
    {
      ReachableInTurnPlaces(state);
      assert state.cpus[c].Holding? && Shape(state);
      assert cfg.selection == RoundMethod ==> DealtTo(state.cpus[c].b.pid, |state.queues|, cfg.QueueOf(c));
    }

    /** The rest of the cpu loop: run the burst, then put it back or among the finished ones. */
    method Finish(c: nat, now: int) returns (execTime: int)
      requires Valid() && c < |inHand| && inHand[c] != null
      modifies `inHand, `state, `ended, inHand[c], lines[cfg.QueueOf(c)], lines[cfg.QueueOf(c)].Repr
      modifies lines[|lines| - 1], lines[|lines| - 1].Repr
      ensures Valid() && Steps(old(state), Action.Finish(c), state) && inHand == old(inHand)[c := null]
      ensures execTime == Ran(cfg.alg, old(state).cpus[c].b).executed - old(state).cpus[c].b.executed
      ensures arrived == old(arrived)
      ensures ended ==
        if cfg.alg.RR? && old(inHand[c].remainingTime) > cfg.alg.quantum then old(ended)
        else old(ended)[old(inHand[c]).pid := Ending(c, now)]
      ensures HasRun(c, old(inHand[c]), now, execTime)
    {
      hide Follows, Do, Enabled, Shape, ArrivedAs, EndedAs, Stamped, Ran, Same, HasRun, OnlyInHand;
      HandOf(c);
      HandIsInTurn(c);
      ghost var burst: BurstItem := inHand[c];
      ghost var requeued := cfg.alg.RR? && burst.remainingTime > cfg.alg.quantum;
      execTime := MakeFinish(c, now);
      SetEnded(if requeued then ended else ended[burst.pid := Ending(c, now)]);
      StampsFinish(c, burst, now, execTime);
    }

    /** One burst or marker has joined a ready queue. */
    twostate lemma StampsJoin(new k: nat, new bi: BurstItem)
      requires old(Stamped()) && k < |lines| - 1 && ended == old(ended) && inHand == old(inHand)
      requires bi.pid == -1 ==> arrived == old(arrived) && producer.nextPid == old(producer.nextPid)
      requires bi.pid != -1 ==>
        && bi.pid == old(producer.nextPid) && producer.nextPid == bi.pid + 1
        && arrived == old(arrived) + [Arrival(bi.burstLength, bi.arrivalTime)]
      requires lines[k].items == Joined(old(lines[k].items), bi, Marked(old(lines[k].items)))
      requires forall i :: 0 <= i < |lines| && i != k ==> lines[i].items == old(lines[i].items)
      requires forall x :: x in old(InLines()) ==> unchanged(x)
      requires forall i :: 0 <= i < |old(inHand)| && old(inHand)[i] != null ==> unchanged(old(inHand)[i])
      ensures Stamped()
    {
      forall i, x | 0 <= i < |lines| && x in lines[i].items && x.pid != -1 ensures ArrivedAs(x, arrived) {
        if x != bi {
          assert x in old(lines[i].items) && x in old(InLines());
        }
      }
      forall x | x in lines[|lines| - 1].items ensures EndedAs(x, ended) {
        assert x in old(InLines()) && old(EndedAs(x, ended));
      }
    }

    ghost method SetArrived(newArrived: seq<Arrival>)
      requires Follows()
      modifies `arrived
      ensures Follows() && arrived == newArrived
    {
      hide Queue.Valid, Apart, SameLine, Same, Reachable;
      arrived := newArrived;
    }

    method ArriveDue(burstLength: int, k: nat, now: int) returns (bi: BurstItem)
      requires Follows() && marked == 0 && k < |lines| - 1
      requires Enabled(state, Action.Arrive(burstLength, k))
      modifies producer, lines[k], lines[k].Repr
      ensures Ready(lines) && LinesAre(AllLines(Do(state, Action.Arrive(burstLength, k))))
      ensures CountersAre(Do(state, Action.Arrive(burstLength, k)))
      ensures fresh(bi) && bi.pid == old(producer.nextPid) && bi.pid > 0 && producer.nextPid == bi.pid + 1
      ensures bi.burstLength == bi.remainingTime == burstLength
      ensures bi.arrivalTime == now && bi.processorId == k && bi.finishTime == bi.turnaroundTime == -1
      ensures lines[k].items == Joined(old(lines[k].items), bi, Marked(old(lines[k].items)))
      ensures forall i :: 0 <= i < |lines| && i != k ==> lines[i].items == old(lines[i].items)
      ensures producer.rrQueueIdx ==
        if cfg.selection == RoundMethod then (k + 1) % (|lines| - 1) else old(producer.rrQueueIdx)
    {
      LineOf(k);
      PidsArePositive(state);
      ProducedLines(state, Action.Arrive(burstLength, k));
      ghost var items := lines[k].items;
      EachLine(AllLines(state));
      hide Reachable, Ready, Joined, SameLine, Enqueued, Marked, LinesAre;
      bi := producer.Arrive(lines, |lines| - 1, cfg.selection, k, burstLength, now);
      ghost var b := Burst(state.nextPid, burstLength, burstLength, 0, 0);
      SameJoined(items, AllLines(state)[k], bi, b);
      OneLine(AllLines(state), k, Enqueued(AllLines(state)[k], b));
    }

    method MakeArrive(burstLength: int, k: nat, now: int) returns (bi: BurstItem)
      requires Follows() && marked == 0 && k < |lines| - 1
      requires cfg.selection == SingleQueue ==> k == 0
      requires cfg.selection == RoundMethod ==> k == producer.rrQueueIdx
      modifies `state, producer, lines[k], lines[k].Repr
      ensures Follows() && Steps(old(state), Action.Arrive(burstLength, k), state)
      ensures fresh(bi) && bi.pid == old(producer.nextPid) && bi.pid > 0 && producer.nextPid == bi.pid + 1
      ensures bi.burstLength == bi.remainingTime == burstLength
      ensures bi.arrivalTime == now && bi.processorId == k && bi.finishTime == bi.turnaroundTime == -1
      ensures lines[k].items == Joined(old(lines[k].items), bi, Marked(old(lines[k].items)))
      ensures forall i :: 0 <= i < |lines| && i != k ==> lines[i].items == old(lines[i].items)
      ensures producer.rrQueueIdx ==
        if cfg.selection == RoundMethod then (k + 1) % (|lines| - 1) else old(producer.rrQueueIdx)
      ensures forall x :: x in old(InLines()) ==> unchanged(x)
      ensures forall i :: 0 <= i < |old(inHand)| && old(inHand)[i] != null ==> unchanged(old(inHand)[i])
    {
      hide Reachable, Ready, SameLine, CpuIs, Enqueued, Joined, Marked;
      bi := ArriveDue(burstLength, k, now);
      Advance(Action.Arrive(burstLength, k));
    }

    /** parse_and_enqueue at a PL line; `k` is the queue that the selection method has named. */
    method Arrive(burstLength: int, k: nat, now: int) returns (bi: BurstItem)
      requires Valid() && marked == 0 && k < |lines| - 1
      requires cfg.selection == SingleQueue ==> k == 0
      requires cfg.selection == RoundMethod ==> k == producer.rrQueueIdx
      modifies `state, `arrived, producer, lines[k], lines[k].Repr
      ensures Valid() && Steps(old(state), Action.Arrive(burstLength, k), state)
      ensures arrived == old(arrived) + [Arrival(burstLength, now)] && ended == old(ended)
      ensures fresh(bi) && bi.pid == old(producer.nextPid) && bi.pid > 0 && producer.nextPid == bi.pid + 1
      ensures bi.burstLength == bi.remainingTime == burstLength
      ensures bi.arrivalTime == now && bi.processorId == k && bi.finishTime == bi.turnaroundTime == -1
      ensures lines[k].items == Joined(old(lines[k].items), bi, Marked(old(lines[k].items)))
      ensures forall i :: 0 <= i < |lines| && i != k ==> lines[i].items == old(lines[i].items)
      ensures producer.rrQueueIdx ==
        if cfg.selection == RoundMethod then (k + 1) % (|lines| - 1) else old(producer.rrQueueIdx)
    {
      hide Follows, Stamped, Do, Enabled, Joined, Marked, ArrivedAs, EndedAs;
      bi := MakeArrive(burstLength, k, now);
      SetArrived(arrived + [Arrival(burstLength, now)]);
      StampsJoin(k, bi);
    }

    method MarkDue() returns (bi: BurstItem)
      requires Follows() && marked < |lines| - 1
      modifies lines[marked], lines[marked].Repr
      ensures Ready(lines) && Enabled(state, Action.Mark) && LinesAre(AllLines(Do(state, Action.Mark)))
      ensures fresh(bi) && bi.pid == -1 && bi.burstLength == 0 && lines[marked].items == old(lines[marked].items) + [bi]
      ensures !Marked(old(lines[marked].items))
      ensures forall i :: 0 <= i < |lines| && i != marked ==> lines[i].items == old(lines[i].items)
    {
      LineOf(marked);
      ghost var items := lines[marked].items;
      NotYetMarked(state, items);
      ProducedLines(state, Action.Mark);
      EachLine(AllLines(state));
      hide Reachable, Ready, SameLine, Enqueued, GotMarker, Marked, LinesAre;
      bi := MarkOne(lines, marked);
      SameJoined(items, AllLines(state)[marked], bi, MARKER);
      OneLine(AllLines(state), marked, Enqueued(AllLines(state)[marked], MARKER));
    }

    method MakeMark() returns (bi: BurstItem)
      requires Follows() && marked < |lines| - 1
      modifies `state, `marked, lines[marked], lines[marked].Repr
      ensures Follows() && Steps(old(state), Action.Mark, state) && marked == old(marked) + 1
      ensures fresh(bi) && bi.pid == -1 && bi.burstLength == 0
      ensures lines[old(marked)].items == old(lines[marked].items) + [bi]
      ensures !Marked(old(lines[marked].items))
      ensures forall i :: 0 <= i < |lines| && i != old(marked) ==> lines[i].items == old(lines[i].items)
      ensures forall x :: x in old(InLines()) ==> unchanged(x)
      ensures forall i :: 0 <= i < |old(inHand)| && old(inHand)[i] != null ==> unchanged(old(inHand)[i])
    {
      hide Reachable, Queue.Valid, Apart, SameLine, CpuIs, Enqueued, Marked;
      bi := MarkDue();
      marked := marked + 1;
      Advance(Action.Mark);
    }

    /** parse_and_enqueue at the end: a marker for the next queue. */
    method Mark() returns (bi: BurstItem)
      requires Valid() && marked < |lines| - 1
      modifies `state, `marked, lines[marked], lines[marked].Repr
      ensures Valid() && Steps(old(state), Action.Mark, state) && marked == old(marked) + 1
      ensures fresh(bi) && bi.pid == -1 && bi.burstLength == 0
      ensures lines[old(marked)].items == old(lines[marked].items) + [bi]
      ensures forall i :: 0 <= i < |lines| && i != old(marked) ==> lines[i].items == old(lines[i].items)
    {
      hide Follows, Stamped, Do, Enabled, Marked, ArrivedAs, EndedAs;
      bi := MakeMark();
      StampsJoin(old(marked), bi);
    }

    method SortFinished() returns (report: Queue)
      requires Follows() && forall c :: 0 <= c < |left| ==> left[c]
      modifies lines[|lines| - 1], lines[|lines| - 1].Repr
      ensures report.Valid() && report.size == producer.nextPid - 1
      ensures |report.items| == report.size && report == lines[|lines| - 1]
      ensures multiset(report.items) == multiset(old(lines[|lines| - 1].items))
      ensures forall k :: 0 <= k < |report.items| ==>
        report.items[k].pid == k + 1 && report.items[k].remainingTime == 0
      ensures forall q :: 0 <= q < |lines| - 1 ==>
        |lines[q].items| == 1 && lines[q].items[0].pid == -1
    {
      report := lines[|lines| - 1];
      assert report in lines && AllExited(state);
      ghost var items := report.items;
      NoMarkerFinished(state, items);
      EachLine(AllLines(state));
      forall q | 0 <= q < |lines| - 1 ensures |lines[q].items| == 1 && lines[q].items[0].pid == -1 {
        LineOf(q);
        DrainedLine(state, q, lines[q].items);
      }
      hide Reachable, Queue.Linked, Queue.Carries, Load, Settled, LinesAre, SameLine, AllExited;
      report.Sort();
      ReportIsComplete(state, items, report.items);
    }

    /** The end of schedule: all CPUs have left, and the finished bursts are sorted for the report. */
    method Report() returns (report: Queue)
      requires Valid() && forall c :: 0 <= c < |left| ==> left[c]
      modifies lines[|lines| - 1], lines[|lines| - 1].Repr
      ensures report.Valid() && report.size == producer.nextPid - 1
      ensures |report.items| == report.size == |arrived|
      ensures multiset(report.items) == multiset(old(lines[|lines| - 1].items))
      ensures forall k :: 0 <= k < |report.items| ==>
        && report.items[k].pid == k + 1 && report.items[k].remainingTime == 0
        && report.items[k].burstLength == arrived[k].length && report.items[k].arrivalTime == arrived[k].time
        && k + 1 in ended && report.items[k].processorId == ended[k + 1].cpu
        && report.items[k].finishTime == ended[k + 1].time
        && report.items[k].turnaroundTime == ended[k + 1].time - arrived[k].time
      ensures cfg.selection == RoundMethod && !cfg.single && cfg.cpus > 0 ==>
        forall k :: 0 <= k < |report.items| ==> report.items[k].processorId == k % cfg.cpus
      ensures forall q :: 0 <= q < |lines| - 1 ==>
        |lines[q].items| == 1 && lines[q].items[0].pid == -1
    {
      ghost var items := lines[|lines| - 1].items;
      assert forall x :: x in items ==> (x.pid != -1 ==> ArrivedAs(x, arrived)) && EndedAs(x, ended);
      hide Follows, Stamped;
      report := SortFinished();
      forall k | 0 <= k < |report.items|
        ensures ArrivedAs(report.items[k], arrived) && EndedAs(report.items[k], ended)
      {
        assert report.items[k] in multiset(report.items);
        assert report.items[k] in items;
      }
    }
  }
}
