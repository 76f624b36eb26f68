/**
 * The multiprocessor scheduler as a state machine. One action is one stretch of
 * work under a queue's mutex; a burst outside the queues is in one CPU's hands.
 */
module Scheduler {
  import opened ReadyQueue

  datatype Algorithm = FCFS | SJF | RR(quantum: int)
  datatype Selection = SingleQueue | RoundMethod | LoadMethod

  /**
   * A burst. `executed` and `dispatches` record what has happened to it so far;
   * the program does not store them.
   */
  datatype Burst = Burst(pid: int, length: int, remaining: int, executed: int, dispatches: nat)

  const MARKER := Burst(-1, 0, 0, 0, 0)

  datatype Cpu = Polling | Holding(b: Burst) | Exited

  datatype Config = Config(cpus: nat, single: bool, selection: Selection, alg: Algorithm)
  {
    function Queues(): nat { if single then 1 else cpus }
    function QueueOf(c: nat): nat { if single then 0 else c }

    predicate Sensible() {
      cpus > 0 && (alg.RR? ==> alg.quantum > 0)
    }
  }

  datatype State = State(
    cfg: Config,
    queues: seq<seq<Burst>>,
    cpus: seq<Cpu>,
    finished: seq<Burst>,
    nextPid: int,
    nextQueue: nat,  // where RoundMethod puts the next burst
    marked: nat)     // how many queues have got their end marker

  predicate Shape(s: State) {
    && s.cfg.Sensible()
    && |s.queues| == s.cfg.Queues() && |s.cpus| == s.cfg.cpus
    && s.nextQueue < |s.queues| && s.marked <= |s.queues|
  }

  predicate EndsMarked(q: seq<Burst>) {
    q != [] && q[|q| - 1].pid == -1
  }

  function Enqueued(q: seq<Burst>, b: Burst): (q': seq<Burst>)
    ensures |q'| == |q| + 1
  {
    Joined(q, b, EndsMarked(q))
  }

  /** Place `k` holds the earliest burst of least remaining time. */
  predicate IsShortest(q: seq<Burst>, k: nat) {
    && k < |q| && q[k].pid != -1
    && (forall i :: 0 <= i < k && q[i].pid != -1 ==> q[k].remaining < q[i].remaining)
    && (forall i :: k < i < |q| && q[i].pid != -1 ==> q[k].remaining <= q[i].remaining)
  }

  /** A CPU takes `b` in hand. */
  function Taken(b: Burst): Burst {
    b.(dispatches := b.dispatches + 1)
  }

  predicate MustRequeue(alg: Algorithm, b: Burst) {
    alg.RR? && b.remaining > alg.quantum
  }

  /** `b` after its time on the CPU. */
  function Ran(alg: Algorithm, b: Burst): Burst {
    match alg
    case FCFS => b.(remaining := 0, executed := b.executed + b.length)
    case SJF => b.(remaining := 0, executed := b.executed + b.remaining)
    case RR(quantum) =>
      if b.remaining > quantum
      then b.(remaining := b.remaining - quantum, executed := b.executed + quantum)
      else b.(remaining := 0, executed := b.executed + b.remaining)
  }

  datatype Action =
    | Arrive(length: int, q: nat)
    | Mark
    | Take(c: nat, k: nat)
    | Finish(c: nat)
    | Exit(c: nat)
  {
    predicate ByCpu() { Take? || Finish? || Exit? }
  }

  predicate Enabled(s: State, a: Action)
    requires Shape(s)
  {
    match a
    case Arrive(length, q) =>
      && s.marked == 0 && q < |s.queues|
      && (s.cfg.selection == SingleQueue ==> q == 0)
      && (s.cfg.selection == RoundMethod ==> q == s.nextQueue)
    case Mark => s.marked < |s.queues|
    case Take(c, k) =>
      c < |s.cpus| && s.cpus[c] == Polling &&
      var q := s.queues[s.cfg.QueueOf(c)];
      q != [] && q[0].pid != -1 && if s.cfg.alg == SJF then IsShortest(q, k) else k == 0
    case Finish(c) => c < |s.cpus| && s.cpus[c].Holding?
    case Exit(c) =>
      c < |s.cpus| && s.cpus[c] == Polling &&
      var q := s.queues[s.cfg.QueueOf(c)];
      q != [] && q[0].pid == -1
  }

  function Do(s: State, a: Action): (s': State)
    requires Shape(s) && Enabled(s, a)
    ensures Shape(s') && s'.cfg == s.cfg
  {
    match a
    case Arrive(length, q) =>
      var b := Burst(s.nextPid, length, length, 0, 0);
      s.(queues := s.queues[q := Enqueued(s.queues[q], b)],
         nextPid := s.nextPid + 1,
         nextQueue := if s.cfg.selection == RoundMethod then (s.nextQueue + 1) % |s.queues| else s.nextQueue)
    case Mark =>
      s.(queues := s.queues[s.marked := Enqueued(s.queues[s.marked], MARKER)], marked := s.marked + 1)
    case Take(c, k) =>
      var q := s.cfg.QueueOf(c);
      s.(queues := s.queues[q := Without(s.queues[q], k)],
         cpus := s.cpus[c := Holding(Taken(s.queues[q][k]))])
    case Finish(c) =>
      var b := s.cpus[c].b;
      var q := s.cfg.QueueOf(c);
      if MustRequeue(s.cfg.alg, b)
      then s.(queues := s.queues[q := Enqueued(s.queues[q], Ran(s.cfg.alg, b))], cpus := s.cpus[c := Polling])
      else s.(finished := Enqueued(s.finished, Ran(s.cfg.alg, b)), cpus := s.cpus[c := Polling])
    case Exit(c) => s.(cpus := s.cpus[c := Exited])
  }

  function Initial(cfg: Config): (s: State)
    requires cfg.Sensible()
    ensures Shape(s)
  {
    State(cfg, seq(cfg.Queues(), _ => []), seq(cfg.cpus, _ => Polling), [], 1, 0, 0)
  }

  predicate Leads(s: State, run: seq<Action>, end: State): (b: bool)
    ensures b ==> Shape(s) && Shape(end) && end.cfg == s.cfg
    decreases |run|
  {
    Shape(s) &&
    if run == [] then end == s
    else Enabled(s, run[0]) && Leads(Do(s, run[0]), run[1..], end)
  }

  ghost predicate Reachable(s: State): (b: bool)
    ensures b ==> Shape(s)
  {
    exists cfg: Config, run :: cfg.Sensible() && Leads(Initial(cfg), run, s)
  }

  // ----- counting ---------------------------------------------------------------------------

  /** How many more times a burst that is in line will be dispatched. */
  function Rounds(alg: Algorithm, remaining: int): (n: nat)
    ensures n >= 1
    decreases remaining
  {
    if alg.RR? && alg.quantum > 0 && remaining > alg.quantum
    then 1 + Rounds(alg, remaining - alg.quantum)
    else 1
  }

  /** What is added up over the system: the occurrences of one pid, or the actions still to come. */
  datatype Tally = Occurrences(pid: int) | ActionsDue(alg: Algorithm)

  /** What a burst in line counts for. Each round of it takes two actions. */
  ghost function Weight(w: Tally, b: Burst): nat {
    match w
    case Occurrences(pid) => if b.pid == pid then 1 else 0
    case ActionsDue(alg) => if b.pid == -1 then 0 else 2 * Rounds(alg, b.remaining)
  }

  /** What a CPU counts for: the burst in its hands, and its own exit. */
  ghost function CpuWeight(w: Tally, c: Cpu): nat {
    match w
    case Occurrences(pid) => if c.Holding? && c.b.pid == pid then 1 else 0
    case ActionsDue(alg) =>
      match c
      case Exited => 0
      case Polling => 1
      case Holding(b) => 2 * Rounds(alg, b.remaining)
  }

  ghost function InLine(w: Tally, q: seq<Burst>): nat {
    if q == [] then 0 else InLine(w, q[..|q| - 1]) + Weight(w, q[|q| - 1])
  }

  ghost function InQueues(w: Tally, queues: seq<seq<Burst>>): nat {
    if queues == [] then 0
    else InQueues(w, queues[..|queues| - 1]) + InLine(w, queues[|queues| - 1])
  }

  ghost function OnCpus(w: Tally, cpus: seq<Cpu>): nat {
    if cpus == [] then 0
    else OnCpus(w, cpus[..|cpus| - 1]) + CpuWeight(w, cpus[|cpus| - 1])
  }

  /** How often `pid` is anywhere: in a ready queue, in a CPU's hands or finished. */
  ghost function Copies(s: State, pid: int): nat {
    var w := Occurrences(pid);
    InQueues(w, s.queues) + OnCpus(w, s.cpus) + InLine(w, s.finished)
  }

  /** Every burst created so far is in exactly one place, and nothing else is anywhere. */
  ghost predicate EachInOnePlace(s: State) {
    forall pid :: pid != -1 ==> Copies(s, pid) == if 1 <= pid < s.nextPid then 1 else 0
  }

  /** How many CPU actions are still to come once nothing arrives any more. */
  ghost function Due(s: State): nat {
    InQueues(ActionsDue(s.cfg.alg), s.queues) + OnCpus(ActionsDue(s.cfg.alg), s.cpus)
  }

  // ----- accounting -------------------------------------------------------------------------

  /** Time executed and time remaining make up the length; dispatches made and due are a constant. */
  predicate Accounted(alg: Algorithm, b: Burst, inHand: bool) {
    var before := if inHand then b.dispatches - 1 else b.dispatches;
    && b.pid > 0 && before >= 0
    && b.executed + b.remaining == b.length
    && before + Rounds(alg, b.remaining) == Rounds(alg, b.length)
    && (before == 0 ==> b.executed == 0)
  }

  predicate Completed(alg: Algorithm, b: Burst) {
    b.pid > 0 && b.remaining == 0 && b.executed == b.length && b.dispatches == Rounds(alg, b.length)
  }

  predicate LineAccounted(alg: Algorithm, q: seq<Burst>) {
    forall k :: 0 <= k < |q| && q[k] != MARKER ==> Accounted(alg, q[k], false)
  }

  // ----- the invariant ------------------------------------------------------------------

  /** The marker, if the queue has got it, is last and alone. */
  predicate MarkedLast(q: seq<Burst>, marked: bool) {
    && (marked <==> EndsMarked(q))
    && (marked ==> q[|q| - 1] == MARKER)
    && forall k :: 0 <= k < |q| - 1 ==> q[k].pid != -1
  }

  predicate Serves(s: State, c: nat, q: nat) {
    c < |s.cpus| && s.cfg.QueueOf(c) == q
  }

  /** A queue is only ever left by its last CPU when nothing but the marker is in it. */
  ghost predicate NoneLeftBehind(s: State, q: nat)
    requires Shape(s) && q < |s.queues|
  {
    (forall c: nat :: Serves(s, c, q) ==> s.cpus[c] == Exited) ==> s.queues[q] == [MARKER]
  }

  ghost predicate Invariant(s: State): (b: bool)
    ensures b ==> Shape(s)
  {
    && Shape(s) && s.nextPid >= 1
    && EachInOnePlace(s)
    && (forall q :: 0 <= q < |s.queues| ==>
          && MarkedLast(s.queues[q], q < s.marked)
          && LineAccounted(s.cfg.alg, s.queues[q])
          && NoneLeftBehind(s, q))
    && (forall c :: 0 <= c < |s.cpus| && s.cpus[c].Holding? ==> Accounted(s.cfg.alg, s.cpus[c].b, true))
    && (forall k :: 0 <= k < |s.finished| ==> Completed(s.cfg.alg, s.finished[k]))
  }
}
