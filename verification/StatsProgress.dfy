/** The monitor always gets to its final read, and what it then reports; and a printed average above the printed peak. */
module StatsProgress {
  import opened Sums
  import opened Paths
  import opened StatsPipeline
  import opened StatsResults

  /** Steps of the monitor alone. */
  predicate OfMonitor(step: Step) {
    !step.Grow? && !step.SetStatus? && !step.ReaderCalls? && !step.ReaderResumes?
  }

  predicate Goes(s: State, step: Step, t: State) {
    Shape(s) && Enabled(s, step) && Apply(s, step) == t
  }

  ghost function MonitorNext(): (State, State) -> bool {
    (s: State, t: State) => exists step :: OfMonitor(step) && Goes(s, step, t)
  }

  // ------------------------------------------------------------ the final read

  /** The scan under way is the final one, after the loop of the monitor. */
  predicate InFinalRead(s: State) {
    s.pc.Scan? && s.pc.mode.Final?
  }

  /** The final read, once begun, sees totals that have stopped growing. */
  predicate Exact(s: State) {
    && (InFinalRead(s) ==> s.atStart == s.totals)
    && (s.pc.Done? ==> s.txrx == Last(s.published) == Sum(s.totals))
  }

  function MonitorChoice(s: State): (step: Step)
    requires Inv(s) && !s.pc.Done?
    ensures Enabled(s, step) && OfMonitor(step)
  {
    match s.pc
    case Loop => Look
    case Decide => Choose
    case Ready(_) => Begin
    case Scan(_, Node(_)) => ReadCurrent
    case Scan(_, Half(_)) => ReadTotal
    case Scan(_, Passed(_)) => Advance
    case Scan(_, End) => Publish
    case _ => DoAccount
  }

  /** How far the monitor is from its end, once the status is terminal. */
  function Stage(pc: MonitorPc): nat {
    match pc
    case Decide => 7
    case Ready(mode) => if mode.Final? then 2 else 6
    case Scan(mode, _) => if mode.Final? then 1 else 5
    case Accounting => 4
    case Loop => 3
    case Done => 0
  }

  /** How far a scan is from its end. */
  function ScanLeft(s: State): nat {
    if !s.pc.Scan? then 0
    else
      match s.pc.at
      case Node(i) => 3 * Gap(i, |s.totals|) + 2
      case Half(i) => 3 * Gap(i, |s.totals|) + 1
      case Passed(i) => 3 * Gap(i, |s.totals|)
      case End => 0
  }

  lemma StepInv(s: State, step: Step)
    requires Inv(s) && Enabled(s, step)
    ensures Inv(Apply(s, step))
  {
    ApplyKeepsShape(s, step);
    ScanStepOk(s, step);
    PublishedStepOk(s, step);
    MonitorStepOk(s, step);
    ReaderStepOk(s, step);
  }

  lemma MonitorLowers(s: State)
    requires Inv(s) && !s.pc.Done? && s.status == Terminal
    ensures
      var t := Apply(s, MonitorChoice(s));
      && t.totals == s.totals && t.status == s.status
      && (Stage(t.pc) < Stage(s.pc) || (Stage(t.pc) == Stage(s.pc) && ScanLeft(t) < ScanLeft(s)))
  {
  }

  lemma MonitorExact(s: State)
    requires Inv(s) && !s.pc.Done? && s.status == Terminal && Exact(s)
    ensures Exact(Apply(s, MonitorChoice(s)))
  {
  }

  /** Whatever it is doing when the status turns terminal, the monitor gets to its end; its report is the sum of totals. */
  lemma {:induction false} FinishReport(s: State) returns (t: State)
    requires Inv(s) && s.status == Terminal
    ensures Leads(MonitorNext(), s, t) && Inv(t) && t.pc.Done? && t.totals == s.totals
    ensures Exact(s) ==> t.txrx == Last(t.published) == Sum(t.totals)
    decreases Stage(s.pc), ScanLeft(s)
  {
    if s.pc.Done? {
      t := s;
      Stay(MonitorNext(), s);
    } else {
      var u := Apply(s, MonitorChoice(s));
      StepInv(s, MonitorChoice(s));
      MonitorLowers(s);
      if Exact(s) {
        MonitorExact(s);
      }
      t := FinishReport(u);
      assert Goes(s, MonitorChoice(s), u);
      StepThen(MonitorNext(), s, u, t);
    }
  }

  // -------------------------------------------------------------- a printed average

  lemma Extend(steps: seq<Step>, step: Step)
    requires Run(steps) && Enabled(After(steps), step)
    ensures Run(steps + [step]) && After(steps + [step]) == Apply(After(steps), step)
  {
    assert (steps + [step])[..|steps|] == steps;
  }

  /** One session with `n` bytes, seen by a scan of a connected endpoint that has got as far as `pc`. */
  function FirstScan(n: nat, pc: MonitorPc, current: nat, txrx: nat): State {
    State([n], Connected, pc, current, txrx, STARTED, true, Outside, [0], [], [], [n])
  }

  lemma ScanBegins(n: nat) returns (steps: seq<Step>)
    requires n <= INT_MAX
    ensures Run(steps) && After(steps) == FirstScan(n, Scan(Sample, Node(0)), 0, 0)
  {
    assert Sum([n]) == SumTo([n], 0) + n;
    assert Run([]) && After([]) == INIT;
    Extend([], SetStatus(Connected));
    steps := [] + [SetStatus(Connected)];
    Extend(steps, Grow([n]));
    steps := steps + [Grow([n])];
    Extend(steps, Look);
    steps := steps + [Look];
    Extend(steps, Choose);
    steps := steps + [Choose];
    Extend(steps, Begin);
    steps := steps + [Begin];
  }

  lemma ScanEnds(n: nat) returns (steps: seq<Step>)
    requires n <= INT_MAX
    ensures Run(steps) && After(steps) == FirstScan(n, Accounting, n, n).(published := [0, n])
  {
    steps := ScanBegins(n);
    Extend(steps, ReadCurrent);
    steps := steps + [ReadCurrent];
    Extend(steps, ReadTotal);
    steps := steps + [ReadTotal];
    Extend(steps, Advance);
    steps := steps + [Advance];
    Extend(steps, Publish);
    steps := steps + [Publish];
  }

  /** Every first sample whose rate fits an `int` is printed with an average above its peak, unless it moved no bytes. */
  lemma AverageAbovePeak(n: nat) returns (steps: seq<Step>)
    requires 0 < n && 10 * n <= INT_MAX
    ensures Run(steps) && After(steps).pc.Accounting? && Last(After(steps).published) == n
    ensures Account(After(steps).monitor, n).count > 0
    ensures Average(Account(After(steps).monitor, n)) > After(steps).monitor.peak as real
  {
    steps := ScanEnds(n);
    var s := After(steps);
    RatesOfLonger(s.sampled, n, INT_MAX);
    PrintedPeakLags(steps);
  }
}
