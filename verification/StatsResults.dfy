/** What every run of the statistics pipeline guarantees to the monitor and to the external reader. */
module StatsResults {
  import opened Sums
  import opened StatsPipeline

  // ------------------------------------------------------------------ scan

  lemma ScanContinues(s: State, step: Step)
    requires Shape(s) && Enabled(s, step) && Apply(s, step).pc.Scan? && !step.Begin?
    ensures s.pc.Scan? && s.atStart == Apply(s, step).atStart && !step.Publish?
  {
  }

  /** The schedule up to the start of the scan that is under way. */
  lemma {:induction false} ScanStart(steps: seq<Step>) returns (start: seq<Step>)
    requires Run(steps) && After(steps).pc.Scan?
    ensures Run(start) && start < steps && steps[|start|].Begin?
    ensures After(start).totals == After(steps).atStart
    ensures forall i :: |start| < i < |steps| ==> !steps[i].Begin? && !steps[i].Publish?
    decreases |steps|
  {
    var front := steps[..|steps| - 1];
    if steps[|steps| - 1].Begin? {
      start := front;
    } else {
      ScanContinues(After(front), steps[|steps| - 1]);
      start := ScanStart(front);
      assert forall i :: 0 <= i < |front| ==> steps[i] == front[i];
    }
  }

  /**
   Whatever the workers and the main thread do meanwhile, both sums of a finished scan lie between the sum of
   all session totals when the scan began and the sum when it ends, and `current_read` is the smaller.
   */
  lemma ScanBound(steps: seq<Step>) returns (start: seq<Step>)
    requires Run(steps) && After(steps).pc.Scan? && After(steps).pc.at.End?
    ensures Run(start) && start < steps && steps[|start|].Begin?
    ensures Sum(After(start).totals) <= After(steps).current <= After(steps).txrx <= Sum(After(steps).totals)
    ensures forall i :: |start| < i < |steps| ==> !steps[i].Begin? && !steps[i].Publish?
  {
    InvariantHolds(steps);
    start := ScanStart(steps);
  }

  lemma PublishStep(s: State, step: Step)
    requires Shape(s) && Enabled(s, step)
    ensures step.Publish? ==> Last(Apply(s, step).published) == s.current && |Apply(s, step).published| == |s.published| + 1
    ensures !step.Publish? ==> Apply(s, step).published == s.published
  {
  }

  /** What a scan publishes is its `current_read`, between the totals at its start and those at the publication. */
  lemma PublicationBound(steps: seq<Step>) returns (start: seq<Step>)
    requires Run(steps) && steps != [] && steps[|steps| - 1].Publish?
    ensures Run(start) && start < steps && steps[|start|].Begin?
    ensures Sum(After(start).totals) <= Last(After(steps).published) <= Sum(After(steps).totals)
    ensures Last(After(steps).published) == After(steps[..|steps| - 1]).current
  {
    var front := steps[..|steps| - 1];
    InvariantHolds(front);
    InvariantHolds(steps);
    PublishStep(After(front), steps[|steps| - 1]);
    start := ScanBound(front);
  }

  // ------------------------------------------------- which iterations are accounted

  /** The monitor is in an iteration that it will account. */
  predicate Sampling(pc: MonitorPc) {
    (pc.Ready? && pc.mode.Sample?) || (pc.Scan? && pc.mode.Sample?) || pc.Accounting?
  }

  /** How often the monitor has found the endpoint connected. */
  function FoundConnected(steps: seq<Step>): nat
    requires Run(steps)
    decreases |steps|
  {
    if steps == [] then 0
    else
      var front := steps[..|steps| - 1];
      FoundConnected(front) + (if steps[|steps| - 1].Choose? && After(front).status == Connected then 1 else 0)
  }

  lemma CountStep(s: State, step: Step)
    requires Shape(s) && Enabled(s, step)
    ensures
      var t := Apply(s, step);
      t.monitor.count + (if Sampling(t.pc) then 1 else 0) ==
      s.monitor.count + (if Sampling(s.pc) then 1 else 0) + (if step.Choose? && s.status == Connected then 1 else 0)
  {
  }

  lemma AccountedStep(s: State, step: Step)
    requires Shape(s) && Enabled(s, step)
    ensures step.DoAccount? ==> Sampling(s.pc) && !Sampling(Apply(s, step).pc)
    ensures !step.DoAccount? ==> Apply(s, step).monitor == s.monitor && Apply(s, step).sampled == s.sampled
    ensures !step.DoAccount? && Sampling(s.pc) ==> Sampling(Apply(s, step).pc) && !step.Choose?
    ensures !step.DoAccount? && !Sampling(s.pc) && Sampling(Apply(s, step).pc) ==>
      step.Choose? && s.status == Connected
  {
  }

  /**
   The samples are the finished iterations that found the endpoint connected, no other and each once: the one under way, if
   any, is all that is missing.
   */
  lemma {:induction false} SamplesAreConnected(steps: seq<Step>)
    requires Run(steps)
    ensures FoundConnected(steps) == After(steps).monitor.count + (if Sampling(After(steps).pc) then 1 else 0)
    decreases |steps|
  {
    if steps != [] {
      SamplesAreConnected(steps[..|steps| - 1]);
      CountStep(After(steps[..|steps| - 1]), steps[|steps| - 1]);
    }
  }

  /** What is about to be accounted goes back to the moment when the endpoint was found connected, and to no later look. */
  lemma {:induction false} SampleBegan(steps: seq<Step>) returns (start: seq<Step>)
    requires Run(steps) && Sampling(After(steps).pc)
    ensures Run(start) && start < steps && steps[|start|].Choose? && After(start).status == Connected
    ensures forall i :: |start| < i < |steps| ==> !steps[i].Choose? && !steps[i].DoAccount?
    decreases |steps|
  {
    var front := steps[..|steps| - 1];
    AccountedStep(After(front), steps[|steps| - 1]);
    if Sampling(After(front).pc) {
      start := SampleBegan(front);
      assert forall i :: 0 <= i < |front| ==> steps[i] == front[i];
    } else {
      start := front;
    }
  }

  lemma StatusComes(s: State, step: Step)
    requires Shape(s) && Enabled(s, step)
    ensures Apply(s, step).status == if step.SetStatus? then step.to else s.status
  {
  }

  lemma {:induction false} NeverConnected(steps: seq<Step>)
    requires Run(steps) && SetStatus(Connected) !in steps
    ensures After(steps).status != Connected && !Sampling(After(steps).pc)
    ensures After(steps).monitor == STARTED && After(steps).sampled == []
    decreases |steps|
  {
    if steps != [] {
      var front, last := steps[..|steps| - 1], steps[|steps| - 1];
      assert last in steps && forall x :: x in front ==> x in steps;
      NeverConnected(front);
      StatusComes(After(front), last);
      AccountedStep(After(front), last);
    }
  }

  // --------------------------------------------------------------- monitor

  /**
   Consecutive samples never decrease, so no raw `byte_sec` is negative; `total_bytes` is the latest accounted
   sample, and at the end of an accounting iteration that is the `current_read` just published.
   */
  lemma SamplesTelescope(steps: seq<Step>)
    requires Run(steps)
    ensures NonDecreasing(After(steps).sampled)
    ensures forall i :: 0 <= i < |After(steps).sampled| ==> 0 <= Delta(After(steps).sampled, i)
    ensures After(steps).monitor.total == Last(After(steps).sampled)
    ensures After(steps).monitor.count == |After(steps).sampled|
    ensures steps != [] && steps[|steps| - 1].DoAccount? ==>
      After(steps).monitor.total == Last(After(steps).published)
  {
    InvariantHolds(steps);
  }

  lemma {:induction false} SumOfDeltas(sampled: seq<nat>, k: nat, peak: int)
    requires k <= |sampled|
    requires RatesAtMost(sampled, peak)
    ensures 10 * (if k == 0 then 0 else sampled[k - 1]) <= peak * k
  {
    if k > 0 {
      SumOfDeltas(sampled, k - 1, peak);
      assert 10 * Delta(sampled, k - 1) <= peak;
      assert peak * k == peak * (k - 1) + peak;
    }
  }

  lemma AverageAtMost(m: Monitor, peak: int)
    requires m.count > 0
    ensures Average(m) <= peak as real <==> 10 * m.total <= peak * m.count
  {
    var total, count := m.total as real, m.count as real;
    assert Average(m) == total * 10.0 / count;
    assert total * 10.0 == (10 * m.total) as real;
    assert peak as real * count == (peak * m.count) as real;
    if total * 10.0 <= peak as real * count {
      Quotient(total * 10.0, count, peak as real);
    } else {
      Quotient(total * 10.0, count, peak as real);
    }
  }

  lemma Quotient(x: real, y: real, z: real)
    requires y > 0.0
    ensures x / y <= z <==> x <= z * y
  {
    var q := x / y;
    assert q * y == x;
    if q <= z {
      assert (z - q) * y >= 0.0;
    } else {
      assert (q - z) * y > 0.0;
    }
  }

  /** As long as no rate overflowed its `int`, the average left by an iteration never exceeds the peak it leaves. */
  lemma AverageBelowPeak(steps: seq<Step>)
    requires Run(steps) && After(steps).sampled != []
    requires RatesAtMost(After(steps).sampled, INT_MAX)
    ensures After(steps).monitor.count > 0
    ensures Average(After(steps).monitor) <= After(steps).monitor.peak as real
  {
    var s := After(steps);
    InvariantHolds(steps);
    SumOfDeltas(s.sampled, |s.sampled|, s.monitor.peak);
    AverageAtMost(s.monitor, s.monitor.peak);
  }

  /** The rate is ten times the growth exactly when that fits an `int`; otherwise it is off by a multiple of 2^32. */
  lemma RateIsExactIffItFits(m: Monitor, current: int)
    requires 0 <= m.prev <= current <= INT_MAX
    ensures Account(m, current).byteSec == 10 * (current - m.prev) <==> 10 * (current - m.prev) <= INT_MAX
  {
    AccountExact(m, current);
  }

  /**
   The statistics are printed before the peak is updated, so the printed average can exceed the printed peak: it does
   not if and only if the new total is within the old peak times the number of samples. That is always so
   in an iteration that does not raise the peak, and never at a first sample that moved any bytes.
   */
  lemma PrintedPeakLags(steps: seq<Step>)
    requires Run(steps) && After(steps).pc.Accounting?
    requires RatesAtMost(After(steps).sampled + [Last(After(steps).published)], INT_MAX)
    ensures
      var printed := Account(After(steps).monitor, Last(After(steps).published));
      var peak := After(steps).monitor.peak;
      && (Average(printed) <= peak as real <==>
            10 * Last(After(steps).published) <= peak * (After(steps).monitor.count + 1))
      && (printed.peak == peak ==> Average(printed) <= peak as real)
      && (After(steps).monitor.count == 0 ==> (Average(printed) <= peak as real <==> Last(After(steps).published) == 0))
  {
    var s := After(steps);
    InvariantHolds(steps);
    FirstPeak(steps);
    PrintedIteration(s);
  }

  lemma PrintedIteration(s: State)
    requires Inv(s) && s.pc.Accounting?
    requires RatesAtMost(s.sampled + [Last(s.published)], INT_MAX)
    requires s.monitor.count == 0 ==> s.monitor.peak == 0
    ensures
      var printed := Account(s.monitor, Last(s.published));
      && (Average(printed) <= s.monitor.peak as real <==> 10 * Last(s.published) <= s.monitor.peak * (s.monitor.count + 1))
      && (printed.peak == s.monitor.peak ==> Average(printed) <= s.monitor.peak as real)
      && (s.monitor.count == 0 ==> (Average(printed) <= s.monitor.peak as real <==> Last(s.published) == 0))
  {
    var current := Last(s.published);
    var printed := Account(s.monitor, current);
    AccountExact(s.monitor, current);
    AverageAtMost(printed, s.monitor.peak);
    RatesOfLonger(s.sampled, current, INT_MAX);
    RatesOfLonger(s.sampled, current, printed.peak);
    SumOfDeltas(s.sampled + [current], |s.sampled| + 1, printed.peak);
  }

  lemma {:induction false} FirstPeak(steps: seq<Step>)
    requires Run(steps)
    ensures After(steps).monitor.count == 0 ==> After(steps).monitor.peak == 0
    decreases |steps|
  {
    if steps != [] {
      FirstPeak(steps[..|steps| - 1]);
    }
  }

  // ---------------------------------------------------------------- reader

  /**
   Until the status is terminal the reader gets each publication at most once and in order; the byte counts it
   sees never decrease; while it waits it has already been given the latest publication; and after the
   monitor's final publication it is not left waiting.
   */
  lemma ReaderSeesProgress(steps: seq<Step>)
    requires Run(steps)
    ensures forall i :: 0 <= i < |After(steps).returned| ==> After(steps).returned[i] < |After(steps).published|
    ensures After(steps).status != Terminal ==> Increasing(After(steps).returned)
    ensures forall i, j :: 0 <= i < j < |After(steps).returned| ==>
      After(steps).published[After(steps).returned[i]] <= After(steps).published[After(steps).returned[j]]
    ensures After(steps).reader.Blocked? ==>
      After(steps).returned != [] && Last(After(steps).returned) == |After(steps).published| - 1
    ensures After(steps).pc.Done? ==> !After(steps).reader.Blocked?
  {
    InvariantHolds(steps);
    ReturnedValuesRise(After(steps));
  }

  lemma ReturnedValuesRise(s: State)
    requires PublishedOk(s) && ReaderOk(s)
    ensures forall i, j :: 0 <= i < j < |s.returned| ==> s.published[s.returned[i]] <= s.published[s.returned[j]]
  {
    forall i, j | 0 <= i < j < |s.returned|
      ensures s.published[s.returned[i]] <= s.published[s.returned[j]]
    {
      assert s.returned[i] <= s.returned[j];
    }
  }

  // ------------------------------------------------------- in the source's form

  /** The fields that tb_monitor keeps in its locals and in `listener->stats`. */
  class MonitorBlock {
    var prevBytes: int
    var peakBytes: int
    var byteSec: int
    var totalBytes: int
    var numSeconds: nat
    var peakByteSec: int

    ghost predicate Valid()
      reads this
    {
      peakBytes == peakByteSec
    }

    ghost function Value(): Monitor
      reads this
    {
      Monitor(prevBytes, totalBytes, numSeconds, byteSec, peakBytes)
    }

    constructor ()
      ensures Valid() && Value() == STARTED
    {
      prevBytes, peakBytes, byteSec, totalBytes, numSeconds, peakByteSec := 0, 0, 0, 0, 0, 0;
    }

    /** One connected iteration; returns the average and the peak as they stand when the statistics are printed. */
    method Iterate(currentRead: int) returns (printedAverage: real, printedPeak: int)
      requires Valid()
      modifies this
      ensures Valid() && Value() == Account(old(Value()), currentRead)
      ensures printedAverage == Average(Value()) && printedPeak == old(Value()).peak
    {
      byteSec := Wrap32(currentRead - prevBytes);
      prevBytes := Wrap32(currentRead);
      totalBytes := totalBytes + byteSec;
      numSeconds := numSeconds + 1;
      printedAverage := totalBytes as real / numSeconds as real;
      byteSec := Wrap32(byteSec * 10);
      printedAverage := printedAverage * 10.0;
      printedPeak := peakByteSec;
      if byteSec > peakBytes {
        peakByteSec := byteSec;
        peakBytes := peakByteSec;
      }
    }
  }
}
