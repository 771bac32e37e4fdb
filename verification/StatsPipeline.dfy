/**
 The statistics of a multi-connection endpoint, from the workers' counters to the external reader:
 the scan of tb_set_m_stats, the arithmetic of tb_monitor, and the hand-off of tb_ex_get_stat_cpy.

 Workers add to their totals and the main thread appends sessions between any two accesses of the
 scan. The scan and the reader exclude each other, as the documentation of `stat_lock` promises.
 */
module StatsPipeline {
  import opened Sums

  const INT_MAX: int := 0x7fff_ffff

  /** The value of an `int` that was assigned `x`. */
  function Wrap32(x: int): int {
    (x + 0x8000_0000) % 0x1_0000_0000 - 0x8000_0000
  }

  /** `prev_bytes`, `total_bytes`, `num_m_seconds`, `byte_sec` and the peak (kept in two equal copies). */
  datatype Monitor = Monitor(prev: int, total: int, count: nat, byteSec: int, peak: int)

  const STARTED := Monitor(0, 0, 0, 0, 0)

  /** One iteration of the monitor on a connected endpoint. */
  function Account(m: Monitor, current: int): Monitor {
    var raw := Wrap32(current - m.prev);
    var rate := Wrap32(raw * 10);
    Monitor(Wrap32(current), m.total + raw, m.count + 1, rate, if rate > m.peak then rate else m.peak)
  }

  /** `av_byte_sec` */
  function Average(m: Monitor): real
    requires m.count > 0
  {
    m.total as real / m.count as real * 10.0
  }

  datatype Status = Waiting | Connected | Terminal

  /** Sample: the endpoint is connected. Refresh: it is not. Final: after the loop. */
  datatype Mode = Sample | Refresh | Final

  /** Before reading session i, between its two reads, after both, or past the last session. */
  datatype ScanPc = Node(i: nat) | Half(i: nat) | Passed(i: nat) | End

  datatype MonitorPc = Loop | Decide | Ready(mode: Mode) | Scan(mode: Mode, at: ScanPc) | Accounting | Done

  datatype ReaderPc = Outside | Blocked | Woken

  /**
   `totals`: the session totals in list order. `current` and `txrx`: the two sums being scanned. `unread`: the
   `read` flag is 0. `published` lists the successive values of `current_read` (first the initial one),
   `returned` the publications handed to the reader, `sampled` the values accounted by the monitor, and
   `atStart` the totals when the latest scan began.
   */
  datatype State = State(
    totals: seq<nat>, status: Status, pc: MonitorPc, current: nat, txrx: nat, monitor: Monitor,
    unread: bool, reader: ReaderPc,
    published: seq<nat>, returned: seq<nat>, sampled: seq<nat>, atStart: seq<nat>)

  const INIT := State([], Waiting, Loop, 0, 0, STARTED, true, Outside, [0], [], [], [])

  datatype Step =
    // workers and main thread
    | Grow(next: seq<nat>) | SetStatus(to: Status)
    // tb_monitor and tb_set_m_stats
    | Look | Choose | Begin | ReadCurrent | ReadTotal | Advance | Publish | DoAccount
    // tb_ex_get_stat_cpy
    | ReaderCalls | ReaderResumes

  predicate Shape(s: State) {
    s.published != [] && (s.pc.Scan? && (s.pc.at.Node? || s.pc.at.Half?) ==> s.pc.at.i < |s.totals|)
  }

  /** The workers stay within the C `int` range that `file_size` already obeys. */
  predicate Enabled(s: State, step: Step) {
    match step
    case Grow(next) => Grows(s.totals, next) && Sum(next) <= INT_MAX
    case SetStatus(_) => s.status != Terminal
    case Look => s.pc.Loop?
    case Choose => s.pc.Decide?
    case Begin => s.pc.Ready?
    case ReadCurrent => s.pc.Scan? && s.pc.at.Node?
    case ReadTotal => s.pc.Scan? && s.pc.at.Half?
    case Advance => s.pc.Scan? && s.pc.at.Passed?
    case Publish => s.pc.Scan? && s.pc.at.End?
    case DoAccount => s.pc.Accounting?
    case ReaderCalls => s.reader.Outside? && !s.pc.Scan?
    case ReaderResumes => s.reader.Woken? && !s.pc.Scan?
  }

  /** The reader marks the statistics as read and leaves with a copy of the latest publication. */
  function Take(s: State): State
    requires s.published != []
  {
    s.(returned := s.returned + [|s.published| - 1], unread := false, reader := Outside)
  }

  function Apply(s: State, step: Step): State
    requires Shape(s) && Enabled(s, step)
  {
    match step
    case Grow(next) => s.(totals := next)
    case SetStatus(to) => s.(status := to)
    case Look => s.(pc := if s.status == Terminal then Ready(Final) else Decide)
    case Choose => s.(pc := Ready(if s.status == Connected then Sample else Refresh))
    case Begin =>
      s.(pc := Scan(s.pc.mode, if s.totals == [] then End else Node(0)), current := 0, txrx := 0, atStart := s.totals)
    case ReadCurrent => s.(pc := Scan(s.pc.mode, Half(s.pc.at.i)), current := s.current + s.totals[s.pc.at.i])
    case ReadTotal => s.(pc := Scan(s.pc.mode, Passed(s.pc.at.i)), txrx := s.txrx + s.totals[s.pc.at.i])
    case Advance =>
      s.(pc := Scan(s.pc.mode, if s.pc.at.i + 1 < |s.totals| then Node(s.pc.at.i + 1) else End))
    case Publish =>
      s.(pc := match s.pc.mode case Sample => Accounting case Refresh => Loop case Final => Done,
         published := s.published + [s.current], unread := true,
         reader := if s.reader.Blocked? then Woken else s.reader)
    case DoAccount =>
      s.(pc := Loop, monitor := Account(s.monitor, s.published[|s.published| - 1]),
         sampled := s.sampled + [s.published[|s.published| - 1]])
    case ReaderCalls => if !s.unread && s.status != Terminal then s.(reader := Blocked) else Take(s)
    case ReaderResumes => Take(s)
  }

  lemma ApplyKeepsShape(s: State, step: Step)
    requires Shape(s) && Enabled(s, step)
    ensures Shape(Apply(s, step))
  {
  }

  // ------------------------------------------------------------------ runs

  predicate Run(steps: seq<Step>)
    decreases |steps|, 0
  {
    steps == [] ||
    (var front := steps[..|steps| - 1]; Run(front) && Enabled(After(front), steps[|steps| - 1]))
  }

  function After(steps: seq<Step>): (s: State)
    requires Run(steps)
    ensures Shape(s)
    decreases |steps|, 1
  {
    if steps == [] then INIT
    else
      var s := After(steps[..|steps| - 1]);
      ApplyKeepsShape(s, steps[|steps| - 1]);
      Apply(s, steps[|steps| - 1])
  }

  // ------------------------------------------------------------- invariant

  function Last(s: seq<nat>): nat {
    if s == [] then 0 else s[|s| - 1]
  }

  predicate NonDecreasing(s: seq<nat>) {
    forall i, j :: 0 <= i < j < |s| ==> s[i] <= s[j]
  }

  predicate Increasing(s: seq<nat>) {
    forall i, j :: 0 <= i < j < |s| ==> s[i] < s[j]
  }

  /** A sum over the first `k` sessions, each read at some moment between the start of the scan and now. */
  predicate Within(s: State, sum: nat, k: nat) {
    SumTo(s.atStart, k) <= sum <= SumTo(s.totals, k)
  }

  predicate ScanOk(s: State) {
    s.pc.Scan? ==>
      && Grows(s.atStart, s.totals)
      && match s.pc.at
         case Node(i) => i < |s.totals| && Within(s, s.current, i) && Within(s, s.txrx, i) && s.current <= s.txrx
         case Half(i) =>
           && i < |s.totals| && Within(s, s.current, i + 1) && Within(s, s.txrx, i)
           && s.current <= s.txrx + s.totals[i]
         case Passed(i) =>
           i < |s.totals| && Within(s, s.current, i + 1) && Within(s, s.txrx, i + 1) && s.current <= s.txrx
         case End => Sum(s.atStart) <= s.current <= s.txrx <= Sum(s.totals)
  }

  predicate PublishedOk(s: State) {
    && s.published != [] && NonDecreasing(s.published)
    && Last(s.published) <= Sum(s.totals) <= INT_MAX
    && (s.pc.Scan? ==> Last(s.published) <= Sum(s.atStart))
  }

  /** The first difference of the accounted samples. */
  function Delta(sampled: seq<nat>, i: nat): int
    requires i < |sampled|
  {
    sampled[i] as int - (if i == 0 then 0 else sampled[i - 1])
  }

  /** No difference between consecutive samples exceeds `cap` once multiplied by ten. */
  predicate RatesAtMost(sampled: seq<nat>, cap: int) {
    forall i :: 0 <= i < |sampled| ==> 10 * Delta(sampled, i) <= cap
  }

  predicate MonitorOk(s: State) {
    && NonDecreasing(s.sampled) && Last(s.sampled) <= Last(s.published)
    && s.monitor.prev == Last(s.sampled)
    && s.monitor.total == Last(s.sampled)
    && s.monitor.count == |s.sampled|
    && (RatesAtMost(s.sampled, INT_MAX) ==> RatesAtMost(s.sampled, s.monitor.peak))
    && (s.pc.Accounting? ==> s.current == Last(s.published))
  }

  predicate ReaderOk(s: State) {
    && (forall i :: 0 <= i < |s.returned| ==> s.returned[i] < |s.published|)
    && NonDecreasing(s.returned)
    && (s.status != Terminal ==> Increasing(s.returned))
    && (s.unread ==> s.returned == [] || Last(s.returned) < |s.published| - 1)
    && (!s.unread ==> s.returned != [] && Last(s.returned) == |s.published| - 1)
    && (s.reader.Woken? ==> s.unread)
    && (s.reader.Blocked? ==> !s.unread)
    && ((s.pc.Ready? || s.pc.Scan?) && s.pc.mode.Final? ==> s.status == Terminal)
    && (s.pc.Done? ==> s.status == Terminal && !s.reader.Blocked?)
  }

  predicate Inv(s: State) {
    Shape(s) && ScanOk(s) && PublishedOk(s) && MonitorOk(s) && ReaderOk(s)
  }

  lemma GrowKeepsScan(s: State, next: seq<nat>)
    requires Shape(s) && ScanOk(s) && Enabled(s, Grow(next))
    ensures ScanOk(Apply(s, Grow(next)))
  {
    if s.pc.Scan? {
      SumGrows(s.totals, next);
      if !s.pc.at.End? {
        SumToGrows(s.totals, next, s.pc.at.i);
        SumToGrows(s.totals, next, s.pc.at.i + 1);
      }
    }
  }

  lemma ScanStepOk(s: State, step: Step)
    requires Shape(s) && ScanOk(s) && Enabled(s, step)
    ensures ScanOk(Apply(s, step))
  {
    if step.Grow? {
      GrowKeepsScan(s, step.next);
    } else if step.ReadCurrent? || step.ReadTotal? {
      assert |s.atStart| <= s.pc.at.i || s.atStart[s.pc.at.i] <= s.totals[s.pc.at.i];
    } else if step.Advance? && |s.totals| <= s.pc.at.i + 1 {
      SumToPastEnd(s.atStart, s.pc.at.i + 1);
      assert s.pc.at.i + 1 == |s.totals|;
    }
  }

  lemma PublishedStepOk(s: State, step: Step)
    requires Shape(s) && ScanOk(s) && PublishedOk(s) && Enabled(s, step)
    ensures PublishedOk(Apply(s, step))
  {
    if step.Grow? {
      SumGrows(s.totals, step.next);
    }
  }

  lemma WrapIsIdentity(x: int)
    requires -0x8000_0000 <= x <= INT_MAX
    ensures Wrap32(x) == x
  {
  }

  /** Within the `int` range the accounting is exact, and the peak bounds the rate whenever the rate fits. */
  lemma AccountExact(m: Monitor, current: int)
    requires 0 <= m.prev <= current <= INT_MAX
    ensures
      var r := Account(m, current);
      && r.prev == current && r.total == m.total + current - m.prev && r.count == m.count + 1
      && m.peak <= r.peak
      && (10 * (current - m.prev) <= INT_MAX ==>
            r.byteSec == 10 * (current - m.prev) && r.peak == if r.byteSec > m.peak then r.byteSec else m.peak)
  {
    WrapIsIdentity(current - m.prev);
    WrapIsIdentity(current);
    if 10 * (current - m.prev) <= INT_MAX {
      WrapIsIdentity((current - m.prev) * 10);
    }
  }

  lemma RatesOfLonger(sampled: seq<nat>, v: nat, cap: int)
    ensures RatesAtMost(sampled + [v], cap) <==> RatesAtMost(sampled, cap) && 10 * (v - Last(sampled)) <= cap
  {
    var longer := sampled + [v];
    assert forall i :: 0 <= i < |sampled| ==> Delta(longer, i) == Delta(sampled, i);
    assert Delta(longer, |sampled|) == v - Last(sampled);
  }

  lemma AccountOk(s: State)
    requires Shape(s) && PublishedOk(s) && MonitorOk(s) && s.pc.Accounting?
    ensures MonitorOk(Apply(s, DoAccount))
  {
    var current := Last(s.published);
    AccountExact(s.monitor, current);
    RatesOfLonger(s.sampled, current, INT_MAX);
    RatesOfLonger(s.sampled, current, Apply(s, DoAccount).monitor.peak);
  }

  lemma MonitorStepOk(s: State, step: Step)
    requires Shape(s) && ScanOk(s) && PublishedOk(s) && MonitorOk(s) && Enabled(s, step)
    ensures MonitorOk(Apply(s, step))
  {
    if step.DoAccount? {
      AccountOk(s);
    }
  }

  lemma TakeOk(s: State)
    requires Shape(s) && ReaderOk(s) && (s.unread || s.status == Terminal)
    ensures ReaderOk(Take(s))
  {
  }

  lemma ReaderStepOk(s: State, step: Step)
    requires Shape(s) && ReaderOk(s) && Enabled(s, step)
    ensures ReaderOk(Apply(s, step))
  {
    if step.ReaderResumes? || (step.ReaderCalls? && (s.unread || s.status == Terminal)) {
      TakeOk(s);
    }
  }

  /** The invariant holds in every state of every run. */
  lemma {:induction false} InvariantHolds(steps: seq<Step>)
    requires Run(steps)
    ensures Inv(After(steps))
    decreases |steps|
  {
    if steps != [] {
      var front := steps[..|steps| - 1];
      InvariantHolds(front);
      ScanStepOk(After(front), steps[|steps| - 1]);
      PublishedStepOk(After(front), steps[|steps| - 1]);
      MonitorStepOk(After(front), steps[|steps| - 1]);
      ReaderStepOk(After(front), steps[|steps| - 1]);
    }
  }
}
