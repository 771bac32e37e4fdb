/**
 A multi-connection server with its monitor: the transfer of MultiTransfer and the statistics of
 StatsPipeline running side by side, in every interleaving. The monitor reads the session totals
 that the workers write, and the status turns terminal only after the server has left its loop.
 */
module EndToEnd {
  import opened Sums
  import opened Paths
  import M = MultiTransfer
  import Invariant = MultiTransferInvariant
  import Results = MultiTransferResults
  import Progress = MultiTransferProgress
  import Outcomes = MultiTransferOutcomes
  import P = StatsPipeline
  import Monitoring = StatsProgress

  datatype Event = Net(step: M.Step) | Stats(action: P.Step)

  datatype State = State(net: M.State, stats: P.State)

  predicate ValidConfig(c: M.Config) {
    M.ValidConfig(c) && c.quota * |c.parts| <= P.INT_MAX
  }

  predicate Coupled(c: M.Config, s: State)
    requires ValidConfig(c)
  {
    M.Inv(c, s.net) && P.Inv(s.stats) && s.stats.totals == M.Totals(s.net)
  }

  predicate Enabled(c: M.Config, s: State, e: Event)
    requires ValidConfig(c) && Coupled(c, s)
  {
    match e
    case Net(step) => M.Enabled(c, s.net, step)
    case Stats(action) =>
      && !action.Grow? && P.Enabled(s.stats, action)
      && (action == P.SetStatus(P.Terminal) ==> s.net.main == M.Left)
  }

  function Apply(c: M.Config, s: State, e: Event): (t: State)
    requires ValidConfig(c) && Coupled(c, s) && Enabled(c, s, e)
    ensures Coupled(c, t)
  {
    match e
    case Net(step) =>
      var net := M.Apply(c, s.net, step);
      TotalsCanGrow(c, s, step);
      Invariant.StepOk(c, s.net, step);
      Monitoring.StepInv(s.stats, P.Grow(M.Totals(net)));
      State(net, P.Apply(s.stats, P.Grow(M.Totals(net))))
    case Stats(action) =>
      Monitoring.StepInv(s.stats, action);
      s.(stats := P.Apply(s.stats, action))
  }

  /** What the transfer does to the totals is always a step that the statistics allow for. */
  lemma TotalsCanGrow(c: M.Config, s: State, step: M.Step)
    requires ValidConfig(c) && Coupled(c, s) && M.Enabled(c, s.net, step)
    ensures P.Enabled(s.stats, P.Grow(M.Totals(M.Apply(c, s.net, step))))
  {
    Results.TotalsGrow(c, s.net, step);
    Invariant.StepOk(c, s.net, step);
    Outcomes.TotalsBounded(c, M.Apply(c, s.net, step));
  }

  // ------------------------------------------------------------------ runs

  predicate Run(c: M.Config, events: seq<Event>)
    requires ValidConfig(c)
    decreases |events|, 0
  {
    events == [] ||
    (var front := events[..|events| - 1]; Run(c, front) && Enabled(c, After(c, front), events[|events| - 1]))
  }

  function After(c: M.Config, events: seq<Event>): (s: State)
    requires ValidConfig(c) && Run(c, events)
    ensures Coupled(c, s)
    decreases |events|, 1
  {
    if events == [] then
      Invariant.InitOk(c);
      State(M.Init(c), P.INIT)
    else
      Apply(c, After(c, events[..|events| - 1]), events[|events| - 1])
  }

  /** The steps of the transfer alone. */
  function NetOf(events: seq<Event>): seq<M.Step> {
    if events == [] then []
    else
      var front, last := NetOf(events[..|events| - 1]), events[|events| - 1];
      if last.Net? then front + [last.step] else front
  }

  /** Seen without its monitor, a run is a run of the transfer. */
  lemma {:induction false} TransferIsRun(c: M.Config, events: seq<Event>)
    requires ValidConfig(c) && Run(c, events)
    ensures M.Run(c, NetOf(events)) && M.After(c, NetOf(events)) == After(c, events).net
    decreases |events|
  {
    if events != [] {
      var front := events[..|events| - 1];
      TransferIsRun(c, front);
      if events[|events| - 1].Net? {
        var net := NetOf(events);
        assert net[..|net| - 1] == NetOf(front);
      }
    }
  }

  // ---------------------------------------------------------- the final read

  /**
   At every decrement that brought the counter to zero nothing had gone wrong and every connection had been
   counted. (The server itself only tests the counter.)
   */
  ghost predicate Guarded(c: M.Config, net: seq<M.Step>)
    requires M.ValidConfig(c)
  {
    forall zero :: M.Run(c, zero) && zero <= net && Outcomes.ZeroReached(c, zero) ==>
      Results.Untroubled(M.After(c, zero)) && Results.Increments(zero) == |c.parts|
  }

  /** What the final read relies on: it begins after the server has left, and sees nothing but the whole. */
  predicate Settled(c: M.Config, s: State) {
    && (s.stats.status == P.Terminal ==> s.net.main == M.Left)
    && (Monitoring.InFinalRead(s.stats) ==> Sum(s.stats.atStart) == c.quota * |c.parts|)
    && (s.stats.pc.Done? ==> s.stats.txrx == P.Last(s.stats.published) == c.quota * |c.parts|)
  }

  lemma SettledNetStep(c: M.Config, s: State, step: M.Step)
    requires ValidConfig(c) && Coupled(c, s) && Enabled(c, s, Net(step)) && Settled(c, s)
    ensures Settled(c, Apply(c, s, Net(step)))
  {
    Results.StepMovesOn(c, s.net, step);
  }

  lemma SettledStatsStep(c: M.Config, s: State, action: P.Step)
    requires ValidConfig(c) && Coupled(c, s) && Enabled(c, s, Stats(action)) && Settled(c, s)
    requires s.net.main == M.Left ==> Sum(M.Totals(s.net)) == c.quota * |c.parts|
    ensures Settled(c, Apply(c, s, Stats(action)))
  {
    var whole := c.quota * |c.parts|;
    FinalReadStep(s.stats, action, whole);
  }

  /** The final read keeps to a whole that the totals had reached when it began and never exceed. */
  lemma FinalReadStep(s: P.State, action: P.Step, whole: nat)
    requires P.Inv(s) && P.Enabled(s, action) && !action.Grow?
    requires s.status == P.Terminal ==> Sum(s.totals) == whole
    requires Monitoring.InFinalRead(s) ==> Sum(s.atStart) == whole
    requires s.pc.Done? ==> s.txrx == P.Last(s.published) == whole
    ensures
      var t := P.Apply(s, action);
      && (Monitoring.InFinalRead(t) ==> Sum(t.atStart) == whole)
      && (t.pc.Done? ==> t.txrx == P.Last(t.published) == whole)
  {
  }

  lemma LeftMeansDelivered(c: M.Config, net: seq<M.Step>)
    requires M.ValidConfig(c) && c.transport.Tcp? && M.Run(c, net) && Guarded(c, net)
    requires M.After(c, net).main == M.Left
    ensures Sum(M.Totals(M.After(c, net))) == c.quota * |c.parts|
  {
    var zero := Results.LeavingServer(c, net);
    assert Outcomes.ZeroReached(c, zero);
    Results.DeliveredTotal(c, M.After(c, net));
  }

  lemma GuardedPrefix(c: M.Config, shorter: seq<M.Step>, net: seq<M.Step>)
    requires M.ValidConfig(c) && shorter <= net && Guarded(c, net)
    ensures Guarded(c, shorter)
  {
  }

  lemma {:induction false} StaysSettled(c: M.Config, events: seq<Event>)
    requires ValidConfig(c) && c.transport.Tcp? && Run(c, events) && Guarded(c, NetOf(events))
    ensures Settled(c, After(c, events))
    decreases |events|
  {
    if events != [] {
      var front := events[..|events| - 1];
      GuardedPrefix(c, NetOf(front), NetOf(events));
      StaysSettled(c, front);
      match events[|events| - 1]
      case Net(step) => SettledNetStep(c, After(c, front), step);
      case Stats(action) =>
        TransferIsRun(c, front);
        if After(c, front).net.main == M.Left {
          LeftMeansDelivered(c, NetOf(front));
        }
        SettledStatsStep(c, After(c, front), action);
    }
  }

  /**
   Once the monitor is done, its final read reports exactly `num_conn * (file_size / num_conn)` bytes, in both
   of its sums, provided that no decrement returned zero before every connection was counted.
   */
  lemma FinalReport(c: M.Config, events: seq<Event>)
    requires ValidConfig(c) && c.transport.Tcp? && Run(c, events) && Guarded(c, NetOf(events))
    requires After(c, events).stats.pc.Done?
    ensures P.Last(After(c, events).stats.published) == c.quota * |c.parts|
    ensures After(c, events).stats.txrx == c.quota * |c.parts|
  {
    StaysSettled(c, events);
  }

  // --------------------------------------------------- what can be reported

  predicate Goes(c: M.Config, s: State, e: Event, t: State) {
    ValidConfig(c) && Coupled(c, s) && Enabled(c, s, e) && Apply(c, s, e) == t
  }

  ghost function Next(c: M.Config): (State, State) -> bool {
    (s: State, t: State) => exists e :: Goes(c, s, e, t)
  }

  predicate EndsAt(c: M.Config, events: seq<Event>, t: State)
    requires ValidConfig(c)
  {
    Run(c, events) && After(c, events) == t
  }

  lemma Extend(c: M.Config, events: seq<Event>, s: State, e: Event, t: State)
    requires ValidConfig(c) && EndsAt(c, events, s) && Goes(c, s, e, t)
    ensures EndsAt(c, events + [e], t)
  {
    assert (events + [e])[..|events|] == events;
  }

  /** The end of a run that begins with `events`. */
  ghost predicate Continues(c: M.Config, events: seq<Event>, t: State)
    requires ValidConfig(c)
  {
    exists longer :: events <= longer && EndsAt(c, longer, t)
  }

  lemma ContinuesOn(c: M.Config, events: seq<Event>, s: State, e: Event, t: State)
    requires ValidConfig(c) && Continues(c, events, s) && Goes(c, s, e, t)
    ensures Continues(c, events, t)
  {
    var longer :| events <= longer && EndsAt(c, longer, s);
    Extend(c, longer, s, e, t);
    PrefixAppend(events, longer, e);
  }

  lemma LongerRun(c: M.Config, events: seq<Event>, t: State) returns (longer: seq<Event>)
    requires ValidConfig(c) && Run(c, events) && Leads(Next(c), After(c, events), t)
    ensures Run(c, longer) && events <= longer && After(c, longer) == t
  {
    var inside := (u: State) => Continues(c, events, u);
    forall u, v | inside(u) && Next(c)(u, v)
      ensures inside(v)
    {
      var e :| Goes(c, u, e, v);
      ContinuesOn(c, events, u, e, v);
    }
    assert EndsAt(c, events, After(c, events));
    StaysInside(Next(c), inside, After(c, events), t);
    longer :| events <= longer && EndsAt(c, longer, t);
  }

  /** The same statistics, over the totals of `net`. */
  function With(s: State, net: M.State): State {
    State(net, s.stats.(totals := M.Totals(net)))
  }

  ghost predicate ReachesNet(c: M.Config, s: State, net: M.State)
    requires ValidConfig(c)
  {
    Coupled(c, With(s, net)) && Leads(Next(c), s, With(s, net))
  }

  lemma NetMoves(c: M.Config, s: State, net: M.State, step: M.Step, later: M.State)
    requires ValidConfig(c) && ReachesNet(c, s, net) && Progress.Goes(c, net, step, later)
    ensures ReachesNet(c, s, later)
  {
    var u := With(s, net);
    assert Goes(c, u, Net(step), With(s, later));
    OneStep(Next(c), u, With(s, later));
    Join(Next(c), s, u, With(s, later));
  }

  /** Wherever the transfer can go, it can go with the statistics standing still. */
  lemma NetAlone(c: M.Config, s: State, net: M.State)
    requires ValidConfig(c) && Coupled(c, s) && Leads(Progress.Next(c), s.net, net)
    ensures ReachesNet(c, s, net)
  {
    var inside := (u: M.State) => ReachesNet(c, s, u);
    assert With(s, s.net) == s;
    Stay(Next(c), s);
    forall u, v | inside(u) && Progress.Next(c)(u, v)
      ensures inside(v)
    {
      var step :| !Progress.Fails(step) && Progress.Goes(c, u, step, v);
      NetMoves(c, s, u, step, v);
    }
    StaysInside(Progress.Next(c), inside, s.net, net);
  }

  ghost predicate ReachesStats(c: M.Config, s: State, stats: P.State)
    requires ValidConfig(c)
  {
    Coupled(c, s.(stats := stats)) && Leads(Next(c), s, s.(stats := stats))
  }

  lemma StatsMove(c: M.Config, s: State, stats: P.State, action: P.Step, later: P.State)
    requires ValidConfig(c) && ReachesStats(c, s, stats)
    requires Monitoring.Goes(stats, action, later) && Monitoring.OfMonitor(action)
    ensures ReachesStats(c, s, later)
  {
    var u := s.(stats := stats);
    assert Goes(c, u, Stats(action), s.(stats := later));
    OneStep(Next(c), u, s.(stats := later));
    Join(Next(c), s, u, s.(stats := later));
  }

  /** Wherever the monitor can go, it can go with the transfer standing still. */
  lemma MonitorAlone(c: M.Config, s: State, stats: P.State)
    requires ValidConfig(c) && Coupled(c, s) && Leads(Monitoring.MonitorNext(), s.stats, stats)
    ensures ReachesStats(c, s, stats)
  {
    var inside := (u: P.State) => ReachesStats(c, s, u);
    assert s.(stats := s.stats) == s;
    Stay(Next(c), s);
    forall u, v | inside(u) && Monitoring.MonitorNext()(u, v)
      ensures inside(v)
    {
      var action :| Monitoring.OfMonitor(action) && Monitoring.Goes(u, action, v);
      StatsMove(c, s, u, action, v);
    }
    StaysInside(Monitoring.MonitorNext(), inside, s.stats, stats);
  }

  lemma TurnTerminal(c: M.Config, s: State) returns (t: State)
    requires ValidConfig(c) && Coupled(c, s) && s.net.main == M.Left
    ensures Coupled(c, t) && Leads(Next(c), s, t) && t.net == s.net && t.stats.status == P.Terminal
    ensures s.stats.status != P.Terminal ==> t.stats == s.stats.(status := P.Terminal)
  {
    t := s;
    if s.stats.status == P.Terminal {
      Stay(Next(c), s);
    } else {
      t := Apply(c, s, Stats(P.SetStatus(P.Terminal)));
      assert Goes(c, s, Stats(P.SetStatus(P.Terminal)), t);
      OneStep(Next(c), s, t);
    }
  }

  /** Once the server has left its loop, the monitor can finish, and a final read not yet begun reports what is there. */
  lemma ReportNow(c: M.Config, s: State) returns (t: State)
    requires ValidConfig(c) && Coupled(c, s) && s.net.main == M.Left
    ensures Coupled(c, t) && Leads(Next(c), s, t) && t.net == s.net && t.stats.pc.Done?
    ensures s.stats.status != P.Terminal ==> t.stats.txrx == P.Last(t.stats.published) == Sum(M.Totals(s.net))
  {
    var u := TurnTerminal(c, s);
    var stats := Monitoring.FinishReport(u.stats);
    MonitorAlone(c, u, stats);
    t := u.(stats := stats);
    Join(Next(c), s, u, t);
  }

  /**
   Over TCP, for every number of connections up to all of them there is a run without a single error in which the
   monitor's final read reports exactly so many slices.
   */
  lemma ReportsOf(c: M.Config, m: nat) returns (events: seq<Event>)
    requires ValidConfig(c) && c.transport.Tcp? && 0 < m <= |c.parts|
    ensures Run(c, events) && After(c, events).stats.pc.Done? && Results.Untroubled(After(c, events).net)
    ensures After(c, events).stats.txrx == P.Last(After(c, events).stats.published) == c.quota * m
  {
    assert Run(c, []);
    var s := After(c, []);
    var net := Outcomes.FirstOnly(c, m);
    NetAlone(c, s, net);
    var t := ReportNow(c, With(s, net));
    Join(Next(c), s, With(s, net), t);
    events := LongerRun(c, [], t);
  }

  predicate TerminalMeansLeft(s: State) {
    s.stats.status == P.Terminal ==> s.net.main == M.Left
  }

  lemma TerminalStep(c: M.Config, s: State, e: Event)
    requires ValidConfig(c) && Coupled(c, s) && Enabled(c, s, e) && TerminalMeansLeft(s)
    ensures TerminalMeansLeft(Apply(c, s, e))
  {
    if e.Net? {
      Results.StepMovesOn(c, s.net, e.step);
    } else {
      StatusStep(s.stats, e.action);
    }
  }

  lemma StatusStep(s: P.State, action: P.Step)
    requires P.Inv(s) && P.Enabled(s, action)
    ensures P.Apply(s, action).status == if action.SetStatus? then action.to else s.status
  {
  }

  lemma {:induction false} NotYetTerminal(c: M.Config, events: seq<Event>)
    requires ValidConfig(c) && Run(c, events)
    ensures TerminalMeansLeft(After(c, events))
    decreases |events|
  {
    if events != [] {
      NotYetTerminal(c, events[..|events| - 1]);
      TerminalStep(c, After(c, events[..|events| - 1]), events[|events| - 1]);
    }
  }

  /** Before the server has left, the final read has not begun. */
  lemma NotYetFinal(c: M.Config, s: State)
    requires ValidConfig(c) && Coupled(c, s) && TerminalMeansLeft(s) && s.net.main != M.Left
    ensures Settled(c, s)
  {
  }

  /** All connections had been counted at a decrement to zero: from then on the final read settles on the whole. */
  lemma {:induction false} SettledFrom(c: M.Config, events: seq<Event>, later: seq<Event>)
    requires ValidConfig(c) && c.transport.Tcp? && Run(c, events) && Run(c, later) && events <= later
    requires M.Run(c, NetOf(events)) && CountedAtZero(c, NetOf(events)) && Settled(c, After(c, events))
    ensures Settled(c, After(c, later))
    decreases |later|
  {
    if |events| == |later| {
      assert events == later;
    } else {
      var front := later[..|later| - 1];
      SettledFrom(c, events, front);
      TransferIsRun(c, front);
      NetOfPrefix(events, front);
      Outcomes.CompleteFromZero(c, NetOf(events), NetOf(front));
      match later[|later| - 1]
      case Net(step) => SettledNetStep(c, After(c, front), step);
      case Stats(action) => SettledStatsStep(c, After(c, front), action);
    }
  }

  lemma {:induction false} NetOfPrefix(events: seq<Event>, later: seq<Event>)
    requires events <= later
    ensures NetOf(events) <= NetOf(later)
    decreases |later|
  {
    if |events| == |later| {
      assert events == later;
    } else {
      NetOfPrefix(events, later[..|later| - 1]);
    }
  }

  /** An untroubled decrement to zero, with every connection counted by then (or nothing to count). */
  predicate CountedAtZero(c: M.Config, zero: seq<M.Step>)
    requires M.ValidConfig(c) && M.Run(c, zero)
  {
    && Outcomes.ZeroReached(c, zero) && Results.Untroubled(M.After(c, zero))
    && (c.quota == 0 || Results.Increments(zero) == |c.parts|)
  }

  /** An untroubled decrement to zero while the server is still in its loop. */
  predicate ZeroInLoop(c: M.Config, events: seq<Event>)
    requires ValidConfig(c)
  {
    && Run(c, events) && M.Run(c, NetOf(events)) && Outcomes.ZeroReached(c, NetOf(events))
    && Results.Untroubled(M.After(c, NetOf(events))) && M.After(c, NetOf(events)).main != M.Left
  }

  predicate Reports(s: State, bytes: int) {
    s.stats.txrx == P.Last(s.stats.published) == bytes
  }

  lemma WholeReport(c: M.Config, events: seq<Event>, later: seq<Event>)
    requires ValidConfig(c) && c.transport.Tcp? && ZeroInLoop(c, events)
    requires c.quota == 0 || Results.Increments(NetOf(events)) == |c.parts|
    requires Run(c, later) && events <= later && After(c, later).stats.pc.Done?
    ensures Reports(After(c, later), c.quota * |c.parts|)
  {
    TransferIsRun(c, events);
    NotYetTerminal(c, events);
    NotYetFinal(c, After(c, events));
    SettledFrom(c, events, later);
  }

  lemma ReportAtZero(c: M.Config, s: State) returns (t: State)
    requires ValidConfig(c) && Coupled(c, s) && Progress.Steady(c, s.net) && TerminalMeansLeft(s)
    requires s.net.main != M.Left && !Results.NoExitDue(s.net)
    ensures Leads(Next(c), s, t) && t.stats.pc.Done? && Reports(t, Sum(M.Totals(s.net)))
  {
    var net := Progress.LeaveNow(c, s.net);
    NetAlone(c, s, net);
    t := ReportNow(c, With(s, net));
    Join(Next(c), s, With(s, net), t);
  }

  /** Some continuation reports the slices counted at that moment and no more. */
  lemma ReportOfCounted(c: M.Config, events: seq<Event>) returns (later: seq<Event>)
    requires ValidConfig(c) && c.transport.Tcp? && ZeroInLoop(c, events)
    ensures Run(c, later) && events <= later && After(c, later).stats.pc.Done?
    ensures Reports(After(c, later), c.quota * Results.Increments(NetOf(events)))
  {
    TransferIsRun(c, events);
    NotYetTerminal(c, events);
    Progress.RunIsSteady(c, NetOf(events));
    Outcomes.ZeroIsDue(c, NetOf(events));
    var t := ReportAtZero(c, After(c, events));
    later := LongerRun(c, events, t);
    Results.TotalAtZero(c, NetOf(events));
  }

  /**
   Over TCP, after an untroubled decrement to zero in a server still in its loop, every continuation reports the whole
   transfer if and only if every connection had been counted at that moment (or the slices are empty).
   */
  lemma FinalReportIff(c: M.Config, events: seq<Event>)
    requires ValidConfig(c) && c.transport.Tcp? && ZeroInLoop(c, events)
    ensures
      (forall later :: Run(c, later) && events <= later && After(c, later).stats.pc.Done? ==>
         Reports(After(c, later), c.quota * |c.parts|)) <==>
      c.quota == 0 || Results.Increments(NetOf(events)) == |c.parts|
  {
    if c.quota == 0 || Results.Increments(NetOf(events)) == |c.parts| {
      forall later | Run(c, later) && events <= later && After(c, later).stats.pc.Done?
        ensures Reports(After(c, later), c.quota * |c.parts|)
      {
        WholeReport(c, events, later);
      }
    } else {
      var later := ReportOfCounted(c, events);
      Results.ProductsDiffer(c.quota, Results.Increments(NetOf(events)), |c.parts|);
    }
  }
}
