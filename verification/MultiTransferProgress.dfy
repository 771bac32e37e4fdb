/**
 Where a multi-connection transfer can still go. From a state with some connections wanted, the schedule below lets
 their clients finish, accepts them, drains their workers, and takes the server out of its loop.
 */
module MultiTransferProgress {
  import opened Sums
  import opened Slices
  import opened Paths
  import opened MultiTransfer
  import opened MultiTransferInvariant
  import opened MultiTransferResults

  /** `step` takes `s` to `t`. */
  predicate Goes(c: Config, s: State, step: Step, t: State) {
    ValidConfig(c) && Shape(c, s) && Enabled(c, s, step) && Apply(c, s, step) == t
  }

  predicate Fails(step: Step) {
    step.ConnectFail? || step.SendFail? || step.RecvFail?
  }

  /** One step of any thread that is not an error. */
  ghost function Next(c: Config): (State, State) -> bool {
    (s: State, t: State) => exists step :: !Fails(step) && Goes(c, s, step, t)
  }

  // ------------------------------------------------------- more bookkeeping

  function AcceptedFlags(s: State): seq<nat> {
    seq(|s.clients|, x requires 0 <= x < |s.clients| => if s.clients[x].accepted then 1 else 0)
  }

  predicate SomeReturnedZero(s: State) {
    exists k :: 0 <= k < |s.sessions| && ReturnedZero(s.sessions[k])
  }

  predicate FinishedTold(s: State) {
    forall k :: 0 <= k < |s.sessions| && s.sessions[k].pc == Finished(true) ==> s.command == Exit
  }

  predicate UnspawnedLast(s: State) {
    forall k :: 0 <= k < |s.sessions| && s.sessions[k].pc.Unspawned? ==>
      s.main in {Appended, Counted} && k == |s.sessions| - 1
  }

  /**
   A counter back at zero has a witness, who has sent the exit command if it is finished. There is one session
   per accepted connection, and a worker not yet spawned only while the main thread is about to spawn it.
   */
  predicate Accounted(s: State) {
    && FinishedTold(s) && UnspawnedLast(s)
    && (s.active == 0 && CountedSessions(s) > 0 ==> SomeReturnedZero(s))
    && |s.sessions| == Sum(AcceptedFlags(s))
  }

  predicate Steady(c: Config, s: State) {
    ValidConfig(c) && Inv(c, s) && Accounted(s)
  }

  lemma {:induction false} AllZero(s: seq<nat>, j: nat, k: nat)
    requires j <= k <= |s| && forall i :: j <= i < k ==> s[i] == 0
    ensures SumTo(s, k) == SumTo(s, j)
  {
    if j < k {
      AllZero(s, j, k - 1);
    }
  }

  lemma InitSteady(c: Config)
    requires ValidConfig(c)
    ensures Steady(c, Init(c))
  {
    InitOk(c);
    AllZero(AcceptedFlags(Init(c)), 0, |c.parts|);
  }

  lemma FlagsStep(c: Config, s: State, step: Step)
    requires ValidConfig(c) && Shape(c, s) && Enabled(c, s, step) && |s.sessions| == Sum(AcceptedFlags(s))
    ensures |Apply(c, s, step).sessions| == Sum(AcceptedFlags(Apply(c, s, step)))
  {
    var t := Apply(c, s, step);
    if step.Accept? {
      assert AcceptedFlags(t) == AcceptedFlags(s)[step.x := 1];
      SumUpdate(AcceptedFlags(s), step.x, 1);
    } else {
      assert AcceptedFlags(t) == AcceptedFlags(s);
    }
  }

  /** A worker that returned zero stays one. */
  lemma ZeroLasts(c: Config, s: State, step: Step)
    requires ValidConfig(c) && Shape(c, s) && MainOk(s) && Enabled(c, s, step) && SomeReturnedZero(s)
    ensures SomeReturnedZero(Apply(c, s, step))
  {
    var k :| 0 <= k < |s.sessions| && ReturnedZero(s.sessions[k]);
    assert ReturnedZero(Apply(c, s, step).sessions[k]);
  }

  lemma WitnessStep(c: Config, s: State, step: Step)
    requires Steady(c, s) && Enabled(c, s, step)
    requires Apply(c, s, step).active == 0 && CountedSessions(Apply(c, s, step)) > 0
    ensures SomeReturnedZero(Apply(c, s, step))
  {
    var t := Apply(c, s, step);
    if step.Decrement? {
      assert ReturnedZero(t.sessions[step.k]);
    } else {
      CountedStep(c, s, step);
      ZeroLasts(c, s, step);
    }
  }

  lemma FinishedStep(c: Config, s: State, step: Step)
    requires ValidConfig(c) && Shape(c, s) && Enabled(c, s, step) && FinishedTold(s)
    ensures FinishedTold(Apply(c, s, step))
  {
  }

  lemma UnspawnedStep(c: Config, s: State, step: Step)
    requires ValidConfig(c) && Shape(c, s) && Enabled(c, s, step) && UnspawnedLast(s)
    ensures UnspawnedLast(Apply(c, s, step))
  {
  }

  lemma SteadyStep(c: Config, s: State, step: Step)
    requires Steady(c, s) && Enabled(c, s, step)
    ensures Steady(c, Apply(c, s, step))
  {
    var t := Apply(c, s, step);
    StepOk(c, s, step);
    FlagsStep(c, s, step);
    FinishedStep(c, s, step);
    UnspawnedStep(c, s, step);
    if t.active == 0 && CountedSessions(t) > 0 {
      WitnessStep(c, s, step);
    }
  }

  lemma {:induction false} RunIsSteady(c: Config, steps: seq<Step>)
    requires ValidConfig(c) && Run(c, steps)
    ensures Steady(c, After(c, steps))
    decreases |steps|
  {
    if steps == [] {
      InitSteady(c);
    } else {
      RunIsSteady(c, steps[..|steps| - 1]);
      SteadyStep(c, After(c, steps[..|steps| - 1]), steps[|steps| - 1]);
    }
  }

  lemma Extend(c: Config, steps: seq<Step>, step: Step, t: State)
    requires ValidConfig(c) && Run(c, steps) && Goes(c, After(c, steps), step, t)
    ensures Run(c, steps + [step]) && After(c, steps + [step]) == t
  {
    assert (steps + [step])[..|steps|] == steps;
  }

  /** The end of a run that begins with `steps`. */
  ghost predicate Continues(c: Config, steps: seq<Step>, t: State)
    requires ValidConfig(c)
  {
    exists longer :: Run(c, longer) && steps <= longer && After(c, longer) == t
  }

  lemma ContinuesOn(c: Config, steps: seq<Step>, s: State, step: Step, t: State)
    requires ValidConfig(c) && Continues(c, steps, s) && Goes(c, s, step, t)
    ensures Continues(c, steps, t)
  {
    var longer :| Run(c, longer) && steps <= longer && After(c, longer) == s;
    Extend(c, longer, step, t);
    assert steps <= longer + [step];
  }

  /** What can be reached from the end of a run is the end of a longer run. */
  lemma LongerRun(c: Config, steps: seq<Step>, t: State) returns (longer: seq<Step>)
    requires ValidConfig(c) && Run(c, steps) && Leads(Next(c), After(c, steps), t)
    ensures Run(c, longer) && steps <= longer && After(c, longer) == t
  {
    var inside := (u: State) => Continues(c, steps, u);
    forall u, v | inside(u) && Next(c)(u, v)
      ensures inside(v)
    {
      var step :| !Fails(step) && Goes(c, u, step, v);
      ContinuesOn(c, steps, u, step, v);
    }
    StaysInside(Next(c), inside, After(c, steps), t);
    longer :| Run(c, longer) && steps <= longer && After(c, longer) == t;
  }

  // ------------------------------------------------------------ the schedule

  /** Only the first `m` clients have moved. */
  predicate Only(c: Config, m: nat, s: State) {
    m <= |c.parts| == |s.clients| && forall x :: m <= x < |c.parts| ==> s.clients[x] == Client(Connecting, 0, false)
  }

  /** Of the first `m` connections, one has been accepted or still can be. */
  predicate SomeHope(m: nat, s: State)
    requires m <= |s.clients|
  {
    s.sessions != [] || exists x :: 0 <= x < m && !s.clients[x].pc.Unconnected?
  }

  /** The exit is due, or a counter that works will make it so. */
  predicate CanLeave(m: nat, s: State)
    requires m <= |s.clients|
  {
    !NoExitDue(s) || (!HasFailed(s) && SomeHope(m, s))
  }

  /** The schedule knows how to go on. */
  predicate Pending(c: Config, m: nat, s: State) {
    Steady(c, s) && Only(c, m, s) && CanLeave(m, s)
  }

  predicate ClientsDone(m: nat, s: State)
    requires m <= |s.clients|
  {
    m <= s.joined && forall x :: 0 <= x < m ==> Returned(s.clients[x].pc)
  }

  predicate AllAccepted(m: nat, s: State)
    requires m <= |s.clients|
  {
    forall x :: 0 <= x < m && HasConnected(s.clients[x]) ==> s.clients[x].accepted
  }

  /** The steps that the schedule takes. */
  predicate Useful(c: Config, m: nat, s: State, step: Step)
    requires m <= |s.clients|
  {
    match step
    case Connect(x) => x < m
    case Send(x, n) => x < m && 0 < n
    case Complete(x) => x < m
    case JoinClose => s.joined < m
    case Accept(x) => x < m
    case AcceptNone => s.command == Exit
    case Decrement(_) => ClientsDone(m, s) && AllAccepted(m, s) && s.main in {Polling, Accepting}
    case _ => !Fails(step)
  }

  lemma MainChoice(c: Config, m: nat, s: State) returns (step: Step)
    requires Pending(c, m, s) && s.main != Left
    requires s.main in {Appended, Counted, Started} || s.command == Exit
    ensures Enabled(c, s, step) && Useful(c, m, s, step)
  {
    step := match s.main
      case Appended => Count
      case Counted => Spawn
      case Started => Announce
      case Accepting => AcceptNone
      case _ => PollExit;
  }

  lemma ClientChoice(c: Config, m: nat, s: State) returns (step: Step)
    requires Pending(c, m, s) && !ClientsDone(m, s)
    ensures Enabled(c, s, step) && Useful(c, m, s, step)
  {
    if x :| 0 <= x < m && !Returned(s.clients[x].pc) {
      assert ClientOk(c, s, x);
      var cl := s.clients[x];
      step := if cl.pc.Connecting? then Connect(x)
              else if cl.sent < c.quota then Send(x, Request(c, cl.sent)) else Complete(x);
    } else {
      step := JoinClose;
    }
  }

  lemma AcceptChoice(c: Config, m: nat, s: State) returns (step: Step)
    requires Pending(c, m, s) && !AllAccepted(m, s) && s.main in {Polling, Accepting} && s.command == Continue
    ensures Enabled(c, s, step) && Useful(c, m, s, step)
  {
    var x :| 0 <= x < m && HasConnected(s.clients[x]) && !s.clients[x].accepted;
    step := if s.main == Polling then PollEvent else Accept(x);
  }

  predicate Resting(y: Session) {
    y.pc.Finished? || y.pc.Failed?
  }

  lemma WorkerChoice(c: Config, m: nat, s: State, k: nat) returns (step: Step)
    requires Pending(c, m, s) && ClientsDone(m, s) && AllAccepted(m, s) && s.main in {Polling, Accepting}
    requires k < |s.sessions| && !Resting(s.sessions[k])
    ensures Enabled(c, s, step) && Useful(c, m, s, step)
  {
    var y := s.sessions[k];
    assert SessionOk(c, s, y);
    assert y.conn < m;
    var n := |s.channels[y.conn]|;
    step := match y.pc
      case Spawned => Begin(k)
      case Receiving => if n == 0 then Eof(k) else Recv(k, if n < c.serverPack then n else c.serverPack)
      case Adding(_) => AddBytes(k)
      case AtEof => Disconnect(k)
      case Closed => Decrement(k)
      case _ => Finish(k);
  }

  /** With nobody left to move, the counter would be at zero with no one having sent the exit command. */
  lemma NobodyStuck(c: Config, m: nat, s: State)
    requires Pending(c, m, s) && AllAccepted(m, s) && s.main in {Polling, Accepting} && ClientsDone(m, s)
    requires forall k :: 0 <= k < |s.sessions| ==> Resting(s.sessions[k])
    ensures s.command == Exit
  {
    if NoExitDue(s) {
      if s.sessions == [] {
        var x :| 0 <= x < m && !s.clients[x].pc.Unconnected?;
        assert AcceptedFlags(s)[x] == 1;
        SumAtLeast(AcceptedFlags(s), x);
      }
      AllZero(LiveSessions(s), 0, |s.sessions|);
    }
  }

  /** The schedule: main thread out of the way, clients, accepts, workers. */
  lemma Choice(c: Config, m: nat, s: State) returns (step: Step)
    requires Pending(c, m, s) && s.main != Left
    ensures Enabled(c, s, step) && Useful(c, m, s, step)
  {
    if s.main in {Appended, Counted, Started} || s.command == Exit {
      step := MainChoice(c, m, s);
    } else if !ClientsDone(m, s) {
      step := ClientChoice(c, m, s);
    } else if !AllAccepted(m, s) {
      step := AcceptChoice(c, m, s);
    } else if k :| 0 <= k < |s.sessions| && !Resting(s.sessions[k]) {
      step := WorkerChoice(c, m, s, k);
    } else {
      NobodyStuck(c, m, s);
      assert false;
    }
  }

  // ------------------------------------------------------- it keeps its promises

  lemma HopeLasts(c: Config, m: nat, s: State, step: Step)
    requires ValidConfig(c) && Shape(c, s) && m <= |c.parts| && Enabled(c, s, step) && !Fails(step)
    ensures SomeHope(m, s) ==> SomeHope(m, Apply(c, s, step))
  {
    var t := Apply(c, s, step);
    if s.sessions == [] && SomeHope(m, s) {
      var x :| 0 <= x < m && !s.clients[x].pc.Unconnected?;
      assert !t.clients[x].pc.Unconnected?;
    }
  }

  lemma NoNewFailure(c: Config, s: State, step: Step)
    requires ValidConfig(c) && Shape(c, s) && Enabled(c, s, step) && !Fails(step)
    ensures HasFailed(Apply(c, s, step)) ==> HasFailed(s)
  {
    var t := Apply(c, s, step);
    if k :| 0 <= k < |t.sessions| && t.sessions[k].pc.Failed? {
      assert s.sessions[k].pc.Failed?;
    }
  }

  lemma DueLasts(c: Config, s: State, step: Step)
    requires ValidConfig(c) && Shape(c, s) && MainOk(s) && Enabled(c, s, step)
    ensures NoExitDue(Apply(c, s, step)) ==> NoExitDue(s)
  {
    var t := Apply(c, s, step);
    if NoExitDue(t) {
      forall k | 0 <= k < |s.sessions|
        ensures s.sessions[k].pc != Decremented(true)
      {
        assert t.sessions[k].pc != Decremented(true);
      }
    }
  }

  lemma OnlyLasts(c: Config, m: nat, s: State, step: Step)
    requires ValidConfig(c) && Shape(c, s) && Only(c, m, s) && Enabled(c, s, step) && Useful(c, m, s, step)
    ensures Only(c, m, Apply(c, s, step))
  {
  }

  lemma PendingStep(c: Config, m: nat, s: State, step: Step)
    requires Pending(c, m, s) && Enabled(c, s, step) && Useful(c, m, s, step)
    ensures Pending(c, m, Apply(c, s, step))
  {
    SteadyStep(c, s, step);
    OnlyLasts(c, m, s, step);
    HopeLasts(c, m, s, step);
    NoNewFailure(c, s, step);
    DueLasts(c, s, step);
  }

  // ------------------------------------------------------------- and it ends

  function ClientWork(c: Config, cl: Client): nat {
    match cl.pc
    case Connecting => c.quota + 2
    case Sending => if cl.sent <= c.quota then c.quota - cl.sent + 1 else 0
    case _ => 0
  }

  /** What is left for one worker, which will receive at most `quota` bytes one by one. */
  function WorkerWork(c: Config, y: Session): nat {
    var bytes := if |y.received| <= c.quota then c.quota - |y.received| else 0;
    match y.pc
    case Unspawned => 2 * c.quota + 9
    case Spawned => 2 * c.quota + 8
    case Receiving => 2 * bytes + 6
    case Adding(_) => 2 * bytes + 7
    case AtEof => 5
    case Closed => 4
    case Decremented(_) => 3
    case _ => 0
  }

  function MainWork(s: State): nat {
    match s.main
    case Appended => 5
    case Counted => 4
    case Started => 3
    case Polling => if s.command == Exit then 1 else 2
    case Accepting => if s.command == Exit then 2 else 1
    case Left => 0
  }

  function ClientsWork(c: Config, s: State): seq<nat> {
    seq(|s.clients|, x requires 0 <= x < |s.clients| => ClientWork(c, s.clients[x]))
  }

  function WorkersWork(c: Config, s: State): seq<nat> {
    seq(|s.sessions|, k requires 0 <= k < |s.sessions| => WorkerWork(c, s.sessions[k]))
  }

  /** Clients, accepts, workers, main thread: what is left to do, in the order of the schedule. */
  datatype Work = Work(clients: nat, accepts: nat, workers: nat, main: nat)

  function WorkLeft(c: Config, s: State): Work {
    Work(Sum(ClientsWork(c, s)) + Gap(s.joined, |c.parts|), Gap(|s.sessions|, |c.parts|), Sum(WorkersWork(c, s)),
         MainWork(s))
  }

  predicate Less(a: Work, b: Work) {
    a.clients < b.clients ||
    (a.clients == b.clients && (a.accepts < b.accepts ||
      (a.accepts == b.accepts && (a.workers < b.workers || (a.workers == b.workers && a.main < b.main)))))
  }

  lemma ClientStepLowers(c: Config, m: nat, s: State, step: Step)
    requires Pending(c, m, s) && Enabled(c, s, step) && Useful(c, m, s, step)
    requires step.Connect? || step.Send? || step.Complete?
    ensures Sum(ClientsWork(c, Apply(c, s, step))) < Sum(ClientsWork(c, s))
  {
    var t := Apply(c, s, step);
    var x := step.x;
    assert ClientOk(c, s, x);
    assert ClientsWork(c, t) == ClientsWork(c, s)[x := ClientWork(c, t.clients[x])];
    SumUpdate(ClientsWork(c, s), x, ClientWork(c, t.clients[x]));
  }

  lemma OthersKeepClients(c: Config, s: State, step: Step)
    requires ValidConfig(c) && Shape(c, s) && Enabled(c, s, step) && !Fails(step)
    requires !step.Connect? && !step.Send? && !step.Complete?
    ensures ClientsWork(c, Apply(c, s, step)) == ClientsWork(c, s)
  {
  }

  predicate OfWorker(step: Step) {
    step.Begin? || step.Recv? || step.AddBytes? || step.Eof? || step.Disconnect? || step.Decrement? || step.Finish?
  }

  lemma ReceivedFits(c: Config, s: State, k: nat)
    requires ValidConfig(c) && Inv(c, s) && k < |s.sessions|
    ensures |s.sessions[k].received| <= c.quota
  {
    assert SessionOk(c, s, s.sessions[k]);
  }

  lemma ReplaceWork(c: Config, s: State, t: State, k: nat)
    requires k < |s.sessions| == |t.sessions| && t.sessions == s.sessions[k := t.sessions[k]]
    requires WorkerWork(c, t.sessions[k]) < WorkerWork(c, s.sessions[k])
    ensures Sum(WorkersWork(c, t)) < Sum(WorkersWork(c, s))
  {
    assert WorkersWork(c, t) == WorkersWork(c, s)[k := WorkerWork(c, t.sessions[k])];
    SumUpdate(WorkersWork(c, s), k, WorkerWork(c, t.sessions[k]));
  }

  lemma OneWorkerMoves(c: Config, s: State, step: Step)
    requires ValidConfig(c) && Shape(c, s) && Enabled(c, s, step) && OfWorker(step)
    requires
      var k := step.k;
      && |Apply(c, s, step).sessions[k].received| <= c.quota
      && (s.sessions[k].pc.Spawned? ==> s.sessions[k].received == [])
    ensures
      var t := Apply(c, s, step);
      && t.sessions == s.sessions[step.k := t.sessions[step.k]]
      && WorkerWork(c, t.sessions[step.k]) < WorkerWork(c, s.sessions[step.k])
  {
  }

  lemma WorkerStepLowers(c: Config, s: State, step: Step)
    requires Steady(c, s) && Enabled(c, s, step) && OfWorker(step)
    ensures Sum(WorkersWork(c, Apply(c, s, step))) < Sum(WorkersWork(c, s))
  {
    SteadyStep(c, s, step);
    ReceivedFits(c, Apply(c, s, step), step.k);
    assert SessionOk(c, s, s.sessions[step.k]);
    OneWorkerMoves(c, s, step);
    ReplaceWork(c, s, Apply(c, s, step), step.k);
  }

  lemma SpawnLowers(c: Config, s: State)
    requires Steady(c, s) && Enabled(c, s, Spawn)
    ensures Sum(WorkersWork(c, Apply(c, s, Spawn))) < Sum(WorkersWork(c, s))
  {
    ReplaceWork(c, s, Apply(c, s, Spawn), |s.sessions| - 1);
  }

  lemma MainStepLowers(c: Config, m: nat, s: State, step: Step)
    requires ValidConfig(c) && Shape(c, s) && m <= |c.parts| && Enabled(c, s, step) && Useful(c, m, s, step)
    requires step.Count? || step.Announce? || step.PollEvent? || step.PollExit? || step.AcceptNone?
    ensures WorkersWork(c, Apply(c, s, step)) == WorkersWork(c, s)
    ensures MainWork(Apply(c, s, step)) < MainWork(s)
  {
  }

  lemma UsefulLowers(c: Config, m: nat, s: State, step: Step)
    requires Pending(c, m, s) && Enabled(c, s, step) && Useful(c, m, s, step)
    requires |Apply(c, s, step).sessions| <= |c.parts|
    ensures Less(WorkLeft(c, Apply(c, s, step)), WorkLeft(c, s))
  {
    if step.Connect? || step.Send? || step.Complete? {
      ClientStepLowers(c, m, s, step);
    } else {
      OthersKeepClients(c, s, step);
      if OfWorker(step) {
        WorkerStepLowers(c, s, step);
      } else if step.Spawn? {
        SpawnLowers(c, s);
      } else if !step.JoinClose? && !step.Accept? {
        MainStepLowers(c, m, s, step);
      }
    }
  }

  // -------------------------------------------------------- what it delivers

  /** Nothing has gone wrong, and the counter has not returned to zero before it should. */
  predicate OnTime(c: Config, m: nat, s: State) {
    Untroubled(s) && (NoExitDue(s) || Got(c, m, s))
  }

  lemma AcceptedCount(c: Config, m: nat, s: State)
    requires Steady(c, s) && Only(c, m, s) && Untroubled(s) && ClientsDone(m, s) && AllAccepted(m, s)
    ensures |s.sessions| == m
  {
    var flags := AcceptedFlags(s);
    AllZero(flags, m, |flags|);
    SumToCapped(flags, 1, m);
  }

  lemma ZeroGot(c: Config, m: nat, s: State)
    requires Steady(c, s) && Only(c, m, s) && Untroubled(s) && ClientsDone(m, s) && AllAccepted(m, s)
    requires c.transport.Tcp? && s.active == 0 && s.main != Appended
    ensures Got(c, m, s)
  {
    AcceptedCount(c, m, s);
    forall k | 0 <= k < |s.sessions|
      ensures PastEof(s.sessions[k].pc) && s.sessions[k].received == c.parts[s.sessions[k].conn]
      ensures s.sessions[k].total == c.quota
    {
      assert SessionOk(c, s, s.sessions[k]);
      if Live(s.sessions[k]) == 1 {
        LiveKeepsCounter(c, s, k);
      }
      DrainedWorker(c, s, k);
    }
  }

  lemma UntroubledLasts(c: Config, s: State, step: Step)
    requires ValidConfig(c) && Shape(c, s) && Enabled(c, s, step) && !Fails(step) && Untroubled(s)
    ensures Untroubled(Apply(c, s, step))
  {
  }

  /** At most the wanted connections are ever accepted. */
  lemma FewSessions(c: Config, m: nat, s: State)
    requires Steady(c, s) && Only(c, m, s)
    ensures |s.sessions| <= m
  {
    var flags := AcceptedFlags(s);
    AllZero(flags, m, |flags|);
    SumToCapped(flags, 1, m);
  }

  lemma GotLasts(c: Config, m: nat, s: State, step: Step)
    requires Pending(c, m, s) && Enabled(c, s, step) && Useful(c, m, s, step) && Got(c, m, s)
    ensures Got(c, m, Apply(c, s, step))
  {
    var t := Apply(c, s, step);
    PendingStep(c, m, s, step);
    FewSessions(c, m, t);
    SessionsLast(c, s, step);
    forall k | 0 <= k < |s.sessions|
      ensures SameSlice(s.sessions[k], t.sessions[k])
    {
      PastEofLasts(c, s, step, k);
    }
  }

  lemma NoExitLastsUnlessDecrement(c: Config, s: State, step: Step)
    requires ValidConfig(c) && Shape(c, s) && Enabled(c, s, step) && NoExitDue(s) && !step.Decrement?
    ensures NoExitDue(Apply(c, s, step))
  {
  }

  lemma DecrementOnTime(c: Config, m: nat, s: State, k: nat)
    requires Pending(c, m, s) && Enabled(c, s, Decrement(k)) && Useful(c, m, s, Decrement(k)) && c.transport.Tcp?
    requires Untroubled(s) && NoExitDue(s)
    ensures NoExitDue(Apply(c, s, Decrement(k))) || Got(c, m, Apply(c, s, Decrement(k)))
  {
    var t := Apply(c, s, Decrement(k));
    if t.active != 0 {
      NoExitLasts(c, s, Decrement(k));
    } else {
      PendingStep(c, m, s, Decrement(k));
      UntroubledLasts(c, s, Decrement(k));
      ZeroGot(c, m, t);
    }
  }

  lemma OnTimeStep(c: Config, m: nat, s: State, step: Step)
    requires Pending(c, m, s) && Enabled(c, s, step) && Useful(c, m, s, step) && c.transport.Tcp?
    requires OnTime(c, m, s)
    ensures OnTime(c, m, Apply(c, s, step))
  {
    UntroubledLasts(c, s, step);
    if Got(c, m, s) {
      GotLasts(c, m, s, step);
    } else if step.Decrement? {
      DecrementOnTime(c, m, s, step.k);
    } else {
      NoExitLastsUnlessDecrement(c, s, step);
    }
  }

  /** One step of the schedule. */
  lemma Advance(c: Config, m: nat, s: State) returns (t: State)
    requires Pending(c, m, s) && s.main != Left
    ensures Next(c)(s, t) && Pending(c, m, t) && Less(WorkLeft(c, t), WorkLeft(c, s))
    ensures c.transport.Tcp? && OnTime(c, m, s) ==> OnTime(c, m, t)
  {
    var step := Choice(c, m, s);
    t := Apply(c, s, step);
    PendingStep(c, m, s, step);
    FewSessions(c, m, t);
    UsefulLowers(c, m, s, step);
    if c.transport.Tcp? && OnTime(c, m, s) {
      OnTimeStep(c, m, s, step);
    }
    assert !Fails(step) && Goes(c, s, step, t);
  }

  /**
   From every state in which it can leave, the server does leave: without any further error, and over TCP, if nothing has
   gone wrong and no counter has returned to zero yet, with each of the first `m` slices.
   */
  lemma {:induction false} FinishFirst(c: Config, m: nat, s: State) returns (t: State)
    requires Pending(c, m, s)
    ensures Leads(Next(c), s, t) && Steady(c, t) && t.main == Left
    ensures c.transport.Tcp? && OnTime(c, m, s) ==> Untroubled(t) && Got(c, m, t)
    decreases WorkLeft(c, s).clients, WorkLeft(c, s).accepts, WorkLeft(c, s).workers, WorkLeft(c, s).main
  {
    if s.main == Left {
      t := s;
      Stay(Next(c), s);
    } else {
      var u := Advance(c, m, s);
      t := FinishFirst(c, m, u);
      StepThen(Next(c), s, u, t);
    }
  }

  // ---------------------------------------------------- leaving at once

  predicate Exiting(step: Step) {
    step.Finish? || step.Count? || step.Spawn? || step.Announce? || step.AcceptNone? || step.PollExit?
  }

  lemma ExitingKeepsTotals(c: Config, s: State, step: Step)
    requires ValidConfig(c) && Shape(c, s) && Enabled(c, s, step) && Exiting(step)
    ensures Totals(Apply(c, s, step)) == Totals(s)
  {
  }

  lemma ExitChoice(c: Config, s: State) returns (step: Step)
    requires Steady(c, s) && s.main != Left && s.command == Exit
    ensures Enabled(c, s, step) && Exiting(step)
    ensures MainWork(Apply(c, s, step)) < MainWork(s) && Apply(c, s, step).command == Exit
  {
    step := match s.main
      case Appended => Count
      case Counted => Spawn
      case Started => Announce
      case Accepting => AcceptNone
      case _ => PollExit;
  }

  lemma {:induction false} ExitSoon(c: Config, s: State) returns (t: State)
    requires Steady(c, s) && (s.command == Exit || s.main == Left)
    ensures Leads(Next(c), s, t) && t.main == Left && Totals(t) == Totals(s)
    decreases MainWork(s)
  {
    if s.main == Left {
      t := s;
      Stay(Next(c), s);
    } else {
      var step := ExitChoice(c, s);
      var u := Apply(c, s, step);
      SteadyStep(c, s, step);
      ExitingKeepsTotals(c, s, step);
      t := ExitSoon(c, u);
      assert !Fails(step) && Goes(c, s, step, u);
      StepThen(Next(c), s, u, t);
    }
  }

  /** Once the exit is due, the server can leave without counting another byte. */
  lemma LeaveNow(c: Config, s: State) returns (t: State)
    requires Steady(c, s) && !NoExitDue(s)
    ensures Leads(Next(c), s, t) && t.main == Left && Totals(t) == Totals(s)
  {
    if s.command == Exit || s.main == Left {
      t := ExitSoon(c, s);
    } else {
      var k :| 0 <= k < |s.sessions| && s.sessions[k].pc == Decremented(true);
      var u := Apply(c, s, Finish(k));
      SteadyStep(c, s, Finish(k));
      ExitingKeepsTotals(c, s, Finish(k));
      t := ExitSoon(c, u);
      assert !Fails(Finish(k)) && Goes(c, s, Finish(k), u);
      StepThen(Next(c), s, u, t);
    }
  }
}
