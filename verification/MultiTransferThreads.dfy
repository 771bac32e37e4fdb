/** What the threads of a multi-connection transfer do, each in the order of its function, and what that leaves behind. */
module MultiTransferThreads {
  import opened MultiTransfer
  import opened MultiTransferInvariant
  import opened MultiTransferResults
  import opened MultiTransferProgress

  datatype Option<T> = None | Some(value: T)

  /** The thread of one connection of the client, its main thread, the server's main thread, and one worker. */
  datatype Thread = ClientThread(x: nat) | JoinThread | MainThread | WorkerThread(k: nat)

  function ThreadOf(step: Step): Thread {
    match step
    case Connect(x) => ClientThread(x)
    case ConnectFail(x) => ClientThread(x)
    case Send(x, _) => ClientThread(x)
    case SendFail(x) => ClientThread(x)
    case Complete(x) => ClientThread(x)
    case JoinClose => JoinThread
    case Begin(k) => WorkerThread(k)
    case Recv(k, _) => WorkerThread(k)
    case AddBytes(k) => WorkerThread(k)
    case Eof(k) => WorkerThread(k)
    case RecvFail(k) => WorkerThread(k)
    case Disconnect(k) => WorkerThread(k)
    case Decrement(k) => WorkerThread(k)
    case Finish(k) => WorkerThread(k)
    case _ => MainThread
  }

  /** The latest step of a thread. */
  function LatestOf(steps: seq<Step>, th: Thread): Option<Step> {
    if steps == [] then None
    else Latest(LatestOf(steps[..|steps| - 1], th), steps[|steps| - 1], th)
  }

  function Latest(before: Option<Step>, step: Step, th: Thread): Option<Step> {
    if ThreadOf(step) == th then Some(step) else before
  }

  /** The order of the statements in tb_stream_connection, in tb_stream_m_server_conn, and in the server's main thread. */
  predicate MayFollow(before: Option<Step>, step: Step) {
    match step
    case Connect(_) => before.None?
    case ConnectFail(_) => before.None?
    case Send(_, _) => before.Some? && (before.value.Connect? || before.value.Send?)
    case SendFail(_) => before.Some? && (before.value.Connect? || before.value.Send?)
    case Complete(_) => before.Some? && (before.value.Connect? || before.value.Send?)
    case JoinClose => true
    case PollEvent => before.None? || before.value.AcceptNone?
    case PollExit => before.None? || before.value.AcceptNone?
    case Accept(_) => before.Some? && (before.value.PollEvent? || before.value.Announce?)
    case AcceptNone => before.Some? && (before.value.PollEvent? || before.value.Announce?)
    case Count => before.Some? && before.value.Accept?
    case Spawn => before.Some? && before.value.Count?
    case Announce => before.Some? && before.value.Spawn?
    case Begin(_) => before.None?
    case Recv(_, _) => before.Some? && (before.value.Begin? || before.value.AddBytes?)
    case Eof(_) => before.Some? && (before.value.Begin? || before.value.AddBytes?)
    case RecvFail(_) => before.Some? && (before.value.Begin? || before.value.AddBytes?)
    case AddBytes(_) => before.Some? && before.value.Recv?
    case Disconnect(_) => before.Some? && before.value.Eof?
    case Decrement(_) => before.Some? && before.value.Disconnect?
    case Finish(_) => before.Some? && before.value.Decrement?
  }

  // ------------------------------------------------------ where a thread then is

  predicate ClientAt(pc: ClientPc, latest: Option<Step>) {
    match latest
    case None => pc == Connecting
    case Some(step) =>
      match step
      case Connect(_) => pc == Sending
      case ConnectFail(_) => pc == Unconnected
      case Send(_, _) => pc == Sending
      case SendFail(_) => pc == Errored
      case Complete(_) => pc == Completed
      case _ => false
  }

  predicate MainAt(pc: MainPc, latest: Option<Step>) {
    match latest
    case None => pc == Polling
    case Some(step) =>
      match step
      case PollEvent => pc == Accepting
      case PollExit => pc == Left
      case Accept(_) => pc == Appended
      case AcceptNone => pc == Polling
      case Count => pc == Counted
      case Spawn => pc == Started
      case Announce => pc == Accepting
      case _ => false
  }

  predicate WorkerAt(pc: WorkerPc, latest: Option<Step>) {
    match latest
    case None => pc.Unspawned? || pc.Spawned?
    case Some(step) =>
      match step
      case Begin(_) => pc == Receiving
      case Recv(_, n) => pc == Adding(n)
      case AddBytes(_) => pc == Receiving
      case Eof(_) => pc == AtEof
      case RecvFail(_) => pc == Failed
      case Disconnect(_) => pc == Closed
      case Decrement(_) => pc.Decremented?
      case Finish(_) => pc.Finished?
      case _ => false
  }

  lemma ClientMoves(c: Config, s: State, step: Step, x: nat, latest: Option<Step>)
    requires ValidConfig(c) && Shape(c, s) && Enabled(c, s, step) && x < |c.parts| && ClientAt(s.clients[x].pc, latest)
    ensures ClientAt(Apply(c, s, step).clients[x].pc, Latest(latest, step, ClientThread(x)))
    ensures ThreadOf(step) == ClientThread(x) ==> MayFollow(latest, step)
  {
  }

  lemma MainMoves(c: Config, s: State, step: Step, latest: Option<Step>)
    requires ValidConfig(c) && Shape(c, s) && Enabled(c, s, step) && MainAt(s.main, latest)
    ensures MainAt(Apply(c, s, step).main, Latest(latest, step, MainThread))
    ensures ThreadOf(step) == MainThread ==> MayFollow(latest, step)
  {
  }

  predicate LastUnspawned(s: State) {
    s.main == Counted ==> s.sessions != [] && s.sessions[|s.sessions| - 1].pc.Unspawned?
  }

  lemma RunsSpawnLast(c: Config, steps: seq<Step>)
    requires ValidConfig(c) && Run(c, steps)
    ensures LastUnspawned(After(c, steps))
  {
    InvariantHolds(c, steps);
    SpawnsLast(c, After(c, steps));
  }

  lemma SpawnsLast(c: Config, s: State)
    requires ValidConfig(c) && Inv(c, s)
    ensures LastUnspawned(s)
  {
  }

  lemma WorkerMoves(c: Config, s: State, step: Step, k: nat, latest: Option<Step>)
    requires ValidConfig(c) && Shape(c, s) && Enabled(c, s, step) && k < |s.sessions|
    requires WorkerAt(s.sessions[k].pc, latest)
    requires LastUnspawned(s)
    ensures k < |Apply(c, s, step).sessions|
    ensures WorkerAt(Apply(c, s, step).sessions[k].pc, Latest(latest, step, WorkerThread(k)))
    ensures ThreadOf(step) == WorkerThread(k) ==> MayFollow(latest, step)
  {
  }

  lemma NewWorker(c: Config, s: State, step: Step, k: nat)
    requires ValidConfig(c) && Shape(c, s) && Enabled(c, s, step) && |s.sessions| <= k
    ensures ThreadOf(step) != WorkerThread(k)
    ensures k < |Apply(c, s, step).sessions| ==> Apply(c, s, step).sessions[k].pc.Unspawned?
  {
  }

  lemma {:induction false} ClientsWhere(c: Config, steps: seq<Step>, x: nat)
    requires ValidConfig(c) && Run(c, steps) && x < |c.parts|
    ensures ClientAt(After(c, steps).clients[x].pc, LatestOf(steps, ClientThread(x)))
    decreases |steps|
  {
    if steps != [] {
      var front := steps[..|steps| - 1];
      ClientsWhere(c, front, x);
      ClientMoves(c, After(c, front), steps[|steps| - 1], x, LatestOf(front, ClientThread(x)));
    }
  }

  lemma {:induction false} MainWhere(c: Config, steps: seq<Step>)
    requires ValidConfig(c) && Run(c, steps)
    ensures MainAt(After(c, steps).main, LatestOf(steps, MainThread))
    decreases |steps|
  {
    if steps != [] {
      var front := steps[..|steps| - 1];
      MainWhere(c, front);
      MainMoves(c, After(c, front), steps[|steps| - 1], LatestOf(front, MainThread));
    }
  }

  lemma {:induction false} WorkersWhere(c: Config, steps: seq<Step>, k: nat)
    requires ValidConfig(c) && Run(c, steps)
    ensures k < |After(c, steps).sessions| ==> WorkerAt(After(c, steps).sessions[k].pc, LatestOf(steps, WorkerThread(k)))
    ensures |After(c, steps).sessions| <= k ==> LatestOf(steps, WorkerThread(k)).None?
    decreases |steps|
  {
    if steps != [] {
      var front := steps[..|steps| - 1];
      var s := After(c, front);
      WorkersWhere(c, front, k);
      if k < |s.sessions| {
        RunsSpawnLast(c, front);
        WorkerMoves(c, s, steps[|steps| - 1], k, LatestOf(front, WorkerThread(k)));
      } else {
        NewWorker(c, s, steps[|steps| - 1], k);
      }
    }
  }

  /** In every run, under every interleaving, each thread takes its steps in the order of its function. */
  lemma ProgramOrder(c: Config, steps: seq<Step>)
    requires ValidConfig(c) && Run(c, steps) && steps != []
    ensures
      var last := steps[|steps| - 1];
      MayFollow(LatestOf(steps[..|steps| - 1], ThreadOf(last)), last)
  {
    var front, last := steps[..|steps| - 1], steps[|steps| - 1];
    var s := After(c, front);
    match ThreadOf(last)
    case ClientThread(x) =>
      ClientsWhere(c, front, x);
      ClientMoves(c, s, last, x, LatestOf(front, ClientThread(x)));
    case JoinThread =>
    case MainThread =>
      MainWhere(c, front);
      MainMoves(c, s, last, LatestOf(front, MainThread));
    case WorkerThread(k) =>
      WorkersWhere(c, front, k);
      RunsSpawnLast(c, front);
      WorkerMoves(c, s, last, k, LatestOf(front, WorkerThread(k)));
  }

  // ------------------------------------------------------- what it leaves behind

  /** The server's status, told by the steps taken. */
  predicate StatusIs(s: State, announced: bool) {
    s.status == if s.main == Left then Disconnected else if announced then Connected else Listening
  }

  lemma StatusStep(c: Config, s: State, step: Step, announced: bool)
    requires ValidConfig(c) && Shape(c, s) && Enabled(c, s, step) && StatusIs(s, announced)
    ensures StatusIs(Apply(c, s, step), announced || step.Announce?)
  {
  }

  /**
   After every run the server is disconnected if it has left its loop, and otherwise connected if a first session has been
   announced and still listening if not.
   */
  lemma {:induction false} StatusMeans(c: Config, steps: seq<Step>)
    requires ValidConfig(c) && Run(c, steps)
    ensures StatusIs(After(c, steps), Announce in steps)
    ensures After(c, steps).main == Left <==> PollExit in steps
    decreases |steps|
  {
    if steps != [] {
      var front, last := steps[..|steps| - 1], steps[|steps| - 1];
      StatusMeans(c, front);
      StatusStep(c, After(c, front), last, Announce in front);
      LeftStep(c, After(c, front), last);
      assert forall x :: x in steps <==> x in front || x == last;
      assert PollExit in steps <==> PollExit in front || last == PollExit;
      assert Announce in steps <==> Announce in front || last == Announce;
    }
  }

  lemma LeftStep(c: Config, s: State, step: Step)
    requires ValidConfig(c) && Shape(c, s) && Enabled(c, s, step)
    ensures Apply(c, s, step).main == Left <==> s.main == Left || step.PollExit?
  {
  }

  lemma TroubleStep(c: Config, s: State, step: Step)
    requires ValidConfig(c) && Shape(c, s) && Enabled(c, s, step)
    requires LastUnspawned(s)
    ensures Untroubled(Apply(c, s, step)) ==> Untroubled(s) && !Fails(step)
  {
    var t := Apply(c, s, step);
    match step {
      case ConnectFail(x) => assert t.clients[x].pc == Unconnected;
      case SendFail(x) => assert t.clients[x].pc == Errored;
      case RecvFail(k) => assert t.sessions[k].pc.Failed?;
      case _ =>
    }
    if Untroubled(t) {
      forall x | 0 <= x < |s.clients|
        ensures s.clients[x].pc != Errored && s.clients[x].pc != Unconnected
      {
        assert t.clients[x].pc != Errored && t.clients[x].pc != Unconnected;
      }
      forall k | 0 <= k < |s.sessions|
        ensures !s.sessions[k].pc.Failed?
      {
        assert !t.sessions[k].pc.Failed?;
      }
    }
  }

  lemma TroubleIff(c: Config, s: State, step: Step)
    requires ValidConfig(c) && Shape(c, s) && Enabled(c, s, step) && LastUnspawned(s)
    ensures Untroubled(Apply(c, s, step)) <==> Untroubled(s) && !Fails(step)
  {
    TroubleStep(c, s, step);
    if Untroubled(s) && !Fails(step) {
      UntroubledLasts(c, s, step);
    }
  }

  predicate NothingFailed(steps: seq<Step>) {
    forall i :: 0 <= i < |steps| ==> !steps[i].ConnectFail? && !steps[i].SendFail? && !steps[i].RecvFail?
  }

  lemma NothingFailedNext(front: seq<Step>, steps: seq<Step>)
    requires steps != [] && front == steps[..|steps| - 1]
    ensures NothingFailed(steps) <==> NothingFailed(front) && !Fails(steps[|steps| - 1])
  {
    assert forall i :: 0 <= i < |front| ==> front[i] == steps[i];
  }

  /** A transfer is untroubled exactly as long as no connect, no send and no recv has failed. */
  lemma {:induction false} UntroubledIff(c: Config, steps: seq<Step>)
    requires ValidConfig(c) && Run(c, steps)
    ensures Untroubled(After(c, steps)) <==> NothingFailed(steps)
    decreases |steps|
  {
    if steps != [] {
      var front := steps[..|steps| - 1];
      UntroubledIff(c, front);
      RunsSpawnLast(c, front);
      TroubleIff(c, After(c, front), steps[|steps| - 1]);
      NothingFailedNext(front, steps);
    }
  }
}
