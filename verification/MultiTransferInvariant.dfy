/** The invariant of MultiTransfer holds in every state of every run. */
module MultiTransferInvariant {
  import opened Sums
  import opened Slices
  import opened MultiTransfer

  lemma ReplaceLive(s: State, t: State, k: nat, y: Session)
    requires k < |s.sessions| && t.sessions == s.sessions[k := y]
    ensures Sum(LiveSessions(t)) == Sum(LiveSessions(s)) - Live(s.sessions[k]) + Live(y)
  {
    assert LiveSessions(t) == LiveSessions(s)[k := Live(y)];
    SumUpdate(LiveSessions(s), k, Live(y));
  }

  lemma InitOk(c: Config)
    requires ValidConfig(c)
    ensures Inv(c, Init(c))
  {
  }

  /** The session at the other end of a channel that just got `sentNow` is still in order. */
  lemma PeerOk(c: Config, s: State, t: State, x: nat, sentNow: seq<byte>, y: Session)
    requires ValidConfig(c) && Shape(c, s) && Shape(c, t) && x < |c.parts| && y.conn < |c.parts| && SessionOk(c, s, y)
    requires t.channels == s.channels[x := s.channels[x] + sentNow] && t.joined == s.joined <= x
    requires forall i :: 0 <= i < |c.parts| && i != x ==> t.clients[i] == s.clients[i]
    requires s.clients[x].sent <= t.clients[x].sent <= c.quota && t.clients[x].accepted == s.clients[x].accepted
    requires sentNow == c.parts[x][s.clients[x].sent..t.clients[x].sent]
    ensures SessionOk(c, t, y)
  {
    if y.conn == x {
      assert y.received + t.channels[x] == (y.received + s.channels[x]) + sentNow;
      assert c.parts[x][..s.clients[x].sent] + sentNow == c.parts[x][..t.clients[x].sent];
    }
  }

  lemma MoverOk(c: Config, s: State, t: State, x: nat, sentNow: seq<byte>)
    requires ValidConfig(c) && Shape(c, s) && Shape(c, t) && x < |c.parts| && ClientOk(c, s, x)
    requires t.channels[x] == s.channels[x] + sentNow && t.joined == s.joined <= x
    requires s.clients[x].sent <= t.clients[x].sent <= c.quota && t.clients[x].accepted == s.clients[x].accepted
    requires sentNow == c.parts[x][s.clients[x].sent..t.clients[x].sent]
    requires t.clients[x].pc == Completed ==> t.clients[x].sent == c.quota
    requires !HasConnected(t.clients[x]) ==> t.clients[x].sent == 0 && !t.clients[x].accepted
    ensures ClientOk(c, t, x)
  {
    assert c.parts[x][..s.clients[x].sent] + sentNow == c.parts[x][..t.clients[x].sent];
  }

  /** A client thread moves on, having put the next bytes of its slice (perhaps none) into its channel. */
  lemma ClientMoves(c: Config, s: State, t: State, x: nat, cl: Client, sentNow: seq<byte>)
    requires ValidConfig(c) && Inv(c, s) && x < |c.parts|
    requires t == s.(clients := s.clients[x := cl], channels := s.channels[x := s.channels[x] + sentNow])
    requires s.clients[x].sent <= cl.sent <= c.quota && sentNow == c.parts[x][s.clients[x].sent..cl.sent]
    requires s.joined <= x && !cl.pc.Connecting? && cl.accepted == s.clients[x].accepted
    requires cl.pc.Unconnected? ==> cl.sent == 0 && !cl.accepted
    requires cl.pc == Completed ==> cl.sent == c.quota
    ensures Inv(c, t)
  {
    assert LiveSessions(t) == LiveSessions(s);
    forall i | 0 <= i < |c.parts|
      ensures ClientOk(c, t, i)
    {
      assert ClientOk(c, s, i);
      if i == x {
        MoverOk(c, s, t, x, sentNow);
      }
    }
    forall k | 0 <= k < |t.sessions|
      ensures SessionOk(c, t, t.sessions[k])
    {
      assert SessionOk(c, s, s.sessions[k]);
      PeerOk(c, s, t, x, sentNow, t.sessions[k]);
    }
  }

  /** Only the thread that joins, or the server's main thread, has moved. */
  lemma DataUntouched(c: Config, s: State, t: State)
    requires ValidConfig(c) && Inv(c, s) && Shape(c, t)
    requires t.clients == s.clients && t.channels == s.channels && t.sessions == s.sessions
    requires s.joined <= t.joined
    requires forall x :: s.joined <= x < t.joined ==> Returned(s.clients[x].pc)
    ensures forall x :: 0 <= x < |c.parts| ==> ClientOk(c, t, x)
    ensures forall k :: 0 <= k < |t.sessions| ==> SessionOk(c, t, t.sessions[k])
    ensures ConnsDistinct(t) && Sum(LiveSessions(t)) == Sum(LiveSessions(s))
  {
    assert LiveSessions(t) == LiveSessions(s);
    forall x | 0 <= x < |c.parts|
      ensures ClientOk(c, t, x)
    {
      assert ClientOk(c, s, x);
    }
    forall k | 0 <= k < |t.sessions|
      ensures SessionOk(c, t, t.sessions[k])
    {
      assert SessionOk(c, s, s.sessions[k]);
    }
  }

  lemma JoinCloseOk(c: Config, s: State)
    requires ValidConfig(c) && Inv(c, s) && Enabled(c, s, JoinClose)
    ensures Inv(c, Apply(c, s, JoinClose))
  {
    DataUntouched(c, s, Apply(c, s, JoinClose));
  }

  lemma ClientStepOk(c: Config, s: State, step: Step)
    requires ValidConfig(c) && Inv(c, s) && Enabled(c, s, step)
    requires step.Connect? || step.ConnectFail? || step.Send? || step.SendFail? || step.Complete?
    ensures Inv(c, Apply(c, s, step))
  {
    var t := Apply(c, s, step);
    var x := step.x;
    assert ClientOk(c, s, x);
    var cl := t.clients[x];
    var sentNow := c.parts[x][s.clients[x].sent..cl.sent];
    assert s.channels[x] + [] == s.channels[x];
    assert !step.Send? ==> sentNow == [];
    assert t.clients == s.clients[x := cl] && t.channels == s.channels[x := s.channels[x] + sentNow];
    ClientMoves(c, s, t, x, cl, sentNow);
  }

  lemma AcceptedData(c: Config, s: State, t: State, x: nat)
    requires ValidConfig(c) && Inv(c, s) && Enabled(c, s, Accept(x)) && t == Apply(c, s, Accept(x))
    ensures forall i :: 0 <= i < |c.parts| ==> ClientOk(c, t, i)
    ensures forall k :: 0 <= k < |t.sessions| ==> SessionOk(c, t, t.sessions[k])
    ensures ConnsDistinct(t)
  {
    forall i | 0 <= i < |c.parts|
      ensures ClientOk(c, t, i)
    {
      assert ClientOk(c, s, i);
    }
    forall k | 0 <= k < |t.sessions|
      ensures SessionOk(c, t, t.sessions[k]) && (k < |s.sessions| ==> t.sessions[k].conn != x)
    {
      if k < |s.sessions| {
        assert SessionOk(c, s, s.sessions[k]);
      } else {
        assert ClientOk(c, s, x);
        assert [] + t.channels[x] == t.channels[x];
      }
    }
  }

  lemma AcceptedMain(s: State, t: State, x: nat)
    requires MainOk(s) && s.main == Accepting
    requires t.sessions == s.sessions + [Session(x, Unspawned, false, SessionCreated, 0, [])]
    requires t.main == Appended && t.command == s.command
    ensures MainOk(t) && Sum(LiveSessions(t)) == Sum(LiveSessions(s))
  {
    assert LiveSessions(t) == LiveSessions(s) + [0];
    SumAppend(LiveSessions(s), 0);
    if s.command == Exit {
      var k :| 0 <= k < |s.sessions| && s.sessions[k].pc == Finished(true);
      assert t.sessions[k].pc == Finished(true);
    }
  }

  lemma AcceptOk(c: Config, s: State, x: nat)
    requires ValidConfig(c) && Inv(c, s) && Enabled(c, s, Accept(x))
    ensures Inv(c, Apply(c, s, Accept(x)))
  {
    var t := Apply(c, s, Accept(x));
    AcceptedData(c, s, t, x);
    AcceptedMain(s, t, x);
  }

  /** One session record, and the channel it reads, are replaced by ones that are again in order. */
  lemma SessionMoves(c: Config, s: State, t: State, k: nat, y: Session, ch: seq<byte>)
    requires ValidConfig(c) && Inv(c, s) && k < |s.sessions| && y.conn == s.sessions[k].conn
    requires t.clients == s.clients && t.channels == s.channels[y.conn := ch] && t.joined == s.joined
    requires t.sessions == s.sessions[k := y] && Shape(c, t)
    requires SessionOk(c, t, y)
    ensures forall x :: 0 <= x < |c.parts| ==> ClientOk(c, t, x)
    ensures forall i :: 0 <= i < |t.sessions| ==> SessionOk(c, t, t.sessions[i])
    ensures ConnsDistinct(t)
    ensures Sum(LiveSessions(t)) == Sum(LiveSessions(s)) - Live(s.sessions[k]) + Live(y)
  {
    ReplaceLive(s, t, k, y);
    assert forall i :: 0 <= i < |t.sessions| ==> t.sessions[i].conn == s.sessions[i].conn;
    forall x | 0 <= x < |c.parts|
      ensures ClientOk(c, t, x)
    {
      assert ClientOk(c, s, x);
    }
    forall i | 0 <= i < |t.sessions|
      ensures SessionOk(c, t, t.sessions[i])
    {
      assert SessionOk(c, s, s.sessions[i]);
    }
  }

  lemma ExitWitness(s: State, t: State, k: nat, y: Session)
    requires MainOk(s) && k < |s.sessions| && t.sessions == s.sessions[k := y]
    requires s.command == Exit && !s.sessions[k].pc.Finished?
    ensures exists i :: 0 <= i < |t.sessions| && t.sessions[i].pc == Finished(true)
  {
    var i :| 0 <= i < |s.sessions| && s.sessions[i].pc == Finished(true);
    assert t.sessions[i].pc == Finished(true);
  }

  lemma CountOk(c: Config, s: State)
    requires ValidConfig(c) && Inv(c, s) && Enabled(c, s, Count)
    ensures Inv(c, Apply(c, s, Count))
  {
    var t := Apply(c, s, Count);
    var k := |s.sessions| - 1;
    var y := t.sessions[k];
    assert SessionOk(c, s, s.sessions[k]);
    assert t.channels == s.channels[y.conn := s.channels[y.conn]];
    SessionMoves(c, s, t, k, y, s.channels[y.conn]);
    if s.command == Exit {
      ExitWitness(s, t, k, y);
    }
  }

  lemma SpawnOk(c: Config, s: State)
    requires ValidConfig(c) && Inv(c, s) && Enabled(c, s, Spawn)
    ensures Inv(c, Apply(c, s, Spawn))
  {
    var t := Apply(c, s, Spawn);
    var k := |s.sessions| - 1;
    var y := t.sessions[k];
    assert SessionOk(c, s, s.sessions[k]);
    assert t.channels == s.channels[y.conn := s.channels[y.conn]];
    SessionMoves(c, s, t, k, y, s.channels[y.conn]);
    if s.command == Exit {
      ExitWitness(s, t, k, y);
    }
  }

  lemma PollStepOk(c: Config, s: State, step: Step)
    requires ValidConfig(c) && Inv(c, s) && Enabled(c, s, step)
    requires step.PollEvent? || step.PollExit? || step.AcceptNone? || step.Announce?
    ensures Inv(c, Apply(c, s, step))
  {
    DataUntouched(c, s, Apply(c, s, step));
  }

  lemma WorkerKeepsMain(s: State, t: State, k: nat, y: Session)
    requires MainOk(s) && k < |s.sessions| && t.sessions == s.sessions[k := y] && t.main == s.main
    requires y.counted == s.sessions[k].counted && !s.sessions[k].pc.Unspawned? && !s.sessions[k].pc.Finished?
    requires t.command == if y.pc == Finished(true) then Exit else s.command
    ensures MainOk(t)
  {
    if s.command == Exit {
      ExitWitness(s, t, k, y);
    } else if t.command == Exit {
      assert t.sessions[k].pc == Finished(true);
    }
  }

  /** What a worker does to its own record, apart from receiving and decrementing. */
  lemma WorkerMoves(c: Config, s: State, t: State, k: nat, y: Session, ch: seq<byte>)
    requires ValidConfig(c) && Inv(c, s) && k < |s.sessions| && y.conn == s.sessions[k].conn
    requires t == s.(sessions := s.sessions[k := y], channels := s.channels[y.conn := ch],
                     active := t.active, command := t.command)
    requires SessionOk(c, t, y) && y.counted == s.sessions[k].counted
    requires !s.sessions[k].pc.Unspawned? && !s.sessions[k].pc.Finished?
    requires t.active == s.active - Live(s.sessions[k]) + Live(y)
    requires t.command == if y.pc == Finished(true) then Exit else s.command
    ensures Inv(c, t)
  {
    SessionMoves(c, s, t, k, y, ch);
    WorkerKeepsMain(s, t, k, y);
  }

  lemma RecvOk(c: Config, s: State, k: nat, n: nat)
    requires ValidConfig(c) && Inv(c, s) && Enabled(c, s, Recv(k, n))
    ensures Inv(c, Apply(c, s, Recv(k, n)))
  {
    var t := Apply(c, s, Recv(k, n));
    var x := s.sessions[k].conn;
    var ch := s.channels[x];
    assert SessionOk(c, s, s.sessions[k]);
    assert ch[..n] + ch[n..] == ch;
    assert s.sessions[k].received + ch == t.sessions[k].received + t.channels[x];
    WorkerMoves(c, s, t, k, t.sessions[k], t.channels[x]);
  }

  lemma ReceiveStepOk(c: Config, s: State, step: Step)
    requires ValidConfig(c) && Inv(c, s) && Enabled(c, s, step)
    requires step.Begin? || step.AddBytes?
    ensures Inv(c, Apply(c, s, step))
  {
    var t := Apply(c, s, step);
    var k := step.k;
    var x := s.sessions[k].conn;
    assert SessionOk(c, s, s.sessions[k]);
    assert t.channels == s.channels[x := s.channels[x]];
    WorkerMoves(c, s, t, k, t.sessions[k], s.channels[x]);
  }

  lemma EndingStepOk(c: Config, s: State, step: Step)
    requires ValidConfig(c) && Inv(c, s) && Enabled(c, s, step)
    requires step.Eof? || step.RecvFail?
    ensures Inv(c, Apply(c, s, step))
  {
    var t := Apply(c, s, step);
    var k := step.k;
    var x := s.sessions[k].conn;
    assert SessionOk(c, s, s.sessions[k]);
    assert t.channels == s.channels[x := s.channels[x]];
    WorkerMoves(c, s, t, k, t.sessions[k], s.channels[x]);
  }

  lemma ShutdownStepOk(c: Config, s: State, step: Step)
    requires ValidConfig(c) && Inv(c, s) && Enabled(c, s, step)
    requires step.Disconnect? || step.Decrement? || step.Finish?
    ensures Inv(c, Apply(c, s, step))
  {
    var t := Apply(c, s, step);
    var k := step.k;
    var x := s.sessions[k].conn;
    assert SessionOk(c, s, s.sessions[k]);
    assert t.channels == s.channels[x := s.channels[x]];
    WorkerMoves(c, s, t, k, t.sessions[k], s.channels[x]);
  }

  lemma StepOk(c: Config, s: State, step: Step)
    requires ValidConfig(c) && Inv(c, s) && Enabled(c, s, step)
    ensures Inv(c, Apply(c, s, step))
  {
    match step
    case Connect(_) => ClientStepOk(c, s, step);
    case ConnectFail(_) => ClientStepOk(c, s, step);
    case Send(_, _) => ClientStepOk(c, s, step);
    case SendFail(_) => ClientStepOk(c, s, step);
    case Complete(_) => ClientStepOk(c, s, step);
    case JoinClose => JoinCloseOk(c, s);
    case Accept(x) => AcceptOk(c, s, x);
    case Count => CountOk(c, s);
    case Spawn => SpawnOk(c, s);
    case Recv(k, n) => RecvOk(c, s, k, n);
    case PollEvent => PollStepOk(c, s, step);
    case PollExit => PollStepOk(c, s, step);
    case AcceptNone => PollStepOk(c, s, step);
    case Announce => PollStepOk(c, s, step);
    case Begin(_) => ReceiveStepOk(c, s, step);
    case AddBytes(_) => ReceiveStepOk(c, s, step);
    case Eof(_) => EndingStepOk(c, s, step);
    case RecvFail(_) => EndingStepOk(c, s, step);
    case _ => ShutdownStepOk(c, s, step);
  }

  /** Under every interleaving, with every failure, the invariant holds. */
  lemma {:induction false} InvariantHolds(c: Config, steps: seq<Step>)
    requires ValidConfig(c) && Run(c, steps)
    ensures Inv(c, After(c, steps))
    decreases |steps|
  {
    if steps == [] {
      InitOk(c);
    } else {
      var front := steps[..|steps| - 1];
      InvariantHolds(c, front);
      StepOk(c, After(c, front), steps[|steps| - 1]);
    }
  }
}
