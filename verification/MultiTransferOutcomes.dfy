/** How a multi-connection transfer can end, exactly. */
module MultiTransferOutcomes {
  import opened Sums
  import opened Slices
  import opened Paths
  import opened MultiTransfer
  import opened MultiTransferInvariant
  import opened MultiTransferResults
  import opened MultiTransferProgress

  // ------------------------------------------------------ can the server leave?

  /** No session, and no connection that could still become one. */
  predicate Hopeless(s: State) {
    s.sessions == [] && forall x :: 0 <= x < |s.clients| ==> s.clients[x].pc.Unconnected?
  }

  lemma HopelessLasts(c: Config, s: State, step: Step)
    requires ValidConfig(c) && Shape(c, s) && Enabled(c, s, step) && Hopeless(s) && NoExitDue(s)
    ensures Hopeless(Apply(c, s, step)) && NoExitDue(Apply(c, s, step))
  {
  }

  lemma {:induction false} HopelessForEver(c: Config, earlier: seq<Step>, steps: seq<Step>)
    requires ValidConfig(c) && Run(c, earlier) && Run(c, steps) && earlier <= steps
    requires Hopeless(After(c, earlier)) && NoExitDue(After(c, earlier))
    ensures Hopeless(After(c, steps)) && NoExitDue(After(c, steps))
    decreases |steps|
  {
    if |earlier| == |steps| {
      assert earlier == steps;
    } else {
      HopelessForEver(c, earlier, steps[..|steps| - 1]);
      HopelessLasts(c, After(c, steps[..|steps| - 1]), steps[|steps| - 1]);
    }
  }

  lemma EverybodyWanted(c: Config, steps: seq<Step>)
    requires ValidConfig(c) && Run(c, steps) && CanLeave(|c.parts|, After(c, steps))
    ensures Pending(c, |c.parts|, After(c, steps))
  {
    RunIsSteady(c, steps);
  }

  /**
   After every run, some continuation takes the server out of its loop if and only if the exit is due already, or no worker
   has failed and there is a session or a connection that may still become one.
   */
  lemma LeavesIff(c: Config, steps: seq<Step>)
    requires ValidConfig(c) && Run(c, steps)
    ensures
      (exists later :: Run(c, later) && steps <= later && After(c, later).main == Left) <==>
      CanLeave(|c.parts|, After(c, steps))
  {
    if CanLeave(|c.parts|, After(c, steps)) {
      EverybodyWanted(c, steps);
      var t := FinishFirst(c, |c.parts|, After(c, steps));
      var later := LongerRun(c, steps, t);
    } else {
      forall later | Run(c, later) && steps <= later
        ensures After(c, later).main != Left
      {
        if HasFailed(After(c, steps)) {
          FailureHangsServer(c, steps, later);
        } else {
          HopelessForEver(c, steps, later);
        }
      }
    }
  }

  /** Over TCP, as long as nothing has gone wrong and the exit is not due, the transfer can still be completed. */
  lemma CanComplete(c: Config, steps: seq<Step>) returns (later: seq<Step>)
    requires ValidConfig(c) && Run(c, steps) && c.transport.Tcp?
    requires Untroubled(After(c, steps)) && NoExitDue(After(c, steps))
    ensures Run(c, later) && steps <= later && Untroubled(After(c, later))
    ensures After(c, later).main == Left && AllDelivered(c, After(c, later))
  {
    var s := After(c, steps);
    assert s.clients[0].pc != Unconnected;
    EverybodyWanted(c, steps);
    var t := FinishFirst(c, |c.parts|, s);
    later := LongerRun(c, steps, t);
  }

  // ----------------------------------------------------------- a server that hangs

  lemma FirstIsAccepted(c: Config) returns (s: State)
    requires ValidConfig(c)
    ensures Shape(c, s) && Continues(c, [], s) && NoExitDue(s)
    ensures |s.sessions| == 1 && s.main == Appended
  {
    var s1 := Apply(c, Init(c), Connect(0));
    var s2 := Apply(c, s1, PollEvent);
    s := Apply(c, s2, Accept(0));
    assert Run(c, []) && After(c, []) == Init(c);
    ContinuesOn(c, [], Init(c), Connect(0), s1);
    ContinuesOn(c, [], s1, PollEvent, s2);
    ContinuesOn(c, [], s2, Accept(0), s);
  }

  lemma FirstIsSpawned(c: Config) returns (s: State)
    requires ValidConfig(c)
    ensures Shape(c, s) && Continues(c, [], s) && NoExitDue(s)
    ensures |s.sessions| == 1 && s.sessions[0].pc.Spawned?
  {
    var s1 := FirstIsAccepted(c);
    var s2 := Apply(c, s1, Count);
    s := Apply(c, s2, Spawn);
    ContinuesOn(c, [], s1, Count, s2);
    ContinuesOn(c, [], s2, Spawn, s);
  }

  /** In every configuration one failing recv can leave the server running for ever. */
  lemma OneFailureHangs(c: Config) returns (steps: seq<Step>)
    requires ValidConfig(c)
    ensures Run(c, steps) && HasFailed(After(c, steps)) && NoExitDue(After(c, steps))
    ensures forall later :: Run(c, later) && steps <= later ==> After(c, later).main != Left
  {
    var s := FirstIsSpawned(c);
    var s1 := Apply(c, s, Begin(0));
    var s2 := Apply(c, s1, RecvFail(0));
    ContinuesOn(c, [], s, Begin(0), s1);
    ContinuesOn(c, [], s1, RecvFail(0), s2);
    assert s2.sessions[0].pc.Failed?;
    steps :| Run(c, steps) && [] <= steps && After(c, steps) == s2;
    LeavesIff(c, steps);
  }

  // ------------------------------------------------------ a server that leaves early

  lemma GotTotal(c: Config, m: nat, s: State)
    requires Got(c, m, s)
    ensures Sum(Totals(s)) == c.quota * m
  {
    SumCapped(Totals(s), c.quota);
  }

  lemma InitPending(c: Config, m: nat)
    requires ValidConfig(c) && 0 < m <= |c.parts|
    ensures Pending(c, m, Init(c)) && OnTime(c, m, Init(c))
  {
    InitSteady(c);
    assert !Init(c).clients[0].pc.Unconnected?;
  }

  /** Where the schedule leads that wants only the first `m` connections. */
  lemma FirstOnly(c: Config, m: nat) returns (t: State)
    requires ValidConfig(c) && c.transport.Tcp? && 0 < m <= |c.parts|
    ensures Leads(Next(c), Init(c), t) && t.main == Left && Untroubled(t)
    ensures Got(c, m, t) && Sum(Totals(t)) == c.quota * m
  {
    InitPending(c, m);
    t := FinishFirst(c, m, Init(c));
    GotTotal(c, m, t);
  }

  /**
   Over TCP, for every number of connections up to all of them there is a run without a single error after which the
   server has left its loop with exactly so many slices, each of them whole.
   */
  lemma LeavesWith(c: Config, m: nat) returns (steps: seq<Step>)
    requires ValidConfig(c) && c.transport.Tcp? && 0 < m <= |c.parts|
    ensures Run(c, steps) && Untroubled(After(c, steps)) && After(c, steps).main == Left
    ensures Got(c, m, After(c, steps)) && Sum(Totals(After(c, steps))) == c.quota * m
  {
    var t := FirstOnly(c, m);
    assert Run(c, []) && After(c, []) == Init(c);
    steps := LongerRun(c, [], t);
  }

  // --------------------------------------------------- when every ending is complete

  /** The run ends with the decrement that brings the counter to zero. */
  predicate ZeroReached(c: Config, zero: seq<Step>)
    requires ValidConfig(c) && Run(c, zero)
  {
    zero != [] && zero[|zero| - 1].Decrement? && After(c, zero).active == 0
  }

  lemma ZeroIsDue(c: Config, zero: seq<Step>)
    requires ValidConfig(c) && Run(c, zero) && ZeroReached(c, zero)
    ensures !NoExitDue(After(c, zero))
  {
    var k := zero[|zero| - 1].k;
    assert After(c, zero).sessions[k].pc == Decremented(true);
  }

  /** The server never counts more than the clients were given to send. */
  lemma TotalsBounded(c: Config, s: State)
    requires ValidConfig(c) && Inv(c, s)
    ensures Sum(Totals(s)) <= c.quota * |c.parts|
  {
    forall k | 0 <= k < |s.sessions|
      ensures s.sessions[k].total <= c.quota
    {
      assert SessionOk(c, s, s.sessions[k]);
    }
    SessionsBounded(c, s);
    SumCapped(Totals(s), c.quota);
    MulMonotone(c.quota, |s.sessions|, |c.parts|);
  }

  /** All connections had been counted, so that what the server holds is and stays complete. */
  lemma CompleteFromZero(c: Config, zero: seq<Step>, later: seq<Step>)
    requires ValidConfig(c) && Run(c, zero) && Run(c, later) && zero <= later && c.transport.Tcp?
    requires ZeroReached(c, zero) && Untroubled(After(c, zero))
    requires c.quota == 0 || Increments(zero) == |c.parts|
    ensures Sum(Totals(After(c, later))) == c.quota * |c.parts|
  {
    if c.quota == 0 {
      InvariantHolds(c, later);
      TotalsBounded(c, After(c, later));
    } else {
      DeliveryComplete(c, zero, later);
      DeliveredTotal(c, After(c, later));
    }
  }

  /**
   Over TCP and without errors before it, a decrement to zero makes every later departure of the server a complete one
   if and only if every connection had been counted by then (or the slices are empty).
   */
  lemma CompleteIffAllCounted(c: Config, zero: seq<Step>)
    requires ValidConfig(c) && Run(c, zero) && c.transport.Tcp?
    requires ZeroReached(c, zero) && Untroubled(After(c, zero))
    ensures
      (forall later :: Run(c, later) && zero <= later && After(c, later).main == Left ==>
         Sum(Totals(After(c, later))) == c.quota * |c.parts|) <==>
      c.quota == 0 || Increments(zero) == |c.parts|
  {
    if c.quota == 0 || Increments(zero) == |c.parts| {
      forall later | Run(c, later) && zero <= later
        ensures Sum(Totals(After(c, later))) == c.quota * |c.parts|
      {
        CompleteFromZero(c, zero, later);
      }
    } else {
      RunIsSteady(c, zero);
      ZeroIsDue(c, zero);
      var t := LeaveNow(c, After(c, zero));
      var later := LongerRun(c, zero, t);
      TotalAtZero(c, zero);
    }
  }
}
