/** What every run of a multi-connection transfer guarantees, and what it does not. */
module MultiTransferResults {
  import opened Sums
  import opened Slices
  import opened MultiTransfer
  import opened MultiTransferInvariant

  // ---------------------------------------------------------- conservation

  /**
   In every reachable state, what a worker has received followed by what is still in its channel is
   exactly what its peer has sent, which is a prefix of the peer's slice; the session total is what was
   received less the one reply not yet added; and no connection has two sessions.
   */
  lemma Conservation(c: Config, steps: seq<Step>, k: nat)
    requires ValidConfig(c) && Run(c, steps) && k < |After(c, steps).sessions|
    ensures
      var s := After(c, steps);
      var y := s.sessions[k];
      && s.clients[y.conn].sent <= |c.parts[y.conn]|
      && y.received + s.channels[y.conn] == c.parts[y.conn][..s.clients[y.conn].sent]
      && |y.received| == y.total + Register(y.pc)
      && forall i :: 0 <= i < |s.sessions| && i != k ==> s.sessions[i].conn != y.conn
  {
    InvariantHolds(c, steps);
    assert SessionOk(c, After(c, steps), After(c, steps).sessions[k]);
  }

  /** No step lowers a session total or removes a session: what the statistics scan relies on. */
  lemma TotalsGrow(c: Config, s: State, step: Step)
    requires ValidConfig(c) && Shape(c, s) && Enabled(c, s, step)
    ensures Grows(Totals(s), Totals(Apply(c, s, step)))
  {
  }

  // ------------------------------------------------------ the active counter

  function Increments(steps: seq<Step>): nat {
    if steps == [] then 0
    else Increments(steps[..|steps| - 1]) + (if steps[|steps| - 1].Count? then 1 else 0)
  }

  function Decrements(steps: seq<Step>): nat {
    if steps == [] then 0
    else Decrements(steps[..|steps| - 1]) + (if steps[|steps| - 1].Decrement? then 1 else 0)
  }

  lemma CounterStep(c: Config, s: State, step: Step)
    requires ValidConfig(c) && Shape(c, s) && Enabled(c, s, step)
    ensures Apply(c, s, step).active ==
      s.active + (if step.Count? then 1 else 0) - (if step.Decrement? then 1 else 0)
  {
  }

  /** The counter is the number of increments less the number of decrements, and is never negative. */
  lemma {:induction false} CounterHistory(c: Config, steps: seq<Step>)
    requires ValidConfig(c) && Run(c, steps)
    ensures After(c, steps).active == Increments(steps) - Decrements(steps)
    ensures 0 <= After(c, steps).active
    decreases |steps|
  {
    InvariantHolds(c, steps);
    if steps != [] {
      CounterHistory(c, steps[..|steps| - 1]);
      CounterStep(c, After(c, steps[..|steps| - 1]), steps[|steps| - 1]);
    }
  }

  /** A live session keeps the counter above zero. */
  lemma LiveKeepsCounter(c: Config, s: State, k: nat)
    requires ValidConfig(c) && Inv(c, s) && k < |s.sessions| && Live(s.sessions[k]) == 1
    ensures 1 <= s.active
  {
    SumAtLeast(LiveSessions(s), k);
  }

  /** Whenever a decrement returns zero, every session counted so far has been disconnected. */
  lemma ZeroMeansAllDisconnected(c: Config, steps: seq<Step>, k: nat)
    requires ValidConfig(c) && Run(c, steps) && steps != [] && steps[|steps| - 1].Decrement?
    requires After(c, steps).active == 0
    requires k < |After(c, steps).sessions| && After(c, steps).sessions[k].counted
    ensures After(c, steps).sessions[k].status == SessionDisconnected
    ensures PastEof(After(c, steps).sessions[k].pc)
  {
    var s := After(c, steps);
    InvariantHolds(c, steps);
    assert SessionOk(c, s, s.sessions[k]);
    if Live(s.sessions[k]) == 1 {
      LiveKeepsCounter(c, s, k);
    }
  }

  predicate HasFailed(s: State) {
    exists k :: 0 <= k < |s.sessions| && s.sessions[k].pc.Failed?
  }

  lemma FailedStays(c: Config, s: State, step: Step, k: nat)
    requires ValidConfig(c) && Shape(c, s) && Enabled(c, s, step) && k < |s.sessions| && s.sessions[k].pc.Failed?
    requires s.sessions[k].counted && MainOk(s)
    ensures k < |Apply(c, s, step).sessions| && Apply(c, s, step).sessions[k].pc.Failed?
    ensures Live(Apply(c, s, step).sessions[k]) == 1
  {
  }

  lemma FailureLasts(c: Config, s: State, step: Step)
    requires ValidConfig(c) && Inv(c, s) && Enabled(c, s, step) && HasFailed(s)
    ensures HasFailed(Apply(c, s, step)) && 1 <= Apply(c, s, step).active
  {
    var k :| 0 <= k < |s.sessions| && s.sessions[k].pc.Failed?;
    assert SessionOk(c, s, s.sessions[k]);
    FailedStays(c, s, step, k);
    StepOk(c, s, step);
    LiveKeepsCounter(c, Apply(c, s, step), k);
  }

  /**
   Once a worker has taken its error return, which skips the decrement, the counter stays above zero for
   good: no later decrement returns zero.
   */
  lemma {:induction false} FailedWorkerPinsCounter(c: Config, earlier: seq<Step>, steps: seq<Step>)
    requires ValidConfig(c) && Run(c, earlier) && Run(c, steps) && earlier < steps
    requires HasFailed(After(c, earlier))
    ensures HasFailed(After(c, steps)) && 1 <= After(c, steps).active
    decreases |steps|
  {
    var front := steps[..|steps| - 1];
    InvariantHolds(c, front);
    if earlier != front {
      FailedWorkerPinsCounter(c, earlier, front);
    }
    FailureLasts(c, After(c, front), steps[|steps| - 1]);
  }

  /** Nobody has been told to exit, and nobody is about to tell. */
  predicate NoExitDue(s: State) {
    && s.command == Continue && s.main != Left
    && forall k :: 0 <= k < |s.sessions| ==> s.sessions[k].pc != Decremented(true)
  }

  lemma NoExitLasts(c: Config, s: State, step: Step)
    requires ValidConfig(c) && Shape(c, s) && Enabled(c, s, step) && NoExitDue(s)
    requires Apply(c, s, step).active != 0
    ensures NoExitDue(Apply(c, s, step))
  {
  }

  /**
   A failed worker leaves the server running for ever: unless the exit command was already due when it
   failed, no schedule brings the main thread out of its loop.
   */
  lemma {:induction false} FailureHangsServer(c: Config, earlier: seq<Step>, steps: seq<Step>)
    requires ValidConfig(c) && Run(c, earlier) && Run(c, steps) && earlier <= steps
    requires HasFailed(After(c, earlier)) && NoExitDue(After(c, earlier))
    ensures NoExitDue(After(c, steps))
    decreases |steps|
  {
    if earlier != steps {
      var front := steps[..|steps| - 1];
      FailureHangsServer(c, earlier, front);
      FailedWorkerPinsCounter(c, earlier, steps);
      NoExitLasts(c, After(c, front), steps[|steps| - 1]);
    }
  }

  // -------------------------------------------------------------- life cycle

  function StatusRank(s: Status): nat {
    match s
    case Listening => 0
    case Connected => 1
    case Disconnected => 2
  }

  predicate LaterThan(s: State, t: State) {
    && StatusRank(s.status) <= StatusRank(t.status)
    && (s.command == Exit ==> t.command == Exit)
    && (s.main == Left ==> t.main == Left)
  }

  lemma StepMovesOn(c: Config, s: State, step: Step)
    requires ValidConfig(c) && Shape(c, s) && Enabled(c, s, step)
    ensures LaterThan(s, Apply(c, s, step))
  {
  }

  /** The server's status only climbs, its command word never leaves exit, and it never comes back to its loop. */
  lemma {:induction false} LifeCycle(c: Config, earlier: seq<Step>, steps: seq<Step>)
    requires ValidConfig(c) && Run(c, earlier) && Run(c, steps) && earlier <= steps
    ensures LaterThan(After(c, earlier), After(c, steps))
    decreases |steps|
  {
    if |earlier| == |steps| {
      assert earlier == steps;
    } else {
      var front := steps[..|steps| - 1];
      LifeCycle(c, earlier, front);
      StepMovesOn(c, After(c, front), steps[|steps| - 1]);
    }
  }

  // ------------------------------------------------------------ completeness

  predicate Untroubled(s: State) {
    && (forall x :: 0 <= x < |s.clients| ==> s.clients[x].pc != Errored && s.clients[x].pc != Unconnected)
    && (forall k :: 0 <= k < |s.sessions| ==> !s.sessions[k].pc.Failed?)
  }

  /** Over TCP, a worker that saw the end of an untroubled stream has the whole slice. */
  lemma DrainedWorker(c: Config, s: State, k: nat)
    requires ValidConfig(c) && Inv(c, s) && c.transport.Tcp? && Untroubled(s)
    requires k < |s.sessions| && PastEof(s.sessions[k].pc)
    ensures s.sessions[k].received == c.parts[s.sessions[k].conn] && s.sessions[k].total == c.quota
  {
    var y := s.sessions[k];
    assert SessionOk(c, s, y) && ClientOk(c, s, y.conn);
    assert y.received + [] == y.received;
    assert c.parts[y.conn][..c.quota] == c.parts[y.conn];
  }

  function CountedSessions(s: State): int {
    if s.main == Appended then |s.sessions| - 1 else |s.sessions|
  }

  lemma CountedStep(c: Config, s: State, step: Step)
    requires ValidConfig(c) && Shape(c, s) && Enabled(c, s, step)
    ensures CountedSessions(Apply(c, s, step)) == CountedSessions(s) + (if step.Count? then 1 else 0)
  {
  }

  lemma {:induction false} IncrementsAreCounted(c: Config, steps: seq<Step>)
    requires ValidConfig(c) && Run(c, steps)
    ensures Increments(steps) == CountedSessions(After(c, steps))
    decreases |steps|
  {
    if steps != [] {
      var front := steps[..|steps| - 1];
      IncrementsAreCounted(c, front);
      CountedStep(c, After(c, front), steps[|steps| - 1]);
    }
  }

  lemma TotalsAtZero(c: Config, s: State)
    requires ValidConfig(c) && Inv(c, s) && c.transport.Tcp? && s.active == 0 && Untroubled(s)
    requires 0 <= CountedSessions(s)
    ensures Sum(Totals(s)) == c.quota * CountedSessions(s)
  {
    var n := CountedSessions(s);
    var totals := Totals(s);
    forall k | 0 <= k < |totals|
      ensures totals[k] == if k < n then c.quota else 0
    {
      assert SessionOk(c, s, s.sessions[k]);
      if k < n {
        if Live(s.sessions[k]) == 1 {
          LiveKeepsCounter(c, s, k);
        }
        DrainedWorker(c, s, k);
      }
    }
    SumToCapped(totals, c.quota, n);
  }

  /**
   Over TCP and without errors, the decrement that returns zero finds exactly one full slice for each
   increment so far. The transfer is therefore complete at that moment if and only if every connection
   had been counted by then (or the slices are empty): the guard that decides to shut the server down
   does not check this.
   */
  lemma TotalAtZero(c: Config, steps: seq<Step>)
    requires ValidConfig(c) && Run(c, steps) && c.transport.Tcp?
    requires After(c, steps).active == 0 && Untroubled(After(c, steps))
    ensures Sum(Totals(After(c, steps))) == c.quota * Increments(steps)
    ensures Sum(Totals(After(c, steps))) == c.quota * |c.parts| <==> c.quota == 0 || Increments(steps) == |c.parts|
  {
    InvariantHolds(c, steps);
    IncrementsAreCounted(c, steps);
    TotalsAtZero(c, After(c, steps));
    ProductsDiffer(c.quota, Increments(steps), |c.parts|);
  }

  lemma ProductsDiffer(q: nat, m: nat, n: nat)
    ensures q * m == q * n <==> q == 0 || m == n
  {
    assert q * m - q * n == q * (m - n);
  }

  lemma {:induction false} DistinctBounded(a: seq<nat>, n: nat)
    requires forall i :: 0 <= i < |a| ==> a[i] < n
    requires forall i, j :: 0 <= i < j < |a| ==> a[i] != a[j]
    ensures |a| <= n
  {
    if a != [] {
      assert a[0] < n;
      if i :| 0 <= i < |a| && a[i] == n - 1 {
        DistinctBounded(a[..i] + a[i + 1..], n - 1);
      } else {
        DistinctBounded(a, n - 1);
      }
    }
  }

  lemma SessionsBounded(c: Config, s: State)
    requires ValidConfig(c) && Inv(c, s)
    ensures |s.sessions| <= |c.parts|
  {
    DistinctBounded(seq(|s.sessions|, i requires 0 <= i < |s.sessions| => s.sessions[i].conn), |c.parts|);
  }

  /** The first `m` slices, and no others, have been received in full. */
  predicate Got(c: Config, m: nat, s: State) {
    && |s.sessions| == m
    && forall k :: 0 <= k < |s.sessions| ==>
         PastEof(s.sessions[k].pc) && s.sessions[k].conn < |c.parts| &&
         s.sessions[k].received == c.parts[s.sessions[k].conn] && s.sessions[k].total == c.quota
  }

  /** Every connection has been accepted and its whole slice received. */
  predicate AllDelivered(c: Config, s: State) {
    Got(c, |c.parts|, s)
  }

  /** Nothing but these three parts of the record of a worker past the end of its stream can change. */
  predicate SameSlice(y: Session, z: Session) {
    PastEof(z.pc) && z == y.(pc := z.pc, status := z.status, counted := z.counted)
  }

  lemma SessionsLast(c: Config, s: State, step: Step)
    requires ValidConfig(c) && Shape(c, s) && Enabled(c, s, step)
    ensures |s.sessions| <= |Apply(c, s, step).sessions|
  {
  }

  lemma PastEofLasts(c: Config, s: State, step: Step, k: nat)
    requires ValidConfig(c) && Shape(c, s) && Enabled(c, s, step)
    requires s.main == Counted ==> s.sessions[|s.sessions| - 1].pc.Unspawned?
    requires k < |s.sessions| <= |Apply(c, s, step).sessions| && PastEof(s.sessions[k].pc)
    ensures SameSlice(s.sessions[k], Apply(c, s, step).sessions[k])
  {
    var t := Apply(c, s, step);
    if step.Disconnect? || step.Decrement? || step.Finish? || step.Count? {
      assert SameSlice(s.sessions[k], t.sessions[k]);
    } else {
      assert t.sessions[k] == s.sessions[k];
    }
  }

  lemma DeliveryLasts(c: Config, s: State, step: Step)
    requires ValidConfig(c) && Inv(c, s) && Enabled(c, s, step) && AllDelivered(c, s)
    ensures AllDelivered(c, Apply(c, s, step))
  {
    StepOk(c, s, step);
    var t := Apply(c, s, step);
    SessionsBounded(c, t);
    SessionsLast(c, s, step);
    forall k | 0 <= k < |s.sessions|
      ensures SameSlice(s.sessions[k], t.sessions[k])
    {
      PastEofLasts(c, s, step, k);
    }
  }

  lemma DeliveredAtZero(c: Config, steps: seq<Step>)
    requires ValidConfig(c) && Run(c, steps) && c.transport.Tcp?
    requires After(c, steps).active == 0 && Untroubled(After(c, steps))
    requires Increments(steps) == |c.parts|
    ensures AllDelivered(c, After(c, steps))
  {
    var s := After(c, steps);
    InvariantHolds(c, steps);
    IncrementsAreCounted(c, steps);
    SessionsBounded(c, s);
    forall k | 0 <= k < |s.sessions|
      ensures PastEof(s.sessions[k].pc) && s.sessions[k].received == c.parts[s.sessions[k].conn]
      ensures s.sessions[k].total == c.quota
    {
      assert SessionOk(c, s, s.sessions[k]);
      if Live(s.sessions[k]) == 1 {
        LiveKeepsCounter(c, s, k);
      }
      DrainedWorker(c, s, k);
    }
  }

  lemma DeliveredTotal(c: Config, s: State)
    requires AllDelivered(c, s)
    ensures Sum(Totals(s)) == c.quota * |c.parts|
  {
    SumCapped(Totals(s), c.quota);
  }

  /**
   If every connection had been counted when the zero-returning decrement happened, then from then on, in
   every continuation, the server holds every slice in full.
   */
  lemma {:induction false} DeliveryComplete(c: Config, earlier: seq<Step>, steps: seq<Step>)
    requires ValidConfig(c) && Run(c, earlier) && Run(c, steps) && c.transport.Tcp? && earlier <= steps
    requires After(c, earlier).active == 0 && Untroubled(After(c, earlier)) && Increments(earlier) == |c.parts|
    ensures AllDelivered(c, After(c, steps))
    decreases |steps|
  {
    if earlier == steps {
      DeliveredAtZero(c, steps);
    } else {
      var front := steps[..|steps| - 1];
      DeliveryComplete(c, earlier, front);
      InvariantHolds(c, front);
      DeliveryLasts(c, After(c, front), steps[|steps| - 1]);
    }
  }

  predicate ReturnedZero(y: Session) {
    y.pc == Decremented(true) || y.pc == Finished(true)
  }

  lemma ZeroComesFromDecrement(c: Config, s: State, step: Step, k: nat)
    requires ValidConfig(c) && Shape(c, s) && Enabled(c, s, step) && k < |Apply(c, s, step).sessions|
    requires ReturnedZero(Apply(c, s, step).sessions[k])
    ensures (k < |s.sessions| && ReturnedZero(s.sessions[k])) || (step == Decrement(k) && Apply(c, s, step).active == 0)
  {
  }

  /** The run ends with the decrement by which worker `k` brings the counter to zero. */
  predicate ZeroBy(c: Config, zero: seq<Step>, k: nat)
    requires ValidConfig(c)
  {
    Run(c, zero) && zero != [] && zero[|zero| - 1] == Decrement(k) && After(c, zero).active == 0
  }

  predicate FoundZero(c: Config, steps: seq<Step>, k: nat)
    requires ValidConfig(c)
  {
    Run(c, steps) && k < |After(c, steps).sessions| && ReturnedZero(After(c, steps).sessions[k])
  }

  lemma ZeroCameFrom(c: Config, steps: seq<Step>, k: nat)
    requires ValidConfig(c) && FoundZero(c, steps, k)
    ensures ZeroBy(c, steps, k) || (steps != [] && FoundZero(c, steps[..|steps| - 1], k))
  {
    ZeroComesFromDecrement(c, After(c, steps[..|steps| - 1]), steps[|steps| - 1], k);
  }

  /** A worker that found zero did so at a decrement of its own that brought the counter to zero. */
  lemma {:induction false} ZeroHappened(c: Config, steps: seq<Step>, k: nat) returns (zero: seq<Step>)
    requires ValidConfig(c) && FoundZero(c, steps, k)
    ensures ZeroBy(c, zero, k) && zero <= steps
    decreases |steps|
  {
    ZeroCameFrom(c, steps, k);
    if ZeroBy(c, steps, k) {
      zero := steps;
    } else {
      zero := ZeroHappened(c, steps[..|steps| - 1], k);
    }
  }

  lemma Finisher(s: State) returns (k: nat)
    requires MainOk(s) && s.main == Left
    ensures k < |s.sessions| && ReturnedZero(s.sessions[k])
  {
    k :| 0 <= k < |s.sessions| && s.sessions[k].pc == Finished(true);
  }

  /**
   A server that has left its loop did so because some decrement returned zero; if by then nothing had gone
   wrong and every connection had been counted, it now holds every slice in full.
   */
  lemma LeavingServer(c: Config, steps: seq<Step>) returns (zero: seq<Step>)
    requires ValidConfig(c) && Run(c, steps) && c.transport.Tcp? && After(c, steps).main == Left
    ensures Run(c, zero) && zero <= steps && After(c, zero).active == 0
    ensures zero != [] && zero[|zero| - 1].Decrement?
    ensures Untroubled(After(c, zero)) && Increments(zero) == |c.parts| ==> AllDelivered(c, After(c, steps))
  {
    InvariantHolds(c, steps);
    var k := Finisher(After(c, steps));
    zero := ZeroHappened(c, steps, k);
    if Untroubled(After(c, zero)) && Increments(zero) == |c.parts| {
      DeliveryComplete(c, zero, steps);
    }
  }

  /** The same for the transfer of a file: all but the bytes that the division by the connection count drops. */
  lemma FileDelivered(data: seq<byte>, conns: nat, clientPack: nat, serverPack: nat, steps: seq<Step>)
    requires 0 < conns && 0 < clientPack && 0 < serverPack
    requires Run(Transfer(Tcp, data, conns, clientPack, serverPack), steps)
    requires
      var c := Transfer(Tcp, data, conns, clientPack, serverPack);
      After(c, steps).active == 0 && Untroubled(After(c, steps)) && Increments(steps) == conns
    ensures
      var s := After(Transfer(Tcp, data, conns, clientPack, serverPack), steps);
      && Sum(Totals(s)) == |data| - |data| % conns
      && |s.sessions| == conns
      && forall k :: 0 <= k < conns ==>
           s.sessions[k].conn < conns && s.sessions[k].received == Slice(data, conns, s.sessions[k].conn)
  {
    var c := Transfer(Tcp, data, conns, clientPack, serverPack);
    DeliveredAtZero(c, steps);
    DeliveredTotal(c, After(c, steps));
    SliceInBounds(|data|, conns, conns - 1);
  }
}
