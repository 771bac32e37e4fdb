/**
 The status words of the endpoints, from tb_create_listener to tb_exit or tb_abort: which function writes what, in which
 order, with everything that happens between two writes left to chance. (StreamServer has the single-connection
 stream server, whose loop can come round again; MultiTransfer has what moves the multi-connection server on.)
 */
module LifeCycles {
  import opened Statuses

  datatype Endpoint =
    | StreamClient | UdpClient | UdtClient | UtpClient | MultiClient
    | UdpServer | UtpServer | MultiServer

  /** Before anything is written, listening, running, out of its function, or out of its thread. */
  datatype Pc = Begun | Ready | Running | Returned | Ended

  /** `open`: `sock_d` is not -1. */
  datatype State = State(pc: Pc, open: bool, written: seq<Status>)

  /** `Fail` is tb_abort; `CloseAndFail` is how the uTP functions abort, and `GiveUp` how they return early. */
  datatype Step = OpenSocket | Listen | Connect | Again | Close | Fail | CloseAndFail | GiveUp | Exit

  const INIT := State(Begun, false, [Created])

  predicate IsServer(e: Endpoint) {
    e.UdpServer? || e.UtpServer? || e.MultiServer?
  }

  predicate IsUtp(e: Endpoint) {
    e.UtpClient? || e.UtpServer?
  }

  predicate Enabled(e: Endpoint, s: State, step: Step) {
    match step
    case OpenSocket => !s.open && (s.pc.Begun? || (e.UtpClient? && s.pc.Running?))
    case Listen => IsServer(e) && s.pc.Begun?
    case Connect => if IsServer(e) then s.pc.Ready? else s.pc.Begun?
    case Again => IsUtp(e) && s.pc.Running?
    case Close => s.pc.Running? || (s.pc.Ready? && !e.UdpServer?)
    case Fail => s.pc.Begun? || s.pc.Ready? || s.pc.Running?
    case CloseAndFail => IsUtp(e) && (s.pc.Ready? || s.pc.Running?)
    case GiveUp => IsUtp(e) && s.pc.Begun?
    case Exit => s.pc.Returned?
  }

  function Apply(s: State, step: Step): State {
    match step
    case OpenSocket => s.(open := true)
    case Listen => s.(pc := Ready, written := s.written + [Listening])
    case Connect => s.(pc := Running, written := s.written + [Connected])
    case Again => s.(written := s.written + [Connected])
    case Close => s.(pc := Returned, open := false, written := s.written + [Disconnected])
    case Fail => s.(pc := Ended, written := s.written + (if s.open then [Disconnected] else []) + [Aborting])
    case CloseAndFail => s.(pc := Ended, open := false, written := s.written + [Disconnected, Aborting])
    case GiveUp => s.(pc := Returned)
    case Exit => s.(pc := Ended, written := s.written + [Exiting])
  }

  predicate Run(e: Endpoint, steps: seq<Step>)
    decreases |steps|, 0
  {
    steps == [] ||
    (var front := steps[..|steps| - 1]; Run(e, front) && Enabled(e, After(e, front), steps[|steps| - 1]))
  }

  function After(e: Endpoint, steps: seq<Step>): State
    requires Run(e, steps)
    decreases |steps|, 1
  {
    if steps == [] then INIT else Apply(After(e, steps[..|steps| - 1]), steps[|steps| - 1])
  }

  function Last(h: seq<Status>): Status
    requires h != []
  {
    h[|h| - 1]
  }

  predicate Final(s: Status) {
    s.Exiting? || s.Aborting?
  }

  /** The last word may be final, no other. */
  predicate FinalLast(h: seq<Status>) {
    forall i :: 0 <= i < |h| - 1 ==> !Final(h[i])
  }

  predicate Orderly(h: seq<Status>) {
    h != [] && Ascending(h) && FinalLast(h)
  }

  predicate PcOk(e: Endpoint, s: State)
    requires s.written != []
  {
    match s.pc
    case Begun => s.written == [Created]
    case Ready => IsServer(e) && s.written == [Created, Listening]
    case Running => Last(s.written) == Connected
    case Returned => (Last(s.written) == Disconnected && !s.open) || (IsUtp(e) && s.written == [Created])
    case Ended => Final(Last(s.written))
  }

  lemma WriteOk(h: seq<Status>, s: Status)
    requires Orderly(h) && !Final(Last(h)) && Rank(Last(h)) <= Rank(s)
    ensures Orderly(h + [s]) && Last(h + [s]) == s
  {
  }

  lemma StepOk(e: Endpoint, s: State, step: Step)
    requires Orderly(s.written) && PcOk(e, s) && Enabled(e, s, step)
    ensures Orderly(Apply(s, step).written) && PcOk(e, Apply(s, step))
  {
    var h := s.written;
    match step
    case Listen => WriteOk(h, Listening);
    case Connect => WriteOk(h, Connected);
    case Again => WriteOk(h, Connected);
    case Close => WriteOk(h, Disconnected);
    case Fail => FailOk(h, s.open);
    case CloseAndFail =>
      FailOk(h, true);
      assert h + [Disconnected, Aborting] == h + [Disconnected] + [Aborting];
    case Exit => WriteOk(h, Exiting);
    case _ =>
  }

  lemma FailOk(h: seq<Status>, open: bool)
    requires Orderly(h) && Rank(Last(h)) <= Rank(Connected)
    ensures Orderly(h + (if open then [Disconnected] else []) + [Aborting])
  {
    if open {
      WriteOk(h, Disconnected);
      WriteOk(h + [Disconnected], Aborting);
    } else {
      assert h + [] == h;
      WriteOk(h, Aborting);
    }
  }

  /**
   In every run of every endpoint the status never falls, and the thread ends with exactly one of exiting and aborting,
   as the last word written.
   */
  lemma {:induction false} StatusClimbs(e: Endpoint, steps: seq<Step>)
    requires Run(e, steps)
    ensures Orderly(After(e, steps).written) && PcOk(e, After(e, steps))
    ensures After(e, steps).pc.Ended? <==> Final(Last(After(e, steps).written))
    decreases |steps|
  {
    if steps != [] {
      StatusClimbs(e, steps[..|steps| - 1]);
      StepOk(e, After(e, steps[..|steps| - 1]), steps[|steps| - 1]);
    }
  }

  // ------------------------------------------------------ what was written, and why

  /** The words written are those of the steps taken, in order: each step writes exactly these. */
  predicate WordsMean(s: State, steps: seq<Step>) {
    && (Listening in s.written <==> Listen in steps)
    && (Connected in s.written <==> Connect in steps || Again in steps)
    && (Exiting in s.written <==> Exit in steps)
    && (Aborting in s.written <==> Fail in steps || CloseAndFail in steps)
    && (Close in steps || CloseAndFail in steps ==> Disconnected in s.written)
    && (Disconnected in s.written ==> Close in steps || CloseAndFail in steps || Fail in steps)
  }

  lemma WordStep(s: State, step: Step, w: Status)
    ensures w in Apply(s, step).written <==> w in s.written || w in Words(s, step)
  {
  }

  lemma WordsStep(s: State, step: Step, earlier: seq<Step>, steps: seq<Step>)
    requires WordsMean(s, earlier) && steps == earlier + [step]
    ensures WordsMean(Apply(s, step), steps)
  {
    assert forall x :: x in steps <==> x in earlier || x == step;
    WordStep(s, step, Listening);
    WordStep(s, step, Connected);
    WordStep(s, step, Disconnected);
    WordStep(s, step, Exiting);
    WordStep(s, step, Aborting);
  }

  /** What a step writes: tb_abort says disconnected first if and only if the socket is open. */
  function Words(s: State, step: Step): (r: seq<Status>)
    ensures Apply(s, step).written == s.written + r
    ensures step.Fail? ==> r == if s.open then [Disconnected, Aborting] else [Aborting]
    ensures step.CloseAndFail? ==> r == [Disconnected, Aborting]
  {
    match step
    case Listen => [Listening]
    case Connect => [Connected]
    case Again => [Connected]
    case Close => [Disconnected]
    case Fail => if s.open then [Disconnected, Aborting] else [Aborting]
    case CloseAndFail => [Disconnected, Aborting]
    case Exit => [Exiting]
    case _ => []
  }

  /** In every run exiting has been written exactly if tb_exit was called, aborting exactly if tb_abort was, and so on. */
  lemma {:induction false} WordsAreSteps(e: Endpoint, steps: seq<Step>)
    requires Run(e, steps)
    ensures WordsMean(After(e, steps), steps)
    decreases |steps|
  {
    if steps != [] {
      var front := steps[..|steps| - 1];
      WordsAreSteps(e, front);
      WordsStep(After(e, front), steps[|steps| - 1], front, steps);
    }
  }
}
