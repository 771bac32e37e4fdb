/**
 The single-connection stream server: tb_stream_server with tb_recv_data, and the endings tb_exit and tb_abort.
 Its status goes through its life cycle, and its byte count mistakes a tolerated EAGAIN for a byte less.
 */
module StreamServer {
  import opened Statuses

  datatype Command = Continue | Exit

  /** What recv returns: bytes (none at the end of the stream), would-block, or an error; and whether SIGINT came. */
  datatype Reply = Bytes(n: nat, interrupt: bool) | Again(interrupt: bool) | Fault

  datatype Outcome = Exited | Aborted | Blocked

  /** One call of accept: it fails, or brings a connection and all that recv will ever return on it. */
  datatype Accepted = None | Some(replies: seq<Reply>)

  /** What the server adds to its total for one reply. */
  function Credit(r: Reply): int {
    match r
    case Bytes(n, _) => n
    case Again(_) => -1
    case Fault => 0
  }

  /** The credits, the bytes received and the tolerated EAGAINs of the first `k` replies. */
  function Credits(rs: seq<Reply>, k: nat): int
    requires k <= |rs|
  {
    if k == 0 then 0 else Credits(rs, k - 1) + Credit(rs[k - 1])
  }

  function Payload(rs: seq<Reply>, k: nat): nat
    requires k <= |rs|
  {
    if k == 0 then 0 else Payload(rs, k - 1) + (if rs[k - 1].Bytes? then rs[k - 1].n else 0)
  }

  function Agains(rs: seq<Reply>, k: nat): nat
    requires k <= |rs|
  {
    if k == 0 then 0 else Agains(rs, k - 1) + (if rs[k - 1].Again? then 1 else 0)
  }

  /** The count is what was received less one per tolerated EAGAIN, so it is right if and only if there was none. */
  lemma {:induction false} CountIsRightIffNoAgain(rs: seq<Reply>, k: nat)
    requires k <= |rs|
    ensures Credits(rs, k) == Payload(rs, k) - Agains(rs, k)
    ensures Credits(rs, k) == Payload(rs, k) <==> forall i :: 0 <= i < k ==> !rs[i].Again?
  {
    if k > 0 {
      CountIsRightIffNoAgain(rs, k - 1);
    }
  }

  /** A reply that ends the receive loop by an abort: only DCCP tolerates EAGAIN. */
  predicate Fatal(r: Reply, tolerant: bool) {
    r.Fault? || (r.Again? && !tolerant)
  }

  /** A reply that ends the receive loop in order: the end of the stream, or an interrupt. */
  predicate Ends(r: Reply) {
    !r.Fault? && (r.interrupt || r == Bytes(0, false))
  }

  /** How the receive loop ends, how many replies it has used by then, and whether an interrupt ended it. */
  datatype Reception = Reception(ending: Outcome, used: nat, interrupted: bool)

  /** The reception from reply `i` on: it ends at the first reply that is fatal, which it does not use, or that ends it. */
  function ReceptionFrom(rs: seq<Reply>, i: nat, tolerant: bool): (r: Reception)
    requires i <= |rs|
    ensures i <= r.used <= |rs| && (r.interrupted ==> r.ending.Exited?)
    decreases |rs| - i
  {
    if i == |rs| then Reception(Blocked, i, false)
    else if Fatal(rs[i], tolerant) then Reception(Aborted, i, false)
    else if Ends(rs[i]) then Reception(Exited, i + 1, rs[i].interrupt)
    else ReceptionFrom(rs, i + 1, tolerant)
  }

  /**
   What a reception is, reply by reply. Every reply before the one that ends it brought bytes or was a tolerated EAGAIN,
   without an interrupt. It ends in order with the end of the stream or with an interrupt, and by an abort at an error or
   at an EAGAIN that is not tolerated, which it does not use; otherwise it has used every reply and waits.
   */
  lemma {:induction false} ReceptionMeans(rs: seq<Reply>, i: nat, tolerant: bool)
    requires i <= |rs|
    ensures
      var r := ReceptionFrom(rs, i, tolerant);
      && i <= r.used <= |rs|
      && (forall j :: i <= j < r.used - (if r.ending.Exited? then 1 else 0) ==>
            match rs[j]
            case Bytes(n, interrupt) => 0 < n && !interrupt
            case Again(interrupt) => tolerant && !interrupt
            case Fault => false)
      && match r.ending
         case Exited =>
           && i < r.used
           && (match rs[r.used - 1]
               case Bytes(n, interrupt) => (n == 0 || interrupt) && r.interrupted == interrupt
               case Again(interrupt) => tolerant && interrupt && r.interrupted
               case Fault => false)
         case Aborted =>
           && r.used < |rs| && !r.interrupted
           && (match rs[r.used]
               case Bytes(_, _) => false
               case Again(_) => !tolerant
               case Fault => true)
         case Blocked => r.used == |rs| && !r.interrupted
    decreases |rs| - i
  {
    if i < |rs| && !Fatal(rs[i], tolerant) && !Ends(rs[i]) {
      ReceptionMeans(rs, i + 1, tolerant);
    }
  }

  /** A command word that never goes back from exit to continue. */
  predicate StaysExit(cs: seq<Command>) {
    forall i, j :: 0 <= i < j < |cs| && cs[i] == Exit ==> cs[j] == Exit
  }

  // ------------------------------------------------------- the course of a server

  /** The statuses and the command words so far, oldest first, and the total. */
  datatype Trace = Trace(statuses: seq<Status>, commands: seq<Command>, total: int)

  const START := Trace([Created, Listening], [Continue], 0)

  /** The statuses of a turn after which nothing, something or everything has gone wrong. */
  function TurnStatuses(ending: Outcome): seq<Status> {
    match ending
    case Exited => [Connected, Disconnected]
    case Aborted => [Connected, Disconnected, Aborting]
    case Blocked => [Connected]
  }

  /** One turn of the server loop: an interrupt is noted, but the end-of-transfer command overwrites it. */
  function Turn(t: Trace, r: Reception, credits: int, onEnd: Command): Trace {
    Trace(t.statuses + TurnStatuses(r.ending),
          t.commands + (if r.interrupted then [Exit] else []) + (if r.ending.Exited? then [onEnd] else []),
          t.total + credits)
  }

  datatype Course = Course(ending: Outcome, trace: Trace)

  /** What the server does from accept `i` on. */
  function CourseFrom(accepts: seq<Accepted>, i: nat, t: Trace, tolerant: bool, onEnd: Command): Course
    requires i <= |accepts|
    decreases |accepts| - i
  {
    if i == |accepts| then Course(Blocked, t)
    else
      match accepts[i]
      case None => Course(Aborted, t.(statuses := t.statuses + [Disconnected, Aborting]))
      case Some(rs) =>
        var r := ReceptionFrom(rs, 0, tolerant);
        var u := Turn(t, r, Credits(rs, r.used), onEnd);
        if !r.ending.Exited? then Course(r.ending, u)
        else if onEnd == Exit then Course(Exited, u.(statuses := u.statuses + [Exiting]))
        else CourseFrom(accepts, i + 1, u, tolerant, onEnd)
  }

  function CourseOf(accepts: seq<Accepted>, tolerant: bool, onEnd: Command): Course {
    CourseFrom(accepts, 0, START, tolerant, onEnd)
  }

  lemma {:induction false} CourseProlongs(accepts: seq<Accepted>, i: nat, t: Trace, tolerant: bool, onEnd: Command)
    requires i <= |accepts|
    ensures t.statuses <= CourseFrom(accepts, i, t, tolerant, onEnd).trace.statuses
    ensures t.commands <= CourseFrom(accepts, i, t, tolerant, onEnd).trace.commands
    decreases |accepts| - i
  {
    if i < |accepts| && accepts[i].Some? {
      var rs := accepts[i].replies;
      var r := ReceptionFrom(rs, 0, tolerant);
      CourseProlongs(accepts, i + 1, Turn(t, r, Credits(rs, r.used), onEnd), tolerant, onEnd);
    }
  }

  function EndingOf(a: Accepted, tolerant: bool): Outcome
    requires a.Some?
  {
    ReceptionFrom(a.replies, 0, tolerant).ending
  }

  /** The first accept from `i` on after which the server does not come round again. */
  function StopAt(accepts: seq<Accepted>, i: nat, tolerant: bool, onEnd: Command): (j: nat)
    requires i <= |accepts|
    ensures i <= j <= |accepts|
    decreases |accepts| - i
  {
    if i < |accepts| && accepts[i].Some? && EndingOf(accepts[i], tolerant).Exited? && onEnd == Continue
    then StopAt(accepts, i + 1, tolerant, onEnd) else i
  }

  /** Everything before brings a connection that ends in order and does not end the server; what is there does not. */
  lemma {:induction false} StopAtMeans(accepts: seq<Accepted>, i: nat, tolerant: bool, onEnd: Command)
    requires i <= |accepts|
    ensures
      var j := StopAt(accepts, i, tolerant, onEnd);
      && (forall k :: i <= k < j ==> onEnd == Continue && accepts[k].Some? && EndingOf(accepts[k], tolerant).Exited?)
      && (j < |accepts| && accepts[j].Some? ==> onEnd == Exit || !EndingOf(accepts[j], tolerant).Exited?)
    decreases |accepts| - i
  {
    if StopAt(accepts, i, tolerant, onEnd) != i {
      StopAtMeans(accepts, i + 1, tolerant, onEnd);
    }
  }

  /** The bytes of the replies used on the first `k` connections, less one for each tolerated EAGAIN among them. */
  function Net(accepts: seq<Accepted>, k: nat, tolerant: bool): int
    requires k <= |accepts|
  {
    if k == 0 then 0
    else
      Net(accepts, k - 1, tolerant) +
      match accepts[k - 1]
      case None => 0
      case Some(rs) => NetOf(rs, ReceptionFrom(rs, 0, tolerant).used)
  }

  function NetOf(rs: seq<Reply>, k: nat): int
    requires k <= |rs|
  {
    Payload(rs, k) - Agains(rs, k)
  }

  /** `n` connections that ended in order. */
  function Rounds(n: nat): seq<Status> {
    if n == 0 then [] else Rounds(n - 1) + [Connected, Disconnected]
  }

  lemma {:induction false} RoundsFirst(n: nat)
    ensures [Connected, Disconnected] + Rounds(n) == Rounds(n + 1)
  {
    if n > 0 {
      RoundsFirst(n - 1);
      assert [Connected, Disconnected] + Rounds(n) == [Connected, Disconnected] + Rounds(n - 1) + [Connected, Disconnected];
    }
  }

  /** The course ends at accept `j`, having written `before` so far. */
  predicate StopsThere(accepts: seq<Accepted>, j: nat, before: seq<Status>, c: Course, tolerant: bool)
    requires j <= |accepts|
  {
    if j == |accepts| then c.ending == Blocked && c.trace.statuses == before
    else
      match accepts[j]
      case None => c.ending == Aborted && c.trace.statuses == before + [Disconnected, Aborting]
      case Some(_) =>
        && c.ending == EndingOf(accepts[j], tolerant)
        && c.trace.statuses == before +
           match c.ending
           case Exited => [Connected, Disconnected, Exiting]
           case Aborted => [Connected, Disconnected, Aborting]
           case Blocked => [Connected]
  }

  lemma {:induction false} CourseMeansFrom(accepts: seq<Accepted>, i: nat, t: Trace, tolerant: bool, onEnd: Command)
    requires i <= |accepts|
    ensures
      var j := StopAt(accepts, i, tolerant, onEnd);
      StopsThere(accepts, j, t.statuses + Rounds(j - i), CourseFrom(accepts, i, t, tolerant, onEnd), tolerant)
    decreases |accepts| - i
  {
    var j := StopAt(accepts, i, tolerant, onEnd);
    if j == i {
      assert t.statuses + Rounds(0) == t.statuses;
    } else {
      var rs := accepts[i].replies;
      var r := ReceptionFrom(rs, 0, tolerant);
      var u := Turn(t, r, Credits(rs, r.used), onEnd);
      CourseMeansFrom(accepts, i + 1, u, tolerant, onEnd);
      RoundsFirst(j - i - 1);
      assert u.statuses + Rounds(j - i - 1) == t.statuses + ([Connected, Disconnected] + Rounds(j - i - 1));
    }
  }

  lemma {:induction false} TotalFrom(accepts: seq<Accepted>, i: nat, t: Trace, tolerant: bool, onEnd: Command)
    requires i <= |accepts|
    ensures
      var j := StopAt(accepts, i, tolerant, onEnd);
      CourseFrom(accepts, i, t, tolerant, onEnd).trace.total ==
      t.total + Net(accepts, if j < |accepts| then j + 1 else j, tolerant) - Net(accepts, i, tolerant)
    decreases |accepts| - i
  {
    if i < |accepts| && accepts[i].Some? {
      var rs := accepts[i].replies;
      var r := ReceptionFrom(rs, 0, tolerant);
      CountIsRightIffNoAgain(rs, r.used);
      assert Net(accepts, i + 1, tolerant) == Net(accepts, i, tolerant) + NetOf(rs, r.used);
      if StopAt(accepts, i, tolerant, onEnd) != i {
        TotalFrom(accepts, i + 1, Turn(t, r, Credits(rs, r.used), onEnd), tolerant, onEnd);
      }
    }
  }

  /**
   What a course is: rounds of connected and disconnected for the connections that ended in order, then what the accept at
   which the server stops brings. The total is the bytes received less one for each tolerated EAGAIN.
   */
  lemma CourseMeans(accepts: seq<Accepted>, tolerant: bool, onEnd: Command)
    ensures
      var j := StopAt(accepts, 0, tolerant, onEnd);
      var c := CourseOf(accepts, tolerant, onEnd);
      && StopsThere(accepts, j, [Created, Listening] + Rounds(j), c, tolerant)
      && c.trace.total == Net(accepts, if j < |accepts| then j + 1 else j, tolerant)
  {
    CourseMeansFrom(accepts, 0, START, tolerant, onEnd);
    TotalFrom(accepts, 0, START, tolerant, onEnd);
  }

  /** The first connection ends in order, does not end the server, and a second one is accepted. */
  predicate ServesTwo(accepts: seq<Accepted>, tolerant: bool, onEnd: Command) {
    && 2 <= |accepts| && accepts[0].Some? && accepts[1].Some?
    && ReceptionFrom(accepts[0].replies, 0, tolerant).ending.Exited? && onEnd == Continue
  }

  /** The status of a server never falls if and only if it serves no second connection. */
  lemma StatusClimbsIff(accepts: seq<Accepted>, tolerant: bool, onEnd: Command)
    ensures Ascending(CourseOf(accepts, tolerant, onEnd).trace.statuses) <==> !ServesTwo(accepts, tolerant, onEnd)
  {
    if accepts != [] && accepts[0].Some? {
      var rs := accepts[0].replies;
      var r := ReceptionFrom(rs, 0, tolerant);
      var t := Turn(START, r, Credits(rs, r.used), onEnd);
      if ServesTwo(accepts, tolerant, onEnd) {
        SecondFalls(accepts, t, tolerant, onEnd);
      } else if r.ending.Exited? && onEnd == Continue {
        NoSecond(accepts, t, tolerant);
      }
    }
  }

  lemma NoSecond(accepts: seq<Accepted>, t: Trace, tolerant: bool)
    requires 1 <= |accepts| && (1 < |accepts| ==> accepts[1].None?)
    requires t.statuses == [Created, Listening, Connected, Disconnected]
    ensures Ascending(CourseFrom(accepts, 1, t, tolerant, Continue).trace.statuses)
  {
  }

  lemma SecondFalls(accepts: seq<Accepted>, t: Trace, tolerant: bool, onEnd: Command)
    requires 2 <= |accepts| && accepts[1].Some? && t.statuses == [Created, Listening, Connected, Disconnected]
    ensures !Ascending(CourseFrom(accepts, 1, t, tolerant, onEnd).trace.statuses)
  {
    var all := CourseFrom(accepts, 1, t, tolerant, onEnd).trace.statuses;
    var rs := accepts[1].replies;
    var r := ReceptionFrom(rs, 0, tolerant);
    var u := Turn(t, r, Credits(rs, r.used), onEnd);
    CourseProlongs(accepts, 2, u, tolerant, onEnd);
    assert u.statuses[3] == Disconnected && u.statuses[4] == Connected;
    assert all[3] == Disconnected && all[4] == Connected;
  }

  /** From accept `i` on an interrupt arrives while some connection is served. */
  predicate InterruptFrom(accepts: seq<Accepted>, i: nat, tolerant: bool)
    requires i <= |accepts|
    decreases |accepts| - i
  {
    i < |accepts| && accepts[i].Some? &&
    var r := ReceptionFrom(accepts[i].replies, 0, tolerant);
    r.interrupted || (r.ending.Exited? && InterruptFrom(accepts, i + 1, tolerant))
  }

  /** The command word never goes back from exit to continue, if so far it was continue throughout. */
  lemma {:induction false} CommandStaysFrom(accepts: seq<Accepted>, i: nat, t: Trace, tolerant: bool, onEnd: Command)
    requires i <= |accepts| && t.commands != [] && Exit !in t.commands
    ensures StaysExit(CourseFrom(accepts, i, t, tolerant, onEnd).trace.commands) <==>
      onEnd == Exit || !InterruptFrom(accepts, i, tolerant)
    decreases |accepts| - i
  {
    if i < |accepts| && accepts[i].Some? {
      var rs := accepts[i].replies;
      var r := ReceptionFrom(rs, 0, tolerant);
      var u := Turn(t, r, Credits(rs, r.used), onEnd);
      if r.interrupted && onEnd == Continue {
        CourseProlongs(accepts, i + 1, u, tolerant, onEnd);
        assert u.commands[|t.commands|] == Exit && u.commands[|t.commands| + 1] == Continue;
      } else if onEnd == Continue {
        CommandStaysFrom(accepts, i + 1, u, tolerant, onEnd);
      }
    }
  }

  /**
   The command word of a server never goes back from exit to continue if and only if the end-of-transfer command is the
   default one or no interrupt arrives while a connection is served.
   */
  lemma CommandStaysIff(accepts: seq<Accepted>, tolerant: bool, onEnd: Command)
    ensures StaysExit(CourseOf(accepts, tolerant, onEnd).trace.commands) <==>
      onEnd == Exit || !InterruptFrom(accepts, 0, tolerant)
  {
    CommandStaysFrom(accepts, 0, START, tolerant, onEnd);
  }

  /** With another end-of-transfer command, one interrupted connection is enough to lose the interrupt. */
  lemma LostInterrupt()
    ensures !StaysExit(CourseOf([Some([Bytes(0, true)])], false, Continue).trace.commands)
  {
    CommandStaysIff([Some([Bytes(0, true)])], false, Continue);
  }

  lemma {:induction false} NoExitWithoutCommand(accepts: seq<Accepted>, i: nat, t: Trace, tolerant: bool)
    requires i <= |accepts|
    ensures !CourseFrom(accepts, i, t, tolerant, Continue).ending.Exited?
    decreases |accepts| - i
  {
    if i < |accepts| && accepts[i].Some? {
      var rs := accepts[i].replies;
      var r := ReceptionFrom(rs, 0, tolerant);
      NoExitWithoutCommand(accepts, i + 1, Turn(t, r, Credits(rs, r.used), Continue), tolerant);
    }
  }

  /** A server exits if and only if its first connection ends in order under the default command, by the whole life cycle. */
  lemma OrderlyExit(accepts: seq<Accepted>, tolerant: bool, onEnd: Command)
    ensures CourseOf(accepts, tolerant, onEnd).ending.Exited? <==>
      onEnd == Exit && accepts != [] && accepts[0].Some? &&
      ReceptionFrom(accepts[0].replies, 0, tolerant).ending.Exited?
    ensures CourseOf(accepts, tolerant, onEnd).ending.Exited? ==>
      CourseOf(accepts, tolerant, onEnd).trace.statuses == [Created, Listening, Connected, Disconnected, Exiting]
  {
    if onEnd == Continue {
      NoExitWithoutCommand(accepts, 0, START, tolerant);
    }
  }

  // -------------------------------------------------------- in the source's form

  class Listener {
    var status: Status
    var command: Command
    const onEnd: Command
    var totalTxRx: int
    var open: bool
    ghost var history: seq<Status>
    ghost var commands: seq<Command>

    ghost predicate Valid()
      reads this
    {
      && history != [] && history[|history| - 1] == status
      && commands != [] && commands[|commands| - 1] == command
    }

    ghost function Past(): Trace
      reads this
    {
      Trace(history, commands, totalTxRx)
    }

    /** The initial state of tb_create_listener, its socket open; `end` is its end-of-transfer command, by default Exit. */
    constructor (end: Command)
      ensures Valid() && onEnd == end && Past() == Trace([Created], [Continue], 0) && open
    {
      status, command, onEnd, totalTxRx, open := Created, Continue, end, 0, true;
      history, commands := [Created], [Continue];
    }

    method SetStatus(s: Status)
      requires Valid()
      modifies this`status, this`history
      ensures Valid() && history == old(history) + [s]
    {
      status, history := s, history + [s];
    }

    method SetCommand(c: Command)
      requires Valid()
      modifies this`command, this`commands
      ensures Valid() && commands == old(commands) + [c]
    {
      command, commands := c, commands + [c];
    }

    /** tb_abort: the status passes through disconnected if and only if the socket is still open. */
    method Abort()
      requires Valid()
      modifies this`status, this`history
      ensures Valid() && history == old(history) + (if open then [Disconnected] else []) + [Aborting]
    {
      if open {
        SetStatus(Disconnected);
      }
      SetStatus(Aborting);
    }

    /** The receive loop of one connection. It ends with the stream, on a command, on an error, or keeps waiting. */
    method Receive(replies: seq<Reply>, tolerant: bool) returns (outcome: Outcome, ghost r: Reception)
      requires Valid() && command == Continue
      modifies this`command, this`commands, this`totalTxRx
      ensures Valid() && r == ReceptionFrom(replies, 0, tolerant) && outcome == r.ending
      ensures totalTxRx == old(totalTxRx) + Credits(replies, r.used)
      ensures commands == old(commands) + if r.interrupted then [Exit] else []
    {
      r := ReceptionFrom(replies, 0, tolerant);
      var i := 0;
      while i < |replies|
        invariant i <= |replies| && Valid() && totalTxRx == old(totalTxRx) + Credits(replies, i)
        invariant command == Continue && commands == old(commands)
        invariant r == ReceptionFrom(replies, i, tolerant)
      {
        var reply := replies[i];
        if Fatal(reply, tolerant) {
          return Aborted, r;
        }
        if reply.interrupt {
          SetCommand(Exit);
        }
        totalTxRx := totalTxRx + Credit(reply);
        i := i + 1;
        if (reply.Bytes? && reply.n == 0) || command == Exit {
          return Exited, r;
        }
      }
      outcome := Blocked;
    }
  }

  /** One turn of the server loop, from the accepted connection to the end-of-transfer command. */
  method ServeOne(l: Listener, replies: seq<Reply>, tolerant: bool) returns (outcome: Outcome, ghost r: Reception)
    requires l.Valid() && l.open && l.command == Continue
    modifies l`status, l`history, l`command, l`commands, l`totalTxRx
    ensures l.Valid() && r == ReceptionFrom(replies, 0, tolerant) && outcome == r.ending
    ensures l.Past() == Turn(old(l.Past()), r, Credits(replies, r.used), l.onEnd)
    ensures outcome.Exited? ==> l.command == l.onEnd
  {
    l.SetStatus(Connected);
    outcome, r := l.Receive(replies, tolerant);
    match outcome {
      case Exited =>
        l.SetStatus(Disconnected);
        l.SetCommand(l.onEnd);
      case Aborted =>
        l.Abort();
      case Blocked =>
    }
  }

  /** tb_stream_server, then tb_exit, over the results of successive accepts: it takes exactly the course of these inputs. */
  method Serve(l: Listener, accepts: seq<Accepted>, tolerant: bool) returns (outcome: Outcome)
    requires l.Valid() && l.open && l.Past() == Trace([Created], [Continue], 0)
    modifies l
    ensures l.Valid() && Course(outcome, l.Past()) == CourseOf(accepts, tolerant, l.onEnd)
    ensures l.open <==> !outcome.Exited?
  {
    var i := 0;
    l.SetStatus(Listening);
    assert l.Past() == START;
    while l.command == Continue
      invariant l.Valid() && l.open && i <= |accepts|
      invariant CourseOf(accepts, tolerant, l.onEnd) ==
        if l.command == Continue then CourseFrom(accepts, i, l.Past(), tolerant, l.onEnd)
        else Course(Exited, l.Past().(statuses := l.history + [Exiting]))
      decreases |accepts| - i
    {
      if i == |accepts| {
        return Blocked;
      }
      var accepted := accepts[i];
      if accepted.None? {
        l.Abort();
        return Aborted;
      }
      var ended, r := ServeOne(l, accepted.replies, tolerant);
      if !ended.Exited? {
        return ended;
      }
      i := i + 1;
    }
    l.open := false;
    l.SetStatus(Exiting);
    outcome := Exited;
  }
}
