/**
 The end-of-transfer handshake of tb_udp_client, tb_udp_ack and tb_udp_server.

 The network loses, duplicates and reorders datagrams at will (RFC 768 promises neither delivery nor
 duplicate protection). A datagram is known by its length alone; the empty one marks the end of the
 transfer. A datagram that reaches a closed port may come back as an ICMP error, which the client's
 next send reports as refused. A send fails only by refusal or because it would block.
 */
module UdpHandshake {
  import opened Sums

  /** The file, both ends' buffer sizes, and whether the server was bound before the client began. */
  datatype Config = Config(fileSize: nat, bufsize: nat, serverBufsize: nat, boundFirst: bool)

  predicate ValidConfig(c: Config) {
    0 < c.bufsize && 0 < c.serverBufsize
  }

  datatype Reason = Acked | Refused

  /** Sending data, at the send or at the poll of the wait loop, out of it, or aborted while sending data. */
  datatype ClientPc = Sending | WaitSend | WaitPoll | Gone(why: Reason) | ClientAborted

  /** Not bound yet, at its first receive, in its receive loop, closed on an empty datagram, or aborted. */
  datatype ServerPc = Unbound | First | Looping | ClosedOnEof | ServerAborted

  /**
   `net`: lengths of the datagrams on their way to the server. `acks`: acknowledgements on their way back;
   `ackHere`: one has arrived. `icmp`: a refusal is pending on the client's socket. The last five count bytes: taken
   by the server, cut off to fit its buffer, lost on the way, duplicated, and sent to a port that was not open.
   */
  datatype State = State(
    client: ClientPc, sent: nat, server: ServerPc, net: seq<nat>, acks: nat, ackHere: bool, icmp: bool,
    received: nat, truncated: nat, lost: nat, duplicated: nat, unopened: nat)

  datatype Step =
    | SendData | SendDataFails | DataDone | SendEof | SendBlocks | SendRefused | PollNothing | PollAck
    | Bind | Deliver(i: nat) | Lose(i: nat) | Duplicate(i: nat) | DeliverAck | LoseAck | ServerFails

  function Init(c: Config): State {
    State(Sending, 0, if c.boundFirst then First else Unbound, [], 0, false, false, 0, 0, 0, 0, 0)
  }

  predicate Open(server: ServerPc) {
    server.First? || server.Looping?
  }

  predicate Waiting(s: State) {
    s.client.WaitSend? || s.client.WaitPoll?
  }

  /** The size of the next data datagram. */
  function Chunk(c: Config, sent: nat): nat
    requires sent <= c.fileSize
  {
    if c.fileSize - sent < c.bufsize then c.fileSize - sent else c.bufsize
  }

  predicate Enabled(c: Config, s: State, step: Step) {
    match step
    case SendData => s.client.Sending? && s.sent < c.fileSize && !s.icmp
    case SendDataFails => s.client.Sending? && s.sent < c.fileSize
    case DataDone => s.client.Sending? && s.sent >= c.fileSize
    case SendEof => s.client.WaitSend? && !s.icmp
    case SendBlocks => s.client.WaitSend? && !s.icmp
    case SendRefused => s.client.WaitSend? && s.icmp
    case PollNothing => s.client.WaitPoll? && !s.ackHere
    case PollAck => s.client.WaitPoll? && s.ackHere
    case Bind => s.server.Unbound?
    case Deliver(i) => i < |s.net|
    case Lose(i) => i < |s.net|
    case Duplicate(i) => i < |s.net|
    case DeliverAck => 0 < s.acks
    case LoseAck => 0 < s.acks
    case ServerFails => Open(s.server)
  }

  function Without(net: seq<nat>, i: nat): seq<nat>
    requires i < |net|
  {
    net[..i] + net[i + 1..]
  }

  /** The server takes in as much of a datagram of length `len` as its buffer holds. */
  function TakeIn(c: Config, s: State, len: nat): State {
    var rc := Min(len, c.serverBufsize);
    s.(server := Looping, received := s.received + rc, truncated := s.truncated + len - rc)
  }

  /** The server's next move on a datagram of length `len`: its first one is never taken for the end. */
  function Arrive(c: Config, s: State, len: nat): State {
    match s.server
    case First => TakeIn(c, s, len)
    case Looping =>
      if Min(len, c.serverBufsize) == 0 then s.(server := ClosedOnEof, acks := s.acks + 1) else TakeIn(c, s, len)
    case _ => s.(icmp := true, unopened := s.unopened + len)
  }

  function Apply(c: Config, s: State, step: Step): State
    requires Enabled(c, s, step)
  {
    match step
    case SendData => s.(sent := s.sent + Chunk(c, s.sent), net := s.net + [Chunk(c, s.sent)])
    case SendDataFails => s.(client := ClientAborted)
    case DataDone => s.(client := WaitSend)
    case SendEof => s.(client := WaitPoll, net := s.net + [0])
    case SendBlocks => s.(client := WaitPoll)
    case SendRefused => s.(client := Gone(Refused), icmp := false)
    case PollNothing => s.(client := WaitSend)
    case PollAck => s.(client := Gone(Acked))
    case Bind => s.(server := First)
    case Deliver(i) => Arrive(c, s.(net := Without(s.net, i)), s.net[i])
    case Lose(i) => s.(net := Without(s.net, i), lost := s.lost + s.net[i])
    case Duplicate(i) => s.(net := s.net + [s.net[i]], duplicated := s.duplicated + s.net[i])
    case DeliverAck => s.(acks := s.acks - 1, ackHere := true)
    case LoseAck => s.(acks := s.acks - 1)
    case ServerFails => s.(server := ServerAborted)
  }

  // ------------------------------------------------------------------ runs

  predicate Run(c: Config, steps: seq<Step>)
    decreases |steps|, 0
  {
    steps == [] ||
    (var front := steps[..|steps| - 1]; Run(c, front) && Enabled(c, After(c, front), steps[|steps| - 1]))
  }

  function After(c: Config, steps: seq<Step>): State
    requires Run(c, steps)
    decreases |steps|, 1
  {
    if steps == [] then Init(c) else Apply(c, After(c, steps[..|steps| - 1]), steps[|steps| - 1])
  }

  /** One more step at the end of a run. */
  lemma Extend(c: Config, steps: seq<Step>, step: Step)
    requires Run(c, steps) && Enabled(c, After(c, steps), step)
    ensures Run(c, steps + [step]) && After(c, steps + [step]) == Apply(c, After(c, steps), step)
  {
    assert (steps + [step])[..|steps|] == steps;
  }

  // ----------------------------------------------------------------- walks

  /** `more` can be taken from `s`. */
  predicate Walk(c: Config, s: State, more: seq<Step>)
    decreases |more|
  {
    more == [] || (Enabled(c, s, more[0]) && Walk(c, Apply(c, s, more[0]), more[1..]))
  }

  function WalkEnd(c: Config, s: State, more: seq<Step>): State
    requires Walk(c, s, more)
    decreases |more|
  {
    if more == [] then s else WalkEnd(c, Apply(c, s, more[0]), more[1..])
  }

  lemma {:induction false} WalkJoin(c: Config, s: State, first: seq<Step>, second: seq<Step>)
    requires Walk(c, s, first) && Walk(c, WalkEnd(c, s, first), second)
    ensures Walk(c, s, first + second) && WalkEnd(c, s, first + second) == WalkEnd(c, WalkEnd(c, s, first), second)
    decreases |first|
  {
    if first == [] {
      assert first + second == second;
    } else {
      assert (first + second)[1..] == first[1..] + second;
      WalkJoin(c, Apply(c, s, first[0]), first[1..], second);
    }
  }

  lemma WalkBegins(c: Config, s: State, more: seq<Step>)
    requires Walk(c, s, more) && more != []
    ensures Enabled(c, s, more[0]) && Walk(c, Apply(c, s, more[0]), more[1..])
    ensures WalkEnd(c, s, more) == WalkEnd(c, Apply(c, s, more[0]), more[1..])
  {
  }

  /** A walk from the end of a run prolongs the run. */
  lemma {:induction false} WalkIsRun(c: Config, steps: seq<Step>, more: seq<Step>) returns (all: seq<Step>)
    requires Run(c, steps) && Walk(c, After(c, steps), more)
    ensures Run(c, all) && After(c, all) == WalkEnd(c, After(c, steps), more)
    decreases |more|
  {
    if more == [] {
      all := steps;
    } else {
      WalkBegins(c, After(c, steps), more);
      Extend(c, steps, more[0]);
      all := WalkIsRun(c, steps + [more[0]], more[1..]);
    }
  }

  // ------------------------------------------------------------- invariant

  /** The data phase is over only when all bytes have been handed to the network; no data datagram is empty. */
  predicate ClientOk(c: Config, s: State) {
    && s.sent <= c.fileSize
    && (Waiting(s) || s.client.Gone? ==> s.sent == c.fileSize)
    && (0 in s.net || s.server.ClosedOnEof? ==> Waiting(s) || s.client.Gone?)
  }

  predicate HandshakeOk(c: Config, s: State) {
    && (0 < s.acks || s.ackHere || s.client == Gone(Acked) ==> s.server.ClosedOnEof?)
    && (c.boundFirst ==> !s.server.Unbound?)
    && (c.boundFirst && (s.icmp || s.client == Gone(Refused)) ==> !Open(s.server))
  }

  /** Every byte handed to the network or duplicated by it is accounted for. */
  predicate LedgerOk(s: State) {
    s.sent + s.duplicated == s.received + s.truncated + Sum(s.net) + s.lost + s.unopened
  }

  predicate Inv(c: Config, s: State) {
    ClientOk(c, s) && HandshakeOk(c, s) && LedgerOk(s)
  }

  lemma WithoutIn(net: seq<nat>, i: nat)
    requires i < |net|
    ensures 0 in Without(net, i) ==> 0 in net
    ensures Sum(Without(net, i)) == Sum(net) - net[i]
  {
    SumRemove(net, i);
  }

  lemma ClientStepOk(c: Config, s: State, step: Step)
    requires ValidConfig(c) && ClientOk(c, s) && Enabled(c, s, step)
    ensures ClientOk(c, Apply(c, s, step))
  {
    if step.Deliver? || step.Lose? {
      WithoutIn(s.net, step.i);
    }
  }

  lemma HandshakeStepOk(c: Config, s: State, step: Step)
    requires ValidConfig(c) && HandshakeOk(c, s) && Enabled(c, s, step)
    ensures HandshakeOk(c, Apply(c, s, step))
  {
  }

  lemma LedgerStepOk(c: Config, s: State, step: Step)
    requires ValidConfig(c) && ClientOk(c, s) && LedgerOk(s) && Enabled(c, s, step)
    ensures LedgerOk(Apply(c, s, step))
  {
    match step
    case SendData => SumAppend(s.net, Chunk(c, s.sent));
    case SendEof => SumAppend(s.net, 0);
    case Deliver(i) => ArrivalOk(c, s, i);
    case Lose(i) => WithoutIn(s.net, i);
    case Duplicate(i) => SumAppend(s.net, s.net[i]);
    case _ =>
  }

  lemma ArrivalOk(c: Config, s: State, i: nat)
    requires ValidConfig(c) && LedgerOk(s) && Enabled(c, s, Deliver(i))
    ensures LedgerOk(Apply(c, s, Deliver(i)))
  {
    WithoutIn(s.net, i);
  }

  lemma StepOk(c: Config, s: State, step: Step)
    requires ValidConfig(c) && Inv(c, s) && Enabled(c, s, step)
    ensures Inv(c, Apply(c, s, step))
  {
    ClientStepOk(c, s, step);
    HandshakeStepOk(c, s, step);
    LedgerStepOk(c, s, step);
  }

  lemma {:induction false} InvariantHolds(c: Config, steps: seq<Step>)
    requires ValidConfig(c) && Run(c, steps)
    ensures Inv(c, After(c, steps))
    decreases |steps|
  {
    if steps != [] {
      InvariantHolds(c, steps[..|steps| - 1]);
      StepOk(c, After(c, steps[..|steps| - 1]), steps[|steps| - 1]);
    }
  }

  // ---------------------------------------------------------------- safety

  /**
   Under any loss, duplication and reordering: an empty datagram is on its way, or has closed the server, only
   after the client handed all `file_size` bytes to the network; the client leaves its wait loop acknowledged
   only if the server did close that way; and the bytes balance.
   */
  lemma HandshakeSafety(c: Config, steps: seq<Step>)
    requires ValidConfig(c) && Run(c, steps)
    ensures 0 in After(c, steps).net || After(c, steps).server.ClosedOnEof? ==> After(c, steps).sent == c.fileSize
    ensures After(c, steps).client.Gone? ==> After(c, steps).sent == c.fileSize
    ensures After(c, steps).client == Gone(Acked) ==> After(c, steps).server.ClosedOnEof?
    ensures
      var s := After(c, steps);
      s.sent + s.duplicated == s.received + s.truncated + Sum(s.net) + s.lost + s.unopened
  {
    InvariantHolds(c, steps);
  }

  /**
   A refused send means what the design says it means, that the server is done and only its ack was lost, when
   the server was bound before the client started and did not abort.
   */
  lemma RefusalMeansServerDone(c: Config, steps: seq<Step>)
    requires ValidConfig(c) && c.boundFirst && Run(c, steps) && After(c, steps).client.Gone?
    ensures After(c, steps).server.ClosedOnEof? || After(c, steps).server.ServerAborted?
  {
    InvariantHolds(c, steps);
  }

  // ------------------------------------------------- what the server has been told

  /** The lengths of the datagrams that reached the server while it was open, in order. */
  function Taken(c: Config, steps: seq<Step>): seq<nat>
    requires Run(c, steps)
    decreases |steps|
  {
    if steps == [] then []
    else
      var front, last := steps[..|steps| - 1], steps[|steps| - 1];
      Taken(c, front) + TakenBy(After(c, front), last)
  }

  function TakenBy(s: State, step: Step): seq<nat> {
    if step.Deliver? && step.i < |s.net| && Open(s.server) then [s.net[step.i]] else []
  }

  /** Of datagrams of these lengths, the bytes that fit the buffer. */
  function Fitting(lens: seq<nat>, buf: nat): nat {
    if lens == [] then 0
    else
      var last := lens[|lens| - 1];
      Fitting(lens[..|lens| - 1], buf) + (if last < buf then last else buf)
  }

  predicate NoneEmpty(lens: seq<nat>, from: nat, to: nat)
    requires to <= |lens|
  {
    forall k :: from <= k < to ==> lens[k] != 0
  }

  /**
   The server, told by the datagrams it took. The first one is data whatever its length; it is closed exactly by the first
   empty one after that, and then takes no more.
   */
  predicate ToldBy(c: Config, s: State, lens: seq<nat>) {
    && s.received == Fitting(lens, c.serverBufsize)
    && match s.server
       case Unbound => lens == []
       case First => lens == []
       case Looping => lens != [] && NoneEmpty(lens, 1, |lens|)
       case ClosedOnEof => 2 <= |lens| && lens[|lens| - 1] == 0 && NoneEmpty(lens, 1, |lens| - 1)
       case ServerAborted => NoneEmpty(lens, 1, |lens|)
  }

  lemma FittingOneMore(lens: seq<nat>, len: nat, buf: nat)
    ensures Fitting(lens + [len], buf) == Fitting(lens, buf) + (if len < buf then len else buf)
  {
    assert (lens + [len])[..|lens|] == lens;
  }

  lemma ToldByStep(c: Config, s: State, step: Step, lens: seq<nat>)
    requires ValidConfig(c) && Enabled(c, s, step) && ToldBy(c, s, lens)
    ensures ToldBy(c, Apply(c, s, step), lens + TakenBy(s, step))
  {
    if TakenBy(s, step) == [] {
      assert lens + [] == lens;
    } else {
      FittingOneMore(lens, s.net[step.i], c.serverBufsize);
    }
  }

  /** Acknowledgements that have left the way back, delivered or lost. */
  function AcksArrived(steps: seq<Step>): nat {
    if steps == [] then 0
    else AcksArrived(steps[..|steps| - 1]) + (if steps[|steps| - 1] in {DeliverAck, LoseAck} then 1 else 0)
  }

  lemma AckStep(c: Config, s: State, step: Step)
    requires ValidConfig(c) && Enabled(c, s, step)
    ensures
      var t := Apply(c, s, step);
      t.acks - s.acks + (if step in {DeliverAck, LoseAck} then 1 else 0) ==
      (if t.server.ClosedOnEof? then 1 else 0) - (if s.server.ClosedOnEof? then 1 else 0)
  {
  }

  /**
   In every run the server is as told by the datagrams it took while open, and it has sent exactly one acknowledgement
   if it is closed on an empty datagram and none otherwise: so none before its second datagram.
   */
  lemma {:induction false} ServerMeans(c: Config, steps: seq<Step>)
    requires ValidConfig(c) && Run(c, steps)
    ensures ToldBy(c, After(c, steps), Taken(c, steps))
    ensures After(c, steps).acks + AcksArrived(steps) == if After(c, steps).server.ClosedOnEof? then 1 else 0
    decreases |steps|
  {
    if steps != [] {
      var front, last := steps[..|steps| - 1], steps[|steps| - 1];
      ServerMeans(c, front);
      ToldByStep(c, After(c, front), last, Taken(c, front));
      AckStep(c, After(c, front), last);
    }
  }

  // ------------------------------------------------ what the client has been through

  function DataSends(steps: seq<Step>): nat {
    if steps == [] then 0 else DataSends(steps[..|steps| - 1]) + (if steps[|steps| - 1].SendData? then 1 else 0)
  }

  /** Datagrams put on the way to the server, less those taken off it. */
  function OnTheWay(steps: seq<Step>): int {
    if steps == [] then 0
    else
      OnTheWay(steps[..|steps| - 1]) +
      match steps[|steps| - 1]
      case SendData => 1
      case SendEof => 1
      case Duplicate(_) => 1
      case Deliver(_) => -1
      case Lose(_) => -1
      case _ => 0
  }

  /** The client, told by the steps it took. */
  predicate ClientToldBy(c: Config, s: State, steps: seq<Step>) {
    && (s.client == Gone(Acked) <==> PollAck in steps)
    && (s.client == Gone(Refused) <==> SendRefused in steps)
    && (s.client == ClientAborted <==> SendDataFails in steps)
    && (Waiting(s) || s.client.Gone? <==> DataDone in steps)
    && (s.ackHere <==> DeliverAck in steps)
    && (PollAck in steps ==> DeliverAck in steps)
  }

  lemma ClientToldByStep(c: Config, s: State, step: Step, earlier: seq<Step>, steps: seq<Step>)
    requires ValidConfig(c) && Enabled(c, s, step) && ClientToldBy(c, s, earlier)
    requires steps == earlier + [step]
    ensures ClientToldBy(c, Apply(c, s, step), steps)
  {
    assert forall x :: x in steps <==> x in earlier || x == step;
  }

  lemma DataStep(c: Config, s: State, step: Step, n: nat)
    requires ValidConfig(c) && Enabled(c, s, step) && s.sent == Min(c.fileSize, c.bufsize * n)
    ensures Apply(c, s, step).sent == Min(c.fileSize, c.bufsize * (if step.SendData? then n + 1 else n))
  {
    assert c.bufsize * (n + 1) == c.bufsize * n + c.bufsize;
  }

  /**
   In every run the client is out of its loop acknowledged exactly if a poll saw an ack, and refused exactly if a send was
   refused; each data datagram has the full buffer size as long as the file lasts; and the datagrams balance.
   */
  lemma {:induction false} ClientMeans(c: Config, steps: seq<Step>)
    requires ValidConfig(c) && Run(c, steps)
    ensures ClientToldBy(c, After(c, steps), steps)
    ensures After(c, steps).sent == Min(c.fileSize, c.bufsize * DataSends(steps))
    ensures |After(c, steps).net| == OnTheWay(steps)
    decreases |steps|
  {
    if steps != [] {
      var front, last := steps[..|steps| - 1], steps[|steps| - 1];
      ClientMeans(c, front);
      ClientToldByStep(c, After(c, front), last, front, steps);
      DataStep(c, After(c, front), last, DataSends(front));
      NetStep(c, After(c, front), last);
    }
  }

  /** A datagram has found the port closed since the latest refused send. */
  predicate RefusalPending(c: Config, steps: seq<Step>)
    requires Run(c, steps)
    decreases |steps|
  {
    steps != [] &&
    var front, last := steps[..|steps| - 1], steps[|steps| - 1];
    (last.Deliver? && !Open(After(c, front).server)) || (!last.SendRefused? && RefusalPending(c, front))
  }

  lemma IcmpStep(c: Config, s: State, step: Step)
    requires Enabled(c, s, step)
    ensures Apply(c, s, step).icmp <==> (step.Deliver? && !Open(s.server)) || (!step.SendRefused? && s.icmp)
  {
  }

  /** The client's next send is refused exactly if a datagram has found the port closed since the latest refusal. */
  lemma {:induction false} RefusalMeans(c: Config, steps: seq<Step>)
    requires Run(c, steps)
    ensures After(c, steps).icmp <==> RefusalPending(c, steps)
    decreases |steps|
  {
    if steps != [] {
      RefusalMeans(c, steps[..|steps| - 1]);
      IcmpStep(c, After(c, steps[..|steps| - 1]), steps[|steps| - 1]);
    }
  }

  lemma NetStep(c: Config, s: State, step: Step)
    requires Enabled(c, s, step)
    ensures |Apply(c, s, step).net| == |s.net| +
      match step
      case SendData => 1
      case SendEof => 1
      case Duplicate(_) => 1
      case Deliver(_) => -1
      case Lose(_) => -1
      case _ => 0
  {
  }

  // --------------------------------------------------------------- buffers

  /** The largest datagram that the client sends. */
  function Largest(c: Config): nat {
    Min(c.fileSize, c.bufsize)
  }

  predicate Uncut(c: Config, s: State) {
    s.truncated == 0 && s.sent <= c.fileSize && forall i :: 0 <= i < |s.net| ==> s.net[i] <= Largest(c)
  }

  lemma UncutStep(c: Config, s: State, step: Step)
    requires ValidConfig(c) && Largest(c) <= c.serverBufsize && Uncut(c, s) && Enabled(c, s, step)
    ensures Uncut(c, Apply(c, s, step))
  {
  }

  lemma {:induction false} StaysUncut(c: Config, steps: seq<Step>)
    requires ValidConfig(c) && Largest(c) <= c.serverBufsize && Run(c, steps)
    ensures Uncut(c, After(c, steps))
    decreases |steps|
  {
    if steps != [] {
      StaysUncut(c, steps[..|steps| - 1]);
      UncutStep(c, After(c, steps[..|steps| - 1]), steps[|steps| - 1]);
    }
  }

  /** The first datagram of the file, delivered to a server with a smaller buffer. */
  lemma FirstIsCut(c: Config) returns (steps: seq<Step>)
    requires ValidConfig(c) && c.serverBufsize < Largest(c)
    ensures Run(c, steps) && After(c, steps).truncated == Largest(c) - c.serverBufsize
  {
    steps := [];
    assert Run(c, steps) && After(c, steps) == Init(c);
    if !c.boundFirst {
      Extend(c, steps, Bind);
      steps := steps + [Bind];
    }
    Extend(c, steps, SendData);
    steps := steps + [SendData];
    Extend(c, steps, Deliver(0));
    steps := steps + [Deliver(0)];
  }

  /** No byte is ever cut off if and only if the largest datagram fits the server's buffer. */
  lemma NothingCutIff(c: Config)
    requires ValidConfig(c)
    ensures (forall steps :: Run(c, steps) ==> After(c, steps).truncated == 0) <==> Largest(c) <= c.serverBufsize
  {
    if Largest(c) <= c.serverBufsize {
      forall steps | Run(c, steps)
        ensures After(c, steps).truncated == 0
      {
        StaysUncut(c, steps);
      }
    } else {
      var steps := FirstIsCut(c);
    }
  }

  // -------------------------------------------------------------- progress

  /** Both endpoints have ended. */
  predicate Ended(s: State) {
    s.client.Gone? && !Open(s.server)
  }

  /** How many effective events are still needed, at most. */
  function Distance(s: State): nat {
    if s.client.Gone? then 0
    else if s.server.First? then 4
    else if s.server.Looping? then 3
    else if s.icmp then 1
    else 2
  }

  /**
   An event that moves the handshake on: an empty datagram reaches the open server, or reaches the closed one
   and raises a refusal; the refusal is reported; or an ack is seen.
   */
  predicate Effective(s: State, step: Step) {
    match step
    case Deliver(i) => i < |s.net| && s.net[i] == 0 && (Open(s.server) || !s.icmp)
    case SendRefused => true
    case PollAck => true
    case _ => false
  }

  predicate WaitState(c: Config, s: State) {
    Inv(c, s) && c.boundFirst && (Waiting(s) || s.client.Gone?)
  }

  lemma GoneMeansEnded(c: Config, s: State)
    requires WaitState(c, s) && Distance(s) == 0
    ensures Ended(s)
  {
    match s.client.why
    case Acked =>
    case Refused =>
  }

  lemma StepNeverBacktracks(c: Config, s: State, step: Step)
    requires ValidConfig(c) && WaitState(c, s) && Enabled(c, s, step)
    ensures WaitState(c, Apply(c, s, step))
    ensures Distance(Apply(c, s, step)) <= Distance(s)
    ensures Effective(s, step) && Waiting(s) ==> Distance(Apply(c, s, step)) < Distance(s)
  {
    StepOk(c, s, step);
  }

  /** The number of effective events in a walk, while the client waits. */
  function Effects(c: Config, s: State, more: seq<Step>): nat
    requires Walk(c, s, more)
    decreases |more|
  {
    if more == [] then 0
    else (if Waiting(s) && Effective(s, more[0]) then 1 else 0) + Effects(c, Apply(c, s, more[0]), more[1..])
  }

  lemma {:induction false} EffectsAreBounded(c: Config, s: State, more: seq<Step>)
    requires ValidConfig(c) && WaitState(c, s) && Walk(c, s, more)
    ensures WaitState(c, WalkEnd(c, s, more))
    ensures Effects(c, s, more) + Distance(WalkEnd(c, s, more)) <= Distance(s)
    decreases |more|
  {
    if more != [] {
      StepNeverBacktracks(c, s, more[0]);
      EffectsAreBounded(c, Apply(c, s, more[0]), more[1..]);
    }
  }

  /**
   The handshake never gets stuck: once the client waits, in every continuation of every run as many effective events as
   its distance are enough to end both endpoints. The distance is at most four: four when the server has received nothing
   and so takes the first empty datagram for data, three when it is in its loop, two or one when it has closed.
   */
  lemma EffectsEndIt(c: Config, steps: seq<Step>, more: seq<Step>)
    requires ValidConfig(c) && c.boundFirst && Run(c, steps) && Waiting(After(c, steps))
    requires Walk(c, After(c, steps), more) && Effects(c, After(c, steps), more) >= Distance(After(c, steps))
    ensures Ended(WalkEnd(c, After(c, steps), more)) && Distance(After(c, steps)) <= 4
  {
    InvariantHolds(c, steps);
    EffectsAreBounded(c, After(c, steps), more);
    GoneMeansEnded(c, WalkEnd(c, After(c, steps), more));
  }

  lemma OneStep(c: Config, s: State, step: Step)
    requires Enabled(c, s, step)
    ensures Walk(c, s, [step]) && WalkEnd(c, s, [step]) == Apply(c, s, step)
  {
    assert [step][1..] == [];
    assert Walk(c, Apply(c, s, step), []);
  }

  /** At the send of the wait loop, one send, delivered or refused, moves the handshake on. */
  lemma ProgressAtSend(c: Config, s: State) returns (more: seq<Step>)
    requires ValidConfig(c) && WaitState(c, s) && s.client.WaitSend?
    ensures |more| <= 2 && Walk(c, s, more)
    ensures WaitState(c, WalkEnd(c, s, more)) && Distance(WalkEnd(c, s, more)) < Distance(s)
  {
    if s.icmp {
      more := [SendRefused];
      OneStep(c, s, SendRefused);
      StepNeverBacktracks(c, s, SendRefused);
    } else {
      var t := Apply(c, s, SendEof);
      StepNeverBacktracks(c, s, SendEof);
      StepNeverBacktracks(c, t, Deliver(|s.net|));
      OneStep(c, s, SendEof);
      OneStep(c, t, Deliver(|s.net|));
      WalkJoin(c, s, [SendEof], [Deliver(|s.net|)]);
      more := [SendEof] + [Deliver(|s.net|)];
    }
  }

  /** From every reachable waiting state the handshake can move on within three steps of both ends and the network. */
  lemma ProgressIsNear(c: Config, s: State) returns (more: seq<Step>)
    requires ValidConfig(c) && WaitState(c, s) && Waiting(s)
    ensures |more| <= 3 && Walk(c, s, more)
    ensures WaitState(c, WalkEnd(c, s, more)) && Distance(WalkEnd(c, s, more)) < Distance(s)
  {
    if s.client.WaitSend? {
      more := ProgressAtSend(c, s);
    } else {
      var step := if s.ackHere then PollAck else PollNothing;
      OneStep(c, s, step);
      StepNeverBacktracks(c, s, step);
      more := [step];
      if !s.ackHere {
        var rest := ProgressAtSend(c, Apply(c, s, step));
        WalkJoin(c, s, [step], rest);
        more := [step] + rest;
      }
    }
  }

  /** From every waiting state a continuation of at most twelve steps ends both endpoints. */
  lemma {:induction false} CanAlwaysFinish(c: Config, s: State) returns (more: seq<Step>)
    requires ValidConfig(c) && WaitState(c, s)
    ensures |more| <= 3 * Distance(s) && Walk(c, s, more) && Ended(WalkEnd(c, s, more))
    decreases Distance(s)
  {
    if s.client.Gone? {
      more := [];
      GoneMeansEnded(c, s);
    } else {
      var first := ProgressIsNear(c, s);
      var rest := CanAlwaysFinish(c, WalkEnd(c, s, first));
      WalkJoin(c, s, first, rest);
      more := first + rest;
    }
  }

  /** An acknowledgement that arrives gets a waiting client out, unless a refusal does so first. */
  lemma AckEndsWait(c: Config, s: State) returns (more: seq<Step>)
    requires ValidConfig(c) && Waiting(s) && 0 < s.acks && (s.client.WaitSend? ==> !s.icmp)
    ensures |more| <= 3 && Walk(c, s, more) && WalkEnd(c, s, more).client == Gone(Acked)
  {
    var t := Apply(c, s, DeliverAck);
    OneStep(c, s, DeliverAck);
    if t.client.WaitPoll? {
      OneStep(c, t, PollAck);
      WalkJoin(c, s, [DeliverAck], [PollAck]);
      more := [DeliverAck] + [PollAck];
    } else {
      var u := Apply(c, t, SendEof);
      OneStep(c, t, SendEof);
      OneStep(c, u, PollAck);
      WalkJoin(c, t, [SendEof], [PollAck]);
      WalkJoin(c, s, [DeliverAck], [SendEof] + [PollAck]);
      more := [DeliverAck] + ([SendEof] + [PollAck]);
    }
  }

  /** The client can get through its data phase without hearing from anybody. */
  lemma {:induction false} SendEverything(c: Config, s: State) returns (more: seq<Step>)
    requires ValidConfig(c) && s.client.Sending? && s.sent <= c.fileSize && !s.icmp && s.server.Unbound?
    ensures Walk(c, s, more)
    ensures
      var t := WalkEnd(c, s, more);
      t.client.WaitSend? && !t.icmp && t.ackHere == s.ackHere && t.server.Unbound?
    decreases c.fileSize - s.sent
  {
    var step := if s.sent < c.fileSize then SendData else DataDone;
    OneStep(c, s, step);
    more := [step];
    if s.sent < c.fileSize {
      var rest := SendEverything(c, Apply(c, s, step));
      WalkJoin(c, s, [step], rest);
      more := [step] + rest;
    }
  }

  /**
   If the server is not bound first, then for every file and packet size there is a run in which a refusal means
   nothing of the kind: the client leaves its wait loop, and the server has not even started.
   */
  lemma RefusalBeforeBind(c: Config) returns (steps: seq<Step>)
    requires ValidConfig(c) && !c.boundFirst
    ensures Run(c, steps) && After(c, steps).client == Gone(Refused) && After(c, steps).server.Unbound?
  {
    var first := SendEverything(c, Init(c));
    var s := WalkEnd(c, Init(c), first);
    var n := |s.net|;
    var s1 := Apply(c, s, SendEof);
    var s2 := Apply(c, s1, Deliver(n));
    var s3 := Apply(c, s2, PollNothing);
    OneStep(c, s3, SendRefused);
    OneStep(c, s2, PollNothing);
    WalkJoin(c, s2, [PollNothing], [SendRefused]);
    OneStep(c, s1, Deliver(n));
    WalkJoin(c, s1, [Deliver(n)], [PollNothing] + [SendRefused]);
    OneStep(c, s, SendEof);
    var last := [Deliver(n)] + ([PollNothing] + [SendRefused]);
    WalkJoin(c, s, [SendEof], last);
    WalkJoin(c, Init(c), first, [SendEof] + last);
    steps := WalkIsRun(c, [], first + ([SendEof] + last));
  }
}
