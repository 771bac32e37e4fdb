/**
 A multi-connection transfer: the threads of tb_stream_m_client, one FIFO byte channel per connection,
 the accept loop of tb_stream_m_server with tb_stream_event, and one tb_stream_m_server_conn worker per
 accepted connection. tb_udt_m_client, tb_udt_event and tb_udt_m_server_conn are the same protocol.

 One step is one access to shared state by one thread. The critical sections of tb_session_list_inc
 and tb_session_list_dec are single steps, as their documentation promises.
 */
module MultiTransfer {
  import opened Sums
  import opened Slices

  /** Over UDT the end of the stream is error 2001, which a lost connection raises too. */
  datatype Transport = Tcp | Udt

  /** The slices to send, one per connection and all of length `quota`, and the packet size at each end. */
  datatype Config = Config(transport: Transport, parts: seq<seq<byte>>, quota: nat, clientPack: nat, serverPack: nat)

  predicate ValidConfig(c: Config) {
    && 0 < |c.parts| && 0 < c.clientPack && 0 < c.serverPack
    && forall x :: 0 <= x < |c.parts| ==> |c.parts[x]| == c.quota
  }

  /** The transfer of a buffer: `num_conn` slices of `file_size / num_conn` bytes each. */
  function Transfer(transport: Transport, data: seq<byte>, conns: nat, clientPack: nat, serverPack: nat): (c: Config)
    requires 0 < conns && 0 < clientPack && 0 < serverPack
    ensures ValidConfig(c)
  {
    Config(transport, seq(conns, x requires 0 <= x < conns => Slice(data, conns, x)), SliceSize(|data|, conns),
           clientPack, serverPack)
  }

  datatype ClientPc = Connecting | Unconnected | Sending | Completed | Errored

  /** The thread has returned; `Unconnected` if its connect failed, so that the server has nothing to accept. */
  predicate Returned(pc: ClientPc) {
    pc.Completed? || pc.Errored? || pc.Unconnected?
  }

  /** A tb_stream_connection thread, its `total_bytes`, and whether the server has accepted its connection. */
  datatype Client = Client(pc: ClientPc, sent: nat, accepted: bool)

  /** Where a tb_stream_m_server_conn thread is; `zero` is whether its decrement returned zero. */
  datatype WorkerPc =
    | Unspawned | Spawned | Receiving | Adding(rc: nat) | AtEof | Closed
    | Decremented(zero: bool) | Finished(zero: bool) | Failed

  datatype SessionStatus = SessionCreated | SessionConnected | SessionDisconnected

  /** `counted`: tb_session_list_inc has been called for it. `received`: what recv has returned so far. */
  datatype Session = Session(conn: nat, pc: WorkerPc, counted: bool, status: SessionStatus, total: nat, received: seq<byte>)

  /** Where the server's main thread is: in its poll loop, at accept, or between accept and the next one. */
  datatype MainPc = Polling | Accepting | Appended | Counted | Started | Left

  datatype Status = Listening | Connected | Disconnected

  datatype Command = Continue | Exit

  datatype State = State(
    clients: seq<Client>, channels: seq<seq<byte>>, joined: nat,
    sessions: seq<Session>, active: int, command: Command, status: Status, main: MainPc)

  datatype Step =
    // client threads, and the client's main thread that joins and closes them in order
    | Connect(x: nat) | ConnectFail(x: nat) | Send(x: nat, n: nat) | SendFail(x: nat) | Complete(x: nat) | JoinClose
    // the server's main thread
    | PollEvent | PollExit | Accept(x: nat) | AcceptNone | Count | Spawn | Announce
    // the workers
    | Begin(k: nat) | Recv(k: nat, n: nat) | AddBytes(k: nat) | Eof(k: nat) | RecvFail(k: nat)
    | Disconnect(k: nat) | Decrement(k: nat) | Finish(k: nat)

  function Init(c: Config): State {
    State(seq(|c.parts|, _ => Client(Connecting, 0, false)), seq(|c.parts|, _ => []), 0, [], 0, Continue, Listening, Polling)
  }

  /** The size of the next request of the chunking loop. */
  function Request(c: Config, sent: nat): nat
    requires sent <= c.quota
  {
    if c.quota - sent < c.clientPack then c.quota - sent else c.clientPack
  }

  predicate Shape(c: Config, s: State) {
    && |s.clients| == |s.channels| == |c.parts|
    && s.joined <= |c.parts|
    && (s.main in {Appended, Counted, Started} ==> s.sessions != [])
    && forall k :: 0 <= k < |s.sessions| ==> s.sessions[k].conn < |c.parts|
  }

  predicate HasConnected(cl: Client) {
    !cl.pc.Connecting? && !cl.pc.Unconnected?
  }

  predicate AtClient(s: State, x: nat, pc: ClientPc) {
    x < |s.clients| && s.clients[x].pc == pc
  }

  predicate AtWorker(s: State, k: nat, pc: WorkerPc) {
    k < |s.sessions| && s.sessions[k].pc == pc
  }

  predicate Enabled(c: Config, s: State, step: Step)
    requires ValidConfig(c) && Shape(c, s)
  {
    match step
    case Connect(x) => AtClient(s, x, Connecting)
    case ConnectFail(x) => AtClient(s, x, Connecting)
    case Send(x, n) =>
      AtClient(s, x, Sending) && s.clients[x].sent < c.quota && n <= Request(c, s.clients[x].sent)
    case SendFail(x) => AtClient(s, x, Sending)
    case Complete(x) => AtClient(s, x, Sending) && s.clients[x].sent >= c.quota
    case JoinClose => s.joined < |c.parts| && Returned(s.clients[s.joined].pc)
    case PollEvent => s.main == Polling && s.command == Continue
    case PollExit => s.main == Polling && s.command == Exit
    case Accept(x) => s.main == Accepting && x < |c.parts| && HasConnected(s.clients[x]) && !s.clients[x].accepted
    case AcceptNone => s.main == Accepting
    case Count => s.main == Appended
    case Spawn => s.main == Counted
    case Announce => s.main == Started
    case Begin(k) => AtWorker(s, k, Spawned)
    case Recv(k, n) =>
      && AtWorker(s, k, Receiving)
      && 0 < n <= c.serverPack && n <= |s.channels[s.sessions[k].conn]|
    case AddBytes(k) => k < |s.sessions| && s.sessions[k].pc.Adding?
    case Eof(k) =>
      && AtWorker(s, k, Receiving)
      && (c.transport.Udt? || (s.channels[s.sessions[k].conn] == [] && s.sessions[k].conn < s.joined))
    case RecvFail(k) => AtWorker(s, k, Receiving)
    case Disconnect(k) => AtWorker(s, k, AtEof)
    case Decrement(k) => AtWorker(s, k, Closed)
    case Finish(k) => k < |s.sessions| && s.sessions[k].pc.Decremented?
  }

  function SetClient(s: State, x: nat, pc: ClientPc): State
    requires x < |s.clients|
  {
    s.(clients := s.clients[x := s.clients[x].(pc := pc)])
  }

  function SetWorker(s: State, k: nat, y: Session): State
    requires k < |s.sessions|
  {
    s.(sessions := s.sessions[k := y])
  }

  function Apply(c: Config, s: State, step: Step): State
    requires ValidConfig(c) && Shape(c, s) && Enabled(c, s, step)
  {
    match step
    case Connect(x) => SetClient(s, x, Sending)
    case ConnectFail(x) => SetClient(s, x, Unconnected)
    case Send(x, n) =>
      var sent := s.clients[x].sent;
      s.(clients := s.clients[x := s.clients[x].(sent := sent + n)],
         channels := s.channels[x := s.channels[x] + c.parts[x][sent..sent + n]])
    case SendFail(x) => SetClient(s, x, Errored)
    case Complete(x) => SetClient(s, x, Completed)
    case JoinClose => s.(joined := s.joined + 1)
    case PollEvent => s.(main := Accepting)
    case PollExit => s.(main := Left, status := Disconnected)
    case Accept(x) =>
      s.(clients := s.clients[x := s.clients[x].(accepted := true)],
         sessions := s.sessions + [Session(x, Unspawned, false, SessionCreated, 0, [])], main := Appended)
    case AcceptNone => s.(main := Polling)
    case Count =>
      var k := |s.sessions| - 1;
      SetWorker(s, k, s.sessions[k].(counted := true)).(active := s.active + 1, main := Counted)
    case Spawn =>
      var k := |s.sessions| - 1;
      SetWorker(s, k, s.sessions[k].(pc := Spawned)).(main := Started)
    case Announce => s.(main := Accepting, status := if s.status == Listening then Connected else s.status)
    case Begin(k) => SetWorker(s, k, s.sessions[k].(pc := Receiving, status := SessionConnected))
    case Recv(k, n) =>
      var y := s.sessions[k];
      var ch := s.channels[y.conn];
      SetWorker(s, k, y.(pc := Adding(n), received := y.received + ch[..n])).(channels := s.channels[y.conn := ch[n..]])
    case AddBytes(k) =>
      var y := s.sessions[k];
      SetWorker(s, k, y.(pc := Receiving, total := y.total + y.pc.rc))
    case Eof(k) => SetWorker(s, k, s.sessions[k].(pc := AtEof))
    case RecvFail(k) => SetWorker(s, k, s.sessions[k].(pc := Failed, status := SessionDisconnected))
    case Disconnect(k) => SetWorker(s, k, s.sessions[k].(pc := Closed, status := SessionDisconnected))
    case Decrement(k) =>
      SetWorker(s, k, s.sessions[k].(pc := Decremented(s.active - 1 == 0))).(active := s.active - 1)
    case Finish(k) =>
      var zero := s.sessions[k].pc.zero;
      SetWorker(s, k, s.sessions[k].(pc := Finished(zero))).(command := if zero then Exit else s.command)
  }

  lemma ApplyKeepsShape(c: Config, s: State, step: Step)
    requires ValidConfig(c) && Shape(c, s) && Enabled(c, s, step)
    ensures Shape(c, Apply(c, s, step))
  {
  }

  // ------------------------------------------------------------------ runs

  /** A schedule is a run when each of its steps is enabled after the ones before it. */
  predicate Run(c: Config, steps: seq<Step>)
    requires ValidConfig(c)
    decreases |steps|, 0
  {
    steps == [] ||
    (var front := steps[..|steps| - 1];
     Run(c, front) && Enabled(c, After(c, front), steps[|steps| - 1]))
  }

  function After(c: Config, steps: seq<Step>): (s: State)
    requires ValidConfig(c) && Run(c, steps)
    ensures Shape(c, s)
    decreases |steps|, 1
  {
    if steps == [] then Init(c)
    else
      var s := After(c, steps[..|steps| - 1]);
      ApplyKeepsShape(c, s, steps[|steps| - 1]);
      Apply(c, s, steps[|steps| - 1])
  }

  // ------------------------------------------------------------- invariant

  function Register(pc: WorkerPc): nat {
    if pc.Adding? then pc.rc else 0
  }

  predicate PastEof(pc: WorkerPc) {
    pc.AtEof? || pc.Closed? || pc.Decremented? || pc.Finished?
  }

  /** What holds between one client thread and its channel. */
  predicate ClientOk(c: Config, s: State, x: nat)
    requires ValidConfig(c) && Shape(c, s) && x < |c.parts|
  {
    var cl := s.clients[x];
    && cl.sent <= c.quota
    && (!HasConnected(cl) ==> cl.sent == 0 && !cl.accepted)
    && (cl.pc == Completed ==> cl.sent == c.quota)
    && (x < s.joined ==> Returned(cl.pc))
    && (!cl.accepted ==> s.channels[x] == c.parts[x][..cl.sent])
  }

  /** What holds between one worker, its channel and the thread at the other end. */
  predicate SessionOk(c: Config, s: State, y: Session)
    requires ValidConfig(c) && Shape(c, s) && y.conn < |c.parts|
  {
    && s.clients[y.conn].accepted && s.clients[y.conn].sent <= c.quota
    && y.received + s.channels[y.conn] == c.parts[y.conn][..s.clients[y.conn].sent]
    && |y.received| == y.total + Register(y.pc)
    && (!y.counted ==> y.pc == Unspawned)
    && (y.pc in {Unspawned, Spawned} ==> y.received == [] && y.status == SessionCreated)
    && (y.pc.Receiving? || y.pc.Adding? || y.pc.AtEof? ==> y.status == SessionConnected)
    && (y.pc.Closed? || y.pc.Decremented? || y.pc.Finished? || y.pc.Failed? ==> y.status == SessionDisconnected)
    && (PastEof(y.pc) && c.transport.Tcp? ==> s.channels[y.conn] == [] && y.conn < s.joined)
  }

  /** A session counts as live from its increment to its own decrement. */
  function Live(y: Session): nat {
    if y.counted && !y.pc.Decremented? && !y.pc.Finished? then 1 else 0
  }

  function LiveSessions(s: State): seq<nat> {
    seq(|s.sessions|, i requires 0 <= i < |s.sessions| => Live(s.sessions[i]))
  }

  function Totals(s: State): seq<nat> {
    seq(|s.sessions|, i requires 0 <= i < |s.sessions| => s.sessions[i].total)
  }

  predicate MainOk(s: State) {
    && (s.main == Appended ==> s.sessions != [])
    && (s.main in {Appended, Counted} ==> s.sessions != [] && s.sessions[|s.sessions| - 1].pc == Unspawned)
    && (forall k :: 0 <= k < |s.sessions| ==>
          s.sessions[k].counted == !(s.main == Appended && k == |s.sessions| - 1))
    && (s.command == Exit ==> exists k :: 0 <= k < |s.sessions| && s.sessions[k].pc == Finished(true))
    && (s.main == Left ==> s.command == Exit)
  }

  predicate ConnsDistinct(s: State) {
    forall i, j :: 0 <= i < j < |s.sessions| ==> s.sessions[i].conn != s.sessions[j].conn
  }

  predicate Inv(c: Config, s: State)
    requires ValidConfig(c)
  {
    && Shape(c, s)
    && (forall x :: 0 <= x < |c.parts| ==> ClientOk(c, s, x))
    && (forall k :: 0 <= k < |s.sessions| ==> SessionOk(c, s, s.sessions[k]))
    && ConnsDistinct(s)
    && MainOk(s)
    && s.active == Sum(LiveSessions(s))
  }
}
