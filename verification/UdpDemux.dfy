/**
 tb_udp_event: one drain of the UDP socket of a multi-connection server. Every message starts with
 a session id and a size, which recvmsg scatters into an 8-byte buffer that lives for the whole drain;
 the message header hands over two buffers only, so no call returns more than 8 bytes.
 */
module UdpDemux {
  import opened Sums
  import opened Slices
  import opened SessionLists

  // ------------------------------------------------------------ the header buffer

  /** The four bytes of the id, then the four bytes of the size. */
  datatype Header = Header(i0: byte, i1: byte, i2: byte, i3: byte, s0: byte, s1: byte, s2: byte, s3: byte)

  /** A little-endian C `int`. */
  function Int32(b0: byte, b1: byte, b2: byte, b3: byte): int {
    b0 as int + 0x100 * b1 as int + 0x1_0000 * b2 as int + 0x100_0000 * (if b3 < 128 then b3 as int else b3 as int - 256)
  }

  function Id(h: Header): int {
    Int32(h.i0, h.i1, h.i2, h.i3)
  }

  function Size(h: Header): int {
    Int32(h.s0, h.s1, h.s2, h.s3)
  }

  /** `id = -1, sz = 0` */
  const NEW_HEADER := Header(255, 255, 255, 255, 0, 0, 0, 0)

  /** What recvmsg returns for a datagram. */
  function Returned(d: seq<byte>): nat {
    if |d| < 8 then |d| else 8
  }

  function Overwritten(kept: byte, d: seq<byte>, i: nat): byte {
    if i < |d| then d[i] else kept
  }

  /** A datagram overwrites as much of the buffer as it fills; the rest keeps its old bytes. */
  function Scatter(h: Header, d: seq<byte>): Header {
    Header(Overwritten(h.i0, d, 0), Overwritten(h.i1, d, 1), Overwritten(h.i2, d, 2), Overwritten(h.i3, d, 3),
           Overwritten(h.s0, d, 4), Overwritten(h.s1, d, 5), Overwritten(h.s2, d, 6), Overwritten(h.s3, d, 7))
  }

  /** The buffer after the first `k` datagrams of a drain. */
  function HeaderAfter(queue: seq<seq<byte>>, k: nat): Header
    requires k <= |queue|
  {
    if k == 0 then NEW_HEADER else Scatter(HeaderAfter(queue, k - 1), queue[k - 1])
  }

  /** Datagram `k` is credited to a session; a drain ends at the first one that is not. */
  predicate Credited(queue: seq<seq<byte>>, k: nat)
    requires k < |queue|
  {
    Size(HeaderAfter(queue, k + 1)) > 0
  }

  /** The session that datagram `k` is credited to. */
  function Owner(queue: seq<seq<byte>>, k: nat): int
    requires k < |queue|
  {
    Id(HeaderAfter(queue, k + 1))
  }

  /**
   The client's end mark is an empty datagram. It is recognised exactly when it is the first datagram of its drain:
   behind any other it finds that message's size still in the buffer and is credited, with no bytes, to its session.
   */
  lemma EmptyEndsDrainOnlyIfFirst(queue: seq<seq<byte>>, k: nat)
    requires k < |queue| && queue[k] == []
    requires forall j :: 0 <= j < k ==> Credited(queue, j)
    ensures !Credited(queue, k) <==> k == 0
    ensures k > 0 ==> Owner(queue, k) == Owner(queue, k - 1)
  {
    assert HeaderAfter(queue, k + 1) == HeaderAfter(queue, k);
    if k > 0 {
      assert Credited(queue, k - 1);
    }
  }

  // -------------------------------------------------------------- the wire format

  /** The values of a C `int`. */
  predicate Fits32(x: int) {
    -0x8000_0000 <= x < 0x8000_0000
  }

  /** A C `int` as a little-endian machine stores it. */
  function Encode32(x: int): (r: seq<byte>)
    requires Fits32(x)
    ensures |r| == 4
  {
    var u := if x < 0 then x + 0x1_0000_0000 else x;
    [u % 0x100, u / 0x100 % 0x100, u / 0x100 / 0x100 % 0x100, u / 0x100 / 0x100 / 0x100]
  }

  lemma Decode32(x: int)
    requires Fits32(x)
    ensures var b := Encode32(x); Int32(b[0], b[1], b[2], b[3]) == x
  {
    var u := if x < 0 then x + 0x1_0000_0000 else x;
    var v, w := u / 0x100, u / 0x100 / 0x100;
    assert u == 0x100 * v + u % 0x100 && v == 0x100 * w + v % 0x100 && w == 0x100 * (w / 0x100) + w % 0x100;
  }

  /** A message as the client sends it: the id, the size, the data. */
  datatype Wire = Wire(id: int, size: int, payload: seq<byte>)

  predicate ValidWire(w: Wire) {
    Fits32(w.id) && Fits32(w.size)
  }

  function Encode(w: Wire): seq<byte>
    requires ValidWire(w)
  {
    Encode32(w.id) + Encode32(w.size) + w.payload
  }

  /** Whatever was in the buffer before, a whole message leaves its own id and size there, and eight bytes are returned. */
  lemma HeaderRoundTrip(h: Header, w: Wire)
    requires ValidWire(w)
    ensures Id(Scatter(h, Encode(w))) == w.id && Size(Scatter(h, Encode(w))) == w.size
    ensures Returned(Encode(w)) == 8
  {
    var d := Encode(w);
    assert d[..4] == Encode32(w.id) && d[4..8] == Encode32(w.size);
    assert forall i :: 0 <= i < 4 ==> d[i] == d[..4][i] && d[4 + i] == d[4..8][i];
    Decode32(w.id);
    Decode32(w.size);
  }

  function BufferOf(h: Header): (r: seq<byte>)
    ensures |r| == 8
  {
    [h.i0, h.i1, h.i2, h.i3, h.s0, h.s1, h.s2, h.s3]
  }

  /** The buffer of a new drain holds id -1 and size 0; a datagram replaces its first bytes, as many as there are. */
  lemma BufferMeans(h: Header, d: seq<byte>)
    ensures Id(NEW_HEADER) == -1 && Size(NEW_HEADER) == 0
    ensures BufferOf(Scatter(h, d)) == if |d| < 8 then d + BufferOf(h)[|d|..] else d[..8]
    ensures Returned(d) <= |d| && Returned(d) <= 8 && (Returned(d) == |d| || Returned(d) == 8)
  {
  }

  /** A whole message is credited if and only if its size is positive, and then to the session that it names. */
  lemma WholeMessage(queue: seq<seq<byte>>, k: nat, w: Wire)
    requires k < |queue| && ValidWire(w) && queue[k] == Encode(w)
    ensures Credited(queue, k) <==> w.size > 0
    ensures Owner(queue, k) == w.id
  {
    HeaderRoundTrip(HeaderAfter(queue, k), w);
  }

  // ------------------------------------------------------- what a drain should do

  /** A credited datagram: the session it names and the bytes it brings. */
  datatype Message = Message(owner: int, bytes: nat)

  /** `ms` are the first datagrams of the drain, all of them credited, one message each. */
  predicate AreMessages(queue: seq<seq<byte>>, ms: seq<Message>) {
    && |ms| <= |queue|
    && forall j :: 0 <= j < |ms| ==> Credited(queue, j) && ms[j] == Message(Owner(queue, j), Returned(queue[j]))
  }

  lemma ReadOne(queue: seq<seq<byte>>, ms: seq<Message>, m: Message)
    requires |ms| < |queue| && AreMessages(queue, ms) && Credited(queue, |ms|)
    requires m == Message(Owner(queue, |ms|), Returned(queue[|ms|]))
    ensures AreMessages(queue, ms + [m])
  {
  }

  /** A queue of whole messages of positive sizes, as the clients send them. */
  predicate Carries(queue: seq<seq<byte>>, ws: seq<Wire>) {
    && |queue| == |ws|
    && forall j :: 0 <= j < |ws| ==> ValidWire(ws[j]) && ws[j].size > 0 && queue[j] == Encode(ws[j])
  }

  /** The messages of such a queue are for the sessions that the clients named, eight bytes each, and none ends the drain. */
  lemma MessagesOf(queue: seq<seq<byte>>, ws: seq<Wire>, ms: seq<Message>)
    requires Carries(queue, ws) && AreMessages(queue, ms)
    ensures forall j :: 0 <= j < |ms| ==> ms[j] == Message(ws[j].id, 8)
    ensures forall j :: 0 <= j < |queue| ==> Credited(queue, j)
  {
    forall j | 0 <= j < |queue|
      ensures Credited(queue, j) && Owner(queue, j) == ws[j].id && Returned(queue[j]) == 8
    {
      WholeMessage(queue, j, ws[j]);
      HeaderRoundTrip(NEW_HEADER, ws[j]);
    }
  }

  /** Session ids and totals in list order. */
  datatype View = View(ids: seq<int>, totals: seq<nat>)

  predicate ValidView(v: View) {
    |v.ids| == |v.totals| && forall i, j :: 0 <= i < j < |v.ids| ==> v.ids[i] != v.ids[j]
  }

  /** The bytes that `ms` brings to session `id`. */
  function BytesFor(ms: seq<Message>, id: int): nat {
    if ms == [] then 0
    else BytesFor(ms[..|ms| - 1], id) + (if ms[|ms| - 1].owner == id then ms[|ms| - 1].bytes else 0)
  }

  function AllBytes(ms: seq<Message>): nat {
    if ms == [] then 0 else AllBytes(ms[..|ms| - 1]) + ms[|ms| - 1].bytes
  }

  /** However much the clients send, a drain counts at most the 8 header bytes of each message. */
  lemma {:induction false} OnlyHeadersAreCounted(queue: seq<seq<byte>>, ms: seq<Message>)
    requires AreMessages(queue, ms)
    ensures AllBytes(ms) <= 8 * |ms|
    ensures (forall j :: 0 <= j < |ms| ==> 8 <= |queue[j]|) ==> AllBytes(ms) == 8 * |ms|
  {
    if ms != [] {
      OnlyHeadersAreCounted(queue, ms[..|ms| - 1]);
    }
  }

  /** The position of the first message for `id`, or the number of messages when there is none. */
  function FirstFor(ms: seq<Message>, id: int): nat {
    if ms == [] then 0
    else
      var before := FirstFor(ms[..|ms| - 1], id);
      if before < |ms| - 1 then before else if ms[|ms| - 1].owner == id then |ms| - 1 else |ms|
  }

  /** The ids from position `old` on are named by messages, for the first time in that order. */
  predicate InOrderOfAppearance(start: nat, ms: seq<Message>, ids: seq<int>) {
    && (forall i :: start <= i < |ids| ==> FirstFor(ms, ids[i]) < |ms|)
    && (forall i, j :: start <= i < j < |ids| ==> FirstFor(ms, ids[i]) < FirstFor(ms, ids[j]))
  }

  lemma SameOrder(start: nat, ms: seq<Message>, m: Message, ids: seq<int>)
    requires InOrderOfAppearance(start, ms, ids)
    ensures InOrderOfAppearance(start, ms + [m], ids)
  {
    forall j | start <= j < |ids|
      ensures FirstFor(ms + [m], ids[j]) == FirstFor(ms, ids[j])
    {
      NextMessage(ms, m, ids[j]);
    }
  }

  /**
   `r` is what the messages make of `v`, stated without following the list operations: old sessions first, then
   the new ones in the order of their first messages; no id twice; every total the old one plus
   what was sent to it; nothing lost and nothing invented in the sum.
   */
  predicate Demultiplexed(v: View, ms: seq<Message>, r: View) {
    && |v.ids| == |v.totals| && ValidView(r) && v.ids <= r.ids
    && (forall i :: 0 <= i < |r.ids| ==>
          r.totals[i] == (if i < |v.ids| then v.totals[i] else 0) + BytesFor(ms, r.ids[i]))
    && InOrderOfAppearance(|v.ids|, ms, r.ids)
    && (forall m :: m in ms ==> m.owner in r.ids)
    && Sum(r.totals) == Sum(v.totals) + AllBytes(ms)
  }

  // --------------------------------------------------------- crediting one message

  /** Adds to the session at `i`, or appends a session when `i` is past the end. */
  function Put(v: View, m: Message, i: nat): View
    requires i <= |v.ids| == |v.totals|
  {
    if i < |v.ids| then v.(totals := v.totals[i := v.totals[i] + m.bytes])
    else View(v.ids + [m.owner], v.totals + [m.bytes])
  }

  /** The position of the first session with that id, or the number of sessions when there is none. */
  function IndexOf(ids: seq<int>, id: int): (i: nat)
    ensures i <= |ids|
    ensures i < |ids| ==> ids[i] == id
    ensures forall j :: 0 <= j < i ==> ids[j] != id
  {
    if ids == [] then 0 else if ids[0] == id then 0 else 1 + IndexOf(ids[1..], id)
  }

  lemma IndexIs(ids: seq<int>, id: int, i: nat)
    requires i <= |ids| && (i < |ids| ==> ids[i] == id) && forall j :: 0 <= j < i ==> ids[j] != id
    ensures IndexOf(ids, id) == i
  {
  }

  function Deliver(v: View, m: Message): (r: View)
    requires |v.ids| == |v.totals|
    ensures |r.ids| == |r.totals|
  {
    Put(v, m, IndexOf(v.ids, m.owner))
  }

  function DeliverAll(v: View, ms: seq<Message>): (r: View)
    requires |v.ids| == |v.totals|
    ensures |r.ids| == |r.totals|
  {
    if ms == [] then v else Deliver(DeliverAll(v, ms[..|ms| - 1]), ms[|ms| - 1])
  }

  lemma DeliverNext(v: View, ms: seq<Message>, m: Message)
    requires |v.ids| == |v.totals|
    ensures DeliverAll(v, ms + [m]) == Deliver(DeliverAll(v, ms), m)
  {
    assert (ms + [m])[..|ms|] == ms;
  }

  lemma {:induction false} Absent(ms: seq<Message>, id: int)
    requires forall m :: m in ms ==> m.owner != id
    ensures BytesFor(ms, id) == 0 && FirstFor(ms, id) == |ms|
  {
    if ms != [] {
      assert ms[|ms| - 1] in ms;
      Absent(ms[..|ms| - 1], id);
    }
  }

  lemma NextMessage(ms: seq<Message>, m: Message, id: int)
    ensures BytesFor(ms + [m], id) == BytesFor(ms, id) + (if m.owner == id then m.bytes else 0)
    ensures FirstFor(ms, id) < |ms| ==> FirstFor(ms + [m], id) == FirstFor(ms, id)
    ensures FirstFor(ms, id) >= |ms| && m.owner == id ==> FirstFor(ms + [m], id) == |ms|
    ensures AllBytes(ms + [m]) == AllBytes(ms) + m.bytes
  {
    var longer := ms + [m];
    assert longer[..|longer| - 1] == ms;
  }

  lemma NothingYet(v: View)
    requires ValidView(v)
    ensures Demultiplexed(v, [], v)
  {
  }

  /** Crediting a session that is in the list. */
  lemma KnownOwner(v: View, ms: seq<Message>, r: View, m: Message, i: nat)
    requires Demultiplexed(v, ms, r) && i < |r.ids| && r.ids[i] == m.owner
    ensures Demultiplexed(v, ms + [m], Put(r, m, i))
  {
    SumUpdate(r.totals, i, r.totals[i] + m.bytes);
    NextMessage(ms, m, m.owner);
    SameOrder(|v.ids|, ms, m, r.ids);
    forall j | 0 <= j < |r.ids|
      ensures BytesFor(ms + [m], r.ids[j]) == BytesFor(ms, r.ids[j]) + (if j == i then m.bytes else 0)
    {
      NextMessage(ms, m, r.ids[j]);
    }
  }

  /** Crediting a session that must first be created. */
  lemma NewOwner(v: View, ms: seq<Message>, r: View, m: Message)
    requires Demultiplexed(v, ms, r) && m.owner !in r.ids
    ensures Demultiplexed(v, ms + [m], Put(r, m, |r.ids|))
  {
    SumAppend(r.totals, m.bytes);
    Absent(ms, m.owner);
    NextMessage(ms, m, m.owner);
    forall j | 0 <= j < |r.ids|
      ensures BytesFor(ms + [m], r.ids[j]) == BytesFor(ms, r.ids[j])
      ensures j >= |v.ids| ==> FirstFor(ms + [m], r.ids[j]) == FirstFor(ms, r.ids[j])
    {
      NextMessage(ms, m, r.ids[j]);
    }
  }

  /** Over every sequence of messages, delivering them one by one demultiplexes them. */
  lemma {:induction false} DeliverAllDemultiplexes(v: View, ms: seq<Message>)
    requires ValidView(v)
    ensures Demultiplexed(v, ms, DeliverAll(v, ms))
  {
    if ms == [] {
      NothingYet(v);
    } else {
      var front, last := ms[..|ms| - 1], ms[|ms| - 1];
      DeliverAllDemultiplexes(v, front);
      var r := DeliverAll(v, front);
      assert front + [last] == ms;
      if IndexOf(r.ids, last.owner) < |r.ids| {
        KnownOwner(v, front, r, last, IndexOf(r.ids, last.owner));
      } else {
        NewOwner(v, front, r, last);
      }
    }
  }

  // ---------------------------------------------------------- in the source's form

  ghost function ViewOf(list: SessionList): (v: View)
    reads list, list.Nodes()
    ensures |v.ids| == |v.totals| == |list.nodes|
    ensures forall i :: 0 <= i < |list.nodes| ==> v.ids[i] == list.nodes[i].id && v.totals[i] == list.nodes[i].totalBytes
  {
    View(seq(|list.nodes|, i requires 0 <= i < |list.nodes| reads list, list.Nodes() => list.nodes[i].id),
         seq(|list.nodes|, i requires 0 <= i < |list.nodes| reads list, list.Nodes() => list.nodes[i].totalBytes))
  }

  twostate lemma ViewExtended(list: SessionList, new session: Session)
    requires list.nodes == old(list.nodes) + [session]
    requires forall x :: x in old(list.nodes) ==> x.id == old(x.id) && x.totalBytes == old(x.totalBytes)
    ensures ViewOf(list) == View(old(ViewOf(list)).ids + [session.id], old(ViewOf(list)).totals + [session.totalBytes])
  {
    assert ViewOf(list).ids == old(ViewOf(list)).ids + [session.id];
    assert ViewOf(list).totals == old(ViewOf(list)).totals + [session.totalBytes];
  }

  /** tb_create_session changes nothing that exists. */
  method CreateSession(list: SessionList, id: int) returns (session: Session)
    requires list.Valid()
    ensures fresh(session) && fresh(session.stats) && session.next == null && session.stats.next == null
    ensures session.id == id && session.totalBytes == 0
    ensures list.Valid() && ViewOf(list) == old(ViewOf(list))
    ensures session !in list.nodes && session.stats !in list.Blocks()
  {
    session := new Session();
    session.id := id;
  }

  method AppendSession(list: SessionList, session: Session)
    requires list.Valid() && session !in list.nodes && session.stats !in list.Blocks()
    requires session.next == null && session.stats.next == null
    modifies list`numSessions, list`start, list`end, list`nodes, list.Nodes()`next, list.Blocks()`next
    ensures list.Valid() && list.nodes == old(list.nodes) + [session]
    ensures ViewOf(list) == View(old(ViewOf(list)).ids + [session.id], old(ViewOf(list)).totals + [session.totalBytes])
  {
    list.AddTo(session);
    ViewExtended(list, session);
  }

  /** Creates, appends and counts a session for an id that is not in the list yet. */
  method NewSession(list: SessionList, id: int) returns (session: Session)
    requires list.Valid()
    modifies list`numSessions, list`start, list`end, list`nodes, list`active, list.Nodes()`next, list.Blocks()`next
    ensures list.Valid() && list.nodes == old(list.nodes) + [session] && fresh(session) && fresh(session.stats)
    ensures ViewOf(list) == View(old(ViewOf(list)).ids + [id], old(ViewOf(list)).totals + [0])
    ensures list.active == old(list.active) + 1
  {
    session := CreateSession(list, id);
    AppendSession(list, session);
    var count := list.Increment();
  }

  /** A message for a session in the list. */
  method CreditKnown(list: SessionList, session: Session, m: Message, ghost at: nat)
    requires list.Valid() && at < |list.nodes| && list.nodes[at] == session
    modifies session`totalBytes
    ensures list.Valid() && ViewOf(list) == Put(old(ViewOf(list)), m, at)
  {
    ghost var before := ViewOf(list);
    session.totalBytes := session.totalBytes + m.bytes;
    assert ViewOf(list).ids == before.ids;
    assert ViewOf(list).totals == before.totals[at := before.totals[at] + m.bytes];
  }

  /** A message for a session that is not in the list yet. */
  method CreditNew(list: SessionList, m: Message) returns (session: Session)
    requires list.Valid()
    modifies list`numSessions, list`start, list`end, list`nodes, list`active, list.Nodes()`next, list.Blocks()`next
    ensures list.Valid() && list.nodes == old(list.nodes) + [session] && fresh(session) && fresh(session.stats)
    ensures ViewOf(list) == Put(old(ViewOf(list)), m, |old(list.nodes)|)
    ensures list.active == old(list.active) + 1
  {
    ghost var totals := ViewOf(list).totals;
    session := NewSession(list, m.owner);
    CreditKnown(list, session, m, |totals|);
    assert (totals + [0])[|totals| := 0 + m.bytes] == totals + [m.bytes];
  }

  /** The search, in terms of the view. */
  method Find(list: SessionList, id: int) returns (session: Session?, ghost at: nat)
    requires list.Valid()
    ensures at == IndexOf(ViewOf(list).ids, id)
    ensures session == if at < |list.nodes| then list.nodes[at] else null
  {
    session, at := list.Search(id);
    IndexIs(ViewOf(list).ids, id, at);
  }

  /** Finds or creates the session of a message and adds the bytes to its total. */
  method Handle(list: SessionList, m: Message)
    requires list.Valid()
    modifies list`numSessions, list`start, list`end, list`nodes, list`active, list.Nodes(), list.Blocks()`next
    ensures list.Valid() && ViewOf(list) == Deliver(old(ViewOf(list)), m)
    ensures list.active - old(list.active) == |list.nodes| - |old(list.nodes)|
    ensures forall x :: x in list.nodes ==> x in old(list.nodes) || (fresh(x) && fresh(x.stats))
  {
    var session, at := Find(list, m.owner);
    if session == null {
      session := CreditNew(list, m);
    } else {
      CreditKnown(list, session, m, at);
    }
  }

  /** Handles one more message of a drain that began with the view `v`. */
  method HandleNext(list: SessionList, m: Message, ghost v: View, ghost ms: seq<Message>)
    requires list.Valid() && |v.ids| == |v.totals| && ViewOf(list) == DeliverAll(v, ms)
    modifies list`numSessions, list`start, list`end, list`nodes, list`active, list.Nodes(), list.Blocks()`next
    ensures list.Valid() && ViewOf(list) == DeliverAll(v, ms + [m])
    ensures list.active - old(list.active) == |list.nodes| - |old(list.nodes)|
    ensures forall x :: x in list.nodes ==> x in old(list.nodes) || (fresh(x) && fresh(x.stats))
  {
    DeliverNext(v, ms, m);
    Handle(list, m);
  }

  datatype Verdict = Emptied | ExitCalled | SocketError

  /**
   One drain. `queue` holds the datagrams that are waiting and `broken` tells whether the socket then reports an error
   rather than would-block. The drain uses up every datagram before the first that is not credited, makes of
   the list exactly what those datagrams call for, counts the new sessions, and calls for an exit if and
   only if there is a datagram that is not credited.
   */
  method Drain(list: SessionList, queue: seq<seq<byte>>, broken: bool)
      returns (verdict: Verdict, used: nat, ghost ms: seq<Message>)
    requires list.Valid()
    modifies list`numSessions, list`start, list`end, list`nodes, list`active, list.Nodes(), list.Blocks()`next
    ensures list.Valid() && used <= |queue|
    ensures |ms| == used && AreMessages(queue, ms)
    ensures ValidView(old(ViewOf(list))) ==> Demultiplexed(old(ViewOf(list)), ms, ViewOf(list))
    ensures list.active - old(list.active) == |list.nodes| - |old(list.nodes)|
    ensures verdict.ExitCalled? <==> used < |queue|
    ensures used < |queue| ==> !Credited(queue, used)
    ensures used == |queue| ==> (verdict.SocketError? <==> broken)
  {
    ghost var before := ViewOf(list);
    var header := NEW_HEADER;
    used, ms := 0, [];
    while used < |queue|
      invariant used <= |queue| && list.Valid() && header == HeaderAfter(queue, used)
      invariant |ms| == used && AreMessages(queue, ms) && ViewOf(list) == DeliverAll(before, ms)
      invariant list.active - old(list.active) == |list.nodes| - |old(list.nodes)|
      invariant forall x :: x in list.nodes ==> x in old(list.nodes) || (fresh(x) && fresh(x.stats))
    {
      header := Scatter(header, queue[used]);
      var m := Message(Id(header), Returned(queue[used]));
      if Size(header) <= 0 {
        assert !Credited(queue, used);
        break;
      }
      ReadOne(queue, ms, m);
      HandleNext(list, m, before, ms);
      used, ms := used + 1, ms + [m];
    }
    verdict := if used < |queue| then ExitCalled else if broken then SocketError else Emptied;
    if ValidView(before) {
      DeliverAllDemultiplexes(before, ms);
    }
  }
}
