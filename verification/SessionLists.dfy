/**
 The heap list of sessions with its parallel chain of statistics blocks (tb_session_add,
 tb_session_add_to, tb_session_list_inc, tb_session_list_dec, tb_session_list_search) and the setup
 loop of a multi-connection client.
 */
module SessionLists {
  import opened Slices

  datatype SessionStatus = Created | AddressResolved | Connected | Complete | Disconnected

  /** The statistics that are doubles. */
  datatype Rates = Rates(
    rtt: real, rttVar: real, sendRate: real, recvRate: real, sendWindow: real, recvWindow: real)

  const NO_RATES := Rates(0.0, 0.0, 0.0, 0.0, 0.0, 0.0)

  class Stats {
    var next: Stats?
    var rates: Rates
    var sendLoss: int
    var recvLoss: int

    constructor ()
      ensures next == null && rates == NO_RATES && sendLoss == 0 && recvLoss == 0
    {
      next, rates, sendLoss, recvLoss := null, NO_RATES, 0, 0;
    }
  }

  class Session {
    var id: int
    var status: SessionStatus
    var totalBytes: nat
    var data: seq<byte>
    const stats: Stats
    var next: Session?

    /** tb_create_session */
    constructor ()
      ensures fresh(stats) && stats.next == null && next == null
      ensures status == Created && totalBytes == 0
    {
      id, status, totalBytes, data, next := 0, Created, 0, [], null;
      stats := new Stats();
    }
  }

  class SessionList {
    var currentMaxId: int
    var numSessions: int
    var start: Session?
    var end: Session?
    var active: int
    ghost var nodes: seq<Session>

    ghost function Nodes(): set<Session>
      reads this
    {
      set x | x in nodes
    }

    ghost function Blocks(): set<Stats>
      reads this
    {
      set x | x in nodes :: x.stats
    }

    /** `nodes` are distinct, linked in order from `start` to `end`, and so are their statistics blocks. */
    ghost predicate Valid()
      reads this, Nodes(), Blocks()
    {
      && numSessions == |nodes|
      && (forall i, j :: 0 <= i < j < |nodes| ==> nodes[i] != nodes[j] && nodes[i].stats != nodes[j].stats)
      && (nodes == [] ==> start == null && end == null)
      && (nodes != [] ==> start == nodes[0] && end == nodes[|nodes| - 1])
      && (forall i, j :: 0 <= i < j < |nodes| && j == i + 1 ==>
            nodes[i].next == nodes[j] && nodes[i].stats.next == nodes[j].stats)
      && (nodes != [] ==> nodes[|nodes| - 1].next == null && nodes[|nodes| - 1].stats.next == null)
    }

    /** Ids 0, 1, 2, ... in list order: what tb_session_add alone produces. */
    ghost predicate Numbered()
      reads this, Nodes()
    {
      currentMaxId == |nodes| - 1 && forall i :: 0 <= i < |nodes| ==> nodes[i].id == i
    }

    constructor ()
      ensures Valid() && Numbered() && nodes == [] && active == 0
    {
      currentMaxId, numSessions, start, end, active, nodes := -1, 0, null, null, 0, [];
    }

    /** tb_session_add_to */
    method AddTo(session: Session)
      requires Valid() && session !in nodes && session.stats !in Blocks()
      requires session.next == null && session.stats.next == null
      modifies this`numSessions, this`start, this`end, this`nodes, Nodes()`next, Blocks()`next
      ensures Valid() && nodes == old(nodes) + [session]
      ensures session.next == null
    {
      if start == null {
        start := session;
        end := session;
      } else {
        end.next := session;
        end.stats.next := session.stats;
        end := session;
      }
      numSessions := numSessions + 1;
      nodes := nodes + [session];
    }

    /** tb_session_add */
    method Add(session: Session)
      requires Valid() && session !in nodes && session.stats !in Blocks()
      requires session.next == null && session.stats.next == null
      modifies this`currentMaxId, this`numSessions, this`start, this`end, this`nodes
      modifies Nodes()`next, Blocks()`next, session`id
      ensures Valid() && nodes == old(nodes) + [session]
      ensures session.id == currentMaxId == old(currentMaxId) + 1 && session.next == null
      ensures old(Numbered()) ==> Numbered()
    {
      currentMaxId := currentMaxId + 1;
      session.id := currentMaxId;
      AddTo(session);
    }

    /** tb_session_list_inc */
    method Increment() returns (r: int)
      modifies this`active
      ensures active == old(active) + 1 && r == active
    {
      active := active + 1;
      r := active;
    }

    /** tb_session_list_dec */
    method Decrement() returns (r: int)
      modifies this`active
      ensures active == old(active) - 1 && r == active
    {
      active := active - 1;
      r := active;
    }

    /** tb_session_list_search: the first session with that id, found at `at`, or null when no session has it. */
    method Search(id: int) returns (r: Session?, ghost at: nat)
      requires Valid()
      ensures at <= |nodes| && r == if at < |nodes| then nodes[at] else null
      ensures r == null ==> forall x :: x in nodes ==> x.id != id
      ensures r != null ==> r in nodes && r.id == id
      ensures forall j :: 0 <= j < at ==> nodes[j].id != id
    {
      r, at := start, 0;
      while r != null && r.id != id
        invariant at <= |nodes| && r == if at < |nodes| then nodes[at] else null
        invariant forall j :: 0 <= j < at ==> nodes[j].id != id
        decreases |nodes| - at
      {
        r, at := r.next, at + 1;
      }
    }
  }

  /** The session reached from `x` by following `n_session` k times. */
  ghost function Follow(list: SessionList, x: Session?, k: nat): Session?
    reads list, list.Nodes()
  {
    if k == 0 || x == null || x !in list.nodes then x else Follow(list, x.next, k - 1)
  }

  /** The statistics block reached from `x` by following `n_stats` k times. */
  ghost function FollowStats(list: SessionList, x: Stats?, k: nat): Stats?
    reads list, list.Blocks()
  {
    if k == 0 || x == null || x !in list.Blocks() then x else FollowStats(list, x.next, k - 1)
  }

  lemma {:induction false} FollowFrom(list: SessionList, i: nat, k: nat)
    requires list.Valid() && i + k <= |list.nodes| && i < |list.nodes|
    ensures Follow(list, list.nodes[i], k) == if i + k < |list.nodes| then list.nodes[i + k] else null
    ensures FollowStats(list, list.nodes[i].stats, k) ==
            if i + k < |list.nodes| then list.nodes[i + k].stats else null
    decreases k
  {
    if k > 0 && i + 1 < |list.nodes| {
      FollowFrom(list, i + 1, k - 1);
    }
  }

  /**
   Walking the list from `start` visits the sessions in the order in which they were added and stops after
   exactly `num_sessions` of them, so there is no cycle; the statistics chain visits their blocks in step.
   */
  lemma ChainsInStep(list: SessionList, k: nat)
    requires list.Valid() && list.nodes != [] && k <= |list.nodes|
    ensures Follow(list, list.start, k) == if k < list.numSessions then list.nodes[k] else null
    ensures FollowStats(list, list.start.stats, k) == if k < list.numSessions then list.nodes[k].stats else null
    ensures k < list.numSessions ==> Follow(list, list.start, k) != null
  {
    FollowFrom(list, 0, k);
  }

  /** One iteration of the loop below: a new session that owns `part`. */
  method OpenSession(list: SessionList, part: seq<byte>) returns (session: Session)
    requires list.Valid()
    modifies list`currentMaxId, list`numSessions, list`start, list`end, list`nodes
    modifies list.Nodes()`next, list.Blocks()`next
    ensures list.Valid() && list.nodes == old(list.nodes) + [session] && fresh(session) && fresh(session.stats)
    ensures session.data == part && session.totalBytes == 0 && session.status == Created
    ensures old(list.Numbered()) ==> list.Numbered()
  {
    session := new Session();
    session.data := part;
    list.Add(session);
  }

  /** The loop of tb_stream_m_client that gives every connection a session and its slice of the buffer. */
  method OpenSessions(list: SessionList, data: seq<byte>, conns: nat)
    requires list.Valid() && list.Numbered() && list.nodes == [] && 0 < conns
    modifies list`currentMaxId, list`numSessions, list`start, list`end, list`nodes
    ensures list.Valid() && list.Numbered() && |list.nodes| == conns
    ensures forall x :: 0 <= x < conns ==> list.nodes[x].totalBytes == 0
    ensures forall x :: 0 <= x < conns ==> list.nodes[x].data == Slice(data, conns, x)
  {
    var x := 0;
    while x < conns
      invariant 0 <= x <= conns && list.Valid() && list.Numbered() && |list.nodes| == x
      invariant forall i :: 0 <= i < x ==> fresh(list.nodes[i]) && fresh(list.nodes[i].stats)
      invariant forall i :: 0 <= i < x ==> list.nodes[i].totalBytes == 0
      invariant forall i :: 0 <= i < x ==> list.nodes[i].data == Slice(data, conns, i)
    {
      var session := OpenSession(list, Slice(data, conns, x));
      x := x + 1;
    }
  }
}
