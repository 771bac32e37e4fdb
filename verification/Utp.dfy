/**
 The uTP adapter: callbacks that the library makes (tb_utp_read, tb_utp_write, tb_utp_state_change,
 tb_utp_error, tb_utp_incoming), and the calls and loops built on them (tb_utp_event, tb_utp_recv,
 tb_utp_send, tb_utp_client, tb_utp_server, tb_utp_close). Only byte counts are modelled.

 The library is a script. It asks for bytes only inside UTP_Write, and there never for more in all
 than the caller offered. The clock never runs backwards.
 */
module Utp {
  import opened Sums

  datatype State = Created | Connect | Writable | Eof | Destroying | Error

  /** 2 seconds in nanoseconds */
  const TIME_OUT: int := 2 * 1_000_000_000

  /** A callback made while the library processes a datagram or its timers. */
  datatype Callback = OnRead(count: nat) | OnState(to: State) | OnError

  /** A datagram read by tb_utp_event: when, whether the library takes it, and what it calls back. */
  datatype Arrival = Arrival(at: int, accepted: bool, incoming: bool, calls: seq<Callback>)

  /** One call of tb_utp_recv: the datagrams of its poll, the timer callbacks, and the clock afterwards. */
  datatype Poll = Poll(arrivals: seq<Arrival>, timers: seq<Callback>, now: int)

  function BytesRead(calls: seq<Callback>): nat {
    if calls == [] then 0
    else BytesRead(calls[..|calls| - 1]) + (if calls[|calls| - 1].OnRead? then calls[|calls| - 1].count else 0)
  }

  function StateAfter(s: State, calls: seq<Callback>): State {
    if calls == [] then s
    else
      match calls[|calls| - 1]
      case OnState(to) => to
      case OnError => Error
      case OnRead(_) => StateAfter(s, calls[..|calls| - 1])
  }

  function Asked(asks: seq<nat>): nat {
    if asks == [] then 0 else Asked(asks[..|asks| - 1]) + asks[|asks| - 1]
  }

  /** From datagram `i` on, the times of a poll follow `from` in order. */
  predicate TimesFrom(from: int, p: Poll, i: nat)
    requires i <= |p.arrivals|
    decreases |p.arrivals| - i
  {
    if i == |p.arrivals| then from <= p.now
    else from <= p.arrivals[i].at && TimesFrom(p.arrivals[i].at, p, i + 1)
  }

  predicate InOrder(from: int, p: Poll) {
    TimesFrom(from, p, 0)
  }

  lemma {:induction false} TimesEnd(from: int, p: Poll, i: nat)
    requires i <= |p.arrivals| && TimesFrom(from, p, i)
    ensures from <= p.now
    decreases |p.arrivals| - i
  {
    if i < |p.arrivals| {
      TimesEnd(p.arrivals[i].at, p, i + 1);
    }
  }

  /** tb_utp_event stops at the first datagram that is not uTP. */
  function Taken(arrivals: seq<Arrival>): nat {
    TakenFrom(arrivals, 0)
  }

  function TakenFrom(arrivals: seq<Arrival>, i: nat): (n: nat)
    requires i <= |arrivals|
    ensures i <= n <= |arrivals| && (n < |arrivals| ==> !arrivals[n].accepted)
    decreases |arrivals| - i
  {
    if i == |arrivals| || !arrivals[i].accepted then i else TakenFrom(arrivals, i + 1)
  }

  lemma {:induction false} TakenAreAccepted(arrivals: seq<Arrival>, i: nat)
    requires i <= |arrivals|
    ensures forall j :: i <= j < TakenFrom(arrivals, i) ==> arrivals[j].accepted
    decreases |arrivals| - i
  {
    if i < |arrivals| && arrivals[i].accepted {
      TakenAreAccepted(arrivals, i + 1);
    }
  }

  /** The state after the first `k` datagrams; an incoming connection makes it Connect. */
  function StateThrough(s: State, arrivals: seq<Arrival>, k: nat): State
    requires k <= |arrivals|
  {
    if k == 0 then s
    else
      var a := arrivals[k - 1];
      StateAfter(if a.incoming then Connect else StateThrough(s, arrivals, k - 1), a.calls)
  }

  function Incoming(arrivals: seq<Arrival>, k: nat): bool
    requires k <= |arrivals|
  {
    exists i :: 0 <= i < k && arrivals[i].incoming
  }

  function ReadThrough(arrivals: seq<Arrival>, k: nat): nat
    requires k <= |arrivals|
  {
    if k == 0 then 0 else ReadThrough(arrivals, k - 1) + BytesRead(arrivals[k - 1].calls)
  }

  function Times(arrivals: seq<Arrival>, k: nat): seq<int>
    requires k <= |arrivals|
  {
    seq(k, i requires 0 <= i < k => arrivals[i].at)
  }

  /** What an accepted datagram can change. */
  datatype View = View(state: State, readBytes: nat, readTotal: nat, measuring: bool, heard: seq<int>)

  function Hear(v: View, a: Arrival): View {
    View(StateAfter(if a.incoming then Connect else v.state, a.calls), v.readBytes + BytesRead(a.calls),
         v.readTotal + BytesRead(a.calls), v.measuring || a.incoming, v.heard + [a.at])
  }

  function HearAll(v: View, arrivals: seq<Arrival>, k: nat): View
    requires k <= |arrivals|
  {
    if k == 0 then v else Hear(HearAll(v, arrivals, k - 1), arrivals[k - 1])
  }

  lemma {:induction false} HearAllMeans(v: View, arrivals: seq<Arrival>, k: nat)
    requires k <= |arrivals|
    ensures
      HearAll(v, arrivals, k) ==
      View(StateThrough(v.state, arrivals, k), v.readBytes + ReadThrough(arrivals, k),
           v.readTotal + ReadThrough(arrivals, k), v.measuring || Incoming(arrivals, k), v.heard + Times(arrivals, k))
  {
    if k == 0 {
      assert v.heard + Times(arrivals, 0) == v.heard;
    } else {
      HearAllMeans(v, arrivals, k - 1);
      assert Times(arrivals, k) == Times(arrivals, k - 1) + [arrivals[k - 1].at];
    }
  }

  /** The latest callback that is not a read decides the state. */
  lemma {:induction false} LastCallbackWins(s: State, calls: seq<Callback>, k: nat)
    requires k < |calls| && forall i :: k < i < |calls| ==> calls[i].OnRead?
    ensures match calls[k]
            case OnState(to) => StateAfter(s, calls) == to
            case OnError => StateAfter(s, calls) == Error
            case OnRead(_) => true
    decreases |calls|
  {
    if k < |calls| - 1 {
      LastCallbackWins(s, calls[..|calls| - 1], k);
    }
  }

  /** The bytes read are the sum of the counts of the read callbacks. */
  lemma {:induction false} CountsAddUp(calls: seq<Callback>)
    ensures BytesRead(calls) == Sum(Counts(calls))
  {
    if calls != [] {
      var front := calls[..|calls| - 1];
      CountsAddUp(front);
      assert Counts(calls) == Counts(front) + [CountOf(calls[|calls| - 1])];
      SumAppend(Counts(front), CountOf(calls[|calls| - 1]));
    }
  }

  /** An accepted datagram is heard when it is read; it connects the endpoint and starts the timer if it is incoming. */
  lemma HearMeans(v: View, a: Arrival)
    ensures Hear(v, a).heard == v.heard + [a.at] && Hear(v, a).readTotal == v.readTotal + Sum(Counts(a.calls))
    ensures Hear(v, a).measuring <==> v.measuring || a.incoming
    ensures (forall i :: 0 <= i < |a.calls| ==> a.calls[i].OnRead?) ==>
      Hear(v, a).state == if a.incoming then Connect else v.state
  {
    CountsAddUp(a.calls);
    if forall i :: 0 <= i < |a.calls| ==> a.calls[i].OnRead? {
      QuietKeepsState(if a.incoming then Connect else v.state, a.calls);
    }
  }

  function CountOf(call: Callback): nat {
    match call case OnRead(count) => count case _ => 0
  }

  function Counts(calls: seq<Callback>): seq<nat> {
    seq(|calls|, i requires 0 <= i < |calls| => CountOf(calls[i]))
  }

  /** A poll and its timer callbacks, before the timeout is looked at. */
  function Heard(v: View, p: Poll): View {
    var w := HearAll(v.(readBytes := 0), p.arrivals, Taken(p.arrivals));
    w.(state := StateAfter(w.state, p.timers), readBytes := w.readBytes + BytesRead(p.timers),
       readTotal := w.readTotal + BytesRead(p.timers))
  }

  /** The timer callbacks come after those of the datagrams, and all of them count. */
  lemma HeardMeans(v: View, p: Poll)
    ensures
      var n, w := Taken(p.arrivals), Heard(v, p);
      && w.state == StateAfter(StateThrough(v.state, p.arrivals, n), p.timers)
      && w.readBytes == ReadThrough(p.arrivals, n) + Sum(Counts(p.timers))
      && w.readTotal == v.readTotal + w.readBytes
      && (w.measuring <==> v.measuring || exists i :: 0 <= i < n && p.arrivals[i].incoming)
      && w.heard == v.heard + Times(p.arrivals, n)
  {
    HearAllMeans(v.(readBytes := 0), p.arrivals, Taken(p.arrivals));
    CountsAddUp(p.timers);
  }

  /** A connection has come in, and what was heard last lies more than two seconds back. */
  predicate TimedOut(v: View, now: int) {
    v.measuring && v.heard != [] && now - v.heard[|v.heard| - 1] > TIME_OUT
  }

  /** What tb_utp_recv makes of an endpoint. */
  function Polled(v: View, p: Poll): View {
    var w := Heard(v, p);
    if TimedOut(w, p.now) then w.(state := Error) else w
  }

  /** What tb_utp_recv reports: the bytes read, or nothing when it has timed out. */
  function Reported(v: View, p: Poll): nat {
    var w := Heard(v, p);
    if TimedOut(w, p.now) then 0 else w.readBytes
  }

  lemma ReadsAddUp(v: View, arrivals: seq<Arrival>, k: nat)
    requires k <= |arrivals|
    ensures HearAll(v, arrivals, k).readTotal - v.readTotal == HearAll(v, arrivals, k).readBytes - v.readBytes >= 0
  {
    HearAllMeans(v, arrivals, k);
  }

  /** One call of tb_utp_send: what UTP_Write asks for and whether it leaves the socket writable, or else a poll. */
  datatype Round = Round(asks: seq<nat>, writable: bool, poll: Poll)

  datatype Outcome = Complete | Aborted | Pending

  class Adapter {
    var state: State
    var readBytes: nat
    var writeBytes: nat
    var recvTotal: nat
    var measuring: bool
    var lastStart: int
    ghost var heard: seq<int>
    ghost var clock: int
    ghost var readTotal: nat

    /**
     `heard` lists when a datagram was accepted or a connection came in, `clock` is the latest reading of the clock,
     and `readTotal` adds up the counts of all read callbacks. The timer runs from the latest entry of `heard`.
     */
    ghost predicate Valid()
      reads this
    {
      && (measuring ==> heard != [])
      && lastStart == (if heard == [] then 0 else heard[|heard| - 1])
      && (heard != [] ==> lastStart <= clock)
      && forall t :: t in heard ==> t <= lastStart
    }

    ghost function Now(): View
      reads this
    {
      View(state, readBytes, readTotal, measuring, heard)
    }

    lemma ExpiredByTimer(now: int)
      requires Valid()
      ensures TimedOut(Now(), now) <==> measuring && now - lastStart > TIME_OUT
      ensures TimedOut(Now(), now) <==> measuring && forall t :: t in heard ==> now - t > TIME_OUT
    {
      if measuring {
        assert lastStart in heard;
      }
    }

    /** tb_utp_setup */
    constructor ()
      ensures Valid() && state == Created && recvTotal == 0 && !measuring && heard == [] && readTotal == 0 && clock == 0
    {
      state, readBytes, writeBytes, recvTotal, measuring, lastStart := Created, 0, 0, 0, false, 0;
      heard, clock, readTotal := [], 0, 0;
    }

    /** The library makes its callbacks one after the other. */
    method Dispatch(calls: seq<Callback>)
      modifies this`state, this`readBytes, this`readTotal
      ensures readBytes == old(readBytes) + BytesRead(calls) && readTotal == old(readTotal) + BytesRead(calls)
      ensures state == StateAfter(old(state), calls)
    {
      var i := 0;
      while i < |calls|
        invariant 0 <= i <= |calls|
        invariant readBytes == old(readBytes) + BytesRead(calls[..i])
        invariant readTotal == old(readTotal) + BytesRead(calls[..i])
        invariant state == StateAfter(old(state), calls[..i])
      {
        assert calls[..i + 1][..i] == calls[..i];
        match calls[i] {
          case OnRead(count) => readBytes := readBytes + count; readTotal := readTotal + count;
          case OnState(to) => state := to;
          case OnError => state := Error;
        }
        i := i + 1;
      }
      assert calls[..|calls|] == calls;
    }

    /** UTP_IsIncomingUTP takes a datagram, perhaps through tb_utp_incoming, and the timer restarts. */
    method Take(a: Arrival)
      requires Valid() && clock <= a.at
      modifies this`state, this`readBytes, this`readTotal, this`measuring, this`lastStart, this`heard, this`clock
      ensures Valid() && clock == a.at && Now() == Hear(old(Now()), a)
    {
      if a.incoming {
        state, measuring := Connect, true;
      }
      Dispatch(a.calls);
      lastStart, clock := a.at, a.at;
      heard := heard + [a.at];
    }

    /** tb_utp_event: each accepted datagram restarts the timer. */
    method Event(p: Poll)
      requires Valid() && InOrder(clock, p)
      modifies this`state, this`readBytes, this`readTotal, this`measuring, this`lastStart, this`heard, this`clock
      ensures Valid() && clock == p.now
      ensures Now() == HearAll(old(Now()), p.arrivals, Taken(p.arrivals))
    {
      var i := 0;
      while i < |p.arrivals| && p.arrivals[i].accepted
        invariant 0 <= i <= |p.arrivals| && Taken(p.arrivals) == TakenFrom(p.arrivals, i) && Valid()
        invariant TimesFrom(clock, p, i) && Now() == HearAll(old(Now()), p.arrivals, i)
      {
        Take(p.arrivals[i]);
        i := i + 1;
      }
      TimesEnd(clock, p, i);
      clock := p.now;
    }

    /** The poll and the timer callbacks of tb_utp_recv. */
    method PollOnce(p: Poll)
      requires Valid() && InOrder(clock, p)
      modifies this`state, this`readBytes, this`readTotal, this`measuring, this`lastStart, this`heard, this`clock
      ensures Valid() && clock == p.now && Now() == Heard(old(Now()), p)
      ensures readTotal == old(readTotal) + readBytes
    {
      readBytes := 0;
      ghost var v := Now();
      Event(p);
      ReadsAddUp(v, p.arrivals, Taken(p.arrivals));
      Dispatch(p.timers);
    }

    /**
     tb_utp_recv. The timeout error is raised if and only if a connection came in and everything ever heard lies
     more than two seconds back; the call then reports no bytes, even if it read some.
     */
    method Recv(p: Poll) returns (rc: nat)
      requires Valid() && InOrder(clock, p)
      modifies this`state, this`readBytes, this`readTotal, this`measuring, this`lastStart, this`heard, this`clock
      ensures Valid() && clock == p.now
      ensures Now() == Polled(old(Now()), p) && rc == Reported(old(Now()), p)
      ensures state == if TimedOut(Now(), p.now) then Error else Heard(old(Now()), p).state
      ensures rc == if TimedOut(Now(), p.now) then 0 else readTotal - old(readTotal)
      ensures old(readTotal) <= readTotal
    {
      PollOnce(p);
      ExpiredByTimer(p.now);
      if measuring {
        if p.now - lastStart > TIME_OUT {
          state := Error;
          return 0;
        }
      }
      rc := readBytes;
    }

    /** tb_utp_write, called back from UTP_Write for each packet until `n` bytes are taken. */
    method Write(n: nat, asks: seq<nat>)
      modifies this`writeBytes, this`recvTotal
      ensures writeBytes == old(writeBytes) + Min(n, Asked(asks))
      ensures recvTotal == old(recvTotal) + Min(n, Asked(asks))
    {
      var i := 0;
      var done := 0;
      while i < |asks|
        invariant 0 <= i <= |asks| && done == Min(n, Asked(asks[..i]))
        invariant writeBytes == old(writeBytes) + done && recvTotal == old(recvTotal) + done
      {
        assert asks[..i + 1][..i] == asks[..i];
        var count := Min(asks[i], n - done);
        writeBytes := writeBytes + count;
        recvTotal := recvTotal + count;
        done := done + count;
        i := i + 1;
      }
      assert asks[..|asks|] == asks;
    }

    /**
     tb_utp_send: never negative, never more than asked for, and exactly what the write callbacks took. When it can write it
     hears nothing, and stays writable unless UTP_Write returned 0; otherwise it is a call of tb_utp_recv.
     */
    method Send(n: nat, r: Round) returns (rc: int)
      requires Valid() && InOrder(clock, r.poll)
      modifies this
      ensures Valid() && clock == if old(state) in {Connect, Writable} then old(clock) else r.poll.now
      ensures 0 <= rc <= n && recvTotal == old(recvTotal) + rc
      ensures rc == if old(state) in {Connect, Writable} then Min(n, Asked(r.asks)) else 0
      ensures old(state) in {Connect, Writable} ==>
        Now() == old(Now()).(state := if r.writable then old(state) else Created)
      ensures old(state) !in {Connect, Writable} ==> Now() == Polled(old(Now()), r.poll)
    {
      writeBytes := 0;
      if state == Connect || state == Writable {
        Write(n, r.asks);
        if !r.writable {
          state := Created;
        }
      } else {
        // What Recv returns is a count, so the source's error return below this call is never taken.
        var got := Recv(r.poll);
      }
      rc := writeBytes;
    }
  }

  /** From poll `i` on, the clock never runs backwards. */
  predicate ClockedFrom(clock: int, polls: seq<Poll>, i: nat)
    requires i <= |polls|
    decreases |polls| - i
  {
    i == |polls| || (InOrder(clock, polls[i]) && ClockedFrom(polls[i].now, polls, i + 1))
  }

  lemma ClockedNext(clock: int, latest: int, polls: seq<Poll>, i: nat)
    requires clock <= latest && i < |polls| && ClockedFrom(latest, polls, i)
    ensures InOrder(clock, polls[i]) && ClockedFrom(polls[i].now, polls, i + 1)
  {
  }

  function Polls(rounds: seq<Round>): (r: seq<Poll>)
    ensures |r| == |rounds| && forall i :: 0 <= i < |r| ==> r[i] == rounds[i].poll
  {
    seq(|rounds|, i requires 0 <= i < |rounds| => rounds[i].poll)
  }

  predicate CanWrite(s: State) {
    s.Connect? || s.Writable?
  }

  /** What one call of tb_utp_send makes of an endpoint. */
  function SentBy(v: View, r: Round): View {
    if CanWrite(v.state) then v.(state := if r.writable then v.state else Created) else Polled(v, r.poll)
  }

  /** How the client's loop ends, after how many calls, with which total and which endpoint. */
  datatype Course = Course(outcome: Outcome, used: nat, total: nat, view: View)

  /** What the client does from call `i` on. */
  function ClientFrom(v: View, total: nat, rounds: seq<Round>, i: nat, fileSize: nat, bufsize: nat): Course
    requires i <= |rounds| && total <= fileSize
    decreases |rounds| - i
  {
    if i == |rounds| then Course(Pending, i, total, v)
    else
      var w := SentBy(v, rounds[i]);
      var t := total + if CanWrite(v.state) then Min(Min(bufsize, fileSize - total), Asked(rounds[i].asks)) else 0;
      if t >= fileSize then Course(Complete, i + 1, t, w)
      else if w.state == Error then Course(Aborted, i + 1, t, w)
      else ClientFrom(w, t, rounds, i + 1, fileSize, bufsize)
  }

  lemma ClientNext(
      v: View, total: nat, w: View, sent: nat, rounds: seq<Round>, i: nat, fileSize: nat, bufsize: nat)
    requires i < |rounds| && total <= fileSize && w == SentBy(v, rounds[i])
    requires sent == if CanWrite(v.state) then Min(Min(bufsize, fileSize - total), Asked(rounds[i].asks)) else 0
    ensures ClientFrom(v, total, rounds, i, fileSize, bufsize) ==
      if total + sent >= fileSize then Course(Complete, i + 1, total + sent, w)
      else if w.state == Error then Course(Aborted, i + 1, total + sent, w)
      else ClientFrom(w, total + sent, rounds, i + 1, fileSize, bufsize)
  {
  }

  /** The total never exceeds the file, and the loop completes exactly when the whole file was taken. */
  lemma {:induction false} ClientMeans(v: View, total: nat, rounds: seq<Round>, i: nat, fileSize: nat, bufsize: nat)
    requires i <= |rounds| && total <= fileSize && (i > 0 ==> total < fileSize)
    ensures
      var c := ClientFrom(v, total, rounds, i, fileSize, bufsize);
      && i <= c.used <= |rounds| && total <= c.total <= fileSize
      && (c.outcome.Complete? <==> rounds != [] && c.total == fileSize)
      && (c.outcome.Aborted? ==> c.total < fileSize && c.view.state == Error)
      && (c.outcome.Pending? ==> c.used == |rounds|)
    decreases |rounds| - i
  {
    if i < |rounds| {
      var w := SentBy(v, rounds[i]);
      var t := total + if CanWrite(v.state) then Min(Min(bufsize, fileSize - total), Asked(rounds[i].asks)) else 0;
      if t < fileSize && w.state != Error {
        ClientMeans(w, t, rounds, i + 1, fileSize, bufsize);
      }
    }
  }

  /** The call of tb_utp_send in turn `i` of the client's loop: it takes the course one turn further. */
  method SendNext(
      u: Adapter, ghost total: nat, rounds: seq<Round>, i: nat, ghost fileSize: nat, ghost bufsize: nat, size: nat,
      ghost latest: int)
      returns (sent: nat)
    requires u.Valid() && i < |rounds| && u.clock <= latest && ClockedFrom(latest, Polls(rounds), i)
    requires total <= fileSize && size == Min(bufsize, fileSize - total)
    modifies u
    ensures u.Valid() && u.clock <= rounds[i].poll.now && ClockedFrom(rounds[i].poll.now, Polls(rounds), i + 1)
    ensures u.recvTotal == old(u.recvTotal) + sent && total + sent <= fileSize
    ensures ClientFrom(old(u.Now()), total, rounds, i, fileSize, bufsize) ==
      if total + sent >= fileSize then Course(Complete, i + 1, total + sent, u.Now())
      else if u.state == Error then Course(Aborted, i + 1, total + sent, u.Now())
      else ClientFrom(u.Now(), total + sent, rounds, i + 1, fileSize, bufsize)
  {
    ClockedNext(u.clock, latest, Polls(rounds), i);
    TimesEnd(u.clock, rounds[i].poll, 0);
    sent := u.Send(size, rounds[i]);
    ClientNext(old(u.Now()), total, u.Now(), sent, rounds, i, fileSize, bufsize);
  }

  /**
   The loop of tb_utp_client. At every turn the total is exactly the sum of the write callbacks, which the adapter
   counts on its own, and never exceeds the file; the loop completes exactly when the whole file was taken.
   */
  method Client(u: Adapter, fileSize: nat, bufsize: nat, rounds: seq<Round>)
      returns (total: nat, outcome: Outcome, used: nat)
    requires u.Valid() && u.recvTotal == 0 && ClockedFrom(u.clock, Polls(rounds), 0)
    modifies u
    ensures u.Valid() && used <= |rounds| && total == u.recvTotal <= fileSize
    ensures Course(outcome, used, total, u.Now()) == ClientFrom(old(u.Now()), 0, rounds, 0, fileSize, bufsize)
    ensures outcome.Complete? <==> rounds != [] && total == fileSize
    ensures outcome.Aborted? ==> total < fileSize && u.state == Error
    ensures outcome.Pending? ==> used == |rounds| && (rounds != [] ==> total < fileSize)
  {
    ClientMeans(u.Now(), 0, rounds, 0, fileSize, bufsize);
    ghost var course := ClientFrom(u.Now(), 0, rounds, 0, fileSize, bufsize);
    ghost var latest := u.clock;
    total, used := 0, 0;
    var size := bufsize;
    while used < |rounds|
      invariant used <= |rounds| && u.Valid() && total == u.recvTotal <= fileSize
      invariant course == ClientFrom(u.Now(), total, rounds, used, fileSize, bufsize)
      invariant size == bufsize || fileSize - total < bufsize
      invariant u.clock <= latest && ClockedFrom(latest, Polls(rounds), used)
    {
      if fileSize - total < bufsize {
        size := fileSize - total;
      }
      var sent := SendNext(u, total, rounds, used, fileSize, bufsize, size, latest);
      latest := rounds[used].poll.now;
      used := used + 1;
      total := total + sent;
      if total >= fileSize {
        outcome := Complete;
        return;
      }
      if u.state == Error {
        outcome := Aborted;
        return;
      }
    }
    outcome := Pending;
  }

  /** What the calls from `i` on can hand over, each at most a buffer. */
  function Cover(rounds: seq<Round>, i: nat, bufsize: nat): nat
    requires i <= |rounds|
    decreases |rounds| - i
  {
    if i == |rounds| then 0 else Min(bufsize, Asked(rounds[i].asks)) + Cover(rounds, i + 1, bufsize)
  }

  /** From call `i` on the polls make the endpoint writable at call `k` and not before, without an error. */
  predicate ConnectsAt(v: View, rounds: seq<Round>, i: nat, k: nat)
    requires i <= k < |rounds|
    decreases k - i
  {
    if i == k then CanWrite(v.state)
    else
      var w := Polled(v, rounds[i].poll);
      !CanWrite(v.state) && w.state != Error && ConnectsAt(w, rounds, i + 1, k)
  }

  lemma {:induction false} WritesOn(v: View, total: nat, rounds: seq<Round>, i: nat, fileSize: nat, bufsize: nat)
    requires i <= |rounds| && total <= fileSize && CanWrite(v.state) && (total < fileSize || i < |rounds|)
    requires forall j :: i <= j < |rounds| ==> rounds[j].writable
    requires fileSize - total <= Cover(rounds, i, bufsize)
    ensures ClientFrom(v, total, rounds, i, fileSize, bufsize).outcome == Complete
    decreases |rounds| - i
  {
    var n := Min(Min(bufsize, fileSize - total), Asked(rounds[i].asks));
    if total + n < fileSize {
      WritesOn(v, total + n, rounds, i + 1, fileSize, bufsize);
    }
  }

  /** A client whose polls connect it and whose later writes can cover the file completes. */
  lemma {:induction false} ClientCompletes(
      v: View, rounds: seq<Round>, i: nat, k: nat, fileSize: nat, bufsize: nat)
    requires i <= k < |rounds| && ConnectsAt(v, rounds, i, k) && 0 < fileSize
    requires forall j :: k <= j < |rounds| ==> rounds[j].writable
    requires fileSize <= Cover(rounds, k, bufsize)
    ensures ClientFrom(v, 0, rounds, i, fileSize, bufsize).outcome == Complete
    decreases k - i
  {
    if i == k {
      WritesOn(v, 0, rounds, k, fileSize, bufsize);
    } else {
      ClientCompletes(Polled(v, rounds[i].poll), rounds, i + 1, k, fileSize, bufsize);
    }
  }

  /** What the server does from poll `i` on. */
  function ServerFrom(v: View, total: nat, polls: seq<Poll>, i: nat): Course
    requires i <= |polls|
    decreases |polls| - i
  {
    if i == |polls| then Course(Pending, i, total, v)
    else
      var w, t := Polled(v, polls[i]), total + Reported(v, polls[i]);
      if w.state == Eof then Course(Complete, i + 1, t, w)
      else if w.state == Error then Course(Aborted, i + 1, t, w)
      else ServerFrom(w, t, polls, i + 1)
  }

  /** The server ends with the first poll that leaves the end of the stream or an error, or has used all polls. */
  lemma {:induction false} ServerMeans(v: View, total: nat, polls: seq<Poll>, i: nat)
    requires i <= |polls|
    ensures
      var c := ServerFrom(v, total, polls, i);
      && i <= c.used <= |polls|
      && (c.outcome.Complete? ==> i < c.used && c.view.state == Eof)
      && (c.outcome.Aborted? ==> i < c.used && c.view.state == Error)
      && (c.outcome.Pending? ==> c.used == |polls| && (i < c.used ==> c.view.state != Eof && c.view.state != Error))
    decreases |polls| - i
  {
    if i < |polls| {
      var w := Polled(v, polls[i]);
      if w.state != Eof && w.state != Error {
        ServerMeans(w, total + Reported(v, polls[i]), polls, i + 1);
      }
    }
  }

  /** The call of tb_utp_recv in turn `i` of the server's loop: it takes the course one turn further. */
  method RecvNext(u: Adapter, ghost total: nat, polls: seq<Poll>, i: nat, ghost latest: int) returns (got: nat)
    requires u.Valid() && i < |polls| && u.clock <= latest && ClockedFrom(latest, polls, i)
    modifies u
    ensures u.Valid() && u.clock <= polls[i].now && ClockedFrom(polls[i].now, polls, i + 1)
    ensures old(u.readTotal) + got <= u.readTotal && (u.state != Error ==> u.readTotal == old(u.readTotal) + got)
    ensures ServerFrom(old(u.Now()), total, polls, i) ==
      if u.state == Eof then Course(Complete, i + 1, total + got, u.Now())
      else if u.state == Error then Course(Aborted, i + 1, total + got, u.Now())
      else ServerFrom(u.Now(), total + got, polls, i + 1)
  {
    ClockedNext(u.clock, latest, polls, i);
    got := u.Recv(polls[i]);
  }

  /** The loop of tb_utp_server: unless it aborts, its total is the sum of the read callbacks. */
  method Server(u: Adapter, polls: seq<Poll>) returns (total: nat, outcome: Outcome, used: nat)
    requires u.Valid() && u.readTotal == 0 && ClockedFrom(u.clock, polls, 0)
    modifies u
    ensures u.Valid() && Course(outcome, used, total, u.Now()) == ServerFrom(old(u.Now()), 0, polls, 0)
    ensures total <= u.readTotal && (!outcome.Aborted? ==> total == u.readTotal)
    ensures outcome.Complete? <==> polls != [] && u.state == Eof
    ensures outcome.Aborted? <==> polls != [] && u.state == Error
  {
    ghost var course := ServerFrom(u.Now(), 0, polls, 0);
    ServerMeans(u.Now(), 0, polls, 0);
    ghost var latest := u.clock;
    total, outcome, used := 0, Pending, 0;
    while used < |polls|
      invariant used <= |polls| && u.Valid() && total == u.readTotal
      invariant course == ServerFrom(u.Now(), total, polls, used)
      invariant u.clock <= latest && ClockedFrom(latest, polls, used)
    {
      var got := RecvNext(u, total, polls, used, latest);
      latest := polls[used].now;
      used := used + 1;
      total := total + got;
      if u.state == Eof {
        outcome := Complete;
        return;
      }
      if u.state == Error {
        outcome := Aborted;
        return;
      }
    }
  }

  /** One turn of the close loop: a poll, then a call of UTP_CheckTimeouts. */
  datatype Turn = Turn(poll: Poll, timers: seq<Callback>)

  /** Neither error nor state change is called back. */
  predicate Quiet(calls: seq<Callback>) {
    forall i :: 0 <= i < |calls| ==> calls[i].OnRead?
  }

  lemma {:induction false} QuietKeepsState(s: State, calls: seq<Callback>)
    requires Quiet(calls)
    ensures StateAfter(s, calls) == s
  {
    if calls != [] {
      QuietKeepsState(s, calls[..|calls| - 1]);
    }
  }

  /** A turn of an endpoint whose timer runs, with more than two seconds gone by. */
  predicate Late(measuring: bool, lastStart: int, turn: Turn) {
    measuring && turn.poll.now - lastStart > TIME_OUT
  }

  predicate QuietTurn(turn: Turn) {
    Quiet(turn.poll.timers) && Quiet(turn.timers)
  }

  /** The close loop stops in these states. */
  predicate Over(s: State) {
    s.Destroying? || s.Error?
  }

  /** A turn of an endpoint that hears nothing: a late one ends in an error, and a quiet one changes nothing else. */
  method CloseTurn(u: Adapter, turn: Turn)
    requires u.Valid() && Taken(turn.poll.arrivals) == 0 && InOrder(u.clock, turn.poll)
    modifies u
    ensures u.Valid() && u.measuring == old(u.measuring) && u.lastStart == old(u.lastStart) && u.clock == turn.poll.now
    ensures Late(u.measuring, u.lastStart, turn) && Quiet(turn.timers) ==> u.state == Error
    ensures !Late(u.measuring, u.lastStart, turn) && QuietTurn(turn) ==> u.state == old(u.state)
  {
    var got := u.Recv(turn.poll);
    assert Times(turn.poll.arrivals, 0) == [];
    u.ExpiredByTimer(turn.poll.now);
    if Quiet(turn.timers) {
      QuietKeepsState(u.state, turn.timers);
      if Quiet(turn.poll.timers) {
        QuietKeepsState(old(u.state), turn.poll.timers);
      }
    }
    u.Dispatch(turn.timers);
  }

  /**
   The loop of tb_utp_close on an endpoint that hears nothing any more. If a connection had come in, it ends at the latest
   with the first turn that finds the two seconds gone by and whose own timer call does not change the state again. If the
   library calls back neither an error nor a change of state, it ends with that turn and no other: on an endpoint to which
   no connection came in, as on every client, the timer does not run and the loop goes on for ever.
   */
  method Close(u: Adapter, turns: seq<Turn>) returns (used: nat)
    requires u.Valid()
    requires forall i :: 0 <= i < |turns| ==> Taken(turns[i].poll.arrivals) == 0 && InOrder(u.clock, turns[i].poll)
    requires forall i, j :: 0 <= i < j < |turns| ==> InOrder(turns[i].poll.now, turns[j].poll)
    modifies u
    ensures used <= |turns| && (used < |turns| ==> Over(u.state))
    ensures forall i :: 0 <= i < |turns| && Late(old(u.measuring), old(u.lastStart), turns[i]) && Quiet(turns[i].timers) ==>
      used <= i + 1
    ensures !Over(old(u.state)) && (forall i :: 0 <= i < |turns| ==> QuietTurn(turns[i])) ==>
      (forall i :: 0 <= i < used - 1 ==> !Late(old(u.measuring), old(u.lastStart), turns[i])) &&
      (used < |turns| ==> used > 0 && Late(old(u.measuring), old(u.lastStart), turns[used - 1]))
  {
    used := 0;
    while used < |turns| && u.state != Destroying && u.state != Error
      invariant used <= |turns| && u.Valid() && u.measuring == old(u.measuring) && u.lastStart == old(u.lastStart)
      invariant u.clock == if used == 0 then old(u.clock) else turns[used - 1].poll.now
      invariant forall i :: 0 <= i < used - 1 ==> !(Late(u.measuring, u.lastStart, turns[i]) && Quiet(turns[i].timers))
      invariant used > 0 && Late(u.measuring, u.lastStart, turns[used - 1]) && Quiet(turns[used - 1].timers) ==>
        u.state == Error
      invariant !Over(old(u.state)) && (forall i :: 0 <= i < |turns| ==> QuietTurn(turns[i])) ==>
        (Over(u.state) <==> used > 0 && Late(u.measuring, u.lastStart, turns[used - 1]))
    {
      CloseTurn(u, turns[used]);
      used := used + 1;
    }
  }
}
