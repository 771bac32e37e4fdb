/**
 tb_set_m_stats on a list that nobody changes meanwhile: the totals it adds up, and the averages
 it takes over the connected sessions. (StatsPipeline is about the same scan under interference.)
 */
module Averages {
  import opened Sums
  import opened SessionLists

  /** What the scan reads of one session. */
  datatype Reading = Reading(total: nat, connected: bool, rates: Rates, sendLoss: int, recvLoss: int)

  ghost function ReadingOf(x: Session): Reading
    reads x, x.stats
  {
    Reading(x.totalBytes, x.status == Connected, x.stats.rates, x.stats.sendLoss, x.stats.recvLoss)
  }

  ghost function Readings(list: SessionList): (r: seq<Reading>)
    reads list, list.Nodes(), list.Blocks()
    ensures |r| == |list.nodes|
    ensures forall i :: 0 <= i < |r| ==> r[i] == ReadingOf(list.nodes[i])
    ensures forall i :: 0 <= i < |r| ==>
      r[i].total == list.nodes[i].totalBytes && (r[i].connected <==> list.nodes[i].status == Connected)
    ensures forall i :: 0 <= i < |r| ==>
      && r[i].rates == list.nodes[i].stats.rates
      && r[i].sendLoss == list.nodes[i].stats.sendLoss && r[i].recvLoss == list.nodes[i].stats.recvLoss
  {
    seq(|list.nodes|, i requires 0 <= i < |list.nodes| reads list, list.Nodes(), list.Blocks() => ReadingOf(list.nodes[i]))
  }

  function TotalsIn(r: seq<Reading>): seq<nat> {
    seq(|r|, i requires 0 <= i < |r| => r[i].total)
  }

  /** The sum of the first `k` totals, connected or not. */
  function TotalOf(r: seq<Reading>, k: nat): nat
    requires k <= |r|
  {
    SumTo(TotalsIn(r), k)
  }

  /** How many of the first `k` sessions are connected. */
  function ConnectedOf(r: seq<Reading>, k: nat): nat
    requires k <= |r|
  {
    if k == 0 then 0 else ConnectedOf(r, k - 1) + (if r[k - 1].connected then 1 else 0)
  }

  function IntSum(r: seq<Reading>, pick: Reading -> int, k: nat): int
    requires k <= |r|
  {
    if k == 0 then 0 else IntSum(r, pick, k - 1) + (if r[k - 1].connected then pick(r[k - 1]) else 0)
  }

  function RealSum(r: seq<Reading>, pick: Reading -> real, k: nat): real
    requires k <= |r|
  {
    if k == 0 then 0.0 else RealSum(r, pick, k - 1) + (if r[k - 1].connected then pick(r[k - 1]) else 0.0)
  }

  /** C integer division, which rounds toward zero. */
  function TruncDiv(a: int, b: int): int
    requires 0 < b
  {
    if a >= 0 then a / b else -((-a) / b)
  }

  /** An integer average over the connected sessions; zero when there is none. */
  function IntAverage(r: seq<Reading>, pick: Reading -> int): int {
    var n := ConnectedOf(r, |r|);
    if n == 0 then IntSum(r, pick, |r|) else TruncDiv(IntSum(r, pick, |r|), n)
  }

  function RealAverage(r: seq<Reading>, pick: Reading -> real): real {
    var n := ConnectedOf(r, |r|);
    if n == 0 then RealSum(r, pick, |r|) else RealSum(r, pick, |r|) / n as real
  }

  lemma MulStep(x: int, y: int, b: int)
    requires x < y && 0 < b
    ensures x * b + b <= y * b
  {
    assert y * b == x * b + b + (y - x - 1) * b;
    assert 0 <= (y - x - 1) * b;
  }

  lemma QuotientBetween(a: int, b: int, lo: int, hi: int)
    requires 0 < b && 0 <= a && lo * b <= a <= hi * b
    ensures lo <= a / b <= hi
  {
    var q := a / b;
    assert q * b <= a < q * b + b;
    if q < lo {
      MulStep(q, lo, b);
    }
    if hi < q {
      MulStep(hi, q, b);
    }
  }

  lemma TruncDivBetween(a: int, b: int, lo: int, hi: int)
    requires 0 < b && lo * b <= a <= hi * b
    ensures lo <= TruncDiv(a, b) <= hi
  {
    if a >= 0 {
      QuotientBetween(a, b, lo, hi);
    } else {
      assert (-lo) * b == -(lo * b) && (-hi) * b == -(hi * b);
      QuotientBetween(-a, b, -hi, -lo);
    }
  }

  lemma DivMeans(n: int, b: int)
    requires 0 <= n && 0 < b
    ensures 0 <= n / b && n / b * b <= n < n / b * b + b
  {
  }

  lemma NegatedProduct(m: int, b: int)
    ensures (-m) * b == -(m * b)
  {
  }

  /** The quotient is the exact one with its fraction cut off, toward zero. */
  lemma TruncDivMeans(a: int, b: int)
    requires 0 < b
    ensures a >= 0 ==> 0 <= TruncDiv(a, b) && TruncDiv(a, b) * b <= a < TruncDiv(a, b) * b + b
    ensures a < 0 ==> TruncDiv(a, b) <= 0 && TruncDiv(a, b) * b - b < a <= TruncDiv(a, b) * b
  {
    if a >= 0 {
      DivMeans(a, b);
    } else {
      DivMeans(-a, b);
      NegatedProduct(-a / b, b);
    }
  }

  lemma {:induction false} IntSumBetween(r: seq<Reading>, pick: Reading -> int, k: nat, lo: int, hi: int)
    requires k <= |r|
    requires forall i :: 0 <= i < |r| && r[i].connected ==> lo <= pick(r[i]) <= hi
    ensures lo * ConnectedOf(r, k) <= IntSum(r, pick, k) <= hi * ConnectedOf(r, k)
  {
    if k > 0 {
      IntSumBetween(r, pick, k - 1, lo, hi);
      var n := ConnectedOf(r, k - 1);
      assert lo * (n + 1) == lo * n + lo && hi * (n + 1) == hi * n + hi;
    }
  }

  /** Every bound on the connected sessions bounds the published average; with none connected it is zero. */
  lemma IntAverageBetween(r: seq<Reading>, pick: Reading -> int, lo: int, hi: int)
    requires forall i :: 0 <= i < |r| && r[i].connected ==> lo <= pick(r[i]) <= hi
    ensures ConnectedOf(r, |r|) > 0 ==> lo <= IntAverage(r, pick) <= hi
    ensures ConnectedOf(r, |r|) == 0 ==> IntAverage(r, pick) == 0
  {
    IntSumBetween(r, pick, |r|, lo, hi);
    if ConnectedOf(r, |r|) > 0 {
      TruncDivBetween(IntSum(r, pick, |r|), ConnectedOf(r, |r|), lo, hi);
    }
  }

  lemma OneMore(x: real, n: nat)
    ensures x * (n + 1) as real == x * n as real + x
  {
    assert (n + 1) as real == n as real + 1.0;
  }

  lemma {:induction false} RealSumBetween(r: seq<Reading>, pick: Reading -> real, k: nat, lo: real, hi: real)
    requires k <= |r|
    requires forall i :: 0 <= i < |r| && r[i].connected ==> lo <= pick(r[i]) <= hi
    ensures lo * ConnectedOf(r, k) as real <= RealSum(r, pick, k) <= hi * ConnectedOf(r, k) as real
  {
    if k > 0 {
      RealSumBetween(r, pick, k - 1, lo, hi);
      OneMore(lo, ConnectedOf(r, k - 1));
      OneMore(hi, ConnectedOf(r, k - 1));
    }
  }

  lemma RealAverageBetween(r: seq<Reading>, pick: Reading -> real, lo: real, hi: real)
    requires forall i :: 0 <= i < |r| && r[i].connected ==> lo <= pick(r[i]) <= hi
    ensures ConnectedOf(r, |r|) > 0 ==> lo <= RealAverage(r, pick) <= hi
    ensures ConnectedOf(r, |r|) == 0 ==> RealAverage(r, pick) == 0.0
  {
    RealSumBetween(r, pick, |r|, lo, hi);
    if ConnectedOf(r, |r|) > 0 {
      RealQuotientBetween(RealSum(r, pick, |r|), ConnectedOf(r, |r|) as real, lo, hi);
    }
  }

  lemma RealMulStep(x: real, y: real, n: real)
    requires x < y && 0.0 < n
    ensures x * n < y * n
  {
    assert 0.0 < (y - x) * n;
  }

  lemma RealQuotientBetween(sum: real, n: real, lo: real, hi: real)
    requires 0.0 < n && lo * n <= sum <= hi * n
    ensures lo <= sum / n <= hi
  {
    var q := sum / n;
    assert q * n == sum;
    if q < lo {
      RealMulStep(q, lo, n);
    }
    if hi < q {
      RealMulStep(hi, q, n);
    }
  }

  const SEND_LOSS: Reading -> int := (r: Reading) => r.sendLoss
  const RECV_LOSS: Reading -> int := (r: Reading) => r.recvLoss
  const RTT: Reading -> real := (r: Reading) => r.rates.rtt
  const RTT_VAR: Reading -> real := (r: Reading) => r.rates.rttVar
  const SEND_RATE: Reading -> real := (r: Reading) => r.rates.sendRate
  const RECV_RATE: Reading -> real := (r: Reading) => r.rates.recvRate
  const SEND_WINDOW: Reading -> real := (r: Reading) => r.rates.sendWindow
  const RECV_WINDOW: Reading -> real := (r: Reading) => r.rates.recvWindow

  /** Each published value is the average of its own field over the connected sessions. */
  lemma LossesBetween(r: seq<Reading>, lo: int, hi: int)
    requires ConnectedOf(r, |r|) > 0
    ensures (forall i :: 0 <= i < |r| && r[i].connected ==> lo <= r[i].sendLoss <= hi) ==>
      lo <= IntAverage(r, SEND_LOSS) <= hi
    ensures (forall i :: 0 <= i < |r| && r[i].connected ==> lo <= r[i].recvLoss <= hi) ==>
      lo <= IntAverage(r, RECV_LOSS) <= hi
  {
    if forall i :: 0 <= i < |r| && r[i].connected ==> lo <= r[i].sendLoss <= hi {
      IntAverageBetween(r, SEND_LOSS, lo, hi);
    }
    if forall i :: 0 <= i < |r| && r[i].connected ==> lo <= r[i].recvLoss <= hi {
      IntAverageBetween(r, RECV_LOSS, lo, hi);
    }
  }

  /** The fields, in the order of `RateAverages`. */
  function Field(rates: Rates, k: nat): real
    requires k < 6
  {
    [rates.rtt, rates.rttVar, rates.sendRate, rates.recvRate, rates.sendWindow, rates.recvWindow][k]
  }

  lemma RatesBetween(r: seq<Reading>, k: nat, lo: real, hi: real)
    requires k < 6 && ConnectedOf(r, |r|) > 0
    requires forall i :: 0 <= i < |r| && r[i].connected ==> lo <= Field(r[i].rates, k) <= hi
    ensures lo <= Field(RateAverages(r), k) <= hi
  {
    var pick := [RTT, RTT_VAR, SEND_RATE, RECV_RATE, SEND_WINDOW, RECV_WINDOW][k];
    assert forall i :: 0 <= i < |r| ==> pick(r[i]) == Field(r[i].rates, k);
    RealAverageBetween(r, pick, lo, hi);
  }

  function RateSums(r: seq<Reading>, k: nat): Rates
    requires k <= |r|
  {
    Rates(RealSum(r, RTT, k), RealSum(r, RTT_VAR, k), RealSum(r, SEND_RATE, k), RealSum(r, RECV_RATE, k),
          RealSum(r, SEND_WINDOW, k), RealSum(r, RECV_WINDOW, k))
  }

  function RateAverages(r: seq<Reading>): Rates {
    Rates(RealAverage(r, RTT), RealAverage(r, RTT_VAR), RealAverage(r, SEND_RATE), RealAverage(r, RECV_RATE),
          RealAverage(r, SEND_WINDOW), RealAverage(r, RECV_WINDOW))
  }

  function Plus(a: Rates, b: Rates): Rates {
    Rates(a.rtt + b.rtt, a.rttVar + b.rttVar, a.sendRate + b.sendRate, a.recvRate + b.recvRate,
          a.sendWindow + b.sendWindow, a.recvWindow + b.recvWindow)
  }

  function Over(a: Rates, n: nat): Rates
    requires 0 < n
  {
    Rates(a.rtt / n as real, a.rttVar / n as real, a.sendRate / n as real, a.recvRate / n as real,
          a.sendWindow / n as real, a.recvWindow / n as real)
  }

  lemma RateSumsStep(r: seq<Reading>, k: nat)
    requires k < |r|
    ensures RateSums(r, k + 1) == if r[k].connected then Plus(RateSums(r, k), r[k].rates) else RateSums(r, k)
  {
  }

  lemma RateSumsOver(r: seq<Reading>)
    ensures RateAverages(r) ==
      if ConnectedOf(r, |r|) == 0 then RateSums(r, |r|) else Over(RateSums(r, |r|), ConnectedOf(r, |r|))
  {
  }

  /** The fields of `listener` and `listener->stats` that the scan writes. */
  class ListenerStats {
    var currentRead: nat
    var totalTxRx: nat
    var rates: Rates
    var sendLoss: int
    var recvLoss: int
    var read: bool

    constructor ()
      ensures currentRead == totalTxRx == 0 && !read
    {
      currentRead, totalTxRx, rates, sendLoss, recvLoss, read := 0, 0, NO_RATES, 0, 0, false;
    }

    /** tb_set_m_stats: the new values depend on the list alone, so a second call changes nothing. */
    method SetFrom(list: SessionList)
      requires list.Valid()
      modifies this
      ensures currentRead == totalTxRx == TotalOf(old(Readings(list)), old(|list.nodes|))
      ensures sendLoss == IntAverage(old(Readings(list)), SEND_LOSS)
      ensures recvLoss == IntAverage(old(Readings(list)), RECV_LOSS)
      ensures rates == RateAverages(old(Readings(list)))
      ensures !read
    {
      ghost var r := Readings(list);
      var total, txrx, connected, rateSums, sendSum, recvSum := AddUp(list);
      assert Readings(list) == r;
      RateSumsOver(r);
      currentRead, totalTxRx, rates, sendLoss, recvLoss := total, txrx, rateSums, sendSum, recvSum;
      if connected != 0 {
        rates := Over(rates, connected);
        sendLoss := TruncDiv(sendLoss, connected);
        recvLoss := TruncDiv(recvLoss, connected);
      }
      read := false;
    }
  }

  /** The pointer loop of tb_set_m_stats. */
  method AddUp(list: SessionList)
      returns (total: nat, txrx: nat, connected: nat, rates: Rates, sendLoss: int, recvLoss: int)
    requires list.Valid()
    ensures total == txrx == TotalOf(Readings(list), |list.nodes|)
    ensures connected == ConnectedOf(Readings(list), |list.nodes|)
    ensures sendLoss == IntSum(Readings(list), SEND_LOSS, |list.nodes|)
    ensures recvLoss == IntSum(Readings(list), RECV_LOSS, |list.nodes|)
    ensures rates == RateSums(Readings(list), |list.nodes|)
  {
    total, txrx, connected, rates, sendLoss, recvLoss := 0, 0, 0, NO_RATES, 0, 0;
    var session := list.start;
    ghost var r := Readings(list);
    ghost var i := 0;
    while session != null
      invariant 0 <= i <= |list.nodes|
      invariant session == if i < |list.nodes| then list.nodes[i] else null
      invariant total == txrx == TotalOf(r, i) && connected == ConnectedOf(r, i)
      invariant sendLoss == IntSum(r, SEND_LOSS, i) && recvLoss == IntSum(r, RECV_LOSS, i)
      invariant rates == RateSums(r, i)
      decreases |list.nodes| - i
    {
      assert r[i] == ReadingOf(session);
      RateSumsStep(r, i);
      assert TotalsIn(r)[i] == session.totalBytes;
      total := total + session.totalBytes;
      txrx := txrx + session.totalBytes;
      if session.status == Connected {
        connected := connected + 1;
        rates := Plus(rates, session.stats.rates);
        sendLoss := sendLoss + session.stats.sendLoss;
        recvLoss := recvLoss + session.stats.recvLoss;
      }
      session := session.next;
      i := i + 1;
    }
    assert i == |list.nodes| && r == Readings(list);
  }
}
