/**
 How a multi-connection client cuts its buffer into one slice per connection
 (tb_stream_m_client, tb_udt_m_client and tb_utp_m_client).
 */
module Slices {

  type byte = b: int | 0 <= b < 256

  /** `file_size / num_conn` */
  function SliceSize(fileSize: nat, conns: nat): nat
    requires 0 < conns
  {
    fileSize / conns
  }

  /** Where connection `x` starts: `(file_size / num_conn) * x`. */
  function SliceStart(fileSize: nat, conns: nat, x: nat): nat
    requires 0 < conns
  {
    SliceSize(fileSize, conns) * x
  }

  lemma {:induction false} MulMonotone(q: nat, x: nat, y: nat)
    requires x <= y
    ensures q * x <= q * y
  {
    assert q * y == q * x + q * (y - x);
  }

  /** The slice of connection `x`, and of every earlier one, ends inside the buffer. */
  lemma SliceInBounds(fileSize: nat, conns: nat, x: nat)
    requires x < conns
    ensures SliceStart(fileSize, conns, x) + SliceSize(fileSize, conns) == SliceStart(fileSize, conns, x + 1)
    ensures SliceStart(fileSize, conns, x + 1) <= SliceStart(fileSize, conns, conns)
    ensures SliceStart(fileSize, conns, conns) == fileSize - fileSize % conns
  {
    var q := SliceSize(fileSize, conns);
    assert q * (x + 1) == q * x + q;
    MulMonotone(q, x + 1, conns);
    assert fileSize == q * conns + fileSize % conns;
  }

  /** The bytes handed to connection `x`. */
  function Slice(data: seq<byte>, conns: nat, x: nat): (r: seq<byte>)
    requires x < conns
    ensures |r| == SliceSize(|data|, conns)
  {
    SliceInBounds(|data|, conns, x);
    data[SliceStart(|data|, conns, x)..SliceStart(|data|, conns, x + 1)]
  }

  /** The slices of the first `k` connections, one after the other. */
  function Joined(data: seq<byte>, conns: nat, k: nat): seq<byte>
    requires k <= conns
  {
    if k == 0 then [] else Joined(data, conns, k - 1) + Slice(data, conns, k - 1)
  }

  lemma {:induction false} JoinedIsPrefix(data: seq<byte>, conns: nat, k: nat)
    requires 0 < conns && k <= conns
    ensures SliceStart(|data|, conns, k) <= |data|
    ensures Joined(data, conns, k) == data[..SliceStart(|data|, conns, k)]
  {
    if k > 0 {
      JoinedIsPrefix(data, conns, k - 1);
      SliceInBounds(|data|, conns, k - 1);
    }
  }

  /** Byte position `p` belongs to the slice of connection `x`. */
  predicate Owns(fileSize: nat, conns: nat, x: nat, p: nat)
    requires 0 < conns
  {
    SliceStart(fileSize, conns, x) <= p < SliceStart(fileSize, conns, x) + SliceSize(fileSize, conns)
  }

  /** No byte belongs to two slices. */
  lemma SlicesDisjoint(fileSize: nat, conns: nat, x: nat, y: nat, p: nat)
    requires x < conns && y < conns
    requires Owns(fileSize, conns, x, p) && Owns(fileSize, conns, y, p)
    ensures x == y
  {
    var q := SliceSize(fileSize, conns);
    SliceInBounds(fileSize, conns, x);
    SliceInBounds(fileSize, conns, y);
    if x < y {
      MulMonotone(q, x + 1, y);
    } else if y < x {
      MulMonotone(q, y + 1, x);
    }
  }

  /**
   A byte is sent by some connection exactly when it lies before the remainder that the
   integer division drops; the connection is the one computed by dividing the position.
   */
  lemma SlicesCover(fileSize: nat, conns: nat, p: nat)
    requires 0 < conns
    ensures p < fileSize - fileSize % conns <==> exists x :: 0 <= x < conns && Owns(fileSize, conns, x, p)
  {
    var q := SliceSize(fileSize, conns);
    SliceInBounds(fileSize, conns, 0);
    if p < fileSize - fileSize % conns {
      assert 0 < q;
      var x := p / q;
      assert q * x <= p < q * x + q;
      if conns <= x {
        MulMonotone(q, conns, x);
        assert false;
      }
      assert Owns(fileSize, conns, x, p);
    }
    forall x | 0 <= x < conns && Owns(fileSize, conns, x, p)
      ensures p < fileSize - fileSize % conns
    {
      SliceInBounds(fileSize, conns, x);
    }
  }

  /** The connections together carry the whole file exactly when its size is a multiple of their number. */
  lemma WholeFileIffDivisible(data: seq<byte>, conns: nat)
    requires 0 < conns
    ensures Joined(data, conns, conns) == data <==> |data| % conns == 0
    ensures Joined(data, conns, conns) == data[..|data| - |data| % conns]
  {
    JoinedIsPrefix(data, conns, conns);
    SliceInBounds(|data|, conns, conns - 1);
  }

  lemma KilobytesDivide(n: nat, kilobytes: nat)
    requires n == kilobytes * 1024
    ensures n % 4 == 0 && n % 2 == 0
  {
    assert n == 4 * (kilobytes * 256);
    assert n == 2 * (kilobytes * 512);
  }

  /** Sizes given in KB are multiples of 1024, so the 4 stream or UDT and the 2 uTP connections miss nothing. */
  lemma KilobyteSizesAreCovered(data: seq<byte>, kilobytes: nat)
    requires |data| == kilobytes * 1024
    ensures Joined(data, 4, 4) == data && Joined(data, 2, 2) == data
  {
    KilobytesDivide(|data|, kilobytes);
    WholeFileIffDivisible(data, 4);
    WholeFileIffDivisible(data, 2);
  }
}
