/** Fixed-width integer fields in either byte order, and sequences of them. */
module Fields {
  import opened Common

  datatype Order = Little | Big

  const U16: nat := 0x1_0000
  const U32: nat := 0x1_0000_0000
  const U64: nat := 0x1_0000_0000_0000_0000

  function Pow256(n: nat): nat { if n == 0 then 1 else 256 * Pow256(n - 1) }

  lemma Powers()
    ensures Pow256(1) == 0x100 && Pow256(2) == U16 && Pow256(4) == U32 && Pow256(8) == U64
  {
    assert Pow256(3) == 256 * Pow256(2);
    assert Pow256(5) == 256 * Pow256(4);
    assert Pow256(6) == 256 * Pow256(5);
    assert Pow256(7) == 256 * Pow256(6);
  }

  /** The low `n` bytes of a value. */
  function Encode(order: Order, value: nat, n: nat): (r: Bytes)
    ensures |r| == n
  {
    if n == 0 then []
    else if order == Little then [(value % 256) as byte] + Encode(order, value / 256, n - 1)
    else Encode(order, value / 256, n - 1) + [(value % 256) as byte]
  }

  /** Byte `k` of a value; byte 0 is the least significant. */
  function ByteOf(value: nat, k: nat): nat { if k == 0 then value % 256 else ByteOf(value / 256, k - 1) }

  /** Little-endian fields start with byte 0, big-endian fields end with it. */
  lemma {:induction false} EncodeByte(order: Order, value: nat, n: nat, k: nat)
    requires k < n
    ensures Encode(order, value, n)[if order == Little then k else n - 1 - k] as nat == ByteOf(value, k)
  {
    if k > 0 {
      EncodeByte(order, value / 256, n - 1, k - 1);
    }
  }

  function Decode(order: Order, data: Bytes): nat {
    if data == [] then 0
    else if order == Little then data[0] as nat + 256 * Decode(order, data[1..])
    else data[|data| - 1] as nat + 256 * Decode(order, data[..|data| - 1])
  }

  lemma {:induction false} DecodeEncode(order: Order, value: nat, n: nat)
    requires value < Pow256(n)
    ensures Decode(order, Encode(order, value, n)) == value
  {
    if n > 0 {
      DecodeEncode(order, value / 256, n - 1);
      var r, rest := Encode(order, value, n), Encode(order, value / 256, n - 1);
      if order == Little {
        assert r[1..] == rest;
      } else {
        assert r[..n - 1] == rest;
      }
    }
  }

  lemma LowByte(low: nat, rest: nat)
    requires low < 256
    ensures (low + 256 * rest) % 256 == low && (low + 256 * rest) / 256 == rest
  {
  }

  lemma {:induction false} EncodeDecode(order: Order, data: Bytes)
    ensures Decode(order, data) < Pow256(|data|)
    ensures Encode(order, Decode(order, data), |data|) == data
  {
    if data != [] {
      var n := |data| - 1;
      if order == Little {
        EncodeDecode(order, data[1..]);
        LowByte(data[0] as nat, Decode(order, data[1..]));
        assert data == [data[0]] + data[1..];
      } else {
        EncodeDecode(order, data[..n]);
        LowByte(data[n] as nat, Decode(order, data[..n]));
        assert data == data[..n] + [data[n]];
      }
    }
  }

  // ---------------------------------------------------------------------------
  // Consecutive fields

  function Pack(order: Order, values: seq<nat>, widths: seq<nat>): Bytes
    requires |values| == |widths|
  {
    if values == [] then [] else Encode(order, values[0], widths[0]) + Pack(order, values[1..], widths[1..])
  }

  function Total(widths: seq<nat>): nat { if widths == [] then 0 else widths[0] + Total(widths[1..]) }

  function Unpack(order: Order, data: Bytes, widths: seq<nat>): (values: seq<nat>)
    requires |data| == Total(widths)
    ensures |values| == |widths|
  {
    if widths == [] then []
    else [Decode(order, data[..widths[0]])] + Unpack(order, data[widths[0]..], widths[1..])
  }

  predicate Fitting(values: seq<nat>, widths: seq<nat>) {
    |values| == |widths| && forall i :: 0 <= i < |values| ==> values[i] < Pow256(widths[i])
  }

  lemma {:induction false} UnpackPack(order: Order, values: seq<nat>, widths: seq<nat>)
    requires Fitting(values, widths)
    ensures |Pack(order, values, widths)| == Total(widths)
    ensures Unpack(order, Pack(order, values, widths), widths) == values
  {
    if values != [] {
      UnpackPack(order, values[1..], widths[1..]);
      DecodeEncode(order, values[0], widths[0]);
      var first, rest := Encode(order, values[0], widths[0]), Pack(order, values[1..], widths[1..]);
      assert (first + rest)[..widths[0]] == first && (first + rest)[widths[0]..] == rest;
    }
  }

  lemma {:induction false} PackUnpack(order: Order, data: Bytes, widths: seq<nat>)
    requires |data| == Total(widths)
    ensures Fitting(Unpack(order, data, widths), widths)
    ensures Pack(order, Unpack(order, data, widths), widths) == data
  {
    if widths != [] {
      var first, rest := data[..widths[0]], data[widths[0]..];
      EncodeDecode(order, first);
      PackUnpack(order, rest, widths[1..]);
      var values := Unpack(order, data, widths);
      assert values[1..] == Unpack(order, rest, widths[1..]);
      assert data == first + rest;
    }
  }

  // ---------------------------------------------------------------------------
  // Where a field is

  function Offset(widths: seq<nat>, i: nat): nat
    requires i <= |widths|
  {
    if i == 0 then 0 else Offset(widths, i - 1) + widths[i - 1]
  }

  lemma {:induction false} OffsetRest(widths: seq<nat>, i: nat)
    requires 0 < i <= |widths|
    ensures Offset(widths, i) == widths[0] + Offset(widths[1..], i - 1)
  {
    if i > 1 {
      OffsetRest(widths, i - 1);
    }
  }

  /** Field `i` of packed fields lies at its offset. */
  lemma {:induction false} PackAt(order: Order, values: seq<nat>, widths: seq<nat>, i: nat)
    requires |values| == |widths| && i < |values|
    ensures var at, data := Offset(widths, i), Pack(order, values, widths);
            at + widths[i] <= |data| && data[at..at + widths[i]] == Encode(order, values[i], widths[i])
  {
    var first, rest := Encode(order, values[0], widths[0]), Pack(order, values[1..], widths[1..]);
    if i == 0 {
      assert (first + rest)[0..widths[0]] == first;
    } else {
      PackAt(order, values[1..], widths[1..], i - 1);
      OffsetRest(widths, i);
      var at := Offset(widths[1..], i - 1);
      SliceAfter(first, rest, at, at + widths[i]);
    }
  }

  /** Reading field `i` reads the bytes at its offset. */
  lemma {:induction false} UnpackAt(order: Order, data: Bytes, widths: seq<nat>, i: nat)
    requires |data| == Total(widths) && i < |widths|
    ensures var at := Offset(widths, i);
            at + widths[i] <= |data| && Unpack(order, data, widths)[i] == Decode(order, data[at..at + widths[i]])
  {
    var rest := data[widths[0]..];
    if i > 0 {
      UnpackAt(order, rest, widths[1..], i - 1);
      OffsetRest(widths, i);
      var at := Offset(widths[1..], i - 1);
      SliceDrop(data, widths[0], at, at + widths[i]);
    }
  }

  lemma SliceDrop(data: Bytes, n: nat, lo: nat, hi: nat)
    requires n <= |data| && lo <= hi <= |data| - n
    ensures data[n..][lo..hi] == data[n + lo..n + hi]
  {
  }

  lemma SliceAfter(first: Bytes, rest: Bytes, lo: nat, hi: nat)
    requires lo <= hi <= |rest|
    ensures (first + rest)[|first| + lo..|first| + hi] == rest[lo..hi]
  {
  }
}
