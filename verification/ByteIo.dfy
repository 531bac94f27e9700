/** Big-endian bytes (byte_io.hpp): what is written to a buffer, and a bounds-checked cursor over one. */
module ByteIo {
  import opened Domain
  import opened Arithmetic

  type Byte = b: nat | b < 256
  type Bytes = seq<Byte>

  function Pow256(w: nat): (p: nat)
    ensures p > 0
  {
    if w == 0 then 1 else 256 * Pow256(w - 1)
  }

  lemma Widths()
    ensures Pow256(1) == 0x100 && Pow256(2) == 0x1_0000 && Pow256(4) == 0x1_0000_0000
    ensures Pow256(8) == 0x1_0000_0000_0000_0000
  {
    assert Pow256(1) == 256 * Pow256(0);
    assert Pow256(2) == 256 * Pow256(1) && Pow256(3) == 256 * Pow256(2) && Pow256(4) == 256 * Pow256(3);
    assert Pow256(5) == 256 * Pow256(4) && Pow256(6) == 256 * Pow256(5) && Pow256(7) == 256 * Pow256(6);
  }

  /** A number in so many bytes, most significant first. */
  function Put(v: nat, w: nat): (r: Bytes)
    requires v < Pow256(w)
    ensures |r| == w
  {
    if w == 0 then [] else Put(v / 256, w - 1) + [v % 256]
  }

  /** The number some bytes stand for. */
  function Get(data: Bytes): (v: nat)
    ensures v < Pow256(|data|)
  {
    if data == [] then 0 else 256 * Get(data[..|data| - 1]) + data[|data| - 1]
  }

  lemma {:induction false} GetPut(v: nat, w: nat)
    requires v < Pow256(w)
    ensures Get(Put(v, w)) == v
  {
    if w > 0 {
      GetPut(v / 256, w - 1);
      assert Put(v, w)[..w - 1] == Put(v / 256, w - 1);
    }
  }

  lemma {:induction false} PutGet(data: Bytes)
    ensures Put(Get(data), |data|) == data
  {
    if data != [] {
      PutGet(data[..|data| - 1]);
      assert data == data[..|data| - 1] + [data[|data| - 1]];
    }
  }

  // ---------- several fields ----------

  function Sum(widths: seq<nat>): nat {
    if widths == [] then 0 else widths[0] + Sum(widths[1..])
  }

  ghost predicate Fit(values: seq<nat>, widths: seq<nat>) {
    |values| == |widths| && forall i | 0 <= i < |values| :: values[i] < Pow256(widths[i])
  }

  /** Fields one after the other. */
  ghost function PutAll(values: seq<nat>, widths: seq<nat>): (r: Bytes)
    requires Fit(values, widths)
    ensures |r| == Sum(widths)
  {
    if values == [] then [] else Put(values[0], widths[0]) + PutAll(values[1..], widths[1..])
  }

  function GetAll(data: Bytes, widths: seq<nat>): (values: seq<nat>)
    requires |data| >= Sum(widths)
    ensures |values| == |widths| && Fit(values, widths)
    decreases |widths|
  {
    if widths == [] then []
    else
      var v := Get(data[..widths[0]]);
      var rest := GetAll(data[widths[0]..], widths[1..]);
      assert forall i | 1 <= i < |widths| :: widths[i] == widths[1..][i - 1];
      [v] + rest
  }

  lemma {:induction false} GetPutAll(values: seq<nat>, widths: seq<nat>, rest: Bytes)
    requires Fit(values, widths)
    ensures GetAll(PutAll(values, widths) + rest, widths) == values
    decreases |widths|
  {
    if values != [] {
      var first, tail := Put(values[0], widths[0]), PutAll(values[1..], widths[1..]);
      assert (first + tail + rest)[..widths[0]] == first;
      assert (first + tail + rest)[widths[0]..] == tail + rest;
      GetPut(values[0], widths[0]);
      GetPutAll(values[1..], widths[1..], rest);
    }
  }

  lemma {:induction false} PutGetAll(data: Bytes, widths: seq<nat>)
    requires |data| >= Sum(widths)
    ensures PutAll(GetAll(data, widths), widths) == data[..Sum(widths)]
    decreases |widths|
  {
    hide Put, Get;
    if widths != [] {
      var w := widths[0];
      var front, back := data[..w], data[w..];
      PutGet(front);
      PutGetAll(back, widths[1..]);
      var values := GetAll(data, widths);
      assert values[0] == Get(front) && values[1..] == GetAll(back, widths[1..]);
      FrontAndBack(data, w, Sum(widths[1..]));
    }
  }

  lemma FrontAndBack(data: Bytes, m: nat, n: nat)
    requires m + n <= |data|
    ensures data[..m] + data[m..][..n] == data[..m + n]
  {
  }

  // ---------- two's complement ----------

  const HALF: nat := 0x8000_0000_0000_0000
  const WHOLE: nat := 0x1_0000_0000_0000_0000

  function ToUnsigned(p: Price): nat {
    if p < 0 then p + WHOLE else p
  }

  function ToSigned(v: nat): Price
    requires v < WHOLE
  {
    if v >= HALF then v - WHOLE else v
  }

  /** The conversion loses nothing, either way. */
  lemma SignedRoundTrip(p: Price, v: nat)
    ensures ToUnsigned(p) < WHOLE && ToSigned(ToUnsigned(p)) == p
    ensures v < WHOLE ==> ToUnsigned(ToSigned(v)) == v
  {
  }

  // ---------- the loops ----------

  /** Appends a number, shifting its bytes out from the top. */
  method PutUnsigned(buf: Bytes, v: nat, w: nat) returns (out: Bytes)
    requires v < Pow256(w)
    ensures out == buf + Put(v, w)
  {
    out := buf;
    var i := 0;
    ghost var bytes := Put(v, w);
    while i < w
      invariant i <= w && out == buf + bytes[..i]
    {
      var shifted := v / Shift(w - 1 - i);
      ByteAt(v, w, i);
      out := out + [shifted % 256];
      i := i + 1;
    }
    assert bytes[..w] == bytes;
  }

  /** The weight of the byte with so many below it. */
  function Shift(n: nat): (p: nat)
    ensures p == Pow256(n) && p > 0
  {
    if n == 0 then 1 else 256 * Shift(n - 1)
  }

  lemma {:induction false} ByteAt(v: nat, w: nat, i: nat)
    requires v < Pow256(w) && i < w
    ensures Put(v, w)[i] == (v / Pow256(w - 1 - i)) % 256
    decreases w
  {
    if i < w - 1 {
      ByteAt(v / 256, w - 1, i);
      Quotients(v, Pow256(w - 2 - i));
    }
  }

  lemma Quotients(v: nat, p: nat)
    requires p > 0
    ensures (v / 256) / p == v / (256 * p)
  {
    var q, r := (v / 256) / p, (v / 256) % p;
    assert v / 256 == q * p + r;
    assert v == q * (256 * p) + (256 * r + v % 256);
    Remainder(v, 256 * p, q, 256 * r + v % 256);
  }

  /** A cursor over bytes that never reads past the end. */
  class ByteReader {
    const data: Bytes
    var pos: nat

    constructor (data: Bytes)
      ensures this.data == data && pos == 0
    {
      this.data, pos := data, 0;
    }

    ghost predicate Valid()
      reads this
    {
      pos <= |data|
    }

    /** The next so many bytes as a number, or nothing when there are too few. */
    method GetUnsigned(w: nat) returns (v: Option<nat>)
      requires Valid()
      modifies this
      ensures Valid()
      ensures if |data| - old(pos) < w then v == None && pos == old(pos)
              else pos == old(pos) + w && v == Some(Get(data[old(pos)..pos]))
    {
      if |data| - pos < w {
        return None;
      }
      var n: nat := 0;
      var i := 0;
      while i < w
        invariant i <= w && n == Get(data[pos..pos + i])
      {
        assert data[pos..pos + i + 1][..i] == data[pos..pos + i];
        n := n * 256 + data[pos + i];
        i := i + 1;
      }
      pos := pos + w;
      return Some(n);
    }
  }
}
