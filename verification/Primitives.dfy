/** The byte formats both programs share: big-endian integers and length-prefixed strings.
    The readers work on the bytes that are still unread and return what is left of them. */
module Primitives {
  import opened Basics

  function Pow256(n: nat): (p: int)
    ensures p > 0
  {
    if n == 0 then 1 else 256 * Pow256(n - 1)
  }

  /** The n low-order bytes of v, most significant first. */
  function Put(v: int, n: nat): (bs: Bytes)
    ensures |bs| == n
    decreases n
  {
    if n == 0 then [] else Put(v / 256, n - 1) + [v % 256]
  }

  function Unsigned(bs: Bytes): (v: nat)
    ensures v < Pow256(|bs|)
  {
    if bs == [] then 0 else 256 * Unsigned(bs[..|bs| - 1]) + bs[|bs| - 1]
  }

  /** The two's-complement reading of a big-endian word. */
  function Signed(bs: Bytes): (v: int)
    ensures -Pow256(|bs|) <= 2 * v < Pow256(|bs|)
  {
    if 2 * Unsigned(bs) < Pow256(|bs|) then Unsigned(bs) else Unsigned(bs) - Pow256(|bs|)
  }

  lemma {:induction false} UnsignedPut(v: nat, n: nat)
    requires v < Pow256(n)
    ensures Unsigned(Put(v, n)) == v
  {
    if n > 0 {
      UnsignedPut(v / 256, n - 1);
      var bs := Put(v, n);
      assert bs[..|bs| - 1] == Put(v / 256, n - 1);
    }
  }

  /** Adding a whole turn leaves the written bytes alone. */
  lemma {:induction false} PutWraps(v: int, n: nat)
    ensures Put(v + Pow256(n), n) == Put(v, n)
    decreases n
  {
    if n > 0 {
      PutWraps(v / 256, n - 1);
      assert v + Pow256(n) == v + 256 * Pow256(n - 1);
      assert (v + Pow256(n)) / 256 == v / 256 + Pow256(n - 1);
      assert (v + Pow256(n)) % 256 == v % 256;
    }
  }

  /** Writing a signed number and reading it back is the identity on its whole range. */
  lemma SignedPut(v: int, n: nat)
    requires -Pow256(n) <= 2 * v < Pow256(n)
    ensures Signed(Put(v, n)) == v
  {
    if v >= 0 {
      UnsignedPut(v, n);
    } else {
      PutWraps(v, n);
      UnsignedPut(v + Pow256(n), n);
    }
  }

  lemma Widths()
    ensures Pow256(4) == 0x1_0000_0000 && Pow256(8) == 0x1_0000_0000_0000_0000
  {
    assert Pow256(1) == 256;
    assert Pow256(2) == 0x1_0000;
    assert Pow256(3) == 0x100_0000;
    assert Pow256(4) == 0x1_0000_0000;
    assert Pow256(5) == 0x100_0000_0000;
    assert Pow256(6) == 0x1_0000_0000_0000;
    assert Pow256(7) == 0x100_0000_0000_0000;
  }

  /** The bytes of a word as the writers compute them, by shifting and masking. */
  lemma ShiftedBytes(v: int)
    ensures Put(v, 4) == [(v / 0x100_0000) % 256, (v / 0x1_0000) % 256, (v / 0x100) % 256, v % 256]
  {
    var a, b, c := v / 256, v / 0x1_0000, v / 0x100_0000;
    assert a / 256 == b && b / 256 == c;
    assert Put(c, 1) == [c % 256];
    assert Put(b, 2) == Put(c, 1) + [b % 256];
    assert Put(a, 3) == Put(b, 2) + [a % 256];
  }

  function Combine(b0: int, b1: int, b2: int, b3: int): int {
    b0 * 0x100_0000 + b1 * 0x1_0000 + b2 * 0x100 + b3
  }

  /** A word read by combining its shifted bytes. */
  lemma CombinedBytes(bs: Bytes)
    requires |bs| == 4
    ensures Unsigned(bs) == Combine(bs[0], bs[1], bs[2], bs[3])
  {
    assert bs[..3][..2] == bs[..2] && bs[..2][..1] == bs[..1] && bs[..1][..0] == [];
    assert Unsigned(bs[..1]) == bs[0];
    assert Unsigned(bs[..2]) == 256 * Unsigned(bs[..1]) + bs[1];
    assert Unsigned(bs[..3]) == 256 * Unsigned(bs[..2]) + bs[2];
  }

  // ---------- strings ----------

  /** A character no single byte stands for is written as a question mark. */
  function ByteOf(c: char): (b: byte) {
    if c as int < 256 then c as int else 63
  }

  function EncodeText(s: string): (bs: Bytes)
    ensures |bs| == |s|
  {
    seq(|s|, i requires 0 <= i < |s| => ByteOf(s[i]))
  }

  function DecodeText(bs: Bytes): (s: string)
    ensures |s| == |bs| && ByteString(s)
  {
    seq(|bs|, i requires 0 <= i < |bs| => bs[i] as char)
  }

  lemma TextRoundTrip(s: string)
    requires ByteString(s)
    ensures DecodeText(EncodeText(s)) == s
  {
  }

  /** Strings a length word can describe. */
  predicate Sized(s: string) { |s| < 0x8000_0000 }

  function PutString(s: string): (bs: Bytes)
    ensures |bs| == 4 + |s|
  {
    Put(|s|, 4) + EncodeText(s)
  }

  // ---------- reading ----------

  /** What a read leaves behind: a value and the unread bytes, or an exception. */
  datatype Taken<+T> = Short | Taken(value: T, rest: Bytes)

  function TakeByte(bs: Bytes): (r: Taken<byte>) {
    if bs == [] then Short else Taken(bs[0], bs[1..])
  }

  function TakeInt(bs: Bytes): (r: Taken<int32>)
    ensures r.Taken? ==> |r.rest| == |bs| - 4
  {
    if |bs| < 4 then Short else Widths(); Taken(Signed(bs[..4]), bs[4..])
  }

  function TakeLong(bs: Bytes): (r: Taken<int64>)
    ensures r.Taken? ==> |r.rest| == |bs| - 8
  {
    if |bs| < 8 then Short else Widths(); Taken(Signed(bs[..8]), bs[8..])
  }

  function TakeString(bs: Bytes): (r: Taken<string>)
    ensures r.Taken? ==> |r.rest| <= |bs| - 4
  {
    var n := TakeInt(bs);
    if n.Short? || n.value < 0 || n.value > |n.rest| then Short
    else Taken(DecodeText(n.rest[..n.value]), n.rest[n.value..])
  }

  lemma TakePutInt(v: int32, rest: Bytes)
    ensures TakeInt(Put(v, 4) + rest) == Taken(v, rest)
  {
    Widths();
    SignedPut(v, 4);
    assert (Put(v, 4) + rest)[..4] == Put(v, 4);
  }

  lemma TakePutLong(v: int64, rest: Bytes)
    ensures TakeLong(Put(v, 8) + rest) == Taken(v, rest)
  {
    Widths();
    SignedPut(v, 8);
    assert (Put(v, 8) + rest)[..8] == Put(v, 8);
  }

  lemma TakePutString(s: string, rest: Bytes)
    requires ByteString(s) && Sized(s)
    ensures TakeString(PutString(s) + rest) == Taken(s, rest)
  {
    var after := EncodeText(s) + rest;
    assert PutString(s) + rest == Put(|s|, 4) + after;
    TakePutInt(|s|, after);
    assert after[..|s|] == EncodeText(s) && after[|s|..] == rest;
    TextRoundTrip(s);
  }

  /** More bytes at the end never change what a successful read returned. */
  lemma TakeExtends(bs: Bytes, more: Bytes)
    ensures TakeInt(bs).Taken? ==>
              TakeInt(bs + more) == Taken(TakeInt(bs).value, TakeInt(bs).rest + more)
    ensures TakeLong(bs).Taken? ==>
              TakeLong(bs + more) == Taken(TakeLong(bs).value, TakeLong(bs).rest + more)
    ensures TakeString(bs).Taken? ==>
              TakeString(bs + more) == Taken(TakeString(bs).value, TakeString(bs).rest + more)
  {
    if |bs| >= 4 {
      assert (bs + more)[..4] == bs[..4] && (bs + more)[4..] == bs[4..] + more;
      var n := TakeInt(bs);
      if 0 <= n.value <= |n.rest| {
        assert (n.rest + more)[..n.value] == n.rest[..n.value];
        assert (n.rest + more)[n.value..] == n.rest[n.value..] + more;
      }
    }
    if |bs| >= 8 {
      assert (bs + more)[..8] == bs[..8] && (bs + more)[8..] == bs[8..] + more;
    }
  }

  // ---------- floating-point bits ----------

  const IMPLICIT_BIT := 0x10_0000_0000_0000

  /** The bits of the 64-bit floating-point number nearest to n, ties to even: widening as in
      section 5.1.2 of the Java Language Specification. */
  function DoubleBits(n: int64): (bits: int64) {
    var m: int := n;
    var unsigned := if m == 0 then 0 else if m > 0 then Scaled(m, 1075, false, false)
                    else 0x8000_0000_0000_0000 + Scaled(-m, 1075, false, false);
    (unsigned + 0x8000_0000_0000_0000) % 0x1_0000_0000_0000_0000 - 0x8000_0000_0000_0000
  }

  /** Shifts m until it has 53 bits; half is the last bit shifted out, more says whether any
      before it was set. */
  function Scaled(m: int, exponent: int, half: bool, more: bool): (bits: int)
    requires m > 0
    decreases if m < IMPLICIT_BIT then 3 * IMPLICIT_BIT - m else m
  {
    if m >= 2 * IMPLICIT_BIT then Scaled(m / 2, exponent + 1, m % 2 == 1, half || more)
    else if m < IMPLICIT_BIT then Scaled(2 * m, exponent - 1, false, false)
    else (exponent - 1) * IMPLICIT_BIT + m + (if half && (more || m % 2 == 1) then 1 else 0)
  }
}
