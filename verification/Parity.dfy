/** The parity byte at the end of every datagram: both programs count one-bits modulo 2. */
module Parity {
  import opened Basics

  // ---------- what is counted ----------

  function OnesIn(b: nat): (n: nat) {
    if b == 0 then 0 else b % 2 + OnesIn(b / 2)
  }

  function Ones(bs: Bytes): (n: nat) {
    if bs == [] then 0 else OnesIn(bs[0]) + Ones(bs[1..])
  }

  lemma {:induction false} OnesAppend(a: Bytes, b: Bytes)
    ensures Ones(a + b) == Ones(a) + Ones(b)
  {
    if a == [] {
      assert a + b == b;
    } else {
      OnesAppend(a[1..], b);
      assert (a + b)[1..] == a[1..] + b;
    }
  }

  /** Positions at which two equally long runs of bytes differ. */
  function FlippedIn(a: nat, b: nat): (n: nat) {
    if a == 0 && b == 0 then 0
    else (if a % 2 == b % 2 then 0 else 1) + FlippedIn(a / 2, b / 2)
  }

  function Flipped(a: Bytes, b: Bytes): (n: nat)
    requires |a| == |b|
  {
    if a == [] then 0 else FlippedIn(a[0], b[0]) + Flipped(a[1..], b[1..])
  }

  lemma {:induction false} FlippedInParity(a: nat, b: nat)
    ensures (OnesIn(a) + OnesIn(b)) % 2 == FlippedIn(a, b) % 2
  {
    if a != 0 || b != 0 {
      FlippedInParity(a / 2, b / 2);
    }
  }

  lemma {:induction false} FlippedParity(a: Bytes, b: Bytes)
    requires |a| == |b|
    ensures (Ones(a) + Ones(b)) % 2 == Flipped(a, b) % 2
  {
    if a != [] {
      FlippedInParity(a[0], b[0]);
      FlippedParity(a[1..], b[1..]);
    }
  }

  /** Exclusive-or of single bits is addition modulo 2. */
  lemma XorIsSum(a: int, b: int)
    ensures (a % 2 + b % 2) % 2 == (a + b) % 2
  {
  }

  // ---------- the C++ loop ----------

  /** Shifts each unsigned byte until nothing is left of it. */
  method CppParityBit(data: Bytes) returns (parityBit: byte)
    ensures parityBit == Ones(data) % 2
  {
    parityBit := 0;
    for i := 0 to |data|
      invariant parityBit == Ones(data[..i]) % 2
    {
      var temp: nat := data[i];
      ghost var before := Ones(data[..i]);
      while temp != 0
        invariant parityBit == (before + OnesIn(data[i]) - OnesIn(temp)) % 2
      {
        parityBit := (parityBit + temp % 2) % 2;
        temp := temp / 2;
      }
      OneMore(data, i);
    }
    assert data[..|data|] == data;
  }

  lemma OneMore(data: Bytes, i: nat)
    requires i < |data|
    ensures Ones(data[..i + 1]) == Ones(data[..i]) + OnesIn(data[i])
  {
    assert data[..i + 1] == data[..i] + [data[i]];
    OnesAppend(data[..i], [data[i]]);
    assert Ones([data[i]]) == OnesIn(data[i]);
  }

  // ---------- the Java loop ----------

  /** A Java byte: the same eight bits read in two's complement. */
  function AsJava(b: byte): (s: int)
    ensures -128 <= s < 128 && s % 256 == b
  {
    if b < 128 then b else b - 256
  }

  /** Halving k times, rounding down as an arithmetic right shift does. */
  function Shifted(s: int, k: nat): int
    decreases k
  {
    if k == 0 then s else Shifted(s / 2, k - 1)
  }

  function LowBits(s: int, k: nat): (n: nat)
    decreases k
  {
    if k == 0 then 0 else s % 2 + LowBits(s / 2, k - 1)
  }

  lemma {:induction false} LowBitsLast(s: int, k: nat)
    ensures LowBits(s, k + 1) == LowBits(s, k) + Shifted(s, k) % 2
    ensures Shifted(s, k + 1) == Shifted(s, k) / 2
    decreases k
  {
    if k > 0 {
      LowBitsLast(s / 2, k - 1);
    }
  }

  function Pow2(k: nat): (p: int)
    ensures p > 0
  {
    if k == 0 then 1 else 2 * Pow2(k - 1)
  }

  /** The sign bit of a negative byte never reaches the first eight steps. */
  lemma {:induction false} LowBitsWrap(s: int, k: nat)
    ensures LowBits(s + Pow2(k), k) == LowBits(s, k)
    decreases k
  {
    if k > 0 {
      assert (s + Pow2(k)) / 2 == s / 2 + Pow2(k - 1) && (s + Pow2(k)) % 2 == s % 2;
      LowBitsWrap(s / 2, k - 1);
    }
  }

  lemma {:induction false} LowBitsAll(b: nat, k: nat)
    requires b < Pow2(k)
    ensures LowBits(b, k) == OnesIn(b)
  {
    if k > 0 {
      LowBitsAll(b / 2, k - 1);
    }
  }

  lemma TwoToTheEight()
    ensures Pow2(8) == 256
  {
    assert Pow2(4) == 16;
    assert Pow2(8) == 2 * (2 * (2 * (2 * Pow2(4))));
  }

  lemma EightBits(b: byte)
    ensures LowBits(AsJava(b), 8) == OnesIn(b)
  {
    hide LowBits, OnesIn, Pow2;
    TwoToTheEight();
    LowBitsAll(b, 8);
    if b >= 128 {
      LowBitsWrap(AsJava(b), 8);
    }
  }

  /** Takes eight steps on each signed byte. */
  method JavaParityBit(data: Bytes) returns (parityBit: byte)
    ensures parityBit == Ones(data) % 2
  {
    hide AsJava, LowBits, Shifted, Ones, OnesIn;
    parityBit := 0;
    NothingCounted(data);
    for i := 0 to |data|
      invariant parityBit == Ones(data[..i]) % 2
    {
      var temp := AsJava(data[i]);
      ghost var before := Ones(data[..i]);
      NothingShifted(temp);
      for j := 0 to 8
        invariant temp == Shifted(AsJava(data[i]), j)
        invariant parityBit == (before + LowBits(AsJava(data[i]), j)) % 2
      {
        LowBitsLast(AsJava(data[i]), j);
        XorIsSum(before + LowBits(AsJava(data[i]), j), temp);
        parityBit := (parityBit + temp % 2) % 2;
        temp := temp / 2;
      }
      EightBits(data[i]);
      OneMore(data, i);
    }
    assert data[..|data|] == data;
  }

  lemma NothingCounted(data: Bytes)
    ensures Ones(data[..0]) == 0
  {
  }

  lemma NothingShifted(s: int)
    ensures Shifted(s, 0) == s && LowBits(s, 0) == 0
  {
  }

  // ---------- datagrams ----------

  function Sealed(body: Bytes): (datagram: Bytes)
    ensures datagram != []
  {
    body + [Ones(body) % 2]
  }

  /** The test both decoders make before they look at anything else. */
  predicate PassesParity(datagram: Bytes) {
    datagram != [] && datagram[|datagram| - 1] == Ones(datagram[..|datagram| - 1]) % 2
  }

  lemma SealedPasses(body: Bytes)
    ensures PassesParity(Sealed(body)) && Sealed(body)[..|body|] == body
  {
    assert Sealed(body)[..|body|] == body;
  }

  /** Exactly the datagrams that get through: the last byte is a bit and the number of
      one-bits is even. */
  lemma PassesIff(datagram: Bytes)
    requires datagram != []
    ensures PassesParity(datagram)
            <==> datagram[|datagram| - 1] <= 1 && Ones(datagram) % 2 == 0
  {
    hide Ones, OnesIn;
    var n := |datagram| - 1;
    OneMore(datagram, n);
    assert datagram[..n + 1] == datagram;
    OnesOfSmall();
    SealArithmetic(Ones(datagram[..n]), datagram[n], OnesIn(datagram[n]));
  }

  lemma SealArithmetic(body: nat, last: byte, ones: nat)
    requires last <= 1 ==> ones == last
    ensures last == body % 2 <==> last <= 1 && (body + ones) % 2 == 0
  {
  }

  lemma OnesOfSmall()
    ensures OnesIn(0) == 0 && OnesIn(1) == 1
  {
    assert OnesIn(1) == 1 + OnesIn(0);
  }

  /** An odd number of flipped bits, wherever they are, is always noticed. */
  lemma OddFlipsRejected(sent: Bytes, received: Bytes)
    requires PassesParity(sent) && |received| == |sent| && Flipped(sent, received) % 2 == 1
    ensures !PassesParity(received)
  {
    PassesIff(sent);
    PassesIff(received);
    FlippedParity(sent, received);
  }
}
