/** The Java program's fixed-capacity writer and its reader. */
module JavaBuffers {
  import opened Basics
  import opened Primitives

  /** A write that appends bs either fits, and then appends exactly bs, or throws. */
  ghost predicate Appended(before: Bytes, bs: Bytes, capacity: nat, o: Outcome, after: Bytes) {
    && (o.Pass? <==> |before| + |bs| <= capacity)
    && (o.Pass? ==> after == before + bs)
  }

  /** After a write of bs that has thrown: the bytes that fit have been written. */
  ghost predicate Filled(before: Bytes, bs: Bytes, capacity: nat, o: Outcome, after: Bytes) {
    o.Threw? ==> after <= before + bs && |after| == capacity
  }

  class ByteBuffer {
    var buffer: array<byte>
    var position: nat

    ghost predicate Valid()
      reads this
    {
      position <= buffer.Length
    }

    ghost function Contents(): Bytes
      reads this, buffer
      requires Valid()
    {
      buffer[..position]
    }

    constructor (capacity: nat)
      ensures Valid() && Contents() == []
      ensures fresh(buffer) && buffer.Length == capacity
    {
      buffer := new byte[capacity];
      position := 0;
    }

    method WriteByte(value: byte) returns (o: Outcome)
      requires Valid()
      modifies this`position, buffer
      ensures Valid()
      ensures Appended(old(Contents()), [value], buffer.Length, o, Contents())
      ensures Filled(old(Contents()), [value], buffer.Length, o, Contents())
    {
      if position >= buffer.Length {
        return Threw;
      }
      buffer[position] := value;
      position := position + 1;
      return Pass;
    }

    method WriteInt(value: int32) returns (o: Outcome)
      requires Valid()
      modifies this`position, buffer
      ensures Valid()
      ensures Appended(old(Contents()), Put(value, 4), buffer.Length, o, Contents())
      ensures Filled(old(Contents()), Put(value, 4), buffer.Length, o, Contents())
    {
      hide Put;
      ShiftedBytes(value);
      :- WriteByte((value / 0x100_0000) % 256);
      :- WriteByte((value / 0x1_0000) % 256);
      :- WriteByte((value / 0x100) % 256);
      :- WriteByte(value % 256);
      return Pass;
    }

    method WriteLong(value: int64) returns (o: Outcome)
      requires Valid()
      modifies this`position, buffer
      ensures Valid()
      ensures Appended(old(Contents()), Put(value, 8), buffer.Length, o, Contents())
      ensures Filled(old(Contents()), Put(value, 8), buffer.Length, o, Contents())
    {
      hide Put;
      ShiftedWords(value);
      AppendEight(Contents(), Put(value, 8));
      :- WriteByte((value / 0x100_0000_0000_0000) % 256);
      :- WriteByte((value / 0x1_0000_0000_0000) % 256);
      :- WriteByte((value / 0x100_0000_0000) % 256);
      :- WriteByte((value / 0x1_0000_0000) % 256);
      :- WriteByte((value / 0x100_0000) % 256);
      :- WriteByte((value / 0x1_0000) % 256);
      :- WriteByte((value / 0x100) % 256);
      :- WriteByte(value % 256);
      return Pass;
    }

    method WriteString(value: string) returns (o: Outcome)
      requires Valid() && Sized(value)
      modifies this`position, buffer
      ensures Valid()
      ensures Appended(old(Contents()), PutString(value), buffer.Length, o, Contents())
      ensures Filled(old(Contents()), PutString(value), buffer.Length, o, Contents())
    {
      hide Put;
      var bytes := EncodeText(value);
      :- WriteInt(|bytes|);
      var i := 0;
      while i < |bytes|
        invariant 0 <= i <= |bytes| && Valid()
        invariant Contents() == old(Contents()) + Put(|value|, 4) + bytes[..i]
      {
        :- WriteByte(bytes[i]);
        i := i + 1;
      }
      return Pass;
    }
  }

  class ByteReader {
    var buffer: Bytes
    var position: nat

    ghost predicate Valid()
      reads this
    {
      position <= |buffer|
    }

    /** The bytes that are still unread. */
    ghost function Rest(): Bytes
      reads this
      requires Valid()
    {
      buffer[position..]
    }

    constructor (data: Bytes)
      ensures Valid() && Rest() == data
    {
      buffer := data;
      position := 0;
    }

    method ReadByte() returns (r: Result<byte>)
      requires Valid()
      modifies this`position
      ensures Valid()
      ensures r.Ok? <==> TakeByte(old(Rest())).Taken?
      ensures r.Ok? ==> TakeByte(old(Rest())) == Taken(r.value, Rest())
    {
      if position >= |buffer| {
        return Error;
      }
      position := position + 1;
      return Ok(buffer[position - 1]);
    }

    method ReadInt() returns (r: Result<int32>)
      requires Valid()
      modifies this`position
      ensures Valid()
      ensures r.Ok? <==> TakeInt(old(Rest())).Taken?
      ensures r.Ok? ==> TakeInt(old(Rest())) == Taken(r.value, Rest())
    {
      hide Unsigned;
      ghost var start := Rest();
      var b0 :- ReadByte();
      var b1 :- ReadByte();
      var b2 :- ReadByte();
      var b3 :- ReadByte();
      assert start[..4] == [b0, b1, b2, b3] && start[4..] == Rest();
      CombinedBytes(start[..4]);
      Widths();
      var word := Combine(b0, b1, b2, b3);
      return Ok(if word < 0x8000_0000 then word else word - 0x1_0000_0000);
    }

    method ReadLong() returns (r: Result<int64>)
      requires Valid()
      modifies this`position
      ensures Valid()
      ensures r.Ok? <==> TakeLong(old(Rest())).Taken?
      ensures r.Ok? ==> TakeLong(old(Rest())) == Taken(r.value, Rest())
    {
      hide Unsigned, Pow256;
      ghost var start := Rest();
      var i: nat, word: nat := 0, 0;
      Widths();
      NoBytes();
      while i < 8
        invariant 0 <= i <= 8 && i <= |start| && Valid()
        invariant Rest() == start[i..] && word == Unsigned(start[..i])
      {
        var b :- ReadByte();
        OneMoreByte(start, i);
        word := word * 256 + b;
        i := i + 1;
      }
      return Ok(if word < 0x8000_0000_0000_0000 then word else word - 0x1_0000_0000_0000_0000);
    }

    method ReadString() returns (r: Result<string>)
      requires Valid()
      modifies this`position
      ensures Valid()
      ensures r.Ok? <==> TakeString(old(Rest())).Taken?
      ensures r.Ok? ==> TakeString(old(Rest())) == Taken(r.value, Rest())
    {
      hide TakeInt, DecodeText;
      var length :- ReadInt();
      if length < 0 {
        return Error;
      }
      ghost var start := Rest();
      var bytes: Bytes := [];
      var i := 0;
      while i < length
        invariant 0 <= i <= length && i <= |start| && Valid()
        invariant Rest() == start[i..] && bytes == start[..i]
      {
        var b :- ReadByte();
        bytes := bytes + [b];
        i := i + 1;
      }
      return Ok(DecodeText(bytes));
    }
  }

  lemma NoBytes()
    ensures Unsigned([]) == 0
  {
  }

  lemma OneMoreByte(bs: Bytes, i: nat)
    requires i < |bs|
    ensures Unsigned(bs[..i + 1]) == 256 * Unsigned(bs[..i]) + bs[i]
  {
    assert bs[..i + 1][..i] == bs[..i];
  }

  lemma AppendEight(c: Bytes, bs: Bytes)
    requires |bs| == 8
    ensures c + bs == c + [bs[0]] + [bs[1]] + [bs[2]] + [bs[3]] + [bs[4]] + [bs[5]] + [bs[6]] + [bs[7]]
  {
    assert bs == [bs[0]] + [bs[1]] + [bs[2]] + [bs[3]] + [bs[4]] + [bs[5]] + [bs[6]] + [bs[7]];
  }

  lemma PutStep(v: int, n: nat)
    ensures Put(v, n + 1) == Put(v / 256, n) + [v % 256]
  {
  }

  /** The bytes of a 64-bit word as the writers compute them. */
  lemma ShiftedWords(v: int)
    ensures Put(v, 8) == [(v / 0x100_0000_0000_0000) % 256, (v / 0x1_0000_0000_0000) % 256,
                          (v / 0x100_0000_0000) % 256, (v / 0x1_0000_0000) % 256,
                          (v / 0x100_0000) % 256, (v / 0x1_0000) % 256, (v / 0x100) % 256, v % 256]
  {
    hide Put;
    var a, b, c, d := v / 0x100, v / 0x1_0000, v / 0x100_0000, v / 0x1_0000_0000;
    assert a / 256 == b && b / 256 == c && c / 256 == d;
    assert d / 0x100_0000 == v / 0x100_0000_0000_0000;
    assert d / 0x1_0000 == v / 0x1_0000_0000_0000;
    assert d / 0x100 == v / 0x100_0000_0000;
    ShiftedBytes(d);
    PutStep(c, 4);
    PutStep(b, 5);
    PutStep(a, 6);
    PutStep(v, 7);
  }
}
