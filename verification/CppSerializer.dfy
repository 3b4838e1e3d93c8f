/** The C++ encoder and decoder in their own form: a growable buffer, a bounds-checked reader
    and the static handle tables. */
module CppSerializer {
  import opened Basics
  import opened Primitives
  import opened ObjectGraph
  import opened Parity
  import opened Messages
  import opened JavaBuffers

  class GrowableBuffer {
    var buffer: Bytes

    constructor ()
      ensures buffer == []
    {
      buffer := [];
    }

    method WriteByte(value: byte)
      modifies this
      ensures buffer == old(buffer) + [value]
    {
      buffer := buffer + [value];
    }

    method WriteInt(value: int32)
      modifies this
      ensures buffer == old(buffer) + Put(value, 4)
    {
      hide Put;
      ShiftedBytes(value);
      WriteByte((value / 0x100_0000) % 256);
      WriteByte((value / 0x1_0000) % 256);
      WriteByte((value / 0x100) % 256);
      WriteByte(value % 256);
    }

    method WriteString(str: string)
      requires Sized(str)
      modifies this
      ensures buffer == old(buffer) + PutString(str)
    {
      hide Put;
      WriteInt(|str|);
      var i := 0;
      while i < |str|
        invariant 0 <= i <= |str|
        invariant buffer == old(buffer) + Put(|str|, 4) + EncodeText(str)[..i]
      {
        WriteByte(ByteOf(str[i]));
        i := i + 1;
      }
    }
  }

  /** A C++ object as the encoder sees it through its address. */
  datatype Address = NoObject | To(address: nat, m: Message)

  class Encoder {
    var serializedObjects: map<nat, nat>
    var objectCounter: nat

    constructor ()
    {
      serializedObjects := map[];
      objectCounter := 0;
    }

    method Serialize(obj: Address) returns (datagram: Bytes)
      requires obj.To? ==> Sized(obj.m.data)
      modifies this
      ensures obj.To? ==> datagram == CppEncode(obj.m)
      ensures obj.NoObject? ==> datagram == Sealed([0])
    {
      hide CppBody, Ones;
      serializedObjects := map[];
      objectCounter := 0;
      var buffer := new GrowableBuffer();
      SerializeObject(obj, buffer);
      assert forall bs: Bytes :: [] + bs == bs;
      var parityBit := CppParityBit(buffer.buffer);
      buffer.WriteByte(parityBit);
      return buffer.buffer;
    }

    /** Writes a null, a back reference or a whole message. */
    method SerializeObject(obj: Address, buffer: GrowableBuffer)
      requires obj.To? ==> Sized(obj.m.data)
      requires forall a <- serializedObjects :: serializedObjects[a] < 0x8000_0000
      modifies this, buffer
      ensures buffer.buffer == old(buffer.buffer)
              + match obj
                case NoObject => [0]
                case To(a, m) =>
                  if a in old(serializedObjects) then [1, 1] + Put(old(serializedObjects)[a], 4) else CppBody(m)
      ensures obj.To? && obj.address !in old(serializedObjects) ==>
                serializedObjects == old(serializedObjects)[obj.address := old(objectCounter)]
                && objectCounter == old(objectCounter) + 1
    {
      hide Put, PutString, CppMetadata, CppValues;
      if obj.NoObject? {
        buffer.WriteByte(0);
        return;
      }
      buffer.WriteByte(1);
      if obj.address in serializedObjects {
        buffer.WriteByte(1);
        buffer.WriteInt(serializedObjects[obj.address]);
        return;
      }
      buffer.WriteByte(0);
      serializedObjects := serializedObjects[obj.address := objectCounter];
      objectCounter := objectCounter + 1;
      buffer.WriteString(MESSAGE);
      buffer.WriteInt(|SCHEMA|);
      WriteMetadata(buffer);
      WriteFieldValues(obj.m, buffer);
      RegroupBody(old(buffer.buffer), PutString(MESSAGE), Put(3, 4), CppMetadata(), CppValues(obj.m));
    }

    method WriteMetadata(buffer: GrowableBuffer)
      modifies buffer
      ensures buffer.buffer == old(buffer.buffer) + CppMetadata()
    {
      hide PutString, Put;
      ghost var written: Bytes := [];
      var i := 0;
      while i < |SCHEMA|
        invariant 0 <= i <= |SCHEMA|
        invariant buffer.buffer == old(buffer.buffer) + written
        invariant i == 1 ==> written == PutString("requestType") + PutString("int")
        invariant i == 2 ==> written == PutString("requestType") + PutString("int")
                                 + PutString("requestID") + PutString("int")
        invariant i == 0 ==> written == []
        invariant i == 3 ==> written == PutString("requestType") + PutString("int")
                                 + PutString("requestID") + PutString("int")
                                        + PutString("data") + PutString("java.lang.String")
      {
        buffer.WriteString(SCHEMA[i].name);
        buffer.WriteString(TypeName(SCHEMA[i].ty));
        written := written + PutString(SCHEMA[i].name) + PutString(TypeName(SCHEMA[i].ty));
        i := i + 1;
      }
      assert written == CppMetadata();
    }

    method WriteFieldValues(m: Message, buffer: GrowableBuffer)
      requires Sized(m.data)
      modifies buffer
      ensures buffer.buffer == old(buffer.buffer) + CppValues(m)
    {
      hide PutString, Put;
      buffer.WriteInt(m.requestType);
      buffer.WriteInt(m.requestID);
      if m.data == "" {
        buffer.WriteByte(0);
      } else {
        buffer.WriteByte(1);
        buffer.WriteString(m.data);
      }
    }
  }

  lemma RegroupBody(c: Bytes, name: Bytes, count: Bytes, meta: Bytes, values: Bytes)
    ensures c + [1] + [0] + name + count + meta + values == c + ([1, 0] + (name + (count + (meta + values))))
  {
  }

  // ---------- decoding ----------

  class Decoder {
    var deserializedObjects: map<int, Message>
    var objectCounter: nat

    constructor ()
    {
      deserializedObjects := map[];
      objectCounter := 0;
    }

    method Deserialize(data: Bytes) returns (r: CppDecoded)
      modifies this
      ensures r == CppDecode(data)
    {
      hide Ones, CppObject;
      if data == [] {
        return Throws;
      }
      var receivedParityBit := data[|data| - 1];
      var calculatedParity := CppParityBit(data[..|data| - 1]);
      if calculatedParity != receivedParityBit {
        return Throws;
      }
      deserializedObjects := map[];
      objectCounter := 0;
      var reader := new ByteReader(data);
      r := DeserializeObject(reader);
    }

    method DeserializeObject(reader: ByteReader) returns (r: CppDecoded)
      requires reader.Valid()
      modifies this, reader`position
      ensures r == CppObject(old(deserializedObjects), old(reader.Rest()))
    {
      hide CheckMetadata, CppFields, TakeInt, TakeString;
      ghost var start := reader.Rest();
      var nullMarker := reader.ReadByte();
      if nullMarker.Error? { return Throws; }
      if nullMarker.value == 0 {
        return NullObject;
      }
      var referenceMarker := reader.ReadByte();
      if referenceMarker.Error? { return Throws; }
      if referenceMarker.value == 1 {
        var objectId := reader.ReadInt();
        if objectId.Error? || objectId.value !in deserializedObjects { return Throws; }
        return Received(deserializedObjects[objectId.value]);
      }
      assert start[1..][1..] == start[2..];
      var className := reader.ReadString();
      if className.Error? || className.value != MESSAGE { return Throws; }
      deserializedObjects := deserializedObjects[objectCounter := Message(0, 0, "")];
      objectCounter := objectCounter + 1;
      var fieldCount := reader.ReadInt();
      if fieldCount.Error? || fieldCount.value != |SCHEMA| { return Throws; }
      var o := VerifyMetadata(reader);
      if o.Threw? { return Throws; }
      r := DeserializeFields(reader);
    }

    method VerifyMetadata(reader: ByteReader) returns (o: Outcome)
      requires reader.Valid()
      modifies reader`position
      ensures reader.Valid()
      ensures match CheckMetadata(SCHEMA, old(reader.Rest()))
              case None => o == Threw
              case Some(rest) => o == Pass && reader.Rest() == rest
    {
      hide TakeString, TypeName;
      var i := 0;
      assert SCHEMA[0..] == SCHEMA;
      while i < |SCHEMA|
        invariant 0 <= i <= |SCHEMA| && reader.Valid()
        invariant CheckMetadata(SCHEMA, old(reader.Rest())) == CheckMetadata(SCHEMA[i..], reader.Rest())
      {
        assert SCHEMA[i..][1..] == SCHEMA[i + 1..];
        var fieldName := reader.ReadString();
        if fieldName.Error? { return Threw; }
        var fieldType := reader.ReadString();
        if fieldType.Error? { return Threw; }
        if fieldName.value != SCHEMA[i].name || fieldType.value != TypeName(SCHEMA[i].ty) {
          return Threw;
        }
        i := i + 1;
      }
      return Pass;
    }

    method DeserializeFields(reader: ByteReader) returns (r: CppDecoded)
      requires reader.Valid()
      modifies reader`position
      ensures r == CppFields(old(reader.Rest()))
    {
      hide TakeInt, TakeString;
      var requestType := reader.ReadInt();
      if requestType.Error? { return Throws; }
      var requestID := reader.ReadInt();
      if requestID.Error? { return Throws; }
      var dataNullMarker := reader.ReadByte();
      if dataNullMarker.Error? { return Throws; }
      if dataNullMarker.value == 1 {
        var data := reader.ReadString();
        if data.Error? { return Throws; }
        return Received(Message(requestType.value, requestID.value, data.value));
      }
      return Received(Message(requestType.value, requestID.value, ""));
    }
  }
}
