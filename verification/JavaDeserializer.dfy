/** The Java deserializer in its own form: a table from handles to objects that grows while
    new objects are made and filled in place. */
module JavaDeserializer {
  import opened Basics
  import opened Primitives
  import opened ObjectGraph
  import opened GraphCodec
  import opened Parity
  import opened JavaBuffers
  import opened JavaCodec

  class Deserializer {
    var deserializedObjects: map<int, Value>
    var objectCounter: nat
    var heap: Heap  // the objects made so far

    ghost function State(): Store
      reads this
    {
      Store(heap, deserializedObjects, objectCounter)
    }

    constructor ()
      ensures State() == EMPTY
    {
      deserializedObjects := map[];
      objectCounter := 0;
      heap := [];
    }

    /** The outcome, the unread bytes and the tables are what the specification r says. */
    ghost predicate Got(r: ReadResult, result: Result<Value>, reader: ByteReader)
      reads this, reader
    {
      && reader.Valid()
      && (result.Ok? <==> r.Read?)
      && (r.Read? ==> result.value == r.v && reader.Rest() == r.rest && State() == r.st)
    }

    method Deserialize(ct: Classes, data: Bytes) returns (result: Result<Value>)
      modifies this
      ensures match JavaDecode(ct, data)
              case Rejected => result == Error
              case Decoded(v, h) => result == Ok(v) && heap == h
    {
      hide ReadObject, Ones;
      if data == [] {
        return Error;
      }
      var receivedParityBit := data[|data| - 1];
      var actualData := data[..|data| - 1];
      var calculatedParity := JavaParityBit(actualData);
      if calculatedParity != receivedParityBit {
        return Error;
      }
      deserializedObjects := map[];
      objectCounter := 0;
      heap := [];
      var reader := new ByteReader(actualData);
      result := DeserializeObject(ct, reader);
    }

    method DeserializeObject(ct: Classes, reader: ByteReader) returns (result: Result<Value>)
      requires reader.Valid()
      modifies this, reader`position
      ensures Got(ReadObject(ct, old(reader.Rest()), old(State())), result, reader)
      decreases |reader.buffer| - reader.position, 0, 0
    {
      hide ReadNew, TakeInt, TakeString;
      var nullMarker :- reader.ReadByte();
      if nullMarker == 0 {
        return Ok(Null);
      }
      var referenceMarker :- reader.ReadByte();
      assert old(reader.Rest())[1..][1..] == old(reader.Rest())[2..];
      if referenceMarker == 1 {
        var objectId :- reader.ReadInt();
        return Ok(if objectId in deserializedObjects then deserializedObjects[objectId] else Null);
      }
      var className :- reader.ReadString();
      result := DeserializeNew(ct, className, reader);
    }

    /** The part of deserializeObject that follows the class name. */
    method DeserializeNew(ct: Classes, className: string, reader: ByteReader) returns (result: Result<Value>)
      requires reader.Valid()
      modifies this, reader`position
      ensures Got(ReadNew(ct, className, old(reader.Rest()), old(State())), result, reader)
      decreases |reader.buffer| - reader.position, 3, 0
    {
      hide TakeInt, TakeLong, ReadPlan, ReadFields, NewObject;
      if className == "int" || className == "long" || className == "double" {
        var value :- ReadPrimitive(ResolveType(ct, className).value, reader);
        deserializedObjects := deserializedObjects[objectCounter := value];
        objectCounter := objectCounter + 1;
        return Ok(value);
      }
      if className !in ct.fields {
        return Error;
      }
      var obj := |heap|;
      heap := heap + [NewObject(ct, className)];
      deserializedObjects := deserializedObjects[objectCounter := Ref(obj)];
      objectCounter := objectCounter + 1;
      var fieldCount :- reader.ReadInt();
      var fields :- ReadMetadata(ct, className, fieldCount, reader);
      var o := ReadFieldValues(ct, className, fields, obj, reader);
      result := if o.Pass? then Ok(Ref(obj)) else Error;
    }

    /** The loop that reads all field descriptions before any value. */
    method ReadMetadata(ct: Classes, cls: string, fieldCount: int, reader: ByteReader)
      returns (result: Result<seq<Field>>)
      requires reader.Valid() && cls in ct.fields
      modifies reader`position
      ensures reader.Valid()
      ensures match ReadPlan(ct, cls, fieldCount, old(reader.Rest()), [])
              case PlanFailed => result.Error?
              case Plan(plan, rest) => result == Ok(plan) && reader.Rest() == rest
    {
      hide TakeString, ResolveType;
      ghost var plan := ReadPlan(ct, cls, fieldCount, reader.Rest(), []);
      var fields: seq<Field> := [];
      var i := 0;
      while i < fieldCount
        invariant reader.Valid()
        invariant plan == ReadPlan(ct, cls, fieldCount - i, reader.Rest(), fields)
      {
        var fieldName :- reader.ReadString();
        var fieldTypeName :- reader.ReadString();
        var fieldType := ResolveType(ct, fieldTypeName);
        if DeclaredType(ct.fields[cls], fieldName).None? || fieldType.None? {
          return Error;
        }
        fields := fields + [Field(fieldName, fieldType.value)];
        i := i + 1;
      }
      return Ok(fields);
    }

    /** The loop that reads every value and stores it into the object. */
    method ReadFieldValues(ct: Classes, cls: string, fields: seq<Field>, obj: nat, reader: ByteReader)
      returns (o: Outcome)
      requires reader.Valid() && cls in ct.fields && obj < |heap|
      modifies this, reader`position
      ensures reader.Valid()
      ensures match ReadFields(ct, cls, fields, obj, old(reader.Rest()), old(State()))
              case FieldsFailed => o == Threw
              case FieldsRead(rest, st) => o == Pass && reader.Rest() == rest && State() == st
      decreases |reader.buffer| - reader.position, 2, |fields|
    {
      hide GraphCodec.ReadValue, HasType, DeclaredType, Assigned;
      ghost var whole, size := ReadFields(ct, cls, fields, obj, reader.Rest(), State()), |reader.Rest()|;
      var i := 0;
      assert fields[0..] == fields;
      while i < |fields|
        invariant 0 <= i <= |fields| && reader.Valid() && obj < |heap| && |reader.Rest()| <= size
        invariant whole == ReadFields(ct, cls, fields[i..], obj, reader.Rest(), State())
      {
        assert fields[i..][1..] == fields[i + 1..];
        var fieldValue := ReadValue(ct, fields[i].ty, reader);
        if fieldValue.Error? {
          return Threw;
        }
        var declared := DeclaredType(ct.fields[cls], fields[i].name);
        if declared.None? {
          return Threw;
        }
        var stored := Assigned(fieldValue.value, declared.value);
        if !HasType(ct, heap, stored, declared.value) {
          return Threw;
        }
        heap := heap[obj := Object(heap[obj].cls, heap[obj].fields[fields[i].name := stored])];
        i := i + 1;
      }
      assert fields[i..] == [];
      return Pass;
    }

    method ReadPrimitive(ty: Type, reader: ByteReader) returns (result: Result<Value>)
      requires reader.Valid() && (ty.IntType? || ty.LongType? || ty.DoubleType?)
      modifies reader`position
      ensures Got(GraphCodec.ReadPrimitive(ty, old(reader.Rest()), old(State())), result, reader)
    {
      hide TakeInt, TakeLong;
      if ty.IntType? {
        var i :- reader.ReadInt();
        return Ok(Int(i));
      }
      var l :- reader.ReadLong();
      return Ok(if ty.LongType? then Long(l) else Double(l));
    }

    method ReadValue(ct: Classes, ty: Type, reader: ByteReader) returns (result: Result<Value>)
      requires reader.Valid()
      modifies this, reader`position
      ensures Got(GraphCodec.ReadValue(ct, ty, old(reader.Rest()), old(State())), result, reader)
      decreases |reader.buffer| - reader.position, 1, 0
    {
      hide ReadObject, ReadElems, TakeInt, TakeString, GraphCodec.ReadPrimitive;
      match ty
      case StringType =>
        var nullMarker :- reader.ReadByte();
        if nullMarker == 0 {
          return Ok(Null);
        }
        var s :- reader.ReadString();
        return Ok(Text(s));
      case ArrayType(e) => result := ReadArray(ct, e, reader);
      case ClassType(_) => result := DeserializeObject(ct, reader);
      case _ => result := ReadPrimitive(ty, reader);
    }

    method ReadArray(ct: Classes, e: Type, reader: ByteReader) returns (result: Result<Value>)
      requires reader.Valid()
      modifies this, reader`position
      ensures Got(GraphCodec.ReadValue(ct, ArrayType(e), old(reader.Rest()), old(State())), result, reader)
      decreases |reader.buffer| - reader.position, 0, 1
    {
      hide HasType, TakeInt, TakeString, ReadObject;
      var length :- reader.ReadInt();
      if length == -1 {
        return Ok(Null);
      }
      if length < 0 {
        return Error;
      }
      ghost var whole, size := ReadElems(ct, e, length, reader.Rest(), State(), []), |reader.Rest()|;
      var elems: seq<Value> := [];
      var i := 0;
      while i < length
        invariant 0 <= i <= length && reader.Valid() && |reader.Rest()| <= size
        invariant whole == ReadElems(ct, e, length - i, reader.Rest(), State(), elems)
      {
        var x :- ReadValue(ct, e, reader);
        if !HasType(ct, heap, x, e) {
          return Error;
        }
        elems := elems + [x];
        i := i + 1;
      }
      return Ok(Array(elems));
    }
  }
}
