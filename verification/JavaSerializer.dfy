/** The Java serializer in its own form: a static handle table that is updated while the
    methods recurse over the graph and append to one buffer. */
module JavaSerializer {
  import opened Basics
  import opened Primitives
  import opened ObjectGraph
  import opened GraphCodec
  import opened GraphRoundTrip
  import opened Parity
  import opened JavaBuffers
  import opened JavaCodec

  /** A write of bs in two parts. */
  lemma AppendedTwice(before: Bytes, a: Bytes, b: Bytes, capacity: nat, o: Outcome, after: Bytes)
    requires |before| + |a| <= capacity && Appended(before + a, b, capacity, o, after)
    ensures Appended(before, a + b, capacity, o, after)
  {
    assert before + a + b == before + (a + b);
  }

  lemma RegroupLeft(a: Bytes, b: Bytes, c: Bytes, d: Bytes, e: Bytes)
    ensures a + (b + c + d + e) == a + b + c + d + e
  {
  }

  class Serializer {
    var serializedObjects: Handles
    var objectCounter: nat

    ghost predicate Valid(h: Heap)
      reads this
    {
      Numbers(h, serializedObjects) && objectCounter == |serializedObjects|
    }

    /** A writing step that started from handles num and contents before did what w says. */
    ghost predicate Did(w: Written, before: Bytes, buffer: ByteBuffer, o: Outcome)
      reads this, buffer, buffer.buffer
    {
      && buffer.Valid()
      && Appended(before, w.bytes, buffer.buffer.Length, o, buffer.Contents())
      && (o.Pass? ==> serializedObjects == w.num && objectCounter == |w.num|)
    }

    constructor ()
      ensures serializedObjects == map[] && objectCounter == 0
    {
      serializedObjects := map[];
      objectCounter := 0;
    }

    method Serialize(ct: Classes, h: Heap, root: Value) returns (r: Result<Bytes>)
      requires LegalClasses(ct) && LegalHeap(ct, h) && ObjectOf(h, root)
      modifies this
      ensures match JavaEncode(ct, h, root)
              case Some(datagram) => r == Ok(datagram)
              case None => r == Error
    {
      hide LegalClasses, LegalHeap, WriteObject, Ones, Linked;
      StartLinked(h);
      serializedObjects := map[];
      objectCounter := 0;
      var buffer := new ByteBuffer(CAPACITY);
      var o := SerializeObject(ct, h, root, buffer);
      if o.Threw? {
        return Error;
      }
      var data := buffer.buffer[..buffer.position];
      assert data == WriteObject(ct, h, root, map[]).bytes;
      var parityBit := JavaParityBit(data);
      o := buffer.WriteByte(parityBit);
      if o.Threw? {
        return Error;
      }
      return Ok(buffer.buffer[..buffer.position]);
    }

    method SerializeObject(ct: Classes, h: Heap, obj: Value, buffer: ByteBuffer) returns (o: Outcome)
      requires LegalClasses(ct) && LegalHeap(ct, h) && ObjectOf(h, obj)
      requires Valid(h) && buffer.Valid()
      modifies this, buffer`position, buffer.buffer
      ensures Did(WriteObject(ct, h, obj, old(serializedObjects)), old(buffer.Contents()), buffer, o)
      decreases Unnumbered(h, serializedObjects), obj, 0, 1
    {
      hide LegalClasses, LegalHeap, WriteFields, PutMetadata, Put;
      ghost var c := buffer.Contents();
      if obj.Null? {
        o := buffer.WriteByte(0);
        return;
      }
      :- buffer.WriteByte(1);
      if obj.id in serializedObjects {
        :- buffer.WriteByte(1);
        NumberingFits(h, serializedObjects);
        HeapFits(ct, h);
        o := buffer.WriteInt(serializedObjects[obj.id]);
        assert c + [1] + [1] == c + [1, 1];
        AppendedTwice(c, [1, 1], Put(serializedObjects[obj.id], 4), buffer.buffer.Length, o, buffer.Contents());
        return;
      }
      ghost var w := WriteObject(ct, h, obj, serializedObjects);
      assert w.bytes == [1] + w.bytes[1..];
      o := SerializeNew(ct, h, obj, buffer);
      AppendedTwice(c, [1], w.bytes[1..], buffer.buffer.Length, o, buffer.Contents());
    }

    /** The part of serializeObject that follows the non-null marker of a new object. */
    method SerializeNew(ct: Classes, h: Heap, obj: Value, buffer: ByteBuffer) returns (o: Outcome)
      requires LegalClasses(ct) && LegalHeap(ct, h) && ObjectOf(h, obj) && obj.Ref?
      requires Valid(h) && buffer.Valid() && obj.id !in serializedObjects
      modifies this, buffer`position, buffer.buffer
      ensures var w := WriteObject(ct, h, obj, old(serializedObjects));
              Did(Written(w.bytes[1..], w.num), old(buffer.Contents()), buffer, o)
      decreases Unnumbered(h, serializedObjects), obj, 0, 0
    {
      hide LegalClasses, LegalHeap, WriteObject, WriteFields, PutMetadata, Put, PutString, HasType, Writable,
           DistinctNames;
      ghost var c, num, capacity := buffer.Contents(), serializedObjects, buffer.buffer.Length;
      NumberingFits(h, num);
      LegalNew(ct, h, obj.id);
      NewHeader(ct, h, obj, num);
      var cls := h[obj.id].cls;
      var fields := ct.fields[cls];
      ghost var whole := WriteObject(ct, h, obj, num).bytes[1..];
      ghost var values := WriteFields(ct, h, fields, h[obj.id], num[obj.id := |num|]).bytes;
      ghost var name, count, meta := PutString(cls), Put(|fields|, 4), PutMetadata(fields);
      assert whole == [0] + (name + (count + (meta + values)));

      o := buffer.WriteByte(0);
      if o.Threw? { return; }
      serializedObjects := serializedObjects[obj.id := objectCounter];
      objectCounter := objectCounter + 1;
      o := buffer.WriteString(cls);
      if o.Threw? { return; }
      o := buffer.WriteInt(|fields|);
      if o.Threw? { return; }
      o := WriteMetadata(ct, cls, buffer);
      if o.Threw? { return; }
      ghost var before := buffer.Contents();
      assert before == c + [0] + name + count + meta;
      o := WriteFieldValues(ct, h, fields, h[obj.id], buffer);
      Regroup5([0], name, count, meta, values);
      RegroupLeft(c, [0], name, count, meta);
      AppendedTwice(c, [0] + name + count + meta, values, capacity, o, buffer.Contents());
    }

    /** Name and type of every field. */
    method WriteMetadata(ct: Classes, cls: string, buffer: ByteBuffer) returns (o: Outcome)
      requires LegalClasses(ct) && cls in ct.fields && buffer.Valid()
      modifies buffer`position, buffer.buffer
      ensures buffer.Valid()
      ensures Appended(old(buffer.Contents()), PutMetadata(ct.fields[cls]), buffer.buffer.Length, o, buffer.Contents())
    {
      hide LegalClasses, PutString, TypeName, PutMetadata;
      var fields := ct.fields[cls];
      ghost var c := buffer.Contents();
      ghost var written: Bytes := [];
      var i := 0;
      assert fields[0..] == fields;
      while i < |fields|
        invariant 0 <= i <= |fields| && buffer.Valid()
        invariant buffer.Contents() == c + written
        invariant PutMetadata(fields) == written + PutMetadata(fields[i..])
      {
        MetadataStep(fields, i);
        LegalFieldAt(ct, cls, i);
        ghost var one, two := PutString(fields[i].name), PutString(TypeName(fields[i].ty));
        :- buffer.WriteString(fields[i].name);
        :- buffer.WriteString(TypeName(fields[i].ty));
        Regroup5(c, written, one, two, []);
        written := written + one + two;
        i := i + 1;
      }
      NoMetadata();
      assert fields[i..] == [];
      return Pass;
    }

    /** The values of the fields, in the order of their descriptions. */
    method WriteFieldValues(ct: Classes, h: Heap, fields: seq<Field>, obj: Object, buffer: ByteBuffer)
      returns (o: Outcome)
      requires LegalClasses(ct) && LegalHeap(ct, h) && Valid(h) && buffer.Valid()
      requires forall f <- fields :: f.name in obj.fields && HasType(ct, h, obj.fields[f.name], f.ty)
                                     && Writable(obj.fields[f.name])
      modifies this, buffer`position, buffer.buffer
      ensures Did(WriteFields(ct, h, fields, obj, old(serializedObjects)), old(buffer.Contents()), buffer, o)
      decreases Unnumbered(h, serializedObjects), obj, 0, 2 + |fields|
    {
      hide LegalClasses, LegalHeap, GraphCodec.WriteValue, HasType, Writable;
      ghost var c, num, capacity := buffer.Contents(), serializedObjects, buffer.buffer.Length;
      ghost var whole := WriteFields(ct, h, fields, obj, num);
      ghost var written: Bytes := [];
      var i := 0;
      assert fields[0..] == fields;
      while i < |fields|
        invariant 0 <= i <= |fields| && buffer.Valid() && Valid(h)
        invariant |num| <= |serializedObjects| && |c + written| <= capacity
        invariant buffer.Contents() == c + written
        invariant whole.num == WriteFields(ct, h, fields[i..], obj, serializedObjects).num
        invariant whole.bytes == written + WriteFields(ct, h, fields[i..], obj, serializedObjects).bytes
      {
        NumberingFits(h, num);
        NumberingFits(h, serializedObjects);
        var f := fields[i];
        ghost var a := GraphCodec.WriteValue(ct, h, f.ty, obj.fields[f.name], serializedObjects);
        assert fields[i..][1..] == fields[i + 1..];
        ghost var rest := WriteFields(ct, h, fields[i + 1..], obj, a.num);
        assert WriteFields(ct, h, fields[i..], obj, serializedObjects) == Written(a.bytes + rest.bytes, rest.num);
        :- WriteValue(ct, h, f.ty, obj.fields[f.name], buffer);
        Regroup(c, written, a.bytes);
        Regroup(written, a.bytes, rest.bytes);
        written := written + a.bytes;
        i := i + 1;
      }
      assert fields[i..] == [];
      assert written + [] == written;
      return Pass;
    }

    method WriteValue(ct: Classes, h: Heap, ty: Type, value: Value, buffer: ByteBuffer) returns (o: Outcome)
      requires LegalClasses(ct) && LegalHeap(ct, h) && Valid(h) && buffer.Valid()
      requires HasType(ct, h, value, ty) && Writable(value)
      modifies this, buffer`position, buffer.buffer
      ensures Did(GraphCodec.WriteValue(ct, h, ty, value, old(serializedObjects)), old(buffer.Contents()), buffer, o)
      decreases Unnumbered(h, serializedObjects), value, 1, 0
    {
      hide LegalClasses, LegalHeap, WriteObject, WriteElems, Put, PutString;
      ghost var c := buffer.Contents();
      match ty
      case IntType => o := buffer.WriteInt(value.i);
      case LongType => o := buffer.WriteLong(value.l);
      case DoubleType => o := buffer.WriteLong(value.bits);
      case StringType =>
        if value.Null? {
          o := buffer.WriteByte(0);
        } else {
          :- buffer.WriteByte(1);
          o := buffer.WriteString(value.s);
          AppendedTwice(c, [1], PutString(value.s), buffer.buffer.Length, o, buffer.Contents());
        }
      case ArrayType(e) => o := WriteArray(ct, h, e, value, buffer);
      case ClassType(_) => o := SerializeObject(ct, h, value, buffer);
    }

    method WriteArray(ct: Classes, h: Heap, e: Type, value: Value, buffer: ByteBuffer) returns (o: Outcome)
      requires LegalClasses(ct) && LegalHeap(ct, h) && Valid(h) && buffer.Valid()
      requires HasType(ct, h, value, ArrayType(e)) && Writable(value)
      modifies this, buffer`position, buffer.buffer
      ensures Did(GraphCodec.WriteValue(ct, h, ArrayType(e), value, old(serializedObjects)),
                  old(buffer.Contents()), buffer, o)
      decreases Unnumbered(h, serializedObjects), value, 0, 0
    {
      hide LegalClasses, LegalHeap, GraphCodec.WriteValue, WriteElems, Put, HasType, Writable;
      ghost var c := buffer.Contents();
      ArrayBytes(ct, h, e, value, serializedObjects);
      if value.Null? {
        o := buffer.WriteInt(-1);
        return;
      }
      :- buffer.WriteInt(|value.elems|);
      ghost var w := WriteElems(ct, h, e, value.elems, serializedObjects);
      o := WriteElements(ct, h, e, value.elems, buffer);
      AppendedTwice(c, Put(|value.elems|, 4), w.bytes, buffer.buffer.Length, o, buffer.Contents());
    }

    /** The loop over the elements of an array. */
    method WriteElements(ct: Classes, h: Heap, e: Type, vs: seq<Value>, buffer: ByteBuffer) returns (o: Outcome)
      requires LegalClasses(ct) && LegalHeap(ct, h) && Valid(h) && buffer.Valid()
      requires forall x <- vs :: HasType(ct, h, x, e) && Writable(x)
      modifies this, buffer`position, buffer.buffer
      ensures Did(WriteElems(ct, h, e, vs, old(serializedObjects)), old(buffer.Contents()), buffer, o)
      decreases Unnumbered(h, serializedObjects), vs, 0, 0
    {
      hide LegalClasses, LegalHeap, GraphCodec.WriteValue, WriteElems, HasType, Writable;
      ghost var c, num, capacity := buffer.Contents(), serializedObjects, buffer.buffer.Length;
      ghost var whole := WriteElems(ct, h, e, vs, num);
      ghost var written: Bytes := [];
      var i := 0;
      assert vs[0..] == vs;
      while i < |vs|
        invariant 0 <= i <= |vs| && buffer.Valid() && Valid(h)
        invariant |num| <= |serializedObjects| && |c + written| <= capacity
        invariant buffer.Contents() == c + written
        invariant whole.num == WriteElems(ct, h, e, vs[i..], serializedObjects).num
        invariant whole.bytes == written + WriteElems(ct, h, e, vs[i..], serializedObjects).bytes
      {
        NumberingFits(h, num);
        NumberingFits(h, serializedObjects);
        ElemsStep(ct, h, e, vs, i, serializedObjects);
        ghost var a := GraphCodec.WriteValue(ct, h, e, vs[i], serializedObjects);
        ghost var rest := WriteElems(ct, h, e, vs[i + 1..], a.num);
        :- WriteValue(ct, h, e, vs[i], buffer);
        Regroup(c, written, a.bytes);
        Regroup(written, a.bytes, rest.bytes);
        written := written + a.bytes;
        i := i + 1;
      }
      assert vs[i..] == [];
      NoElements(ct, h, e, serializedObjects);
      assert written + [] == written;
      return Pass;
    }
  }

  // ---------- facts the methods use ----------

  lemma HeapFits(ct: Classes, h: Heap)
    requires LegalHeap(ct, h)
    ensures |h| < 0x8000_0000
  {
  }

  lemma MetadataStep(fs: seq<Field>, i: nat)
    requires i < |fs|
    ensures PutMetadata(fs[i..]) == PutString(fs[i].name) + PutString(TypeName(fs[i].ty)) + PutMetadata(fs[i + 1..])
  {
    assert fs[i..][1..] == fs[i + 1..];
  }

  lemma NoMetadata()
    ensures PutMetadata([]) == []
  {
  }

  lemma LegalFieldAt(ct: Classes, cls: string, i: nat)
    requires LegalClasses(ct) && cls in ct.fields && i < |ct.fields[cls]|
    ensures var f := ct.fields[cls][i]; Sized(f.name) && Sized(TypeName(f.ty))
  {
    assert LegalField(ct, ct.fields[cls][i]);
  }

  lemma NewHeader(ct: Classes, h: Heap, obj: Value, num: Handles)
    requires LegalClasses(ct) && LegalHeap(ct, h) && ObjectOf(h, obj) && obj.Ref?
    requires Numbers(h, num) && |num| < |h| && obj.id !in num
    ensures var cls := h[obj.id].cls;
            && WriteObject(ct, h, obj, num).bytes != []
            && LegalObject(ct, h, h[obj.id]) && Sized(cls) && |ct.fields[cls]| < 0x8000_0000
            && Numbers(h, num[obj.id := |num|])
            && WriteObject(ct, h, obj, num).num
               == WriteFields(ct, h, ct.fields[cls], h[obj.id], num[obj.id := |num|]).num
            && WriteObject(ct, h, obj, num).bytes[1..]
               == [0] + (PutString(cls) + (Put(|ct.fields[cls]|, 4) + (PutMetadata(ct.fields[cls])
                  + WriteFields(ct, h, ct.fields[cls], h[obj.id], num[obj.id := |num|]).bytes)))
  {
    hide HasType, Writable, PutMetadata, PutString, Put, DistinctNames;
    var cls := h[obj.id].cls;
    assert LegalObject(ct, h, h[obj.id]) && LegalClassName(cls);
    Regroup5([1, 0], PutString(cls), Put(|ct.fields[cls]|, 4), PutMetadata(ct.fields[cls]),
             WriteFields(ct, h, ct.fields[cls], h[obj.id], num[obj.id := |num|]).bytes);
  }

  lemma ArrayBytes(ct: Classes, h: Heap, e: Type, v: Value, num: Handles)
    requires LegalClasses(ct) && LegalHeap(ct, h) && Numbers(h, num)
    requires HasType(ct, h, v, ArrayType(e)) && Writable(v)
    ensures v.Null? || v.Array?
    ensures v.Array? ==> |v.elems| < 0x8000_0000 && forall x <- v.elems :: HasType(ct, h, x, e) && Writable(x)
    ensures v.Null? ==> GraphCodec.WriteValue(ct, h, ArrayType(e), v, num) == Written(Put(-1, 4), num)
    ensures v.Array? ==>
              GraphCodec.WriteValue(ct, h, ArrayType(e), v, num)
              == Written(Put(|v.elems|, 4) + WriteElems(ct, h, e, v.elems, num).bytes,
                         WriteElems(ct, h, e, v.elems, num).num)
  {
  }

  lemma ElemsStep(ct: Classes, h: Heap, e: Type, vs: seq<Value>, i: nat, num: Handles)
    requires LegalClasses(ct) && LegalHeap(ct, h) && Numbers(h, num) && i < |vs|
    requires forall x <- vs :: HasType(ct, h, x, e)
    ensures var a := GraphCodec.WriteValue(ct, h, e, vs[i], num);
            var rest := WriteElems(ct, h, e, vs[i + 1..], a.num);
            WriteElems(ct, h, e, vs[i..], num) == Written(a.bytes + rest.bytes, rest.num)
  {
    hide LegalClasses, LegalHeap, GraphCodec.WriteValue, HasType;
    assert vs[i..][1..] == vs[i + 1..];
  }

  lemma NoElements(ct: Classes, h: Heap, e: Type, num: Handles)
    requires LegalClasses(ct) && LegalHeap(ct, h) && Numbers(h, num)
    ensures WriteElems(ct, h, e, [], num) == Written([], num)
  {
  }
}
