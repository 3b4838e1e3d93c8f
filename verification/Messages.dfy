/** Request messages on the wire: the Java side writes them through the object-graph
    serializer, the C++ side through a fixed schema, and the two agree byte for byte. */
module Messages {
  import opened Basics
  import opened Primitives
  import opened ObjectGraph
  import opened GraphCodec
  import opened GraphRoundTrip
  import opened Parity
  import opened JavaCodec

  // ---------- the Java side ----------

  /** A Java request message; its data may be null. */
  datatype RequestMessage = RequestMessage(requestType: int32, requestID: int32, data: Option<string>)

  const MESSAGE: string := "Server.RequestMessage"

  const SCHEMA: seq<Field> :=
    [Field("requestType", IntType), Field("requestID", IntType), Field("data", StringType)]

  const CLASSES: Classes := Classes(map[MESSAGE := SCHEMA], {})

  function MessageObject(m: RequestMessage): Object {
    Object(MESSAGE, map["requestType" := Int(m.requestType), "requestID" := Int(m.requestID),
                        "data" := if m.data.None? then Null else Text(m.data.value)])
  }

  /** Text as the wire can carry it. */
  predicate Sendable(m: RequestMessage) {
    m.data.Some? ==> ByteString(m.data.value) && Sized(m.data.value)
  }

  function EncodeMessage(m: RequestMessage): (r: Option<Bytes>)
    requires Sendable(m)
  {
    MessageLegal(m);
    JavaEncode(CLASSES, [MessageObject(m)], Ref(0))
  }

  /** The cast in the request handler: anything but a message is an exception. */
  function DecodeMessage(datagram: Bytes): (r: Option<RequestMessage>) {
    match JavaDecode(CLASSES, datagram)
    case Rejected => None
    case Decoded(root, h) =>
      if root.Ref? && root.id < |h| && h[root.id].cls == MESSAGE then MessageOf(h[root.id]) else None
  }

  function MessageOf(o: Object): (r: Option<RequestMessage>) {
    var f := o.fields;
    if "requestType" in f && "requestID" in f && "data" in f
       && f["requestType"].Int? && f["requestID"].Int? && (f["data"].Null? || f["data"].Text?)
    then Some(RequestMessage(f["requestType"].i, f["requestID"].i,
                             if f["data"].Null? then None else Some(f["data"].s)))
    else None
  }

  // ---------- the C++ side ----------

  /** A C++ request message; empty data plays the part of null. */
  datatype Message = Message(requestType: int32, requestID: int32, data: string)

  function CppMetadata(): Bytes {
    PutString("requestType") + PutString("int") + (PutString("requestID") + PutString("int")
    + (PutString("data") + PutString("java.lang.String")))
  }

  function CppValues(m: Message): Bytes {
    Put(m.requestType, 4) + (Put(m.requestID, 4) + (if m.data == "" then [0] else [1] + PutString(m.data)))
  }

  function CppBody(m: Message): Bytes {
    [1, 0] + (PutString(MESSAGE) + (Put(3, 4) + (CppMetadata() + CppValues(m))))
  }

  function CppEncode(m: Message): (datagram: Bytes) { Sealed(CppBody(m)) }

  datatype CppDecoded = Throws | NullObject | Received(m: Message)

  function CppDecode(data: Bytes): (r: CppDecoded) {
    if data == [] || !PassesParity(data) then Throws else CppObject(map[], data)
  }

  /** Reads one object, given the objects read before it. The reader is also given the
      parity byte; nothing looks at it. */
  function CppObject(table: map<int, Message>, data: Bytes): (r: CppDecoded) {
    if data == [] then Throws
    else if data[0] == 0 then NullObject
    else if |data| < 2 then Throws
    else if data[1] == 1 then
      match TakeInt(data[2..])
      case Short => Throws
      case Taken(k, _) => if k in table then Received(table[k]) else Throws
    else
      match TakeString(data[2..])
      case Short => Throws
      case Taken(cls, bs) =>
        if cls != MESSAGE then Throws
        else
          match TakeInt(bs)
          case Short => Throws
          case Taken(n, bs1) =>
            if n != |SCHEMA| then Throws
            else
              match CheckMetadata(SCHEMA, bs1)
              case None => Throws
              case Some(bs2) => CppFields(bs2)
  }

  /** Field descriptions must be exactly the expected ones. */
  function CheckMetadata(fs: seq<Field>, bs: Bytes): (rest: Option<Bytes>) {
    if fs == [] then Some(bs)
    else
      match TakeString(bs)
      case Short => None
      case Taken(name, bs1) =>
        match TakeString(bs1)
        case Short => None
        case Taken(ty, bs2) =>
          if name != fs[0].name || ty != TypeName(fs[0].ty) then None else CheckMetadata(fs[1..], bs2)
  }

  function CppFields(bs: Bytes): (r: CppDecoded) {
    match TakeInt(bs)
    case Short => Throws
    case Taken(requestType, bs1) =>
      match TakeInt(bs1)
      case Short => Throws
      case Taken(requestID, bs2) =>
        if bs2 == [] then Throws
        else if bs2[0] == 1 then
          match TakeString(bs2[1..])
          case Short => Throws
          case Taken(data, _) => Received(Message(requestType, requestID, data))
        else Received(Message(requestType, requestID, ""))
  }

  /** How every request begins on the wire: not null, a new object, the length of the class
      name in four bytes, high byte first, and the name. */
  lemma WireBegins(m: Message)
    ensures |CppEncode(m)| > 27
    ensures CppEncode(m)[..27] == [1, 0, 0, 0, 0, 21] + EncodeText("Server.RequestMessage")
  {
    hide CppMetadata, CppValues, EncodeText;
    assert |MESSAGE| == 21;
    LengthBytes();
    var rest := Put(3, 4) + (CppMetadata() + CppValues(m));
    assert CppBody(m) == [1, 0, 0, 0, 0, 21] + EncodeText(MESSAGE) + rest;
    assert CppEncode(m)[..27] == CppBody(m)[..27];
  }

  lemma LengthBytes()
    ensures Put(21, 4) == [0, 0, 0, 21]
  {
  }

  // ---------- both write the same bytes ----------

  /** The Java counterpart of a C++ message. */
  function ToJava(m: Message): RequestMessage {
    RequestMessage(m.requestType, m.requestID, if m.data == "" then None else Some(m.data))
  }

  /** The C++ counterpart of a Java message: null is read as empty. */
  function ToCpp(m: RequestMessage): Message {
    Message(m.requestType, m.requestID, if m.data.None? then "" else m.data.value)
  }

  lemma SchemaLegal()
    ensures LegalClasses(CLASSES)
  {
    assert LegalClassName(MESSAGE);
    forall f <- SCHEMA ensures LegalField(CLASSES, f) {
      assert f == SCHEMA[0] || f == SCHEMA[1] || f == SCHEMA[2];
    }
    assert DistinctNames(SCHEMA);
  }

  lemma MessageLegal(m: RequestMessage)
    requires Sendable(m)
    ensures LegalClasses(CLASSES) && LegalHeap(CLASSES, [MessageObject(m)]) && ObjectOf([MessageObject(m)], Ref(0))
  {
    hide LegalClasses, MessageObject, HasType, Writable;
    SchemaLegal();
    FieldsPresent(m);
    FieldsTyped(m);
  }

  lemma FieldsPresent(m: RequestMessage)
    ensures MessageObject(m).cls == MESSAGE
    ensures MessageObject(m).fields.Keys == (set f <- SCHEMA :: f.name)
    ensures forall f <- SCHEMA :: f.name in MessageObject(m).fields
  {
    assert SCHEMA[0] in SCHEMA && SCHEMA[1] in SCHEMA && SCHEMA[2] in SCHEMA;
  }

  lemma FieldsTyped(m: RequestMessage)
    requires Sendable(m) && forall f <- SCHEMA :: f.name in MessageObject(m).fields
    ensures forall f <- SCHEMA :: HasType(CLASSES, [MessageObject(m)], MessageObject(m).fields[f.name], f.ty)
                                  && Writable(MessageObject(m).fields[f.name])
  {
    assert forall f <- SCHEMA :: f == SCHEMA[0] || f == SCHEMA[1] || f == SCHEMA[2];
  }

  function JavaBody(m: RequestMessage): (body: Bytes)
    requires Sendable(m)
  {
    MessageLegal(m);
    WriteObject(CLASSES, [MessageObject(m)], Ref(0), map[]).bytes
  }

  function JavaValues(m: RequestMessage): Bytes {
    Put(m.requestType, 4) + (Put(m.requestID, 4) + (if m.data.None? then [0] else [1] + PutString(m.data.value)))
  }

  lemma MetadataAgrees()
    ensures PutMetadata(SCHEMA) == CppMetadata()
  {
    hide PutString;
    var s1, s2 := SCHEMA[1..], SCHEMA[2..];
    assert s1[1..] == s2 && s2[1..] == [];
    assert PutMetadata(s2) == PutString("data") + PutString("java.lang.String") + [];
    assert PutMetadata(s1) == PutString("requestID") + PutString("int") + PutMetadata(s2);
    assert PutMetadata(SCHEMA) == PutString("requestType") + PutString("int") + PutMetadata(s1);
  }

  lemma ValuesAgree(m: RequestMessage)
    requires Sendable(m) && LegalClasses(CLASSES) && LegalHeap(CLASSES, [MessageObject(m)])
    requires forall f <- SCHEMA :: f.name in MessageObject(m).fields
                                   && HasType(CLASSES, [MessageObject(m)], MessageObject(m).fields[f.name], f.ty)
    ensures WriteFields(CLASSES, [MessageObject(m)], SCHEMA, MessageObject(m), map[0 := 0]).bytes == JavaValues(m)
  {
    hide PutString, Put, LegalClasses, LegalHeap, HasType;
    var h, o, num := [MessageObject(m)], MessageObject(m), map[0 := 0];
    var s1, s2 := SCHEMA[1..], SCHEMA[2..];
    assert s1[1..] == s2 && s2[1..] == [];
    assert forall f <- s1 :: f in SCHEMA;
    assert forall f <- s2 :: f in SCHEMA;
    assert WriteFields(CLASSES, h, [], o, num) == Written([], num);
    var last := if m.data.None? then [0] else [1] + PutString(m.data.value);
    assert WriteValue(CLASSES, h, StringType, o.fields["data"], num) == Written(last, num);
    assert WriteFields(CLASSES, h, s2, o, num) == Written(last + [], num);
    assert last + [] == last;
    assert WriteFields(CLASSES, h, s1, o, num) == Written(Put(m.requestID, 4) + last, num);
    assert WriteFields(CLASSES, h, SCHEMA, o, num)
        == Written(Put(m.requestType, 4) + (Put(m.requestID, 4) + last), num);
  }

  lemma JavaBodyIs(m: RequestMessage)
    requires Sendable(m)
    ensures JavaBody(m) == [1, 0] + (PutString(MESSAGE) + (Put(3, 4) + (CppMetadata() + JavaValues(m))))
  {
    hide PutString, Put, LegalClasses, LegalHeap, WriteFields, PutMetadata, CppMetadata, JavaValues;
    MessageLegal(m);
    SchemaTyped(m);
    MetadataAgrees();
    ValuesAgree(m);
    Regroup5([1, 0], PutString(MESSAGE), Put(3, 4), CppMetadata(), JavaValues(m));
    assert map[][0 := 0] == map[0 := 0];
  }

  lemma SchemaTyped(m: RequestMessage)
    requires Sendable(m) && LegalHeap(CLASSES, [MessageObject(m)])
    ensures forall f <- SCHEMA :: f.name in MessageObject(m).fields
                                  && HasType(CLASSES, [MessageObject(m)], MessageObject(m).fields[f.name], f.ty)
  {
    assert LegalObject(CLASSES, [MessageObject(m)], MessageObject(m));
  }

  /** Both sides write the same bytes for the same message. */
  lemma SameBytes(m: Message)
    requires ByteString(m.data) && Sized(m.data)
    ensures JavaBody(ToJava(m)) == CppBody(m)
    ensures EncodeMessage(ToJava(m)) == if |CppEncode(m)| <= CAPACITY then Some(CppEncode(m)) else None
  {
    hide PutString, Put, CppMetadata, WriteObject, Ones, LegalClasses, LegalHeap;
    JavaBodyIs(ToJava(m));
  }

  // ---------- sizes ----------

  /** A message with n > 0 bytes of data takes 115 + n bytes. */
  lemma CppSize(m: Message)
    ensures |CppEncode(m)| == if m.data == "" then 111 else 115 + |m.data|
  {
    assert |MESSAGE| == 21;
    assert |CppMetadata()| == 70;
  }

  /** The Java writer's buffer holds exactly the messages with up to 909 bytes of data. */
  lemma JavaFits(m: RequestMessage)
    requires Sendable(m)
    ensures m.data.Some? ==> (EncodeMessage(m).Some? <==> |m.data.value| <= 909)
    ensures m.data.None? ==> EncodeMessage(m).Some?
    ensures EncodeMessage(m).Some? ==> |EncodeMessage(m).value| <= 1024
  {
    hide WriteObject, Ones, LegalClasses, LegalHeap;
    JavaBodyIs(m);
    assert |MESSAGE| == 21;
    assert |CppMetadata()| == 70;
  }

  // ---------- each side reads what the other wrote ----------

  /** The request handler recovers every message the client can send. */
  lemma JavaReadsCpp(m: Message)
    requires ByteString(m.data) && Sized(m.data)
    ensures DecodeMessage(CppEncode(m)) == Some(ToJava(m))
  {
    hide PutString, Put, CppBody, CppMetadata, WriteObject, ReadObject, Ones, LegalClasses, LegalHeap, Linked, Progress,
         MessageObject;
    var j := ToJava(m);
    var o := MessageObject(j);
    MessageLegal(j);
    SameBytes(m);
    StartLinked([o]);
    RoundObject(CLASSES, [o], Ref(0), map[], EMPTY, []);
    var body := CppBody(m);
    assert body + [] == body;
    SealedPasses(body);
    var r := ReadObject(CLASSES, body, EMPTY);
    MessageBack(j);
    OnlyObject(o, r);
  }

  lemma OnlyObject(o: Object, r: ReadResult)
    requires LegalClasses(CLASSES) && LegalHeap(CLASSES, [o])
    requires o.cls == MESSAGE && forall f <- o.fields :: !o.fields[f].Ref? && !o.fields[f].Array?
    requires ReadBack([o], map[], EMPTY, WriteObject(CLASSES, [o], Ref(0), map[]).num, Ref(0), r, [])
    ensures r.v == Ref(0) && r.st.heap == [o]
  {
    hide LegalClasses, LegalHeap, WriteFields;
    var num := WriteObject(CLASSES, [o], Ref(0), map[]).num;
    assert 0 in num;
    assert num.Keys == {0};
    assert |num| == |num.Keys| == 1;
    assert Copied([o], num, 0, r.st.heap);
    assert forall f <- o.fields :: Renamed(num, o.fields[f]) == o.fields[f];
    assert r.st.heap[0] == o;
  }

  lemma MessageBack(m: RequestMessage)
    ensures MessageOf(MessageObject(m)) == Some(m)
    ensures MessageObject(m).cls == MESSAGE
    ensures var o := MessageObject(m); forall f <- o.fields :: !o.fields[f].Ref? && !o.fields[f].Array?
  {
  }

  /** The client recovers every reply the server can send, with null read as empty. */
  lemma CppReadsJava(m: RequestMessage)
    requires Sendable(m)
    ensures CppDecode(Sealed(JavaBody(m))) == Received(ToCpp(m))
  {
    hide PutString, Put, CppMetadata, JavaBody, JavaValues, Ones, CppFields, TakeInt, TakeString, CheckMetadata,
         PassesParity;
    JavaBodyIs(m);
    var body, seal := JavaBody(m), [Ones(JavaBody(m)) % 2];
    SealedPasses(body);
    var values := JavaValues(m) + seal;
    var afterCount := CppMetadata() + values;
    var afterName := Put(3, 4) + afterCount;
    SealedTail(PutString(MESSAGE), Put(3, 4), CppMetadata(), JavaValues(m), seal);
    assert Sealed(body)[2..] == PutString(MESSAGE) + afterName;
    TakePutString(MESSAGE, afterName);
    TakePutInt(3, afterCount);
    CheckCppMetadata(values);
    ReadCppFields(m, seal);
  }

  lemma SealedTail(a: Bytes, b: Bytes, c: Bytes, d: Bytes, e: Bytes)
    ensures [1, 0] + (a + (b + (c + d))) + e == [1, 0] + (a + (b + (c + (d + e))))
  {
  }

  lemma CheckCppMetadata(rest: Bytes)
    ensures CheckMetadata(SCHEMA, CppMetadata() + rest) == Some(rest)
  {
    hide PutString, TakeString;
    var s1, s2 := SCHEMA[1..], SCHEMA[2..];
    assert s1[1..] == s2 && s2[1..] == [];
    var t3 := PutString("data") + (PutString("java.lang.String") + rest);
    var t2 := PutString("requestID") + (PutString("int") + t3);
    assert CppMetadata() + rest == PutString("requestType") + (PutString("int") + t2);
    CheckOne(SCHEMA, t2);
    CheckOne(s1, t3);
    CheckOne(s2, rest);
  }

  lemma CheckOne(fs: seq<Field>, rest: Bytes)
    requires fs != [] && ByteString(fs[0].name) && Sized(fs[0].name)
    requires ByteString(TypeName(fs[0].ty)) && Sized(TypeName(fs[0].ty))
    ensures CheckMetadata(fs, PutString(fs[0].name) + (PutString(TypeName(fs[0].ty)) + rest))
            == CheckMetadata(fs[1..], rest)
  {
    hide PutString, TakeString, TypeName;
    TakePutString(fs[0].name, PutString(TypeName(fs[0].ty)) + rest);
    TakePutString(TypeName(fs[0].ty), rest);
  }

  lemma ReadCppFields(m: RequestMessage, rest: Bytes)
    requires Sendable(m)
    ensures CppFields(JavaValues(m) + rest) == Received(ToCpp(m))
  {
    hide PutString, Put, TakeInt, TakeString;
    var last := if m.data.None? then [0] else [1] + PutString(m.data.value);
    assert JavaValues(m) + rest == Put(m.requestType, 4) + (Put(m.requestID, 4) + (last + rest));
    TakePutInt(m.requestType, Put(m.requestID, 4) + (last + rest));
    TakePutInt(m.requestID, last + rest);
    if m.data.Some? {
      assert (last + rest)[1..] == PutString(m.data.value) + rest;
      TakePutString(m.data.value, rest);
    }
  }

  // ---------- truncated requests ----------

  /** Size of the server's receive buffer. */
  const SERVER_BUFFER := 1000

  /** What the server's socket hands over of a datagram. */
  function Arriving(datagram: Bytes): (seen: Bytes) {
    if |datagram| <= SERVER_BUFFER then datagram else datagram[..SERVER_BUFFER]
  }

  /** A request is understood iff it arrives whole, that is iff its data has at most 885
      bytes; a longer one is never mistaken for another request. */
  lemma RequestUnderstood(m: Message)
    requires ByteString(m.data) && Sized(m.data)
    ensures DecodeMessage(Arriving(CppEncode(m))) == if |m.data| <= 885 then Some(ToJava(m)) else None
  {
    hide CppBody, WriteObject, ReadObject, Ones, LegalClasses, LegalHeap, MessageObject, Linked, Progress;
    CppSize(m);
    if |m.data| <= 885 {
      JavaReadsCpp(m);
    } else {
      CppPrefixRejected(m, SERVER_BUFFER);
    }
  }

  lemma CppPrefixRejected(m: Message, n: nat)
    requires ByteString(m.data) && Sized(m.data) && n < |CppEncode(m)|
    ensures JavaDecode(CLASSES, CppEncode(m)[..n]) == Rejected
  {
    hide CppBody, WriteObject, ReadObject, Ones, LegalClasses, LegalHeap, MessageObject,
         Linked, Progress, Known, Renamed;
    MessageLegal(ToJava(m));
    SameBytes(m);
    PrefixRejected(CLASSES, [MessageObject(ToJava(m))], Ref(0), n);
  }
}
