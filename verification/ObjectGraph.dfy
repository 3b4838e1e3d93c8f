/** Java objects as the serializer sees them through reflection: a class table, a store of
    objects that refer to each other by number, and the names of types. */
module ObjectGraph {
  import opened Basics
  import opened Primitives

  datatype Type =
    | IntType
    | LongType
    | DoubleType
    | StringType
    | ClassType(name: string)
    | ArrayType(elem: Type)

  /** The value of a variable. Arrays are values: only objects have an identity the
      serializer looks at. A double is its 64 bits. */
  datatype Value =
    | Null
    | Int(i: int32)
    | Long(l: int64)
    | Double(bits: int64)
    | Text(s: string)
    | Array(elems: seq<Value>)
    | Ref(id: nat)

  datatype Field = Field(name: string, ty: Type)

  /** The instance fields of every known class in declaration order, and which class
      may stand where which class type is declared. */
  datatype Classes = Classes(fields: map<string, seq<Field>>, assignable: set<(string, string)>)

  datatype Object = Object(cls: string, fields: map<string, Value>)

  type Heap = seq<Object>

  // ---------- well-formed class tables ----------

  const KEYWORDS: set<string> :=
    {"int", "long", "double", "float", "boolean", "byte", "short", "char", "void"}

  predicate LegalClassName(n: string) {
    n != "" && n[0] != '[' && n !in KEYWORDS && n != "java.lang.String"
    && ByteString(n) && Sized(n)
  }

  predicate KnownType(ct: Classes, ty: Type) {
    match ty
    case ClassType(n) => n in ct.fields
    case ArrayType(e) => KnownType(ct, e)
    case _ => true
  }

  predicate DistinctNames(fs: seq<Field>) {
    forall i, j :: 0 <= i < j < |fs| ==> fs[i].name != fs[j].name
  }

  predicate LegalField(ct: Classes, f: Field) {
    ByteString(f.name) && Sized(f.name) && KnownType(ct, f.ty)
    && ByteString(TypeName(f.ty)) && Sized(TypeName(f.ty))
  }

  predicate LegalClasses(ct: Classes) {
    forall c <- ct.fields ::
      && LegalClassName(c)
      && |ct.fields[c]| < 0x8000_0000
      && DistinctNames(ct.fields[c])
      && forall f <- ct.fields[c] :: LegalField(ct, f)
  }

  // ---------- well-typed graphs ----------

  /** Java's assignment rule for a variable of type ty. */
  predicate HasType(ct: Classes, h: Heap, v: Value, ty: Type)
    decreases v
  {
    match ty
    case IntType => v.Int?
    case LongType => v.Long?
    case DoubleType => v.Double?
    case StringType => v.Null? || v.Text?
    case ClassType(n) => v.Null? || (v.Ref? && v.id < |h| && (h[v.id].cls, n) in ct.assignable)
    case ArrayType(e) => v.Null? || (v.Array? && forall x <- v.elems :: HasType(ct, h, x, e))
  }

  /** What a variable of type ty holds once v has been assigned to it: a number is widened,
      anything else is taken as it is. */
  function Assigned(v: Value, ty: Type): (v': Value) {
    if ty.LongType? && v.Int? then Long(v.i)
    else if ty.DoubleType? && v.Int? then Double(DoubleBits(v.i))
    else if ty.DoubleType? && v.Long? then Double(DoubleBits(v.l))
    else v
  }

  /** Strings and arrays a 32-bit length describes, made of single-byte characters. */
  predicate Writable(v: Value) {
    match v
    case Text(s) => ByteString(s) && Sized(s)
    case Array(elems) => |elems| < 0x8000_0000 && forall x <- elems :: Writable(x)
    case _ => true
  }

  predicate LegalObject(ct: Classes, h: Heap, o: Object) {
    && o.cls in ct.fields
    && o.fields.Keys == (set f <- ct.fields[o.cls] :: f.name)
    && forall f <- ct.fields[o.cls] ::
         f.name in o.fields && HasType(ct, h, o.fields[f.name], f.ty) && Writable(o.fields[f.name])
  }

  predicate LegalHeap(ct: Classes, h: Heap) {
    && |h| < 0x8000_0000
    && forall i :: 0 <= i < |h| ==> LegalObject(ct, h, h[i])
  }

  predicate ObjectOf(h: Heap, v: Value) {
    v.Null? || (v.Ref? && v.id < |h|)
  }

  // ---------- names of types ----------

  function TypeName(ty: Type): (s: string) {
    match ty
    case IntType => "int"
    case LongType => "long"
    case DoubleType => "double"
    case StringType => "java.lang.String"
    case ClassType(n) => n
    case ArrayType(e) => "[" + Descriptor(e)
  }

  function Descriptor(ty: Type): (s: string)
    ensures s != ""
  {
    match ty
    case IntType => "I"
    case LongType => "J"
    case DoubleType => "D"
    case StringType => "Ljava.lang.String;"
    case ClassType(n) => "L" + n + ";"
    case ArrayType(e) => "[" + Descriptor(e)
  }

  /** The class a type name denotes; an unknown name is an exception. */
  function ResolveType(ct: Classes, s: string): (r: Option<Type>) {
    if s == "int" then Some(IntType)
    else if s == "long" then Some(LongType)
    else if s == "double" then Some(DoubleType)
    else if s == "java.lang.String" then Some(StringType)
    else if s != "" && s[0] == '[' then
      match ResolveDescriptor(ct, s[1..])
      case Some(e) => Some(ArrayType(e))
      case None => None
    else if s in ct.fields then Some(ClassType(s))
    else None
  }

  function ResolveDescriptor(ct: Classes, s: string): (r: Option<Type>)
    decreases |s|
  {
    if s == "I" then Some(IntType)
    else if s == "J" then Some(LongType)
    else if s == "D" then Some(DoubleType)
    else if s != "" && s[0] == '[' then
      match ResolveDescriptor(ct, s[1..])
      case Some(e) => Some(ArrayType(e))
      case None => None
    else if |s| >= 2 && s[0] == 'L' && s[|s| - 1] == ';' then
      var n := s[1..|s| - 1];
      if n == "java.lang.String" then Some(StringType)
      else if n in ct.fields then Some(ClassType(n)) else None
    else None
  }

  lemma {:induction false} ResolveDescriptorOf(ct: Classes, ty: Type)
    requires LegalClasses(ct) && KnownType(ct, ty)
    ensures ResolveDescriptor(ct, Descriptor(ty)) == Some(ty)
  {
    match ty
    case ArrayType(e) =>
      ResolveDescriptorOf(ct, e);
      assert Descriptor(ty)[1..] == Descriptor(e);
    case ClassType(n) =>
      var s := Descriptor(ty);
      assert s[1..|s| - 1] == n;
    case StringType => StringDescriptor();
    case _ =>
  }

  lemma StringDescriptor()
    ensures var s: string := "Ljava.lang.String;";
            |s| == 18 && s[0] == 'L' && s[17] == ';' && s[1..17] == "java.lang.String"
  {
    assert "Ljava.lang.String;" == "L" + "java.lang.String" + ";";
  }

  /** Every type of the domain is recovered from the name the writer gives it. */
  lemma ResolveTypeName(ct: Classes, ty: Type)
    requires LegalClasses(ct) && KnownType(ct, ty)
    ensures ResolveType(ct, TypeName(ty)) == Some(ty)
  {
    match ty
    case ArrayType(e) =>
      ResolveDescriptorOf(ct, e);
      assert TypeName(ty)[1..] == Descriptor(e);
    case _ =>
  }
}
