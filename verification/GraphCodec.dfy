/** What the Java serializer writes for an object graph and what the Java deserializer
    makes of a run of bytes, as functions of the state both keep while they recurse. */
module GraphCodec {
  import opened Basics
  import opened Primitives
  import opened ObjectGraph

  // ---------- writing ----------

  /** Handles given out so far: the n-th object to be met has number n. */
  type Handles = map<nat, nat>

  predicate Numbers(h: Heap, num: Handles) {
    forall r <- num :: r < |h| && num[r] < |num|
  }

  predicate Extends(num: Handles, num': Handles) {
    |num| <= |num'| && forall r <- num :: r in num' && num'[r] == num[r]
  }

  /** Objects without a handle: the measure under which the recursion over a cyclic
      graph comes to an end. */
  function Unnumbered(h: Heap, num: Handles): (n: int) { |h| - |num| }

  lemma NumberingFits(h: Heap, num: Handles)
    requires Numbers(h, num)
    ensures |num| <= |h|
    ensures forall r: nat :: r < |h| && r !in num ==> |num| < |h|
  {
    BoundedSize(num.Keys, |h|);
    forall r: nat | r < |h| && r !in num ensures |num| < |h| {
      BoundedSize(num.Keys + {r}, |h|);
    }
  }

  lemma {:induction false} BoundedSize(s: set<nat>, n: nat)
    requires forall r <- s :: r < n
    ensures |s| <= n
  {
    if n == 0 {
      assert s == {};
    } else {
      BoundedSize(s - {n - 1}, n - 1);
      assert s <= (s - {n - 1}) + {n - 1};
    }
  }

  function PutMetadata(fs: seq<Field>): (bs: Bytes) {
    if fs == [] then []
    else PutString(fs[0].name) + PutString(TypeName(fs[0].ty)) + PutMetadata(fs[1..])
  }

  /** Everything of a new object that comes before its field values. */
  function PutHeader(ct: Classes, cls: string): (bs: Bytes)
    requires cls in ct.fields
  {
    [1, 0] + PutString(cls) + Put(|ct.fields[cls]|, 4) + PutMetadata(ct.fields[cls])
  }

  datatype Written = Written(bytes: Bytes, num: Handles)

  function WriteObject(ct: Classes, h: Heap, v: Value, num: Handles): (w: Written)
    requires LegalClasses(ct) && LegalHeap(ct, h) && Numbers(h, num) && ObjectOf(h, v)
    ensures Numbers(h, w.num) && Extends(num, w.num)
    decreases Unnumbered(h, num), v, 0, 0
  {
    if v.Null? then Written([0], num)
    else if v.id in num then Written([1, 1] + Put(num[v.id], 4), num)
    else
      NumberingFits(h, num);
      var o := h[v.id];
      var w := WriteFields(ct, h, ct.fields[o.cls], o, num[v.id := |num|]);
      Written(PutHeader(ct, o.cls) + w.bytes, w.num)
  }

  function WriteFields(ct: Classes, h: Heap, fs: seq<Field>, o: Object, num: Handles): (w: Written)
    requires LegalClasses(ct) && LegalHeap(ct, h) && Numbers(h, num)
    requires forall f <- fs :: f.name in o.fields && HasType(ct, h, o.fields[f.name], f.ty)
    ensures Numbers(h, w.num) && Extends(num, w.num)
    decreases Unnumbered(h, num), o, 0, |fs|
  {
    if fs == [] then Written([], num)
    else
      NumberingFits(h, num);
      var a := WriteValue(ct, h, fs[0].ty, o.fields[fs[0].name], num);
      NumberingFits(h, a.num);
      var b := WriteFields(ct, h, fs[1..], o, a.num);
      Written(a.bytes + b.bytes, b.num)
  }

  function WriteValue(ct: Classes, h: Heap, ty: Type, v: Value, num: Handles): (w: Written)
    requires LegalClasses(ct) && LegalHeap(ct, h) && Numbers(h, num) && HasType(ct, h, v, ty)
    ensures Numbers(h, w.num) && Extends(num, w.num)
    decreases Unnumbered(h, num), v, 1, 0
  {
    match ty
    case IntType => Written(Put(v.i, 4), num)
    case LongType => Written(Put(v.l, 8), num)
    case DoubleType => Written(Put(v.bits, 8), num)
    case StringType => Written(if v.Null? then [0] else [1] + PutString(v.s), num)
    case ArrayType(e) =>
      if v.Null? then Written(Put(-1, 4), num)
      else
        var w := WriteElems(ct, h, e, v.elems, num);
        Written(Put(|v.elems|, 4) + w.bytes, w.num)
    case ClassType(_) => WriteObject(ct, h, v, num)
  }

  function WriteElems(ct: Classes, h: Heap, e: Type, vs: seq<Value>, num: Handles): (w: Written)
    requires LegalClasses(ct) && LegalHeap(ct, h) && Numbers(h, num)
    requires forall x <- vs :: HasType(ct, h, x, e)
    ensures Numbers(h, w.num) && Extends(num, w.num)
    decreases Unnumbered(h, num), vs, 0, 0
  {
    if vs == [] then Written([], num)
    else
      NumberingFits(h, num);
      var a := WriteValue(ct, h, e, vs[0], num);
      NumberingFits(h, a.num);
      var b := WriteElems(ct, h, e, vs[1..], a.num);
      Written(a.bytes + b.bytes, b.num)
  }

  // ---------- reading ----------

  /** The objects made so far and the table of handles. */
  datatype Store = Store(heap: Heap, handles: map<int, Value>, counter: nat)

  const EMPTY: Store := Store([], map[], 0)

  datatype ReadResult = Failed | Read(v: Value, rest: Bytes, st: Store)

  datatype FieldsResult = FieldsFailed | FieldsRead(rest: Bytes, st: Store)

  datatype PlanResult = PlanFailed | Plan(fields: seq<Field>, rest: Bytes)

  /** What a variable holds in a new object before anything is stored into it. */
  function DefaultValue(ty: Type): Value {
    match ty
    case IntType => Int(0)
    case LongType => Long(0)
    case DoubleType => Double(0)
    case _ => Null
  }

  function DeclaredType(fs: seq<Field>, name: string): (r: Option<Type>)
    ensures r.Some? <==> exists f <- fs :: f.name == name
    ensures r.Some? ==> Field(name, r.value) in fs
  {
    if fs == [] then None
    else if fs[0].name == name then Some(fs[0].ty)
    else DeclaredType(fs[1..], name)
  }

  function NewObject(ct: Classes, cls: string): (o: Object)
    requires cls in ct.fields
  {
    Object(cls, map f <- (set f <- ct.fields[cls] :: f.name) ::
                  f := DefaultValue(DeclaredType(ct.fields[cls], f).value))
  }

  function ReadPrimitive(ty: Type, bs: Bytes, st: Store): (r: ReadResult)
    requires ty.IntType? || ty.LongType? || ty.DoubleType?
    ensures r.Read? ==> |r.rest| <= |bs| && r.st == st
  {
    if ty.IntType? then
      match TakeInt(bs)
      case Short => Failed
      case Taken(i, rest) => Read(Int(i), rest, st)
    else
      match TakeLong(bs)
      case Short => Failed
      case Taken(l, rest) => Read(if ty.LongType? then Long(l) else Double(l), rest, st)
  }

  /** The field descriptions of an incoming object. Each must name a field of the class. */
  function ReadPlan(ct: Classes, cls: string, n: int, bs: Bytes, acc: seq<Field>): (r: PlanResult)
    requires cls in ct.fields
    ensures r.Plan? ==> |r.rest| <= |bs|
    decreases n
  {
    if n <= 0 then Plan(acc, bs)
    else
      match TakeString(bs)
      case Short => PlanFailed
      case Taken(name, bs1) =>
        match TakeString(bs1)
        case Short => PlanFailed
        case Taken(tyName, bs2) =>
          match ResolveType(ct, tyName)
          case None => PlanFailed
          case Some(ty) =>
            if DeclaredType(ct.fields[cls], name).None? then PlanFailed
            else ReadPlan(ct, cls, n - 1, bs2, acc + [Field(name, ty)])
  }

  function ReadObject(ct: Classes, bs: Bytes, st: Store): (r: ReadResult)
    ensures r.Read? ==> |r.rest| <= |bs| && |st.heap| <= |r.st.heap|
    decreases |bs|, 0, 0
  {
    if bs == [] then Failed
    else if bs[0] == 0 then Read(Null, bs[1..], st)
    else if |bs| < 2 then Failed
    else if bs[1] == 1 then
      match TakeInt(bs[2..])
      case Short => Failed
      case Taken(k, rest) => Read(if k in st.handles then st.handles[k] else Null, rest, st)
    else
      match TakeString(bs[2..])
      case Short => Failed
      case Taken(cls, rest) => ReadNew(ct, cls, rest, st)
  }

  function ReadNew(ct: Classes, cls: string, bs: Bytes, st: Store): (r: ReadResult)
    ensures r.Read? ==> |r.rest| <= |bs| && |st.heap| <= |r.st.heap|
    decreases |bs|, 3, 0
  {
    if cls == "int" || cls == "long" || cls == "double" then
      match ReadPrimitive(ResolveType(ct, cls).value, bs, st)
      case Failed => Failed
      case Read(v, rest, _) =>
        Read(v, rest, Store(st.heap, st.handles[st.counter := v], st.counter + 1))
    else if cls !in ct.fields then Failed
    else
      var k := |st.heap|;
      var st1 := Store(st.heap + [NewObject(ct, cls)], st.handles[st.counter := Ref(k)], st.counter + 1);
      match TakeInt(bs)
      case Short => Failed
      case Taken(n, bs1) =>
        match ReadPlan(ct, cls, n, bs1, [])
        case PlanFailed => Failed
        case Plan(plan, bs2) =>
          match ReadFields(ct, cls, plan, k, bs2, st1)
          case FieldsFailed => Failed
          case FieldsRead(rest, st2) => Read(Ref(k), rest, st2)
  }

  /** Stores value v into field name of object k. */
  function SetField(st: Store, k: nat, name: string, v: Value): (st': Store)
    requires k < |st.heap|
    ensures |st'.heap| == |st.heap|
  {
    st.(heap := st.heap[k := Object(st.heap[k].cls, st.heap[k].fields[name := v])])
  }

  function ReadFields(ct: Classes, cls: string, plan: seq<Field>, k: nat, bs: Bytes, st: Store): (r: FieldsResult)
    requires cls in ct.fields && k < |st.heap|
    ensures r.FieldsRead? ==> |r.rest| <= |bs| && |st.heap| <= |r.st.heap|
    decreases |bs|, 2, |plan|
  {
    if plan == [] then FieldsRead(bs, st)
    else
      match ReadValue(ct, plan[0].ty, bs, st)
      case Failed => FieldsFailed
      case Read(v, rest, st1) =>
        var declared := DeclaredType(ct.fields[cls], plan[0].name);
        if declared.None? || !HasType(ct, st1.heap, Assigned(v, declared.value), declared.value) then FieldsFailed
        else ReadFields(ct, cls, plan[1..], k, rest, SetField(st1, k, plan[0].name, Assigned(v, declared.value)))
  }

  function ReadValue(ct: Classes, ty: Type, bs: Bytes, st: Store): (r: ReadResult)
    ensures r.Read? ==> |r.rest| <= |bs| && |st.heap| <= |r.st.heap|
    decreases |bs|, 1, 0
  {
    match ty
    case StringType =>
      if bs == [] then Failed
      else if bs[0] == 0 then Read(Null, bs[1..], st)
      else
        (match TakeString(bs[1..])
         case Short => Failed
         case Taken(s, rest) => Read(Text(s), rest, st))
    case ArrayType(e) =>
      (match TakeInt(bs)
       case Short => Failed
       case Taken(n, rest) =>
         if n == -1 then Read(Null, rest, st)
         else if n < 0 then Failed
         else ReadElems(ct, e, n, rest, st, []))
    case ClassType(_) => ReadObject(ct, bs, st)
    case _ => ReadPrimitive(ty, bs, st)
  }

  function ReadElems(ct: Classes, e: Type, n: nat, bs: Bytes, st: Store, acc: seq<Value>): (r: ReadResult)
    ensures r.Read? ==> |r.rest| <= |bs| && |st.heap| <= |r.st.heap|
    decreases |bs|, 2, n
  {
    if n == 0 then Read(Array(acc), bs, st)
    else
      match ReadValue(ct, e, bs, st)
      case Failed => Failed
      case Read(v, rest, st1) =>
        if !HasType(ct, st1.heap, v, e) then Failed
        else ReadElems(ct, e, n - 1, rest, st1, acc + [v])
  }
}
