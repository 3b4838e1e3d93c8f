/** Decoding what the Java serializer wrote gives an isomorphic graph: nulls, sharing and
    cycles come back as they were. */
module GraphRoundTrip {
  import opened Basics
  import opened Primitives
  import opened ObjectGraph
  import opened GraphCodec

  /** A value of the original graph as it appears in the copy. */
  function Renamed(num: Handles, v: Value): (v': Value)
    decreases v, 1
  {
    match v
    case Ref(id) => if id in num then Ref(num[id]) else Null
    case Array(elems) => Array(RenamedAll(num, elems))
    case _ => v
  }

  function RenamedAll(num: Handles, vs: seq<Value>): (vs': seq<Value>)
    ensures |vs'| == |vs| && forall i :: 0 <= i < |vs| ==> vs'[i] == Renamed(num, vs[i])
    decreases vs, 0
  {
    if vs == [] then [] else [Renamed(num, vs[0])] + RenamedAll(num, vs[1..])
  }

  /** Every object v mentions is among ids. */
  predicate Known(ids: set<nat>, v: Value) {
    match v
    case Ref(id) => id in ids
    case Array(elems) => forall x <- elems :: Known(ids, x)
    case _ => true
  }

  predicate KnownObject(ids: set<nat>, o: Object) {
    forall f <- o.fields :: Known(ids, o.fields[f])
  }

  function RenamedObject(num: Handles, o: Object): Object {
    Object(o.cls, map f <- o.fields :: f := Renamed(num, o.fields[f]))
  }

  /** Object r has been copied completely. */
  predicate Copied(h: Heap, num: Handles, r: nat, copy: Heap)
    requires r in num && r < |h| && num[r] < |copy|
  {
    KnownObject(num.Keys, h[r]) && copy[num[r]] == RenamedObject(num, h[r])
  }

  predicate Injective(num: Handles) {
    forall a, b :: a in num && b in num && num[a] == num[b] ==> a == b
  }

  /** The writer's handle map and the reader's handle table agree: as many objects have
      been made as numbered, under the same numbers, with the same classes. */
  ghost predicate Linked(h: Heap, num: Handles, st: Store) {
    && Numbers(h, num) && Injective(num)
    && st.counter == |num| == |st.heap|
    && (forall k: int :: 0 <= k < |num| ==> k in st.handles && st.handles[k] == Ref(k))
    && (forall r <- num :: st.heap[num[r]].cls == h[r].cls)
  }

  /** From one pair of linked states to the next: earlier objects other than `open` (the
      one being filled) are untouched and every newly numbered object is complete. */
  ghost predicate Progress(h: Heap, num: Handles, st: Store, num': Handles, st': Store, open: int) {
    && Linked(h, num', st') && Extends(num, num')
    && |st.heap| <= |st'.heap|
    && (forall k :: 0 <= k < |st.heap| && k != open ==> st'.heap[k] == st.heap[k])
    && (forall r <- num' :: r !in num ==> |num| <= num'[r] && Copied(h, num', r, st'.heap))
  }

  lemma {:induction false} RenamedGrows(num: Handles, num': Handles, v: Value)
    requires Extends(num, num') && Known(num.Keys, v)
    ensures Known(num'.Keys, v) && Renamed(num', v) == Renamed(num, v)
    decreases v
  {
    match v
    case Array(elems) =>
      forall i | 0 <= i < |elems|
        ensures Known(num'.Keys, elems[i]) && Renamed(num', elems[i]) == Renamed(num, elems[i])
      {
        RenamedGrows(num, num', elems[i]);
      }
    case _ =>
  }

  lemma CopiedGrows(h: Heap, num: Handles, num': Handles, r: nat, copy: Heap, copy': Heap)
    requires Extends(num, num') && r in num && r < |h| && num[r] < |copy| <= |copy'|
    requires Copied(h, num, r, copy) && copy'[num[r]] == copy[num[r]]
    ensures Copied(h, num', r, copy')
  {
    forall f | f in h[r].fields
      ensures Known(num'.Keys, h[r].fields[f]) && Renamed(num', h[r].fields[f]) == Renamed(num, h[r].fields[f])
    {
      RenamedGrows(num, num', h[r].fields[f]);
    }
  }

  lemma ProgressTrans(h: Heap, num: Handles, st: Store, num1: Handles, st1: Store,
                      num2: Handles, st2: Store, open: int)
    requires Numbers(h, num) && |num| == |st.heap|
    requires open < |st.heap|
    requires Progress(h, num, st, num1, st1, open) && Progress(h, num1, st1, num2, st2, open)
    ensures Progress(h, num, st, num2, st2, open)
  {
    forall r | r in num2 && r !in num
      ensures |num| <= num2[r] && Copied(h, num2, r, st2.heap)
    {
      if r in num1 {
        CopiedGrows(h, num1, num2, r, st1.heap, st2.heap);
      }
    }
  }

  /** A well-typed value stays well-typed when it is copied. */
  lemma {:induction false} RenamedHasType(ct: Classes, h: Heap, num: Handles, st: Store, v: Value, ty: Type)
    requires Linked(h, num, st) && Known(num.Keys, v) && HasType(ct, h, v, ty)
    ensures HasType(ct, st.heap, Renamed(num, v), ty)
    decreases v
  {
    match v
    case Array(elems) =>
      if ty.ArrayType? {
        forall i | 0 <= i < |elems|
          ensures HasType(ct, st.heap, Renamed(num, elems[i]), ty.elem)
        {
          RenamedHasType(ct, h, num, st, elems[i], ty.elem);
        }
      }
    case _ =>
  }

  // ---------- metadata ----------

  lemma {:induction false} DeclaredTypeUnique(fs: seq<Field>, f: Field)
    requires DistinctNames(fs) && f in fs
    ensures DeclaredType(fs, f.name) == Some(f.ty)
  {
    var r := DeclaredType(fs, f.name);
    assert r.Some?;
    var i, j :| 0 <= i < |fs| && 0 <= j < |fs| && fs[i] == f && fs[j] == Field(f.name, r.value);
    assert i == j;
  }

  /** One field description, then the others. */
  lemma ReadOneField(ct: Classes, cls: string, f: Field, n: nat, tail: Bytes, acc: seq<Field>)
    requires LegalClasses(ct) && cls in ct.fields && f in ct.fields[cls]
    ensures ReadPlan(ct, cls, n + 1, PutString(f.name) + (PutString(TypeName(f.ty)) + tail), acc)
            == ReadPlan(ct, cls, n, tail, acc + [f])
  {
    hide PutString, TypeName, ResolveType, TakeString, LegalClasses;
    LegalFieldFacts(ct, cls, f);
    TakePutString(f.name, PutString(TypeName(f.ty)) + tail);
    TakePutString(TypeName(f.ty), tail);
  }

  lemma LegalFieldFacts(ct: Classes, cls: string, f: Field)
    requires LegalClasses(ct) && cls in ct.fields && f in ct.fields[cls]
    ensures ByteString(f.name) && Sized(f.name) && ByteString(TypeName(f.ty)) && Sized(TypeName(f.ty))
    ensures ResolveType(ct, TypeName(f.ty)) == Some(f.ty) && DeclaredType(ct.fields[cls], f.name).Some?
  {
    hide ResolveType, TypeName;
    assert LegalField(ct, f);
    ResolveTypeName(ct, f.ty);
  }

  lemma ReadFirstField(ct: Classes, cls: string, fs: seq<Field>, rest: Bytes, acc: seq<Field>)
    requires LegalClasses(ct) && cls in ct.fields && fs != [] && fs[0] in ct.fields[cls]
    ensures ReadPlan(ct, cls, |fs|, PutMetadata(fs) + rest, acc)
            == ReadPlan(ct, cls, |fs| - 1, PutMetadata(fs[1..]) + rest, acc + [fs[0]])
  {
    hide PutString, TypeName, LegalClasses, ReadPlan;
    var a, b, c := PutString(fs[0].name), PutString(TypeName(fs[0].ty)), PutMetadata(fs[1..]);
    ReadOneField(ct, cls, fs[0], |fs| - 1, c + rest, acc);
    assert PutMetadata(fs) + rest == a + (b + (c + rest));
  }

  lemma {:induction false} ReadMetadata(ct: Classes, cls: string, fs: seq<Field>, rest: Bytes, acc: seq<Field>)
    requires LegalClasses(ct) && cls in ct.fields
    requires forall f <- fs :: f in ct.fields[cls]
    ensures ReadPlan(ct, cls, |fs|, PutMetadata(fs) + rest, acc) == Plan(acc + fs, rest)
  {
    hide LegalClasses, ReadPlan, PutMetadata;
    if fs == [] {
      NoPlan(ct, cls, rest, acc);
    } else {
      assert fs[0] in fs;
      ReadFirstField(ct, cls, fs, rest, acc);
      ReadMetadata(ct, cls, fs[1..], rest, acc + [fs[0]]);
      assert acc + [fs[0]] + fs[1..] == acc + fs;
    }
  }

  lemma NoPlan(ct: Classes, cls: string, rest: Bytes, acc: seq<Field>)
    requires cls in ct.fields
    ensures ReadPlan(ct, cls, 0, PutMetadata([]) + rest, acc) == Plan(acc + [], rest)
  {
    assert PutMetadata([]) + rest == rest;
    assert acc + [] == acc;
  }

  // ---------- the round trip, by recursion along the writer ----------

  ghost predicate ReadBack(h: Heap, num: Handles, st: Store, num': Handles, v: Value, r: ReadResult, rest: Bytes) {
    && r.Read? && r.rest == rest
    && Known(num'.Keys, v) && r.v == Renamed(num', v)
    && Progress(h, num, st, num', r.st, -1)
  }

  ghost predicate FieldsReadBack(h: Heap, num: Handles, st: Store, num': Handles, o: Object, fs: seq<Field>,
                                 k: nat, r: FieldsResult, rest: Bytes) {
    && r.FieldsRead? && r.rest == rest
    && k < |st.heap|
    && Progress(h, num, st, num', r.st, k)
    && r.st.heap[k].cls == st.heap[k].cls
    && r.st.heap[k].fields.Keys == st.heap[k].fields.Keys
    && (forall f <- fs :: f.name in o.fields && f.name in r.st.heap[k].fields
                          && Known(num'.Keys, o.fields[f.name])
                          && r.st.heap[k].fields[f.name] == Renamed(num', o.fields[f.name]))
    && (forall n <- st.heap[k].fields ::
          (forall f <- fs :: f.name != n) ==> r.st.heap[k].fields[n] == st.heap[k].fields[n])
  }

  lemma NothingRead(h: Heap, num: Handles, st: Store)
    requires Linked(h, num, st)
    ensures Progress(h, num, st, num, st, -1)
  {
  }

  lemma Regroup<T>(a: seq<T>, b: seq<T>, c: seq<T>)
    ensures a + b + c == a + (b + c)
  {
  }

  lemma Regroup5<T>(a: seq<T>, b: seq<T>, c: seq<T>, d: seq<T>, e: seq<T>)
    ensures a + b + c + d + e == a + (b + (c + (d + e)))
  {
  }

  lemma LinkedNumbers(h: Heap, num: Handles, st: Store)
    requires Linked(h, num, st)
    ensures Numbers(h, num) && |num| == |st.heap|
  {
  }

  lemma ReadBackLinks(h: Heap, num: Handles, st: Store, w: Written, v: Value, r: ReadResult, rest: Bytes)
    requires ReadBack(h, num, st, w.num, v, r, rest)
    ensures r.Read? && Linked(h, w.num, r.st)
  {
  }

  lemma {:induction false} RoundValue(ct: Classes, h: Heap, ty: Type, v: Value, num: Handles, st: Store, rest: Bytes)
    requires LegalClasses(ct) && LegalHeap(ct, h) && Linked(h, num, st)
    requires HasType(ct, h, v, ty) && Writable(v)
    ensures var w := WriteValue(ct, h, ty, v, num);
            ReadBack(h, num, st, w.num, v, ReadValue(ct, ty, w.bytes + rest, st), rest)
    decreases Unnumbered(h, num), v, 1, 0
  {
    hide LegalClasses, LegalHeap, Linked, Progress, ReadObject, WriteObject, ReadElems, WriteElems, ReadPrimitive,
         Writable, Renamed, Known;
    if ty.ArrayType? {
      RoundArray(ct, h, ty.elem, v, num, st, rest);
    } else if ty.ClassType? {
      RoundObject(ct, h, v, num, st, rest);
    } else {
      RoundSimple(ct, h, ty, v, num, st, rest);
    }
  }

  lemma RoundSimple(ct: Classes, h: Heap, ty: Type, v: Value, num: Handles, st: Store, rest: Bytes)
    requires LegalClasses(ct) && LegalHeap(ct, h) && Linked(h, num, st)
    requires HasType(ct, h, v, ty) && Writable(v) && !ty.ArrayType? && !ty.ClassType?
    ensures var w := WriteValue(ct, h, ty, v, num);
            ReadBack(h, num, st, w.num, v, ReadValue(ct, ty, w.bytes + rest, st), rest)
  {
    hide LegalClasses, LegalHeap, Linked, Progress, Put, PutString, TakeInt, TakeLong, TakeString;
    NothingRead(h, num, st);
    match ty
    case IntType => TakePutInt(v.i, rest);
    case LongType => TakePutLong(v.l, rest);
    case DoubleType => TakePutLong(v.bits, rest);
    case StringType =>
      if v.Text? {
        Regroup([1], PutString(v.s), rest);
        TakePutString(v.s, rest);
      }
    case _ =>
  }

  lemma {:induction false} RoundArray(ct: Classes, h: Heap, e: Type, v: Value, num: Handles, st: Store, rest: Bytes)
    requires LegalClasses(ct) && LegalHeap(ct, h) && Linked(h, num, st)
    requires HasType(ct, h, v, ArrayType(e)) && Writable(v)
    ensures var w := WriteValue(ct, h, ArrayType(e), v, num);
            ReadBack(h, num, st, w.num, v, ReadValue(ct, ArrayType(e), w.bytes + rest, st), rest)
    decreases Unnumbered(h, num), v, 0, 0
  {
    hide LegalClasses, LegalHeap, Linked, Progress, Put, TakeInt, ReadElems, WriteElems;
    if v.Null? {
      NothingRead(h, num, st);
      TakePutInt(-1, rest);
    } else {
      RoundElems(ct, h, e, v.elems, num, st, rest, []);
      LinkedNumbers(h, num, st);
      var w := WriteElems(ct, h, e, v.elems, num);
      Regroup(Put(|v.elems|, 4), w.bytes, rest);
      TakePutInt(|v.elems|, w.bytes + rest);
      assert [] + RenamedAll(w.num, v.elems) == RenamedAll(w.num, v.elems);
    }
  }

  ghost predicate ElemsReadBack(h: Heap, num: Handles, st: Store, num': Handles, vs: seq<Value>, acc: seq<Value>,
                                r: ReadResult, rest: Bytes) {
    && r.Read? && r.rest == rest
    && (forall x <- vs :: Known(num'.Keys, x)) && r.v == Array(acc + RenamedAll(num', vs))
    && Progress(h, num, st, num', r.st, -1)
  }

  lemma {:induction false} RoundElems(ct: Classes, h: Heap, e: Type, vs: seq<Value>, num: Handles, st: Store,
                                      rest: Bytes, acc: seq<Value>)
    requires LegalClasses(ct) && LegalHeap(ct, h) && Linked(h, num, st)
    requires forall x <- vs :: HasType(ct, h, x, e) && Writable(x)
    ensures var w := WriteElems(ct, h, e, vs, num);
            ElemsReadBack(h, num, st, w.num, vs, acc, ReadElems(ct, e, |vs|, w.bytes + rest, st, acc), rest)
    decreases Unnumbered(h, num), vs, 0, 0
  {
    hide LegalClasses, LegalHeap, Linked, Progress, Numbers, Extends, ReadValue, WriteValue, Known, Renamed, Writable,
         HasType, ReadElems, ReadBack, ElemsReadBack;
    if vs == [] {
      NoElems(ct, h, e, num, st, rest, acc);
    } else {
      LinkedNumbers(h, num, st);
      NumberingFits(h, num);
      var a := WriteValue(ct, h, e, vs[0], num);
      NumberingFits(h, a.num);
      var b := WriteElems(ct, h, e, vs[1..], a.num);
      RoundValue(ct, h, e, vs[0], num, st, b.bytes + rest);
      var r1 := ReadValue(ct, e, a.bytes + (b.bytes + rest), st);
      ReadBackLinks(h, num, st, a, vs[0], r1, b.bytes + rest);
      RoundElems(ct, h, e, vs[1..], a.num, r1.st, rest, acc + [r1.v]);
      ElemsJoin(ct, h, e, num, st, a, r1, b, vs, acc, rest);
    }
  }

  lemma NoElems(ct: Classes, h: Heap, e: Type, num: Handles, st: Store, rest: Bytes, acc: seq<Value>)
    requires Linked(h, num, st)
    ensures ElemsReadBack(h, num, st, num, [], acc, ReadElems(ct, e, 0, [] + rest, st, acc), rest)
  {
    NothingRead(h, num, st);
    assert [] + rest == rest && acc + [] == acc;
  }

  /** One element read, then the remaining ones. */
  lemma ElemsJoin(ct: Classes, h: Heap, e: Type, num: Handles, st: Store, a: Written, r1: ReadResult, b: Written,
                  vs: seq<Value>, acc: seq<Value>, rest: Bytes)
    requires vs != [] && Linked(h, num, st) && HasType(ct, h, vs[0], e)
    requires r1 == ReadValue(ct, e, a.bytes + (b.bytes + rest), st)
    requires ReadBack(h, num, st, a.num, vs[0], r1, b.bytes + rest)
    requires ElemsReadBack(h, a.num, r1.st, b.num, vs[1..], acc + [r1.v],
                           ReadElems(ct, e, |vs| - 1, b.bytes + rest, r1.st, acc + [r1.v]), rest)
    ensures ElemsReadBack(h, num, st, b.num, vs, acc, ReadElems(ct, e, |vs|, a.bytes + b.bytes + rest, st, acc), rest)
  {
    var r := ReadElems(ct, e, |vs| - 1, b.bytes + rest, r1.st, acc + [r1.v]);
    RenamedGrows(a.num, b.num, vs[0]);
    ProgressTrans(h, num, st, a.num, r1.st, b.num, r.st, -1);
    RenamedHasType(ct, h, a.num, r1.st, vs[0], e);
    hide Progress, Linked, Renamed, ReadValue, HasType, Known;
    Regroup(a.bytes, b.bytes, rest);
    Regroup(acc, [r1.v], RenamedAll(b.num, vs[1..]));
    assert RenamedAll(b.num, vs) == [r1.v] + RenamedAll(b.num, vs[1..]);
  }

  lemma ReadAndSetField(ct: Classes, cls: string, fs: seq<Field>, k: nat, bs: Bytes, st: Store, r: ReadResult)
    requires cls in ct.fields && k < |st.heap| && fs != [] && DistinctNames(ct.fields[cls]) && fs[0] in ct.fields[cls]
    requires r == ReadValue(ct, fs[0].ty, bs, st) && r.Read? && HasType(ct, r.st.heap, r.v, fs[0].ty)
    ensures k < |r.st.heap|
    ensures ReadFields(ct, cls, fs, k, bs, st)
            == ReadFields(ct, cls, fs[1..], k, r.rest, SetField(r.st, k, fs[0].name, r.v))
  {
    DeclaredTypeUnique(ct.fields[cls], fs[0]);
  }

  lemma LinkedAfterSet(h: Heap, num: Handles, st: Store, a: Written, v: Value, r: ReadResult, rest: Bytes,
                       k: nat, f: string)
    requires ReadBack(h, num, st, a.num, v, r, rest) && k < |st.heap| && f in st.heap[k].fields
    ensures r.Read? && k < |r.st.heap| && Linked(h, a.num, SetField(r.st, k, f, r.v))
    ensures SetField(r.st, k, f, r.v).heap[k] == Object(st.heap[k].cls, st.heap[k].fields[f := r.v])
  {
  }

  lemma {:induction false} RoundFields(ct: Classes, h: Heap, fs: seq<Field>, o: Object, num: Handles, st: Store,
                                       k: nat, rest: Bytes)
    requires LegalClasses(ct) && LegalHeap(ct, h) && Linked(h, num, st)
    requires o.cls in ct.fields && k < |st.heap| && DistinctNames(fs)
    requires forall f <- fs :: f in ct.fields[o.cls] && f.name in st.heap[k].fields
    requires forall f <- fs :: f.name in o.fields && HasType(ct, h, o.fields[f.name], f.ty)
                               && Writable(o.fields[f.name])
    ensures var w := WriteFields(ct, h, fs, o, num);
            FieldsReadBack(h, num, st, w.num, o, fs, k, ReadFields(ct, o.cls, fs, k, w.bytes + rest, st), rest)
    decreases Unnumbered(h, num), o, 0, |fs|
  {
    hide LegalClasses, LegalHeap, Linked, Numbers, Extends, ReadValue, WriteValue, Known, Renamed, Writable, HasType,
         Progress, ReadFields, DistinctNames, ReadBack, FieldsReadBack;
    if fs == [] {
      NoFields(ct, h, o, num, st, k, rest);
    } else {
      LinkedNumbers(h, num, st);
      LegalDescription(ct, o.cls, fs);
      var f, v := fs[0], o.fields[fs[0].name];
      NumberingFits(h, num);
      var a := WriteValue(ct, h, f.ty, v, num);
      NumberingFits(h, a.num);
      var b := WriteFields(ct, h, fs[1..], o, a.num);
      RoundValue(ct, h, f.ty, v, num, st, b.bytes + rest);
      var r1 := ReadValue(ct, f.ty, a.bytes + (b.bytes + rest), st);
      LinkedAfterSet(h, num, st, a, v, r1, b.bytes + rest, k, f.name);
      RoundFields(ct, h, fs[1..], o, a.num, SetField(r1.st, k, f.name, r1.v), k, rest);
      FieldsJoin(ct, h, num, st, a, r1, b, o, fs, k, rest);
    }
  }

  lemma NoFields(ct: Classes, h: Heap, o: Object, num: Handles, st: Store, k: nat, rest: Bytes)
    requires Linked(h, num, st) && o.cls in ct.fields && k < |st.heap|
    ensures FieldsReadBack(h, num, st, num, o, [], k, ReadFields(ct, o.cls, [], k, [] + rest, st), rest)
  {
    NothingRead(h, num, st);
    assert [] + rest == rest;
  }

  lemma LegalDescription(ct: Classes, cls: string, fs: seq<Field>)
    requires LegalClasses(ct) && cls in ct.fields && fs != [] && DistinctNames(fs)
    ensures DistinctNames(ct.fields[cls]) && DistinctNames(fs[1..])
  {
  }

  /** One field read and stored, then the remaining ones. */
  lemma FieldsJoin(ct: Classes, h: Heap, num: Handles, st: Store, a: Written, r1: ReadResult, b: Written, o: Object,
                   fs: seq<Field>, k: nat, rest: Bytes)
    requires fs != [] && DistinctNames(fs) && fs[0].name in o.fields
    requires o.cls in ct.fields && DistinctNames(ct.fields[o.cls]) && fs[0] in ct.fields[o.cls]
    requires k < |st.heap| && Linked(h, num, st) && fs[0].name in st.heap[k].fields
    requires HasType(ct, h, o.fields[fs[0].name], fs[0].ty)
    requires r1 == ReadValue(ct, fs[0].ty, a.bytes + (b.bytes + rest), st)
    requires ReadBack(h, num, st, a.num, o.fields[fs[0].name], r1, b.bytes + rest) && k < |r1.st.heap|
    requires var st1 := SetField(r1.st, k, fs[0].name, r1.v);
             FieldsReadBack(h, a.num, st1, b.num, o, fs[1..], k,
                            ReadFields(ct, o.cls, fs[1..], k, b.bytes + rest, st1), rest)
    ensures FieldsReadBack(h, num, st, b.num, o, fs, k,
                           ReadFields(ct, o.cls, fs, k, a.bytes + b.bytes + rest, st), rest)
  {
    var f, v := fs[0].name, o.fields[fs[0].name];
    var st1 := SetField(r1.st, k, f, r1.v);
    RenamedHasType(ct, h, a.num, r1.st, v, fs[0].ty);
    ReadAndSetField(ct, o.cls, fs, k, a.bytes + (b.bytes + rest), st, r1);
    Regroup(a.bytes, b.bytes, rest);
    StoredFields(h, num, st, a, r1, b, o, fs, k, ReadFields(ct, o.cls, fs[1..], k, b.bytes + rest, st1), rest);
  }

  lemma StoredFields(h: Heap, num: Handles, st: Store, a: Written, r1: ReadResult, b: Written, o: Object,
                     fs: seq<Field>, k: nat, r: FieldsResult, rest: Bytes)
    requires fs != [] && DistinctNames(fs) && fs[0].name in o.fields
    requires k < |st.heap| && Linked(h, num, st) && fs[0].name in st.heap[k].fields
    requires ReadBack(h, num, st, a.num, o.fields[fs[0].name], r1, b.bytes + rest) && k < |r1.st.heap|
    requires FieldsReadBack(h, a.num, SetField(r1.st, k, fs[0].name, r1.v), b.num, o, fs[1..], k, r, rest)
    ensures FieldsReadBack(h, num, st, b.num, o, fs, k, r, rest)
  {
    hide Linked, Progress, Copied, Known, Renamed, Numbers, Extends;
    var f, v := fs[0].name, o.fields[fs[0].name];
    ProgressWhileFilling(h, num, st, a.num, r1.st, k, f, r1.v);
    LinkedNumbers(h, num, st);
    ProgressTrans(h, num, st, a.num, SetField(r1.st, k, f, r1.v), b.num, r.st, k);
    ProgressFacts(h, a.num, SetField(r1.st, k, f, r1.v), b.num, r.st, k);
    RenamedGrows(a.num, b.num, v);
    assert forall g <- fs :: g == fs[0] || g in fs[1..];
  }

  lemma ProgressFacts(h: Heap, num: Handles, st: Store, num': Handles, st': Store, k: nat)
    requires k < |st.heap| && Progress(h, num, st, num', st', k)
    ensures k < |st'.heap| && Extends(num, num')
  {
  }

  lemma ProgressWhileFilling(h: Heap, num: Handles, st: Store, num': Handles, st': Store, k: nat, f: string, v: Value)
    requires k < |st.heap| && Linked(h, num, st) && Progress(h, num, st, num', st', -1)
    ensures k < |st'.heap| && st'.heap[k] == st.heap[k] && Progress(h, num, st, num', SetField(st', k, f, v), k)
  {
  }

  // ---------- new objects ----------

  /** The state in which the fields of a new object of class cls are read. */
  function Allocated(ct: Classes, cls: string, st: Store): Store
    requires cls in ct.fields
  {
    Store(st.heap + [NewObject(ct, cls)], st.handles[st.counter := Ref(|st.heap|)], st.counter + 1)
  }

  lemma ReadClassName(ct: Classes, cls: string, tail: Bytes, st: Store)
    requires ByteString(cls) && Sized(cls)
    ensures ReadObject(ct, [1, 0] + (PutString(cls) + tail), st) == ReadNew(ct, cls, tail, st)
  {
    hide PutString, TakeString, ReadNew;
    TakePutString(cls, tail);
    var bs: Bytes := [1, 0] + (PutString(cls) + tail);
    assert bs[2..] == PutString(cls) + tail;
  }

  lemma ReadDescription(ct: Classes, cls: string, tail: Bytes, st: Store)
    requires LegalClasses(ct) && cls in ct.fields
    ensures ReadNew(ct, cls, Put(|ct.fields[cls]|, 4) + (PutMetadata(ct.fields[cls]) + tail), st)
            == match ReadFields(ct, cls, ct.fields[cls], |st.heap|, tail, Allocated(ct, cls, st))
               case FieldsFailed => Failed
               case FieldsRead(rest, st2) => Read(Ref(|st.heap|), rest, st2)
  {
    hide LegalClasses, PutMetadata, ReadFields, ReadPlan, Put, TakeInt, NewObject, ReadPrimitive;
    var fs := ct.fields[cls];
    ClassNameFacts(ct, cls);
    ReadMetadata(ct, cls, fs, tail, []);
    assert [] + fs == fs;
    TakePutInt(|fs|, PutMetadata(fs) + tail);
  }

  lemma ClassNameFacts(ct: Classes, cls: string)
    requires LegalClasses(ct) && cls in ct.fields
    ensures LegalClassName(cls) && |ct.fields[cls]| < 0x8000_0000
    ensures cls != "int" && cls != "long" && cls != "double" && ByteString(cls) && Sized(cls)
  {
  }

  /** The reader makes the object and learns its fields before it reads any value. */
  lemma ReadHeader(ct: Classes, cls: string, tail: Bytes, st: Store)
    requires LegalClasses(ct) && cls in ct.fields
    ensures ReadObject(ct, PutHeader(ct, cls) + tail, st)
            == match ReadFields(ct, cls, ct.fields[cls], |st.heap|, tail, Allocated(ct, cls, st))
               case FieldsFailed => Failed
               case FieldsRead(rest, st2) => Read(Ref(|st.heap|), rest, st2)
  {
    hide LegalClasses, PutMetadata, ReadFields, ReadObject, ReadNew, PutString, Put, Allocated;
    ClassNameFacts(ct, cls);
    var fs := ct.fields[cls];
    var afterName := Put(|fs|, 4) + (PutMetadata(fs) + tail);
    ReadClassName(ct, cls, afterName, st);
    ReadDescription(ct, cls, tail, st);
    Regroup5([1, 0], PutString(cls), Put(|fs|, 4), PutMetadata(fs), tail);
  }

  lemma LegalNew(ct: Classes, h: Heap, id: nat)
    requires LegalClasses(ct) && LegalHeap(ct, h) && id < |h|
    ensures LegalObject(ct, h, h[id]) && DistinctNames(ct.fields[h[id].cls])
  {
    hide HasType, Writable, LegalClassName, LegalField;
    assert LegalObject(ct, h, h[id]);
  }

  lemma NewObjectFields(ct: Classes, cls: string)
    requires cls in ct.fields
    ensures NewObject(ct, cls).cls == cls
    ensures forall f <- ct.fields[cls] :: f.name in NewObject(ct, cls).fields
  {
  }

  lemma NumberNew(h: Heap, num: Handles, id: nat)
    requires Numbers(h, num) && Injective(num) && id < |h| && id !in num
    ensures var num' := num[id := |num|]; |num'| == |num| + 1 && Numbers(h, num') && Injective(num')
  {
  }

  lemma LinkNew(ct: Classes, h: Heap, num: Handles, st: Store, id: nat)
    requires Linked(h, num, st) && id < |h| && id !in num && h[id].cls in ct.fields
    ensures |st.heap| < |Allocated(ct, h[id].cls, st).heap|
    ensures Linked(h, num[id := |num|], Allocated(ct, h[id].cls, st))
    ensures forall f <- ct.fields[h[id].cls] :: f.name in Allocated(ct, h[id].cls, st).heap[|st.heap|].fields
  {
    hide NewObject, Injective, Numbers;
    NewObjectFields(ct, h[id].cls);
    NumberNew(h, num, id);
    NumbersBelow(h, num);
  }

  lemma NumbersBelow(h: Heap, num: Handles)
    requires Numbers(h, num)
    ensures forall r <- num :: r < |h| && num[r] < |num|
  {
  }

  lemma {:induction false} RoundObject(ct: Classes, h: Heap, v: Value, num: Handles, st: Store, rest: Bytes)
    requires LegalClasses(ct) && LegalHeap(ct, h) && Linked(h, num, st) && ObjectOf(h, v)
    ensures var w := WriteObject(ct, h, v, num);
            ReadBack(h, num, st, w.num, v, ReadObject(ct, w.bytes + rest, st), rest)
    decreases Unnumbered(h, num), v, 0, 1
  {
    NothingRead(h, num, st);
    NumberingFits(h, num);
    if v.Ref? && v.id !in num {
      RoundNew(ct, h, v, num, st, rest);
    } else {
      assert v.Ref? ==> num[v.id] < |h|;
      hide LegalClasses, LegalHeap, Progress, Put, TakeInt;
      if v.Ref? {
        Regroup([1, 1], Put(num[v.id], 4), rest);
        TakePutInt(num[v.id], rest);
      }
    }
  }

  lemma {:induction false} RoundNew(ct: Classes, h: Heap, v: Value, num: Handles, st: Store, rest: Bytes)
    requires LegalClasses(ct) && LegalHeap(ct, h) && Linked(h, num, st) && ObjectOf(h, v) && v.Ref? && v.id !in num
    ensures var w := WriteObject(ct, h, v, num);
            ReadBack(h, num, st, w.num, v, ReadObject(ct, w.bytes + rest, st), rest)
    decreases Unnumbered(h, num), v, 0, 0
  {
    hide LegalClasses, LegalHeap, Linked, Progress, Numbers, Extends, PutHeader, ReadObject, ReadFields, WriteFields,
         Allocated, HasType, Writable, DistinctNames, FieldsReadBack;
    LinkedNumbers(h, num, st);
    NumberingFits(h, num);
    LegalNew(ct, h, v.id);
    LinkNew(ct, h, num, st, v.id);
    var o := h[v.id];
    var fs, k := ct.fields[o.cls], |st.heap|;
    var num1, st1 := num[v.id := |num|], Allocated(ct, o.cls, st);
    LinkedNumbers(h, num1, st1);
    RoundFields(ct, h, fs, o, num1, st1, k, rest);
    var f := WriteFields(ct, h, fs, o, num1);
    ReadHeader(ct, o.cls, f.bytes + rest, st);
    NewObjectCopied(ct, h, num, st, v.id, f, ReadFields(ct, o.cls, fs, k, f.bytes + rest, st1), rest);
    Regroup(PutHeader(ct, o.cls), f.bytes, rest);
  }

  /** Once every field has been stored, the new object is a complete copy. */
  lemma NewObjectCopied(ct: Classes, h: Heap, num: Handles, st: Store, id: nat, f: Written,
                        r: FieldsResult, rest: Bytes)
    requires Linked(h, num, st) && id < |h| && id !in num && LegalObject(ct, h, h[id])
    requires FieldsReadBack(h, num[id := |num|], Allocated(ct, h[id].cls, st), f.num, h[id], ct.fields[h[id].cls],
                            |st.heap|, r, rest)
    ensures r.FieldsRead? && r.rest == rest
    ensures id in f.num && f.num[id] == |st.heap|
    ensures Progress(h, num, st, f.num, r.st, -1)
  {
    hide FieldsReadBack, Progress, Linked, LegalObject, NewObject, Copied;
    SameSize(h, num, st);
    NewKeys(ct, h, id);
    var num1, st1 := num[id := |num|], Allocated(ct, h[id].cls, st);
    AllFieldsStored(ct, h, num1, st1, f, h[id], |st.heap|, r, rest);
    Completed(h, num, st, num1, st1, f.num, r.st, id);
  }

  lemma SameSize(h: Heap, num: Handles, st: Store)
    requires Linked(h, num, st)
    ensures |num| == |st.heap|
  {
  }

  lemma NewKeys(ct: Classes, h: Heap, id: nat)
    requires id < |h| && LegalObject(ct, h, h[id])
    ensures h[id].cls in ct.fields && NewObject(ct, h[id].cls).cls == h[id].cls
    ensures NewObject(ct, h[id].cls).fields.Keys == h[id].fields.Keys
  {
    hide HasType, Writable;
  }

  /** From the state with the new, open object to the one in which it is complete. */
  lemma Completed(h: Heap, num: Handles, st: Store, num1: Handles, st1: Store, num2: Handles, st2: Store, id: nat)
    requires id < |h| && id !in num && num1 == num[id := |num|] && |num| == |st.heap|
    requires |st1.heap| == |st.heap| + 1 && st1.heap[..|st.heap|] == st.heap
    requires Progress(h, num1, st1, num2, st2, |st.heap|)
    requires KnownObject(num2.Keys, h[id]) && st2.heap[|st.heap|] == RenamedObject(num2, h[id])
    ensures id in num2 && num2[id] == |st.heap| && Progress(h, num, st, num2, st2, -1)
  {
    hide KnownObject, RenamedObject;
    assert id in num1 && num1[id] == |num|;
    assert forall q :: q in num2 && q !in num ==> q == id || q !in num1;
    assert forall k :: 0 <= k < |st.heap| ==> st1.heap[k] == st1.heap[..|st.heap|][k];
  }

  lemma AllFieldsStored(ct: Classes, h: Heap, num: Handles, st: Store, f: Written, o: Object, k: nat,
                        r: FieldsResult, rest: Bytes)
    requires LegalObject(ct, h, o) && k < |st.heap|
    requires st.heap[k].cls == o.cls && st.heap[k].fields.Keys == o.fields.Keys
    requires FieldsReadBack(h, num, st, f.num, o, ct.fields[o.cls], k, r, rest)
    ensures r.FieldsRead? && r.rest == rest && Progress(h, num, st, f.num, r.st, k)
    ensures KnownObject(f.num.Keys, o) && r.st.heap[k] == RenamedObject(f.num, o)
  {
    hide Progress, Known, Renamed, HasType, Writable, Numbers, Extends;
    ProgressFacts(h, num, st, f.num, r.st, k);
    forall n | n in o.fields
      ensures Known(f.num.Keys, o.fields[n]) && r.st.heap[k].fields[n] == Renamed(f.num, o.fields[n])
    {
      var g :| g in ct.fields[o.cls] && g.name == n;
    }
  }
}
