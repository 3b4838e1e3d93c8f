/** The Java encoder and decoder for whole datagrams, and what a reader can rely on:
    the decoded graph is isomorphic to the encoded one, and no proper prefix of an
    encoding is ever accepted. */
module JavaCodec {
  import opened Basics
  import opened Primitives
  import opened ObjectGraph
  import opened GraphCodec
  import opened GraphRoundTrip
  import opened Parity

  /** Size of the buffer the encoder writes into. */
  const CAPACITY := 1024

  /** The encoding of the graph at root, or None where the writer runs out of buffer. */
  function JavaEncode(ct: Classes, h: Heap, root: Value): (r: Option<Bytes>)
    requires LegalClasses(ct) && LegalHeap(ct, h) && ObjectOf(h, root)
  {
    var body := WriteObject(ct, h, root, map[]).bytes;
    if |body| + 1 <= CAPACITY then Some(Sealed(body)) else None
  }

  datatype Decoded = Rejected | Decoded(root: Value, heap: Heap)

  function JavaDecode(ct: Classes, datagram: Bytes): (r: Decoded) {
    if datagram == [] || !PassesParity(datagram) then Rejected
    else
      match ReadObject(ct, datagram[..|datagram| - 1], EMPTY)
      case Failed => Rejected
      case Read(v, _, st) => Decoded(v, st.heap)
  }

  // ---------- isomorphic graphs ----------

  /** num renames exactly the objects that can be reached from root, one to one, onto all
      objects of the copy, and carries every field value over. */
  ghost predicate Isomorphism(h: Heap, root: Value, copy: Heap, root': Value, num: Handles) {
    && Injective(num)
    && (forall r <- num :: r < |h| && num[r] < |copy| && Copied(h, num, r, copy))
    && (forall k: nat :: k < |copy| ==> k in num.Values)
    && Known(num.Keys, root) && root' == Renamed(num, root)
    && (forall S: set<nat> :: Known(S, root) && ClosedUnderFields(h, S) ==> num.Keys <= S)
  }

  predicate ClosedUnderFields(h: Heap, S: set<nat>) {
    forall r <- S :: r < |h| ==> KnownObject(S, h[r])
  }

  // ---------- only reachable objects get a handle ----------

  lemma {:induction false} ReachObject(ct: Classes, h: Heap, v: Value, num: Handles, S: set<nat>)
    requires LegalClasses(ct) && LegalHeap(ct, h) && Numbers(h, num) && ObjectOf(h, v)
    requires ClosedUnderFields(h, S) && Known(S, v)
    ensures WriteObject(ct, h, v, num).num.Keys <= num.Keys + S
    decreases Unnumbered(h, num), v, 0, 0
  {
    if v.Ref? && v.id !in num {
      NumberingFits(h, num);
      LegalNew(ct, h, v.id);
      hide LegalClasses, LegalHeap, Extends, HasType, Writable, DistinctNames;
      var o := h[v.id];
      assert KnownObject(S, o);
      ReachFields(ct, h, ct.fields[o.cls], o, num[v.id := |num|], S);
    }
  }

  lemma {:induction false} ReachFields(ct: Classes, h: Heap, fs: seq<Field>, o: Object, num: Handles, S: set<nat>)
    requires LegalClasses(ct) && LegalHeap(ct, h) && Numbers(h, num)
    requires forall f <- fs :: f.name in o.fields && HasType(ct, h, o.fields[f.name], f.ty)
    requires ClosedUnderFields(h, S) && KnownObject(S, o)
    ensures WriteFields(ct, h, fs, o, num).num.Keys <= num.Keys + S
    decreases Unnumbered(h, num), o, 0, |fs|
  {
    hide LegalClasses, LegalHeap, HasType, ClosedUnderFields, Numbers;
    if fs != [] {
      NumberingFits(h, num);
      var a := WriteValue(ct, h, fs[0].ty, o.fields[fs[0].name], num);
      NumberingFits(h, a.num);
      ReachValue(ct, h, fs[0].ty, o.fields[fs[0].name], num, S);
      ReachFields(ct, h, fs[1..], o, a.num, S);
    }
  }

  lemma {:induction false} ReachValue(ct: Classes, h: Heap, ty: Type, v: Value, num: Handles, S: set<nat>)
    requires LegalClasses(ct) && LegalHeap(ct, h) && Numbers(h, num) && HasType(ct, h, v, ty)
    requires ClosedUnderFields(h, S) && Known(S, v)
    ensures WriteValue(ct, h, ty, v, num).num.Keys <= num.Keys + S
    decreases Unnumbered(h, num), v, 1, 0
  {
    hide LegalClasses, LegalHeap, Extends, ClosedUnderFields, Numbers;
    if ty.ArrayType? && v.Array? {
      ReachElems(ct, h, ty.elem, v.elems, num, S);
    } else if ty.ClassType? {
      ReachObject(ct, h, v, num, S);
    }
  }

  lemma {:induction false} ReachElems(ct: Classes, h: Heap, e: Type, vs: seq<Value>, num: Handles, S: set<nat>)
    requires LegalClasses(ct) && LegalHeap(ct, h) && Numbers(h, num)
    requires forall x <- vs :: HasType(ct, h, x, e)
    requires ClosedUnderFields(h, S) && forall x <- vs :: Known(S, x)
    ensures WriteElems(ct, h, e, vs, num).num.Keys <= num.Keys + S
    decreases Unnumbered(h, num), vs, 0, 0
  {
    hide LegalClasses, LegalHeap, ClosedUnderFields, Numbers, HasType, Known;
    if vs != [] {
      NumberingFits(h, num);
      var a := WriteValue(ct, h, e, vs[0], num);
      NumberingFits(h, a.num);
      ReachValue(ct, h, e, vs[0], num, S);
      ReachElems(ct, h, e, vs[1..], a.num, S);
    }
  }

  // ---------- a numbering that is one to one is onto ----------

  lemma {:induction false} InjectiveSize(num: Handles)
    requires Injective(num)
    ensures |num.Values| == |num|
  {
    if num == map[] {
      assert num.Values == {};
    } else {
      var r :| r in num;
      var less := num - {r};
      assert less.Keys == num.Keys - {r};
      InjectiveSize(less);
      assert num.Values == less.Values + {num[r]} by {
        forall x | x in num.Values ensures x in less.Values + {num[r]} {
          var q :| q in num && num[q] == x;
          assert q != r ==> q in less && less[q] == x;
        }
      }
      assert forall q <- less :: less[q] != num[r];
    }
  }

  lemma Onto(num: Handles, k: nat)
    requires Injective(num) && k < |num| && forall r <- num :: num[r] < |num|
    ensures k in num.Values
  {
    InjectiveSize(num);
    if k !in num.Values {
      assert forall x <- num.Values + {k} :: x < |num|;
      BoundedSize(num.Values + {k}, |num|);
    }
  }

  // ---------- the round trip ----------

  /** Every object graph that fits the buffer comes back isomorphic. */
  lemma GraphSurvives(ct: Classes, h: Heap, root: Value)
    requires LegalClasses(ct) && LegalHeap(ct, h) && ObjectOf(h, root)
    ensures match JavaEncode(ct, h, root)
            case None => |WriteObject(ct, h, root, map[]).bytes| >= CAPACITY
            case Some(datagram) =>
              var d := JavaDecode(ct, datagram);
              d.Decoded? && exists num :: Isomorphism(h, root, d.heap, d.root, num)
  {
    hide LegalClasses, LegalHeap, WriteObject, ReadObject, Progress, Linked, Numbers, Known, Renamed, Isomorphism;
    StartLinked(h);
    var w := WriteObject(ct, h, root, map[]);
    RoundObject(ct, h, root, map[], EMPTY, []);
    assert w.bytes + [] == w.bytes;
    SealedPasses(w.bytes);
    var r := ReadObject(ct, w.bytes, EMPTY);
    FinallyIsomorphic(ct, h, root, r);
    assert Isomorphism(h, root, r.st.heap, r.v, w.num);
  }

  lemma StartLinked(h: Heap)
    ensures Linked(h, map[], EMPTY) && Numbers(h, map[])
  {
  }

  lemma FinallyIsomorphic(ct: Classes, h: Heap, root: Value, r: ReadResult)
    requires LegalClasses(ct) && LegalHeap(ct, h) && ObjectOf(h, root) && Numbers(h, map[])
    requires ReadBack(h, map[], EMPTY, WriteObject(ct, h, root, map[]).num, root, r, [])
    ensures Isomorphism(h, root, r.st.heap, r.v, WriteObject(ct, h, root, map[]).num)
  {
    hide LegalClasses, LegalHeap, WriteObject, Known, Renamed, ClosedUnderFields;
    var num := WriteObject(ct, h, root, map[]).num;
    forall k: nat | k < |r.st.heap| ensures k in num.Values {
      Onto(num, k);
    }
    forall S: set<nat> | Known(S, root) && ClosedUnderFields(h, S) ensures num.Keys <= S {
      ReachObject(ct, h, root, map[], S);
    }
  }

  // ---------- prefixes ----------

  /** A successful read is not disturbed by bytes that follow. */
  lemma {:induction false} ObjectExtends(ct: Classes, bs: Bytes, st: Store, more: Bytes)
    requires ReadObject(ct, bs, st).Read?
    ensures var r := ReadObject(ct, bs, st);
            ReadObject(ct, bs + more, st) == Read(r.v, r.rest + more, r.st)
    decreases |bs|, 0, 0
  {
    hide ReadNew, TakeInt, TakeString;
    if bs[0] == 0 {
      assert (bs + more)[1..] == bs[1..] + more;
    } else {
      assert (bs + more)[2..] == bs[2..] + more;
      TakeExtends(bs[2..], more);
      if bs[1] != 1 {
        var s := TakeString(bs[2..]);
        NewExtends(ct, s.value, s.rest, st, more);
      }
    }
  }

  lemma {:induction false} PlanExtends(ct: Classes, cls: string, n: int, bs: Bytes, acc: seq<Field>, more: Bytes)
    requires cls in ct.fields && ReadPlan(ct, cls, n, bs, acc).Plan?
    ensures var p := ReadPlan(ct, cls, n, bs, acc);
            ReadPlan(ct, cls, n, bs + more, acc) == Plan(p.fields, p.rest + more)
    decreases n
  {
    hide TakeString, ResolveType, DeclaredType, TakeInt, TakeLong;
    if n > 0 {
      var a := TakeString(bs);
      TakeExtends(bs, more);
      var b := TakeString(a.rest);
      TakeExtends(a.rest, more);
      PlanExtends(ct, cls, n - 1, b.rest, acc + [Field(a.value, ResolveType(ct, b.value).value)], more);
    }
  }

  lemma {:induction false} NewExtends(ct: Classes, cls: string, bs: Bytes, st: Store, more: Bytes)
    requires ReadNew(ct, cls, bs, st).Read?
    ensures var r := ReadNew(ct, cls, bs, st);
            ReadNew(ct, cls, bs + more, st) == Read(r.v, r.rest + more, r.st)
    decreases |bs|, 3, 0
  {
    hide TakeInt, TakeLong, TakeString, ReadPlan, ReadFields, NewObject;
    TakeExtends(bs, more);
    if cls in ct.fields && cls != "int" && cls != "long" && cls != "double" {
      var n := TakeInt(bs);
      var p := ReadPlan(ct, cls, n.value, n.rest, []);
      PlanExtends(ct, cls, n.value, n.rest, [], more);
      FieldsExtend(ct, cls, p.fields, |st.heap|, p.rest, Allocated(ct, cls, st), more);
    }
  }

  lemma {:induction false} FieldsExtend(ct: Classes, cls: string, plan: seq<Field>, k: nat,
                                    bs: Bytes, st: Store, more: Bytes)
    requires cls in ct.fields && k < |st.heap| && ReadFields(ct, cls, plan, k, bs, st).FieldsRead?
    ensures var r := ReadFields(ct, cls, plan, k, bs, st);
            ReadFields(ct, cls, plan, k, bs + more, st) == FieldsRead(r.rest + more, r.st)
    decreases |bs|, 2, |plan|
  {
    hide ReadValue, HasType, DeclaredType;
    if plan != [] {
      var r := ReadValue(ct, plan[0].ty, bs, st);
      ValueExtends(ct, plan[0].ty, bs, st, more);
      var stored := Assigned(r.v, DeclaredType(ct.fields[cls], plan[0].name).value);
      FieldsExtend(ct, cls, plan[1..], k, r.rest, SetField(r.st, k, plan[0].name, stored), more);
    }
  }

  lemma {:induction false} ValueExtends(ct: Classes, ty: Type, bs: Bytes, st: Store, more: Bytes)
    requires ReadValue(ct, ty, bs, st).Read?
    ensures var r := ReadValue(ct, ty, bs, st);
            ReadValue(ct, ty, bs + more, st) == Read(r.v, r.rest + more, r.st)
    decreases |bs|, 1, 0
  {
    hide TakeInt, TakeLong, TakeString, ReadObject, ReadElems;
    match ty
    case StringType =>
      assert (bs + more)[1..] == bs[1..] + more;
      TakeExtends(bs[1..], more);
    case ArrayType(e) =>
      TakeExtends(bs, more);
      var n := TakeInt(bs);
      if n.value >= 0 {
        ElemsExtend(ct, e, n.value, n.rest, st, [], more);
      }
    case ClassType(_) => ObjectExtends(ct, bs, st, more);
    case _ => TakeExtends(bs, more);
  }

  lemma {:induction false} ElemsExtend(ct: Classes, e: Type, n: nat, bs: Bytes, st: Store, acc: seq<Value>, more: Bytes)
    requires ReadElems(ct, e, n, bs, st, acc).Read?
    ensures var r := ReadElems(ct, e, n, bs, st, acc);
            ReadElems(ct, e, n, bs + more, st, acc) == Read(r.v, r.rest + more, r.st)
    decreases |bs|, 2, n
  {
    hide ReadValue, HasType;
    if n > 0 {
      var r := ReadValue(ct, e, bs, st);
      ValueExtends(ct, e, bs, st, more);
      ElemsExtend(ct, e, n - 1, r.rest, r.st, acc + [r.v], more);
    }
  }

  /** A datagram that was cut short is rejected, whatever its last byte happens to be. */
  lemma PrefixRejected(ct: Classes, h: Heap, root: Value, n: nat)
    requires LegalClasses(ct) && LegalHeap(ct, h) && ObjectOf(h, root)
    requires n < |Sealed(WriteObject(ct, h, root, map[]).bytes)|
    ensures JavaDecode(ct, Sealed(WriteObject(ct, h, root, map[]).bytes)[..n]) == Rejected
  {
    hide LegalClasses, LegalHeap, WriteObject, ReadObject, Progress, Linked, Numbers, Known, Renamed, Ones;
    StartLinked(h);
    var body := WriteObject(ct, h, root, map[]).bytes;
    var datagram := Sealed(body);
    if n > 0 && JavaDecode(ct, datagram[..n]).Decoded? {
      var head, tail := datagram[..n][..n - 1], body[n - 1..];
      assert body == head + tail;
      RoundObject(ct, h, root, map[], EMPTY, []);
      assert body + [] == body;
      ObjectExtends(ct, head, EMPTY, tail);
      assert false;
    }
  }
}
