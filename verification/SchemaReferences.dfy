/** The references of a schema, and what they reach, depend on its lookups only. */
module SchemaReferences {
  import opened Domain
  import opened Json
  import opened SchemaValid
  import opened SchemaOrder
  import opened SchemaEquivalence
  import P = SchemaPrune
  import Reachability

  // ----- Reading an agreement ----------------------------------------------------------

  /** Two values of a field: both absent or null, or in agreement. */
  ghost predicate Alike(k: Key, a: Option<Json>, b: Option<Json>) {
    if a.None? || a == Some(Null) then b.None? || b == Some(Null)
    else b.Some? && b != Some(Null) && EquivAt(k, a.value, b.value)
  }

  lemma EquivAlike(f: Fields, g: Fields, k: Key)
    requires Equiv(Obj(f), Obj(g)) && IsField(k)
    ensures Alike(k, Get(f, k), Get(g, k))
  {
    assert EquivField(k, f, g);
  }

  lemma SameKind(k: Key, a: Json, b: Json)
    requires EquivAt(k, a, b)
    ensures (a.Obj? <==> b.Obj?) && (a.Arr? <==> b.Arr?)
  {
  }

  lemma EquivChild(k: Key, a: Json, b: Json)
    requires EquivAt(k, a, b) && (k == Known(Items) || k == Known(AdditionalProperties))
    ensures Equiv(a, b)
  {
  }

  lemma EquivReference(f: Fields, g: Fields)
    requires Equiv(Obj(f), Obj(g))
    ensures Live(f, Known(Ref)) == Live(g, Known(Ref))
  {
    EquivAlike(f, g, Known(Ref));
  }

  // ----- Collecting --------------------------------------------------------------------

  ghost predicate CollectedAt(decode: P.Decode, fs: Fields, defs: bool, r: P.TableRef, q: Key) {
    Has(fs, q) && r in P.Collect(decode, Get(fs, q).value, defs)
  }

  /** A reference is collected from a table exactly if it is collected from one of its entries. */
  lemma {:induction false} CollectedByKey(decode: P.Decode, fs: Fields, defs: bool, r: P.TableRef)
    requires Distinct(fs)
    ensures r in P.CollectEntries(decode, fs, defs) <==> exists q :: CollectedAt(decode, fs, defs, r, q)
  {
    if fs.Field? {
      CollectedByKey(decode, fs.rest, defs, r);
      if r in P.Collect(decode, fs.value, defs) { assert CollectedAt(decode, fs, defs, r, fs.key); }
      if r in P.CollectEntries(decode, fs.rest, defs) {
        var q :| CollectedAt(decode, fs.rest, defs, r, q);
        assert CollectedAt(decode, fs, defs, r, q);
      }
      if q :| CollectedAt(decode, fs, defs, r, q) && q != fs.key {
        assert CollectedAt(decode, fs.rest, defs, r, q);
      }
    }
  }

  lemma {:induction false} CollectEquiv(decode: P.Decode, v: Json, w: Json, defs: bool, r: P.TableRef)
    requires WellFormed(v) && WellFormed(w) && Equiv(v, w)
    ensures r in P.Collect(decode, v, defs) <==> r in P.Collect(decode, w, defs)
    decreases Size(v), 1
  {
    if v.Obj? && w.Obj? {
      var f, g := v.fields, w.fields;
      EquivReference(f, g);
      TableCollects(decode, f, g, Known(Properties), defs, r);
      TableCollects(decode, f, g, Known(Defs), defs, r);
      TableCollects(decode, f, g, Known(Definitions), defs, r);
      ChildCollects(decode, f, g, Known(Items), defs, r);
      ChildCollects(decode, f, g, Known(AdditionalProperties), defs, r);
      UnionCollects(decode, f, g, Known(AnyOf), defs, r);
      UnionCollects(decode, f, g, Known(OneOf), defs, r);
      UnionCollects(decode, f, g, Known(AllOf), defs, r);
    }
  }

  lemma {:induction false} TableCollects(decode: P.Decode, f: Fields, g: Fields, k: Key, defs: bool, r: P.TableRef)
    requires WellFormed(Obj(f)) && WellFormed(Obj(g)) && Equiv(Obj(f), Obj(g)) && IsTable(k)
    ensures r in P.CollectTable(decode, f, k, defs) <==> r in P.CollectTable(decode, g, k, defs)
    decreases FieldsSize(f), 4
  {
    EquivAlike(f, g, k);
    if Live(f, k).Some? {
      SizeOfGet(f, k);
      WellFormedGet(f, k);
      WellFormedGet(g, k);
      SameKind(k, Get(f, k).value, Get(g, k).value);
      if Get(f, k).value.Obj? {
        EntriesCollect(decode, Get(f, k).value.fields, Get(g, k).value.fields, defs, r);
      }
    }
  }

  lemma {:induction false} EntriesCollect(decode: P.Decode, f: Fields, g: Fields, defs: bool, r: P.TableRef)
    requires WellFormed(Obj(f)) && WellFormed(Obj(g)) && forall q :: EquivEntry(q, f, g)
    ensures r in P.CollectEntries(decode, f, defs) <==> r in P.CollectEntries(decode, g, defs)
    decreases FieldsSize(f), 3
  {
    CollectedByKey(decode, f, defs, r);
    CollectedByKey(decode, g, defs, r);
    forall q ensures CollectedAt(decode, f, defs, r, q) <==> CollectedAt(decode, g, defs, r, q) {
      assert EquivEntry(q, f, g);
      if Has(f, q) {
        SizeOfGet(f, q);
        WellFormedGet(f, q);
        WellFormedGet(g, q);
        CollectEquiv(decode, Get(f, q).value, Get(g, q).value, defs, r);
      }
    }
  }

  lemma {:induction false} ChildCollects(decode: P.Decode, f: Fields, g: Fields, k: Key, defs: bool, r: P.TableRef)
    requires WellFormed(Obj(f)) && WellFormed(Obj(g)) && Equiv(Obj(f), Obj(g))
    requires k == Known(Items) || k == Known(AdditionalProperties)
    ensures r in P.CollectChild(decode, f, k, defs) <==> r in P.CollectChild(decode, g, k, defs)
    decreases FieldsSize(f), 4
  {
    EquivAlike(f, g, k);
    if Live(f, k).Some? {
      SizeOfGet(f, k);
      WellFormedGet(f, k);
      WellFormedGet(g, k);
      EquivChild(k, Get(f, k).value, Get(g, k).value);
      CollectEquiv(decode, Get(f, k).value, Get(g, k).value, defs, r);
    }
  }

  lemma {:induction false} UnionCollects(decode: P.Decode, f: Fields, g: Fields, k: Key, defs: bool, r: P.TableRef)
    requires WellFormed(Obj(f)) && WellFormed(Obj(g)) && Equiv(Obj(f), Obj(g)) && IsUnion(k)
    ensures r in P.CollectUnion(decode, f, k, defs) <==> r in P.CollectUnion(decode, g, k, defs)
    decreases FieldsSize(f), 4
  {
    EquivAlike(f, g, k);
    if Live(f, k).Some? {
      SizeOfGet(f, k);
      WellFormedGet(f, k);
      WellFormedGet(g, k);
      SameKind(k, Get(f, k).value, Get(g, k).value);
      if Get(f, k).value.Arr? {
        ListCollects(decode, Get(f, k).value.items, Get(g, k).value.items, defs, r);
      }
    }
  }

  lemma {:induction false} ListCollects(decode: P.Decode, l: JsonList, m: JsonList, defs: bool, r: P.TableRef)
    requires WellFormedList(l) && WellFormedList(m) && EquivList(l, m)
    ensures r in P.CollectList(decode, l, defs) <==> r in P.CollectList(decode, m, defs)
    decreases ListSize(l), 3
  {
    if l.Cons? && m.Cons? {
      CollectEquiv(decode, l.head, m.head, defs, r);
      ListCollects(decode, l.tail, m.tail, defs, r);
    }
  }

  // ----- Reaching ----------------------------------------------------------------------

  lemma LookupEquiv(v: Json, w: Json, r: P.TableRef)
    requires Equiv(v, w)
    ensures P.Lookup(v, r).None? <==> P.Lookup(w, r).None?
    ensures v.Obj? && P.Lookup(v, r).Some? ==> Equiv(P.Lookup(v, r).value, P.Lookup(w, r).value)
  {
    if v.Obj? && w.Obj? {
      var k := P.TableKey(r.table);
      EquivAlike(v.fields, w.fields, k);
      if Live(v.fields, k).Some? {
        var a, b := Get(v.fields, k).value, Get(w.fields, k).value;
        SameKind(k, a, b);
        if a.Obj? { assert EquivEntry(r.name, a.fields, b.fields); }
      }
    }
  }

  lemma LookupWellFormed(v: Json, r: P.TableRef)
    requires WellFormed(v) && P.Lookup(v, r).Some?
    ensures WellFormed(P.Lookup(v, r).value)
  {
    var k := P.TableKey(r.table);
    WellFormedGet(v.fields, k);
    WellFormedGet(Get(v.fields, k).value.fields, r.name);
  }

  lemma TargetsEquiv(decode: P.Decode, v: Json, w: Json, q: P.TableRef, r: P.TableRef)
    requires WellFormed(v) && WellFormed(w) && Equiv(v, w)
    ensures r in P.Targets(decode, v, q) <==> r in P.Targets(decode, w, q)
  {
    LookupEquiv(v, w, q);
    if P.Lookup(v, q).Some? {
      LookupWellFormed(v, q);
      LookupWellFormed(w, q);
      CollectEquiv(decode, P.Lookup(v, q).value, P.Lookup(w, q).value, true, r);
    }
  }

  /** Schemas that agree reach the same definitions. */
  lemma ReachableEquiv(decode: P.Decode, v: Json, w: Json, r: P.TableRef)
    requires WellFormed(v) && WellFormed(w) && Equiv(v, w)
    ensures P.Reachable(decode, v, r) <==> P.Reachable(decode, w, r)
  {
    forall q ensures q in P.Collect(decode, v, false) <==> q in P.Collect(decode, w, false) {
      CollectEquiv(decode, v, w, false, q);
    }
    forall q, p ensures p in P.Targets(decode, v, q) <==> p in P.Targets(decode, w, q) {
      TargetsEquiv(decode, v, w, q, p);
    }
    Reachability.SameMembers(P.Collect(decode, v, false), q => P.Targets(decode, v, q),
                             P.Collect(decode, w, false), q => P.Targets(decode, w, q), r);
  }
}
