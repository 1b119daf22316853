/**
 Raw schemas, valid or not, that differ only in key order at the positions that lowering visits have the same canonical
 form: every stage looks fields up and never depends on where they stand.
 */
module SchemaAgreement {
  import opened Domain
  import opened Json
  import opened SchemaValid
  import opened SchemaOrder
  import opened SchemaEquivalence
  import opened SchemaSanitize
  import opened SchemaCanonical
  import P = SchemaPrune
  import L = SchemaLowered
  import R = SchemaReferences

  // ----- Agreement of raw schemas ------------------------------------------------------

  /** The same fields, with values that agree as schemas at schema positions, name by name in tables, one by one in
      lists, and literally elsewhere. */
  ghost predicate Agree(v: Json, w: Json)
    decreases Size(v), 1
  {
    if v.Obj? && w.Obj? then forall k :: AgreeField(k, v.fields, w.fields) else v == w
  }

  ghost predicate AgreeField(k: Key, f: Fields, g: Fields)
    decreases FieldsSize(f), 3
  {
    match Get(f, k)
    case None => Get(g, k).None?
    case Some(a) => SizeOfGet(f, k); Get(g, k).Some? && AgreeAt(k, a, Get(g, k).value)
  }

  ghost predicate AgreeAt(k: Key, a: Json, b: Json)
    decreases Size(a), 2
  {
    if k == Known(Items) || k == Known(AdditionalProperties) then Agree(a, b)
    else if (IsUnion(k) || k == Known(PrefixItems)) && a.Arr? && b.Arr? then AgreeList(a.items, b.items)
    else if IsTable(k) && a.Obj? && b.Obj? then forall q :: AgreeEntry(q, a.fields, b.fields)
    else a == b
  }

  ghost predicate AgreeList(l: JsonList, m: JsonList)
    decreases ListSize(l), 3
  {
    if l.Nil? || m.Nil? then l == m else Agree(l.head, m.head) && AgreeList(l.tail, m.tail)
  }

  ghost predicate AgreeEntry(q: Key, f: Fields, g: Fields)
    decreases FieldsSize(f), 3
  {
    match Get(f, q)
    case None => Get(g, q).None?
    case Some(a) => SizeOfGet(f, q); Get(g, q).Some? && Agree(a, Get(g, q).value)
  }

  ghost predicate AllAgree(f: Fields, g: Fields) {
    forall k :: AgreeField(k, f, g)
  }

  /** Agreeing values have the same shape. */
  lemma SameShape(k: Key, a: Json, b: Json)
    requires AgreeAt(k, a, b)
    ensures (a.Null? <==> b.Null?) && (a.Obj? <==> b.Obj?) && (a.Arr? <==> b.Arr?) && (a.Bool? <==> b.Bool?)
  {
  }

  lemma AgreeObjects(f: Fields, g: Fields)
    ensures Agree(Obj(f), Obj(g)) <==> AllAgree(f, g)
  {
  }

  // ----- Reflexivity -------------------------------------------------------------------

  lemma {:induction false} AgreeSelf(v: Json)
    ensures Agree(v, v)
    decreases Size(v), 1
  {
    if v.Obj? {
      forall k ensures AgreeField(k, v.fields, v.fields) {
        if Has(v.fields, k) {
          SizeOfGet(v.fields, k);
          AgreeAtSelf(k, Get(v.fields, k).value);
        }
      }
    }
  }

  lemma {:induction false} AgreeAtSelf(k: Key, a: Json)
    ensures AgreeAt(k, a, a)
    decreases Size(a), 2
  {
    if k == Known(Items) || k == Known(AdditionalProperties) {
      AgreeSelf(a);
    } else if (IsUnion(k) || k == Known(PrefixItems)) && a.Arr? {
      AgreeListSelf(a.items);
    } else if IsTable(k) && a.Obj? {
      forall q ensures AgreeEntry(q, a.fields, a.fields) {
        if Has(a.fields, q) {
          SizeOfGet(a.fields, q);
          AgreeSelf(Get(a.fields, q).value);
        }
      }
    }
  }

  lemma {:induction false} AgreeListSelf(l: JsonList)
    ensures AgreeList(l, l)
    decreases ListSize(l), 3
  {
    if l.Cons? {
      AgreeSelf(l.head);
      AgreeListSelf(l.tail);
    }
  }

  // ----- Agreement is enough for ordering ----------------------------------------------

  lemma {:induction false} AgreeEquiv(v: Json, w: Json)
    requires Agree(v, w)
    ensures Equiv(v, w)
    decreases Size(v), 1
  {
    if v.Obj? && w.Obj? {
      forall k | IsField(k) ensures EquivField(k, v.fields, w.fields) {
        assert AgreeField(k, v.fields, w.fields);
        AgreeEquivField(k, v.fields, w.fields);
      }
    }
  }

  lemma {:induction false} AgreeEquivField(k: Key, f: Fields, g: Fields)
    requires IsField(k) && AgreeField(k, f, g)
    ensures EquivField(k, f, g)
    decreases FieldsSize(f), 3
  {
    if Has(f, k) {
      SizeOfGet(f, k);
      SameShape(k, Get(f, k).value, Get(g, k).value);
      AgreeEquivAt(k, Get(f, k).value, Get(g, k).value);
    }
  }

  lemma {:induction false} AgreeEquivAt(k: Key, a: Json, b: Json)
    requires k != Known(PrefixItems) && AgreeAt(k, a, b)
    ensures EquivAt(k, a, b)
    decreases Size(a), 2
  {
    if k == Known(Items) || k == Known(AdditionalProperties) {
      AgreeEquiv(a, b);
    } else if IsUnion(k) && a.Arr? && b.Arr? {
      AgreeEquivList(a.items, b.items);
    } else if IsTable(k) && a.Obj? && b.Obj? {
      forall q ensures EquivEntry(q, a.fields, b.fields) {
        assert AgreeEntry(q, a.fields, b.fields);
        if Has(a.fields, q) {
          SizeOfGet(a.fields, q);
          AgreeEquiv(Get(a.fields, q).value, Get(b.fields, q).value);
        }
      }
    }
  }

  lemma {:induction false} AgreeEquivList(l: JsonList, m: JsonList)
    requires AgreeList(l, m)
    ensures EquivList(l, m)
    decreases ListSize(l), 3
  {
    if l.Cons? && m.Cons? {
      AgreeEquiv(l.head, m.head);
      AgreeEquivList(l.tail, m.tail);
    }
  }

  // ----- Validity ----------------------------------------------------------------------

  lemma {:induction false} ValidByKey(fs: Fields)
    requires Distinct(fs)
    ensures ValidFields(fs) <==> forall k :: Has(fs, k) ==> FieldOk(k, Get(fs, k).value)
  {
    if fs.Field? {
      ValidByKey(fs.rest);
      assert forall k :: Has(fs, k) <==> k == fs.key || Has(fs.rest, k);
      assert forall k :: Has(fs.rest, k) ==> Get(fs, k) == Get(fs.rest, k);
      assert Get(fs, fs.key) == Some(fs.value);
    }
  }

  lemma {:induction false} EntriesByKey(fs: Fields)
    requires Distinct(fs)
    ensures ValidEntries(fs) <==> forall k :: Has(fs, k) ==> Valid(Get(fs, k).value)
  {
    if fs.Field? {
      EntriesByKey(fs.rest);
      assert forall k :: Has(fs, k) <==> k == fs.key || Has(fs.rest, k);
      assert forall k :: Has(fs.rest, k) ==> Get(fs, k) == Get(fs.rest, k);
      assert Get(fs, fs.key) == Some(fs.value);
    }
  }

  lemma {:induction false} AgreeValid(v: Json, w: Json)
    requires WellFormed(v) && WellFormed(w) && Agree(v, w)
    ensures Valid(v) <==> Valid(w)
    decreases Size(v), 1
  {
    if v.Obj? && w.Obj? {
      var f, g := v.fields, w.fields;
      ValidByKey(f);
      ValidByKey(g);
      forall k ensures AgreeField(k, f, g) && (Has(f, k) <==> Has(g, k))
        ensures Has(f, k) ==> (FieldOk(k, Get(f, k).value) <==> FieldOk(k, Get(g, k).value))
      {
        assert AgreeField(k, f, g);
        if Has(f, k) {
          SizeOfGet(f, k);
          WellFormedGet(f, k);
          WellFormedGet(g, k);
          AgreeFieldOk(k, Get(f, k).value, Get(g, k).value);
        }
      }
    }
  }

  lemma {:induction false} AgreeFieldOk(k: Key, a: Json, b: Json)
    requires WellFormed(a) && WellFormed(b) && AgreeAt(k, a, b)
    ensures FieldOk(k, a) <==> FieldOk(k, b)
    decreases Size(a), 2
  {
    SameShape(k, a, b);
    if k == Known(Items) || k == Known(AdditionalProperties) {
      AgreeValid(a, b);
    } else if IsUnion(k) && a.Arr? && b.Arr? {
      AgreeValidList(a.items, b.items);
    } else if IsTable(k) && a.Obj? && b.Obj? {
      AgreeValidEntries(a.fields, b.fields);
    }
  }

  lemma {:induction false} AgreeValidEntries(f: Fields, g: Fields)
    requires WellFormed(Obj(f)) && WellFormed(Obj(g)) && forall q :: AgreeEntry(q, f, g)
    ensures ValidEntries(f) <==> ValidEntries(g)
    decreases FieldsSize(f), 3
  {
    EntriesByKey(f);
    EntriesByKey(g);
    forall q ensures AgreeEntry(q, f, g) && (Has(f, q) <==> Has(g, q))
      ensures Has(f, q) ==> (Valid(Get(f, q).value) <==> Valid(Get(g, q).value))
    {
      assert AgreeEntry(q, f, g);
      if Has(f, q) {
        SizeOfGet(f, q);
        WellFormedGet(f, q);
        WellFormedGet(g, q);
        AgreeValid(Get(f, q).value, Get(g, q).value);
      }
    }
  }

  lemma {:induction false} AgreeValidList(l: JsonList, m: JsonList)
    requires WellFormedList(l) && WellFormedList(m) && AgreeList(l, m)
    ensures ValidList(l) <==> ValidList(m)
    decreases ListSize(l), 3
  {
    if l.Cons? && m.Cons? {
      AgreeValid(l.head, m.head);
      AgreeValidList(l.tail, m.tail);
    }
  }

  // ----- Lowering ----------------------------------------------------------------------

  lemma AgreedValue(k: Key, f: Fields, g: Fields)
    requires AgreeField(k, f, g) && Has(f, k)
    ensures Has(g, k) && AgreeAt(k, Get(f, k).value, Get(g, k).value)
  {
  }

  lemma AgreedLiteral(k: Key, a: Json, b: Json)
    requires AgreeAt(k, a, b) && (k == Known(Type) || k == Known(Const) || k == Known(Ref))
    ensures a == b
  {
  }

  /** A field that is no schema position agrees literally. */
  lemma SameLiteral(f: Fields, g: Fields, k: Key)
    requires AllAgree(f, g) && (k == Known(Type) || k == Known(Const) || k == Known(Ref))
    ensures Get(f, k) == Get(g, k)
  {
    assert AgreeField(k, f, g);
    if Has(f, k) {
      AgreedValue(k, f, g);
      AgreedLiteral(k, Get(f, k).value, Get(g, k).value);
    }
  }

  lemma ConstAgrees(f: Fields, g: Fields)
    requires Distinct(f) && Distinct(g) && AllAgree(f, g)
    ensures AllAgree(LowerConst(f), LowerConst(g)) && Distinct(LowerConst(f)) && Distinct(LowerConst(g))
  {
    SameLiteral(f, g, Known(Const));
    L.GetLowerConst(f, Known(Const));
    L.GetLowerConst(g, Known(Const));
    forall k ensures AgreeField(k, LowerConst(f), LowerConst(g)) {
      assert AgreeField(k, f, g);
      L.GetLowerConst(f, k);
      L.GetLowerConst(g, k);
    }
  }

  lemma SameHas(f: Fields, g: Fields, k: Key)
    requires AllAgree(f, g)
    ensures Has(f, k) <==> Has(g, k)
  {
    assert AgreeField(k, f, g);
  }

  lemma SameInferred(f: Fields, g: Fields)
    requires AllAgree(f, g)
    ensures Inferred(f) == Inferred(g)
  {
    SameHas(f, g, Known(Properties));
    SameHas(f, g, Known(Required));
    SameHas(f, g, Known(AdditionalProperties));
    SameHas(f, g, Known(Items));
    SameHas(f, g, Known(PrefixItems));
    SameHas(f, g, Known(Enum));
    SameHas(f, g, Known(Format));
    SameHas(f, g, Known(Minimum));
    SameHas(f, g, Known(Maximum));
    SameHas(f, g, Known(ExclusiveMinimum));
    SameHas(f, g, Known(ExclusiveMaximum));
    SameHas(f, g, Known(MultipleOf));
  }

  lemma SameRefers(f: Fields, g: Fields)
    requires AllAgree(f, g)
    ensures Refers(f) == Refers(g)
  {
    SameHas(f, g, Known(Ref));
    SameHas(f, g, Known(AnyOf));
    SameHas(f, g, Known(OneOf));
    SameHas(f, g, Known(AllOf));
  }

  lemma SameGiven(f: Fields, g: Fields)
    requires Distinct(f) && Distinct(g) && AllAgree(f, g)
    ensures L.TypesGiven(f) == L.TypesGiven(g)
  {
    var c, d := LowerConst(f), LowerConst(g);
    ConstAgrees(f, g);
    SameLiteral(c, d, Known(Type));
    assert Types(c) == Types(d);
    SameRefers(c, d);
    SameInferred(c, d);
  }

  lemma TypedAgrees(c: Fields, d: Fields, types: seq<string>, k: Key)
    requires Distinct(c) && Distinct(d) && AllAgree(c, d)
    ensures AgreeField(k, LowerTyped(c, types), LowerTyped(d, types))
  {
    L.GetLowerTyped(c, types, k);
    L.GetLowerTyped(d, types, k);
    assert AgreeField(k, c, d);
    if Has(c, k) { SameShape(k, Get(c, k).value, Get(d, k).value); }
    if Has(LowerTyped(c, types), k) { AgreeAtSelf(k, Get(LowerTyped(c, types), k).value); }
  }

  lemma LowerAgrees(f: Fields, g: Fields)
    requires Distinct(f) && Distinct(g) && AllAgree(f, g)
    ensures AllAgree(Lower(f), Lower(g))
  {
    var c, d := LowerConst(f), LowerConst(g);
    ConstAgrees(f, g);
    SameGiven(f, g);
    SameRefers(f, g);
    L.LowerIs(f);
    L.LowerIs(g);
    forall k ensures AgreeField(k, Lower(f), Lower(g)) {
      if L.TypesGiven(f) != [] {
        TypedAgrees(c, d, L.TypesGiven(f), k);
      } else {
        assert AgreeField(k, c, d);
        P.GetRemove(c, Known(Type), k);
        P.GetRemove(d, Known(Type), k);
      }
    }
  }

  lemma {:induction false} SanitizeAgrees(v: Json, w: Json)
    requires WellFormed(v) && WellFormed(w) && Agree(v, w)
    ensures Agree(Sanitize(v), Sanitize(w))
    decreases Size(v), 1
  {
    if v.Obj? && w.Obj? {
      FieldsAgree(v.fields, w.fields);
      GetSanitizeFields(v.fields, Known(Ref));
      GetSanitizeFields(w.fields, Known(Ref));
      LowerAgrees(SanitizeFields(v.fields), SanitizeFields(w.fields));
      AgreeObjects(Lower(SanitizeFields(v.fields)), Lower(SanitizeFields(w.fields)));
    } else {
      AgreeSelf(Sanitize(v));
    }
  }

  lemma {:induction false} FieldsAgree(f: Fields, g: Fields)
    requires WellFormed(Obj(f)) && WellFormed(Obj(g)) && AllAgree(f, g)
    ensures AllAgree(SanitizeFields(f), SanitizeFields(g))
    decreases FieldsSize(f), 4
  {
    forall k ensures AgreeField(k, SanitizeFields(f), SanitizeFields(g)) {
      assert AgreeField(k, f, g);
      GetSanitizeFields(f, k);
      GetSanitizeFields(g, k);
      if Has(f, k) {
        SizeOfGet(f, k);
        WellFormedGet(f, k);
        WellFormedGet(g, k);
        SameShape(k, Get(f, k).value, Get(g, k).value);
        SanitizeAtAgrees(k, Get(f, k).value, Get(g, k).value);
      }
    }
  }

  lemma {:induction false} SanitizeAtAgrees(k: Key, a: Json, b: Json)
    requires WellFormed(a) && WellFormed(b) && AgreeAt(k, a, b)
    ensures AgreeAt(k, SanitizeAt(k, a), SanitizeAt(k, b))
    decreases Size(a), 2
  {
    if k == Known(Items) || (k == Known(AdditionalProperties) && !a.Bool?) {
      SanitizeAgrees(a, b);
    } else if IsTable(k) && a.Obj? && b.Obj? {
      SanitizeEntriesAgree(a.fields, b.fields);
    } else if (IsUnion(k) || k == Known(PrefixItems)) && a.Arr? && b.Arr? {
      SanitizeListAgrees(a.items, b.items);
    }
  }

  lemma {:induction false} SanitizeEntriesAgree(f: Fields, g: Fields)
    requires WellFormedFields(f) && WellFormedFields(g) && forall q :: AgreeEntry(q, f, g)
    ensures forall q :: AgreeEntry(q, SanitizeEntries(f), SanitizeEntries(g))
    decreases FieldsSize(f), 3
  {
    forall q ensures AgreeEntry(q, SanitizeEntries(f), SanitizeEntries(g)) {
      assert AgreeEntry(q, f, g);
      GetSanitizeEntries(f, q);
      GetSanitizeEntries(g, q);
      if Has(f, q) {
        SizeOfGet(f, q);
        WellFormedGet(f, q);
        WellFormedGet(g, q);
        SanitizeAgrees(Get(f, q).value, Get(g, q).value);
      }
    }
  }

  lemma {:induction false} SanitizeListAgrees(l: JsonList, m: JsonList)
    requires WellFormedList(l) && WellFormedList(m) && AgreeList(l, m)
    ensures AgreeList(SanitizeList(l), SanitizeList(m))
    decreases ListSize(l), 3
  {
    if l.Cons? && m.Cons? {
      SanitizeAgrees(l.head, m.head);
      SanitizeListAgrees(l.tail, m.tail);
    }
  }

  // ----- Pruning -----------------------------------------------------------------------

  /** A table after pruning: gone if nothing of it is kept. */
  ghost function PrunedValue(table: Option<Json>, t: P.Table, found: set<P.TableRef>): Option<Json> {
    if table.Some? && table.value.Obj? then
      var kept := P.RetainFound(table.value.fields, t, found);
      if kept.End? then None else Some(Obj(kept))
    else table
  }

  lemma PrunedTable(fs: Fields, t: P.Table, found: set<P.TableRef>)
    requires Distinct(fs)
    ensures Get(P.PruneTable(fs, t, found), P.TableKey(t)) == PrunedValue(Get(fs, P.TableKey(t)), t, found)
  {
    var k := P.TableKey(t);
    if Has(fs, k) && Get(fs, k).value.Obj? {
      P.GetRemove(fs, k, k);
      P.GetReplace(fs, k, Obj(P.RetainFound(Get(fs, k).value.fields, t, found)), k);
    }
  }

  lemma RetainAgrees(f: Fields, g: Fields, t: P.Table, found: set<P.TableRef>)
    requires forall q :: AgreeEntry(q, f, g)
    ensures forall q :: AgreeEntry(q, P.RetainFound(f, t, found), P.RetainFound(g, t, found))
    ensures P.RetainFound(f, t, found).End? <==> P.RetainFound(g, t, found).End?
  {
    var x, y := P.RetainFound(f, t, found), P.RetainFound(g, t, found);
    forall q ensures AgreeEntry(q, x, y) {
      assert AgreeEntry(q, f, g);
      P.GetRetainFound(f, t, found, q);
      P.GetRetainFound(g, t, found, q);
    }
    if x.Field? {
      assert AgreeEntry(x.key, x, y);
      FirstKey(x);
    }
    if y.Field? {
      assert AgreeEntry(y.key, x, y);
      FirstKey(y);
    }
  }

  lemma PrunedTableAgrees(f: Fields, g: Fields, t: P.Table, found: set<P.TableRef>)
    requires Distinct(f) && Distinct(g) && AllAgree(f, g)
    ensures AgreeField(P.TableKey(t), P.PruneTable(f, t, found), P.PruneTable(g, t, found))
  {
    var k := P.TableKey(t);
    assert AgreeField(k, f, g);
    PrunedTable(f, t, found);
    PrunedTable(g, t, found);
    if Has(f, k) {
      var a, b := Get(f, k).value, Get(g, k).value;
      AgreedValue(k, f, g);
      SameShape(k, a, b);
      if a.Obj? { RetainAgrees(a.fields, b.fields, t, found); }
    }
  }

  lemma PruneTableAgrees(f: Fields, g: Fields, t: P.Table, found: set<P.TableRef>)
    requires Distinct(f) && Distinct(g) && AllAgree(f, g)
    ensures Distinct(P.PruneTable(f, t, found)) && Distinct(P.PruneTable(g, t, found))
    ensures AllAgree(P.PruneTable(f, t, found), P.PruneTable(g, t, found))
  {
    P.GetPruneTable(f, t, found, Known(Ref));
    P.GetPruneTable(g, t, found, Known(Ref));
    forall k ensures AgreeField(k, P.PruneTable(f, t, found), P.PruneTable(g, t, found)) {
      assert AgreeField(k, f, g);
      P.GetPruneTable(f, t, found, k);
      P.GetPruneTable(g, t, found, k);
      if k == P.TableKey(t) { PrunedTableAgrees(f, g, t, found); }
    }
  }

  lemma PruneAgrees(decode: P.Decode, v: Json, w: Json)
    requires WellFormed(v) && WellFormed(w) && Agree(v, w)
    ensures Agree(P.Prune(decode, v), P.Prune(decode, w))
  {
    var found := P.ReachableSet(decode, v);
    forall r ensures r in found <==> r in P.ReachableSet(decode, w) {
      P.ReachableSetHolds(decode, v, r);
      P.ReachableSetHolds(decode, w, r);
      AgreeEquiv(v, w);
      R.ReachableEquiv(decode, v, w, r);
    }
    assert found == P.ReachableSet(decode, w);
    if v.Obj? && w.Obj? {
      var f, g := P.PruneTable(v.fields, P.DefsTable, found), P.PruneTable(w.fields, P.DefsTable, found);
      AgreeObjects(v.fields, w.fields);
      PruneTableAgrees(v.fields, w.fields, P.DefsTable, found);
      PruneTableAgrees(f, g, P.DefinitionsTable, found);
      AgreeObjects(P.PruneTable(f, P.DefinitionsTable, found), P.PruneTable(g, P.DefinitionsTable, found));
    }
  }

  // ----- One canonical form ------------------------------------------------------------

  /** Raw schemas that agree have one canonical form, whether they are valid, become valid, or stay invalid. */
  lemma AgreeingSchemasHaveOneForm(decode: P.Decode, v: Json, w: Json)
    requires WellFormed(v) && WellFormed(w) && Agree(v, w)
    ensures CanonicalForm(decode, v) == CanonicalForm(decode, w)
  {
    AgreeValid(v, w);
    if Valid(v) {
      AgreeEquiv(v, w);
      OrderIsCanonical(v, w);
    } else {
      var x, y := Sanitize(v), Sanitize(w);
      SanitizeWellFormed(v);
      SanitizeWellFormed(w);
      SanitizeAgrees(v, w);
      P.PruneWellFormed(decode, x);
      P.PruneWellFormed(decode, y);
      PruneAgrees(decode, x, y);
      AgreeEquiv(P.Prune(decode, x), P.Prune(decode, y));
      OrderIsCanonical(P.Prune(decode, x), P.Prune(decode, y));
    }
  }

  /** In particular, the order of the fields of a raw object plays no part. */
  lemma FieldOrderIsForgotten(decode: P.Decode, f: Fields, g: Fields)
    requires WellFormed(Obj(f)) && WellFormed(Obj(g)) && SameLookups(f, g)
    ensures CanonicalForm(decode, Obj(f)) == CanonicalForm(decode, Obj(g))
  {
    AgreeSelf(Obj(f));
    forall k ensures AgreeField(k, f, g) { assert AgreeField(k, f, f) && Get(f, k) == Get(g, k); }
    AgreeObjects(f, g);
    AgreeingSchemasHaveOneForm(decode, Obj(f), Obj(g));
  }
}
