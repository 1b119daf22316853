/**
 What lowering achieves: the schemas it leaves alone are exactly the lowered ones, and one pass lowers a
 schema exactly if no explicit null stands where lowering would fill in `properties` or `items`.
 */
module SchemaLowered {
  import opened Domain
  import opened Json
  import opened SchemaValid
  import opened SchemaSanitize
  import P = SchemaPrune

  // ----- The lowered form --------------------------------------------------------------

  /** At every schema position: no `const`; a native type, with `properties` for objects, `items` for arrays and no
      null field; or no type but a reference or a union; or nothing at all. */
  ghost predicate Lowered(v: Json)
    decreases Size(v), 0
  {
    if v.Obj? then LoweredHere(v.fields) && forall k :: Has(v.fields, k) ==> LoweredField(v.fields, k) else !v.Bool?
  }

  ghost predicate LoweredField(fs: Fields, k: Key)
    requires Has(fs, k)
    decreases FieldsSize(fs), 3
  {
    SizeOfGet(fs, k);
    && (k == Known(Defs) || k == Known(Definitions) ==> Get(fs, k).value.Obj?)
    && LoweredAt(k, Get(fs, k).value)
  }

  ghost predicate LoweredAt(k: Key, v: Json)
    decreases Size(v), 1
  {
    if k == Known(Items) || (k == Known(AdditionalProperties) && !v.Bool?) then Lowered(v)
    else if IsTable(k) && v.Obj? then LoweredEntries(v.fields)
    else if (IsUnion(k) || k == Known(PrefixItems)) && v.Arr? then LoweredList(v.items)
    else true
  }

  ghost predicate LoweredEntries(fs: Fields)
    decreases FieldsSize(fs), 2
  {
    fs.Field? ==> Lowered(fs.value) && LoweredEntries(fs.rest)
  }

  ghost predicate LoweredList(l: JsonList)
    decreases ListSize(l), 2
  {
    l.Cons? ==> Lowered(l.head) && LoweredList(l.tail)
  }

  ghost predicate LoweredHere(fs: Fields) {
    && !Has(fs, Known(Const))
    && (fs.End? || (!Has(fs, Known(Type)) && Refers(fs)) || Typed(fs))
  }

  ghost predicate Typed(fs: Fields) {
    var types := Types(fs);
    && types != [] && Get(fs, Known(Type)) == Some(TypeValue(types))
    && ("object" in types ==> Has(fs, Known(Properties)))
    && ("array" in types ==> Has(fs, Known(Items)))
    && forall k :: Get(fs, k) != Some(Null)
  }

  // ----- Lookups in a lowered object ---------------------------------------------------

  ghost function LiveOnly(v: Option<Json>): Option<Json> {
    if v == Some(Null) then None else v
  }

  lemma GetLowerTyped(fs: Fields, types: seq<string>, q: Key)
    requires Distinct(fs)
    ensures Get(LowerTyped(fs, types), q) ==
            if q == Known(Type) then Some(TypeValue(types))
            else if q == Known(Properties) && "object" in types && !Has(fs, q) then Some(Obj(End))
            else if q == Known(Items) && "array" in types && !Has(fs, q) then Some(STRING_SCHEMA)
            else LiveOnly(Get(fs, q))
  {
    var typed := Insert(fs, Known(Type), TypeValue(types));
    GetInsert(fs, Known(Type), TypeValue(types), q);
    GetInsert(fs, Known(Type), TypeValue(types), Known(Properties));
    GetInsert(fs, Known(Type), TypeValue(types), Known(Items));
    var propertied := if "object" in types then OrInsert(typed, Known(Properties), Obj(End)) else typed;
    GetInsert(typed, Known(Properties), Obj(End), q);
    GetInsert(typed, Known(Properties), Obj(End), Known(Items));
    var itemised := if "array" in types then OrInsert(propertied, Known(Items), STRING_SCHEMA) else propertied;
    GetInsert(propertied, Known(Items), STRING_SCHEMA, q);
    GetDropNulls(itemised, q);
  }

  lemma GetLowerConst(fs: Fields, q: Key)
    requires Distinct(fs)
    ensures Distinct(LowerConst(fs))
    ensures Get(LowerConst(fs), q) ==
            if !Has(fs, Known(Const)) then Get(fs, q)
            else if q == Known(Const) then None
            else if q == Known(Enum) then Some(Arr(Cons(Get(fs, Known(Const)).value, Nil)))
            else Get(fs, q)
  {
    if Has(fs, Known(Const)) {
      P.GetRemove(fs, Known(Const), q);
      GetInsert(P.Remove(fs, Known(Const)), Known(Enum), Arr(Cons(Get(fs, Known(Const)).value, Nil)), q);
    }
  }

  lemma {:induction false} NativeNamesNative(l: JsonList, i: nat)
    requires i < |NativeNames(l)|
    ensures NativeName(NativeNames(l)[i])
  {
    if NativeType(l.head) {
      if i > 0 { NativeNamesNative(l.tail, i - 1); }
    } else {
      NativeNamesNative(l.tail, i);
    }
  }

  /** Writing a list of native names and reading it back gives the list. */
  lemma {:induction false} NamesRoundTrip(names: seq<string>)
    requires forall i :: 0 <= i < |names| ==> NativeName(names[i])
    ensures NativeNames(Strings(names)) == names
  {
    if names != [] { NamesRoundTrip(names[1..]); }
  }

  lemma TypesAreNative(fs: Fields, i: nat)
    requires i < |Types(fs)|
    ensures NativeName(Types(fs)[i])
  {
    match Get(fs, Known(Type)) {
      case Some(Arr(items)) => NativeNamesNative(items, i);
      case _ =>
    }
  }

  /** The type that lowering writes reads back as the types it was written from. */
  lemma TypedAfterLowering(fs: Fields, types: seq<string>)
    requires Distinct(fs) && types != [] && forall i :: 0 <= i < |types| ==> NativeName(types[i])
    requires "object" in types ==> Get(fs, Known(Properties)) != Some(Null)
    requires "array" in types ==> Get(fs, Known(Items)) != Some(Null)
    ensures Typed(LowerTyped(fs, types))
  {
    var r := LowerTyped(fs, types);
    GetLowerTyped(fs, types, Known(Type));
    NamesRoundTrip(types);
    assert Types(r) == types;
    GetLowerTyped(fs, types, Known(Properties));
    GetLowerTyped(fs, types, Known(Items));
    forall k ensures Get(r, k) != Some(Null) { GetLowerTyped(fs, types, k); }
  }

  // ----- Lowered schemas are fixed points ----------------------------------------------

  lemma {:induction false} InsertSame(fs: Fields, k: Key, v: Json)
    requires Get(fs, k) == Some(v)
    ensures Insert(fs, k, v) == fs
  {
    if fs.key != k { InsertSame(fs.rest, k, v); }
  }

  lemma {:induction false} RemoveAbsent(fs: Fields, k: Key)
    requires !Has(fs, k)
    ensures P.Remove(fs, k) == fs
  {
    if fs.Field? { RemoveAbsent(fs.rest, k); }
  }

  lemma {:induction false} DropNoNulls(fs: Fields)
    requires Distinct(fs) && forall k :: Get(fs, k) != Some(Null)
    ensures DropNulls(fs) == fs
  {
    if fs.Field? {
      assert Get(fs, fs.key) != Some(Null);
      forall k ensures Get(fs.rest, k) != Some(Null) { assert Get(fs, k) != Some(Null); }
      DropNoNulls(fs.rest);
    }
  }

  lemma LowerFixes(fs: Fields)
    requires Distinct(fs) && LoweredHere(fs)
    ensures Lower(fs) == fs
  {
    if Typed(fs) {
      InsertSame(fs, Known(Type), TypeValue(Types(fs)));
      DropNoNulls(fs);
    } else if fs.Field? {
      RemoveAbsent(fs, Known(Type));
    }
  }

  lemma {:induction false} LoweredFixed(v: Json)
    requires WellFormed(v) && Lowered(v)
    ensures Sanitize(v) == v
    decreases Size(v), 0
  {
    if v.Obj? {
      forall k | Has(v.fields, k) ensures LoweredField(v.fields, k) {}
      FieldsFixed(v.fields);
      LowerFixes(v.fields);
    }
  }

  lemma {:induction false} FieldsFixed(fs: Fields)
    requires Distinct(fs) && WellFormedFields(fs)
    requires forall k :: Has(fs, k) ==> LoweredField(fs, k)
    ensures SanitizeFields(fs) == fs
    decreases FieldsSize(fs), 3
  {
    if fs.Field? {
      assert Get(fs, fs.key) == Some(fs.value) && LoweredField(fs, fs.key);
      AtFixed(fs.key, fs.value);
      forall k | Has(fs.rest, k) ensures LoweredField(fs.rest, k) {
        assert Get(fs, k) == Get(fs.rest, k) && LoweredField(fs, k);
      }
      FieldsFixed(fs.rest);
    }
  }

  lemma {:induction false} AtFixed(k: Key, v: Json)
    requires WellFormed(v) && LoweredAt(k, v)
    ensures SanitizeAt(k, v) == v
    decreases Size(v), 1
  {
    if k == Known(Items) || (k == Known(AdditionalProperties) && !v.Bool?) {
      LoweredFixed(v);
    } else if IsTable(k) && v.Obj? {
      EntriesFixed(v.fields);
    } else if (IsUnion(k) || k == Known(PrefixItems)) && v.Arr? {
      ListFixed(v.items);
    }
  }

  lemma {:induction false} EntriesFixed(fs: Fields)
    requires WellFormedFields(fs) && LoweredEntries(fs)
    ensures SanitizeEntries(fs) == fs
    decreases FieldsSize(fs), 2
  {
    if fs.Field? {
      LoweredFixed(fs.value);
      EntriesFixed(fs.rest);
    }
  }

  lemma {:induction false} ListFixed(l: JsonList)
    requires WellFormedList(l) && LoweredList(l)
    ensures SanitizeList(l) == l
    decreases ListSize(l), 2
  {
    if l.Cons? {
      LoweredFixed(l.head);
      ListFixed(l.tail);
    }
  }

  // ----- Fixed points are lowered ------------------------------------------------------

  /** A field of a lowered object was there before, or was filled in. */
  lemma LowerKeeps(g: Fields, q: Key)
    requires Distinct(g) && Has(Lower(g), q)
    ensures var v := Get(Lower(g), q).value;
            || Get(g, q) == Some(v)
            || q == Known(Type) || q == Known(Enum)
            || (q == Known(Properties) && v == Obj(End)) || (q == Known(Items) && v == STRING_SCHEMA)
  {
    var c := LowerConst(g);
    GetLowerConst(g, q);
    P.GetRemove(c, Known(Type), q);
    GetLowerTyped(c, Types(c), q);
    if Inferred(c).Some? { GetLowerTyped(c, [Inferred(c).value], q); }
  }

  lemma StringSchemaLowered()
    ensures Lowered(STRING_SCHEMA) && WellFormed(STRING_SCHEMA) && Sanitize(STRING_SCHEMA) == STRING_SCHEMA
  {
    var fs := STRING_SCHEMA.fields;
    assert Types(fs) == ["string"];
    forall k | Has(fs, k) ensures LoweredField(fs, k) { assert Get(End, k).None?; }
    forall k ensures Get(fs, k) != Some(Null) { assert Get(End, k).None?; }
    LoweredFixed(STRING_SCHEMA);
  }

  lemma KeptIsFixed(q: Key, v: Json, lowered: Option<Json>)
    requires || lowered == Some(v) || q == Known(Type) || q == Known(Enum)
             || (q == Known(Properties) && v == Obj(End)) || (q == Known(Items) && v == STRING_SCHEMA)
    requires lowered ==
             if (q == Known(Defs) || q == Known(Definitions)) && !v.Obj? then None else Some(SanitizeAt(q, v))
    ensures SanitizeAt(q, v) == v
    ensures q == Known(Defs) || q == Known(Definitions) ==> v.Obj?
  {
    StringSchemaLowered();
  }

  /** In an object that lowering leaves alone, every field is left alone. */
  lemma FixedFields(fs: Fields, q: Key)
    requires Distinct(fs) && Lower(SanitizeFields(fs)) == fs && Has(fs, q)
    ensures SanitizeAt(q, Get(fs, q).value) == Get(fs, q).value
    ensures q == Known(Defs) || q == Known(Definitions) ==> Get(fs, q).value.Obj?
  {
    var g := SanitizeFields(fs);
    GetSanitizeFields(fs, q);
    LowerKeeps(g, q);
    KeptIsFixed(q, Get(fs, q).value, Get(g, q));
  }

  lemma FixedWithoutConst(fs: Fields)
    requires Distinct(fs) && Lower(SanitizeFields(fs)) == fs
    ensures var g := SanitizeFields(fs); !Has(fs, Known(Const)) && Distinct(g) && LowerConst(g) == g
  {
    var g := SanitizeFields(fs);
    GetSanitizeFields(fs, Known(Const));
    var c := LowerConst(g);
    GetLowerConst(g, Known(Const));
    P.GetRemove(c, Known(Type), Known(Const));
    GetLowerTyped(c, Types(c), Known(Const));
    if Inferred(c).Some? { GetLowerTyped(c, [Inferred(c).value], Known(Const)); }
  }

  lemma FixedReferring(fs: Fields, g: Fields)
    requires Distinct(g) && Refers(g) && P.Remove(g, Known(Type)) == fs && !Has(fs, Known(Const))
    ensures LoweredHere(fs)
  {
    P.GetRemove(g, Known(Type), Known(Type));
    P.GetRemove(g, Known(Type), Known(Ref));
    P.GetRemove(g, Known(Type), Known(AnyOf));
    P.GetRemove(g, Known(Type), Known(OneOf));
    P.GetRemove(g, Known(Type), Known(AllOf));
  }

  /** A type that lowering writes is there the next time, so a fixed point never has its type inferred. */
  lemma FixedHasType(fs: Fields, name: string)
    requires Distinct(fs) && NativeName(name) && LowerTyped(SanitizeFields(fs), [name]) == fs
    ensures Types(SanitizeFields(fs)) != []
  {
    GetSanitizeFields(fs, Known(Type));
    GetLowerTyped(SanitizeFields(fs), [name], Known(Type));
  }

  lemma FixedHere(fs: Fields)
    requires Distinct(fs) && Lower(SanitizeFields(fs)) == fs
    ensures LoweredHere(fs)
  {
    var g := SanitizeFields(fs);
    FixedWithoutConst(fs);
    if Types(g) != [] {
      FixedTyped(fs, Types(g));
    } else if Refers(g) {
      FixedReferring(fs, g);
    } else if Inferred(g).Some? {
      InferredIsNative(g);
      FixedHasType(fs, Inferred(g).value);
    }
  }

  lemma FixedTyped(fs: Fields, types: seq<string>)
    requires Distinct(fs) && types == Types(SanitizeFields(fs)) != [] && LowerTyped(SanitizeFields(fs), types) == fs
    ensures Typed(fs)
  {
    var g := SanitizeFields(fs);
    GetSanitizeFields(fs, Known(Properties));
    GetSanitizeFields(fs, Known(Items));
    GetLowerTyped(g, types, Known(Properties));
    GetLowerTyped(g, types, Known(Items));
    forall i | 0 <= i < |types| ensures NativeName(types[i]) { TypesAreNative(g, i); }
    TypedAfterLowering(g, types);
  }

  lemma {:induction false} FixedLowered(v: Json)
    requires WellFormed(v) && Sanitize(v) == v
    ensures Lowered(v)
    decreases Size(v), 0
  {
    if v.Obj? {
      FixedHere(v.fields);
      forall k | Has(v.fields, k) ensures LoweredField(v.fields, k) {
        FixedFields(v.fields, k);
        SizeOfGet(v.fields, k);
        WellFormedGet(v.fields, k);
        FixedLoweredAt(k, Get(v.fields, k).value);
      }
    }
  }

  lemma {:induction false} FixedLoweredAt(k: Key, v: Json)
    requires WellFormed(v) && SanitizeAt(k, v) == v
    ensures LoweredAt(k, v)
    decreases Size(v), 1
  {
    if k == Known(Items) || (k == Known(AdditionalProperties) && !v.Bool?) {
      FixedLowered(v);
    } else if IsTable(k) && v.Obj? {
      FixedLoweredEntries(v.fields);
    } else if (IsUnion(k) || k == Known(PrefixItems)) && v.Arr? {
      FixedLoweredList(v.items);
    }
  }

  lemma {:induction false} FixedLoweredEntries(fs: Fields)
    requires WellFormedFields(fs) && SanitizeEntries(fs) == fs
    ensures LoweredEntries(fs)
    decreases FieldsSize(fs), 2
  {
    if fs.Field? {
      FixedLowered(fs.value);
      FixedLoweredEntries(fs.rest);
    }
  }

  lemma {:induction false} FixedLoweredList(l: JsonList)
    requires WellFormedList(l) && SanitizeList(l) == l
    ensures LoweredList(l)
    decreases ListSize(l), 2
  {
    if l.Cons? {
      FixedLowered(l.head);
      FixedLoweredList(l.tail);
    }
  }

  /** Lowering leaves a schema alone exactly if it is lowered. */
  lemma FixedPointsAreLowered(v: Json)
    requires WellFormed(v)
    ensures Sanitize(v) == v <==> Lowered(v)
  {
    if Sanitize(v) == v { FixedLowered(v); }
    if Lowered(v) { LoweredFixed(v); }
  }

  // ----- One pass is enough, but for explicit nulls ------------------------------------

  /** The types that lowering gives an object. */
  function TypesGiven(fs: Fields): seq<string> {
    var c := LowerConst(fs);
    if Types(c) != [] then Types(c)
    else if Refers(c) || Inferred(c).None? then []
    else [Inferred(c).value]
  }

  /** Lowering leaves something of the object. */
  predicate Survives(fs: Fields) {
    TypesGiven(fs) != [] || Refers(fs)
  }

  /** At every schema position that survives: an object type has no null for `properties`, and an array type no null for
      `items`. */
  ghost predicate Settled(v: Json)
    decreases Size(v), 0
  {
    v.Obj? && Survives(v.fields) ==>
      SettledHere(v.fields) && forall k :: Has(v.fields, k) ==> SettledField(v.fields, k)
  }

  ghost predicate SettledHere(fs: Fields) {
    && ("object" in TypesGiven(fs) ==> Get(fs, Known(Properties)) != Some(Null))
    && ("array" in TypesGiven(fs) ==> Get(fs, Known(Items)) != Some(Null))
  }

  ghost predicate SettledField(fs: Fields, k: Key)
    requires Has(fs, k)
    decreases FieldsSize(fs), 3
  {
    SizeOfGet(fs, k);
    SettledAt(k, Get(fs, k).value)
  }

  ghost predicate SettledAt(k: Key, v: Json)
    decreases Size(v), 1
  {
    if k == Known(Items) || k == Known(AdditionalProperties) then Settled(v)
    else if IsTable(k) && v.Obj? then SettledEntries(v.fields)
    else if (IsUnion(k) || k == Known(PrefixItems)) && v.Arr? then SettledList(v.items)
    else true
  }

  ghost predicate SettledEntries(fs: Fields)
    decreases FieldsSize(fs), 2
  {
    fs.Field? ==> Settled(fs.value) && SettledEntries(fs.rest)
  }

  ghost predicate SettledList(l: JsonList)
    decreases ListSize(l), 2
  {
    l.Cons? ==> Settled(l.head) && SettledList(l.tail)
  }

  lemma HasLowered(fs: Fields, k: Key)
    requires Distinct(fs) && k != Known(Defs) && k != Known(Definitions)
    ensures Has(LowerConst(SanitizeFields(fs)), k) <==> Has(LowerConst(fs), k)
  {
    GetSanitizeFields(fs, k);
    GetSanitizeFields(fs, Known(Const));
    GetLowerConst(fs, k);
    GetLowerConst(SanitizeFields(fs), k);
  }

  lemma InferredSame(fs: Fields)
    requires Distinct(fs)
    ensures Inferred(LowerConst(SanitizeFields(fs))) == Inferred(LowerConst(fs))
  {
    HasLowered(fs, Known(Properties));
    HasLowered(fs, Known(Required));
    HasLowered(fs, Known(AdditionalProperties));
    HasLowered(fs, Known(Items));
    HasLowered(fs, Known(PrefixItems));
    HasLowered(fs, Known(Enum));
    HasLowered(fs, Known(Format));
    HasLowered(fs, Known(Minimum));
    HasLowered(fs, Known(Maximum));
    HasLowered(fs, Known(ExclusiveMinimum));
    HasLowered(fs, Known(ExclusiveMaximum));
    HasLowered(fs, Known(MultipleOf));
  }

  lemma RefersSame(fs: Fields)
    requires Distinct(fs)
    ensures Refers(LowerConst(SanitizeFields(fs))) == Refers(LowerConst(fs)) == Refers(fs)
  {
    HasLowered(fs, Known(Ref));
    HasLowered(fs, Known(AnyOf));
    HasLowered(fs, Known(OneOf));
    HasLowered(fs, Known(AllOf));
    GetLowerConst(fs, Known(Ref));
    GetLowerConst(fs, Known(AnyOf));
    GetLowerConst(fs, Known(OneOf));
    GetLowerConst(fs, Known(AllOf));
  }

  lemma TypesSame(fs: Fields)
    requires Distinct(fs)
    ensures Types(LowerConst(SanitizeFields(fs))) == Types(LowerConst(fs))
  {
    GetSanitizeFields(fs, Known(Type));
    GetSanitizeFields(fs, Known(Const));
    GetLowerConst(fs, Known(Type));
    GetLowerConst(SanitizeFields(fs), Known(Type));
  }

  /** Lowering the children does not change the types of the object. */
  lemma GivenSame(fs: Fields)
    requires Distinct(fs)
    ensures TypesGiven(SanitizeFields(fs)) == TypesGiven(fs) && Survives(SanitizeFields(fs)) == Survives(fs)
  {
    TypesSame(fs);
    RefersSame(fs);
    InferredSame(fs);
    GetSanitizeFields(fs, Known(Ref));
    GetSanitizeFields(fs, Known(AnyOf));
    GetSanitizeFields(fs, Known(OneOf));
    GetSanitizeFields(fs, Known(AllOf));
  }

  lemma InferredIsNative(fs: Fields)
    requires Inferred(fs).Some?
    ensures NativeName(Inferred(fs).value)
  {
  }

  lemma GivenAreNative(g: Fields, i: nat)
    requires i < |TypesGiven(g)|
    ensures NativeName(TypesGiven(g)[i])
  {
    var c := LowerConst(g);
    if Types(c) != [] { TypesAreNative(c, i); } else { InferredIsNative(c); }
  }

  lemma LowerIs(g: Fields)
    requires Distinct(g)
    ensures Lower(g) == var c := LowerConst(g);
                        if TypesGiven(g) != [] then LowerTyped(c, TypesGiven(g))
                        else if Refers(g) then P.Remove(c, Known(Type))
                        else End
  {
    GetLowerConst(g, Known(Ref));
    GetLowerConst(g, Known(AnyOf));
    GetLowerConst(g, Known(OneOf));
    GetLowerConst(g, Known(AllOf));
  }

  lemma TypedLowers(g: Fields)
    requires Distinct(g) && TypesGiven(g) != []
    ensures LoweredHere(Lower(g)) <==> SettledHere(g)
  {
    var c, types := LowerConst(g), TypesGiven(g);
    LowerIs(g);
    GetLowerConst(g, Known(Properties));
    GetLowerConst(g, Known(Items));
    GetLowerConst(g, Known(Const));
    GetLowerTyped(c, types, Known(Const));
    GetLowerTyped(c, types, Known(Type));
    GetLowerTyped(c, types, Known(Properties));
    GetLowerTyped(c, types, Known(Items));
    forall i | 0 <= i < |types| ensures NativeName(types[i]) { GivenAreNative(g, i); }
    NamesRoundTrip(types);
    assert Types(Lower(g)) == types;
    if SettledHere(g) { TypedAfterLowering(c, types); }
  }

  lemma ReferringLowers(g: Fields)
    requires Distinct(g) && TypesGiven(g) == [] && Refers(g)
    ensures LoweredHere(Lower(g)) && SettledHere(g)
  {
    var c := LowerConst(g);
    LowerIs(g);
    GetLowerConst(g, Known(Const));
    GetLowerConst(g, Known(Ref));
    GetLowerConst(g, Known(AnyOf));
    GetLowerConst(g, Known(OneOf));
    GetLowerConst(g, Known(AllOf));
    P.GetRemove(c, Known(Type), Known(Type));
    P.GetRemove(c, Known(Type), Known(Const));
    P.GetRemove(c, Known(Type), Known(Ref));
    P.GetRemove(c, Known(Type), Known(AnyOf));
    P.GetRemove(c, Known(Type), Known(OneOf));
    P.GetRemove(c, Known(Type), Known(AllOf));
  }

  lemma SettledSame(fs: Fields)
    requires Distinct(fs)
    ensures SettledHere(SanitizeFields(fs)) <==> SettledHere(fs)
  {
    GivenSame(fs);
    GetSanitizeFields(fs, Known(Properties));
    GetSanitizeFields(fs, Known(Items));
  }

  lemma HereLowers(g: Fields)
    requires Distinct(g) && Survives(g)
    ensures LoweredHere(Lower(g)) <==> SettledHere(g)
  {
    if TypesGiven(g) != [] { TypedLowers(g); } else { ReferringLowers(g); }
  }

  /** A live field of a surviving object stays, unless lowering writes that field itself. */
  lemma LowerKeepsLive(g: Fields, k: Key)
    requires Distinct(g) && Survives(g) && Has(g, k) && Get(g, k) != Some(Null)
    requires k != Known(Type) && k != Known(Enum) && k != Known(Const)
    ensures Get(Lower(g), k) == Get(g, k)
  {
    LowerIs(g);
    GetLowerConst(g, k);
    GetLowerTyped(LowerConst(g), TypesGiven(g), k);
    P.GetRemove(LowerConst(g), Known(Type), k);
  }

  ghost predicate FilledIn(k: Key, v: Json) {
    || k == Known(Type) || k == Known(Enum)
    || (k == Known(Properties) && v == Obj(End)) || (k == Known(Items) && v == STRING_SCHEMA)
  }

  lemma FilledInLowered(k: Key, v: Json)
    requires FilledIn(k, v)
    ensures LoweredAt(k, v) && k != Known(Defs) && k != Known(Definitions)
  {
    StringSchemaLowered();
  }

  ghost predicate FieldLowered(h: Fields, k: Key) {
    Has(h, k) ==> LoweredField(h, k)
  }

  ghost predicate AllLowered(h: Fields) {
    forall k :: FieldLowered(h, k)
  }

  ghost predicate AllSettled(fs: Fields) {
    forall k :: Has(fs, k) ==> SettledField(fs, k)
  }

  lemma {:induction false} SettledFieldLowers(fs: Fields, k: Key)
    requires Distinct(fs) && WellFormedFields(fs) && (Has(fs, k) ==> SettledField(fs, k))
    ensures FieldLowered(Lower(SanitizeFields(fs)), k)
    decreases FieldsSize(fs), 3
  {
    GetSanitizeFields(fs, k);
    if Has(Lower(SanitizeFields(fs)), k) {
      var v := Get(Lower(SanitizeFields(fs)), k).value;
      LowerKeeps(SanitizeFields(fs), k);
      if FilledIn(k, v) {
        FilledInLowered(k, v);
      } else {
        SizeOfGet(fs, k);
        WellFormedGet(fs, k);
        LowersAt(k, Get(fs, k).value);
      }
    }
  }

  /** The child that decides whether a field is settled is still there after lowering. */
  lemma ChildStays(fs: Fields, k: Key)
    requires Distinct(fs) && Survives(fs) && Has(fs, k) && Has(SanitizeFields(fs), k)
    requires SanitizeAt(k, Get(fs, k).value) != Null
    requires k != Known(Type) && k != Known(Enum) && k != Known(Const)
    ensures Get(Lower(SanitizeFields(fs)), k) == Some(SanitizeAt(k, Get(fs, k).value))
  {
    GivenSame(fs);
    GetSanitizeFields(fs, k);
    LowerKeepsLive(SanitizeFields(fs), k);
  }

  /** A null, and a value that is no schema position, is settled anyway. */
  lemma SettledAnyway(k: Key, v: Json)
    requires SanitizeAt(k, v) == Null || k == Known(Type) || k == Known(Enum) || k == Known(Const)
             || ((k == Known(Defs) || k == Known(Definitions)) && !v.Obj?)
    ensures SettledAt(k, v)
  {
  }

  lemma {:induction false} LoweredFieldSettled(fs: Fields, k: Key)
    requires Distinct(fs) && WellFormedFields(fs) && Survives(fs) && Has(fs, k)
    requires FieldLowered(Lower(SanitizeFields(fs)), k)
    ensures SettledField(fs, k)
    decreases FieldsSize(fs), 3
  {
    var v := Get(fs, k).value;
    SizeOfGet(fs, k);
    WellFormedGet(fs, k);
    GetSanitizeFields(fs, k);
    if Has(SanitizeFields(fs), k) && SanitizeAt(k, v) != Null
       && k != Known(Type) && k != Known(Enum) && k != Known(Const) {
      ChildStays(fs, k);
      LowersAt(k, v);
    } else {
      SettledAnyway(k, v);
    }
  }

  lemma LoweredByField(h: Fields)
    ensures Lowered(Obj(h)) <==> LoweredHere(h) && AllLowered(h)
  {
    if Lowered(Obj(h)) {
      forall k ensures FieldLowered(h, k) {
        if Has(h, k) { assert LoweredField(h, k); }
      }
    }
    if LoweredHere(h) && AllLowered(h) {
      forall k | Has(h, k) ensures LoweredField(h, k) { assert FieldLowered(h, k); }
    }
  }

  lemma SettledByField(fs: Fields)
    requires Survives(fs)
    ensures Settled(Obj(fs)) <==> SettledHere(fs) && AllSettled(fs)
  {
  }

  lemma NothingSurvives(fs: Fields)
    requires Distinct(fs) && !Survives(fs)
    ensures Lowered(Sanitize(Obj(fs))) && Settled(Obj(fs))
  {
    GivenSame(fs);
    GetSanitizeFields(fs, Known(Ref));
    LowerIs(SanitizeFields(fs));
  }

  lemma {:induction false} ObjectLowers(fs: Fields)
    requires Distinct(fs) && WellFormedFields(fs) && Survives(fs)
    ensures Lowered(Sanitize(Obj(fs))) <==> Settled(Obj(fs))
    decreases FieldsSize(fs), 5
  {
    GivenSame(fs);
    GetSanitizeFields(fs, Known(Ref));
    HereLowers(SanitizeFields(fs));
    SettledSame(fs);
    FieldsLower(fs);
    LoweredByField(Lower(SanitizeFields(fs)));
    SettledByField(fs);
  }

  /** One pass lowers a schema exactly if no null stands where lowering would fill in. */
  lemma {:induction false} SanitizeLowers(v: Json)
    requires WellFormed(v)
    ensures Lowered(Sanitize(v)) <==> Settled(v)
    decreases Size(v), 0
  {
    if v.Bool? {
      StringSchemaLowered();
      LowerFixes(STRING_SCHEMA.fields);
    } else if v.Obj? {
      if Survives(v.fields) { ObjectLowers(v.fields); } else { NothingSurvives(v.fields); }
    }
  }

  lemma {:induction false} FieldsLower(fs: Fields)
    requires Distinct(fs) && WellFormedFields(fs) && Survives(fs)
    ensures AllLowered(Lower(SanitizeFields(fs))) <==> AllSettled(fs)
    decreases FieldsSize(fs), 4
  {
    var h := Lower(SanitizeFields(fs));
    if AllLowered(h) {
      forall k | Has(fs, k) ensures SettledField(fs, k) {
        assert FieldLowered(h, k);
        LoweredFieldSettled(fs, k);
      }
    }
    if AllSettled(fs) {
      forall k ensures FieldLowered(h, k) { SettledFieldLowers(fs, k); }
    }
  }

  lemma {:induction false} LowersAt(k: Key, v: Json)
    requires WellFormed(v)
    ensures LoweredAt(k, SanitizeAt(k, v)) <==> SettledAt(k, v)
    decreases Size(v), 1
  {
    if k == Known(Items) || (k == Known(AdditionalProperties) && !v.Bool?) {
      SanitizeLowers(v);
    } else if IsTable(k) && v.Obj? {
      EntriesLower(v.fields);
    } else if (IsUnion(k) || k == Known(PrefixItems)) && v.Arr? {
      ListLowers(v.items);
    }
  }

  lemma {:induction false} EntriesLower(fs: Fields)
    requires WellFormedFields(fs)
    ensures LoweredEntries(SanitizeEntries(fs)) <==> SettledEntries(fs)
    decreases FieldsSize(fs), 2
  {
    if fs.Field? {
      SanitizeLowers(fs.value);
      EntriesLower(fs.rest);
    }
  }

  lemma {:induction false} ListLowers(l: JsonList)
    requires WellFormedList(l)
    ensures LoweredList(SanitizeList(l)) <==> SettledList(l)
    decreases ListSize(l), 2
  {
    if l.Cons? {
      SanitizeLowers(l.head);
      ListLowers(l.tail);
    }
  }

  /** Lowering twice is lowering once exactly if no null stands where lowering would fill in. */
  lemma SanitizeTwice(v: Json)
    requires WellFormed(v)
    ensures Sanitize(Sanitize(v)) == Sanitize(v) <==> Settled(v)
  {
    SanitizeWellFormed(v);
    FixedPointsAreLowered(Sanitize(v));
    SanitizeLowers(v);
  }

  /** An explicit null is dropped after it has kept `properties` from being filled in, so a second pass still changes
      the schema. */
  lemma NullPropertiesNeedTwoPasses()
    ensures var v := Obj(Field(Known(Type), Str("object"), Field(Known(Properties), Null, End)));
            Sanitize(Sanitize(v)) != Sanitize(v)
  {
    var v := Obj(Field(Known(Type), Str("object"), Field(Known(Properties), Null, End)));
    assert Types(v.fields) == ["object"] && !Has(v.fields, Known(Const));
    assert Get(v.fields, Known(Properties)) == Some(Null);
    SanitizeTwice(v);
  }
}
