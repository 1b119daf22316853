/**
 When the canonical form of a schema is lowered, as a condition on the schema itself: no null stands where lowering
 would fill in, and no null reference or union alone keeps lowering from giving a type.
 */
module SchemaLasting {
  import opened Domain
  import opened Json
  import opened SchemaValid
  import opened SchemaOrder
  import opened SchemaEquivalence
  import opened SchemaSanitize
  import opened SchemaCanonical
  import opened SchemaPruned
  import P = SchemaPrune
  import L = SchemaLowered
  import R = SchemaReferences

  // ----- The condition -----------------------------------------------------------------

  /** A reference or a union that is not null. */
  predicate LiveRefers(fs: Fields) {
    || Live(fs, Known(Ref)).Some? || Live(fs, Known(AnyOf)).Some?
    || Live(fs, Known(OneOf)).Some? || Live(fs, Known(AllOf)).Some?
  }

  /** Something of the field is left in the form of an object without a type. */
  predicate Leaves(fs: Fields, k: Key) {
    || (k == Known(Enum) && Has(fs, Known(Const)))
    || (IsField(k) && k != Known(Type) && Live(fs, k).Some? && (IsDefs(k) ==> Live(fs, k).value.Obj?))
  }

  ghost predicate LeavesNothing(fs: Fields) {
    forall k :: !Leaves(fs, k)
  }

  ghost predicate LeavesOnlyDefinitions(fs: Fields) {
    forall k :: !IsDefs(k) ==> !Leaves(fs, k)
  }

  /** At every schema position that survives: with a type, no null stands where lowering would fill in; without one, a
      reference or union is not null, or nothing is left. */
  ghost predicate Lasting(v: Json)
    decreases Size(v), 0
  {
    v.Obj? && L.Survives(v.fields) ==>
      && (if L.TypesGiven(v.fields) != [] then L.SettledHere(v.fields)
          else LiveRefers(v.fields) || LeavesNothing(v.fields))
      && forall k :: Has(v.fields, k) ==> LastingField(v.fields, k)
  }

  ghost predicate LastingField(fs: Fields, k: Key)
    requires Has(fs, k)
    decreases FieldsSize(fs), 3
  {
    SizeOfGet(fs, k);
    LastingAt(k, Get(fs, k).value)
  }

  ghost predicate LastingAt(k: Key, v: Json)
    decreases Size(v), 1
  {
    if k == Known(Items) || k == Known(AdditionalProperties) then Lasting(v)
    else if IsTable(k) && v.Obj? then LastingEntries(v.fields)
    else if IsUnion(k) && v.Arr? then LastingList(v.items)
    else true
  }

  ghost predicate LastingEntries(fs: Fields)
    decreases FieldsSize(fs), 2
  {
    forall q :: Has(fs, q) ==> LastingEntry(fs, q)
  }

  ghost predicate LastingEntry(fs: Fields, q: Key)
    requires Has(fs, q)
    decreases FieldsSize(fs), 1
  {
    SizeOfGet(fs, q);
    Lasting(Get(fs, q).value)
  }

  ghost predicate LastingList(l: JsonList)
    decreases ListSize(l), 2
  {
    l.Cons? ==> Lasting(l.head) && LastingList(l.tail)
  }

  /** The same for a whole schema, whose definitions count only if the lowered schema reaches them. */
  ghost predicate LastingRoot(decode: P.Decode, v: Json) {
    v.Obj? && L.Survives(v.fields) ==>
      && RootHere(v.fields) && PlainLasting(v.fields)
      && TableLasting(decode, v, P.DefsTable) && TableLasting(decode, v, P.DefinitionsTable)
  }

  ghost predicate RootHere(fs: Fields) {
    if L.TypesGiven(fs) != [] then L.SettledHere(fs) else LiveRefers(fs) || LeavesOnlyDefinitions(fs)
  }

  ghost predicate PlainLasting(fs: Fields) {
    forall k :: Has(fs, k) && !IsDefs(k) ==> LastingField(fs, k)
  }

  ghost predicate TableLasting(decode: P.Decode, v: Json, t: P.Table) {
    forall q :: LastingDefinition(decode, v, P.TableRef(t, q))
  }

  ghost predicate LastingDefinition(decode: P.Decode, v: Json, r: P.TableRef) {
    P.Lookup(v, r).Some? && P.Reachable(decode, Sanitize(v), r) ==> Lasting(P.Lookup(v, r).value)
  }

  // ----- One object --------------------------------------------------------------------

  /** The value of a field once the children are lowered. */
  function Sanitized(k: Key, v: Option<Json>): Option<Json> {
    if v.None? || (IsDefs(k) && !v.value.Obj?) then None else Some(SanitizeAt(k, v.value))
  }

  /** The field that a constant becomes, or the lowered field. */
  function ConstLowered(fs: Fields, k: Key): Option<Json> {
    if k == Known(Const) then None
    else if k == Known(Enum) && Has(fs, Known(Const)) then Some(Arr(Cons(Get(fs, Known(Const)).value, Nil)))
    else Sanitized(k, Get(fs, k))
  }

  /** What lowering fills in for these types. */
  function Filled(types: seq<string>, k: Key): Option<Json> {
    if k == Known(Properties) && "object" in types then Some(Obj(End))
    else if k == Known(Items) && "array" in types then Some(STRING_SCHEMA)
    else None
  }

  function TypedValue(fs: Fields, types: seq<string>, k: Key): Option<Json> {
    if k == Known(Type) then Some(TypeValue(types))
    else if ConstLowered(fs, k).None? then Filled(types, k)
    else if ConstLowered(fs, k) == Some(Null) then None
    else ConstLowered(fs, k)
  }

  function ReferringValue(fs: Fields, k: Key): Option<Json> {
    if k == Known(Type) then None else ConstLowered(fs, k)
  }

  /** The value of a field of an object that survives with these types, or without any. */
  function LowerValue(fs: Fields, types: seq<string>, k: Key): Option<Json> {
    if types != [] then TypedValue(fs, types, k) else ReferringValue(fs, k)
  }

  ghost function Lowering(fs: Fields): Fields {
    Lower(SanitizeFields(fs))
  }

  lemma SanitizedGet(fs: Fields, k: Key)
    requires Distinct(fs)
    ensures Get(SanitizeFields(fs), k) == Sanitized(k, Get(fs, k)) && Distinct(SanitizeFields(fs))
  {
    GetSanitizeFields(fs, k);
  }

  lemma ConstGet(fs: Fields, k: Key)
    requires Distinct(fs)
    ensures Get(LowerConst(SanitizeFields(fs)), k) == ConstLowered(fs, k) && Distinct(LowerConst(SanitizeFields(fs)))
  {
    SanitizedGet(fs, k);
    SanitizedGet(fs, Known(Const));
    L.GetLowerConst(SanitizeFields(fs), k);
  }

  lemma TypedGet(c: Fields, types: seq<string>, k: Key)
    requires Distinct(c)
    ensures Get(LowerTyped(c, types), k) ==
            if k == Known(Type) then Some(TypeValue(types))
            else if Get(c, k).None? then Filled(types, k)
            else L.LiveOnly(Get(c, k))
  {
    L.GetLowerTyped(c, types, k);
  }

  lemma ReferringGet(c: Fields, k: Key)
    requires Distinct(c)
    ensures Get(P.Remove(c, Known(Type)), k) == if k == Known(Type) then None else Get(c, k)
  {
    P.GetRemove(c, Known(Type), k);
  }

  lemma LoweringIs(fs: Fields)
    requires Distinct(fs) && L.Survives(fs)
    ensures var c := LowerConst(SanitizeFields(fs));
            Lowering(fs) == if L.TypesGiven(fs) != [] then LowerTyped(c, L.TypesGiven(fs)) else P.Remove(c, Known(Type))
  {
    SanitizedGet(fs, Known(Ref));
    L.GivenSame(fs);
    L.LowerIs(SanitizeFields(fs));
  }

  lemma LoweringGet(fs: Fields, k: Key)
    requires Distinct(fs) && L.Survives(fs)
    ensures Get(Lowering(fs), k) == LowerValue(fs, L.TypesGiven(fs), k)
  {
    var c, types := LowerConst(SanitizeFields(fs)), L.TypesGiven(fs);
    ConstGet(fs, k);
    LoweringIs(fs);
    if types != [] { TypedGet(c, types, k); } else { ReferringGet(c, k); }
  }

  /** `h` has the fields of the lowered `fs` in order; its definitions are left open. */
  ghost predicate FormOf(fs: Fields, types: seq<string>, h: Fields) {
    && (forall k :: Get(h, k) != Some(Null)) && (forall k :: Has(h, k) ==> IsField(k))
    && forall k :: !IsDefs(k) ==> Get(h, k) == Ordered(k, LowerValue(fs, types, k))
  }

  lemma SanitizeAtNull(k: Key, v: Json)
    ensures SanitizeAt(k, v) == Null <==> v == Null
  {
  }

  /** What is left of an object without a type. */
  lemma LeftOfReferring(fs: Fields, k: Key)
    ensures Ordered(k, ReferringValue(fs, k)).Some? <==> Leaves(fs, k)
  {
    if Has(fs, k) { SanitizeAtNull(k, Get(fs, k).value); }
  }

  lemma LeftOfFilled(fs: Fields, types: seq<string>, k: Key)
    requires Filled(types, k).Some?
    ensures Ordered(k, TypedValue(fs, types, k)).Some? <==> Get(fs, k) != Some(Null)
  {
    if Has(fs, k) { SanitizeAtNull(k, Get(fs, k).value); }
  }

  lemma TypeOfForm(fs: Fields, types: seq<string>, h: Fields)
    requires FormOf(fs, types, h) && types != []
    ensures Get(h, Known(Type)) == Some(TypeValue(types))
  {
    assert Ordered(Known(Type), Some(TypeValue(types))) == Some(TypeValue(types));
  }

  ghost predicate SettledFor(fs: Fields, types: seq<string>) {
    && ("object" in types ==> Get(fs, Known(Properties)) != Some(Null))
    && ("array" in types ==> Get(fs, Known(Items)) != Some(Null))
  }

  lemma TypesRead(fs: Fields, types: seq<string>)
    requires types != [] && Get(fs, Known(Type)) == Some(TypeValue(types))
    requires forall i :: 0 <= i < |types| ==> NativeName(types[i])
    ensures Types(fs) == types
  {
    L.NamesRoundTrip(types);
  }

  lemma TypedLasts(fs: Fields, types: seq<string>, h: Fields)
    requires FormOf(fs, types, h) && types != [] && forall i :: 0 <= i < |types| ==> NativeName(types[i])
    ensures L.LoweredHere(h) <==> SettledFor(fs, types)
  {
    TypeOfForm(fs, types, h);
    TypesRead(h, types);
    if "object" in types { LeftOfFilled(fs, types, Known(Properties)); }
    if "array" in types { LeftOfFilled(fs, types, Known(Items)); }
    TypedForm(h, types);
  }

  lemma TypedForm(h: Fields, types: seq<string>)
    requires types != [] && Types(h) == types && Get(h, Known(Type)) == Some(TypeValue(types))
    requires (forall k :: Get(h, k) != Some(Null)) && (forall k :: Has(h, k) ==> IsField(k))
    ensures L.LoweredHere(h) <==>
            ("object" in types ==> Has(h, Known(Properties))) && ("array" in types ==> Has(h, Known(Items)))
  {
    assert Has(h, Known(Type));
  }

  lemma LeftInForm(fs: Fields, h: Fields, k: Key)
    requires FormOf(fs, [], h) && !IsDefs(k)
    ensures Has(h, k) <==> Leaves(fs, k)
  {
    LeftOfReferring(fs, k);
  }

  lemma RefersLeft(fs: Fields, h: Fields)
    requires Has(h, Known(Ref)) <==> Leaves(fs, Known(Ref))
    requires Has(h, Known(AnyOf)) <==> Leaves(fs, Known(AnyOf))
    requires Has(h, Known(OneOf)) <==> Leaves(fs, Known(OneOf))
    requires Has(h, Known(AllOf)) <==> Leaves(fs, Known(AllOf))
    ensures Refers(h) <==> LiveRefers(fs)
  {
  }

  lemma ReferringLasts(fs: Fields, h: Fields)
    requires FormOf(fs, [], h)
    ensures L.LoweredHere(h) <==> LiveRefers(fs) || h.End?
  {
    LeftInForm(fs, h, Known(Ref));
    LeftInForm(fs, h, Known(AnyOf));
    LeftInForm(fs, h, Known(OneOf));
    LeftInForm(fs, h, Known(AllOf));
    LeftInForm(fs, h, Known(Type));
    RefersLeft(fs, h);
    UntypedForm(h);
  }

  lemma UntypedForm(h: Fields)
    requires !Has(h, Known(Type)) && forall k :: Has(h, k) ==> IsField(k)
    ensures L.LoweredHere(h) <==> Refers(h) || h.End?
  {
    assert Types(h) == [];
  }

  lemma EmptyFields(h: Fields)
    ensures h.End? <==> forall k :: !Has(h, k)
  {
    if h.Field? { FirstKey(h); }
  }

  // ----- The fields of one object ------------------------------------------------------

  /** The field holds schemas. */
  predicate HoldsSchemas(k: Key) {
    k == Known(Items) || k == Known(AdditionalProperties) || IsTable(k) || IsUnion(k)
  }

  /** The fields are the type alone. */
  ghost predicate OnlyType(h: Fields, text: string) {
    forall k :: Get(h, k) == if k == Known(Type) then Some(Str(text)) else None
  }

  lemma OnlyTypeLowered(h: Fields)
    requires OnlyType(h, "string")
    ensures L.Lowered(Obj(h))
  {
    assert Get(h, Known(Type)) == Some(Str("string"));
    assert Types(h) == ["string"];
    TypedForm(h, ["string"]);
    forall k ensures L.FieldLowered(h, k) { assert Has(h, k) ==> k == Known(Type); }
    L.LoweredByField(h);
  }

  lemma OrderedType(text: string)
    ensures OnlyType(Order(Obj(Field(Known(Type), Str(text), End))).fields, text)
  {
    var fs := Field(Known(Type), Str(text), End);
    forall k ensures Get(Order(Obj(fs)).fields, k) == if k == Known(Type) then Some(Str(text)) else None {
      OrderedGet(fs, k);
    }
  }

  lemma OrderedStringSchema()
    ensures L.Lowered(Order(STRING_SCHEMA))
  {
    OrderedType("string");
    OnlyTypeLowered(Order(STRING_SCHEMA).fields);
  }

  /** What lowering fills in is lowered, also in order. */
  lemma FilledLasts(types: seq<string>, k: Key)
    requires Filled(types, k).Some?
    ensures L.LoweredAt(k, OrderAt(k, Filled(types, k).value))
  {
    OrderedStringSchema();
    assert k == Known(Properties) ==> OrderAt(k, Filled(types, k).value) == Obj(End);
  }

  lemma LoweredValue(h: Fields, k: Key)
    requires Has(h, k) && !IsDefs(k)
    ensures L.LoweredField(h, k) <==> L.LoweredAt(k, Get(h, k).value)
  {
  }

  lemma FieldHolding(h: Fields, k: Key, value: Json)
    requires Get(h, k) == Some(value) && !IsDefs(k)
    ensures L.FieldLowered(h, k) <==> L.LoweredAt(k, value)
  {
    LoweredValue(h, k);
  }

  /** A child that is absent or null is gone, or filled in. */
  lemma DeadValue(fs: Fields, types: seq<string>, k: Key)
    requires HoldsSchemas(k) && Live(fs, k).None?
    ensures Ordered(k, LowerValue(fs, types, k)).None?
            || (Filled(types, k).Some? && LowerValue(fs, types, k) == Filled(types, k))
  {
    if Has(fs, k) { SanitizeAtNull(k, Get(fs, k).value); }
  }

  lemma NewField(fs: Fields, types: seq<string>, h: Fields, k: Key)
    requires FormOf(fs, types, h) && !IsDefs(k) && HoldsSchemas(k) && Has(h, k) && Live(fs, k).None?
    ensures L.FieldLowered(h, k)
  {
    DeadValue(fs, types, k);
    FilledLasts(types, k);
    FieldHolding(h, k, OrderAt(k, Filled(types, k).value));
  }

  lemma OrderedLive(k: Key, v: Json)
    requires IsField(k) && v != Null
    ensures Ordered(k, Some(v)) == Some(OrderAt(k, v))
  {
  }

  /** A live child of an object that survives is kept. */
  lemma LiveValue(fs: Fields, types: seq<string>, k: Key)
    requires HoldsSchemas(k) && Live(fs, k).Some? && (IsDefs(k) ==> Get(fs, k).value.Obj?)
    ensures LowerValue(fs, types, k) == Some(SanitizeAt(k, Get(fs, k).value))
    ensures SanitizeAt(k, Get(fs, k).value) != Null
  {
    SanitizeAtNull(k, Get(fs, k).value);
  }

  lemma FormAt(fs: Fields, types: seq<string>, h: Fields, k: Key)
    requires FormOf(fs, types, h) && !IsDefs(k)
    ensures Get(h, k) == Ordered(k, LowerValue(fs, types, k))
  {
  }

  lemma KeptAs(h: Fields, k: Key, lowered: Option<Json>, value: Json)
    requires Get(h, k) == Ordered(k, lowered) && lowered == Some(value) && value != Null && IsField(k)
    ensures Get(h, k) == Some(OrderAt(k, value))
  {
    OrderedLive(k, value);
  }

  lemma PlainField(h: Fields, k: Key)
    requires !HoldsSchemas(k) && (Has(h, k) ==> IsField(k))
    ensures L.FieldLowered(h, k)
  {
  }

  lemma NullLasts(fs: Fields, k: Key)
    requires Has(fs, k) && (Live(fs, k).None? || !HoldsSchemas(k))
    ensures LastingField(fs, k)
  {
  }

  lemma {:induction false} LiveFieldLasts(fs: Fields, h: Fields, k: Key, lowered: Json)
    requires WellFormed(Obj(fs)) && Live(fs, k).Some? && HoldsSchemas(k) && !IsDefs(k)
    requires lowered == SanitizeAt(k, Get(fs, k).value) && Get(h, k) == Some(OrderAt(k, lowered))
    ensures L.FieldLowered(h, k) <==> LastingField(fs, k)
    decreases FieldsSize(fs), 2
  {
    SizeOfGet(fs, k);
    WellFormedGet(fs, k);
    AtLasts(k, Get(fs, k).value);
    FieldHolding(h, k, OrderAt(k, lowered));
  }

  lemma DeadFieldLasts(fs: Fields, types: seq<string>, h: Fields, k: Key)
    requires FormOf(fs, types, h) && !IsDefs(k) && (Live(fs, k).None? || !HoldsSchemas(k))
    ensures L.FieldLowered(h, k) && (Has(fs, k) ==> LastingField(fs, k))
  {
    if Has(fs, k) { NullLasts(fs, k); }
    if !HoldsSchemas(k) { PlainField(h, k); }
    else if Has(h, k) { NewField(fs, types, h, k); }
  }

  lemma {:induction false} FieldLasts(fs: Fields, types: seq<string>, h: Fields, k: Key)
    requires WellFormed(Obj(fs)) && FormOf(fs, types, h) && !IsDefs(k)
    ensures L.FieldLowered(h, k) <==> (Has(fs, k) ==> LastingField(fs, k))
    decreases FieldsSize(fs), 3
  {
    if Live(fs, k).None? || !HoldsSchemas(k) {
      DeadFieldLasts(fs, types, h, k);
    } else {
      FormAt(fs, types, h, k);
      LiveValue(fs, types, k);
      var lowered := SanitizeAt(k, Get(fs, k).value);
      KeptAs(h, k, LowerValue(fs, types, k), lowered);
      LiveFieldLasts(fs, h, k, lowered);
    }
  }

  ghost predicate EntryLowered(fs: Fields, q: Key) {
    Has(fs, q) ==> L.Lowered(Get(fs, q).value)
  }

  lemma {:induction false} LoweredByKey(fs: Fields)
    requires Distinct(fs)
    ensures L.LoweredEntries(fs) <==> forall q :: EntryLowered(fs, q)
  {
    if fs.Field? {
      LoweredByKey(fs.rest);
      if L.LoweredEntries(fs) {
        forall q ensures EntryLowered(fs, q) { assert EntryLowered(fs.rest, q); }
      }
      if forall q :: EntryLowered(fs, q) {
        assert EntryLowered(fs, fs.key);
        forall q ensures EntryLowered(fs.rest, q) { assert EntryLowered(fs, q); }
      }
    }
  }

  /** The entries of a table in order, by name. */
  lemma OrderedTable(a: Fields)
    requires WellFormed(Obj(a))
    ensures var s := SortFields(OrderEntries(a));
            && (L.LoweredEntries(s) <==> forall q :: EntryLowered(s, q))
            && forall q :: EntryLowered(s, q) <==> (Has(a, q) ==> L.Lowered(Order(Get(a, q).value)))
  {
    var s := SortFields(OrderEntries(a));
    OrderEntriesWellFormed(a);
    SortWellFormed(OrderEntries(a));
    LoweredByKey(s);
    forall q ensures EntryLowered(s, q) <==> (Has(a, q) ==> L.Lowered(Order(Get(a, q).value))) { OrderedEntry(a, q); }
  }

  // ----- By structure ------------------------------------------------------------------

  lemma {:induction false} AtLasts(k: Key, v: Json)
    requires WellFormed(v) && HoldsSchemas(k)
    ensures L.LoweredAt(k, OrderAt(k, SanitizeAt(k, v))) <==> LastingAt(k, v)
    decreases Size(v), 1
  {
    if k == Known(Items) || (k == Known(AdditionalProperties) && !v.Bool?) {
      Lasts(v);
    } else if IsTable(k) && v.Obj? {
      TableLasts(v.fields);
    } else if IsUnion(k) && v.Arr? {
      ListLasts(v.items);
    }
  }

  lemma {:induction false} TableLasts(fs: Fields)
    requires WellFormed(Obj(fs))
    ensures L.LoweredEntries(SortFields(OrderEntries(SanitizeEntries(fs)))) <==> LastingEntries(fs)
    decreases FieldsSize(fs), 2
  {
    var s := SortFields(OrderEntries(SanitizeEntries(fs)));
    SanitizeEntriesWellFormed(fs);
    OrderedTable(SanitizeEntries(fs));
    forall q ensures EntryLowered(s, q) <==> (Has(fs, q) ==> LastingEntry(fs, q)) {
      GetSanitizeEntries(fs, q);
      if Has(fs, q) {
        SizeOfGet(fs, q);
        WellFormedGet(fs, q);
        Lasts(Get(fs, q).value);
      }
    }
  }

  lemma {:induction false} ListLasts(l: JsonList)
    requires WellFormedList(l)
    ensures L.LoweredList(OrderList(SanitizeList(l))) <==> LastingList(l)
    decreases ListSize(l), 2
  {
    if l.Cons? {
      Lasts(l.head);
      ListLasts(l.tail);
    }
  }

  lemma OrderedFormAt(fs: Fields, k: Key)
    requires WellFormed(Obj(fs)) && L.Survives(fs)
    ensures Get(Order(Sanitize(Obj(fs))).fields, k) == Ordered(k, LowerValue(fs, L.TypesGiven(fs), k))
  {
    SanitizeWellFormed(Obj(fs));
    OrderedGet(Lowering(fs), k);
    LoweringGet(fs, k);
  }

  lemma OrderedForm(fs: Fields)
    requires WellFormed(Obj(fs)) && L.Survives(fs)
    ensures FormOf(fs, L.TypesGiven(fs), Order(Sanitize(Obj(fs))).fields)
  {
    var h, types := Order(Sanitize(Obj(fs))).fields, L.TypesGiven(fs);
    forall k ensures Get(h, k) == Ordered(k, LowerValue(fs, types, k)) { OrderedFormAt(fs, k); }
  }

  lemma OrderedEmpty()
    ensures Order(Obj(End)) == Obj(End)
  {
    forall k ensures !Has(Order(Obj(End)).fields, k) { OrderedGet(End, k); }
    EmptyFields(Order(Obj(End)).fields);
  }

  lemma GoneForm(fs: Fields)
    requires WellFormed(Obj(fs)) && !L.Survives(fs)
    ensures Order(Sanitize(Obj(fs))) == Obj(End) && Sanitize(Obj(fs)) == Obj(End)
  {
    GetSanitizeFields(fs, Known(Ref));
    L.GivenSame(fs);
    L.LowerIs(SanitizeFields(fs));
    OrderedEmpty();
  }

  lemma EmptyLowered()
    ensures L.Lowered(Obj(End))
  {
  }

  lemma AllNativeGiven(fs: Fields)
    ensures forall i :: 0 <= i < |L.TypesGiven(fs)| ==> NativeName(L.TypesGiven(fs)[i])
  {
    forall i | 0 <= i < |L.TypesGiven(fs)| ensures NativeName(L.TypesGiven(fs)[i]) { L.GivenAreNative(fs, i); }
  }

  lemma NestedHere(fs: Fields)
    requires WellFormed(Obj(fs)) && L.Survives(fs)
    ensures L.LoweredHere(Order(Sanitize(Obj(fs))).fields) <==>
            if L.TypesGiven(fs) != [] then L.SettledHere(fs) else LiveRefers(fs) || LeavesNothing(fs)
  {
    var h := Order(Sanitize(Obj(fs))).fields;
    OrderedForm(fs);
    if L.TypesGiven(fs) != [] {
      AllNativeGiven(fs);
      TypedLasts(fs, L.TypesGiven(fs), h);
    } else {
      ReferringLasts(fs, h);
      EmptyFields(h);
      forall k ensures Has(h, k) <==> Leaves(fs, k) {
        OrderedFormAt(fs, k);
        LeftOfReferring(fs, k);
      }
    }
  }

  /** The definitions of a lowered object. */
  lemma DefsLowered(fs: Fields, k: Key)
    requires Distinct(fs) && L.Survives(fs) && IsDefs(k)
    ensures Get(Lowering(fs), k) ==
            if Has(fs, k) && Get(fs, k).value.Obj? then Some(SanitizeAt(k, Get(fs, k).value)) else None
  {
    LoweringGet(fs, k);
    if Has(fs, k) && Get(fs, k).value.Obj? { LiveValue(fs, L.TypesGiven(fs), k); }
  }

  lemma TableAt(k: Key, entries: Fields)
    requires IsTable(k)
    ensures L.LoweredAt(k, Obj(entries)) <==> L.LoweredEntries(entries)
  {
  }

  lemma TableValue(h: Fields, k: Key)
    requires Has(h, k) && Get(h, k).value.Obj?
    ensures L.LoweredField(h, k) <==> L.LoweredAt(k, Get(h, k).value)
  {
  }

  lemma TableField(h: Fields, k: Key, entries: Fields)
    requires IsTable(k) && Get(h, k) == Some(Obj(entries))
    ensures L.FieldLowered(h, k) <==> L.LoweredEntries(entries)
  {
    TableValue(h, k);
    TableAt(k, entries);
  }

  lemma OrderedTableValue(k: Key, entries: Fields)
    requires IsTable(k)
    ensures Ordered(k, Some(SanitizeAt(k, Obj(entries)))) ==
            Some(Obj(SortFields(OrderEntries(SanitizeEntries(entries)))))
  {
    OrderedEntries(k, SanitizeEntries(entries));
  }

  lemma LastingTable(fs: Fields, k: Key)
    requires IsTable(k) && Has(fs, k)
    ensures LastingField(fs, k) <==> (Get(fs, k).value.Obj? ==> LastingEntries(Get(fs, k).value.fields))
  {
  }

  lemma {:induction false} DefsLast(fs: Fields, k: Key)
    requires WellFormed(Obj(fs)) && L.Survives(fs) && IsDefs(k)
    ensures L.FieldLowered(Order(Sanitize(Obj(fs))).fields, k) <==> (Has(fs, k) ==> LastingField(fs, k))
    decreases FieldsSize(fs), 3
  {
    SanitizeWellFormed(Obj(fs));
    DefsLowered(fs, k);
    OrderedGet(Lowering(fs), k);
    if Has(fs, k) {
      LastingTable(fs, k);
      if Get(fs, k).value.Obj? {
        var entries := Get(fs, k).value.fields;
        SizeOfGet(fs, k);
        WellFormedGet(fs, k);
        OrderedTableValue(k, entries);
        TableField(Order(Sanitize(Obj(fs))).fields, k, SortFields(OrderEntries(SanitizeEntries(entries))));
        TableLasts(entries);
      }
    }
  }

  lemma {:induction false} NestedFields(fs: Fields)
    requires WellFormed(Obj(fs)) && L.Survives(fs)
    ensures L.AllLowered(Order(Sanitize(Obj(fs))).fields) <==> forall k :: Has(fs, k) ==> LastingField(fs, k)
    decreases FieldsSize(fs), 4
  {
    var h := Order(Sanitize(Obj(fs))).fields;
    OrderedForm(fs);
    forall k ensures L.FieldLowered(h, k) <==> (Has(fs, k) ==> LastingField(fs, k)) {
      if IsDefs(k) { DefsLast(fs, k); } else { FieldLasts(fs, L.TypesGiven(fs), h, k); }
    }
  }

  /** Lowered and ordered, a nested schema is lowered exactly if it lasts. */
  lemma {:induction false} Lasts(v: Json)
    requires WellFormed(v)
    ensures L.Lowered(Order(Sanitize(v))) <==> Lasting(v)
    decreases Size(v), 0
  {
    if v.Bool? {
      L.StringSchemaLowered();
      L.LowerFixes(STRING_SCHEMA.fields);
      OrderedStringSchema();
    } else if v.Obj? {
      if L.Survives(v.fields) {
        NestedHere(v.fields);
        NestedFields(v.fields);
        L.LoweredByField(Order(Sanitize(v)).fields);
      } else {
        GoneForm(v.fields);
        EmptyLowered();
      }
    }
  }

  // ----- The whole schema --------------------------------------------------------------

  /** The pruned lowered schema, and the fields of the form. */
  lemma RootForm(decode: P.Decode, fs: Fields) returns (x: Fields)
    requires WellFormed(Obj(fs))
    ensures P.Prune(decode, Sanitize(Obj(fs))) == Obj(x) && WellFormed(Obj(x)) && Shadows(x, Lowering(fs))
    ensures L.Survives(fs) ==> FormOf(fs, L.TypesGiven(fs), Order(Obj(x)).fields)
  {
    var w := Lowering(fs);
    SanitizeWellFormed(Obj(fs));
    PruneShadows(decode, w);
    P.PruneWellFormed(decode, Obj(w));
    x := P.Prune(decode, Obj(w)).fields;
    if L.Survives(fs) { ShadowForm(fs, x); }
  }

  lemma ShadowForm(fs: Fields, x: Fields)
    requires Distinct(fs) && L.Survives(fs) && Shadows(x, Lowering(fs))
    ensures FormOf(fs, L.TypesGiven(fs), Order(Obj(x)).fields)
  {
    forall k ensures Get(Order(Obj(x)).fields, k) == Ordered(k, Get(x, k)) { OrderedGet(x, k); }
    forall k | !IsDefs(k) ensures Get(x, k) == LowerValue(fs, L.TypesGiven(fs), k) { LoweringGet(fs, k); }
  }

  ghost predicate DeadButDefinitions(w: Fields) {
    forall k :: IsField(k) && !IsDefs(k) ==> Live(w, k).None?
  }

  lemma DeadField(decode: P.Decode, w: Fields, k: Key)
    requires DeadButDefinitions(w) && IsField(k) && !IsDefs(k)
    ensures P.CollectTable(decode, w, k, false) == [] && P.CollectChild(decode, w, k, false) == []
    ensures P.CollectUnion(decode, w, k, false) == [] && (k == Known(Ref) ==> P.RefTarget(decode, w).None?)
  {
    assert Live(w, k).None?;
  }

  /** Without live fields there is no reference, so nothing is reached. */
  lemma NothingCollected(decode: P.Decode, w: Fields)
    requires DeadButDefinitions(w)
    ensures P.Collect(decode, Obj(w), false) == []
  {
    DeadField(decode, w, Known(Ref));
    DeadField(decode, w, Known(Properties));
    DeadField(decode, w, Known(Items));
    DeadField(decode, w, Known(AdditionalProperties));
    DeadField(decode, w, Known(AnyOf));
    DeadField(decode, w, Known(OneOf));
    DeadField(decode, w, Known(AllOf));
  }

  lemma NothingReached(decode: P.Decode, w: Json, r: P.TableRef)
    requires P.Collect(decode, w, false) == []
    ensures !P.Reachable(decode, w, r)
  {
  }

  lemma NoDefinitions(decode: P.Decode, w: Fields, x: Fields, t: P.Table)
    requires WellFormed(Obj(w)) && P.Prune(decode, Obj(w)) == Obj(x) && WellFormed(Obj(x))
    requires P.Collect(decode, Obj(w), false) == []
    requires Get(w, P.TableKey(t)).Some? ==> Get(w, P.TableKey(t)).value.Obj?
    requires TableShadows(Get(x, P.TableKey(t)), Get(w, P.TableKey(t)))
    ensures !Has(x, P.TableKey(t))
  {
    var k := P.TableKey(t);
    if Has(x, k) {
      P.PruneIdempotent(decode, Obj(w));
      PruneFixed(decode, Obj(x));
      var entries := Get(x, k).value.fields;
      var r := P.TableRef(t, entries.key);
      FirstKey(entries);
      P.PruneIsExact(decode, Obj(w), r, Known(Ref));
      NothingReached(decode, Obj(w), r);
    }
  }

  lemma DeadLowering(fs: Fields)
    requires Distinct(fs) && L.TypesGiven(fs) == [] && Refers(fs) && LeavesOnlyDefinitions(fs)
    ensures DeadButDefinitions(Lowering(fs))
  {
    forall k | IsField(k) && !IsDefs(k) ensures Live(Lowering(fs), k).None? {
      assert !Leaves(fs, k);
      LoweringGet(fs, k);
      LeftOfReferring(fs, k);
      NothingLive(k, Lowering(fs));
    }
  }

  lemma NothingLive(k: Key, w: Fields)
    requires IsField(k) && Ordered(k, Get(w, k)).None?
    ensures Live(w, k).None?
  {
  }

  lemma NoTableLeft(decode: P.Decode, w: Fields, x: Fields, t: P.Table)
    requires WellFormed(Obj(w)) && DeadButDefinitions(w)
    requires P.Prune(decode, Obj(w)) == Obj(x) && WellFormed(Obj(x)) && Shadows(x, w)
    requires Get(w, P.TableKey(t)).Some? ==> Get(w, P.TableKey(t)).value.Obj?
    ensures !Has(Order(Obj(x)).fields, P.TableKey(t))
  {
    NothingCollected(decode, w);
    assert TableShadows(Get(x, P.TableKey(t)), Get(w, P.TableKey(t)));
    NoDefinitions(decode, w, x, t);
    OrderedGet(x, P.TableKey(t));
  }

  lemma NoDefinitionsLeft(decode: P.Decode, fs: Fields, x: Fields, t: P.Table)
    requires WellFormed(Obj(fs)) && L.TypesGiven(fs) == [] && Refers(fs) && LeavesOnlyDefinitions(fs)
    requires P.Prune(decode, Sanitize(Obj(fs))) == Obj(x) && WellFormed(Obj(x)) && Shadows(x, Lowering(fs))
    ensures !Has(Order(Obj(x)).fields, P.TableKey(t))
  {
    DeadLowering(fs);
    SanitizeWellFormed(Obj(fs));
    DefsLowered(fs, P.TableKey(t));
    NoTableLeft(decode, Lowering(fs), x, t);
  }

  lemma RootIsEmpty(decode: P.Decode, fs: Fields, x: Fields)
    requires WellFormed(Obj(fs)) && L.TypesGiven(fs) == [] && Refers(fs)
    requires P.Prune(decode, Sanitize(Obj(fs))) == Obj(x) && WellFormed(Obj(x)) && Shadows(x, Lowering(fs))
    requires FormOf(fs, L.TypesGiven(fs), Order(Obj(x)).fields)
    ensures Order(Obj(x)).fields.End? <==> LeavesOnlyDefinitions(fs)
  {
    var h := Order(Obj(x)).fields;
    forall k | !IsDefs(k) ensures Has(h, k) <==> Leaves(fs, k) { LeftInForm(fs, h, k); }
    if LeavesOnlyDefinitions(fs) {
      NoDefinitionsLeft(decode, fs, x, P.DefsTable);
      NoDefinitionsLeft(decode, fs, x, P.DefinitionsTable);
    }
    EmptyExactly(fs, h);
  }

  lemma EmptyExactly(fs: Fields, h: Fields)
    requires forall k :: !IsDefs(k) ==> (Has(h, k) <==> Leaves(fs, k))
    requires LeavesOnlyDefinitions(fs) ==> !Has(h, Known(Defs)) && !Has(h, Known(Definitions))
    ensures h.End? <==> LeavesOnlyDefinitions(fs)
  {
    EmptyFields(h);
  }

  lemma RootHereLasts(decode: P.Decode, fs: Fields, x: Fields)
    requires WellFormed(Obj(fs)) && L.Survives(fs)
    requires P.Prune(decode, Sanitize(Obj(fs))) == Obj(x) && WellFormed(Obj(x)) && Shadows(x, Lowering(fs))
    requires FormOf(fs, L.TypesGiven(fs), Order(Obj(x)).fields)
    ensures L.LoweredHere(Order(Obj(x)).fields) <==> RootHere(fs)
  {
    if L.TypesGiven(fs) != [] {
      AllNativeGiven(fs);
      TypedLasts(fs, L.TypesGiven(fs), Order(Obj(x)).fields);
    } else {
      ReferringLasts(fs, Order(Obj(x)).fields);
      RootIsEmpty(decode, fs, x);
    }
  }

  // ----- The definitions of the whole schema -------------------------------------------

  lemma LoweredDefinition(fs: Fields, r: P.TableRef)
    requires Distinct(fs) && L.Survives(fs)
    ensures P.Lookup(Obj(Lowering(fs)), r) ==
            if P.Lookup(Obj(fs), r).Some? then Some(Sanitize(P.Lookup(Obj(fs), r).value)) else None
  {
    var k := P.TableKey(r.table);
    DefsLowered(fs, k);
    if Has(fs, k) && Get(fs, k).value.Obj? { GetSanitizeEntries(Get(fs, k).value.fields, r.name); }
  }

  /** A definition that is kept is the lowered one. */
  lemma KeptDefinition(decode: P.Decode, fs: Fields, x: Fields, r: P.TableRef)
    requires WellFormed(Obj(fs)) && L.Survives(fs) && P.Prune(decode, Sanitize(Obj(fs))) == Obj(x)
    ensures P.Lookup(Obj(x), r) ==
            if P.Lookup(Obj(fs), r).Some? && P.Reachable(decode, Sanitize(Obj(fs)), r)
            then Some(Sanitize(P.Lookup(Obj(fs), r).value)) else None
  {
    SanitizeWellFormed(Obj(fs));
    P.PruneIsExact(decode, Sanitize(Obj(fs)), r, Known(Ref));
    LoweredDefinition(fs, r);
  }

  lemma RootEntry(x: Fields, t: P.Table, entries: Fields, q: Key)
    requires WellFormed(Obj(entries)) && Get(x, P.TableKey(t)) == Some(Obj(entries))
    ensures EntryLowered(SortFields(OrderEntries(entries)), q) <==> DefinitionLowered(x, P.TableRef(t, q))
  {
    OrderedEntry(entries, q);
  }

  lemma OrderedEntries(k: Key, entries: Fields)
    requires IsTable(k)
    ensures Ordered(k, Some(Obj(entries))) == Some(Obj(SortFields(OrderEntries(entries))))
  {
  }

  lemma OrderedRootTable(x: Fields, t: P.Table, entries: Fields)
    requires Distinct(x) && Get(x, P.TableKey(t)) == Some(Obj(entries))
    ensures Get(Order(Obj(x)).fields, P.TableKey(t)) == Some(Obj(SortFields(OrderEntries(entries))))
  {
    OrderedGet(x, P.TableKey(t));
    OrderedEntries(P.TableKey(t), entries);
  }

  ghost predicate TableOfFormLowered(x: Fields, t: P.Table) {
    forall q :: DefinitionLowered(x, P.TableRef(t, q))
  }

  lemma RootTableEntries(x: Fields, t: P.Table, entries: Fields)
    requires WellFormed(Obj(entries)) && Get(x, P.TableKey(t)) == Some(Obj(entries))
    ensures L.LoweredEntries(SortFields(OrderEntries(entries))) <==> TableOfFormLowered(x, t)
  {
    var s := SortFields(OrderEntries(entries));
    OrderedTable(entries);
    forall q ensures EntryLowered(s, q) <==> DefinitionLowered(x, P.TableRef(t, q)) { RootEntry(x, t, entries, q); }
  }

  lemma RootTable(x: Fields, t: P.Table)
    requires WellFormed(Obj(x)) && (Has(x, P.TableKey(t)) ==> Get(x, P.TableKey(t)).value.Obj?)
    ensures L.FieldLowered(Order(Obj(x)).fields, P.TableKey(t)) <==> TableOfFormLowered(x, t)
  {
    var k := P.TableKey(t);
    if Has(x, k) {
      var entries := Get(x, k).value.fields;
      WellFormedGet(x, k);
      OrderedRootTable(x, t, entries);
      TableField(Order(Obj(x)).fields, k, SortFields(OrderEntries(entries)));
      RootTableEntries(x, t, entries);
    } else {
      OrderedGet(x, k);
    }
  }

  ghost predicate DefinitionLowered(x: Fields, r: P.TableRef) {
    P.Lookup(Obj(x), r).Some? ==> L.Lowered(Order(P.Lookup(Obj(x), r).value))
  }

  lemma DefinitionLasts(decode: P.Decode, fs: Fields, x: Fields, r: P.TableRef)
    requires WellFormed(Obj(fs)) && L.Survives(fs) && P.Prune(decode, Sanitize(Obj(fs))) == Obj(x)
    ensures DefinitionLowered(x, r) <==> LastingDefinition(decode, Obj(fs), r)
  {
    KeptDefinition(decode, fs, x, r);
    if P.Lookup(Obj(fs), r).Some? {
      R.LookupWellFormed(Obj(fs), r);
      Lasts(P.Lookup(Obj(fs), r).value);
    }
  }

  lemma TablesOfRoot(fs: Fields, x: Fields, t: P.Table)
    requires Distinct(fs) && L.Survives(fs) && Shadows(x, Lowering(fs))
    ensures Has(x, P.TableKey(t)) ==> Get(x, P.TableKey(t)).value.Obj?
  {
    DefsLowered(fs, P.TableKey(t));
    assert TableShadows(Get(x, P.TableKey(t)), Get(Lowering(fs), P.TableKey(t)));
  }

  lemma TableOfRootLasts(decode: P.Decode, fs: Fields, x: Fields, t: P.Table)
    requires WellFormed(Obj(fs)) && L.Survives(fs) && WellFormed(Obj(x)) && Shadows(x, Lowering(fs))
    requires P.Prune(decode, Sanitize(Obj(fs))) == Obj(x)
    ensures L.FieldLowered(Order(Obj(x)).fields, P.TableKey(t)) <==> TableLasting(decode, Obj(fs), t)
  {
    TablesOfRoot(fs, x, t);
    RootTable(x, t);
    forall q ensures DefinitionLowered(x, P.TableRef(t, q)) <==> LastingDefinition(decode, Obj(fs), P.TableRef(t, q)) {
      DefinitionLasts(decode, fs, x, P.TableRef(t, q));
    }
  }

  ghost predicate PlainLowered(h: Fields) {
    forall k :: !IsDefs(k) ==> L.FieldLowered(h, k)
  }

  lemma PlainFieldsLast(fs: Fields, types: seq<string>, h: Fields)
    requires WellFormed(Obj(fs)) && FormOf(fs, types, h)
    ensures PlainLowered(h) <==> PlainLasting(fs)
  {
    forall k | !IsDefs(k) ensures L.FieldLowered(h, k) <==> (Has(fs, k) ==> LastingField(fs, k)) {
      FieldLasts(fs, types, h, k);
    }
  }

  lemma AllFields(h: Fields)
    ensures L.AllLowered(h) <==>
            PlainLowered(h) && L.FieldLowered(h, Known(Defs)) && L.FieldLowered(h, Known(Definitions))
  {
  }

  lemma RootFields(decode: P.Decode, fs: Fields, x: Fields)
    requires WellFormed(Obj(fs)) && L.Survives(fs) && WellFormed(Obj(x)) && Shadows(x, Lowering(fs))
    requires P.Prune(decode, Sanitize(Obj(fs))) == Obj(x) && FormOf(fs, L.TypesGiven(fs), Order(Obj(x)).fields)
    ensures L.AllLowered(Order(Obj(x)).fields) <==>
            && PlainLasting(fs)
            && TableLasting(decode, Obj(fs), P.DefsTable) && TableLasting(decode, Obj(fs), P.DefinitionsTable)
  {
    PlainFieldsLast(fs, L.TypesGiven(fs), Order(Obj(x)).fields);
    TableOfRootLasts(decode, fs, x, P.DefsTable);
    TableOfRootLasts(decode, fs, x, P.DefinitionsTable);
    AllFields(Order(Obj(x)).fields);
  }

  // ----- The form ----------------------------------------------------------------------

  /** The form of a schema that is not valid is lowered exactly if the schema lasts. */
  lemma FormLasts(decode: P.Decode, v: Json)
    requires WellFormed(v) && !Valid(v)
    ensures L.Lowered(CanonicalForm(decode, v)) <==> LastingRoot(decode, v)
  {
    if v.Obj? {
      var fs := v.fields;
      var x := RootForm(decode, fs);
      if L.Survives(fs) {
        RootHereLasts(decode, fs, x);
        RootFields(decode, fs, x);
        L.LoweredByField(Order(Obj(x)).fields);
      } else {
        GoneForm(fs);
        P.PruneIsExact(decode, Obj(End), P.TableRef(P.DefsTable, Known(Ref)), Known(Ref));
        EmptyLowered();
      }
    } else if v.Bool? {
      L.StringSchemaLowered();
      L.LowerFixes(STRING_SCHEMA.fields);
      OrderedStringSchema();
    }
  }
}
