/** Which canonical forms are stable, and that a second pass always gives a stable one. */
module SchemaStability {
  import opened Domain
  import opened Json
  import opened SchemaValid
  import opened SchemaOrder
  import opened SchemaEquivalence
  import opened SchemaSanitize
  import opened SchemaCanonical
  import opened SchemaPruned
  import opened SchemaLasting
  import P = SchemaPrune
  import L = SchemaLowered

  // ----- Schemas in order --------------------------------------------------------------

  /** Every field of an ordered object is the ordered value of a field. */
  lemma OrderedField(fs: Fields, k: Key)
    requires Distinct(fs) && Has(Order(Obj(fs)).fields, k)
    ensures Live(fs, k).Some? && IsField(k)
    ensures Get(Order(Obj(fs)).fields, k) == Some(OrderAt(k, Get(fs, k).value))
  {
    OrderedGet(fs, k);
  }

  lemma NoNullsHere(h: Fields)
    requires forall k :: Get(h, k) != Some(Null)
    ensures L.SettledHere(h) && (Refers(h) ==> LiveRefers(h))
  {
  }

  lemma OrderedHere(fs: Fields)
    requires Distinct(fs)
    ensures var h := Order(Obj(fs)).fields; L.SettledHere(h) && (Refers(h) ==> LiveRefers(h))
  {
    forall k ensures Get(Order(Obj(fs)).fields, k) != Some(Null) { OrderedGet(fs, k); }
    NoNullsHere(Order(Obj(fs)).fields);
  }

  /** An ordered schema has no nulls, so it lasts. */
  lemma {:induction false} OrderLasts(v: Json)
    requires WellFormed(v)
    ensures Lasting(Order(v))
    decreases Size(v), 0
  {
    if v.Obj? {
      var h := Order(v).fields;
      OrderedHere(v.fields);
      forall k | Has(h, k) ensures LastingField(h, k) { OrderFieldLasts(v.fields, k); }
    }
  }

  lemma {:induction false} OrderFieldLasts(fs: Fields, k: Key)
    requires WellFormed(Obj(fs)) && Has(Order(Obj(fs)).fields, k)
    ensures LastingField(Order(Obj(fs)).fields, k)
    decreases FieldsSize(fs), 3
  {
    OrderedField(fs, k);
    SizeOfGet(fs, k);
    WellFormedGet(fs, k);
    OrderAtLasts(k, Get(fs, k).value);
  }

  lemma {:induction false} OrderAtLasts(k: Key, v: Json)
    requires WellFormed(v)
    ensures LastingAt(k, OrderAt(k, v))
    decreases Size(v), 1
  {
    if k == Known(Items) || k == Known(AdditionalProperties) {
      OrderLasts(v);
    } else if IsTable(k) && v.Obj? {
      OrderTableLasts(v.fields);
    } else if IsUnion(k) && v.Arr? {
      OrderListLasts(v.items);
    }
  }

  lemma {:induction false} OrderTableLasts(fs: Fields)
    requires WellFormed(Obj(fs))
    ensures LastingEntries(SortFields(OrderEntries(fs)))
    decreases FieldsSize(fs), 2
  {
    var s := SortFields(OrderEntries(fs));
    forall q | Has(s, q) ensures LastingEntry(s, q) {
      OrderedEntry(fs, q);
      SizeOfGet(fs, q);
      WellFormedGet(fs, q);
      OrderLasts(Get(fs, q).value);
    }
  }

  lemma {:induction false} OrderListLasts(l: JsonList)
    requires WellFormedList(l)
    ensures LastingList(OrderList(l))
    decreases ListSize(l), 2
  {
    if l.Cons? {
      OrderLasts(l.head);
      OrderListLasts(l.tail);
    }
  }

  lemma LastingDefinitionOf(decode: P.Decode, fs: Fields, r: P.TableRef)
    requires forall k :: Has(fs, k) ==> LastingField(fs, k)
    ensures LastingDefinition(decode, Obj(fs), r)
  {
    var k := P.TableKey(r.table);
    if P.Lookup(Obj(fs), r).Some? {
      LastingTable(fs, k);
      assert LastingEntry(Get(fs, k).value.fields, r.name);
    }
  }

  /** What lasts as a nested schema lasts as a whole one. */
  lemma LastingAsRoot(decode: P.Decode, v: Json)
    requires Lasting(v)
    ensures LastingRoot(decode, v)
  {
    if v.Obj? && L.Survives(v.fields) {
      forall q ensures LastingDefinition(decode, v, P.TableRef(P.DefsTable, q)) {
        LastingDefinitionOf(decode, v.fields, P.TableRef(P.DefsTable, q));
      }
      forall q ensures LastingDefinition(decode, v, P.TableRef(P.DefinitionsTable, q)) {
        LastingDefinitionOf(decode, v.fields, P.TableRef(P.DefinitionsTable, q));
      }
    }
  }

  // ----- Stability ---------------------------------------------------------------------

  /** The form of a schema in order that is not valid is lowered. */
  lemma FormOfOrdered(decode: P.Decode, c: Json)
    requires WellFormed(c) && Order(c) == c && !Valid(c)
    ensures L.Lowered(CanonicalForm(decode, c))
  {
    OrderLasts(c);
    LastingAsRoot(decode, c);
    FormLasts(decode, c);
  }

  lemma FormInOrder(decode: P.Decode, v: Json)
    requires WellFormed(v)
    ensures var c := CanonicalForm(decode, v); WellFormed(c) && Order(c) == c
  {
    var x := CanonicalIsOrdered(decode, v);
    OrderWellFormed(x);
    OrderIdempotent(x);
  }

  /** Canonicalising leaves a schema alone exactly if it is in order and either valid, or lowered with only reachable
      definitions. */
  lemma FixedForms(decode: P.Decode, c: Json)
    requires WellFormed(c)
    ensures CanonicalForm(decode, c) == c <==> Order(c) == c && (Valid(c) || (L.Lowered(c) && OnlyReachable(decode, c)))
  {
    PruneFixed(decode, c);
    if CanonicalForm(decode, c) == c {
      FormInOrder(decode, c);
      if !Valid(c) {
        FormOfOrdered(decode, c);
        FormReachable(decode, c);
      }
    }
    if L.Lowered(c) { L.FixedPointsAreLowered(c); }
  }

  /** Canonicalising twice is canonicalising once exactly if the form is valid or lowered. */
  lemma CanonicalTwice(decode: P.Decode, v: Json)
    requires WellFormed(v)
    ensures var c := CanonicalForm(decode, v); CanonicalForm(decode, c) == c <==> Valid(c) || L.Lowered(c)
  {
    FormInOrder(decode, v);
    FixedForms(decode, CanonicalForm(decode, v));
    if Valid(v) { OrderValid(v); } else { FormReachable(decode, v); }
  }

  /** The same as a condition on the schema: the form is stable exactly if it is valid or the schema lasts. */
  lemma StableExactly(decode: P.Decode, v: Json)
    requires WellFormed(v)
    ensures var c := CanonicalForm(decode, v);
            CanonicalForm(decode, c) == c <==> Valid(c) || LastingRoot(decode, v)
  {
    CanonicalTwice(decode, v);
    if Valid(v) { OrderValid(v); } else { FormLasts(decode, v); }
  }

  /** Whatever the schema, the second form is stable. */
  lemma TwoPassesSuffice(decode: P.Decode, v: Json)
    requires WellFormed(v)
    ensures var c := CanonicalForm(decode, CanonicalForm(decode, v)); CanonicalForm(decode, c) == c
  {
    var c := CanonicalForm(decode, v);
    FormInOrder(decode, v);
    CanonicalTwice(decode, c);
    if Valid(c) { OrderValid(c); } else { FormOfOrdered(decode, c); }
  }

  // ----- Two ways to be unstable -------------------------------------------------------

  /** A description that is not text keeps a schema invalid. */
  ghost predicate BadlyDescribed(fs: Fields) {
    Get(fs, Known(Description)) == Some(Bool(true))
  }

  lemma DescriptionInvalid(fs: Fields)
    requires BadlyDescribed(fs)
    ensures !Valid(Obj(fs))
  {
    if Valid(Obj(fs)) { ValidGet(fs, Known(Description)); }
  }

  lemma DescriptionOrdered(fs: Fields, types: seq<string>, h: Fields)
    requires FormOf(fs, types, h) && BadlyDescribed(fs)
    ensures BadlyDescribed(h)
  {
    assert LowerValue(fs, types, Known(Description)) == Some(Bool(true));
    OrderedLive(Known(Description), Bool(true));
  }

  lemma DescriptionStays(decode: P.Decode, fs: Fields)
    requires WellFormed(Obj(fs)) && L.Survives(fs) && BadlyDescribed(fs)
    ensures CanonicalForm(decode, Obj(fs)).Obj? && BadlyDescribed(CanonicalForm(decode, Obj(fs)).fields)
  {
    DescriptionInvalid(fs);
    var x := RootForm(decode, fs);
    DescriptionOrdered(fs, L.TypesGiven(fs), Order(Obj(x)).fields);
  }

  lemma UnstableForm(decode: P.Decode, fs: Fields)
    requires WellFormed(Obj(fs)) && L.Survives(fs) && BadlyDescribed(fs) && !LastingRoot(decode, Obj(fs))
    ensures CanonicalForm(decode, CanonicalForm(decode, Obj(fs))) != CanonicalForm(decode, Obj(fs))
  {
    DescriptionStays(decode, fs);
    DescriptionInvalid(CanonicalForm(decode, Obj(fs)).fields);
    StableExactly(decode, Obj(fs));
  }

  /** `{"type":"object","description":true}` with some more fields, in any order. */
  ghost predicate DescribedObject(fs: Fields) {
    && WellFormed(Obj(fs)) && !Has(fs, Known(Const)) && BadlyDescribed(fs)
    && Get(fs, Known(Type)) == Some(Str("object"))
  }

  lemma DescribedGiven(fs: Fields)
    requires DescribedObject(fs)
    ensures LowerConst(fs) == fs && L.TypesGiven(fs) == ["object"]
  {
    assert Types(fs) == ["object"];
  }

  /** A null that kept `properties` from being filled in is gone the second time, so the second form differs. */
  lemma NullPropertiesAreNotStable(decode: P.Decode, fs: Fields)
    requires DescribedObject(fs) && Get(fs, Known(Properties)) == Some(Null)
    ensures CanonicalForm(decode, CanonicalForm(decode, Obj(fs))) != CanonicalForm(decode, Obj(fs))
  {
    DescribedGiven(fs);
    assert !L.SettledHere(fs);
    UnstableForm(decode, fs);
  }

  /** Such a schema, written out. */
  lemma InvalidFormIsNotStable(decode: P.Decode)
    ensures var v := Obj(Field(Known(Type), Str("object"),
                               Field(Known(Properties), Null, Field(Known(Description), Bool(true), End))));
            CanonicalForm(decode, CanonicalForm(decode, v)) != CanonicalForm(decode, v)
  {
    var rest := Field(Known(Properties), Null, Field(Known(Description), Bool(true), End));
    var fs := Field(Known(Type), Str("object"), rest);
    assert Get(rest.rest, Known(Description)) == Some(Bool(true)) && !Has(rest.rest, Known(Const));
    NullPropertiesAreNotStable(decode, fs);
  }

  /** `{"$ref":null,"enum":[]}`, in any order: the null reference keeps lowering from giving a type. */
  ghost predicate NullReference(a: Fields) {
    && Distinct(a) && WellFormedFields(a)
    && forall k :: Get(a, k) ==
         if k == Known(Ref) then Some(Null) else if k == Known(Enum) then Some(Arr(Nil)) else None
  }

  /** `{"type":"object","description":true,"properties":{q: a}}`, in any order. */
  ghost predicate InvalidAround(fs: Fields, q: Key, a: Fields) {
    && WellFormed(Obj(fs))
    && (forall k :: k != Known(Properties) ==>
          Get(fs, k) == if k == Known(Type) then Some(Str("object"))
                        else if k == Known(Description) then Some(Bool(true)) else None)
    && Get(fs, Known(Properties)) == Some(Obj(Field(q, Obj(a), End)))
  }

  lemma NullReferenceGiven(a: Fields)
    requires NullReference(a)
    ensures LowerConst(a) == a && L.TypesGiven(a) == [] && Refers(a) && L.Settled(Obj(a))
  {
    assert Types(a) == [];
    forall k | Has(a, k) ensures L.SettledField(a, k) { }
  }

  lemma NullReferenceDoesNotLast(a: Fields)
    requires NullReference(a)
    ensures !Lasting(Obj(a))
  {
    NullReferenceGiven(a);
    assert Leaves(a, Known(Enum));
  }

  lemma AroundSettled(fs: Fields, q: Key, a: Fields)
    requires InvalidAround(fs, q, a) && L.Settled(Obj(a))
    ensures L.Settled(Obj(fs))
  {
    assert Types(fs) == ["object"] && LowerConst(fs) == fs;
    assert L.SettledEntries(Field(q, Obj(a), End)) by { assert L.SettledEntries(End); }
    forall k | Has(fs, k) ensures L.SettledField(fs, k) { }
  }

  lemma AroundDoesNotLast(decode: P.Decode, fs: Fields, q: Key, a: Fields)
    requires InvalidAround(fs, q, a) && L.Survives(fs) && !Lasting(Obj(a))
    ensures !LastingRoot(decode, Obj(fs))
  {
    var entries := Field(q, Obj(a), End);
    assert Has(entries, q) && !LastingEntry(entries, q);
    LastingTable(fs, Known(Properties));
    assert !PlainLasting(fs);
  }

  /** A schema that one pass of lowering settles, and whose canonical form still changes when it is canonicalised again:
      ordering drops the null reference that lowering had kept. */
  lemma NullReferenceIsNotStable(decode: P.Decode, fs: Fields, q: Key, a: Fields)
    requires InvalidAround(fs, q, a) && NullReference(a)
    ensures L.Settled(Obj(fs))
    ensures CanonicalForm(decode, CanonicalForm(decode, Obj(fs))) != CanonicalForm(decode, Obj(fs))
  {
    NullReferenceGiven(a);
    AroundSettled(fs, q, a);
    DescribedGiven(fs);
    NullReferenceDoesNotLast(a);
    AroundDoesNotLast(decode, fs, q, a);
    UnstableForm(decode, fs);
  }

  lemma NullReferenceWritten(a: Fields)
    requires a == Field(Known(Ref), Null, Field(Known(Enum), Arr(Nil), End))
    ensures NullReference(a)
  {
    forall k
      ensures Get(a, k) == if k == Known(Ref) then Some(Null) else if k == Known(Enum) then Some(Arr(Nil)) else None
    {
      assert Get(a.rest, k) == if k == Known(Enum) then Some(Arr(Nil)) else None;
    }
    assert Distinct(a.rest) && WellFormedFields(a.rest);
  }

  lemma AroundWritten(fs: Fields, properties: Fields, q: Key, a: Fields)
    requires NullReference(a) && WfKey(q) && properties == Field(q, Obj(a), End)
    requires fs == Field(Known(Type), Str("object"), Field(Known(Description), Bool(true),
                         Field(Known(Properties), Obj(properties), End)))
    ensures InvalidAround(fs, q, a)
  {
    var rest := fs.rest.rest;
    assert WellFormed(Obj(a)) && Distinct(End) && WellFormedFields(End);
    WellFormedFront(q, Obj(a), End);
    WellFormedFront(Known(Properties), Obj(properties), End);
    forall k ensures Get(rest, k) == if k == Known(Properties) then Some(Obj(properties)) else None {
      assert Get(rest.rest, k).None?;
    }
    WellFormedFront(Known(Description), Bool(true), rest);
    assert forall k :: Get(fs.rest, k) == if k == Known(Description) then Some(Bool(true)) else Get(rest, k);
    WellFormedFront(Known(Type), Str("object"), fs.rest);
    assert forall k :: Get(fs, k) == if k == Known(Type) then Some(Str("object")) else Get(fs.rest, k);
  }

  /** Such a schema, written out. */
  lemma NullReferenceInput(decode: P.Decode)
    ensures var a := Field(Known(Ref), Null, Field(Known(Enum), Arr(Nil), End));
            var v := Obj(Field(Known(Type), Str("object"), Field(Known(Description), Bool(true),
                         Field(Known(Properties), Obj(Field(Named("a"), Obj(a), End)), End))));
            L.Settled(v) && CanonicalForm(decode, CanonicalForm(decode, v)) != CanonicalForm(decode, v)
  {
    var a := Field(Known(Ref), Null, Field(Known(Enum), Arr(Nil), End));
    var fs := Field(Known(Type), Str("object"), Field(Known(Description), Bool(true),
                    Field(Known(Properties), Obj(Field(Named("a"), Obj(a), End)), End)));
    NullReferenceWritten(a);
    AroundWritten(fs, Field(Named("a"), Obj(a), End), Named("a"), a);
    NullReferenceIsNotStable(decode, fs, Named("a"), a);
  }
}
