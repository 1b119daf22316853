/** Lowering of a raw schema into the typed subset. */
module SchemaSanitize {
  import opened Domain
  import opened Json
  import opened SchemaValid
  import P = SchemaPrune

  // ----- Map operations ----------------------------------------------------------------

  /** insert: in place if the key is there, at the end otherwise. */
  function Insert(fs: Fields, k: Key, v: Json): Fields {
    if fs.End? then Field(k, v, End)
    else if fs.key == k then Field(k, v, fs.rest)
    else Field(fs.key, fs.value, Insert(fs.rest, k, v))
  }

  /** entry(k).or_insert(v) */
  function OrInsert(fs: Fields, k: Key, v: Json): Fields {
    if Has(fs, k) then fs else Insert(fs, k, v)
  }

  function DropNulls(fs: Fields): Fields {
    if fs.End? then End
    else if fs.value.Null? then DropNulls(fs.rest)
    else Field(fs.key, fs.value, DropNulls(fs.rest))
  }

  // ----- Types -------------------------------------------------------------------------

  function NativeNames(l: JsonList): seq<string> {
    if l.Nil? then []
    else (if NativeType(l.head) then [l.head.s] else []) + NativeNames(l.tail)
  }

  function Types(fs: Fields): seq<string> {
    match Get(fs, Known(Type))
    case Some(Str(s)) => if NativeName(s) then [s] else []
    case Some(Arr(items)) => NativeNames(items)
    case _ => []
  }

  function Strings(names: seq<string>): JsonList {
    if names == [] then Nil else Cons(Str(names[0]), Strings(names[1..]))
  }

  function TypeValue(types: seq<string>): Json {
    if |types| == 1 then Str(types[0]) else Arr(Strings(types))
  }

  predicate Refers(fs: Fields) {
    Has(fs, Known(Ref)) || Has(fs, Known(AnyOf)) || Has(fs, Known(OneOf)) || Has(fs, Known(AllOf))
  }

  function Inferred(fs: Fields): Option<string> {
    if Has(fs, Known(Properties)) || Has(fs, Known(Required)) || Has(fs, Known(AdditionalProperties))
    then Some("object")
    else if Has(fs, Known(Items)) || Has(fs, Known(PrefixItems)) then Some("array")
    else if Has(fs, Known(Enum)) || Has(fs, Known(Format)) then Some("string")
    else if Has(fs, Known(Minimum)) || Has(fs, Known(Maximum)) || Has(fs, Known(ExclusiveMinimum))
            || Has(fs, Known(ExclusiveMaximum)) || Has(fs, Known(MultipleOf)) then Some("number")
    else None
  }

  const STRING_SCHEMA := Obj(Field(Known(Type), Str("string"), End))

  // ----- sanitize ----------------------------------------------------------------------

  function LowerConst(fs: Fields): Fields {
    match Get(fs, Known(Const))
    case None => fs
    case Some(c) => Insert(P.Remove(fs, Known(Const)), Known(Enum), Arr(Cons(c, Nil)))
  }

  /** A schema with at least one type. */
  function LowerTyped(fs: Fields, types: seq<string>): Fields {
    var typed := Insert(fs, Known(Type), TypeValue(types));
    var propertied := if "object" in types then OrInsert(typed, Known(Properties), Obj(End)) else typed;
    var itemised := if "array" in types then OrInsert(propertied, Known(Items), STRING_SCHEMA) else propertied;
    DropNulls(itemised)
  }

  /** The object itself, once its children are lowered. */
  function Lower(fs: Fields): Fields {
    var fs := LowerConst(fs);
    var types := Types(fs);
    if types != [] then LowerTyped(fs, types)
    else if Refers(fs) then P.Remove(fs, Known(Type))
    else
      match Inferred(fs)
      case None => End
      case Some(t) => LowerTyped(fs, [t])
  }

  function Sanitize(v: Json): Json
    decreases v, 0
  {
    match v
    case Bool(_) => Obj(Lower(STRING_SCHEMA.fields))
    case Obj(fs) => Obj(Lower(SanitizeFields(fs)))
    case _ => v
  }

  function SanitizeFields(fs: Fields): Fields
    decreases fs, 0
  {
    if fs.End? then End
    else if (fs.key == Known(Defs) || fs.key == Known(Definitions)) && !fs.value.Obj? then SanitizeFields(fs.rest)
    else Field(fs.key, SanitizeAt(fs.key, fs.value), SanitizeFields(fs.rest))
  }

  function SanitizeAt(k: Key, v: Json): Json
    decreases v, 1
  {
    if k == Known(Items) || (k == Known(AdditionalProperties) && !v.Bool?) then Sanitize(v)
    else if IsTable(k) && v.Obj? then Obj(SanitizeEntries(v.fields))
    else if (IsUnion(k) || k == Known(PrefixItems)) && v.Arr? then Arr(SanitizeList(v.items))
    else v
  }

  function SanitizeEntries(fs: Fields): Fields
    decreases fs, 1
  {
    if fs.End? then End else Field(fs.key, Sanitize(fs.value), SanitizeEntries(fs.rest))
  }

  function SanitizeList(l: JsonList): JsonList
    decreases l, 0
  {
    if l.Nil? then Nil else Cons(Sanitize(l.head), SanitizeList(l.tail))
  }

  // ----- Lookups -----------------------------------------------------------------------

  lemma {:induction false} GetInsert(fs: Fields, k: Key, v: Json, q: Key)
    requires Distinct(fs) && WfKey(k)
    ensures Get(Insert(fs, k, v), q) == if q == k then Some(v) else Get(fs, q)
    ensures Distinct(Insert(fs, k, v))
  {
    if fs.Field? && fs.key != k {
      GetInsert(fs.rest, k, v, q);
      GetInsert(fs.rest, k, v, fs.key);
    }
  }

  lemma {:induction false} GetDropNulls(fs: Fields, q: Key)
    requires Distinct(fs)
    ensures Get(DropNulls(fs), q) == if Get(fs, q) == Some(Null) then None else Get(fs, q)
    ensures Distinct(DropNulls(fs))
  {
    if fs.Field? {
      GetDropNulls(fs.rest, q);
      GetDropNulls(fs.rest, fs.key);
    }
  }

  lemma {:induction false} GetSanitizeFields(fs: Fields, q: Key)
    requires Distinct(fs)
    ensures Get(SanitizeFields(fs), q) ==
            match Get(fs, q)
            case None => None
            case Some(v) =>
              if (q == Known(Defs) || q == Known(Definitions)) && !v.Obj? then None else Some(SanitizeAt(q, v))
    ensures Distinct(SanitizeFields(fs))
  {
    if fs.Field? {
      GetSanitizeFields(fs.rest, q);
      GetSanitizeFields(fs.rest, fs.key);
    }
  }

  // ----- The result is well formed -----------------------------------------------------

  lemma {:induction false} InsertWellFormed(fs: Fields, k: Key, v: Json)
    requires Distinct(fs) && WellFormedFields(fs) && WfKey(k) && WellFormed(v)
    ensures Distinct(Insert(fs, k, v)) && WellFormedFields(Insert(fs, k, v))
  {
    GetInsert(fs, k, v, k);
    if fs.Field? && fs.key != k { InsertWellFormed(fs.rest, k, v); }
  }

  lemma {:induction false} DropNullsWellFormed(fs: Fields)
    requires Distinct(fs) && WellFormedFields(fs)
    ensures Distinct(DropNulls(fs)) && WellFormedFields(DropNulls(fs))
  {
    if fs.Field? {
      DropNullsWellFormed(fs.rest);
      GetDropNulls(fs.rest, fs.key);
    }
  }

  lemma {:induction false} StringsWellFormed(names: seq<string>)
    ensures WellFormedList(Strings(names))
  {
    if names != [] { StringsWellFormed(names[1..]); }
  }

  lemma LowerTypedWellFormed(fs: Fields, types: seq<string>)
    requires Distinct(fs) && WellFormedFields(fs)
    ensures Distinct(LowerTyped(fs, types)) && WellFormedFields(LowerTyped(fs, types))
  {
    StringsWellFormed(types);
    var typed := Insert(fs, Known(Type), TypeValue(types));
    InsertWellFormed(fs, Known(Type), TypeValue(types));
    var propertied := if "object" in types then OrInsert(typed, Known(Properties), Obj(End)) else typed;
    InsertWellFormed(typed, Known(Properties), Obj(End));
    var itemised := if "array" in types then OrInsert(propertied, Known(Items), STRING_SCHEMA) else propertied;
    InsertWellFormed(propertied, Known(Items), STRING_SCHEMA);
    DropNullsWellFormed(itemised);
  }

  lemma LowerWellFormed(fs: Fields)
    requires Distinct(fs) && WellFormedFields(fs)
    ensures Distinct(Lower(fs)) && WellFormedFields(Lower(fs))
  {
    var lowered := LowerConst(fs);
    if Has(fs, Known(Const)) {
      var c := Get(fs, Known(Const)).value;
      WellFormedGet(fs, Known(Const));
      P.RemoveWellFormed(fs, Known(Const));
      InsertWellFormed(P.Remove(fs, Known(Const)), Known(Enum), Arr(Cons(c, Nil)));
    }
    P.RemoveWellFormed(lowered, Known(Type));
    LowerTypedWellFormed(lowered, Types(lowered));
    if Inferred(lowered).Some? { LowerTypedWellFormed(lowered, [Inferred(lowered).value]); }
  }

  lemma {:induction false} SanitizeWellFormed(v: Json)
    requires WellFormed(v)
    ensures WellFormed(Sanitize(v))
    decreases v, 0
  {
    if v.Bool? {
      LowerWellFormed(STRING_SCHEMA.fields);
    } else if v.Obj? {
      SanitizeFieldsWellFormed(v.fields);
      LowerWellFormed(SanitizeFields(v.fields));
    }
  }

  lemma {:induction false} SanitizeFieldsWellFormed(fs: Fields)
    requires Distinct(fs) && WellFormedFields(fs)
    ensures Distinct(SanitizeFields(fs)) && WellFormedFields(SanitizeFields(fs))
    decreases fs, 0
  {
    if fs.Field? {
      GetSanitizeFields(fs, fs.key);
      SanitizeFieldsWellFormed(fs.rest);
      SanitizeAtWellFormed(fs.key, fs.value);
    }
  }

  lemma {:induction false} SanitizeAtWellFormed(k: Key, v: Json)
    requires WellFormed(v)
    ensures WellFormed(SanitizeAt(k, v))
    decreases v, 1
  {
    SanitizeWellFormed(v);
    if v.Obj? { SanitizeEntriesWellFormed(v.fields); }
    if v.Arr? { SanitizeListWellFormed(v.items); }
  }

  lemma {:induction false} GetSanitizeEntries(fs: Fields, q: Key)
    ensures Get(SanitizeEntries(fs), q) == match Get(fs, q) case None => None case Some(v) => Some(Sanitize(v))
  {
    if fs.Field? && fs.key != q { GetSanitizeEntries(fs.rest, q); }
  }

  lemma {:induction false} SanitizeEntriesWellFormed(fs: Fields)
    requires Distinct(fs) && WellFormedFields(fs)
    ensures Distinct(SanitizeEntries(fs)) && WellFormedFields(SanitizeEntries(fs))
    decreases fs, 1
  {
    if fs.Field? {
      SanitizeWellFormed(fs.value);
      SanitizeEntriesWellFormed(fs.rest);
      GetSanitizeEntries(fs.rest, fs.key);
    }
  }

  lemma {:induction false} SanitizeListWellFormed(l: JsonList)
    requires WellFormedList(l)
    ensures WellFormedList(SanitizeList(l))
    decreases l, 0
  {
    if l.Cons? {
      SanitizeWellFormed(l.head);
      SanitizeListWellFormed(l.tail);
    }
  }
}
