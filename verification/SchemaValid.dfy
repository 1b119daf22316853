/** The typed subset of JSON Schema that the native client accepts. */
module SchemaValid {
  import opened Domain
  import opened Json

  /** The fields of the typed schema, in the order in which they are serialised. */
  const FIELD_COUNT := 15

  function FieldAt(i: nat): FieldName
    requires i < FIELD_COUNT
  {
    if i == 0 then Ref
    else if i == 1 then Type
    else if i == 2 then Description
    else if i == 3 then Encrypted
    else if i == 4 then Enum
    else if i == 5 then Items
    else if i == 6 then MinItems
    else if i == 7 then Properties
    else if i == 8 then Required
    else if i == 9 then AdditionalProperties
    else if i == 10 then AnyOf
    else if i == 11 then OneOf
    else if i == 12 then AllOf
    else if i == 13 then Defs
    else Definitions
  }

  function Rank(f: FieldName): nat {
    match f
    case Ref => 0
    case Type => 1
    case Description => 2
    case Encrypted => 3
    case Enum => 4
    case Items => 5
    case MinItems => 6
    case Properties => 7
    case Required => 8
    case AdditionalProperties => 9
    case AnyOf => 10
    case OneOf => 11
    case AllOf => 12
    case Defs => 13
    case Definitions => 14
    case _ => 15
  }

  predicate IsField(k: Key) {
    k.Known? && Rank(k.field) < FIELD_COUNT
  }

  predicate IsTable(k: Key) {
    k == Known(Properties) || k == Known(Defs) || k == Known(Definitions)
  }

  predicate IsUnion(k: Key) {
    k == Known(AnyOf) || k == Known(OneOf) || k == Known(AllOf)
  }

  // ----- Scalars -----------------------------------------------------------------------

  predicate NativeName(s: string) {
    s == "string" || s == "number" || s == "boolean" || s == "integer" || s == "object" || s == "array" || s == "null"
  }

  predicate NativeType(v: Json) {
    v.Str? && NativeName(v.s)
  }

  predicate AllNative(l: JsonList) {
    l.Cons? ==> NativeType(l.head) && AllNative(l.tail)
  }

  predicate AllStrings(l: JsonList) {
    l.Cons? ==> l.head.Str? && AllStrings(l.tail)
  }

  const U64_LIMIT: nat := 0x1_0000_0000_0000_0000

  predicate Digits(s: string) {
    forall i :: 0 <= i < |s| ==> '0' <= s[i] <= '9'
  }

  function Decimal(s: string): nat
    requires Digits(s)
  {
    if s == "" then 0 else 10 * Decimal(s[..|s| - 1]) + (s[|s| - 1] as int - '0' as int)
  }

  /** A number that reads as an unsigned 64-bit integer. */
  predicate IsU64(v: Json) {
    v.Num? && v.lexeme != "" && Digits(v.lexeme) && Decimal(v.lexeme) < U64_LIMIT
  }

  // ----- valid -------------------------------------------------------------------------

  predicate Valid(v: Json)
    decreases v, 0
  {
    v.Obj? && ValidFields(v.fields)
  }

  predicate ValidFields(fs: Fields)
    decreases fs, 0
  {
    fs.Field? ==> FieldOk(fs.key, fs.value) && ValidFields(fs.rest)
  }

  predicate FieldOk(k: Key, v: Json)
    decreases v, 1
  {
    if v.Null? then IsField(k)
    else if k.Named? then false
    else
      match k.field
      case Ref | Description => v.Str?
      case Encrypted => v.Bool?
      case Enum => v.Arr?
      case Type => NativeType(v) || (v.Arr? && AllNative(v.items))
      case MinItems => IsU64(v)
      case Required => v.Arr? && AllStrings(v.items)
      case Items => Valid(v)
      case AdditionalProperties => v.Bool? || Valid(v)
      case Properties | Defs | Definitions => v.Obj? && ValidEntries(v.fields)
      case AnyOf | OneOf | AllOf => v.Arr? && ValidList(v.items)
      case _ => false
  }

  predicate ValidEntries(fs: Fields)
    decreases fs, 1
  {
    fs.Field? ==> Valid(fs.value) && ValidEntries(fs.rest)
  }

  predicate ValidList(l: JsonList)
    decreases l, 0
  {
    l.Cons? ==> Valid(l.head) && ValidList(l.tail)
  }

  lemma {:induction false} ValidGet(fs: Fields, k: Key)
    requires ValidFields(fs) && Has(fs, k)
    ensures FieldOk(k, Get(fs, k).value)
  {
    if fs.key != k { ValidGet(fs.rest, k); }
  }
}
