/**
 JSON values as the request builder holds them: objects are lists of fields in insertion order, because the order
 is observable, and a key is either one of the schema keywords the code names or any other text.
 */
module Json {
  import opened Domain

  datatype FieldName =
    | Ref | Type | Description | Encrypted | Enum | Items | MinItems | Properties | Required
    | AdditionalProperties | AnyOf | OneOf | AllOf | Defs | Definitions
    | Const | PrefixItems | Format | Minimum | Maximum | ExclusiveMinimum | ExclusiveMaximum | MultipleOf

  datatype Key = Known(field: FieldName) | Named(text: string)

  datatype Json =
    | Null
    | Bool(b: bool)
    | Num(lexeme: string)
    | Str(s: string)
    | Arr(items: JsonList)
    | Obj(fields: Fields)

  datatype JsonList = Nil | Cons(head: Json, tail: JsonList)

  datatype Fields = End | Field(key: Key, value: Json, rest: Fields)

  // ----- Keys as text ------------------------------------------------------------------

  function Text(k: Key): string {
    match k
    case Named(text) => text
    case Known(f) =>
      match f
      case Ref => "$ref"
      case Type => "type"
      case Description => "description"
      case Encrypted => "encrypted"
      case Enum => "enum"
      case Items => "items"
      case MinItems => "minItems"
      case Properties => "properties"
      case Required => "required"
      case AdditionalProperties => "additionalProperties"
      case AnyOf => "anyOf"
      case OneOf => "oneOf"
      case AllOf => "allOf"
      case Defs => "$defs"
      case Definitions => "definitions"
      case Const => "const"
      case PrefixItems => "prefixItems"
      case Format => "format"
      case Minimum => "minimum"
      case Maximum => "maximum"
      case ExclusiveMinimum => "exclusiveMinimum"
      case ExclusiveMaximum => "exclusiveMaximum"
      case MultipleOf => "multipleOf"
  }

  /** Keywords are looked up by length first, so that few texts are compared. */
  function KeyOf(text: string): Key {
    match |text|
    case 4 => if text == "$ref" then Known(Ref) else if text == "type" then Known(Type)
              else if text == "enum" then Known(Enum) else Named(text)
    case 5 => if text == "items" then Known(Items) else if text == "anyOf" then Known(AnyOf)
              else if text == "oneOf" then Known(OneOf) else if text == "allOf" then Known(AllOf)
              else if text == "$defs" then Known(Defs) else if text == "const" then Known(Const) else Named(text)
    case 6 => if text == "format" then Known(Format) else Named(text)
    case 7 => if text == "minimum" then Known(Minimum) else if text == "maximum" then Known(Maximum) else Named(text)
    case 8 => if text == "minItems" then Known(MinItems) else if text == "required" then Known(Required)
              else Named(text)
    case 9 => if text == "encrypted" then Known(Encrypted) else Named(text)
    case 10 => if text == "properties" then Known(Properties) else if text == "multipleOf" then Known(MultipleOf)
               else Named(text)
    case 11 => if text == "description" then Known(Description) else if text == "definitions" then Known(Definitions)
               else if text == "prefixItems" then Known(PrefixItems) else Named(text)
    case 16 => if text == "exclusiveMinimum" then Known(ExclusiveMinimum)
               else if text == "exclusiveMaximum" then Known(ExclusiveMaximum) else Named(text)
    case 20 => if text == "additionalProperties" then Known(AdditionalProperties) else Named(text)
    case _ => Named(text)
  }

  /** A keyword is never spelled out as a plain name. */
  predicate WfKey(k: Key) {
    k.Named? ==> KeyOf(k.text).Named?
  }

  /** The text of a key determines the key. */
  lemma TextInjective(j: Key, k: Key)
    requires WfKey(j) && WfKey(k) && Text(j) == Text(k)
    ensures j == k
  {
    KeyOfText(j);
    KeyOfText(k);
  }

  lemma KeyOfText(k: Key)
    requires WfKey(k)
    ensures KeyOf(Text(k)) == k
  {
    if k.Known? {
      match k.field {
        case Ref | Type | Enum | Format | Minimum | Maximum => KeyOfShortText(k.field);
        case Items | AnyOf | OneOf | AllOf | Defs | Const => KeyOfFiveText(k.field);
        case MinItems | Required | Encrypted | Properties | MultipleOf => KeyOfMiddleText(k.field);
        case _ => KeyOfLongText(k.field);
      }
    }
  }

  lemma KeyOfShortText(f: FieldName)
    requires f.Ref? || f.Type? || f.Enum? || f.Format? || f.Minimum? || f.Maximum?
    ensures KeyOf(Text(Known(f))) == Known(f)
  {
  }

  lemma KeyOfFiveText(f: FieldName)
    requires f.Items? || f.AnyOf? || f.OneOf? || f.AllOf? || f.Defs? || f.Const?
    ensures KeyOf(Text(Known(f))) == Known(f)
  {
  }

  lemma KeyOfMiddleText(f: FieldName)
    requires f.MinItems? || f.Required? || f.Encrypted? || f.Properties? || f.MultipleOf?
    ensures KeyOf(Text(Known(f))) == Known(f)
  {
  }

  lemma KeyOfLongText(f: FieldName)
    requires f.Description? || f.Definitions? || f.PrefixItems? || f.ExclusiveMinimum? || f.ExclusiveMaximum?
             || f.AdditionalProperties?
    ensures KeyOf(Text(Known(f))) == Known(f)
  {
  }

  // ----- Fields ------------------------------------------------------------------------

  function Get(fs: Fields, k: Key): Option<Json> {
    match fs
    case End => None
    case Field(key, value, rest) => if key == k then Some(value) else Get(rest, k)
  }

  predicate Has(fs: Fields, k: Key) {
    Get(fs, k).Some?
  }

  lemma FirstKey(fs: Fields)
    requires fs.Field?
    ensures Has(fs, fs.key)
  {
  }

  /** No key twice, and every key in its proper form. */
  predicate Distinct(fs: Fields) {
    fs.Field? ==> WfKey(fs.key) && !Has(fs.rest, fs.key) && Distinct(fs.rest)
  }

  /** What the map type of the JSON library guarantees: distinct keys in every object. */
  predicate WellFormed(v: Json) {
    match v
    case Arr(items) => WellFormedList(items)
    case Obj(fields) => Distinct(fields) && WellFormedFields(fields)
    case _ => true
  }

  predicate WellFormedList(l: JsonList) {
    l.Cons? ==> WellFormed(l.head) && WellFormedList(l.tail)
  }

  predicate WellFormedFields(fs: Fields) {
    fs.Field? ==> WellFormed(fs.value) && WellFormedFields(fs.rest)
  }

  lemma {:induction false} WellFormedGet(fs: Fields, k: Key)
    requires WellFormedFields(fs) && Has(fs, k)
    ensures WellFormed(Get(fs, k).value)
  {
    if fs.key != k { WellFormedGet(fs.rest, k); }
  }

  // ----- Sizes -------------------------------------------------------------------------

  ghost function Size(v: Json): nat {
    match v
    case Arr(items) => 1 + ListSize(items)
    case Obj(fields) => 1 + FieldsSize(fields)
    case _ => 1
  }

  ghost function ListSize(l: JsonList): nat {
    if l.Nil? then 0 else Size(l.head) + ListSize(l.tail)
  }

  ghost function FieldsSize(fs: Fields): nat {
    if fs.End? then 0 else Size(fs.value) + FieldsSize(fs.rest)
  }

  lemma {:induction false} SizeOfGet(fs: Fields, k: Key)
    requires Has(fs, k)
    ensures Size(Get(fs, k).value) <= FieldsSize(fs)
  {
    if fs.key != k { SizeOfGet(fs.rest, k); }
  }
}
