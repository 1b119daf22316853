/**
 Pruning of root definitions: a worklist over `$ref` targets keeps exactly the definitions that the schema reaches.
 Percent-decoding of a reference is a parameter.
 */
module SchemaPrune {
  import opened Domain
  import opened Json
  import Reachability

  // ----- References --------------------------------------------------------------------

  type Decode = string -> Option<string>

  datatype Table = DefsTable | DefinitionsTable

  function TableKey(t: Table): Key {
    if t.DefsTable? then Known(Defs) else Known(Definitions)
  }

  datatype TableRef = TableRef(table: Table, name: Key)

  /** The text before the first slash. */
  function Token(s: string): string {
    if s == "" || s[0] == '/' then "" else [s[0]] + Token(s[1..])
  }

  /** What follows the first slash, if there is one. */
  function AfterToken(s: string): Option<string> {
    if s == "" then None else if s[0] == '/' then Some(s[1..]) else AfterToken(s[1..])
  }

  /** Replaces every `~c` by `r`, from left to right. */
  function ReplaceTilde(s: string, c: char, r: char): string {
    if s == "" then ""
    else if |s| >= 2 && s[0] == '~' && s[1] == c then [r] + ReplaceTilde(s[2..], c, r)
    else [s[0]] + ReplaceTilde(s[1..], c, r)
  }

  function Unescape(token: string): string {
    ReplaceTilde(ReplaceTilde(token, '1', '/'), '0', '~')
  }

  function TableOf(token: string): Option<Table> {
    if token == "$defs" then Some(DefsTable) else if token == "definitions" then Some(DefinitionsTable) else None
  }

  /** The definition that a decoded fragment points into: `/table/name`, anything after that is ignored. */
  function FragmentTarget(text: string): Option<TableRef> {
    if Token(text) != "" || AfterToken(text).None? then None
    else
      var second := AfterToken(text).value;
      if AfterToken(second).None? then None
      else
        match TableOf(Token(second))
        case None => None
        case Some(table) => Some(TableRef(table, KeyOf(Unescape(Token(AfterToken(second).value)))))
  }

  function RefTarget(decode: Decode, fs: Fields): Option<TableRef> {
    match Get(fs, Known(Ref))
    case Some(Str(s)) =>
      if s == "" || s[0] != '#' then None
      else
        (match decode(s[1..])
         case None => None
         case Some(text) => FragmentTarget(text))
    case _ => None
  }

  // ----- collect -----------------------------------------------------------------------

  /** The references at schema positions, in visiting order. Definition tables inside a visited value count only
      with `defs`. */
  function Collect(decode: Decode, v: Json, defs: bool): seq<TableRef>
    decreases Size(v), 1
  {
    if !v.Obj? then []
    else
      var fs := v.fields;
      (if RefTarget(decode, fs).Some? then [RefTarget(decode, fs).value] else [])
      + CollectTable(decode, fs, Known(Properties), defs)
      + (if defs then CollectTable(decode, fs, Known(Defs), defs) + CollectTable(decode, fs, Known(Definitions), defs)
         else [])
      + CollectChild(decode, fs, Known(Items), defs) + CollectChild(decode, fs, Known(AdditionalProperties), defs)
      + CollectUnion(decode, fs, Known(AnyOf), defs) + CollectUnion(decode, fs, Known(OneOf), defs)
      + CollectUnion(decode, fs, Known(AllOf), defs)
  }

  function CollectTable(decode: Decode, fs: Fields, k: Key, defs: bool): seq<TableRef>
    decreases FieldsSize(fs), 3
  {
    match Get(fs, k)
    case Some(Obj(entries)) => SizeOfGet(fs, k); CollectEntries(decode, entries, defs)
    case _ => []
  }

  function CollectEntries(decode: Decode, fs: Fields, defs: bool): seq<TableRef>
    decreases FieldsSize(fs), 2
  {
    if fs.End? then [] else Collect(decode, fs.value, defs) + CollectEntries(decode, fs.rest, defs)
  }

  function CollectChild(decode: Decode, fs: Fields, k: Key, defs: bool): seq<TableRef>
    decreases FieldsSize(fs), 3
  {
    match Get(fs, k)
    case Some(v) => SizeOfGet(fs, k); Collect(decode, v, defs)
    case None => []
  }

  function CollectUnion(decode: Decode, fs: Fields, k: Key, defs: bool): seq<TableRef>
    decreases FieldsSize(fs), 3
  {
    match Get(fs, k)
    case Some(Arr(items)) => SizeOfGet(fs, k); CollectList(decode, items, defs)
    case _ => []
  }

  function CollectList(decode: Decode, l: JsonList, defs: bool): seq<TableRef>
    decreases ListSize(l), 2
  {
    if l.Nil? then [] else Collect(decode, l.head, defs) + CollectList(decode, l.tail, defs)
  }

  // ----- Reachability ------------------------------------------------------------------

  function Lookup(root: Json, r: TableRef): Option<Json> {
    if !root.Obj? then None
    else
      match Get(root.fields, TableKey(r.table))
      case Some(Obj(entries)) => Get(entries, r.name)
      case _ => None
  }

  /** The references inside the definition that a reference points to. */
  function Targets(decode: Decode, root: Json, r: TableRef): seq<TableRef> {
    match Lookup(root, r)
    case None => []
    case Some(v) => Collect(decode, v, true)
  }

  /** A chain of references leads from the root schema to the definition. */
  ghost predicate Reachable(decode: Decode, root: Json, r: TableRef) {
    Reachability.Reachable(Collect(decode, root, false), q => Targets(decode, root, q), r)
  }

  /** Every reference that can ever be pending. */
  ghost function Universe(decode: Decode, root: Json): set<TableRef> {
    (set r | r in Collect(decode, root, false))
    + TableUniverse(decode, root, DefsTable) + TableUniverse(decode, root, DefinitionsTable)
  }

  ghost function TableUniverse(decode: Decode, root: Json, t: Table): set<TableRef> {
    if root.Obj? && Get(root.fields, TableKey(t)).Some? && Get(root.fields, TableKey(t)).value.Obj? then
      set r | r in CollectEntries(decode, Get(root.fields, TableKey(t)).value.fields, true)
    else {}
  }

  lemma {:induction false} EntryCollected(decode: Decode, fs: Fields, k: Key, r: TableRef)
    requires Has(fs, k) && r in Collect(decode, Get(fs, k).value, true)
    ensures r in CollectEntries(decode, fs, true)
  {
    if fs.key != k { EntryCollected(decode, fs.rest, k, r); }
  }

  lemma TargetsInUniverse(decode: Decode, root: Json, r: TableRef, q: TableRef)
    requires q in Targets(decode, root, r)
    ensures q in Universe(decode, root)
  {
    EntryCollected(decode, Get(root.fields, TableKey(r.table)).value.fields, r.name, q);
  }

  /** The worklist terminates and finds exactly the reachable references. */
  method FindReachable(decode: Decode, root: Json) returns (found: set<TableRef>)
    ensures forall r :: r in found <==> Reachable(decode, root, r)
  {
    ghost var universe := Universe(decode, root);
    forall r, q | q in Targets(decode, root, r) ensures q in universe { TargetsInUniverse(decode, root, r, q); }
    found := Reachability.Explore(Collect(decode, root, false), q => Targets(decode, root, q), universe);
  }

  // ----- prune_definitions -------------------------------------------------------------

  function Remove(fs: Fields, k: Key): Fields {
    if fs.End? then End else if fs.key == k then fs.rest else Field(fs.key, fs.value, Remove(fs.rest, k))
  }

  function Replace(fs: Fields, k: Key, v: Json): Fields {
    if fs.End? then End
    else if fs.key == k then Field(k, v, fs.rest)
    else Field(fs.key, fs.value, Replace(fs.rest, k, v))
  }

  function RetainFound(fs: Fields, t: Table, found: set<TableRef>): Fields {
    if fs.End? then End
    else if TableRef(t, fs.key) in found then Field(fs.key, fs.value, RetainFound(fs.rest, t, found))
    else RetainFound(fs.rest, t, found)
  }

  function PruneTable(fs: Fields, t: Table, found: set<TableRef>): Fields {
    match Get(fs, TableKey(t))
    case Some(Obj(entries)) =>
      var kept := RetainFound(entries, t, found);
      if kept.End? then Remove(fs, TableKey(t)) else Replace(fs, TableKey(t), Obj(kept))
    case _ => fs
  }

  function PruneWith(root: Json, found: set<TableRef>): Json {
    if root.Obj? then Obj(PruneTable(PruneTable(root.fields, DefsTable, found), DefinitionsTable, found)) else root
  }

  ghost function ReachableSet(decode: Decode, root: Json): set<TableRef> {
    set r | r in Universe(decode, root) && Reachable(decode, root, r)
  }

  ghost function Prune(decode: Decode, root: Json): Json {
    PruneWith(root, ReachableSet(decode, root))
  }

  lemma ReachableSetHolds(decode: Decode, root: Json, r: TableRef)
    ensures r in ReachableSet(decode, root) <==> Reachable(decode, root, r)
  {
    if Reachable(decode, root, r) {
      forall q, p | p in Targets(decode, root, q) ensures p in Universe(decode, root) {
        TargetsInUniverse(decode, root, q, p);
      }
      Reachability.ReachableInUniverse(
        Collect(decode, root, false), q => Targets(decode, root, q), Universe(decode, root), r);
    }
  }

  method PruneDefinitions(decode: Decode, root: Json) returns (pruned: Json)
    ensures pruned == Prune(decode, root)
  {
    var found := FindReachable(decode, root);
    forall r ensures r in found <==> r in ReachableSet(decode, root) { ReachableSetHolds(decode, root, r); }
    assert found == ReachableSet(decode, root);
    pruned := PruneWith(root, found);
  }

  // ----- Lookups after pruning ---------------------------------------------------------

  lemma {:induction false} GetRemove(fs: Fields, k: Key, q: Key)
    requires Distinct(fs)
    ensures Get(Remove(fs, k), q) == if q == k then None else Get(fs, q)
    ensures Distinct(Remove(fs, k))
  {
    if fs.Field? {
      GetRemove(fs.rest, k, q);
      GetRemove(fs.rest, k, fs.key);
    }
  }

  lemma {:induction false} GetReplace(fs: Fields, k: Key, v: Json, q: Key)
    requires Distinct(fs) && Has(fs, k)
    ensures Get(Replace(fs, k, v), q) == if q == k then Some(v) else Get(fs, q)
    ensures Distinct(Replace(fs, k, v))
  {
    if fs.key != k {
      GetReplace(fs.rest, k, v, q);
      GetReplace(fs.rest, k, v, fs.key);
    }
  }

  lemma {:induction false} GetRetainFound(fs: Fields, t: Table, found: set<TableRef>, q: Key)
    ensures Get(RetainFound(fs, t, found), q) == if TableRef(t, q) in found then Get(fs, q) else None
  {
    if fs.Field? { GetRetainFound(fs.rest, t, found, q); }
  }

  lemma GetPruneTable(fs: Fields, t: Table, found: set<TableRef>, q: Key)
    requires Distinct(fs)
    ensures var pruned := PruneTable(fs, t, found);
            && Distinct(pruned)
            && (q != TableKey(t) ==> Get(pruned, q) == Get(fs, q))
  {
    var k := TableKey(t);
    if Has(fs, k) {
      GetRemove(fs, k, q);
      GetReplace(fs, k, Obj(match Get(fs, k).value case Obj(e) => RetainFound(e, t, found) case _ => End), q);
    }
  }

  /** The entry of a table after the table was pruned. */
  lemma EntryAfterPrune(fs: Fields, t: Table, found: set<TableRef>, q: Key)
    requires Distinct(fs)
    ensures Lookup(Obj(PruneTable(fs, t, found)), TableRef(t, q)) ==
            if TableRef(t, q) in found then Lookup(Obj(fs), TableRef(t, q)) else None
  {
    var k := TableKey(t);
    if Has(fs, k) && Get(fs, k).value.Obj? {
      var entries := Get(fs, k).value.fields;
      GetRetainFound(entries, t, found, q);
      GetRemove(fs, k, k);
      GetReplace(fs, k, Obj(RetainFound(entries, t, found)), k);
    }
  }

  lemma LookupPruned(root: Json, found: set<TableRef>, r: TableRef)
    requires root.Obj? ==> Distinct(root.fields)
    ensures Lookup(PruneWith(root, found), r) == if r in found then Lookup(root, r) else None
  {
    if root.Obj? {
      var once := PruneTable(root.fields, DefsTable, found);
      GetPruneTable(root.fields, DefsTable, found, TableKey(r.table));
      GetPruneTable(once, DefinitionsTable, found, TableKey(r.table));
      EntryAfterPrune(root.fields, DefsTable, found, r.name);
      EntryAfterPrune(once, DefinitionsTable, found, r.name);
    }
  }

  /** Pruning keeps exactly the reachable definitions, unchanged, and touches no other field. */
  lemma PruneIsExact(decode: Decode, root: Json, r: TableRef, k: Key)
    requires WellFormed(root)
    ensures Lookup(Prune(decode, root), r) == if Reachable(decode, root, r) then Lookup(root, r) else None
    ensures root.Obj? && k != Known(Defs) && k != Known(Definitions) ==>
              Get(Prune(decode, root).fields, k) == Get(root.fields, k)
  {
    var found := ReachableSet(decode, root);
    ReachableSetHolds(decode, root, r);
    LookupPruned(root, found, r);
    if root.Obj? {
      GetPruneTable(root.fields, DefsTable, found, k);
      GetPruneTable(PruneTable(root.fields, DefsTable, found), DefinitionsTable, found, k);
    }
  }

  // ----- Pruning once is enough --------------------------------------------------------

  lemma CollectSameAt(decode: Decode, f: Fields, g: Fields, k: Key)
    requires Get(f, k) == Get(g, k)
    ensures CollectTable(decode, f, k, false) == CollectTable(decode, g, k, false)
    ensures CollectChild(decode, f, k, false) == CollectChild(decode, g, k, false)
    ensures CollectUnion(decode, f, k, false) == CollectUnion(decode, g, k, false)
  {
  }

  lemma CollectSame(decode: Decode, f: Fields, g: Fields)
    requires forall k :: k != Known(Defs) && k != Known(Definitions) ==> Get(f, k) == Get(g, k)
    ensures Collect(decode, Obj(f), false) == Collect(decode, Obj(g), false)
  {
    assert RefTarget(decode, f) == RefTarget(decode, g);
    CollectSameAt(decode, f, g, Known(Properties));
    CollectSameAt(decode, f, g, Known(Items));
    CollectSameAt(decode, f, g, Known(AdditionalProperties));
    CollectSameAt(decode, f, g, Known(AnyOf));
    CollectSameAt(decode, f, g, Known(OneOf));
    CollectSameAt(decode, f, g, Known(AllOf));
  }

  /** What the pruned schema reaches is what the schema reached. */
  lemma PruneKeepsReachability(decode: Decode, root: Json, r: TableRef)
    requires WellFormed(root)
    ensures Reachable(decode, Prune(decode, root), r) <==> Reachable(decode, root, r)
  {
    var pruned := Prune(decode, root);
    var start := Collect(decode, root, false);
    if root.Obj? {
      forall k | k != Known(Defs) && k != Known(Definitions) ensures Get(pruned.fields, k) == Get(root.fields, k) {
        PruneIsExact(decode, root, r, k);
      }
      CollectSame(decode, pruned.fields, root.fields);
    }
    forall q ensures Targets(decode, pruned, q) == if Reachable(decode, root, q) then Targets(decode, root, q) else [] {
      PruneIsExact(decode, root, q, Known(Ref));
    }
    Reachability.ReachesSame(start, q => Targets(decode, root, q), q => Targets(decode, pruned, q), r);
  }

  lemma {:induction false} RetainAgain(fs: Fields, t: Table, found: set<TableRef>)
    ensures RetainFound(RetainFound(fs, t, found), t, found) == RetainFound(fs, t, found)
  {
    if fs.Field? { RetainAgain(fs.rest, t, found); }
  }

  lemma {:induction false} ReplaceSame(fs: Fields, k: Key, v: Json)
    requires Get(fs, k) == Some(v)
    ensures Replace(fs, k, v) == fs
  {
    if fs.key != k { ReplaceSame(fs.rest, k, v); }
  }

  /** A table whose entries are all found, and not empty, is left as it is. */
  ghost predicate TablePruned(fs: Fields, t: Table, found: set<TableRef>) {
    match Get(fs, TableKey(t))
    case Some(Obj(entries)) => entries.Field? && RetainFound(entries, t, found) == entries
    case _ => true
  }

  lemma PruneTableFixes(fs: Fields, t: Table, found: set<TableRef>)
    requires Distinct(fs)
    ensures TablePruned(PruneTable(fs, t, found), t, found)
    ensures TablePruned(fs, t, found) ==> PruneTable(fs, t, found) == fs
  {
    var k := TableKey(t);
    if Has(fs, k) && Get(fs, k).value.Obj? {
      var entries := Get(fs, k).value.fields;
      RetainAgain(entries, t, found);
      GetRemove(fs, k, k);
      GetReplace(fs, k, Obj(RetainFound(entries, t, found)), k);
      if TablePruned(fs, t, found) { ReplaceSame(fs, k, Get(fs, k).value); }
    }
  }

  lemma PruneWithTwice(root: Json, found: set<TableRef>)
    requires WellFormed(root)
    ensures PruneWith(PruneWith(root, found), found) == PruneWith(root, found)
  {
    if root.Obj? {
      var once := PruneTable(root.fields, DefsTable, found);
      var both := PruneTable(once, DefinitionsTable, found);
      PruneTableFixes(root.fields, DefsTable, found);
      GetPruneTable(root.fields, DefsTable, found, Known(Ref));
      PruneTableFixes(once, DefinitionsTable, found);
      GetPruneTable(once, DefinitionsTable, found, TableKey(DefsTable));
      PruneTableFixes(both, DefsTable, found);
      PruneTableFixes(both, DefinitionsTable, found);
    }
  }

  /** A second prune removes nothing. */
  lemma PruneIdempotent(decode: Decode, root: Json)
    requires WellFormed(root)
    ensures Prune(decode, Prune(decode, root)) == Prune(decode, root)
  {
    var pruned := Prune(decode, root);
    forall r ensures r in ReachableSet(decode, pruned) <==> r in ReachableSet(decode, root) {
      ReachableSetHolds(decode, root, r);
      ReachableSetHolds(decode, pruned, r);
      PruneKeepsReachability(decode, root, r);
    }
    assert ReachableSet(decode, pruned) == ReachableSet(decode, root);
    PruneWithTwice(root, ReachableSet(decode, root));
  }

  // ----- The result is well formed -----------------------------------------------------

  lemma {:induction false} RetainFoundWellFormed(fs: Fields, t: Table, found: set<TableRef>)
    requires Distinct(fs) && WellFormedFields(fs)
    ensures Distinct(RetainFound(fs, t, found)) && WellFormedFields(RetainFound(fs, t, found))
  {
    if fs.Field? {
      RetainFoundWellFormed(fs.rest, t, found);
      GetRetainFound(fs.rest, t, found, fs.key);
    }
  }

  lemma {:induction false} RemoveWellFormed(fs: Fields, k: Key)
    requires Distinct(fs) && WellFormedFields(fs)
    ensures Distinct(Remove(fs, k)) && WellFormedFields(Remove(fs, k))
  {
    if fs.Field? {
      RemoveWellFormed(fs.rest, k);
      GetRemove(fs.rest, k, fs.key);
    }
  }

  lemma {:induction false} ReplaceWellFormed(fs: Fields, k: Key, v: Json)
    requires Distinct(fs) && WellFormedFields(fs) && Has(fs, k) && WellFormed(v)
    ensures Distinct(Replace(fs, k, v)) && WellFormedFields(Replace(fs, k, v))
  {
    GetReplace(fs, k, v, k);
    if fs.key != k { ReplaceWellFormed(fs.rest, k, v); }
  }

  lemma PruneTableWellFormed(fs: Fields, t: Table, found: set<TableRef>)
    requires Distinct(fs) && WellFormedFields(fs)
    ensures Distinct(PruneTable(fs, t, found)) && WellFormedFields(PruneTable(fs, t, found))
  {
    var k := TableKey(t);
    if Has(fs, k) && Get(fs, k).value.Obj? {
      WellFormedGet(fs, k);
      RetainFoundWellFormed(Get(fs, k).value.fields, t, found);
      RemoveWellFormed(fs, k);
      ReplaceWellFormed(fs, k, Obj(RetainFound(Get(fs, k).value.fields, t, found)));
    }
  }

  lemma PruneWellFormed(decode: Decode, root: Json)
    requires WellFormed(root)
    ensures WellFormed(Prune(decode, root))
  {
    if root.Obj? {
      var found := ReachableSet(decode, root);
      PruneTableWellFormed(root.fields, DefsTable, found);
      PruneTableWellFormed(PruneTable(root.fields, DefsTable, found), DefinitionsTable, found);
    }
  }

  // ----- Reference tokens --------------------------------------------------------------

  /** The escaping of section 4 of RFC 6901. */
  function Escape(name: string): string {
    if name == "" then ""
    else (if name[0] == '~' then "~0" else if name[0] == '/' then "~1" else [name[0]]) + Escape(name[1..])
  }

  function EscapeTilde(name: string): string {
    if name == "" then "" else (if name[0] == '~' then "~0" else [name[0]]) + EscapeTilde(name[1..])
  }

  lemma {:induction false} UnescapeSlashes(name: string)
    ensures ReplaceTilde(Escape(name), '1', '/') == EscapeTilde(name)
  {
    if name != "" {
      UnescapeSlashes(name[1..]);
      var s, rest := Escape(name), Escape(name[1..]);
      if name[0] == '~' {
        assert s == "~0" + rest && s[1..] == "0" + rest && s[1..][1..] == rest;
        assert ReplaceTilde(s, '1', '/') == "~" + ReplaceTilde(s[1..], '1', '/');
        assert ReplaceTilde(s[1..], '1', '/') == "0" + ReplaceTilde(rest, '1', '/');
      } else if name[0] == '/' {
        assert s == "~1" + rest && s[2..] == rest;
      } else {
        assert s == [name[0]] + rest && s[1..] == rest;
      }
    }
  }

  lemma {:induction false} UnescapeTildes(name: string)
    ensures ReplaceTilde(EscapeTilde(name), '0', '~') == name
  {
    if name != "" {
      UnescapeTildes(name[1..]);
      var s, rest := EscapeTilde(name), EscapeTilde(name[1..]);
      if name[0] == '~' {
        assert s == "~0" + rest && s[2..] == rest;
      } else {
        assert s == [name[0]] + rest && s[1..] == rest;
      }
    }
  }

  lemma {:induction false} EscapeHasNoSlash(name: string)
    ensures '/' !in Escape(name)
  {
    if name != "" { EscapeHasNoSlash(name[1..]); }
  }

  lemma {:induction false} WholeToken(s: string)
    requires '/' !in s
    ensures Token(s) == s
  {
    if s != "" {
      assert s[0] in s;
      WholeToken(s[1..]);
      assert [s[0]] + s[1..] == s;
    }
  }

  lemma {:induction false} TokenAppend(token: string, rest: string)
    requires '/' !in token
    ensures Token(token + "/" + rest) == token && AfterToken(token + "/" + rest) == Some(rest)
  {
    var s := token + "/" + rest;
    if token == "" {
      assert s[0] == '/' && s[1..] == rest;
    } else {
      assert s[0] == token[0] && s[1..] == token[1..] + "/" + rest;
      TokenAppend(token[1..], rest);
    }
  }

  function TableText(t: Table): string {
    if t.DefsTable? then "$defs" else "definitions"
  }

  lemma UnescapeEscaped(name: string)
    ensures Unescape(Token(Escape(name))) == name
  {
    EscapeHasNoSlash(name);
    WholeToken(Escape(name));
    UnescapeSlashes(name);
    UnescapeTildes(name);
  }

  lemma TableOfText(t: Table)
    ensures TableOf(TableText(t)) == Some(t) && '/' !in TableText(t)
  {
  }

  /** Every definition name can be referenced: the fragment `/table/escaped-name` resolves to that name. */
  lemma TokensTarget(text: string, second: string, third: string, t: Table)
    requires Token(text) == "" && AfterToken(text) == Some(second) && AfterToken(second) == Some(third)
    requires TableOf(Token(second)) == Some(t)
    ensures FragmentTarget(text) == Some(TableRef(t, KeyOf(Unescape(Token(third)))))
  {
  }

  lemma ReferenceRoundTrip(t: Table, name: string)
    ensures FragmentTarget("/" + TableText(t) + "/" + Escape(name)) == Some(TableRef(t, KeyOf(name)))
  {
    var second := TableText(t) + "/" + Escape(name);
    TokenAppend("", second);
    assert "" + "/" + second == "/" + TableText(t) + "/" + Escape(name);
    TableOfText(t);
    TokenAppend(TableText(t), Escape(name));
    UnescapeEscaped(name);
    TokensTarget("/" + TableText(t) + "/" + Escape(name), second, Escape(name), t);
  }
}
