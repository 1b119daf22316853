/** What pruning leaves of a schema, and that ordering keeps it so. */
module SchemaPruned {
  import opened Domain
  import opened Json
  import opened SchemaValid
  import opened SchemaOrder
  import opened SchemaEquivalence
  import opened SchemaSanitize
  import opened SchemaCanonical
  import P = SchemaPrune
  import R = SchemaReferences

  predicate IsDefs(k: Key) {
    k == Known(Defs) || k == Known(Definitions)
  }

  /** A table that lacks some entries of another, or is that table, or is not there. */
  ghost predicate TableShadows(a: Option<Json>, b: Option<Json>) {
    || a.None? || a == b
    || (&& a.value.Obj? && b.Some? && b.value.Obj? && Distinct(a.value.fields)
        && forall q :: Has(a.value.fields, q) ==> Get(a.value.fields, q) == Get(b.value.fields, q))
  }

  /** The same fields, but for definitions that may be missing. */
  ghost predicate Shadows(x: Fields, w: Fields) {
    && Distinct(x)
    && (forall k :: !IsDefs(k) ==> Get(x, k) == Get(w, k))
    && (forall k :: IsDefs(k) ==> TableShadows(Get(x, k), Get(w, k)))
  }

  /** The entries of a sorted and ordered table. */
  lemma OrderedEntry(a: Fields, q: Key)
    requires Distinct(a)
    ensures Get(SortFields(OrderEntries(a)), q) == match Get(a, q) case None => None case Some(v) => Some(Order(v))
  {
    OrderEntriesDistinct(a);
    GetSort(OrderEntries(a), q);
    GetOrderEntries(a, q);
  }

  lemma {:induction false} OrderEntriesDistinct(a: Fields)
    requires Distinct(a)
    ensures Distinct(OrderEntries(a))
  {
    if a.Field? {
      OrderEntriesDistinct(a.rest);
      GetOrderEntries(a.rest, a.key);
    }
  }

  // ----- Pruning -----------------------------------------------------------------------

  lemma PruneTableShadows(fs: Fields, t: P.Table, found: set<P.TableRef>)
    requires Distinct(fs) && WellFormedFields(fs)
    ensures TableShadows(Get(P.PruneTable(fs, t, found), P.TableKey(t)), Get(fs, P.TableKey(t)))
  {
    var k := P.TableKey(t);
    if Has(fs, k) && Get(fs, k).value.Obj? {
      var entries := Get(fs, k).value.fields;
      var kept := P.RetainFound(entries, t, found);
      P.GetRemove(fs, k, k);
      P.GetReplace(fs, k, Obj(kept), k);
      forall q | Has(kept, q) ensures Get(kept, q) == Get(entries, q) { P.GetRetainFound(entries, t, found, q); }
      WellFormedGet(fs, k);
      P.RetainFoundWellFormed(entries, t, found);
    }
  }

  lemma PruneShadows(decode: P.Decode, w: Fields)
    requires WellFormed(Obj(w))
    ensures P.Prune(decode, Obj(w)).Obj? && Shadows(P.Prune(decode, Obj(w)).fields, w)
  {
    var found := P.ReachableSet(decode, Obj(w));
    var once := P.PruneTable(w, P.DefsTable, found);
    var x := P.PruneTable(once, P.DefinitionsTable, found);
    P.PruneTableWellFormed(w, P.DefsTable, found);
    PruneTableShadows(w, P.DefsTable, found);
    PruneTableShadows(once, P.DefinitionsTable, found);
    P.GetPruneTable(w, P.DefsTable, found, Known(Definitions));
    P.GetPruneTable(once, P.DefinitionsTable, found, Known(Defs));
    forall k | !IsDefs(k) ensures Get(x, k) == Get(w, k) {
      P.GetPruneTable(w, P.DefsTable, found, k);
      P.GetPruneTable(once, P.DefinitionsTable, found, k);
    }
  }

  lemma {:induction false} RetainAll(fs: Fields, t: P.Table, found: set<P.TableRef>)
    requires Distinct(fs) && forall q :: Has(fs, q) ==> P.TableRef(t, q) in found
    ensures P.RetainFound(fs, t, found) == fs
  {
    if fs.Field? {
      assert Has(fs, fs.key);
      forall q | Has(fs.rest, q) ensures P.TableRef(t, q) in found { assert Has(fs, q); }
      RetainAll(fs.rest, t, found);
    }
  }

  lemma TableDistinct(fs: Fields, k: Key)
    requires WellFormed(Obj(fs)) && Has(fs, k) && Get(fs, k).value.Obj?
    ensures Distinct(Get(fs, k).value.fields)
  {
    WellFormedGet(fs, k);
  }

  /** No definition table is empty, and every definition is reachable. */
  ghost predicate OnlyReachable(decode: P.Decode, root: Json) {
    root.Obj? ==> TableReachable(decode, root, P.DefsTable) && TableReachable(decode, root, P.DefinitionsTable)
  }

  ghost predicate TableReachable(decode: P.Decode, root: Json, t: P.Table)
    requires root.Obj?
  {
    match Get(root.fields, P.TableKey(t))
    case Some(Obj(entries)) =>
      entries.Field? && forall q :: Has(entries, q) ==> P.Reachable(decode, root, P.TableRef(t, q))
    case _ => true
  }

  lemma TableKept(decode: P.Decode, fs: Fields, t: P.Table)
    requires WellFormed(Obj(fs))
    ensures P.TablePruned(fs, t, P.ReachableSet(decode, Obj(fs))) <==> TableReachable(decode, Obj(fs), t)
  {
    var k, found := P.TableKey(t), P.ReachableSet(decode, Obj(fs));
    if Has(fs, k) && Get(fs, k).value.Obj? {
      var entries := Get(fs, k).value.fields;
      TableDistinct(fs, k);
      forall q ensures P.TableRef(t, q) in found <==> P.Reachable(decode, Obj(fs), P.TableRef(t, q)) {
        P.ReachableSetHolds(decode, Obj(fs), P.TableRef(t, q));
      }
      if forall q :: Has(entries, q) ==> P.TableRef(t, q) in found { RetainAll(entries, t, found); }
      if P.RetainFound(entries, t, found) == entries {
        forall q | Has(entries, q) ensures P.TableRef(t, q) in found { P.GetRetainFound(entries, t, found, q); }
      }
    }
  }

  /** Pruning leaves a schema alone exactly if there is nothing to remove. */
  lemma PruneFixed(decode: P.Decode, root: Json)
    requires WellFormed(root)
    ensures P.Prune(decode, root) == root <==> OnlyReachable(decode, root)
  {
    if root.Obj? {
      var fs, found := root.fields, P.ReachableSet(decode, root);
      var once := P.PruneTable(fs, P.DefsTable, found);
      TableKept(decode, fs, P.DefsTable);
      TableKept(decode, fs, P.DefinitionsTable);
      P.PruneTableFixes(fs, P.DefsTable, found);
      P.GetPruneTable(fs, P.DefsTable, found, Known(Definitions));
      P.PruneTableFixes(once, P.DefinitionsTable, found);
      P.GetPruneTable(once, P.DefinitionsTable, found, Known(Defs));
    }
  }

  lemma TableOfForm(x: Fields, c: Fields, t: P.Table)
    requires Distinct(x) && Order(Obj(x)) == Obj(c) && Has(c, P.TableKey(t)) && Get(c, P.TableKey(t)).value.Obj?
    ensures Has(x, P.TableKey(t)) && Get(x, P.TableKey(t)).value.Obj?
  {
    OrderedGet(x, P.TableKey(t));
  }

  /** Ordering keeps a schema free of definitions that are not reached. */
  lemma TableStaysReachable(decode: P.Decode, x: Fields, c: Fields, t: P.Table)
    requires WellFormed(Obj(x)) && WellFormed(Obj(c)) && Order(Obj(x)) == Obj(c) && Equiv(Obj(c), Obj(x))
    requires TableReachable(decode, Obj(x), t)
    ensures TableReachable(decode, Obj(c), t)
  {
    var k := P.TableKey(t);
    if Has(c, k) && Get(c, k).value.Obj? {
      TableOfForm(x, c, t);
      var entries, kept := Get(c, k).value.fields, Get(x, k).value.fields;
      R.LookupEquiv(Obj(c), Obj(x), P.TableRef(t, kept.key));
      FirstKey(kept);
      forall q | Has(entries, q) ensures P.Reachable(decode, Obj(c), P.TableRef(t, q)) {
        R.LookupEquiv(Obj(c), Obj(x), P.TableRef(t, q));
        R.ReachableEquiv(decode, Obj(c), Obj(x), P.TableRef(t, q));
      }
    }
  }

  /** The form of a schema that is not valid has only reachable definitions. */
  lemma FormReachable(decode: P.Decode, v: Json)
    requires WellFormed(v) && !Valid(v)
    ensures OnlyReachable(decode, CanonicalForm(decode, v))
  {
    var w := Sanitize(v);
    var x := P.Prune(decode, w);
    SanitizeWellFormed(v);
    P.PruneWellFormed(decode, w);
    P.PruneIdempotent(decode, w);
    PruneFixed(decode, x);
    OrderWellFormed(x);
    OrderAgrees(x);
    if x.Obj? {
      TableStaysReachable(decode, x.fields, Order(x).fields, P.DefsTable);
      TableStaysReachable(decode, x.fields, Order(x).fields, P.DefinitionsTable);
    }
  }
}
