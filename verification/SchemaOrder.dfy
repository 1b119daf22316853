/**
 Canonical order: two schemas are ordered to the same value exactly if they agree under every lookup that the typed
 schema allows.
 */
module SchemaOrder {
  import opened Domain
  import opened Json
  import opened SchemaValid
  import opened TextOrder

  // ----- Key order ---------------------------------------------------------------------

  predicate KeyLess(j: Key, k: Key) {
    TextLess(Text(j), Text(k))
  }

  // ----- order -------------------------------------------------------------------------

  function InsertField(k: Key, v: Json, fs: Fields): Fields {
    if fs.Field? && KeyLess(fs.key, k) then Field(fs.key, fs.value, InsertField(k, v, fs.rest)) else Field(k, v, fs)
  }

  function SortFields(fs: Fields): Fields {
    if fs.End? then End else InsertField(fs.key, fs.value, SortFields(fs.rest))
  }

  /** Only the fields of the typed schema. */
  function RetainFields(fs: Fields): Fields {
    if fs.End? then End
    else if IsField(fs.key) then Field(fs.key, fs.value, RetainFields(fs.rest))
    else RetainFields(fs.rest)
  }

  /** The fields from number `i` on, in serialisation order. */
  function Reorder(fs: Fields, i: nat): Fields
    decreases FIELD_COUNT - i
  {
    if i >= FIELD_COUNT then End
    else
      var k := Known(FieldAt(i));
      match Get(fs, k)
      case None => Reorder(fs, i + 1)
      case Some(v) => Field(k, v, Reorder(fs, i + 1))
  }

  function Order(v: Json): Json
    decreases v, 0
  {
    if v.Obj? then Obj(Reorder(RetainFields(OrderFields(v.fields)), 0)) else v
  }

  /** Null fields are dropped; children at schema positions are ordered. */
  function OrderFields(fs: Fields): Fields
    decreases fs, 0
  {
    if fs.End? then End
    else if fs.value.Null? then OrderFields(fs.rest)
    else Field(fs.key, OrderAt(fs.key, fs.value), OrderFields(fs.rest))
  }

  function OrderAt(k: Key, v: Json): Json
    decreases v, 1
  {
    if k == Known(Items) || k == Known(AdditionalProperties) then Order(v)
    else if IsUnion(k) && v.Arr? then Arr(OrderList(v.items))
    else if IsTable(k) && v.Obj? then Obj(SortFields(OrderEntries(v.fields)))
    else v
  }

  function OrderList(l: JsonList): JsonList
    decreases l, 0
  {
    if l.Nil? then Nil else Cons(Order(l.head), OrderList(l.tail))
  }

  function OrderEntries(fs: Fields): Fields
    decreases fs, 1
  {
    if fs.End? then End else Field(fs.key, Order(fs.value), OrderEntries(fs.rest))
  }

  // ----- Lookups survive ---------------------------------------------------------------

  /** The value of a field that is present and not null. */
  function Live(fs: Fields, k: Key): Option<Json> {
    var v := Get(fs, k);
    if v == Some(Null) then None else v
  }

  lemma {:induction false} GetInsert(k: Key, v: Json, fs: Fields, q: Key)
    requires !Has(fs, k)
    ensures Get(InsertField(k, v, fs), q) == if q == k then Some(v) else Get(fs, q)
  {
    if fs.Field? { GetInsert(k, v, fs.rest, q); }
  }

  lemma {:induction false} GetSort(fs: Fields, q: Key)
    requires Distinct(fs)
    ensures Get(SortFields(fs), q) == Get(fs, q)
  {
    if fs.Field? {
      GetSort(fs.rest, q);
      GetSort(fs.rest, fs.key);
      GetInsert(fs.key, fs.value, SortFields(fs.rest), q);
    }
  }

  lemma {:induction false} GetOrderEntries(fs: Fields, q: Key)
    ensures Get(OrderEntries(fs), q) == match Get(fs, q) case None => None case Some(v) => Some(Order(v))
  {
    if fs.Field? && fs.key != q { GetOrderEntries(fs.rest, q); }
  }

  lemma {:induction false} GetOrderFields(fs: Fields, q: Key)
    requires Distinct(fs)
    ensures Get(OrderFields(fs), q) == match Live(fs, q) case None => None case Some(v) => Some(OrderAt(q, v))
  {
    if fs.Field? { GetOrderFields(fs.rest, q); }
  }

  lemma {:induction false} GetRetain(fs: Fields, q: Key)
    ensures Get(RetainFields(fs), q) == if IsField(q) then Get(fs, q) else None
  {
    if fs.Field? { GetRetain(fs.rest, q); }
  }

  lemma RankOfField(i: nat, q: Key)
    requires i < FIELD_COUNT
    ensures q == Known(FieldAt(i)) <==> IsField(q) && Rank(q.field) == i
  {
  }

  lemma ReorderStep(fs: Fields, i: nat, q: Key)
    requires i < FIELD_COUNT
    ensures Get(Reorder(fs, i), q) ==
            if q == Known(FieldAt(i)) && Has(fs, q) then Get(fs, q) else Get(Reorder(fs, i + 1), q)
  {
  }

  lemma {:induction false} GetReorder(fs: Fields, i: nat, q: Key)
    ensures Get(Reorder(fs, i), q) == if IsField(q) && Rank(q.field) >= i then Get(fs, q) else None
    decreases FIELD_COUNT - i
  {
    if i < FIELD_COUNT {
      GetReorder(fs, i + 1, q);
      ReorderStep(fs, i, q);
      RankOfField(i, q);
    }
  }

  /** Ordering an object keeps exactly the live fields of the typed schema, each ordered. */
  lemma GetOrder(fs: Fields, q: Key)
    requires Distinct(fs)
    ensures Get(Order(Obj(fs)).fields, q) ==
            if !IsField(q) then None
            else match Live(fs, q) case None => None case Some(v) => Some(OrderAt(q, v))
  {
    GetOrderFields(fs, q);
    GetRetain(OrderFields(fs), q);
    GetReorder(RetainFields(OrderFields(fs)), 0, q);
  }

  /** The value that ordering leaves of a field. */
  ghost function Ordered(k: Key, v: Option<Json>): (r: Option<Json>)
    ensures r != Some(Null)
  {
    if !IsField(k) || v.None? || v == Some(Null) then None
    else
      OrderAtNotNull(k, v.value);
      Some(OrderAt(k, v.value))
  }

  lemma OrderedGet(fs: Fields, k: Key)
    requires Distinct(fs)
    ensures Get(Order(Obj(fs)).fields, k) == Ordered(k, Get(fs, k))
  {
    GetOrder(fs, k);
  }

  lemma OrderAtNotNull(k: Key, v: Json)
    requires !v.Null?
    ensures !OrderAt(k, v).Null?
  {
  }

  // ----- The result is well formed -----------------------------------------------------

  lemma {:induction false} SortWellFormed(fs: Fields)
    requires Distinct(fs) && WellFormedFields(fs)
    ensures Distinct(SortFields(fs)) && WellFormedFields(SortFields(fs))
  {
    if fs.Field? {
      SortWellFormed(fs.rest);
      GetSort(fs.rest, fs.key);
      InsertWellFormed(fs.key, fs.value, SortFields(fs.rest));
    }
  }

  lemma {:induction false} InsertWellFormed(k: Key, v: Json, fs: Fields)
    requires WfKey(k) && WellFormed(v) && !Has(fs, k) && Distinct(fs) && WellFormedFields(fs)
    ensures Distinct(InsertField(k, v, fs)) && WellFormedFields(InsertField(k, v, fs))
  {
    if fs.Field? {
      InsertWellFormed(k, v, fs.rest);
      GetInsert(k, v, fs.rest, fs.key);
    }
  }

  lemma NotLater(fs: Fields, i: nat)
    requires i < FIELD_COUNT
    ensures !Has(Reorder(fs, i + 1), Known(FieldAt(i)))
  {
    GetReorder(fs, i + 1, Known(FieldAt(i)));
  }

  lemma WellFormedFront(k: Key, v: Json, fs: Fields)
    requires Distinct(fs) && WellFormedFields(fs) && !Has(fs, k) && WfKey(k) && WellFormed(v)
    ensures Distinct(Field(k, v, fs)) && WellFormedFields(Field(k, v, fs))
  {
  }

  lemma {:induction false} ReorderWellFormed(fs: Fields, i: nat)
    requires WellFormedFields(fs)
    ensures Distinct(Reorder(fs, i)) && WellFormedFields(Reorder(fs, i))
    decreases FIELD_COUNT - i
  {
    if i < FIELD_COUNT {
      var k := Known(FieldAt(i));
      ReorderWellFormed(fs, i + 1);
      if Has(fs, k) {
        WellFormedGet(fs, k);
        NotLater(fs, i);
        WellFormedFront(k, Get(fs, k).value, Reorder(fs, i + 1));
      }
    }
  }

  lemma {:induction false} RetainWellFormed(fs: Fields)
    requires WellFormedFields(fs)
    ensures WellFormedFields(RetainFields(fs))
  {
    if fs.Field? { RetainWellFormed(fs.rest); }
  }

  lemma {:induction false} OrderWellFormed(v: Json)
    requires WellFormed(v)
    ensures WellFormed(Order(v))
    decreases v, 0
  {
    if v.Obj? {
      OrderFieldsWellFormed(v.fields);
      RetainWellFormed(OrderFields(v.fields));
      ReorderWellFormed(RetainFields(OrderFields(v.fields)), 0);
    }
  }

  lemma {:induction false} OrderFieldsWellFormed(fs: Fields)
    requires WellFormedFields(fs)
    ensures WellFormedFields(OrderFields(fs))
    decreases fs, 0
  {
    if fs.Field? {
      OrderFieldsWellFormed(fs.rest);
      OrderAtWellFormed(fs.key, fs.value);
    }
  }

  lemma {:induction false} OrderAtWellFormed(k: Key, v: Json)
    requires WellFormed(v)
    ensures WellFormed(OrderAt(k, v))
    decreases v, 1
  {
    OrderWellFormed(v);
    if v.Arr? { OrderListWellFormed(v.items); }
    if v.Obj? {
      OrderEntriesWellFormed(v.fields);
      SortWellFormed(OrderEntries(v.fields));
    }
  }

  lemma {:induction false} OrderListWellFormed(l: JsonList)
    requires WellFormedList(l)
    ensures WellFormedList(OrderList(l))
    decreases l, 0
  {
    if l.Cons? {
      OrderWellFormed(l.head);
      OrderListWellFormed(l.tail);
    }
  }

  lemma {:induction false} OrderEntriesWellFormed(fs: Fields)
    requires Distinct(fs) && WellFormedFields(fs)
    ensures Distinct(OrderEntries(fs)) && WellFormedFields(OrderEntries(fs))
    decreases fs, 1
  {
    if fs.Field? {
      OrderWellFormed(fs.value);
      OrderEntriesWellFormed(fs.rest);
      GetOrderEntries(fs.rest, fs.key);
    }
  }

  // ----- Sorted tables are determined by their lookups ---------------------------------

  ghost predicate SameLookups(f: Fields, g: Fields) {
    forall k :: Get(f, k) == Get(g, k)
  }

  /** `k` comes before every key of the table. */
  ghost predicate Below(k: Key, fs: Fields) {
    forall q :: Has(fs, q) ==> KeyLess(k, q)
  }

  ghost predicate Sorted(fs: Fields) {
    fs.Field? ==> Below(fs.key, fs.rest) && Sorted(fs.rest)
  }

  lemma {:induction false} InsertSorted(k: Key, v: Json, fs: Fields)
    requires WfKey(k) && !Has(fs, k) && Distinct(fs) && Sorted(fs)
    ensures Sorted(InsertField(k, v, fs))
  {
    if fs.Field? {
      if KeyLess(fs.key, k) {
        InsertSorted(k, v, fs.rest);
        forall q | Has(InsertField(k, v, fs.rest), q) ensures KeyLess(fs.key, q) { GetInsert(k, v, fs.rest, q); }
      } else {
        TextTrichotomy(Text(fs.key), Text(k));
        if Text(fs.key) == Text(k) { TextInjective(fs.key, k); }
        forall q | Has(fs, q) ensures KeyLess(k, q) {
          if q != fs.key {
            assert Has(fs.rest, q);
            TextTransitive(Text(k), Text(fs.key), Text(q));
          }
        }
      }
    }
  }

  lemma {:induction false} SortSorted(fs: Fields)
    requires Distinct(fs) && WellFormedFields(fs)
    ensures Sorted(SortFields(fs))
  {
    if fs.Field? {
      SortSorted(fs.rest);
      SortWellFormed(fs.rest);
      GetSort(fs.rest, fs.key);
      InsertSorted(fs.key, fs.value, SortFields(fs.rest));
    }
  }

  lemma {:induction false} SortedUnique(f: Fields, g: Fields)
    requires Sorted(f) && Sorted(g) && Distinct(f) && Distinct(g) && SameLookups(f, g)
    ensures f == g
  {
    if f.Field? { assert Get(f, f.key) == Get(g, f.key); }
    if g.Field? { assert Get(f, g.key) == Get(g, g.key); }
    if f.Field? {
      if f.key != g.key {
        assert Has(g.rest, f.key) && Has(f.rest, g.key);
        assert KeyLess(f.key, g.key) && KeyLess(g.key, f.key);
        TextTrichotomy(Text(f.key), Text(g.key));
        assert false;
      }
      forall k ensures Get(f.rest, k) == Get(g.rest, k) {
        assert Get(f, k) == Get(g, k);
      }
      SortedUnique(f.rest, g.rest);
    }
  }
}
