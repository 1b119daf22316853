/** Ordering is a canonical form: a complete invariant of agreement under lookups. */
module SchemaEquivalence {
  import opened Domain
  import opened Json
  import opened SchemaValid
  import opened SchemaOrder

  // ----- Agreement under lookups -------------------------------------------------------

  /** Two schemas agree: every field of the typed schema is present and not null in both or in neither, and its
      values agree, as schemas at schema positions, name by name in tables, and literally elsewhere. The order of
      keys plays no part. */
  ghost predicate Equiv(v: Json, w: Json)
    decreases Size(v), 1
  {
    if v.Obj? && w.Obj? then forall k :: IsField(k) ==> EquivField(k, v.fields, w.fields) else v == w
  }

  ghost predicate EquivField(k: Key, f: Fields, g: Fields)
    decreases FieldsSize(f), 3
  {
    match Live(f, k)
    case None => Live(g, k).None?
    case Some(a) => SizeOfGet(f, k); Live(g, k).Some? && EquivAt(k, a, Live(g, k).value)
  }

  ghost predicate EquivAt(k: Key, a: Json, b: Json)
    decreases Size(a), 2
  {
    if k == Known(Items) || k == Known(AdditionalProperties) then Equiv(a, b)
    else if IsUnion(k) && a.Arr? && b.Arr? then EquivList(a.items, b.items)
    else if IsTable(k) && a.Obj? && b.Obj? then forall q :: EquivEntry(q, a.fields, b.fields)
    else a == b
  }

  ghost predicate EquivList(l: JsonList, m: JsonList)
    decreases ListSize(l), 3
  {
    if l.Nil? || m.Nil? then l == m else Equiv(l.head, m.head) && EquivList(l.tail, m.tail)
  }

  ghost predicate EquivEntry(q: Key, f: Fields, g: Fields)
    decreases FieldsSize(f), 3
  {
    match Get(f, q)
    case None => Get(g, q).None?
    case Some(a) => SizeOfGet(f, q); Get(g, q).Some? && Equiv(a, Get(g, q).value)
  }

  // ----- Agreeing schemas are ordered alike --------------------------------------------

  lemma {:induction false} ReorderSame(f: Fields, g: Fields, i: nat)
    requires forall k :: IsField(k) ==> Get(f, k) == Get(g, k)
    ensures Reorder(f, i) == Reorder(g, i)
    decreases FIELD_COUNT - i
  {
    if i < FIELD_COUNT {
      ReorderSame(f, g, i + 1);
      assert IsField(Known(FieldAt(i)));
    }
  }

  lemma {:induction false} EquivOrderedAlike(v: Json, w: Json)
    requires WellFormed(v) && WellFormed(w) && Equiv(v, w)
    ensures Order(v) == Order(w)
    decreases Size(v), 1
  {
    if v.Obj? && w.Obj? {
      var f, g := RetainFields(OrderFields(v.fields)), RetainFields(OrderFields(w.fields));
      forall k | IsField(k) ensures Get(f, k) == Get(g, k) {
        assert EquivField(k, v.fields, w.fields);
        FieldsOrderedAlike(k, v.fields, w.fields);
      }
      ReorderSame(f, g, 0);
    }
  }

  lemma {:induction false} FieldsOrderedAlike(k: Key, f: Fields, g: Fields)
    requires Distinct(f) && WellFormedFields(f) && Distinct(g) && WellFormedFields(g)
    requires IsField(k) && EquivField(k, f, g)
    ensures Get(RetainFields(OrderFields(f)), k) == Get(RetainFields(OrderFields(g)), k)
    decreases FieldsSize(f), 3
  {
    GetOrderFields(f, k);
    GetOrderFields(g, k);
    GetRetain(OrderFields(f), k);
    GetRetain(OrderFields(g), k);
    if Live(f, k).Some? {
      SizeOfGet(f, k);
      WellFormedGet(f, k);
      WellFormedGet(g, k);
      EquivAtOrderedAlike(k, Live(f, k).value, Live(g, k).value);
    }
  }

  lemma {:induction false} EquivAtOrderedAlike(k: Key, a: Json, b: Json)
    requires WellFormed(a) && WellFormed(b) && EquivAt(k, a, b)
    ensures OrderAt(k, a) == OrderAt(k, b)
    decreases Size(a), 2
  {
    if k == Known(Items) || k == Known(AdditionalProperties) {
      EquivOrderedAlike(a, b);
    } else if IsUnion(k) && a.Arr? && b.Arr? {
      ListsOrderedAlike(a.items, b.items);
    } else if IsTable(k) && a.Obj? && b.Obj? {
      TablesOrderedAlike(a.fields, b.fields);
    }
  }

  lemma {:induction false} ListsOrderedAlike(l: JsonList, m: JsonList)
    requires WellFormedList(l) && WellFormedList(m) && EquivList(l, m)
    ensures OrderList(l) == OrderList(m)
    decreases ListSize(l), 3
  {
    if l.Cons? && m.Cons? {
      EquivOrderedAlike(l.head, m.head);
      ListsOrderedAlike(l.tail, m.tail);
    }
  }

  lemma {:induction false} TablesOrderedAlike(f: Fields, g: Fields)
    requires Distinct(f) && WellFormedFields(f) && Distinct(g) && WellFormedFields(g)
    requires forall q :: EquivEntry(q, f, g)
    ensures SortFields(OrderEntries(f)) == SortFields(OrderEntries(g))
    decreases FieldsSize(f), 3
  {
    var f', g' := OrderEntries(f), OrderEntries(g);
    OrderEntriesWellFormed(f);
    OrderEntriesWellFormed(g);
    SortWellFormed(f');
    SortWellFormed(g');
    SortSorted(f');
    SortSorted(g');
    forall q ensures Get(SortFields(f'), q) == Get(SortFields(g'), q) {
      GetSort(f', q);
      GetSort(g', q);
      GetOrderEntries(f, q);
      GetOrderEntries(g, q);
      assert EquivEntry(q, f, g);
      if Has(f, q) {
        SizeOfGet(f, q);
        WellFormedGet(f, q);
        WellFormedGet(g, q);
        EquivOrderedAlike(Get(f, q).value, Get(g, q).value);
      }
    }
    SortedUnique(SortFields(f'), SortFields(g'));
  }

  // ----- Schemas that are ordered alike agree ------------------------------------------

  lemma {:induction false} OrderedAlikeEquiv(v: Json, w: Json)
    requires WellFormed(v) && WellFormed(w) && Order(v) == Order(w)
    ensures Equiv(v, w)
    decreases Size(v), 1
  {
    if v.Obj? && w.Obj? {
      forall k | IsField(k) ensures EquivField(k, v.fields, w.fields) {
        GetOrder(v.fields, k);
        GetOrder(w.fields, k);
        if Live(v.fields, k).Some? {
          SizeOfGet(v.fields, k);
          WellFormedGet(v.fields, k);
          WellFormedGet(w.fields, k);
          OrderedAlikeEquivAt(k, Live(v.fields, k).value, Live(w.fields, k).value);
        }
      }
    }
  }

  lemma {:induction false} OrderedAlikeEquivAt(k: Key, a: Json, b: Json)
    requires WellFormed(a) && WellFormed(b) && OrderAt(k, a) == OrderAt(k, b)
    ensures EquivAt(k, a, b)
    decreases Size(a), 2
  {
    if k == Known(Items) || k == Known(AdditionalProperties) {
      OrderedAlikeEquiv(a, b);
    } else if IsUnion(k) && a.Arr? && b.Arr? {
      OrderedAlikeEquivList(a.items, b.items);
    } else if IsTable(k) && a.Obj? && b.Obj? {
      forall q ensures EquivEntry(q, a.fields, b.fields) {
        OrderedAlikeEquivEntry(q, a.fields, b.fields);
      }
    }
  }

  lemma {:induction false} OrderedAlikeEquivList(l: JsonList, m: JsonList)
    requires WellFormedList(l) && WellFormedList(m) && OrderList(l) == OrderList(m)
    ensures EquivList(l, m)
    decreases ListSize(l), 3
  {
    if l.Cons? && m.Cons? {
      OrderedAlikeEquiv(l.head, m.head);
      OrderedAlikeEquivList(l.tail, m.tail);
    }
  }

  lemma {:induction false} OrderedAlikeEquivEntry(q: Key, f: Fields, g: Fields)
    requires Distinct(f) && WellFormedFields(f) && Distinct(g) && WellFormedFields(g)
    requires SortFields(OrderEntries(f)) == SortFields(OrderEntries(g))
    ensures EquivEntry(q, f, g)
    decreases FieldsSize(f), 3
  {
    OrderEntriesWellFormed(f);
    OrderEntriesWellFormed(g);
    GetSort(OrderEntries(f), q);
    GetSort(OrderEntries(g), q);
    GetOrderEntries(f, q);
    GetOrderEntries(g, q);
    if Has(f, q) {
      SizeOfGet(f, q);
      WellFormedGet(f, q);
      WellFormedGet(g, q);
      OrderedAlikeEquiv(Get(f, q).value, Get(g, q).value);
    }
  }

  /** Ordering is a complete invariant: two schemas have the same canonical form exactly if they agree under
      every lookup. */
  lemma OrderIsCanonical(v: Json, w: Json)
    requires WellFormed(v) && WellFormed(w)
    ensures Order(v) == Order(w) <==> Equiv(v, w)
  {
    if Order(v) == Order(w) { OrderedAlikeEquiv(v, w); }
    if Equiv(v, w) { EquivOrderedAlike(v, w); }
  }

  // ----- A schema agrees with its canonical form ---------------------------------------

  lemma {:induction false} OrderAgrees(v: Json)
    requires WellFormed(v)
    ensures Equiv(Order(v), v)
    decreases Size(v), 1
  {
    if v.Obj? {
      forall k | IsField(k) ensures EquivField(k, Order(v).fields, v.fields) {
        GetOrder(v.fields, k);
        if Live(v.fields, k).Some? {
          SizeOfGet(v.fields, k);
          WellFormedGet(v.fields, k);
          OrderAtNotNull(k, Live(v.fields, k).value);
          OrderAtAgrees(k, Live(v.fields, k).value);
        }
      }
    }
  }

  lemma {:induction false} OrderAtAgrees(k: Key, a: Json)
    requires WellFormed(a)
    ensures EquivAt(k, OrderAt(k, a), a)
    decreases Size(a), 2
  {
    if k == Known(Items) || k == Known(AdditionalProperties) {
      OrderAgrees(a);
    } else if IsUnion(k) && a.Arr? {
      OrderListAgrees(a.items);
    } else if IsTable(k) && a.Obj? {
      var f := a.fields;
      OrderEntriesWellFormed(f);
      forall q ensures EquivEntry(q, SortFields(OrderEntries(f)), f) {
        GetSort(OrderEntries(f), q);
        GetOrderEntries(f, q);
        if Has(f, q) {
          SizeOfGet(f, q);
          WellFormedGet(f, q);
          OrderAgrees(Get(f, q).value);
        }
      }
    }
  }

  lemma {:induction false} OrderListAgrees(l: JsonList)
    requires WellFormedList(l)
    ensures EquivList(OrderList(l), l)
    decreases ListSize(l), 3
  {
    if l.Cons? {
      OrderAgrees(l.head);
      OrderListAgrees(l.tail);
    }
  }

  lemma OrderIdempotent(v: Json)
    requires WellFormed(v)
    ensures Order(Order(v)) == Order(v)
  {
    OrderWellFormed(v);
    OrderAgrees(v);
    EquivOrderedAlike(Order(v), v);
  }

  // ----- Validity survives -------------------------------------------------------------

  lemma {:induction false} ReorderValid(fs: Fields, i: nat)
    requires forall k :: IsField(k) && Has(fs, k) ==> FieldOk(k, Get(fs, k).value)
    ensures ValidFields(Reorder(fs, i))
    decreases FIELD_COUNT - i
  {
    if i < FIELD_COUNT {
      ReorderValid(fs, i + 1);
      assert IsField(Known(FieldAt(i)));
    }
  }

  lemma {:induction false} OrderValid(v: Json)
    requires WellFormed(v) && Valid(v)
    ensures Valid(Order(v))
    decreases Size(v), 1
  {
    var fs := RetainFields(OrderFields(v.fields));
    forall k | IsField(k) && Has(fs, k) ensures FieldOk(k, Get(fs, k).value) {
      GetOrderFields(v.fields, k);
      GetRetain(OrderFields(v.fields), k);
      SizeOfGet(v.fields, k);
      ValidGet(v.fields, k);
      WellFormedGet(v.fields, k);
      OrderAtValid(k, Get(v.fields, k).value);
    }
    ReorderValid(fs, 0);
  }

  lemma {:induction false} OrderAtValid(k: Key, a: Json)
    requires WellFormed(a) && !a.Null? && FieldOk(k, a)
    ensures FieldOk(k, OrderAt(k, a))
    decreases Size(a), 2
  {
    if k == Known(Items) || (k == Known(AdditionalProperties) && !a.Bool?) {
      OrderValid(a);
    } else if IsUnion(k) {
      OrderListValid(a.items);
    } else if IsTable(k) {
      OrderEntriesValid(a.fields);
      SortValid(OrderEntries(a.fields));
    }
  }

  lemma {:induction false} OrderListValid(l: JsonList)
    requires WellFormedList(l) && ValidList(l)
    ensures ValidList(OrderList(l))
    decreases ListSize(l), 3
  {
    if l.Cons? {
      OrderValid(l.head);
      OrderListValid(l.tail);
    }
  }

  lemma {:induction false} OrderEntriesValid(fs: Fields)
    requires WellFormedFields(fs) && ValidEntries(fs)
    ensures ValidEntries(OrderEntries(fs))
    decreases FieldsSize(fs), 3
  {
    if fs.Field? {
      OrderValid(fs.value);
      OrderEntriesValid(fs.rest);
    }
  }

  lemma {:induction false} SortValid(fs: Fields)
    requires ValidEntries(fs)
    ensures ValidEntries(SortFields(fs))
  {
    if fs.Field? {
      SortValid(fs.rest);
      InsertValid(fs.key, fs.value, SortFields(fs.rest));
    }
  }

  lemma {:induction false} InsertValid(k: Key, v: Json, fs: Fields)
    requires Valid(v) && ValidEntries(fs)
    ensures ValidEntries(InsertField(k, v, fs))
  {
    if fs.Field? { InsertValid(k, v, fs.rest); }
  }
}
