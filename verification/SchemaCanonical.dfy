/** The canonical form of a tool schema. */
module SchemaCanonical {
  import opened Domain
  import opened Json
  import opened SchemaValid
  import opened SchemaOrder
  import opened SchemaEquivalence
  import P = SchemaPrune
  import opened SchemaSanitize
  import L = SchemaLowered

  ghost function CanonicalForm(decode: P.Decode, v: Json): Json {
    if Valid(v) then Order(v) else Order(P.Prune(decode, Sanitize(v)))
  }

  method Canonicalize(decode: P.Decode, value: Json) returns (r: Json)
    ensures r == CanonicalForm(decode, value)
  {
    r := value;
    if !Valid(r) {
      r := Sanitize(r);
      r := P.PruneDefinitions(decode, r);
    }
    r := Order(r);
  }

  ghost predicate IsValidInput(decode: P.Decode, v: Json) {
    || Valid(v)
    || (var c := CanonicalForm(decode, v);
        Valid(c) && Get(c.fields, Known(Type)) != Some(Str("null")))
  }

  method ValidInput(decode: P.Decode, value: Json) returns (ok: bool)
    ensures ok == IsValidInput(decode, value)
  {
    if Valid(value) {
      return true;
    }
    var c := Canonicalize(decode, value);
    if !c.Obj? {
      return false;
    }
    return Get(c.fields, Known(Type)) != Some(Str("null")) && Valid(c);
  }

  /** Whatever is ordered: the schema itself, or its lowered and pruned form. */
  lemma CanonicalIsOrdered(decode: P.Decode, v: Json) returns (x: Json)
    requires WellFormed(v)
    ensures WellFormed(x) && CanonicalForm(decode, v) == Order(x)
  {
    if Valid(v) {
      x := v;
    } else {
      x := P.Prune(decode, Sanitize(v));
      SanitizeWellFormed(v);
      P.PruneWellFormed(decode, Sanitize(v));
    }
  }

  /** Accepted input has a valid canonical form, and canonicalising it again changes nothing. */
  lemma CanonicalFormOfAcceptedInput(decode: P.Decode, v: Json)
    requires WellFormed(v) && IsValidInput(decode, v)
    ensures var c := CanonicalForm(decode, v); Valid(c) && CanonicalForm(decode, c) == c
  {
    var x := CanonicalIsOrdered(decode, v);
    OrderIdempotent(x);
    if Valid(v) { OrderValid(v); }
  }

  /** Two valid schemas have the same canonical form exactly if they agree under every lookup: key order is the only
      thing, with explicit nulls, that canonicalising a valid schema forgets. */
  lemma CanonicalFormForgetsOnlyOrder(decode: P.Decode, v: Json, w: Json)
    requires WellFormed(v) && WellFormed(w) && Valid(v) && Valid(w)
    ensures CanonicalForm(decode, v) == CanonicalForm(decode, w) <==> Equiv(v, w)
    ensures Equiv(CanonicalForm(decode, v), v)
  {
    OrderIsCanonical(v, w);
    OrderAgrees(v);
  }

  /** Objects with the same fields in another order agree. */
  lemma PermutedFieldsAgree(f: Fields, g: Fields)
    requires WellFormed(Obj(f)) && WellFormed(Obj(g)) && SameLookups(f, g)
    ensures Equiv(Obj(f), Obj(g))
  {
    OrderIsCanonical(Obj(f), Obj(f));
    forall k | IsField(k) ensures EquivField(k, f, g) {
      assert EquivField(k, f, f) && Get(f, k) == Get(g, k);
    }
  }
}
