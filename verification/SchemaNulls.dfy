/**
 Where a printed schema can hold a null: as an element of an enumeration, or inside a raw document.
 */
module SchemaNulls {
  import opened Prelude
  import opened SchemaKeys
  import opened SchemaJson
  import opened SchemaRoundTrip

  predicate NullFree(j: Json) {
    match j
    case Null => false
    case Array(es) => forall i :: 0 <= i < |es| ==> NullFree(es[i])
    case Object(fs) => forall n :: n in fs ==> NullFree(fs[n])
    case _ => true
  }

  /** A schema object: only keywords, and under each of them no null outside a raw document. */
  ghost predicate NullsOnlyInRaw(j: Json)
    decreases j, 2
  {
    j.Object?
    && (forall n :: n in j.fields ==> exists k :: n == Name(k))
    && (forall k :: Under(j, k).Some? ==> AllowedUnder(k, Under(j, k).value))
  }

  ghost predicate AllowedUnder(k: Key, v: Json)
    decreases v, 3
  {
    match k
    case Raw(_) => v != Null
    case Enum => v.Array?
    case Map(_) => v.Object? && forall n :: n in v.fields ==> NullsOnlyInRaw(v.fields[n])
    case List(_) => AllSchemas(v)
    case Dependencies => v.Object? && forall n :: n in v.fields ==> DependencyAllowed(v.fields[n])
    case Items => AllSchemas(v) || NullsOnlyInRaw(v)
    case OrBool(_) => v.Bool? || NullsOnlyInRaw(v)
    case Not => NullsOnlyInRaw(v)
    case _ => NullFree(v)
  }

  ghost predicate AllSchemas(v: Json)
    decreases v, 0
  {
    v.Array? && forall i :: 0 <= i < |v.elements| ==> NullsOnlyInRaw(v.elements[i])
  }

  ghost predicate DependencyAllowed(v: Json)
    decreases v, 0
  {
    v.Object? && forall n :: n in v.fields ==>
      if n == "schema" then NullsOnlyInRaw(v.fields[n]) else n == "property" && NullFree(v.fields[n])
  }

  lemma RuleIsNullFree(r: Rule)
    ensures NullFree(PrintRule(r))
  {
  }

  lemma LeafAllowed(s: Schema, key: Key, v: Json)
    requires Leaf(s, key) == Some(v)
    ensures AllowedUnder(key, v)
  {
    if key == Validations {
      forall i | 0 <= i < |s.validations| ensures NullFree(PrintRule(s.validations[i])) {
        RuleIsNullFree(s.validations[i]);
      }
    }
  }

  lemma EmptyAllowed()
    ensures NullsOnlyInRaw(Object(map[]))
  {
  }

  lemma {:induction false} MapAllowed(s: Schema, k: MapKey)
    ensures AllowedUnder(Map(k), Object(PrintMap(s, k)))
    decreases s, 0
  {
    forall n | n in MapOf(s, k) ensures NullsOnlyInRaw(Print(MapOf(s, k)[n])) {
      NullsInPrint(MapOf(s, k)[n]);
    }
  }

  lemma {:induction false} ListAllowed(s: Schema, k: ListKey)
    ensures AllSchemas(Array(PrintList(s, k)))
    decreases s, 0
  {
    forall i | 0 <= i < |ListOf(s, k)| ensures NullsOnlyInRaw(Print(ListOf(s, k)[i])) {
      NullsInPrint(ListOf(s, k)[i]);
    }
  }

  lemma {:induction false} DependencyIsAllowed(d: Dependency)
    ensures DependencyAllowed(PrintDependency(d))
    decreases d
  {
    if d.schema.Some? {
      NullsInPrint(d.schema.value);
    }
  }

  lemma {:induction false} DependenciesAllowed(s: Schema)
    ensures AllowedUnder(Dependencies, Object(PrintDependencies(s)))
    decreases s, 0
  {
    forall n | n in s.dependencies ensures DependencyAllowed(PrintDependency(s.dependencies[n])) {
      DependencyIsAllowed(s.dependencies[n]);
    }
  }

  lemma {:induction false} ItemsAllowed(v: OrArray)
    ensures AllowedUnder(Items, PrintItems(v))
    decreases v
  {
    EmptyAllowed();
    if v.schema.Some? {
      NullsInPrint(v.schema.value);
    } else {
      forall i | 0 <= i < |v.schemas| ensures NullsOnlyInRaw(Print(v.schemas[i])) {
        NullsInPrint(v.schemas[i]);
      }
    }
  }

  lemma {:induction false} EitherAllowed(k: OrBoolKey, v: Either)
    ensures AllowedUnder(OrBool(k), PrintEither(v))
    decreases v
  {
    EmptyAllowed();
    if v.schema.Some? {
      NullsInPrint(v.schema.value);
    }
  }

  lemma {:induction false} EntryAllowed(s: Schema, key: Key, v: Json)
    requires Entry(s, key) == Some(v)
    ensures AllowedUnder(key, v)
    decreases s, 1
  {
    match key {
      case Map(k) => MapAllowed(s, k);
      case List(k) => ListAllowed(s, k);
      case Dependencies => DependenciesAllowed(s);
      case Items => ItemsAllowed(s.items.value);
      case OrBool(k) => EitherAllowed(k, EitherOf(s, k).value);
      case Not => NullsInPrint(s.negated.value);
      case _ => LeafAllowed(s, key, v);
    }
  }

  lemma {:induction false} NullsInPrint(s: Schema)
    ensures NullsOnlyInRaw(Print(s))
    decreases s, 2
  {
    var j := Print(s);
    forall k | Under(j, k).Some? ensures AllowedUnder(k, Under(j, k).value) {
      UnderPrint(s, k);
      EntryAllowed(s, k, Under(j, k).value);
    }
    forall n | n in j.fields ensures exists k :: n == Name(k) {
      FilledNames((k: Key) => Entry(s, k), KEYWORDS, n);
    }
  }
}
