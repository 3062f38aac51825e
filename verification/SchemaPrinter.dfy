/** The printer as it works: one mutable map per schema, filled keyword by keyword, recursing. */
module SchemaPrinter {
  import opened Prelude
  import opened SchemaKeys
  import opened SchemaJson
  import opened SchemaRoundTrip

  method PrintSchema(s: Schema) returns (j: Json)
    ensures j == Print(s)
    decreases s, 4
  {
    ghost var entry := (k: Key) => Entry(s, k);
    var m: map<string, Json> := map[];
    for i := 0 to KEYWORDS
      invariant m == Filled(entry, i)
    {
      var v := EntryOf(s, KeyAt(i));
      if v.Some? {
        m := m[Name(KeyAt(i)) := v.value];
      }
    }
    j := Object(m);
    assert Print(s) == Object(Filled(entry, KEYWORDS));
  }

  method EntryOf(s: Schema, key: Key) returns (v: Option<Json>)
    ensures v == Entry(s, key)
    decreases s, 3
  {
    match key
    case Map(k) =>
      var m := PrintFields(s, MapOf(s, k));
      FieldsArePrinted(s, k, m);
      v := NonEmptyObject(m);
    case List(k) =>
      var es := PrintElements(s, ListOf(s, k));
      ElementsArePrinted(s, k, es);
      v := NonEmpty(es);
    case Dependencies =>
      var m := PrintDependencyFields(s);
      v := NonEmptyObject(m);
    case Items =>
      if s.items.None? {
        v := None;
      } else {
        var j := PrintOrArray(s, s.items.value);
        v := Some(j);
      }
    case OrBool(k) =>
      if EitherOf(s, k).None? {
        v := None;
      } else {
        var j := PrintOrBool(EitherOf(s, k).value);
        v := Some(j);
      }
    case Not =>
      if s.negated.None? {
        v := None;
      } else {
        var j := PrintSchema(s.negated.value);
        v := Some(j);
      }
    case _ => v := Leaf(s, key);
  }

  method PrintFields(ghost parent: Schema, m: map<string, Schema>) returns (o: map<string, Json>)
    requires forall n :: n in m ==> m[n] < parent
    ensures Printed(m, o)
    decreases parent, 1
  {
    var todo := m.Keys;
    o := map[];
    while todo != {}
      invariant todo <= m.Keys && o.Keys == m.Keys - todo
      invariant forall n :: n in o ==> o[n] == Print(m[n])
      decreases |todo|
    {
      var n :| n in todo;
      var j := PrintSchema(m[n]);
      o := o[n := j];
      todo := todo - {n};
    }
  }

  method PrintElements(ghost parent: Schema, ss: seq<Schema>) returns (es: seq<Json>)
    requires forall i :: 0 <= i < |ss| ==> ss[i] < parent
    ensures |es| == |ss| && forall i :: 0 <= i < |ss| ==> es[i] == Print(ss[i])
    decreases parent, 1
  {
    es := [];
    while |es| < |ss|
      invariant |es| <= |ss| && forall h :: 0 <= h < |es| ==> es[h] == Print(ss[h])
    {
      var s := ss[|es|];
      assert s < parent;
      var j := PrintSchema(s);
      es := es + [j];
    }
  }

  lemma FieldsArePrinted(s: Schema, k: MapKey, o: map<string, Json>)
    requires Printed(MapOf(s, k), o)
    ensures o == PrintMap(s, k)
  {
    PrintMapPrinted(s, k);
    PrintedIsUnique(MapOf(s, k), o, PrintMap(s, k));
  }

  lemma ElementsArePrinted(s: Schema, k: ListKey, es: seq<Json>)
    requires |es| == |ListOf(s, k)| && forall i :: 0 <= i < |es| ==> es[i] == Print(ListOf(s, k)[i])
    ensures es == PrintList(s, k)
  {
  }

  method PrintDependencyFields(s: Schema) returns (o: map<string, Json>)
    ensures o == PrintDependencies(s)
    decreases s, 1
  {
    var todo := s.dependencies.Keys;
    o := map[];
    while todo != {}
      invariant todo <= s.dependencies.Keys && o.Keys == s.dependencies.Keys - todo
      invariant forall n :: n in o ==> o[n] == PrintDependency(s.dependencies[n])
      decreases |todo|
    {
      var n :| n in todo;
      var j := PrintOneDependency(s.dependencies[n]);
      o := o[n := j];
      todo := todo - {n};
    }
  }

  method PrintOneDependency(d: Dependency) returns (j: Json)
    ensures j == PrintDependency(d)
    decreases d
  {
    var m: map<string, Json> := map[];
    if d.schema.Some? {
      var v := PrintSchema(d.schema.value);
      m := m["schema" := v];
    }
    if d.property != [] {
      m := m["property" := Array(Strings(d.property))];
    }
    j := Object(m);
  }

  method PrintOrArray(ghost parent: Schema, v: OrArray) returns (j: Json)
    requires v < parent
    ensures j == PrintItems(v)
    decreases parent, 2
  {
    if v.schema.Some? {
      j := PrintSchema(v.schema.value);
    } else if v.schemas != [] {
      var es := PrintElements(parent, v.schemas);
      j := Array(es);
    } else {
      j := Object(map[]);
    }
  }

  method PrintOrBool(v: Either) returns (j: Json)
    ensures j == PrintEither(v)
    decreases v
  {
    if v.schema.Some? {
      j := PrintSchema(v.schema.value);
    } else if v.allows.Some? {
      j := Bool(v.allows.value);
    } else {
      j := Object(map[]);
    }
  }
}
