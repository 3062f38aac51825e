/**
 What a printed schema determines: its normal form, and nothing less.
 */
module SchemaRoundTrip {
  import opened Prelude
  import opened SchemaKeys
  import opened SchemaJson

  // ---- Insertions -----------------------------------------------------------------------------

  lemma {:induction false} FilledLookup(entry: Key -> Option<Json>, n: nat, k: Key)
    requires n <= KEYWORDS
    ensures At(Filled(entry, n), Name(k)) == if Position(k) < n then entry(k) else None
  {
    if n > 0 {
      FilledLookup(entry, n - 1, k);
      NameAtPosition(n - 1, k);
    }
  }

  lemma NameAtPosition(i: nat, k: Key)
    requires i < KEYWORDS
    ensures Name(KeyAt(i)) == Name(k) <==> i == Position(k)
    ensures Name(KeyAt(i)) == Name(k) <==> KeyAt(i) == k
  {
    KeyAtPosition(i);
    PositionOfKey(k);
    if Name(KeyAt(i)) == Name(k) {
      NamesAreDistinct(KeyAt(i), k);
    }
  }

  lemma {:induction false} FilledSame(a: Key -> Option<Json>, b: Key -> Option<Json>, n: nat)
    requires n <= KEYWORDS && forall k :: a(k) == b(k)
    ensures Filled(a, n) == Filled(b, n)
  {
    if n > 0 {
      FilledSame(a, b, n - 1);
    }
  }

  lemma {:induction false} FilledNames(entry: Key -> Option<Json>, n: nat, name: string)
    requires n <= KEYWORDS && name in Filled(entry, n)
    ensures exists k: Key :: name == Name(k)
  {
    if n > 0 && name != Name(KeyAt(n - 1)) {
      FilledNames(entry, n - 1, name);
    }
  }

  /** Every keyword holds exactly what its own field prints. */
  lemma UnderPrint(s: Schema, k: Key)
    ensures Under(Print(s), k) == Entry(s, k)
  {
    var entry := (k: Key) => Entry(s, k);
    FilledLookup(entry, KEYWORDS, k);
    assert Print(s) == Object(Filled(entry, KEYWORDS));
  }

  // ---- Fields without nested schemas ----------------------------------------------------------

  lemma StringsBack(ss: seq<string>)
    ensures ReadStrings(Array(Strings(ss))) == ss
  {
  }

  lemma DocsBack(d: Docs)
    ensures ReadDocs(PrintDocs(d)) == NormalDocs(Some(d))
  {
    assert |"description"| != |"url"|;
    var m := Put(Put(map[], "description", NonEmptyText(d.description)), "url", NonEmptyText(d.url));
    assert At(m, "description") == NonEmptyText(d.description);
    assert At(m, "url") == NonEmptyText(d.url);
  }

  /** Insertions under distinct names do not disturb each other. */
  lemma SixPuts(a: string, b: string, c: string, d: string, e: string, f: string,
                va: Option<Json>, vb: Option<Json>, vc: Option<Json>, vd: Option<Json>, ve: Option<Json>, vf: Option<Json>)
    requires a != b && a != c && a != d && a != e && a != f && b != c && b != d && b != e && b != f
    requires c != d && c != e && c != f && d != e && d != f && e != f
    ensures var m := Put(Put(Put(Put(Put(Put(map[], a, va), b, vb), c, vc), d, vd), e, ve), f, vf);
            At(m, a) == va && At(m, b) == vb && At(m, c) == vc && At(m, d) == vd && At(m, e) == ve && At(m, f) == vf
  {
  }

  lemma RuleBack(r: Rule)
    ensures ReadRule(PrintRule(r)) == NormalRule(r)
  {
    var names := RuleNames();
    SixPuts(names[0], names[1], names[2], names[3], names[4], names[5],
            NonEmptyText(r.rule), NonEmptyText(r.message), NonEmptyText(r.messageExpression), NonEmptyText(r.reason),
            NonEmptyText(r.fieldPath), if r.optionalOldSelf == Some(true) then Some(Bool(true)) else None);
  }

  lemma RuleNames() returns (names: seq<string>)
    ensures names == ["rule", "message", "messageExpression", "reason", "fieldPath", "optionalOldSelf"]
    ensures forall i, j :: 0 <= i < j < 6 ==> names[i] != names[j]
  {
    names := ["rule", "message", "messageExpression", "reason", "fieldPath", "optionalOldSelf"];
    var lengths := [4, 7, 17, 6, 9, 15];
    assert forall i :: 0 <= i < 6 ==> |names[i]| == lengths[i];
  }

  lemma RulesBack(rs: seq<Rule>)
    ensures ReadRules(NonEmpty(PrintRules(rs))) == NormalRules(rs)
  {
    forall i | 0 <= i < |rs| ensures ReadRule(PrintRules(rs)[i]) == NormalRule(rs[i]) {
      RuleBack(rs[i]);
    }
  }

  lemma EnumBack(rs: seq<RawJson>)
    ensures ReadEnum(NonEmpty(RawValues(rs))) == NormalEnums(rs)
  {
  }

  lemma TextsBack(s: Schema, j: Json)
    requires forall k :: Under(j, Text(k)) == Leaf(s, Text(k))
    ensures ReadTexts(j) == NormalTexts(s.texts)
  {
  }

  lemma FlagsBack(s: Schema, j: Json)
    requires forall k :: Under(j, Flag(k)) == Leaf(s, Flag(k))
    ensures ReadFlags(j) == NormalFlags(s.flags)
  {
  }

  lemma NumbersBack(s: Schema, j: Json)
    requires forall k :: Under(j, Double(k)) == Leaf(s, Double(k))
    ensures ReadNumbers(j) == s.numbers
  {
  }

  lemma IntsBack(s: Schema, j: Json)
    requires forall k :: Under(j, Int(k)) == Leaf(s, Int(k))
    ensures ReadInts(j) == s.ints
  {
  }

  lemma RawsBack(s: Schema, j: Json)
    requires forall k :: Under(j, Raw(k)) == Leaf(s, Raw(k))
    ensures ReadRaws(j) == NormalRaws(s.raws)
  {
  }

  lemma NamesBack(s: Schema, j: Json)
    requires forall k :: Under(j, Names(k)) == Leaf(s, Names(k))
    ensures ReadNames(j) == NormalNames(s.names)
  {
    forall k | k in s.names ensures ReadStrings(Array(Strings(s.names[k]))) == s.names[k] {
      StringsBack(s.names[k]);
    }
  }

  // ---- Nested schemas -------------------------------------------------------------------------

  lemma ReadEmpty()
    ensures Read(Object(map[])) == EMPTY
  {
  }

  lemma {:induction false} ReadOfMap(s: Schema, k: MapKey)
    ensures ReadFields(Object(PrintMap(s, k))) == NormalMap(s, k)
    decreases s, 0
  {
    forall n | n in MapOf(s, k) ensures Read(PrintMap(s, k)[n]) == NormalMap(s, k)[n] {
      ReadOfPrint(MapOf(s, k)[n]);
    }
  }

  lemma {:induction false} ReadOfList(s: Schema, k: ListKey)
    ensures ReadElements(Array(PrintList(s, k))) == NormalList(s, k)
    decreases s, 0
  {
    forall i | 0 <= i < |ListOf(s, k)| ensures Read(PrintList(s, k)[i]) == NormalList(s, k)[i] {
      ReadOfPrint(ListOf(s, k)[i]);
    }
  }

  lemma {:induction false} ReadOfEither(v: Either)
    ensures ReadOrBool(PrintEither(v)) == NormalOrBool(v)
    decreases v
  {
    if v.schema.Some? {
      ReadOfPrint(v.schema.value);
    } else {
      ReadEmpty();
    }
  }

  lemma {:induction false} ReadOfItems(v: OrArray)
    ensures ReadOrArray(PrintItems(v)) == NormalOrArray(v)
    decreases v
  {
    if v.schema.Some? {
      ReadOfPrint(v.schema.value);
    } else {
      ReadEmpty();
      forall i | 0 <= i < |v.schemas| ensures Read(Print(v.schemas[i])) == Normal(v.schemas[i]) {
        ReadOfPrint(v.schemas[i]);
      }
    }
  }

  lemma {:induction false} ReadOfDependency(d: Dependency)
    ensures ReadDependency(PrintDependency(d)) == NormalDependency(d)
    decreases d
  {
    assert |"schema"| != |"property"|;
    StringsBack(d.property);
    if d.schema.Some? {
      ReadOfPrint(d.schema.value);
    }
  }

  lemma {:induction false} DependenciesBack(s: Schema, j: Json)
    requires Under(j, Dependencies) == Entry(s, Dependencies)
    ensures ReadDependencies(j) == NormalDependencies(s)
    decreases s, 0
  {
    forall n | n in s.dependencies
      ensures ReadDependency(PrintDependency(s.dependencies[n])) == NormalDependency(s.dependencies[n])
    {
      ReadOfDependency(s.dependencies[n]);
    }
  }

  lemma {:induction false} MapBack(s: Schema, j: Json, k: MapKey)
    requires Under(j, Map(k)) == Entry(s, Map(k))
    ensures ReadMap(j, k) == NormalMap(s, k)
    decreases s, 1
  {
    ReadOfMap(s, k);
  }

  lemma {:induction false} ListBack(s: Schema, j: Json, k: ListKey)
    requires Under(j, List(k)) == Entry(s, List(k))
    ensures ReadList(j, k) == NormalList(s, k)
    decreases s, 1
  {
    ReadOfList(s, k);
  }

  lemma {:induction false} ItemsBack(s: Schema, j: Json)
    requires Under(j, Items) == Entry(s, Items)
    ensures ReadItems(j) == NormalItems(s)
    decreases s, 1
  {
    if s.items.Some? {
      ReadOfItems(s.items.value);
    }
  }

  lemma {:induction false} EitherBack(s: Schema, j: Json, k: OrBoolKey)
    requires Under(j, OrBool(k)) == Entry(s, OrBool(k))
    ensures ReadEither(j, k) == NormalEither(s, k)
    decreases s, 1
  {
    if EitherOf(s, k).Some? {
      ReadOfEither(EitherOf(s, k).value);
    }
  }

  lemma {:induction false} NotBack(s: Schema, j: Json)
    requires Under(j, Not) == Entry(s, Not)
    ensures ReadNot(j) == NormalNot(s)
    decreases s, 1
  {
    if s.negated.Some? {
      ReadOfPrint(s.negated.value);
    }
  }

  ghost predicate Prints(s: Schema, j: Json) { forall k :: Under(j, k) == Entry(s, k) }

  lemma LeavesBack(s: Schema, j: Json)
    requires Prints(s, j)
    ensures ReadTexts(j) == NormalTexts(s.texts) && ReadFlags(j) == NormalFlags(s.flags)
    ensures ReadNumbers(j) == s.numbers && ReadInts(j) == s.ints
    ensures ReadRaws(j) == NormalRaws(s.raws) && ReadNames(j) == NormalNames(s.names)
  {
    TextsBack(s, j);
    FlagsBack(s, j);
    NumbersBack(s, j);
    IntsBack(s, j);
    RawsBack(s, j);
    NamesBack(s, j);
  }

  lemma RecordsBack(s: Schema, j: Json)
    requires Prints(s, j)
    ensures ReadEnum(Under(j, Enum)) == NormalEnums(s.enums)
    ensures ReadDocs(Under(j, ExternalDocs)) == NormalDocs(s.externalDocs)
    ensures ReadRules(Under(j, Validations)) == NormalRules(s.validations)
  {
    EnumBack(s.enums);
    RulesBack(s.validations);
    if s.externalDocs.Some? {
      DocsBack(s.externalDocs.value);
    }
  }

  lemma {:induction false} NestedBack(s: Schema, j: Json)
    requires Prints(s, j)
    ensures forall k :: ReadMap(j, k) == NormalMap(s, k)
    ensures forall k :: ReadList(j, k) == NormalList(s, k)
    ensures forall k :: ReadEither(j, k) == NormalEither(s, k)
    ensures ReadDependencies(j) == NormalDependencies(s)
    ensures ReadItems(j) == NormalItems(s) && ReadNot(j) == NormalNot(s)
    decreases s, 2
  {
    forall k ensures ReadMap(j, k) == NormalMap(s, k) { MapBack(s, j, k); }
    forall k ensures ReadList(j, k) == NormalList(s, k) { ListBack(s, j, k); }
    forall k ensures ReadEither(j, k) == NormalEither(s, k) { EitherBack(s, j, k); }
    DependenciesBack(s, j);
    ItemsBack(s, j);
    NotBack(s, j);
  }

  lemma {:induction false} ReadOfPrinted(s: Schema, j: Json)
    requires Prints(s, j)
    ensures Read(j) == Normal(s)
    decreases s, 3
  {
    LeavesBack(s, j);
    RecordsBack(s, j);
    NestedBack(s, j);
  }

  /** Print, then read: the schema comes back up to what the printer elides. */
  lemma {:induction false} ReadOfPrint(s: Schema)
    ensures Read(Print(s)) == Normal(s)
    decreases s, 4
  {
    forall k ensures Under(Print(s), k) == Entry(s, k) { UnderPrint(s, k); }
    ReadOfPrinted(s, Print(s));
  }

  // ---- Nothing else is lost -------------------------------------------------------------------

  lemma PrintEmpty()
    ensures Print(EMPTY) == Object(map[])
  {
    FilledSame((k: Key) => Entry(EMPTY, k), (k: Key) => None, KEYWORDS);
    FilledNone(KEYWORDS);
  }

  lemma {:induction false} FilledNone(n: nat)
    requires n <= KEYWORDS
    ensures Filled((k: Key) => None, n) == map[]
  {
    if n > 0 {
      FilledNone(n - 1);
    }
  }

  lemma RulesOfNormal(rs: seq<Rule>)
    ensures PrintRules(NormalRules(rs)) == PrintRules(rs)
  {
    forall i | 0 <= i < |rs| ensures PrintRule(NormalRule(rs[i])) == PrintRule(rs[i]) {
    }
  }

  lemma LeafOfNormal(s: Schema, key: Key)
    ensures Leaf(Normal(s), key) == Leaf(s, key)
  {
    RulesOfNormal(s.validations);
    assert RawValues(NormalEnums(s.enums)) == RawValues(s.enums);
  }

  lemma FieldsOfNormal(s: Schema)
    ensures forall k :: MapOf(Normal(s), k) == NormalMap(s, k)
    ensures forall k :: ListOf(Normal(s), k) == NormalList(s, k)
    ensures forall k :: EitherOf(Normal(s), k) == NormalEither(s, k)
  {
  }

  ghost predicate Printed(m: map<string, Schema>, o: map<string, Json>) {
    o.Keys == m.Keys && forall n :: n in m ==> o[n] == Print(m[n])
  }

  lemma PrintMapPrinted(s: Schema, k: MapKey)
    ensures Printed(MapOf(s, k), PrintMap(s, k))
  {
  }

  lemma PrintedIsUnique(m: map<string, Schema>, o: map<string, Json>, p: map<string, Json>)
    requires Printed(m, o) && Printed(m, p)
    ensures o == p
  {
  }

  lemma {:induction false} PrintedOfNormal(s: Schema, k: MapKey, o: map<string, Json>)
    requires Printed(NormalMap(s, k), o)
    ensures Printed(MapOf(s, k), o)
    decreases s, 0
  {
    forall n | n in MapOf(s, k) ensures o[n] == Print(MapOf(s, k)[n]) {
      assert NormalMap(s, k)[n] == Normal(MapOf(s, k)[n]);
      PrintOfNormal(MapOf(s, k)[n]);
    }
  }

  lemma {:induction false} MapOfNormal(s: Schema, t: Schema, k: MapKey)
    requires MapOf(t, k) == NormalMap(s, k)
    ensures PrintMap(t, k) == PrintMap(s, k)
    decreases s, 1
  {
    PrintMapPrinted(t, k);
    PrintedOfNormal(s, k, PrintMap(t, k));
    PrintMapPrinted(s, k);
    PrintedIsUnique(MapOf(s, k), PrintMap(t, k), PrintMap(s, k));
  }

  lemma {:induction false} ListOfNormal(s: Schema, t: Schema, k: ListKey)
    requires ListOf(t, k) == NormalList(s, k)
    ensures Entry(t, List(k)) == Entry(s, List(k))
    decreases s, 0
  {
    var ss := ListOf(s, k);
    forall i | 0 <= i < |ss| ensures Print(Normal(ss[i])) == Print(ss[i]) {
      PrintOfNormal(ss[i]);
    }
    assert PrintList(t, k) == PrintList(s, k);
  }

  lemma {:induction false} DependenciesOfNormal(s: Schema, t: Schema)
    requires t.dependencies == NormalDependencies(s)
    ensures Entry(t, Dependencies) == Entry(s, Dependencies)
    decreases s, 0
  {
    var p, q := PrintDependencies(s), PrintDependencies(t);
    assert p.Keys == s.dependencies.Keys && q.Keys == s.dependencies.Keys;
    forall n | n in p ensures p[n] == q[n] {
      DependencyOfNormal(s.dependencies[n]);
    }
    assert p == q;
  }

  lemma {:induction false} OrArrayOfNormal(v: OrArray)
    ensures PrintItems(NormalOrArray(v)) == PrintItems(v)
    decreases v
  {
    PrintEmpty();
    if v.schema.Some? {
      PrintOfNormal(v.schema.value);
    } else {
      forall i | 0 <= i < |v.schemas| ensures Print(Normal(v.schemas[i])) == Print(v.schemas[i]) {
        PrintOfNormal(v.schemas[i]);
      }
    }
  }

  lemma {:induction false} OrBoolOfNormal(v: Either)
    ensures PrintEither(NormalOrBool(v)) == PrintEither(v)
    decreases v
  {
    PrintEmpty();
    if v.schema.Some? {
      PrintOfNormal(v.schema.value);
    }
  }

  lemma {:induction false} DependencyOfNormal(d: Dependency)
    ensures PrintDependency(NormalDependency(d)) == PrintDependency(d)
    decreases d
  {
    if d.schema.Some? {
      PrintOfNormal(d.schema.value);
    }
  }

  lemma {:induction false} ItemsOfNormal(s: Schema, t: Schema)
    requires t.items == NormalItems(s)
    ensures Entry(t, Items) == Entry(s, Items)
    decreases s, 0
  {
    if s.items.Some? {
      OrArrayOfNormal(s.items.value);
    }
  }

  lemma {:induction false} EitherOfNormal(s: Schema, t: Schema, k: OrBoolKey)
    requires EitherOf(t, k) == NormalEither(s, k)
    ensures Entry(t, OrBool(k)) == Entry(s, OrBool(k))
    decreases s, 0
  {
    if EitherOf(s, k).Some? {
      OrBoolOfNormal(EitherOf(s, k).value);
    }
  }

  lemma {:induction false} NotOfNormal(s: Schema, t: Schema)
    requires t.negated == NormalNot(s)
    ensures Entry(t, Not) == Entry(s, Not)
    decreases s, 0
  {
    if s.negated.Some? {
      PrintOfNormal(s.negated.value);
    }
  }

  lemma {:induction false} EntryOfNormal(s: Schema, key: Key)
    ensures Entry(Normal(s), key) == Entry(s, key)
    decreases s, 2
  {
    var t := Normal(s);
    FieldsOfNormal(s);
    match key {
      case Map(k) => MapOfNormal(s, t, k);
      case List(k) => ListOfNormal(s, t, k);
      case Dependencies => DependenciesOfNormal(s, t);
      case OrBool(k) => EitherOfNormal(s, t, k);
      case Items => ItemsOfNormal(s, t);
      case Not => NotOfNormal(s, t);
      case _ => LeafOfNormal(s, key);
    }
  }

  /** Normalising does not change what is printed. */
  lemma {:induction false} PrintOfNormal(s: Schema)
    ensures Print(Normal(s)) == Print(s)
    decreases s, 3
  {
    forall k ensures Entry(Normal(s), k) == Entry(s, k) { EntryOfNormal(s, k); }
    FilledSame((k: Key) => Entry(Normal(s), k), (k: Key) => Entry(s, k), KEYWORDS);
  }

  /** Two schemas print alike exactly when they have the same normal form. */
  lemma PrintIsInjectiveUpToNormal(s: Schema, t: Schema)
    ensures Print(s) == Print(t) <==> Normal(s) == Normal(t)
    ensures Normal(Normal(s)) == Normal(s)
  {
    ReadOfPrint(s);
    ReadOfPrint(t);
    ReadOfPrint(Normal(s));
    PrintOfNormal(s);
    PrintOfNormal(t);
  }
}
