/**
 The reference printer of a CustomResourceDefinition's OpenAPI schema: a JSONSchemaProps message
 to JSON, at any depth. An optional field is a key that may be missing from its group's map; a
 repeated field that is empty may equally be missing.
 */
module SchemaJson {
  import opened Prelude
  import opened SchemaKeys

  datatype Json =
    | Null
    | Bool(b: bool)
    | Integer(n: int)
    | Float(r: real)
    | Str(s: string)
    | Array(elements: seq<Json>)
    | Object(fields: map<string, Json>)

  /** What `from_slice` makes of a raw document's bytes; `None` if they are missing or malformed. */
  datatype RawJson = RawJson(parsed: Option<Json>)

  /** An f64, up to rounding; `NonFinite` is NaN or an infinity. */
  datatype Number = Finite(value: real) | NonFinite

  datatype Dependency = Dependency(schema: Option<Schema>, property: seq<string>)
  datatype OrArray = OrArray(schema: Option<Schema>, schemas: seq<Schema>)
  datatype Either = Either(allows: Option<bool>, schema: Option<Schema>)
  datatype Docs = Docs(description: Option<string>, url: Option<string>)
  datatype Rule = Rule(
    rule: Option<string>, message: Option<string>, messageExpression: Option<string>,
    reason: Option<string>, fieldPath: Option<string>, optionalOldSelf: Option<bool>)

  datatype Schema = Schema(
    texts: map<TextKey, string>,
    flags: map<FlagKey, bool>,
    numbers: map<DoubleKey, Number>,
    ints: map<IntKey, int>,
    raws: map<RawKey, RawJson>,
    names: map<NamesKey, seq<string>>,
    enums: seq<RawJson>,
    properties: map<string, Schema>,
    patternProperties: map<string, Schema>,
    definitions: map<string, Schema>,
    dependencies: map<string, Dependency>,
    items: Option<OrArray>,
    additionalProperties: Option<Either>,
    additionalItems: Option<Either>,
    allOf: seq<Schema>,
    oneOf: seq<Schema>,
    anyOf: seq<Schema>,
    negated: Option<Schema>,
    externalDocs: Option<Docs>,
    validations: seq<Rule>)

  const EMPTY: Schema := Schema(
    map[], map[], map[], map[], map[], map[], [], map[], map[], map[], map[], None, None, None,
    [], [], [], None, None, [])

  function MapOf(s: Schema, k: MapKey): (m: map<string, Schema>)
    ensures forall n :: n in m ==> m[n] < s
  {
    match k
    case Properties => s.properties
    case PatternProperties => s.patternProperties
    case Definitions => s.definitions
  }

  function EitherOf(s: Schema, k: OrBoolKey): Option<Either> {
    match k
    case AdditionalProperties => s.additionalProperties
    case AdditionalItems => s.additionalItems
  }

  function ListOf(s: Schema, k: ListKey): (ss: seq<Schema>)
    ensures forall i :: 0 <= i < |ss| ==> ss[i] < s
  {
    match k
    case AllOf => s.allOf
    case OneOf => s.oneOf
    case AnyOf => s.anyOf
  }

  // ---- Printing -------------------------------------------------------------------------------

  function Put(m: map<string, Json>, name: string, v: Option<Json>): map<string, Json> {
    if v.Some? then m[name := v.value] else m
  }

  function RawValue(r: RawJson): Json { if r.parsed.Some? then r.parsed.value else Null }

  function NonEmptyText(t: Option<string>): Option<Json> {
    if t.Some? && t.value != "" then Some(Str(t.value)) else None
  }

  function NonEmpty(es: seq<Json>): Option<Json> { if es == [] then None else Some(Array(es)) }

  function NonEmptyObject(m: map<string, Json>): Option<Json> { if m == map[] then None else Some(Object(m)) }

  function NonNull(j: Json): Option<Json> { if j == Null then None else Some(j) }

  function PrintNumber(x: Number): Json { if x.Finite? then Float(x.value) else Integer(0) }

  function Strings(ss: seq<string>): seq<Json> { seq(|ss|, i requires 0 <= i < |ss| => Str(ss[i])) }

  function PrintRule(r: Rule): Json {
    var m := Put(map[], "rule", NonEmptyText(r.rule));
    var m := Put(m, "message", NonEmptyText(r.message));
    var m := Put(m, "messageExpression", NonEmptyText(r.messageExpression));
    var m := Put(m, "reason", NonEmptyText(r.reason));
    var m := Put(m, "fieldPath", NonEmptyText(r.fieldPath));
    Object(Put(m, "optionalOldSelf", if r.optionalOldSelf == Some(true) then Some(Bool(true)) else None))
  }

  function PrintRules(rs: seq<Rule>): seq<Json> { seq(|rs|, i requires 0 <= i < |rs| => PrintRule(rs[i])) }

  function RawValues(rs: seq<RawJson>): seq<Json> { seq(|rs|, i requires 0 <= i < |rs| => RawValue(rs[i])) }

  function PrintDocs(d: Docs): Option<Json> {
    var m := Put(Put(map[], "description", NonEmptyText(d.description)), "url", NonEmptyText(d.url));
    NonEmptyObject(m)
  }

  /** The first `n` insertions of the printer. */
  function Filled(entry: Key -> Option<Json>, n: nat): map<string, Json>
    requires n <= KEYWORDS
  {
    if n == 0 then map[] else Put(Filled(entry, n - 1), Name(KeyAt(n - 1)), entry(KeyAt(n - 1)))
  }

  function Print(s: Schema): Json
    decreases s, 2
  {
    Object(Filled((k: Key) => Entry(s, k), KEYWORDS))
  }

  /** What the printer inserts under a keyword, if it inserts anything. */
  function Entry(s: Schema, key: Key): Option<Json>
    decreases s, 1
  {
    match key
    case Map(k) => NonEmptyObject(PrintMap(s, k))
    case Dependencies => NonEmptyObject(PrintDependencies(s))
    case Items => if s.items.None? then None else Some(PrintItems(s.items.value))
    case OrBool(k) => if EitherOf(s, k).None? then None else Some(PrintEither(EitherOf(s, k).value))
    case List(k) => NonEmpty(PrintList(s, k))
    case Not => if s.negated.None? then None else Some(Print(s.negated.value))
    case _ => Leaf(s, key)
  }

  /** The keywords under which no schema is nested. */
  function Leaf(s: Schema, key: Key): Option<Json> {
    match key
    case Text(k) => NonEmptyText(if k in s.texts then Some(s.texts[k]) else None)
    case Flag(k) => if k in s.flags && s.flags[k] then Some(Bool(true)) else None
    case Double(k) => if k in s.numbers then Some(PrintNumber(s.numbers[k])) else None
    case Int(k) => if k in s.ints then Some(Integer(s.ints[k])) else None
    case Raw(k) => if k in s.raws then NonNull(RawValue(s.raws[k])) else None
    case Names(k) => if k in s.names then NonEmpty(Strings(s.names[k])) else None
    case Enum => NonEmpty(RawValues(s.enums))
    case ExternalDocs => if s.externalDocs.Some? then PrintDocs(s.externalDocs.value) else None
    case Validations => NonEmpty(PrintRules(s.validations))
    case _ => None
  }

  function PrintMap(s: Schema, k: MapKey): map<string, Json>
    decreases s, 0
  {
    map n | n in MapOf(s, k) :: Print(MapOf(s, k)[n])
  }

  function PrintList(s: Schema, k: ListKey): seq<Json>
    decreases s, 0
  {
    var ss := ListOf(s, k);
    seq(|ss|, i requires 0 <= i < |ss| => Print(ss[i]))
  }

  function PrintDependencies(s: Schema): map<string, Json>
    decreases s, 0
  {
    map n | n in s.dependencies :: PrintDependency(s.dependencies[n])
  }

  function PrintDependency(d: Dependency): Json
    decreases d
  {
    var m := Put(map[], "schema", if d.schema.Some? then Some(Print(d.schema.value)) else None);
    Object(Put(m, "property", if d.property == [] then None else Some(Array(Strings(d.property)))))
  }

  function PrintItems(v: OrArray): Json
    decreases v
  {
    if v.schema.Some? then Print(v.schema.value)
    else if v.schemas != [] then Array(seq(|v.schemas|, i requires 0 <= i < |v.schemas| => Print(v.schemas[i])))
    else Object(map[])
  }

  function PrintEither(v: Either): Json
    decreases v
  {
    if v.schema.Some? then Print(v.schema.value)
    else if v.allows.Some? then Bool(v.allows.value)
    else Object(map[])
  }

  // ---- The normal form ------------------------------------------------------------------------

  function NormalText(t: Option<string>): Option<string> { if t == Some("") then None else t }

  function NormalTexts(m: map<TextKey, string>): map<TextKey, string> { map k | k in m && m[k] != "" :: m[k] }

  function NormalFlags(m: map<FlagKey, bool>): map<FlagKey, bool> { map k | k in m && m[k] :: true }

  function NormalNames(m: map<NamesKey, seq<string>>): map<NamesKey, seq<string>> {
    map k | k in m && m[k] != [] :: m[k]
  }

  function NormalDocs(docs: Option<Docs>): Option<Docs> {
    if docs.None? then None
    else
      var d := Docs(NormalText(docs.value.description), NormalText(docs.value.url));
      if d == Docs(None, None) then None else Some(d)
  }

  function NormalRule(r: Rule): Rule {
    Rule(NormalText(r.rule), NormalText(r.message), NormalText(r.messageExpression), NormalText(r.reason),
         NormalText(r.fieldPath), if r.optionalOldSelf == Some(true) then Some(true) else None)
  }

  function NormalRules(rs: seq<Rule>): seq<Rule> { seq(|rs|, i requires 0 <= i < |rs| => NormalRule(rs[i])) }

  function NormalRaw(r: RawJson): RawJson { RawJson(Some(RawValue(r))) }

  function NormalRaws(m: map<RawKey, RawJson>): map<RawKey, RawJson> {
    map k | k in m && RawValue(m[k]) != Null :: NormalRaw(m[k])
  }

  function NormalEnums(rs: seq<RawJson>): seq<RawJson> { seq(|rs|, i requires 0 <= i < |rs| => NormalRaw(rs[i])) }

  /** The schema without what the printer elides; at every depth. */
  function Normal(s: Schema): Schema
    decreases s, 1
  {
    Schema(
      NormalTexts(s.texts),
      NormalFlags(s.flags),
      s.numbers,
      s.ints,
      NormalRaws(s.raws),
      NormalNames(s.names),
      NormalEnums(s.enums),
      NormalMap(s, Properties),
      NormalMap(s, PatternProperties),
      NormalMap(s, Definitions),
      NormalDependencies(s),
      NormalItems(s),
      NormalEither(s, AdditionalProperties),
      NormalEither(s, AdditionalItems),
      NormalList(s, AllOf),
      NormalList(s, OneOf),
      NormalList(s, AnyOf),
      NormalNot(s),
      NormalDocs(s.externalDocs),
      NormalRules(s.validations))
  }

  function NormalMap(s: Schema, k: MapKey): map<string, Schema>
    decreases s, 0
  {
    map n | n in MapOf(s, k) :: Normal(MapOf(s, k)[n])
  }

  function NormalList(s: Schema, k: ListKey): seq<Schema>
    decreases s, 0
  {
    var ss := ListOf(s, k);
    seq(|ss|, i requires 0 <= i < |ss| => Normal(ss[i]))
  }

  function NormalDependencies(s: Schema): map<string, Dependency>
    decreases s, 0
  {
    map n | n in s.dependencies :: NormalDependency(s.dependencies[n])
  }

  function NormalItems(s: Schema): Option<OrArray>
    decreases s, 0
  {
    if s.items.Some? then Some(NormalOrArray(s.items.value)) else None
  }

  function NormalEither(s: Schema, k: OrBoolKey): Option<Either>
    decreases s, 0
  {
    if EitherOf(s, k).Some? then Some(NormalOrBool(EitherOf(s, k).value)) else None
  }

  function NormalNot(s: Schema): Option<Schema>
    decreases s, 0
  {
    if s.negated.Some? then Some(Normal(s.negated.value)) else None
  }

  function NormalDependency(d: Dependency): Dependency
    decreases d
  {
    Dependency(if d.schema.Some? then Some(Normal(d.schema.value)) else None, d.property)
  }

  /** A schema beats a list; an empty wrapper prints like the empty schema. */
  function NormalOrArray(v: OrArray): OrArray
    decreases v
  {
    if v.schema.Some? then OrArray(Some(Normal(v.schema.value)), [])
    else if v.schemas != [] then
      OrArray(None, seq(|v.schemas|, i requires 0 <= i < |v.schemas| => Normal(v.schemas[i])))
    else OrArray(Some(EMPTY), [])
  }

  function NormalOrBool(v: Either): Either
    decreases v
  {
    if v.schema.Some? then Either(None, Some(Normal(v.schema.value)))
    else if v.allows.Some? then Either(v.allows, None)
    else Either(None, Some(EMPTY))
  }

  // ---- Reading back ---------------------------------------------------------------------------

  function At(m: map<string, Json>, name: string): Option<Json> {
    if name in m then Some(m[name]) else None
  }

  function TextAt(m: map<string, Json>, name: string): Option<string> {
    if name in m && m[name].Str? then Some(m[name].s) else None
  }

  function FieldsOf(j: Json): map<string, Json> { if j.Object? then j.fields else map[] }

  /** What stands under a keyword. */
  function Under(j: Json, k: Key): (r: Option<Json>)
    ensures r.Some? ==> r.value < j
  {
    if Name(k) in FieldsOf(j) then Some(j.fields[Name(k)]) else None
  }

  function ElementsOf(j: Json): seq<Json> { if j.Array? then j.elements else [] }

  function ReadStrings(j: Json): seq<string> {
    var es := ElementsOf(j);
    seq(|es|, i requires 0 <= i < |es| => if es[i].Str? then es[i].s else "")
  }

  function ReadRule(j: Json): Rule {
    var m := FieldsOf(j);
    Rule(TextAt(m, "rule"), TextAt(m, "message"), TextAt(m, "messageExpression"), TextAt(m, "reason"),
         TextAt(m, "fieldPath"), if At(m, "optionalOldSelf") == Some(Bool(true)) then Some(true) else None)
  }

  function Read(j: Json): Schema
    decreases j, 1
  {
    Schema(
      ReadTexts(j),
      ReadFlags(j),
      ReadNumbers(j),
      ReadInts(j),
      ReadRaws(j),
      ReadNames(j),
      ReadEnum(Under(j, Enum)),
      ReadMap(j, Properties),
      ReadMap(j, PatternProperties),
      ReadMap(j, Definitions),
      ReadDependencies(j),
      ReadItems(j),
      ReadEither(j, AdditionalProperties),
      ReadEither(j, AdditionalItems),
      ReadList(j, AllOf),
      ReadList(j, OneOf),
      ReadList(j, AnyOf),
      ReadNot(j),
      ReadDocs(Under(j, ExternalDocs)),
      ReadRules(Under(j, Validations)))
  }

  function ReadTexts(j: Json): map<TextKey, string> {
    map k: TextKey | Under(j, Text(k)).Some? && Under(j, Text(k)).value.Str? :: Under(j, Text(k)).value.s
  }

  function ReadFlags(j: Json): map<FlagKey, bool> { map k: FlagKey | Under(j, Flag(k)) == Some(Bool(true)) :: true }

  /** The printer's stand-in for a number JSON cannot hold is the integer 0. */
  function ReadNumber(j: Json): Number { if j.Float? then Finite(j.r) else NonFinite }

  function ReadNumbers(j: Json): map<DoubleKey, Number> {
    map k: DoubleKey | Under(j, Double(k)).Some? :: ReadNumber(Under(j, Double(k)).value)
  }

  function ReadInts(j: Json): map<IntKey, int> {
    map k: IntKey | Under(j, Int(k)).Some? && Under(j, Int(k)).value.Integer? :: Under(j, Int(k)).value.n
  }

  function ReadRaws(j: Json): map<RawKey, RawJson> {
    map k: RawKey | Under(j, Raw(k)).Some? :: RawJson(Under(j, Raw(k)))
  }

  function ReadNames(j: Json): map<NamesKey, seq<string>> {
    map k: NamesKey | Under(j, Names(k)).Some? :: ReadStrings(Under(j, Names(k)).value)
  }

  function ReadEnum(u: Option<Json>): seq<RawJson> {
    var es := if u.Some? then ElementsOf(u.value) else [];
    seq(|es|, i requires 0 <= i < |es| => RawJson(Some(es[i])))
  }

  function ReadDocs(u: Option<Json>): Option<Docs> {
    if u.None? then None
    else Some(Docs(TextAt(FieldsOf(u.value), "description"), TextAt(FieldsOf(u.value), "url")))
  }

  function ReadRules(u: Option<Json>): seq<Rule> {
    var es := if u.Some? then ElementsOf(u.value) else [];
    seq(|es|, i requires 0 <= i < |es| => ReadRule(es[i]))
  }

  function ReadMap(j: Json, k: MapKey): map<string, Schema>
    decreases j, 0
  {
    if Under(j, Map(k)).Some? then ReadFields(Under(j, Map(k)).value) else map[]
  }

  function ReadFields(j: Json): map<string, Schema>
    decreases j, 0
  {
    if j.Object? then map n | n in j.fields :: Read(j.fields[n]) else map[]
  }

  function ReadList(j: Json, k: ListKey): seq<Schema>
    decreases j, 0
  {
    if Under(j, List(k)).Some? then ReadElements(Under(j, List(k)).value) else []
  }

  function ReadElements(j: Json): seq<Schema>
    decreases j, 0
  {
    if j.Array? then seq(|j.elements|, i requires 0 <= i < |j.elements| => Read(j.elements[i])) else []
  }

  function ReadDependencies(j: Json): map<string, Dependency>
    decreases j, 0
  {
    if Under(j, Dependencies).Some? then ReadDependencyFields(Under(j, Dependencies).value) else map[]
  }

  function ReadDependencyFields(j: Json): map<string, Dependency>
    decreases j, 0
  {
    if j.Object? then map n | n in j.fields :: ReadDependency(j.fields[n]) else map[]
  }

  function ReadDependency(j: Json): Dependency
    decreases j, 0
  {
    var property := if j.Object? && "property" in j.fields then ReadStrings(j.fields["property"]) else [];
    Dependency(if j.Object? && "schema" in j.fields then Some(Read(j.fields["schema"])) else None, property)
  }

  function ReadNot(j: Json): Option<Schema>
    decreases j, 0
  {
    if Under(j, Not).Some? then Some(Read(Under(j, Not).value)) else None
  }

  function ReadItems(j: Json): Option<OrArray>
    decreases j, 0
  {
    if Under(j, Items).Some? then Some(ReadOrArray(Under(j, Items).value)) else None
  }

  function ReadOrArray(j: Json): OrArray
    decreases j, 2
  {
    if j.Array? then OrArray(None, ReadElements(j)) else OrArray(Some(Read(j)), [])
  }

  function ReadEither(j: Json, k: OrBoolKey): Option<Either>
    decreases j, 0
  {
    if Under(j, OrBool(k)).Some? then Some(ReadOrBool(Under(j, OrBool(k)).value)) else None
  }

  function ReadOrBool(j: Json): Either
    decreases j, 2
  {
    if j.Bool? then Either(Some(j.b), None) else Either(None, Some(Read(j)))
  }
}
