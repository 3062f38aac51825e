/**
 The keywords of a JSONSchemaProps object, grouped by the shape of the field they print, in the
 order in which the printer inserts them.
 */
module SchemaKeys {
  datatype TextKey = TypeOf | Description | Format | Title | Ref | Id | SchemaUri | Pattern | ListType | MapType
  datatype RawKey = Default | Example
  datatype DoubleKey = Maximum | Minimum | MultipleOf
  datatype FlagKey =
    | ExclusiveMaximum | ExclusiveMinimum | UniqueItems | Nullable
    | PreserveUnknownFields | EmbeddedResource | IntOrString
  datatype IntKey = MaxLength | MinLength | MaxItems | MinItems | MaxProperties | MinProperties
  datatype NamesKey = ListMapKeys | Required
  datatype MapKey = Properties | PatternProperties | Definitions
  datatype OrBoolKey = AdditionalProperties | AdditionalItems
  datatype ListKey = AllOf | OneOf | AnyOf

  datatype Key =
    | Text(textKey: TextKey)
    | Raw(rawKey: RawKey)
    | Double(doubleKey: DoubleKey)
    | Flag(flagKey: FlagKey)
    | Int(intKey: IntKey)
    | Names(namesKey: NamesKey)
    | Enum
    | Map(mapKey: MapKey)
    | Dependencies
    | Items
    | OrBool(orBoolKey: OrBoolKey)
    | List(listKey: ListKey)
    | Not
    | ExternalDocs
    | Validations

  const KEYWORDS: nat := 44

  function Name(k: Key): string {
    match k
    case Text(TypeOf) => "type"
    case Text(Description) => "description"
    case Text(Format) => "format"
    case Text(Title) => "title"
    case Text(Ref) => "$ref"
    case Text(Id) => "id"
    case Text(SchemaUri) => "$schema"
    case Text(Pattern) => "pattern"
    case Raw(Default) => "default"
    case Double(Maximum) => "maximum"
    case Flag(ExclusiveMaximum) => "exclusiveMaximum"
    case Double(Minimum) => "minimum"
    case Flag(ExclusiveMinimum) => "exclusiveMinimum"
    case Int(MaxLength) => "maxLength"
    case Int(MinLength) => "minLength"
    case Int(MaxItems) => "maxItems"
    case Int(MinItems) => "minItems"
    case Flag(UniqueItems) => "uniqueItems"
    case Double(MultipleOf) => "multipleOf"
    case Int(MaxProperties) => "maxProperties"
    case Int(MinProperties) => "minProperties"
    case Flag(Nullable) => "nullable"
    case Flag(PreserveUnknownFields) => "x-kubernetes-preserve-unknown-fields"
    case Flag(EmbeddedResource) => "x-kubernetes-embedded-resource"
    case Flag(IntOrString) => "x-kubernetes-int-or-string"
    case Text(ListType) => "x-kubernetes-list-type"
    case Text(MapType) => "x-kubernetes-map-type"
    case Names(ListMapKeys) => "x-kubernetes-list-map-keys"
    case Names(Required) => "required"
    case Enum => "enum"
    case Map(Properties) => "properties"
    case Map(PatternProperties) => "patternProperties"
    case Map(Definitions) => "definitions"
    case Dependencies => "dependencies"
    case Items => "items"
    case OrBool(AdditionalProperties) => "additionalProperties"
    case OrBool(AdditionalItems) => "additionalItems"
    case List(AllOf) => "allOf"
    case List(OneOf) => "oneOf"
    case List(AnyOf) => "anyOf"
    case Not => "not"
    case ExternalDocs => "externalDocs"
    case Raw(Example) => "example"
    case Validations => "x-kubernetes-validations"
  }

  /** Where the printer inserts the keyword. */
  function Position(k: Key): (i: nat)
    ensures i < KEYWORDS
  {
    match k
    case Text(TypeOf) => 0
    case Text(Description) => 1
    case Text(Format) => 2
    case Text(Title) => 3
    case Text(Ref) => 4
    case Text(Id) => 5
    case Text(SchemaUri) => 6
    case Text(Pattern) => 7
    case Raw(Default) => 8
    case Double(Maximum) => 9
    case Flag(ExclusiveMaximum) => 10
    case Double(Minimum) => 11
    case Flag(ExclusiveMinimum) => 12
    case Int(MaxLength) => 13
    case Int(MinLength) => 14
    case Int(MaxItems) => 15
    case Int(MinItems) => 16
    case Flag(UniqueItems) => 17
    case Double(MultipleOf) => 18
    case Int(MaxProperties) => 19
    case Int(MinProperties) => 20
    case Flag(Nullable) => 21
    case Flag(PreserveUnknownFields) => 22
    case Flag(EmbeddedResource) => 23
    case Flag(IntOrString) => 24
    case Text(ListType) => 25
    case Text(MapType) => 26
    case Names(ListMapKeys) => 27
    case Names(Required) => 28
    case Enum => 29
    case Map(Properties) => 30
    case Map(PatternProperties) => 31
    case Map(Definitions) => 32
    case Dependencies => 33
    case Items => 34
    case OrBool(AdditionalProperties) => 35
    case OrBool(AdditionalItems) => 36
    case List(AllOf) => 37
    case List(OneOf) => 38
    case List(AnyOf) => 39
    case Not => 40
    case ExternalDocs => 41
    case Raw(Example) => 42
    case Validations => 43
  }

  function KeyAt(i: nat): Key
    requires i < KEYWORDS
  {
    if i == 0 then Text(TypeOf)
    else if i == 1 then Text(Description)
    else if i == 2 then Text(Format)
    else if i == 3 then Text(Title)
    else if i == 4 then Text(Ref)
    else if i == 5 then Text(Id)
    else if i == 6 then Text(SchemaUri)
    else if i == 7 then Text(Pattern)
    else if i == 8 then Raw(Default)
    else if i == 9 then Double(Maximum)
    else if i == 10 then Flag(ExclusiveMaximum)
    else if i == 11 then Double(Minimum)
    else if i == 12 then Flag(ExclusiveMinimum)
    else if i == 13 then Int(MaxLength)
    else if i == 14 then Int(MinLength)
    else if i == 15 then Int(MaxItems)
    else if i == 16 then Int(MinItems)
    else if i == 17 then Flag(UniqueItems)
    else if i == 18 then Double(MultipleOf)
    else if i == 19 then Int(MaxProperties)
    else if i == 20 then Int(MinProperties)
    else if i == 21 then Flag(Nullable)
    else if i == 22 then Flag(PreserveUnknownFields)
    else if i == 23 then Flag(EmbeddedResource)
    else if i == 24 then Flag(IntOrString)
    else if i == 25 then Text(ListType)
    else if i == 26 then Text(MapType)
    else if i == 27 then Names(ListMapKeys)
    else if i == 28 then Names(Required)
    else if i == 29 then Enum
    else if i == 30 then Map(Properties)
    else if i == 31 then Map(PatternProperties)
    else if i == 32 then Map(Definitions)
    else if i == 33 then Dependencies
    else if i == 34 then Items
    else if i == 35 then OrBool(AdditionalProperties)
    else if i == 36 then OrBool(AdditionalItems)
    else if i == 37 then List(AllOf)
    else if i == 38 then List(OneOf)
    else if i == 39 then List(AnyOf)
    else if i == 40 then Not
    else if i == 41 then ExternalDocs
    else if i == 42 then Raw(Example)
    else Validations
  }

  lemma PositionOfKey(k: Key)
    ensures KeyAt(Position(k)) == k
  {
  }

  lemma KeyAtPosition(i: nat)
    requires i < KEYWORDS
    ensures Position(KeyAt(i)) == i
  {
  }

  /** Tells the keywords apart by their length and at most two of their letters. */
  ghost function Discriminate(n: string): nat {
    match |n|
    case 2 => 5
    case 3 => 40
    case 4 => if n[0] == 't' then 0 else if n[0] == '$' then 4 else 29
    case 5 =>
      if n[0] == 't' then 3 else if n[0] == 'i' then 34 else if n[0] == 'o' then 38
      else if n[1] == 'l' then 37 else 39
    case 6 => 2
    case 7 =>
      if n[2] == 'c' then 6 else if n[2] == 't' then 7 else if n[2] == 'f' then 8
      else if n[2] == 'x' then 9 else if n[2] == 'n' then 11 else 42
    case 8 => if n[1] == 'a' then 15 else if n[1] == 'i' then 16 else if n[1] == 'u' then 21 else 28
    case 9 => if n[1] == 'a' then 13 else 14
    case 10 => if n[0] == 'm' then 18 else 30
    case 11 => if n[2] == 's' then 1 else if n[2] == 'i' then 17 else 32
    case 12 => if n[0] == 'd' then 33 else 41
    case 13 => if n[1] == 'a' then 19 else 20
    case 15 => 36
    case 16 => if n[10] == 'a' then 10 else 12
    case 17 => 31
    case 20 => 35
    case 21 => 26
    case 22 => 25
    case 24 => 43
    case 26 => if n[13] == 'i' then 24 else 27
    case 30 => 23
    case 36 => 22
    case _ => KEYWORDS
  }

  lemma DiscriminateName(k: Key)
    ensures Discriminate(Name(k)) == Position(k)
  {
  }

  lemma NamesAreDistinct(a: Key, b: Key)
    requires Name(a) == Name(b)
    ensures a == b
  {
    DiscriminateName(a);
    DiscriminateName(b);
    PositionOfKey(a);
    PositionOfKey(b);
  }
}
