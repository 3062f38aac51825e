/** From a raw request path to the resource that authorization sees. */
module RequestPath {
  import opened Prelude
  import opened Text
  import opened Utf8
  import opened Percent

  datatype ParsedPath = ParsedPath(
    group: string,
    version: string,
    resource: string,
    subresource: string,
    namespace: Option<string>,
    name: Option<string>)

  const UNKNOWN: ParsedPath := ParsedPath("", "", "", "", None, None)

  function At(segs: seq<string>, i: nat): Option<string> {
    if i < |segs| then Some(segs[i]) else None
  }

  function AtOrEmpty(segs: seq<string>, i: nat): string {
    if i < |segs| then segs[i] else ""
  }

  function From(segs: seq<string>, i: nat): seq<string> {
    if i < |segs| then segs[i..] else []
  }

  predicate NamespaceSubresource(s: string) { s == "status" || s == "finalize" }

  function ParseRest(group: string, version: string, rest: seq<string>): ParsedPath {
    if At(rest, 0) == Some("namespaces") && |rest| >= 3 && !(|rest| == 3 && NamespaceSubresource(rest[2])) then
      ParsedPath(group, version, AtOrEmpty(rest, 2), AtOrEmpty(rest, 4), Some(AtOrEmpty(rest, 1)), At(rest, 3))
    else
      ParsedPath(group, version, AtOrEmpty(rest, 0), AtOrEmpty(rest, 2), None, At(rest, 1))
  }

  function ParseSegments(segs: seq<string>): ParsedPath {
    if At(segs, 0) == Some("api") then ParseRest("", AtOrEmpty(segs, 1), From(segs, 2))
    else if At(segs, 0) == Some("apis") then ParseRest(AtOrEmpty(segs, 1), AtOrEmpty(segs, 2), From(segs, 3))
    else UNKNOWN
  }

  /** The parser on text that is already decoded. */
  function ParseText(text: string): ParsedPath {
    var trimmed := TrimMatches(text, '/');
    ParseSegments(if trimmed == "" then [] else Split(trimmed, '/'))
  }

  function ParsePath(path: string): ParsedPath {
    ParseText(if '%' in path then Lossy(Decode(path)) else path)
  }

  /** Authorization sees only the once-decoded path, never how it was spelled: any two spellings
      of one path, well escaped or not, parse alike. */
  lemma SpellingIsInvisible(path: string)
    requires ValidUtf8(path)
    ensures ParsePath(path) == ParseText(Lossy(Decode(path)))
  {
    if '%' !in path {
      NoPercentNoChange(path);
      LossyKeepsValid(path);
    }
  }

  // ---- Printing -----------------------------------------------------------------------------

  ghost predicate Component(s: string) { s != "" && '/' !in s && ValidUtf8(s) }

  ghost predicate OptionalComponent(s: Option<string>) { s.Some? ==> Component(s.value) }

  /** A request target: every part a legal segment, and a subresource only of a named object. */
  ghost predicate WellFormed(p: ParsedPath) {
    && (p.group == "" || Component(p.group)) && Component(p.version) && Component(p.resource)
    && OptionalComponent(p.namespace) && OptionalComponent(p.name)
    && (p.subresource == "" || (Component(p.subresource) && p.name.Some?))
  }

  function Optional(s: Option<string>): seq<string> { if s.Some? then [s.value] else [] }

  function Segments(p: ParsedPath): seq<string> {
    (if p.group == "" then ["api", p.version] else ["apis", p.group, p.version]) + RestSegments(p)
  }

  function RestSegments(p: ParsedPath): seq<string> {
    (if p.namespace.Some? then ["namespaces", p.namespace.value, p.resource] else [p.resource])
    + Optional(p.name) + (if p.subresource == "" then [] else [p.subresource])
  }

  /** The path of a target, between any number of slashes. */
  function PrintPath(p: ParsedPath, before: nat, after: nat): string {
    Repeat('/', before) + Join(Segments(p), '/') + Repeat('/', after)
  }

  /** The two shapes the path grammar cannot tell apart: `namespaces/<x>/status` and
      `namespaces/<x>/finalize` always name a namespace's subresource, and any other third
      segment under `namespaces/<x>` always names a namespaced collection. */
  predicate Ambiguous(p: ParsedPath) {
    || (p.namespace.Some? && p.name.None? && p.resource in {"status", "finalize"})
    || (p.namespace.None? && p.resource == "namespaces" && p.subresource !in {"", "status", "finalize"})
  }

  lemma NamespaceSubresources(s: string)
    ensures NamespaceSubresource(s) <==> s in {"status", "finalize"}
  {
  }

  /** Under `namespaces/<x>` everything is namespaced but the two subresources. */
  lemma ParseNamespaced(p: ParsedPath)
    requires WellFormed(p) && p.namespace.Some?
    ensures ParseRest(p.group, p.version, RestSegments(p)) == p <==> !(p.name.None? && NamespaceSubresource(p.resource))
  {
    var rest := RestSegments(p);
    assert rest[0] == "namespaces" && rest[1] == p.namespace.value && rest[2] == p.resource;
    assert |rest| == 3 <==> p.name.None?;
  }

  lemma ParseClusterWide(p: ParsedPath)
    requires WellFormed(p) && p.namespace.None?
    ensures ParseRest(p.group, p.version, RestSegments(p)) == p <==>
            !(p.resource == "namespaces" && p.subresource != "" && !NamespaceSubresource(p.subresource))
  {
    var rest := RestSegments(p);
    assert rest[0] == p.resource && (|rest| >= 3 <==> p.subresource != "");
  }

  lemma ParsePrintedSegments(p: ParsedPath)
    requires WellFormed(p)
    ensures ParseSegments(Segments(p)) == p <==> !Ambiguous(p)
  {
    var rest := RestSegments(p);
    var n := if p.group == "" then 2 else 3;
    assert Segments(p)[n..] == rest && |Segments(p)| > n;
    assert ParseSegments(Segments(p)) == ParseRest(p.group, p.version, rest);
    if p.namespace.Some? {
      NamespaceSubresources(p.resource);
      ParseNamespaced(p);
    } else {
      NamespaceSubresources(p.subresource);
      ParseClusterWide(p);
    }
  }

  /** Whatever concatenation keeps holds of joined parts too. */
  lemma {:induction false} JoinedIs(parts: seq<string>, good: string -> bool)
    requires parts != [] && good("/") && forall i :: 0 <= i < |parts| ==> good(parts[i])
    requires forall a, b :: good(a) && good(b) ==> good(a + b)
    ensures good(Join(parts, '/'))
  {
    if |parts| > 1 {
      JoinedIs(parts[1..], good);
      assert good(parts[0] + "/") && Join(parts, '/') == parts[0] + "/" + Join(parts[1..], '/');
    }
  }

  lemma JoinedIsValid(parts: seq<string>)
    requires parts != [] && forall i :: 0 <= i < |parts| ==> ValidUtf8(parts[i])
    ensures ValidUtf8(Join(parts, '/'))
  {
    AsciiIsValid("/");
    forall a, b | ValidUtf8(a) && ValidUtf8(b) ensures ValidUtf8(a + b) { ValidConcat(a, b); }
    JoinedIs(parts, s => ValidUtf8(s));
  }

  lemma {:induction false} JoinedEnds(parts: seq<string>)
    requires parts != [] && forall i :: 0 <= i < |parts| ==> parts[i] != "" && '/' !in parts[i]
    ensures var s := Join(parts, '/'); s != "" && s[0] != '/' && s[|s| - 1] != '/'
  {
    assert parts[0][0] in parts[0];
    if |parts| > 1 {
      JoinedEnds(parts[1..]);
    } else {
      assert parts[0][|parts[0]| - 1] in parts[0];
    }
  }

  lemma AsciiComponent(s: string)
    requires s != "" && forall i :: 0 <= i < |s| ==> s[i] as int < 0x80 && s[i] != '/'
    ensures Component(s)
  {
    AsciiIsValid(s);
  }

  lemma LiteralComponents()
    ensures Component("api") && Component("apis") && Component("namespaces")
  {
    AsciiComponent("api");
    AsciiComponent("apis");
    AsciiComponent("namespaces");
  }

  ghost predicate AllComponents(parts: seq<string>) {
    forall i :: 0 <= i < |parts| ==> Component(parts[i])
  }

  /** The printed segments are three fixed words and the parts of the target. */
  lemma SegmentsAre(p: ParsedPath, good: string -> bool)
    requires good("api") && good("apis") && good("namespaces")
    requires (p.group != "" ==> good(p.group)) && good(p.version) && good(p.resource)
    requires (p.namespace.Some? ==> good(p.namespace.value)) && (p.name.Some? ==> good(p.name.value))
    requires p.subresource != "" ==> good(p.subresource)
    ensures forall i :: 0 <= i < |Segments(p)| ==> good(Segments(p)[i])
  {
  }

  lemma SegmentsAreComponents(p: ParsedPath)
    requires WellFormed(p)
    ensures AllComponents(Segments(p))
  {
    LiteralComponents();
    SegmentsAre(p, s => Component(s));
  }

  lemma SurroundedIsValid(before: nat, s: string, after: nat)
    requires ValidUtf8(s)
    ensures ValidUtf8(Repeat('/', before) + s + Repeat('/', after))
  {
    AsciiIsValid(Repeat('/', before));
    AsciiIsValid(Repeat('/', after));
    ValidConcat(Repeat('/', before), s);
    ValidConcat(Repeat('/', before) + s, Repeat('/', after));
  }

  lemma ParsePrinted(p: ParsedPath, before: nat, after: nat)
    requires WellFormed(p)
    ensures var text := PrintPath(p, before, after);
            ParseText(text) == ParseSegments(Segments(p)) && ValidUtf8(text)
  {
    SegmentsAreComponents(p);
    var joined := Join(Segments(p), '/');
    JoinedEnds(Segments(p));
    JoinedIsValid(Segments(p));
    SurroundedIsValid(before, joined, after);
    TrimMatchesOf('/', before, joined, after);
    SplitOfJoin(Segments(p), '/');
  }

  /** Printing a target, with any slashes around it, and parsing it gives it back under every
      percent-encoding of the path, except for exactly the ambiguous shapes. */
  lemma PathRoundTrip(p: ParsedPath, before: nat, after: nat, e: string)
    requires WellFormed(p) && Encodes(e, PrintPath(p, before, after))
    ensures ParsePath(e) == p <==> !Ambiguous(p)
  {
    var text := PrintPath(p, before, after);
    EncodingInverse(e, text);
    ParsePrinted(p, before, after);
    LossyKeepsValid(text);
    if '%' !in e {
      NoPercentNoChange(e);
    }
    ParsePrintedSegments(p);
  }
}
