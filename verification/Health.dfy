/**
 The health endpoints: `/healthz`, `/livez` and `/readyz` over all checks, and one check by name.
 */
module Health {
  import opened Prelude
  import opened Text

  datatype Check = Check(name: string, ok: bool)
  datatype Status = Ok | NotFound | InternalServerError
  datatype Endpoint = Healthz | Livez | Readyz

  type Query = seq<(string, string)>

  function EndpointName(e: Endpoint): string {
    match e
    case Healthz => "healthz"
    case Livez => "livez"
    case Readyz => "readyz"
  }

  // ---- What the renderer should say -----------------------------------------------------------

  /** The values given for a query key, in order. */
  function ValuesOf(query: Query, key: string): seq<string> {
    if query == [] then []
    else (if query[0].0 == key then [query[0].1] else []) + ValuesOf(query[1..], key)
  }

  predicate Mentions(query: Query, key: string) { exists i :: 0 <= i < |query| && query[i].0 == key }

  predicate IsExcluded(query: Query, name: string) { ("exclude", name) in query }

  predicate Named(checks: seq<Check>, name: string) { exists i :: 0 <= i < |checks| && checks[i].name == name }

  predicate Failing(checks: seq<Check>, query: Query) {
    exists i :: 0 <= i < |checks| && !checks[i].ok && !IsExcluded(query, checks[i].name)
  }

  function ExcludedLine(name: string): string { "[+]" + name + " excluded: ok" }

  function PassedLine(name: string): string { "[+]" + name + " ok" }

  function FailedLine(name: string): string { "[-]" + name + " failed: reason withheld" }

  function Line(c: Check, query: Query): string {
    if IsExcluded(query, c.name) then ExcludedLine(c.name)
    else if c.ok then PassedLine(c.name)
    else FailedLine(c.name)
  }

  function LineList(checks: seq<Check>, query: Query): seq<string> {
    seq(|checks|, i requires 0 <= i < |checks| => Line(checks[i], query))
  }

  function Lines(checks: seq<Check>, query: Query): string { Terminated(LineList(checks, query), '\n') }

  /** Strictly increasing: sorted, without repetitions. */
  predicate Increasing(xs: seq<string>) {
    forall i, j :: 0 <= i < j < |xs| ==> LexLe(xs[i], xs[j]) && xs[i] != xs[j]
  }

  function JoinQuoted(xs: seq<string>, quote: string -> string): string {
    Join(seq(|xs|, i requires 0 <= i < |xs| => quote(xs[i])), ',')
  }

  function Warning(xs: seq<string>, quote: string -> string): string {
    if xs == [] then ""
    else "warn: some health checks cannot be excluded: no matches for " + JoinQuoted(xs, quote) + "\n"
  }

  function Closing(e: Endpoint, failed: bool): string {
    EndpointName(e) + if failed then " check failed\n" else " check passed\n"
  }

  /** What `render_root` answers. */
  function Root(e: Endpoint, checks: seq<Check>, query: Query, quote: string -> string): (Status, string) {
    var detail := Lines(checks, query) + Warning(Unknown(checks, query), quote);
    if Failing(checks, query) then (InternalServerError, detail + Closing(e, true))
    else if !Mentions(query, "verbose") then (Ok, "ok")
    else (Ok, detail + Closing(e, false))
  }

  /** The excluded names that no check bears, sorted, once each. */
  function Unknown(checks: seq<Check>, query: Query): seq<string> {
    Dedup(Sort(Unmatched(ValuesOf(query, "exclude"), checks)))
  }

  function Unmatched(names: seq<string>, checks: seq<Check>): seq<string> {
    if names == [] then []
    else (if Named(checks, names[0]) then [] else [names[0]]) + Unmatched(names[1..], checks)
  }

  // ---- The renderer ---------------------------------------------------------------------------

  /** Rust's `retain(|n| *n != name)`. */
  function Retained(xs: seq<string>, name: string): seq<string> {
    if xs == [] then [] else (if xs[0] == name then [] else [xs[0]]) + Retained(xs[1..], name)
  }

  function InsertName(x: string, xs: seq<string>): seq<string> {
    if xs == [] then [x] else if LexLe(x, xs[0]) then [x] + xs else [xs[0]] + InsertName(x, xs[1..])
  }

  function Sort(xs: seq<string>): seq<string> {
    if xs == [] then [] else InsertName(xs[0], Sort(xs[1..]))
  }

  /** Rust's `dedup`: drops an element equal to the one before it. */
  function Dedup(xs: seq<string>): (r: seq<string>)
    ensures r != [] <==> xs != []
    ensures xs != [] ==> r[0] == xs[0]
  {
    if |xs| <= 1 then xs
    else if xs[0] == xs[1] then Dedup(xs[1..])
    else [xs[0]] + Dedup(xs[1..])
  }

  predicate InOrder(xs: seq<string>) { forall i, j :: 0 <= i < j < |xs| ==> LexLe(xs[i], xs[j]) }

  lemma {:induction false} InsertNameMembers(x: string, xs: seq<string>, y: string)
    ensures y in InsertName(x, xs) <==> y == x || y in xs
  {
    if xs != [] {
      InsertNameMembers(x, xs[1..], y);
    }
  }

  lemma {:induction false} SortMembers(xs: seq<string>, y: string)
    ensures y in Sort(xs) <==> y in xs
  {
    if xs != [] {
      SortMembers(xs[1..], y);
      InsertNameMembers(xs[0], Sort(xs[1..]), y);
    }
  }

  lemma {:induction false} DedupMembers(xs: seq<string>, y: string)
    ensures y in Dedup(xs) <==> y in xs
  {
    if |xs| >= 2 {
      DedupMembers(xs[1..], y);
    }
  }

  lemma {:induction false} UnmatchedMembers(names: seq<string>, checks: seq<Check>, y: string)
    ensures y in Unmatched(names, checks) <==> y in names && !Named(checks, y)
  {
    if names != [] {
      UnmatchedMembers(names[1..], checks, y);
    }
  }

  lemma {:induction false} InsertNameInOrder(x: string, xs: seq<string>)
    requires InOrder(xs)
    ensures InOrder(InsertName(x, xs))
  {
    if xs != [] {
      LexTotal(x, xs[0]);
      if LexLe(x, xs[0]) {
        forall j | 0 < j < |xs| ensures LexLe(x, xs[j]) { LexTransitive(x, xs[0], xs[j]); }
      } else {
        InsertNameInOrder(x, xs[1..]);
        var rest := InsertName(x, xs[1..]);
        forall j | 0 <= j < |rest| ensures LexLe(xs[0], rest[j]) {
          InsertNameMembers(x, xs[1..], rest[j]);
        }
      }
    }
  }

  lemma {:induction false} SortInOrder(xs: seq<string>)
    ensures InOrder(Sort(xs))
  {
    if xs != [] {
      SortInOrder(xs[1..]);
      InsertNameInOrder(xs[0], Sort(xs[1..]));
    }
  }

  lemma {:induction false} DedupIncreasing(xs: seq<string>)
    requires InOrder(xs)
    ensures Increasing(Dedup(xs))
  {
    if |xs| >= 2 {
      DedupIncreasing(xs[1..]);
      if xs[0] != xs[1] {
        var rest := Dedup(xs[1..]);
        forall j | 0 <= j < |rest| ensures LexLe(xs[0], rest[j]) && xs[0] != rest[j] {
          DedupMembers(xs[1..], rest[j]);
          if xs[0] == rest[j] {
            LexAntisymmetric(xs[0], xs[1]);
          }
        }
      }
    }
  }

  lemma {:induction false} ValuesOfExclude(query: Query, name: string)
    ensures name in ValuesOf(query, "exclude") <==> IsExcluded(query, name)
  {
    if query != [] {
      ValuesOfExclude(query[1..], name);
    }
  }

  lemma {:induction false} RetainStep(names: seq<string>, checks: seq<Check>, c: Check)
    ensures Unmatched(names, checks + [c]) == Retained(Unmatched(names, checks), c.name)
  {
    if names != [] {
      NamedStep(checks, c, names[0]);
      RetainStep(names[1..], checks, c);
      var head := if Named(checks, names[0]) then [] else [names[0]];
      RetainedConcat(head, Unmatched(names[1..], checks), c.name);
    }
  }

  lemma NamedStep(checks: seq<Check>, c: Check, n: string)
    ensures Named(checks + [c], n) <==> Named(checks, n) || c.name == n
  {
    if i :| 0 <= i < |checks| && checks[i].name == n {
      assert (checks + [c])[i].name == n;
    }
    assert (checks + [c])[|checks|] == c;
  }

  lemma FailingStep(checks: seq<Check>, c: Check, query: Query)
    ensures Failing(checks + [c], query) <==> Failing(checks, query) || (!c.ok && !IsExcluded(query, c.name))
  {
    if i :| 0 <= i < |checks| && !checks[i].ok && !IsExcluded(query, checks[i].name) {
      assert (checks + [c])[i] == checks[i];
    }
    assert (checks + [c])[|checks|] == c;
  }

  lemma {:induction false} RetainedConcat(a: seq<string>, b: seq<string>, name: string)
    ensures Retained(a + b, name) == Retained(a, name) + Retained(b, name)
  {
    if a == [] {
      assert a + b == b;
    } else {
      assert (a + b)[1..] == a[1..] + b;
      RetainedConcat(a[1..], b, name);
    }
  }

  lemma {:induction false} RetainedOther(xs: seq<string>, name: string)
    requires name !in xs
    ensures Retained(xs, name) == xs
  {
    if xs != [] {
      RetainedOther(xs[1..], name);
    }
  }

  lemma {:induction false} UnmatchedByNone(names: seq<string>)
    ensures Unmatched(names, []) == names
  {
    if names != [] {
      UnmatchedByNone(names[1..]);
    }
  }

  lemma LinesStep(checks: seq<Check>, c: Check, query: Query, line: string)
    requires line == Line(c, query)
    ensures Lines(checks + [c], query) == Lines(checks, query) + line + "\n"
  {
    assert LineList(checks + [c], query) == LineList(checks, query) + [line];
    TerminatedAppend(LineList(checks, query), line, '\n');
  }

  method RenderRoot(endpoint: Endpoint, checks: seq<Check>, query: Query, quote: string -> string)
      returns (status: Status, body: string)
    ensures (status, body) == Root(endpoint, checks, query, quote)
  {
    var excluded := ValuesOf(query, "exclude");
    var unknown := excluded;
    var lines := "";
    var failed := false;
    UnmatchedByNone(excluded);
    for i := 0 to |checks|
      invariant lines == Lines(checks[..i], query)
      invariant failed == Failing(checks[..i], query)
      invariant unknown == Unmatched(excluded, checks[..i])
    {
      var c := checks[i];
      assert checks[..i + 1] == checks[..i] + [c];
      RetainStep(excluded, checks[..i], c);
      FailingStep(checks[..i], c, query);
      ValuesOfExclude(query, c.name);
      UnmatchedMembers(excluded, checks[..i], c.name);
      LinesStep(checks[..i], c, query, Line(c, query));
      if c.name in excluded {
        unknown := Retained(unknown, c.name);
        lines := lines + ExcludedLine(c.name) + "\n";
      } else {
        RetainedOther(unknown, c.name);
        if c.ok {
          lines := lines + PassedLine(c.name) + "\n";
        } else {
          lines := lines + FailedLine(c.name) + "\n";
          failed := true;
        }
      }
    }
    assert checks[..|checks|] == checks;
    assert Unknown(checks, query) == Dedup(Sort(unknown));
    unknown := Dedup(Sort(unknown));
    lines := lines + Warning(unknown, quote);
    if failed {
      return InternalServerError, lines + Closing(endpoint, true);
    }
    if !Mentions(query, "verbose") {
      return Ok, "ok";
    }
    return Ok, lines + Closing(endpoint, false);
  }

  // ---- Properties of the answer ---------------------------------------------------------------

  /** The warning lists exactly the excluded names matching no check, in order, once each. */
  lemma UnknownIsExact(checks: seq<Check>, query: Query)
    ensures Increasing(Unknown(checks, query))
    ensures forall x :: x in Unknown(checks, query) <==> IsExcluded(query, x) && !Named(checks, x)
  {
    var left := Unmatched(ValuesOf(query, "exclude"), checks);
    SortInOrder(left);
    DedupIncreasing(Sort(left));
    forall x ensures x in Dedup(Sort(left)) <==> IsExcluded(query, x) && !Named(checks, x) {
      DedupMembers(Sort(left), x);
      SortMembers(left, x);
      UnmatchedMembers(ValuesOf(query, "exclude"), checks, x);
      ValuesOfExclude(query, x);
    }
  }

  lemma {:induction false} IncreasingIsUnique(a: seq<string>, b: seq<string>)
    requires Increasing(a) && Increasing(b) && forall x :: x in a <==> x in b
    ensures a == b
  {
    if a == [] {
      if b != [] {
        HasMember(b);
      }
    } else {
      assert a[0] in a && b[0] in b;
      LexAntisymmetricHeads(a, b);
      forall x ensures x in a[1..] <==> x in b[1..] {
        assert x in a <==> x == a[0] || x in a[1..];
        assert x in b <==> x == b[0] || x in b[1..];
      }
      IncreasingIsUnique(a[1..], b[1..]);
    }
  }

  lemma HasMember(xs: seq<string>)
    requires xs != []
    ensures exists x :: x in xs
  {
    assert xs[0] in xs;
  }

  lemma LexAntisymmetricHeads(a: seq<string>, b: seq<string>)
    requires Increasing(a) && Increasing(b) && a != [] && b != [] && a[0] in b && b[0] in a
    ensures a[0] == b[0]
  {
    if a[0] != b[0] {
      LexAntisymmetric(a[0], b[0]);
    }
  }

  /** Order and repetition of the query's exclusions do not matter. */
  lemma RootIgnoresOrder(e: Endpoint, checks: seq<Check>, p: Query, q: Query, quote: string -> string)
    requires forall n :: IsExcluded(p, n) <==> IsExcluded(q, n)
    requires Mentions(p, "verbose") <==> Mentions(q, "verbose")
    ensures Root(e, checks, p, quote) == Root(e, checks, q, quote)
  {
    UnknownIsExact(checks, p);
    UnknownIsExact(checks, q);
    IncreasingIsUnique(Unknown(checks, p), Unknown(checks, q));
    LinesIgnoreOrder(checks, p, q);
  }

  lemma LinesIgnoreOrder(checks: seq<Check>, p: Query, q: Query)
    requires forall n :: IsExcluded(p, n) <==> IsExcluded(q, n)
    ensures Lines(checks, p) == Lines(checks, q)
  {
    assert LineList(checks, p) == LineList(checks, q);
  }

  /** Excluding more never turns a healthy answer into a failure. */
  lemma ExcludingMoreIsMonotone(e: Endpoint, checks: seq<Check>, p: Query, q: Query, quote: string -> string)
    requires forall n :: IsExcluded(p, n) ==> IsExcluded(q, n)
    requires Root(e, checks, p, quote).0 == Ok
    ensures Root(e, checks, q, quote).0 == Ok
  {
  }

  /** The answer is a failure exactly when a check fails that is not excluded, and the bare `ok`
      exactly when it is none and no detail is asked for. */
  lemma RootExactly(e: Endpoint, checks: seq<Check>, query: Query, quote: string -> string)
    ensures var (status, body) := Root(e, checks, query, quote);
            && (status == InternalServerError <==>
                  exists i :: 0 <= i < |checks| && !checks[i].ok && ("exclude", checks[i].name) !in query)
            && (status == Ok <==> status != InternalServerError)
            && (body == "ok" <==> status == Ok && forall i :: 0 <= i < |query| ==> query[i].0 != "verbose")
  {
    var detail := Lines(checks, query) + Warning(Unknown(checks, query), quote);
    ClosingEnds(detail, e, true);
    ClosingEnds(detail, e, false);
  }

  lemma ClosingEnds(detail: string, e: Endpoint, failed: bool)
    ensures detail + Closing(e, failed) != "ok"
  {
    var body := detail + Closing(e, failed);
    assert body[|body| - 1] == '\n';
  }

  lemma LineIsOneLine(c: Check, query: Query)
    requires '\n' !in c.name
    ensures '\n' !in Line(c, query)
  {
  }

  /** Read line by line, a detailed answer starts with one line per check, in order. */
  lemma OneLinePerCheck(checks: seq<Check>, query: Query, rest: string)
    requires forall i :: 0 <= i < |checks| ==> '\n' !in checks[i].name
    ensures Split(Lines(checks, query) + rest, '\n') == LineList(checks, query) + Split(rest, '\n')
    ensures |LineList(checks, query)| == |checks|
    ensures forall i :: 0 <= i < |checks| ==>
              LineList(checks, query)[i] ==
              if ("exclude", checks[i].name) in query then "[+]" + checks[i].name + " excluded: ok"
              else if checks[i].ok then "[+]" + checks[i].name + " ok"
              else "[-]" + checks[i].name + " failed: reason withheld"
  {
    forall i | 0 <= i < |checks| ensures '\n' !in LineList(checks, query)[i] {
      LineIsOneLine(checks[i], query);
    }
    SplitTerminated(LineList(checks, query), '\n', rest);
  }

  lemma LastLine(lines: seq<string>, line: string)
    ensures Terminated(lines, '\n') + (line + "\n") == Terminated(lines + [line], '\n')
  {
    TerminatedAppend(lines, line, '\n');
  }

  lemma ClosingLine(e: Endpoint, failed: bool, word: string)
    requires word == match e case Healthz => "healthz" case Livez => "livez" case Readyz => "readyz"
    ensures Closing(e, failed) == word + (if failed then " check failed" else " check passed") + "\n"
  {
  }

  /** A detailed answer is the lines of the checks, the warning if some exclusion is unknown, and the
      verdict, each on a line of its own. */
  lemma DetailExactly(e: Endpoint, checks: seq<Check>, query: Query, quote: string -> string, word: string)
    requires word == match e case Healthz => "healthz" case Livez => "livez" case Readyz => "readyz"
    requires Root(e, checks, query, quote).1 != "ok"
    ensures var (status, body) := Root(e, checks, query, quote);
            var unknown := Unknown(checks, query);
            var quoted := seq(|unknown|, i requires 0 <= i < |unknown| => quote(unknown[i]));
            var warning := "warn: some health checks cannot be excluded: no matches for " + Join(quoted, ',');
            var verdict := word + if status == Ok then " check passed" else " check failed";
            body == Terminated(LineList(checks, query) + (if unknown == [] then [] else [warning]) + [verdict], '\n')
  {
    var (status, body) := Root(e, checks, query, quote);
    var unknown := Unknown(checks, query);
    var lines := LineList(checks, query);
    if unknown == [] {
      assert lines + [] == lines && Warning(unknown, quote) == "" && Lines(checks, query) + "" == Lines(checks, query);
    } else {
      var warning := "warn: some health checks cannot be excluded: no matches for " + JoinQuoted(unknown, quote);
      LastLine(lines, warning);
      lines := lines + [warning];
    }
    ClosingLine(e, status != Ok, word);
    LastLine(lines, word + if status == Ok then " check passed" else " check failed");
  }

  // ---- One check ------------------------------------------------------------------------------

  function RenderSub(checks: seq<Check>, name: string): (Status, string) {
    var i := First(checks, (c: Check) => c.name == name);
    if i == |checks| then (NotFound, "404 page not found\n")
    else if checks[i].ok then (Ok, "ok")
    else (InternalServerError, "internal server error: check failed\n")
  }

  /** One check by name: the first check of that name decides, and an unknown name is not found. */
  lemma SubExactly(checks: seq<Check>, name: string)
    ensures var status := RenderSub(checks, name).0;
            && (status == NotFound <==> forall i :: 0 <= i < |checks| ==> checks[i].name != name)
            && (forall i :: 0 <= i < |checks| && checks[i].name == name
                            && (forall j :: 0 <= j < i ==> checks[j].name != name) ==>
                  (status == Ok <==> checks[i].ok) && (status == InternalServerError <==> !checks[i].ok))
  {
  }

  /** A failing check hidden from its own endpoint by an earlier passing one of the same name. */
  predicate Hidden(checks: seq<Check>, query: Query, j: nat)
    requires j < |checks|
  {
    !checks[j].ok && !IsExcluded(query, checks[j].name) &&
    checks[First(checks, (c: Check) => c.name == checks[j].name)].ok
  }

  predicate SubFails(checks: seq<Check>, query: Query, i: nat)
    requires i < |checks|
  {
    !IsExcluded(query, checks[i].name) && RenderSub(checks, checks[i].name).0 == InternalServerError
  }

  /** The root fails exactly when some non-excluded check's own endpoint does, or one is hidden. */
  lemma RootAgreesWithSubs(e: Endpoint, checks: seq<Check>, query: Query, quote: string -> string)
    ensures Root(e, checks, query, quote).0 == InternalServerError <==>
            exists i :: 0 <= i < |checks| && (SubFails(checks, query, i) || Hidden(checks, query, i))
  {
    if i :| 0 <= i < |checks| && !checks[i].ok && !IsExcluded(query, checks[i].name) {
      assert SubFails(checks, query, i) || Hidden(checks, query, i);
    }
    forall i | 0 <= i < |checks| && SubFails(checks, query, i) ensures Failing(checks, query) {
      var f := First(checks, (c: Check) => c.name == checks[i].name);
      assert !checks[f].ok && checks[f].name == checks[i].name;
    }
  }

  /** With distinct names nothing is hidden. */
  lemma DistinctNamesHideNothing(checks: seq<Check>, query: Query, j: nat)
    requires forall a, b :: 0 <= a < b < |checks| ==> checks[a].name != checks[b].name
    requires j < |checks|
    ensures !Hidden(checks, query, j)
  {
    var f := First(checks, (c: Check) => c.name == checks[j].name);
    assert f == j;
  }

  /** So with distinct names the root is exactly the conjunction of the endpoints not excluded. */
  lemma RootIsAllSubs(e: Endpoint, checks: seq<Check>, query: Query, quote: string -> string)
    requires forall a, b :: 0 <= a < b < |checks| ==> checks[a].name != checks[b].name
    ensures Root(e, checks, query, quote).0 == Ok <==>
            forall i :: 0 <= i < |checks| ==> IsExcluded(query, checks[i].name) || RenderSub(checks, checks[i].name).0 == Ok
  {
    RootAgreesWithSubs(e, checks, query, quote);
    forall i | 0 <= i < |checks| ensures !Hidden(checks, query, i) {
      DistinctNamesHideNothing(checks, query, i);
    }
    forall i | 0 <= i < |checks|
      ensures SubFails(checks, query, i)
           != (IsExcluded(query, checks[i].name) || RenderSub(checks, checks[i].name).0 == Ok)
    {
      assert First(checks, (c: Check) => c.name == checks[i].name) < |checks|;
    }
  }
}
