/** API Priority and Fairness: which FlowSchema and priority level a request belongs to. */
module Apf {
  import opened Prelude
  import opened Text
  import opened SaNames

  const WILDCARD: string := "*"

  datatype Subject =
    | UserSubject(name: Option<string>)
    | GroupSubject(name: Option<string>)
    | AccountSubject(account: Option<(string, string)>)   // (namespace, name)
    | OtherSubject

  datatype ResourceRule = ResourceRule(
    verbs: seq<string>,
    apiGroups: seq<string>,
    resources: seq<string>,
    clusterScope: bool,
    namespaces: seq<string>)

  datatype NonResourceRule = NonResourceRule(verbs: seq<string>, urls: seq<string>)

  datatype PolicyRule = PolicyRule(
    subjects: seq<Subject>,
    resourceRules: seq<ResourceRule>,
    nonResourceRules: seq<NonResourceRule>)

  datatype FlowSchema = FlowSchema(name: string, uid: string, precedence: int, level: string, rules: seq<PolicyRule>)

  datatype PriorityLevel = PriorityLevel(name: string, uid: string)

  datatype Digest = Digest(
    username: string,
    groups: seq<string>,
    verb: string,
    apiGroup: string,
    resource: string,
    subresource: string,
    namespace: Option<string>,
    isResource: bool,
    path: string)

  datatype Classification = Classification(schemaUid: string, levelUid: string)

  // ---- Matching -------------------------------------------------------------------------------

  /** The wildcard counts only as the sole element of the list. */
  predicate ContainsOrWildcard(list: seq<string>, value: string) {
    list == [WILDCARD] || value in list
  }

  predicate MatchesSubject(s: Subject, username: string, groups: seq<string>) {
    match s
    case UserSubject(name) => name.Some? && (name.value == WILDCARD || name.value == username)
    case GroupSubject(name) => name.Some? && (name.value == WILDCARD || name.value in groups)
    case AccountSubject(account) =>
      account.Some?
      && if account.value.1 == WILDCARD then MatchesNamespace(account.value.0, username)
         else username == PREFIX + account.value.0 + ":" + account.value.1
    case OtherSubject => false
  }

  predicate MatchesResourceRule(r: ResourceRule, d: Digest) {
    && ContainsOrWildcard(r.verbs, d.verb)
    && ContainsOrWildcard(r.resources, if d.subresource == "" then d.resource else d.resource + "/" + d.subresource)
    && ContainsOrWildcard(r.apiGroups, d.apiGroup)
    && match d.namespace case None => r.clusterScope case Some(ns) => ContainsOrWildcard(r.namespaces, ns)
  }

  /** A rule path covers itself and everything below it: stars at its end are dropped, and a
      slash is required. */
  predicate MatchesUrl(rule: string, path: string) {
    || rule == WILDCARD || rule == path
    || var stem := TrimEnd(rule, '*');
       (if stem != "" && stem[|stem| - 1] == '/' then stem else stem + "/") <= path
  }

  predicate MatchesNonResourceRule(r: NonResourceRule, d: Digest) {
    ContainsOrWildcard(r.verbs, d.verb) && exists u :: u in r.urls && MatchesUrl(u, d.path)
  }

  predicate MatchesPolicyRule(r: PolicyRule, d: Digest) {
    && (exists s :: s in r.subjects && MatchesSubject(s, d.username, d.groups))
    && if d.isResource then exists x :: x in r.resourceRules && MatchesResourceRule(x, d)
       else exists x :: x in r.nonResourceRules && MatchesNonResourceRule(x, d)
  }

  predicate MatchesFlowSchema(f: FlowSchema, d: Digest) {
    exists r :: r in f.rules && MatchesPolicyRule(r, d)
  }

  // ---- What a FlowSchema says -----------------------------------------------------------------

  /** The list is the lone wildcard, or names the value. */
  ghost predicate Lists(list: seq<string>, value: string) {
    list == ["*"] || exists i :: 0 <= i < |list| && list[i] == value
  }

  /** An account subject with a wildcard name covers every name in its own namespace. */
  ghost predicate SubjectCovers(s: Subject, username: string, groups: seq<string>) {
    match s
    case UserSubject(Some(name)) => name == "*" || name == username
    case GroupSubject(Some(name)) => name == "*" || exists i :: 0 <= i < |groups| && groups[i] == name
    case AccountSubject(Some((ns, name))) =>
      if name == "*" then exists any: string :: username == "system:serviceaccount:" + ns + ":" + any
      else username == "system:serviceaccount:" + ns + ":" + name
    case _ => false
  }

  /** A resource is named alone, a subresource together with its resource. */
  ghost predicate Denotes(name: string, d: Digest) {
    || (d.subresource == "" && name == d.resource)
    || (d.subresource != "" && name == d.resource + "/" + d.subresource)
  }

  ghost predicate ResourceCovers(r: ResourceRule, d: Digest) {
    && Lists(r.verbs, d.verb) && Lists(r.apiGroups, d.apiGroup)
    && (r.resources == ["*"] || exists i :: 0 <= i < |r.resources| && Denotes(r.resources[i], d))
    && (d.namespace.None? ==> r.clusterScope)
    && (d.namespace.Some? ==> Lists(r.namespaces, d.namespace.value))
  }

  /** The path lies below the directory. */
  ghost predicate Below(stem: string, path: string) {
    stem + "/" <= path || (stem != "" && stem[|stem| - 1] == '/' && stem <= path)
  }

  /** The rule is the wildcard, the very path, or a directory above it, stars at the end aside. */
  ghost predicate UrlCovers(rule: string, path: string) {
    || rule == "*" || rule == path
    || exists stem: string, n: nat ::
         rule == stem + Repeat('*', n) && (stem == "" || stem[|stem| - 1] != '*') && Below(stem, path)
  }

  ghost predicate NonResourceCovers(r: NonResourceRule, d: Digest) {
    Lists(r.verbs, d.verb) && exists i :: 0 <= i < |r.urls| && UrlCovers(r.urls[i], d.path)
  }

  ghost predicate RuleCovers(r: PolicyRule, d: Digest) {
    && (exists i :: 0 <= i < |r.subjects| && SubjectCovers(r.subjects[i], d.username, d.groups))
    && (d.isResource ==> exists i :: 0 <= i < |r.resourceRules| && ResourceCovers(r.resourceRules[i], d))
    && (!d.isResource ==> exists i :: 0 <= i < |r.nonResourceRules| && NonResourceCovers(r.nonResourceRules[i], d))
  }

  ghost predicate Covers(f: FlowSchema, d: Digest) {
    exists i :: 0 <= i < |f.rules| && RuleCovers(f.rules[i], d)
  }

  lemma SubjectExactly(s: Subject, username: string, groups: seq<string>)
    ensures MatchesSubject(s, username, groups) <==> SubjectCovers(s, username, groups)
  {
    if s.AccountSubject? && s.account.Some? && s.account.value.1 == "*" {
      NamespaceExactly(s.account.value.0, username);
    }
  }

  lemma NamespaceExactly(ns: string, username: string)
    ensures MatchesNamespace(ns, username) <==>
            exists any: string :: username == "system:serviceaccount:" + ns + ":" + any
  {
    if MatchesNamespace(ns, username) {
      var tail := username[|PREFIX|..][|ns|..];
      MatchesNamespaceParts(ns, username, tail);
      assert username == "system:serviceaccount:" + ns + ":" + tail[1..];
    }
    if any: string :| username == "system:serviceaccount:" + ns + ":" + any {
      assert username[|PREFIX|..] == ns + ":" + any;
      assert (ns + ":" + any)[|ns|..] == ":" + any;
    }
  }

  lemma MatchesNamespaceParts(ns: string, username: string, tail: string)
    requires MatchesNamespace(ns, username) && tail == username[|PREFIX|..][|ns|..]
    ensures tail != "" && username == PREFIX + ns + ":" + tail[1..]
  {
    assert username == PREFIX + username[|PREFIX|..];
    assert username[|PREFIX|..] == ns + tail && tail == ":" + tail[1..];
  }

  lemma ResourceRuleExactly(r: ResourceRule, d: Digest)
    ensures MatchesResourceRule(r, d) <==> ResourceCovers(r, d)
  {
  }

  lemma BelowExactly(stem: string, path: string)
    ensures Below(stem, path) <==> (if stem != "" && stem[|stem| - 1] == '/' then stem else stem + "/") <= path
  {
    assert stem <= stem + "/";
  }

  lemma StemIsUnique(rule: string, stem: string, n: nat)
    requires rule == stem + Repeat('*', n) && (stem == "" || stem[|stem| - 1] != '*')
    ensures stem == TrimEnd(rule, '*')
  {
    TrimEndOf(stem, '*', n);
  }

  lemma StemIsTrimmed(rule: string)
    ensures var stem := TrimEnd(rule, '*');
            rule == stem + Repeat('*', |rule| - |stem|) && (stem == "" || stem[|stem| - 1] != '*')
  {
  }

  lemma DirectoryExactly(rule: string, path: string)
    ensures (exists stem: string, n: nat ::
               rule == stem + Repeat('*', n) && (stem == "" || stem[|stem| - 1] != '*') && Below(stem, path))
            <==> Below(TrimEnd(rule, '*'), path)
  {
    StemIsTrimmed(rule);
    if stem: string, n: nat :|
      rule == stem + Repeat('*', n) && (stem == "" || stem[|stem| - 1] != '*') && Below(stem, path)
    {
      StemIsUnique(rule, stem, n);
    }
  }

  /** Whatever stars a rule path ends in, it covers itself and what lies below it. */
  lemma UrlExactly(rule: string, path: string)
    ensures MatchesUrl(rule, path) <==> UrlCovers(rule, path)
  {
    BelowExactly(TrimEnd(rule, '*'), path);
    DirectoryExactly(rule, path);
  }

  lemma NonResourceRuleExactly(r: NonResourceRule, d: Digest)
    ensures MatchesNonResourceRule(r, d) <==> NonResourceCovers(r, d)
  {
    forall u ensures MatchesUrl(u, d.path) <==> UrlCovers(u, d.path) { UrlExactly(u, d.path); }
  }

  lemma PolicyRuleExactly(r: PolicyRule, d: Digest)
    ensures MatchesPolicyRule(r, d) <==> RuleCovers(r, d)
  {
    forall s ensures MatchesSubject(s, d.username, d.groups) <==> SubjectCovers(s, d.username, d.groups) {
      SubjectExactly(s, d.username, d.groups);
    }
    forall x ensures MatchesResourceRule(x, d) <==> ResourceCovers(x, d) { ResourceRuleExactly(x, d); }
    forall x ensures MatchesNonResourceRule(x, d) <==> NonResourceCovers(x, d) { NonResourceRuleExactly(x, d); }
  }

  /** The matcher decides exactly what the lists of the schema say. */
  lemma FlowSchemaExactly(f: FlowSchema, d: Digest)
    ensures MatchesFlowSchema(f, d) <==> Covers(f, d)
  {
    forall r ensures MatchesPolicyRule(r, d) <==> RuleCovers(r, d) { PolicyRuleExactly(r, d); }
  }

  /** A star at the end of a rule path means "below this directory", not "starting with". */
  lemma StarMeansBelow(stem: string, path: string)
    requires stem != "" && stem[|stem| - 1] != '*' && stem[|stem| - 1] != '/'
    ensures MatchesUrl(stem + "*", path) <==> path == stem + "*" || stem + "/" <= path
  {
    TrimEndOf(stem, '*', 1);
    assert stem + Repeat('*', 1) == stem + "*";
  }

  // ---- Ordering -------------------------------------------------------------------------------

  /** Precedence first, then name. */
  predicate Le(a: FlowSchema, b: FlowSchema) {
    a.precedence < b.precedence || (a.precedence == b.precedence && LexLe(a.name, b.name))
  }

  lemma LeTransitive(a: FlowSchema, b: FlowSchema, c: FlowSchema)
    requires Le(a, b) && Le(b, c)
    ensures Le(a, c)
  {
    if a.precedence == b.precedence && b.precedence == c.precedence {
      LexTransitive(a.name, b.name, c.name);
    }
  }

  /** Stable insertion in front of the first element that is not less. */
  function InsertSorted(x: FlowSchema, xs: seq<FlowSchema>): seq<FlowSchema> {
    if xs == [] then [x]
    else if Le(x, xs[0]) then [x] + xs
    else [xs[0]] + InsertSorted(x, xs[1..])
  }

  /** The stable sort by precedence, then name. */
  function Sorted(xs: seq<FlowSchema>): seq<FlowSchema> {
    if xs == [] then [] else InsertSorted(xs[0], Sorted(xs[1..]))
  }

  function FirstMatch(xs: seq<FlowSchema>, d: Digest): Option<FlowSchema> {
    if xs == [] then None
    else if MatchesFlowSchema(xs[0], d) then Some(xs[0])
    else FirstMatch(xs[1..], d)
  }

  function FindLevel(levels: seq<PriorityLevel>, name: string): Option<PriorityLevel> {
    if levels == [] then None
    else if levels[0].name == name then Some(levels[0])
    else FindLevel(levels[1..], name)
  }

  function Resolve(matched: Option<FlowSchema>, levels: seq<PriorityLevel>): Option<Classification> {
    if matched.None? then None
    else
      var level := FindLevel(levels, matched.value.level);
      if level.None? then None else Some(Classification(matched.value.uid, level.value.uid))
  }

  function Classify(schemas: seq<FlowSchema>, levels: seq<PriorityLevel>, d: Digest): Option<Classification> {
    Resolve(FirstMatch(Sorted(schemas), d), levels)
  }

  /** The classifier as written: sort the references, then search both lists. */
  method ClassifyRequest(schemas: seq<FlowSchema>, levels: seq<PriorityLevel>, d: Digest)
    returns (r: Option<Classification>)
    ensures r == Classify(schemas, levels, d)
  {
    var ordered: seq<FlowSchema> := [];
    var i := |schemas|;
    while i > 0
      invariant 0 <= i <= |schemas| && ordered == Sorted(schemas[i..])
    {
      i := i - 1;
      ordered := InsertSorted(schemas[i], ordered);
    }
    i := 0;
    while i < |ordered| && !MatchesFlowSchema(ordered[i], d)
      invariant 0 <= i <= |ordered| && FirstMatch(ordered, d) == FirstMatch(ordered[i..], d)
    {
      i := i + 1;
    }
    if i == |ordered| {
      return None;
    }
    var matched := ordered[i];
    var j := 0;
    while j < |levels| && levels[j].name != matched.level
      invariant 0 <= j <= |levels| && FindLevel(levels, matched.level) == FindLevel(levels[j..], matched.level)
    {
      j := j + 1;
    }
    if j == |levels| {
      return None;
    }
    r := Some(Classification(matched.uid, levels[j].uid));
  }

  // ---- The least matching schema ----------------------------------------------------------------

  /** Index `i` holds a match, every match is at or after it in the order, and among equals it is
      the earliest in the input. */
  ghost predicate IsLeastMatch(xs: seq<FlowSchema>, d: Digest, i: nat) {
    && i < |xs| && MatchesFlowSchema(xs[i], d)
    && (forall j :: 0 <= j < |xs| && MatchesFlowSchema(xs[j], d) ==> Le(xs[i], xs[j]))
    && (forall j :: 0 <= j < i && MatchesFlowSchema(xs[j], d) ==> !Le(xs[j], xs[i]))
  }

  ghost predicate InOrder(xs: seq<FlowSchema>) {
    forall i, j :: 0 <= i < j < |xs| ==> Le(xs[i], xs[j])
  }

  lemma LeTotal(a: FlowSchema, b: FlowSchema)
    ensures Le(a, b) || Le(b, a)
  {
    LexTotal(a.name, b.name);
  }

  lemma {:induction false} InsertMembers(x: FlowSchema, xs: seq<FlowSchema>)
    ensures multiset(InsertSorted(x, xs)) == multiset(xs) + multiset{x}
  {
    if xs != [] {
      assert xs == [xs[0]] + xs[1..];
      InsertMembers(x, xs[1..]);
    }
  }

  lemma {:induction false} InsertInOrder(x: FlowSchema, xs: seq<FlowSchema>)
    requires InOrder(xs)
    ensures InOrder(InsertSorted(x, xs))
  {
    if xs != [] {
      LeTotal(x, xs[0]);
      if Le(x, xs[0]) {
        forall j | 0 <= j < |xs| ensures Le(x, xs[j]) {
          if j > 0 { LeTransitive(x, xs[0], xs[j]); }
        }
      } else {
        var rest := InsertSorted(x, xs[1..]);
        InsertInOrder(x, xs[1..]);
        InsertMembers(x, xs[1..]);
        forall j | 0 <= j < |rest| ensures Le(xs[0], rest[j]) {
          assert rest[j] in multiset(rest);
          assert rest[j] == x || rest[j] in xs[1..];
        }
      }
    }
  }

  /** The sort is a sort: in order, and a permutation. */
  lemma {:induction false} SortedIsSorted(xs: seq<FlowSchema>)
    ensures InOrder(Sorted(xs)) && multiset(Sorted(xs)) == multiset(xs)
  {
    if xs != [] {
      SortedIsSorted(xs[1..]);
      InsertInOrder(xs[0], Sorted(xs[1..]));
      InsertMembers(xs[0], Sorted(xs[1..]));
      assert xs == [xs[0]] + xs[1..];
    }
  }

  lemma {:induction false} FirstMatchIsMember(xs: seq<FlowSchema>, d: Digest)
    ensures FirstMatch(xs, d).Some? ==> FirstMatch(xs, d).value in xs && MatchesFlowSchema(FirstMatch(xs, d).value, d)
    ensures FirstMatch(xs, d).None? ==> forall x :: x in xs ==> !MatchesFlowSchema(x, d)
  {
    if xs != [] {
      FirstMatchIsMember(xs[1..], d);
    }
  }

  /** Inserting a schema changes the match only if it matches and is not after the old match. */
  lemma {:induction false} FirstMatchInsert(x: FlowSchema, xs: seq<FlowSchema>, d: Digest)
    requires InOrder(xs)
    ensures var m := FirstMatch(xs, d);
            FirstMatch(InsertSorted(x, xs), d) ==
            if MatchesFlowSchema(x, d) && (m.None? || Le(x, m.value)) then Some(x) else m
  {
    if xs != [] {
      FirstMatchIsMember(xs, d);
      if Le(x, xs[0]) {
        forall y | y in xs ensures Le(x, y) {
          var j :| 0 <= j < |xs| && xs[j] == y;
          if j > 0 { LeTransitive(x, xs[0], y); }
        }
        assert ([x] + xs)[1..] == xs;
      } else {
        FirstMatchInsert(x, xs[1..], d);
        assert InsertSorted(x, xs)[1..] == InsertSorted(x, xs[1..]);
      }
    }
  }

  lemma ExtendLeast(xs: seq<FlowSchema>, d: Digest, k: nat)
    requires xs != [] && IsLeastMatch(xs[1..], d, k)
    ensures if MatchesFlowSchema(xs[0], d) && Le(xs[0], xs[1..][k]) then IsLeastMatch(xs, d, 0)
            else IsLeastMatch(xs, d, k + 1)
  {
    var m := xs[1..][k];
    LeTotal(xs[0], xs[0]);
    LeTotal(xs[0], m);
    if MatchesFlowSchema(xs[0], d) && Le(xs[0], m) {
      forall j | 0 <= j < |xs| && MatchesFlowSchema(xs[j], d) ensures Le(xs[0], xs[j]) {
        if j > 0 {
          assert xs[j] == xs[1..][j - 1];
          LeTransitive(xs[0], m, xs[j]);
        }
      }
    } else {
      forall j | 0 <= j < |xs| && MatchesFlowSchema(xs[j], d)
        ensures Le(m, xs[j]) && (j < k + 1 ==> !Le(xs[j], m))
      {
        if j > 0 { assert xs[j] == xs[1..][j - 1]; }
      }
    }
  }

  /** Sorting and taking the first match is choosing the least matching schema: by precedence,
      then name, then position. */
  lemma {:induction false} SortThenFindIsLeast(xs: seq<FlowSchema>, d: Digest)
    ensures FirstMatch(Sorted(xs), d).None? <==> forall x :: x in xs ==> !MatchesFlowSchema(x, d)
    ensures FirstMatch(Sorted(xs), d).Some? ==>
              exists i: nat :: IsLeastMatch(xs, d, i) && xs[i] == FirstMatch(Sorted(xs), d).value
  {
    if xs != [] {
      var rest := xs[1..];
      SortThenFindIsLeast(rest, d);
      SortedIsSorted(rest);
      FirstMatchInsert(xs[0], Sorted(rest), d);
      if FirstMatch(Sorted(rest), d).Some? {
        var k: nat :| IsLeastMatch(rest, d, k) && rest[k] == FirstMatch(Sorted(rest), d).value;
        assert rest[k] in xs;
        ExtendLeast(xs, d, k);
        var i: nat := if MatchesFlowSchema(xs[0], d) && Le(xs[0], rest[k]) then 0 else k + 1;
        assert IsLeastMatch(xs, d, i) && xs[i] == FirstMatch(Sorted(xs), d).value;
      } else {
        LeTotal(xs[0], xs[0]);
        assert forall j :: 1 <= j < |xs| ==> xs[j] == rest[j - 1] && rest[j - 1] in rest;
        if MatchesFlowSchema(xs[0], d) {
          assert IsLeastMatch(xs, d, 0);
        }
      }
    }
  }

  // ---- The classification -----------------------------------------------------------------------

  /** Schema `i` goes before schema `k`: by precedence, then name, then position. */
  ghost predicate Before(xs: seq<FlowSchema>, i: nat, k: nat)
    requires i < |xs| && k < |xs|
  {
    || xs[i].precedence < xs[k].precedence
    || (xs[i].precedence == xs[k].precedence && xs[i].name != xs[k].name && LexLe(xs[i].name, xs[k].name))
    || (xs[i].precedence == xs[k].precedence && xs[i].name == xs[k].name && i < k)
  }

  /** Schema `i` covers the request and goes before every other that does. */
  ghost predicate Chosen(xs: seq<FlowSchema>, d: Digest, i: nat) {
    i < |xs| && Covers(xs[i], d) && forall k: nat :: k < |xs| && k != i && Covers(xs[k], d) ==> Before(xs, i, k)
  }

  /** Level `j` is the first of that name. */
  ghost predicate Referenced(levels: seq<PriorityLevel>, name: string, j: nat) {
    j < |levels| && levels[j].name == name && forall h: nat :: h < j ==> levels[h].name != name
  }

  ghost predicate ClassifiedBy(
    xs: seq<FlowSchema>, levels: seq<PriorityLevel>, d: Digest, i: nat, j: nat, r: Classification)
  {
    && Chosen(xs, d, i) && Referenced(levels, xs[i].level, j)
    && r.schemaUid == xs[i].uid && r.levelUid == levels[j].uid
  }

  lemma LeastIsChosen(xs: seq<FlowSchema>, d: Digest, i: nat)
    requires IsLeastMatch(xs, d, i)
    ensures Chosen(xs, d, i)
  {
    FlowSchemaExactly(xs[i], d);
    forall k: nat | k < |xs| && k != i && Covers(xs[k], d) ensures Before(xs, i, k) {
      FlowSchemaExactly(xs[k], d);
      LexTotal(xs[i].name, xs[i].name);
    }
  }

  lemma BeforeIsAsymmetric(xs: seq<FlowSchema>, i: nat, k: nat)
    requires i < |xs| && k < |xs| && Before(xs, i, k)
    ensures !Before(xs, k, i)
  {
    if LexLe(xs[i].name, xs[k].name) && LexLe(xs[k].name, xs[i].name) {
      LexAntisymmetric(xs[i].name, xs[k].name);
    }
  }

  lemma ChosenIsUnique(xs: seq<FlowSchema>, d: Digest, i: nat, k: nat)
    requires Chosen(xs, d, i) && Chosen(xs, d, k)
    ensures i == k
  {
    if i != k {
      BeforeIsAsymmetric(xs, i, k);
    }
  }

  lemma {:induction false} FindLevelIsReferenced(levels: seq<PriorityLevel>, name: string, j: nat)
    requires Referenced(levels, name, j)
    ensures FindLevel(levels, name) == Some(levels[j])
  {
    if j > 0 {
      assert levels[0].name != name;
      forall h: nat | h < j - 1 ensures levels[1..][h].name != name { assert levels[1..][h] == levels[h + 1]; }
      FindLevelIsReferenced(levels[1..], name, j - 1);
    }
  }

  lemma {:induction false} FoundLevel(levels: seq<PriorityLevel>, name: string) returns (j: nat)
    requires FindLevel(levels, name).Some?
    ensures Referenced(levels, name, j) && FindLevel(levels, name) == Some(levels[j])
  {
    if levels[0].name == name {
      j := 0;
    } else {
      var i := FoundLevel(levels[1..], name);
      j := i + 1;
      forall h: nat | h < j ensures levels[h].name != name {
        if h > 0 { assert levels[h] == levels[1..][h - 1]; }
      }
    }
  }

  lemma ClassifiedIsChosen(xs: seq<FlowSchema>, levels: seq<PriorityLevel>, d: Digest) returns (i: nat, j: nat)
    requires Classify(xs, levels, d).Some?
    ensures ClassifiedBy(xs, levels, d, i, j, Classify(xs, levels, d).value)
  {
    SortThenFindIsLeast(xs, d);
    i :| IsLeastMatch(xs, d, i) && xs[i] == FirstMatch(Sorted(xs), d).value;
    LeastIsChosen(xs, d, i);
    j := FoundLevel(levels, xs[i].level);
  }

  lemma ChosenIsClassified(xs: seq<FlowSchema>, levels: seq<PriorityLevel>, d: Digest, i: nat, j: nat, r: Classification)
    requires ClassifiedBy(xs, levels, d, i, j, r)
    ensures Classify(xs, levels, d) == Some(r)
  {
    SortThenFindIsLeast(xs, d);
    FlowSchemaExactly(xs[i], d);
    assert xs[i] in xs;
    var k: nat :| IsLeastMatch(xs, d, k) && xs[k] == FirstMatch(Sorted(xs), d).value;
    LeastIsChosen(xs, d, k);
    ChosenIsUnique(xs, d, i, k);
    FindLevelIsReferenced(levels, xs[i].level, j);
  }

  /** A request is classified by the schema that covers it and goes before all others that do, and
      by the first level of the name this schema refers to; and only so. */
  lemma ClassifyExactly(xs: seq<FlowSchema>, levels: seq<PriorityLevel>, d: Digest, r: Classification)
    ensures Classify(xs, levels, d) == Some(r) <==> exists i: nat, j: nat :: ClassifiedBy(xs, levels, d, i, j, r)
  {
    if Classify(xs, levels, d) == Some(r) {
      var i, j := ClassifiedIsChosen(xs, levels, d);
    }
    if i: nat, j: nat :| ClassifiedBy(xs, levels, d, i, j, r) {
      ChosenIsClassified(xs, levels, d, i, j, r);
    }
  }

  /** Every resource rule of the schema lists plain resources only. */
  ghost predicate ListsPlainResources(f: FlowSchema) {
    forall i, j :: 0 <= i < |f.rules| && 0 <= j < |f.rules[i].resourceRules| ==>
      var resources := f.rules[i].resourceRules[j].resources;
      resources != ["*"] && forall h :: 0 <= h < |resources| ==> '/' !in resources[h]
  }

  lemma SubresourceHasSlash(resource: string, subresource: string)
    ensures '/' in resource + "/" + subresource
  {
    assert (resource + "/" + subresource)[|resource|] == '/';
  }

  /** A schema that lists only plain resources, such as `pods`, never classifies a request on a
      subresource, such as `pods/log`. */
  lemma PlainResourcesMissSubresources(xs: seq<FlowSchema>, levels: seq<PriorityLevel>, d: Digest, f: FlowSchema)
    requires ListsPlainResources(f) && d.isResource && d.subresource != ""
    requires forall x :: x in xs && x.uid == f.uid ==> x == f
    ensures Classify(xs, levels, d).Some? ==> Classify(xs, levels, d).value.schemaUid != f.uid
  {
    SubresourceHasSlash(d.resource, d.subresource);
    assert !Covers(f, d);
    if Classify(xs, levels, d).Some? {
      var i, j := ClassifiedIsChosen(xs, levels, d);
      assert xs[i] in xs;
    }
  }

  /** And a schema that lists `pods/log` alone never classifies a request on another resource. */
  lemma SubresourceRuleIsExact(r: ResourceRule, d: Digest, resource: string, subresource: string)
    requires r.resources == [resource + "/" + subresource] && '/' !in resource && '/' !in d.resource
    requires MatchesResourceRule(r, d)
    ensures d.resource == resource && d.subresource == subresource
  {
    SubresourceHasSlash(resource, subresource);
    SplitOnceAt(resource, '/', subresource);
    SplitOnceAt(d.resource, '/', d.subresource);
    assert resource + "/" + subresource != "*" by { SubresourceHasSlash(resource, subresource); }
  }

  // ---- Consequences -----------------------------------------------------------------------------

  ghost predicate UniqueNames(xs: seq<FlowSchema>) {
    forall i, j :: 0 <= i < j < |xs| ==> xs[i].name != xs[j].name
  }

  /** With unique names only the set of matching schemas decides: order, non-matching schemas and
      repetitions of the input are irrelevant. */
  lemma MatchDependsOnMatchingSet(xs: seq<FlowSchema>, ys: seq<FlowSchema>, d: Digest)
    requires UniqueNames(xs) && UniqueNames(ys)
    requires forall x :: MatchesFlowSchema(x, d) ==> (x in xs <==> x in ys)
    ensures FirstMatch(Sorted(xs), d) == FirstMatch(Sorted(ys), d)
  {
    SortThenFindIsLeast(xs, d);
    SortThenFindIsLeast(ys, d);
    var mx, my := FirstMatch(Sorted(xs), d), FirstMatch(Sorted(ys), d);
    if mx.Some? && my.Some? {
      var i: nat :| IsLeastMatch(xs, d, i) && xs[i] == mx.value;
      var j: nat :| IsLeastMatch(ys, d, j) && ys[j] == my.value;
      var i': nat :| i' < |xs| && xs[i'] == my.value;
      var j': nat :| j' < |ys| && ys[j'] == mx.value;
      LexAntisymmetric(mx.value.name, my.value.name);
      assert i == i';
    }
  }

  /** Permuting the schemas, or adding ones that do not match, does not change the answer. */
  lemma ClassifyIsOrderIndependent(xs: seq<FlowSchema>, ys: seq<FlowSchema>, levels: seq<PriorityLevel>, d: Digest)
    requires UniqueNames(xs) && UniqueNames(ys)
    requires forall x :: MatchesFlowSchema(x, d) ==> (x in xs <==> x in ys)
    ensures Classify(xs, levels, d) == Classify(ys, levels, d)
  {
    MatchDependsOnMatchingSet(xs, ys, d);
  }

  /** Adding a schema, anywhere in the list, leaves the match alone or becomes the match; it does
      the former if it comes after the old match. */
  lemma {:induction false} LaterSchemaIsIrrelevant(a: seq<FlowSchema>, f: FlowSchema, b: seq<FlowSchema>, d: Digest)
    ensures var was, now := FirstMatch(Sorted(a + b), d), FirstMatch(Sorted(a + [f] + b), d);
            && (now == was || now == Some(f))
            && (was.Some? && !Le(f, was.value) ==> now == was)
  {
    var s := a + [f] + b;
    if a == [] {
      assert s[1..] == b && a + b == b;
      SortedIsSorted(b);
      FirstMatchInsert(f, Sorted(b), d);
    } else {
      assert s[1..] == a[1..] + [f] + b && (a + b)[1..] == a[1..] + b;
      LaterSchemaIsIrrelevant(a[1..], f, b, d);
      SortedIsSorted(a[1..] + b);
      SortedIsSorted(a[1..] + [f] + b);
      FirstMatchInsert(a[0], Sorted(a[1..] + b), d);
      FirstMatchInsert(a[0], Sorted(a[1..] + [f] + b), d);
      LeTotal(a[0], f);
      var rest := FirstMatch(Sorted(a[1..] + b), d);
      if rest.Some? {
        LeTotal(a[0], rest.value);
        if Le(f, rest.value) && Le(rest.value, a[0]) { LeTransitive(f, rest.value, a[0]); }
        if Le(f, a[0]) && Le(a[0], rest.value) { LeTransitive(f, a[0], rest.value); }
        if Le(a[0], f) && Le(f, rest.value) { LeTransitive(a[0], f, rest.value); }
      }
    }
  }

  /** A full catch-all: any subject carrying one of the marker groups, any request. */
  predicate CatchAll(f: FlowSchema) {
    exists r :: r in f.rules
      && GroupSubject(Some(AUTHENTICATED)) in r.subjects && GroupSubject(Some(UNAUTHENTICATED)) in r.subjects
      && ResourceRule([WILDCARD], [WILDCARD], [WILDCARD], true, [WILDCARD]) in r.resourceRules
      && NonResourceRule([WILDCARD], [WILDCARD]) in r.nonResourceRules
  }

  lemma CatchAllMatches(f: FlowSchema, d: Digest)
    requires CatchAll(f) && (AUTHENTICATED in d.groups || UNAUTHENTICATED in d.groups)
    ensures MatchesFlowSchema(f, d)
  {
    var r :| r in f.rules
      && GroupSubject(Some(AUTHENTICATED)) in r.subjects && GroupSubject(Some(UNAUTHENTICATED)) in r.subjects
      && ResourceRule([WILDCARD], [WILDCARD], [WILDCARD], true, [WILDCARD]) in r.resourceRules
      && NonResourceRule([WILDCARD], [WILDCARD]) in r.nonResourceRules;
    var marker := if AUTHENTICATED in d.groups then AUTHENTICATED else UNAUTHENTICATED;
    assert MatchesSubject(GroupSubject(Some(marker)), d.username, d.groups);
    assert MatchesResourceRule(ResourceRule([WILDCARD], [WILDCARD], [WILDCARD], true, [WILDCARD]), d);
    assert WILDCARD in NonResourceRule([WILDCARD], [WILDCARD]).urls && MatchesUrl(WILDCARD, d.path);
    assert MatchesNonResourceRule(NonResourceRule([WILDCARD], [WILDCARD]), d);
    assert MatchesPolicyRule(r, d);
  }

  ghost predicate NoDanglingReference(xs: seq<FlowSchema>, levels: seq<PriorityLevel>) {
    forall x :: x in xs ==> exists l :: l in levels && l.name == x.level
  }

  lemma {:induction false} FindLevelMeaning(levels: seq<PriorityLevel>, name: string)
    ensures FindLevel(levels, name).Some? <==> exists l :: l in levels && l.name == name
  {
    if levels != [] {
      FindLevelMeaning(levels[1..], name);
      assert levels == [levels[0]] + levels[1..];
    }
  }

  /** With a catch-all present and no dangling reference every identified request is classified. */
  lemma CatchAllAlwaysAnswers(xs: seq<FlowSchema>, levels: seq<PriorityLevel>, d: Digest, f: FlowSchema)
    requires f in xs && CatchAll(f) && NoDanglingReference(xs, levels)
    requires AUTHENTICATED in d.groups || UNAUTHENTICATED in d.groups
    ensures Classify(xs, levels, d).Some?
  {
    CatchAllMatches(f, d);
    SortThenFindIsLeast(xs, d);
    var i: nat :| IsLeastMatch(xs, d, i) && xs[i] == FirstMatch(Sorted(xs), d).value;
    assert xs[i] in xs;
    FindLevelMeaning(levels, xs[i].level);
  }
}
