/** The parsers of `system:serviceaccount:<namespace>:<name>` and the groups they lead to. */
module SaNames {
  import opened Prelude
  import opened Text

  const PREFIX: string := "system:serviceaccount:"
  const AUTHENTICATED: string := "system:authenticated"
  const UNAUTHENTICATED: string := "system:unauthenticated"

  /** Rust's `splitn(n, sep)`. */
  function SplitN(s: string, n: nat, sep: char): seq<string>
    requires n >= 1
    decreases n
  {
    if n == 1 || SplitOnce(s, sep).None? then [s]
    else [SplitOnce(s, sep).value.0] + SplitN(SplitOnce(s, sep).value.1, n - 1, sep)
  }

  /** The subject check of a token: four parts, the first two fixed. */
  predicate SubjectOk(sub: string) {
    var parts := SplitN(sub, 4, ':');
    |parts| == 4 && parts[0] == "system" && parts[1] == "serviceaccount"
  }

  function TokenGroups(sub: string): seq<string>
    requires SubjectOk(sub)
  {
    ["system:serviceaccounts", "system:serviceaccounts:" + SplitN(sub, 4, ':')[2], AUTHENTICATED]
  }

  /** `split_service_account_username`. */
  function SplitUsername(username: string): Option<(string, string)> {
    var rest := StripPrefix(username, PREFIX);
    if rest.None? then None
    else
      var parts := Split(rest.value, ':');
      if parts[0] == "" || |parts| < 2 || parts[1] == "" || |parts| > 2 then None
      else Some((parts[0], parts[1]))
  }

  /** `service_account_matches_namespace`. */
  predicate MatchesNamespace(namespace: string, username: string) {
    var rest := StripPrefix(username, PREFIX);
    rest.Some? && StripPrefix(rest.value, namespace).Some?
    && [':'] <= StripPrefix(rest.value, namespace).value
  }

  function DefaultGroups(username: string): seq<string> {
    match SplitUsername(username)
    case Some((namespace, _)) => ["system:serviceaccounts", "system:serviceaccounts:" + namespace]
    case None => []
  }

  /** Groups of an impersonated identity: the requested ones or the defaults, completed with
      `system:authenticated` unless either marker group is present. */
  function ImpersonatedGroups(username: string, requested: seq<string>): (r: seq<string>)
    ensures AUTHENTICATED in r || UNAUTHENTICATED in r
  {
    var groups := if requested != [] then requested else DefaultGroups(username);
    if AUTHENTICATED !in groups && UNAUTHENTICATED !in groups then groups + [AUTHENTICATED] else groups
  }

  // ---- Agreement ------------------------------------------------------------------------------

  lemma SplitNAt(a: string, sep: char, b: string, n: nat)
    requires sep !in a && n >= 2
    ensures SplitN(a + [sep] + b, n, sep) == [a] + SplitN(b, n - 1, sep)
  {
    SplitOnceAt(a, sep, b);
  }

  /** Four parts joined by a separator. */
  function Join4(a: string, b: string, c: string, d: string, sep: char): string {
    a + [sep] + (b + [sep] + (c + [sep] + d))
  }

  lemma SplitJoin2(c: string, d: string, sep: char)
    requires sep !in c
    ensures SplitN(c + [sep] + d, 2, sep) == [c, d]
  {
    SplitNAt(c, sep, d, 2);
  }

  lemma SplitJoin3(b: string, c: string, d: string, sep: char)
    requires sep !in b && sep !in c
    ensures SplitN(b + [sep] + (c + [sep] + d), 3, sep) == [b, c, d]
  {
    SplitJoin2(c, d, sep);
    SplitNAt(b, sep, c + [sep] + d, 3);
  }

  lemma SplitJoin4(a: string, b: string, c: string, d: string, sep: char)
    requires sep !in a && sep !in b && sep !in c
    ensures SplitN(Join4(a, b, c, d, sep), 4, sep) == [a, b, c, d]
  {
    SplitJoin3(b, c, d, sep);
    SplitNAt(a, sep, b + [sep] + (c + [sep] + d), 4);
  }

  lemma PrefixParts()
    ensures PREFIX == "system" + [':'] + ("serviceaccount" + [':'])
    ensures ':' !in "system" && ':' !in "serviceaccount"
  {
  }

  lemma SubjectIsJoin(p: string, a: string, b: string, ns: string, name: string, sep: char)
    requires p == a + [sep] + (b + [sep])
    ensures p + ns + [sep] + name == Join4(a, b, ns, name, sep)
  {
  }

  lemma SplitSubject(ns: string, name: string)
    requires ':' !in ns
    ensures SplitN(PREFIX + ns + ":" + name, 4, ':') == ["system", "serviceaccount", ns, name]
  {
    PrefixParts();
    SubjectIsJoin(PREFIX, "system", "serviceaccount", ns, name, ':');
    SplitJoin4("system", "serviceaccount", ns, name, ':');
  }

  lemma SplitNToJoin4(s: string, sep: char)
    requires |SplitN(s, 4, sep)| == 4
    ensures var p := SplitN(s, 4, sep); sep !in p[2] && s == Join4(p[0], p[1], p[2], p[3], sep)
  {
    var (a, rest) := SplitOnce(s, sep).value;
    assert SplitN(s, 4, sep) == [a] + SplitN(rest, 3, sep);
    var (b, tail) := SplitOnce(rest, sep).value;
    assert SplitN(rest, 3, sep) == [b] + SplitN(tail, 2, sep);
    var (c, d) := SplitOnce(tail, sep).value;
    assert SplitN(tail, 2, sep) == [c] + SplitN(d, 1, sep);
  }

  lemma SplitUsernameJoins(username: string, ns: string, name: string)
    requires SplitUsername(username) == Some((ns, name))
    ensures username == PREFIX + ns + ":" + name && ns != "" && name != "" && ':' !in ns && ':' !in name
  {
    var rest := StripPrefix(username, PREFIX).value;
    JoinOfSplit(rest, ':');
    assert Split(rest, ':') == [ns, name];
    assert Join([ns, name], ':') == ns + [':'] + Join([name], ':');
    assert username == PREFIX + rest;
  }

  lemma JoinedUsernameSplits(ns: string, name: string)
    requires ns != "" && name != "" && ':' !in ns && ':' !in name
    ensures SplitUsername(PREFIX + ns + ":" + name) == Some((ns, name))
  {
    assert (PREFIX + ns + ":" + name)[|PREFIX|..] == ns + [':'] + name;
    SplitAtSeparator(ns, ':', name);
    SplitWithoutSeparator(name, ':');
  }

  /** A username splits to a namespace and a name exactly when it is the prefix and two
      non-empty colon-free parts. */
  lemma SplitUsernameMeaning(username: string, ns: string, name: string)
    ensures SplitUsername(username) == Some((ns, name)) <==>
            && username == PREFIX + ns + ":" + name
            && ns != "" && name != "" && ':' !in ns && ':' !in name
  {
    if SplitUsername(username) == Some((ns, name)) {
      SplitUsernameJoins(username, ns, name);
    } else if ns != "" && name != "" && ':' !in ns && ':' !in name {
      JoinedUsernameSplits(ns, name);
    }
  }

  /** For a well-shaped username the wildcard subject of a FlowSchema matches exactly its own
      namespace. */
  lemma NamespaceMatchIsExact(username: string, ns: string, name: string, namespace: string)
    requires SplitUsername(username) == Some((ns, name))
    ensures MatchesNamespace(namespace, username) <==> namespace == ns
  {
    SplitUsernameMeaning(username, ns, name);
    var rest := username[|PREFIX|..];
    assert rest == ns + [':'] + name;
    if MatchesNamespace(namespace, username) {
      var n := |namespace|;
      assert rest[n] == rest[n..][0] == ':';
      assert forall i :: 0 <= i < |rest| && i != |ns| ==> rest[i] in ns || rest[i] in name;
    }
  }

  lemma AccountGroupsAreNoMarkers(ns: string)
    ensures var groups := ["system:serviceaccounts", "system:serviceaccounts:" + ns];
            AUTHENTICATED !in groups && UNAUTHENTICATED !in groups
  {
    assert "system:serviceaccounts"[7] == 's' && ("system:serviceaccounts:" + ns)[7] == 's';
    assert AUTHENTICATED[7] == 'a' && UNAUTHENTICATED[7] == 'u';
  }

  /** Impersonating a ServiceAccount without naming groups yields exactly the groups of a token
      for that subject. */
  lemma ImpersonationMatchesToken(username: string, ns: string, name: string)
    requires SplitUsername(username) == Some((ns, name))
    ensures SubjectOk(username) && ImpersonatedGroups(username, []) == TokenGroups(username)
  {
    SplitUsernameMeaning(username, ns, name);
    SplitSubject(ns, name);
    AccountGroupsAreNoMarkers(ns);
  }

  /** A token's groups name its namespace. */
  lemma TokenGroupsExactly(sub: string, ns: string, name: string)
    requires ':' !in ns && sub == PREFIX + ns + ":" + name
    ensures SubjectOk(sub)
    ensures TokenGroups(sub) == ["system:serviceaccounts", "system:serviceaccounts:" + ns, "system:authenticated"]
  {
    SplitSubject(ns, name);
  }

  /** The username of a ServiceAccount: two non-empty colon-free parts after the prefix. */
  ghost predicate IsAccount(username: string, ns: string, name: string) {
    && username == "system:serviceaccount:" + ns + ":" + name
    && ns != "" && name != "" && ':' !in ns && ':' !in name
  }

  /** An impersonated identity has the requested groups, or those of its ServiceAccount if none are
      requested, and counts as authenticated unless it asks for the opposite. */
  lemma ImpersonatedGroupsExactly(username: string, requested: seq<string>, g: string)
    ensures g in ImpersonatedGroups(username, requested) <==>
            || g in requested
            || (g == "system:authenticated" && "system:unauthenticated" !in requested)
            || (requested == [] && exists ns: string, name: string ::
                  IsAccount(username, ns, name) && (g == "system:serviceaccounts" || g == "system:serviceaccounts:" + ns))
  {
    if requested == [] {
      match SplitUsername(username) {
        case Some((ns, name)) =>
          SplitUsernameMeaning(username, ns, name);
          AccountGroupsAreNoMarkers(ns);
          assert IsAccount(username, ns, name);
          forall ns': string, name': string | IsAccount(username, ns', name') ensures ns' == ns {
            SplitUsernameMeaning(username, ns', name');
          }
        case None =>
          forall ns: string, name: string ensures !IsAccount(username, ns, name) {
            SplitUsernameMeaning(username, ns, name);
          }
      }
    }
  }

  /** The token's subject check is the looser of the two: it also lets a name hold colons, or
      either part be empty. */
  lemma SubjectOkMeaning(sub: string)
    ensures SubjectOk(sub) <==> exists ns: string, name: string :: ':' !in ns && sub == PREFIX + ns + ":" + name
  {
    if SubjectOk(sub) {
      SplitNToJoin4(sub, ':');
      var parts := SplitN(sub, 4, ':');
      PrefixParts();
      SubjectIsJoin(PREFIX, "system", "serviceaccount", parts[2], parts[3], ':');
      assert sub == PREFIX + parts[2] + ":" + parts[3];
    }
    if ns: string, name: string :| ':' !in ns && sub == PREFIX + ns + ":" + name {
      SplitSubject(ns, name);
    }
  }
}
