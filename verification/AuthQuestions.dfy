/** Who a request comes from, what authorization is asked about it, and what classification sees. */
module AuthQuestions {
  import opened Prelude
  import opened Text
  import opened Utf8
  import opened Percent
  import opened RequestPath
  import opened RequestQuery
  import opened SaNames
  import opened AuthPipeline
  import Apf

  // ---- Callers --------------------------------------------------------------------------------

  /** The header starts with `Bearer` in any letter case and a space. */
  predicate IsBearer(h: string) {
    && |h| >= 7 && h[0] in "bB" && h[1] in "eE" && h[2] in "aA" && h[3] in "rR" && h[4] in "eE" && h[5] in "rR"
    && h[6] == ' '
  }

  lemma SevenLetters(s: string, t: string)
    requires |s| == |t| == 7
    ensures s == t <==> s[0] == t[0] && s[1] == t[1] && s[2] == t[2] && s[3] == t[3] && s[4] == t[4]
                        && s[5] == t[5] && s[6] == t[6]
  {
  }

  lemma LowerIsBearer(v: string)
    requires |v| == 7
    ensures Lower(v) == "bearer " <==> IsBearer(v)
  {
    SevenLetters(Lower(v), "bearer ");
    LowerOfLetter(v, 0, 'b', 'B');
    LowerOfLetter(v, 1, 'e', 'E');
    LowerOfLetter(v, 2, 'a', 'A');
    LowerOfLetter(v, 3, 'r', 'R');
    LowerOfLetter(v, 4, 'e', 'E');
    LowerOfLetter(v, 5, 'r', 'R');
    assert Lower(v)[6] == ' ' <==> v[6] == ' ';
  }

  /** The token is what follows the scheme; any other header carries none. */
  lemma BearerTokenExactly(header: Option<string>)
    ensures BearerToken(header) ==
            if header.Some? && IsBearer(header.value) then Some(header.value[7..]) else None
  {
    if header.Some? && |header.value| >= 7 {
      LowerIsBearer(header.value[..7]);
    }
  }

  /** The subject of an acceptable ServiceAccount token. */
  ghost predicate Subject(sub: string, ns: string) {
    ':' !in ns && exists name: string :: sub == "system:serviceaccount:" + ns + ":" + name
  }

  lemma SubjectExactly(sub: string)
    ensures SubjectOk(sub) <==> exists ns :: Subject(sub, ns)
  {
    SubjectOkMeaning(sub);
    if ns: string, name: string :| ':' !in ns && sub == PREFIX + ns + ":" + name {
      assert Subject(sub, ns);
    }
  }

  /** A token for a well-shaped subject identifies it, with the groups of its namespace. */
  lemma AccountUserExactly(t: AccountToken)
    ensures AccountUser(t).Some? <==> exists ns :: Subject(t.sub, ns)
    ensures forall ns :: Subject(t.sub, ns) ==> AccountUser(t) == Some(User(t.sub, "",
              ["system:serviceaccounts", "system:serviceaccounts:" + ns, "system:authenticated"], t.extra))
  {
    SubjectExactly(t.sub);
    forall ns | Subject(t.sub, ns)
      ensures AccountUser(t) == Some(User(t.sub, "",
                ["system:serviceaccounts", "system:serviceaccounts:" + ns, "system:authenticated"], t.extra))
    {
      var name: string :| t.sub == "system:serviceaccount:" + ns + ":" + name;
      TokenGroupsExactly(t.sub, ns, name);
    }
  }

  /** Without a token a request comes from its certificate's subject, or from nobody. */
  lemma CallerWithoutToken(
    header: Option<string>, tokens: map<string, User>,
    account: string -> Option<AccountToken>, bootstrap: string -> Option<User>, certificate: Option<Certificate>)
    requires header.Some? ==> !IsBearer(header.value)
    ensures Authenticate(header, tokens, account, bootstrap, certificate) ==
            Identified(
              if certificate.Some? && certificate.value.commonName.Some? then
                User(certificate.value.commonName.value, "",
                     certificate.value.organizations + ["system:authenticated"], map[])
              else User("system:anonymous", "", ["system:unauthenticated"], map[]))
  {
    BearerTokenExactly(header);
  }

  /** An account token's subject is acceptable. */
  ghost predicate Accepts(account: string -> Option<AccountToken>, token: string) {
    account(token).Some? && exists ns :: Subject(account(token).value.sub, ns)
  }

  lemma AcceptsExactly(account: string -> Option<AccountToken>, token: string)
    ensures Accepts(account, token) <==> account(token).Some? && AccountUser(account(token).value).Some?
  {
    if account(token).Some? {
      AccountUserExactly(account(token).value);
    }
  }

  /** A token in the static map identifies its user, completed with the marker group. */
  lemma StaticTokenCaller(
    h: string, tokens: map<string, User>,
    account: string -> Option<AccountToken>, bootstrap: string -> Option<User>, certificate: Option<Certificate>)
    requires IsBearer(h) && h[7..] in tokens
    ensures var user := tokens[h[7..]];
            Authenticate(Some(h), tokens, account, bootstrap, certificate) ==
            Identified(user.(groups := user.groups +
              if "system:authenticated" in user.groups then [] else ["system:authenticated"]))
  {
    BearerTokenExactly(Some(h));
    assert tokens[h[7..]].groups + [] == tokens[h[7..]].groups;
  }

  /** Otherwise an accepted ServiceAccount token identifies its subject. */
  lemma AccountTokenCaller(
    h: string, tokens: map<string, User>,
    account: string -> Option<AccountToken>, bootstrap: string -> Option<User>, certificate: Option<Certificate>,
    ns: string)
    requires IsBearer(h) && h[7..] !in tokens
    requires account(h[7..]).Some? && Subject(account(h[7..]).value.sub, ns)
    ensures var t := account(h[7..]).value;
            Authenticate(Some(h), tokens, account, bootstrap, certificate) ==
            Identified(User(t.sub, "",
              ["system:serviceaccounts", "system:serviceaccounts:" + ns, "system:authenticated"], t.extra))
  {
    BearerTokenExactly(Some(h));
    AccountUserExactly(account(h[7..]).value);
  }

  /** Otherwise a bootstrap token identifies its user, and an unknown token is never anonymous. */
  lemma OtherTokenCaller(
    h: string, tokens: map<string, User>,
    account: string -> Option<AccountToken>, bootstrap: string -> Option<User>, certificate: Option<Certificate>)
    requires IsBearer(h) && h[7..] !in tokens && !Accepts(account, h[7..])
    ensures Authenticate(Some(h), tokens, account, bootstrap, certificate) ==
            match bootstrap(h[7..])
            case Some(user) => Identified(user.(groups := user.groups + ["system:authenticated"]))
            case None => BadToken
  {
    BearerTokenExactly(Some(h));
    AcceptsExactly(account, h[7..]);
  }

  // ---- Authorization --------------------------------------------------------------------------

  /** The node authorizer or RBAC permits the request to this user, and for the subresources that open
      a stream into a pod also its `create` form. */
  ghost predicate Permitted(policy: Policy, req: Request, user: User) {
    var a := AuthzOf(req, user);
    var create := a.(verb := "create");
    && (policy.node(a, req.query) || policy.rbac(a))
    && (a.group == "" && a.resource == "pods" && a.subresource in {"exec", "attach", "portforward"} ==>
          policy.node(create, req.query) || policy.rbac(create))
  }

  lemma AuthorizedExactly(policy: Policy, req: Request, user: User)
    ensures Authorized(policy, req, user) <==> Permitted(policy, req, user)
  {
    var a := AuthzOf(req, user);
    assert a.verb == "create" ==> a.(verb := "create") == a;
  }

  /** A request is served exactly to an identity it may act as and that is permitted it. */
  lemma ServedExactly(req: Request, caller: User, policy: Policy, user: User)
    requires WellEscaped(req.path) && !MalformedImpersonation(req.headers)
    requires Acting(req, caller, policy.rbac) == Some(user)
    ensures Decide(req, Identified(caller), policy) == if Permitted(policy, req, user) then Served(user) else Forbidden
  {
    AuthorizedExactly(policy, req, user);
  }

  /** The name authorization sees: that of the path, or the one a list or watch is narrowed to. */
  function AuthorizedName(p: ParsedPath, httpMethod: string, query: Option<string>): Option<string> {
    if p.name.Some? then p.name
    else if httpMethod == "GET" || httpMethod == "HEAD" then FieldSelectorName(query)
    else None
  }

  /** However its path is spelled, a request for an unambiguous target is authorized as that target. */
  lemma TargetIsAuthorized(req: Request, user: User, p: ParsedPath, before: nat, after: nat)
    requires WellFormed(p) && !Ambiguous(p) && Encodes(req.path, PrintPath(p, before, after))
    ensures AuthzOf(req, user) ==
            AuthzRequest(user.name, user.groups, RequestVerb(req.httpMethod, p, false, req.query),
                         p.group, p.resource, p.subresource, p.namespace,
                         AuthorizedName(p, req.httpMethod, req.query), None)
  {
    PathRoundTrip(p, before, after, req.path);
    ResourceVerbExactly(req.httpMethod, p, req.query);
  }

  /** And classified as that target. */
  lemma TargetIsClassified(req: Request, user: User, p: ParsedPath, before: nat, after: nat)
    requires WellFormed(p) && !Ambiguous(p) && Encodes(req.path, PrintPath(p, before, after))
    ensures DigestOf(req, user) ==
            Apf.Digest(user.name, user.groups, RequestVerb(req.httpMethod, p, false, req.query),
                       p.group, p.resource, p.subresource, p.namespace, true, "")
  {
    TargetIsAuthorized(req, user, p, before, after);
  }

  /** A path outside `/api` and `/apis`: a first segment, and anything below it. */
  ghost predicate Elsewhere(text: string, before: nat, first: string, rest: string) {
    && text == Repeat('/', before) + first + rest && first != "" && '/' !in first
    && first != "api" && first != "apis" && (rest == "" || rest[0] == '/') && ValidUtf8(text)
  }

  lemma SplitStartsWith(first: string, rest: string)
    requires '/' !in first && (rest == "" || rest[0] == '/')
    ensures Split(first + rest, '/')[0] == first
  {
    if rest == "" {
      assert first + rest == first;
      SplitWithoutSeparator(first, '/');
    } else {
      assert first + rest == first + ['/'] + rest[1..];
      SplitAtSeparator(first, '/', rest[1..]);
    }
  }

  lemma TrimKeepsFirst(before: nat, first: string, rest: string) returns (tail: string)
    requires first != "" && '/' !in first && (rest == "" || rest[0] == '/')
    ensures TrimMatches(Repeat('/', before) + first + rest, '/') == first + tail && (tail == "" || tail[0] == '/')
  {
    var body := first + rest;
    assert Repeat('/', before) + first + rest == Repeat('/', before) + body;
    assert body[0] == first[0] && first[0] in first;
    TrimStartOf('/', before, body);
    var r := TrimEnd(body, '/');
    assert body[|first| - 1] == first[|first| - 1] && first[|first| - 1] in first;
    assert |r| >= |first|;
    tail := r[|first|..];
    assert r == body[..|r|] && r == first + tail && tail == rest[..|tail|];
  }

  lemma ElsewhereIsUnknown(text: string, before: nat, first: string, rest: string)
    requires Elsewhere(text, before, first, rest)
    ensures ParseText(text) == UNKNOWN
  {
    var tail := TrimKeepsFirst(before, first, rest);
    SplitStartsWith(first, tail);
  }

  lemma UnknownIsAsked(req: Request, user: User, text: string)
    requires ParsePath(req.path) == UNKNOWN && DecodedPath(req.path) == text
    ensures AuthzOf(req, user) ==
            AuthzRequest(user.name, user.groups, RequestVerb(req.httpMethod, UNKNOWN, true, req.query),
                         "", "", "", None, None, Some(text))
  {
    NonResourceVerbExactly(req.httpMethod, UNKNOWN, req.query);
  }

  /** Such a path is authorized as the non-resource URL it decodes to, under its method's verb. */
  lemma ElsewhereIsAuthorized(req: Request, user: User, text: string, before: nat, first: string, rest: string)
    requires Elsewhere(text, before, first, rest) && Encodes(req.path, text)
    ensures AuthzOf(req, user) ==
            AuthzRequest(user.name, user.groups, RequestVerb(req.httpMethod, UNKNOWN, true, req.query),
                         "", "", "", None, None, Some(text))
  {
    EncodingInverse(req.path, text);
    ElsewhereIsUnknown(text, before, first, rest);
    LossyKeepsValid(text);
    if '%' !in req.path {
      NoPercentNoChange(req.path);
    }
    DecodedPathIsDecoding(req.path);
    UnknownIsAsked(req, user, text);
  }

  lemma ElsewhereIsClassified(req: Request, user: User, text: string, before: nat, first: string, rest: string)
    requires Elsewhere(text, before, first, rest) && Encodes(req.path, text)
    ensures DigestOf(req, user) ==
            Apf.Digest(user.name, user.groups, RequestVerb(req.httpMethod, UNKNOWN, true, req.query),
                       "", "", "", None, false, text)
  {
    ElsewhereIsAuthorized(req, user, text, before, first, rest);
  }
}
