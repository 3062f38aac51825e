/** Authentication, impersonation and authorization of one request, and the counters they bump. */
module AuthPipeline {
  import opened Prelude
  import opened Text
  import opened Utf8
  import opened Percent
  import opened RequestPath
  import opened RequestQuery
  import opened SaNames
  import Apf

  datatype User = User(name: string, uid: string, groups: seq<string>, extra: map<string, seq<string>>)

  /** Header names are lower case; a value that is not visible ASCII is unreadable. */
  datatype Header = Header(name: string, value: Option<string>)

  datatype Request = Request(httpMethod: string, path: string, query: Option<string>, headers: seq<Header>)

  datatype AuthzRequest = AuthzRequest(
    username: string,
    groups: seq<string>,
    verb: string,
    group: string,
    resource: string,
    subresource: string,
    namespace: Option<string>,
    name: Option<string>,
    nonResourceUrl: Option<string>)

  /** The RBAC index and the node authorizer, which also reads the raw query. */
  datatype Policy = Policy(
    rbac: AuthzRequest -> bool,
    node: (AuthzRequest, Option<string>) -> bool)

  // ---- Authentication -------------------------------------------------------------------------

  /** `Abandoned`: the request was dropped while its token was being checked. */
  datatype Authn = Busy | Identified(user: User) | BadToken | Abandoned

  function BearerToken(header: Option<string>): Option<string> {
    if header.Some? && |header.value| >= 7 && Lower(header.value[..7]) == "bearer " then Some(header.value[7..])
    else None
  }

  function Completed(u: User): User {
    if AUTHENTICATED in u.groups then u else u.(groups := u.groups + [AUTHENTICATED])
  }

  const ANONYMOUS: User := User("system:anonymous", "", [UNAUTHENTICATED], map[])

  /** What an accepted ServiceAccount token says. */
  datatype AccountToken = AccountToken(sub: string, extra: map<string, seq<string>>)

  function AccountUser(t: AccountToken): Option<User> {
    if SubjectOk(t.sub) then Some(User(t.sub, "", TokenGroups(t.sub), t.extra)) else None
  }

  /** The subject of a verified client certificate. */
  datatype Certificate = Certificate(commonName: Option<string>, organizations: seq<string>)

  function CertificateUser(c: Certificate): Option<User> {
    if c.commonName.None? then None
    else Some(User(c.commonName.value, "", c.organizations + [AUTHENTICATED], map[]))
  }

  function BootstrapUser(u: User): User { u.(groups := u.groups + [AUTHENTICATED]) }

  /** The authenticators in order. */
  function Authenticate(
    header: Option<string>,
    tokens: map<string, User>,
    account: string -> Option<AccountToken>,
    bootstrap: string -> Option<User>,
    certificate: Option<Certificate>): Authn
  {
    match BearerToken(header)
    case None =>
      var user := if certificate.Some? then CertificateUser(certificate.value) else None;
      Identified(if user.Some? then user.value else ANONYMOUS)
    case Some(token) =>
      var user := if account(token).Some? then AccountUser(account(token).value) else None;
      if token in tokens then Identified(Completed(tokens[token]))
      else if user.Some? then Identified(user.value)
      else if bootstrap(token).Some? then Identified(BootstrapUser(bootstrap(token).value))
      else BadToken
  }

  predicate Marked(u: User) { AUTHENTICATED in u.groups || UNAUTHENTICATED in u.groups }

  // ---- Impersonation --------------------------------------------------------------------------

  const IMP_USER: string := "impersonate-user"
  const IMP_GROUP: string := "impersonate-group"
  const IMP_UID: string := "impersonate-uid"
  const IMP_EXTRA: string := "impersonate-extra-"

  predicate HasHeader(hs: seq<Header>, name: string) {
    exists i :: 0 <= i < |hs| && hs[i].name == name
  }

  predicate HasExtra(hs: seq<Header>) {
    exists i :: 0 <= i < |hs| && IMP_EXTRA <= hs[i].name
  }

  /** The first header of that name, if readable. */
  function HeaderValue(hs: seq<Header>, name: string): Option<string> {
    if hs == [] then None
    else if hs[0].name == name then hs[0].value
    else HeaderValue(hs[1..], name)
  }

  /** Every readable header of that name, in order. */
  function Values(hs: seq<Header>, name: string): seq<string> {
    if hs == [] then []
    else
      var init := Values(hs[..|hs| - 1], name);
      var h := hs[|hs| - 1];
      if h.name == name && h.value.Some? then init + [h.value.value] else init
  }

  lemma {:induction false} ValuesMeaning(hs: seq<Header>, name: string, v: string)
    ensures v in Values(hs, name) <==> exists i :: 0 <= i < |hs| && hs[i] == Header(name, Some(v))
  {
    if hs != [] {
      var init := hs[..|hs| - 1];
      ValuesMeaning(init, name, v);
      assert forall i :: 0 <= i < |init| ==> init[i] == hs[i];
    }
  }

  /** The extra key a header name carries: percent-decoded, or verbatim when that is not UTF-8. */
  function ExtraKey(name: string): Option<string> {
    var raw := StripPrefix(name, IMP_EXTRA);
    if raw.None? then None
    else if PercentDecode(raw.value).Some? then PercentDecode(raw.value)
    else raw
  }

  function ExtraWith(m: map<string, seq<string>>, h: Header): map<string, seq<string>> {
    var key := ExtraKey(h.name);
    if key.None? || h.value.None? then m
    else m[key.value := (if key.value in m then m[key.value] else []) + [h.value.value]]
  }

  function ExtraOf(hs: seq<Header>): map<string, seq<string>> {
    if hs == [] then map[] else ExtraWith(ExtraOf(hs[..|hs| - 1]), hs[|hs| - 1])
  }

  predicate HasValue(m: map<string, seq<string>>, k: string, v: string) { k in m && v in m[k] }

  predicate CarriesExtra(h: Header, k: string, v: string) { ExtraKey(h.name) == Some(k) && h.value == Some(v) }

  /** The extra attributes are exactly the readable extra headers: none lost, none invented. */
  lemma {:induction false} ExtraMeaning(hs: seq<Header>, k: string, v: string)
    ensures HasValue(ExtraOf(hs), k, v) <==> exists i :: 0 <= i < |hs| && CarriesExtra(hs[i], k, v)
  {
    if hs != [] {
      var init := hs[..|hs| - 1];
      ExtraMeaning(init, k, v);
      assert forall i :: 0 <= i < |init| ==> init[i] == hs[i];
      assert HasValue(ExtraOf(hs), k, v) <==> HasValue(ExtraOf(init), k, v) || CarriesExtra(hs[|hs| - 1], k, v);
    }
  }

  function Grant(caller: User, group: string, resource: string, subresource: string,
                 namespace: Option<string>, name: string): AuthzRequest {
    AuthzRequest(caller.name, caller.groups, "impersonate", group, resource, subresource, namespace, Some(name), None)
  }

  function UserGrant(caller: User, target: string): AuthzRequest {
    match SplitUsername(target)
    case Some((ns, name)) => Grant(caller, "", "serviceaccounts", "", Some(ns), name)
    case None => Grant(caller, "", "users", "", None, target)
  }

  function GroupGrant(caller: User, g: string): AuthzRequest { Grant(caller, "", "groups", "", None, g) }

  function UidGrant(caller: User, uid: string): AuthzRequest {
    Grant(caller, "authentication.k8s.io", "uids", "", None, uid)
  }

  function ExtraGrant(caller: User, k: string, v: string): AuthzRequest {
    Grant(caller, "authentication.k8s.io", "userextras", k, None, v)
  }

  /** The caller was granted the user, every group, the uid and every extra value. */
  ghost predicate Granted(hs: seq<Header>, caller: User, target: string, rbac: AuthzRequest -> bool) {
    && rbac(UserGrant(caller, target))
    && (forall g :: g in Values(hs, IMP_GROUP) ==> rbac(GroupGrant(caller, g)))
    && (HeaderValue(hs, IMP_UID).Some? ==> rbac(UidGrant(caller, HeaderValue(hs, IMP_UID).value)))
    && (forall k, v :: HasValue(ExtraOf(hs), k, v) ==> rbac(ExtraGrant(caller, k, v)))
  }

  function Target(hs: seq<Header>, target: string): User {
    User(target, if HeaderValue(hs, IMP_UID).Some? then HeaderValue(hs, IMP_UID).value else "",
         ImpersonatedGroups(target, Values(hs, IMP_GROUP)), ExtraOf(hs))
  }

  predicate MalformedImpersonation(hs: seq<Header>) {
    !HasHeader(hs, IMP_USER) && (HasHeader(hs, IMP_GROUP) || HasHeader(hs, IMP_UID) || HasExtra(hs))
  }

  /** Checks every value of one extra attribute. */
  method ExtraValuesGranted(caller: User, k: string, values: seq<string>, rbac: AuthzRequest -> bool) returns (ok: bool)
    ensures ok <==> forall v :: v in values ==> rbac(ExtraGrant(caller, k, v))
  {
    for i := 0 to |values|
      invariant forall v :: v in values[..i] ==> rbac(ExtraGrant(caller, k, v))
    {
      if !rbac(ExtraGrant(caller, k, values[i])) {
        return false;
      }
    }
    assert values[..|values|] == values;
    return true;
  }

  method ExtraGranted(caller: User, extra: map<string, seq<string>>, rbac: AuthzRequest -> bool) returns (ok: bool)
    ensures ok <==> forall k, v :: HasValue(extra, k, v) ==> rbac(ExtraGrant(caller, k, v))
  {
    var todo := extra.Keys;
    while todo != {}
      invariant todo <= extra.Keys
      invariant forall k, v :: HasValue(extra, k, v) && k !in todo ==> rbac(ExtraGrant(caller, k, v))
      decreases |todo|
    {
      var k :| k in todo;
      var granted := ExtraValuesGranted(caller, k, extra[k], rbac);
      if !granted {
        ghost var v :| v in extra[k] && !rbac(ExtraGrant(caller, k, v));
        assert HasValue(extra, k, v);
        return false;
      }
      todo := todo - {k};
    }
    return true;
  }

  /** The check loops of impersonation: `None` is a denial. */
  method Impersonate(hs: seq<Header>, caller: User, target: string, rbac: AuthzRequest -> bool) returns (r: Option<User>)
    ensures r == if Granted(hs, caller, target, rbac) then Some(Target(hs, target)) else None
  {
    if !rbac(UserGrant(caller, target)) {
      return None;
    }
    var groups := Values(hs, IMP_GROUP);
    for i := 0 to |groups|
      invariant forall g :: g in groups[..i] ==> rbac(GroupGrant(caller, g))
    {
      if !rbac(GroupGrant(caller, groups[i])) {
        return None;
      }
    }
    assert groups[..|groups|] == groups;
    var uid := HeaderValue(hs, IMP_UID);
    if uid.Some? && !rbac(UidGrant(caller, uid.value)) {
      return None;
    }
    var extra: map<string, seq<string>> := map[];
    for i := 0 to |hs|
      invariant extra == ExtraOf(hs[..i])
    {
      assert hs[..i + 1][..i] == hs[..i];
      extra := ExtraWith(extra, hs[i]);
    }
    assert hs[..|hs|] == hs;
    var granted := ExtraGranted(caller, extra, rbac);
    if !granted {
      return None;
    }
    r := Some(User(target, if uid.Some? then uid.value else "", ImpersonatedGroups(target, groups), extra));
  }

  // ---- Authorization --------------------------------------------------------------------------

  /** `decode_path`, falling back to the raw path. */
  function DecodedPath(path: string): string {
    if '%' in path && PercentDecode(path).Some? then PercentDecode(path).value else path
  }

  function NonResourceUrl(path: string): Option<string> {
    if ParsePath(path).resource == "" then Some(DecodedPath(path)) else None
  }

  function AuthzOf(req: Request, user: User): AuthzRequest {
    Question(user, ParsePath(req.path), NonResourceUrl(req.path), req.httpMethod, req.query)
  }

  function Question(user: User, parsed: ParsedPath, url: Option<string>, httpMethod: string, query: Option<string>): AuthzRequest {
    var verb := RequestVerb(httpMethod, parsed, url.Some?, query);
    var pinned := if parsed.name.None? && (verb == "list" || verb == "watch") then FieldSelectorName(query) else None;
    AuthzRequest(user.name, user.groups, verb, parsed.group, parsed.resource, parsed.subresource, parsed.namespace,
                 if parsed.name.Some? then parsed.name else pinned, url)
  }

  /** The subresources that open a stream into a pod also need `create`. */
  predicate NeedsCreate(a: AuthzRequest) {
    a.verb != "create" && a.group == "" && a.resource == "pods"
    && (a.subresource == "exec" || a.subresource == "attach" || a.subresource == "portforward")
  }

  predicate Permits(policy: Policy, a: AuthzRequest, query: Option<string>) {
    policy.node(a, query) || policy.rbac(a)
  }

  predicate Authorized(policy: Policy, req: Request, user: User) {
    var a := AuthzOf(req, user);
    && Permits(policy, a, req.query)
    && (NeedsCreate(a) ==> Permits(policy, a.(verb := "create"), req.query))
  }

  method Authorize(policy: Policy, req: Request, user: User) returns (allowed: bool)
    ensures allowed <==> Authorized(policy, req, user)
  {
    var a := AuthzOf(req, user);
    allowed := policy.node(a, req.query) || policy.rbac(a);
    if allowed && NeedsCreate(a) {
      var create := a.(verb := "create");
      allowed := policy.node(create, req.query) || policy.rbac(create);
    }
  }

  // ---- The service ----------------------------------------------------------------------------

  datatype Outcome =
    | InvalidEscape
    | TooBusy
    | Dropped
    | Unauthorized
    | BadImpersonation
    | ImpersonationDenied
    | Forbidden
    | Served(user: User)

  /** The identity a request acts as once authenticated. */
  ghost function Acting(req: Request, caller: User, rbac: AuthzRequest -> bool): Option<User> {
    match HeaderValue(req.headers, IMP_USER)
    case None => Some(caller)
    case Some(target) => if Granted(req.headers, caller, target, rbac) then Some(Target(req.headers, target)) else None
  }

  /** What becomes of an authenticated request. */
  ghost function DecideFor(req: Request, caller: User, policy: Policy): Outcome {
    if MalformedImpersonation(req.headers) then BadImpersonation
    else
      match Acting(req, caller, policy.rbac)
      case None => ImpersonationDenied
      case Some(user) => if Authorized(policy, req, user) then Served(user) else Forbidden
  }

  ghost function Decide(req: Request, authn: Authn, policy: Policy): Outcome {
    if !WellEscaped(req.path) then InvalidEscape
    else
      match authn
      case Busy => TooBusy
      case Abandoned => Dropped
      case BadToken => Unauthorized
      case Identified(caller) => DecideFor(req, caller, policy)
  }

  /** The metrics: authentication by result, authorization by result. */
  datatype Counters = Counters(error: nat, failure: nat, success: nat, allowed: nat, denied: nat)

  function Tally(c: Counters, o: Outcome): Counters {
    match o
    case InvalidEscape => c
    case Dropped => c
    case TooBusy => c.(error := c.error + 1)
    case Unauthorized => c.(failure := c.failure + 1)
    case BadImpersonation => c.(success := c.success + 1)
    case ImpersonationDenied => c.(success := c.success + 1, denied := c.denied + 1)
    case Forbidden => c.(success := c.success + 1, denied := c.denied + 1)
    case Served(_) => c.(success := c.success + 1, allowed := c.allowed + 1)
  }

  class AuthService {
    var counters: Counters
    var handled: seq<User>

    constructor ()
      ensures counters == Counters(0, 0, 0, 0, 0) && handled == []
    {
      counters, handled := Counters(0, 0, 0, 0, 0), [];
    }

    /** Serves one request; the handler runs exactly when the outcome says so, and sees the
        identity it names. */
    method Call(req: Request, authn: Authn, policy: Policy) returns (out: Outcome)
      modifies this
      ensures out == Decide(req, authn, policy)
      ensures counters == Tally(old(counters), out)
      ensures handled == old(handled) + if out.Served? then [out.user] else []
    {
      var escape := InvalidPathEscape(req.path);
      if escape.Some? {
        return InvalidEscape;
      }
      match authn
      case Busy =>
        counters := counters.(error := counters.error + 1);
        return TooBusy;
      case Abandoned =>
        return Dropped;
      case BadToken =>
        counters := counters.(failure := counters.failure + 1);
        return Unauthorized;
      case Identified(caller) =>
        counters := counters.(success := counters.success + 1);
        out := Admit(req, caller, policy);
    }

    /** Impersonation and authorization of an authenticated request. */
    method Admit(req: Request, caller: User, policy: Policy) returns (out: Outcome)
      modifies this
      ensures out == DecideFor(req, caller, policy)
      ensures counters == old(counters).(
                allowed := old(counters.allowed) + (if out.Served? then 1 else 0),
                denied := old(counters.denied) + (if out.ImpersonationDenied? || out.Forbidden? then 1 else 0))
      ensures handled == old(handled) + if out.Served? then [out.user] else []
    {
      if MalformedImpersonation(req.headers) {
        return BadImpersonation;
      }
      var user := caller;
      var target := HeaderValue(req.headers, IMP_USER);
      if target.Some? {
        var acting := Impersonate(req.headers, user, target.value, policy.rbac);
        if acting.None? {
          counters := counters.(denied := counters.denied + 1);
          return ImpersonationDenied;
        }
        user := acting.value;
      }
      var allowed := Authorize(policy, req, user);
      if !allowed {
        counters := counters.(denied := counters.denied + 1);
        return Forbidden;
      }
      counters := counters.(allowed := counters.allowed + 1);
      handled := handled + [user];
      return Served(user);
    }
  }

  // ---- Properties -----------------------------------------------------------------------------

  /** A request, what authentication makes of it, and the policy in force at the time. */
  datatype Exchange = Exchange(req: Request, authn: Authn, policy: Policy)

  /** Authentication comes to an answer. */
  ghost predicate Attempted(x: Exchange) { WellEscaped(x.req.path) && !x.authn.Abandoned? }

  ghost predicate Authenticated(x: Exchange) { WellEscaped(x.req.path) && x.authn.Identified? }

  ghost predicate Malformed(x: Exchange) { Authenticated(x) && MalformedImpersonation(x.req.headers) }

  /** The identity under which the handler runs, if it runs. */
  ghost function ActsAs(x: Exchange): Option<User> {
    if !Authenticated(x) || Malformed(x) then None
    else
      var user := Acting(x.req, x.authn.user, x.policy.rbac);
      if user.Some? && Authorized(x.policy, x.req, user.value) then user else None
  }

  ghost function Identities(xs: seq<Exchange>): seq<User> {
    if xs == [] then []
    else
      var last := ActsAs(xs[|xs| - 1]);
      Identities(xs[..|xs| - 1]) + if last.Some? then [last.value] else []
  }

  /** A class of requests to count. */
  datatype Class = AllAttempted | AllBusy | AllUnknown | AllAuthenticated | AllMalformed

  ghost predicate Belongs(x: Exchange, kind: Class) {
    match kind
    case AllAttempted => Attempted(x)
    case AllBusy => WellEscaped(x.req.path) && x.authn.Busy?
    case AllUnknown => WellEscaped(x.req.path) && x.authn.BadToken?
    case AllAuthenticated => Authenticated(x)
    case AllMalformed => Malformed(x)
  }

  ghost function Count(xs: seq<Exchange>, kind: Class): nat {
    if xs == [] then 0 else Count(xs[..|xs| - 1], kind) + (if Belongs(xs[|xs| - 1], kind) then 1 else 0)
  }

  /** The books after a run: one authentication counter for every request that was attempted,
      successes split into allowed, denied and malformed, and a handler run for each one allowed. */
  ghost predicate Balanced(c: Counters, handled: seq<User>, xs: seq<Exchange>) {
    && c.error + c.failure + c.success == Count(xs, AllAttempted)
    && c.error == Count(xs, AllBusy) && c.failure == Count(xs, AllUnknown) && c.success == Count(xs, AllAuthenticated)
    && c.success == c.allowed + c.denied + Count(xs, AllMalformed)
    && handled == Identities(xs) && |handled| == c.allowed
  }

  lemma OutcomeMeaning(x: Exchange, out: Outcome)
    requires out == Decide(x.req, x.authn, x.policy)
    ensures Attempted(x) <==> !out.InvalidEscape? && !out.Dropped?
    ensures Authenticated(x) <==> out.BadImpersonation? || out.ImpersonationDenied? || out.Forbidden? || out.Served?
    ensures Belongs(x, AllBusy) <==> out.TooBusy?
    ensures Belongs(x, AllUnknown) <==> out.Unauthorized?
    ensures Malformed(x) <==> out.BadImpersonation?
    ensures ActsAs(x) == if out.Served? then Some(out.user) else None
  {
  }

  lemma CountLast(xs: seq<Exchange>, x: Exchange, kind: Class)
    ensures Count(xs + [x], kind) == Count(xs, kind) + if Belongs(x, kind) then 1 else 0
  {
    assert (xs + [x])[..|xs|] == xs;
  }

  lemma IdentitiesLast(xs: seq<Exchange>, x: Exchange)
    ensures Identities(xs + [x]) == Identities(xs) + if ActsAs(x).Some? then [ActsAs(x).value] else []
  {
    assert (xs + [x])[..|xs|] == xs;
  }

  lemma BalanceStep(c: Counters, handled: seq<User>, xs: seq<Exchange>, x: Exchange)
    requires Balanced(c, handled, xs)
    ensures var out := Decide(x.req, x.authn, x.policy);
            Balanced(Tally(c, out), handled + (if out.Served? then [out.user] else []), xs + [x])
  {
    OutcomeMeaning(x, Decide(x.req, x.authn, x.policy));
    CountLast(xs, x, AllAttempted);
    CountLast(xs, x, AllBusy);
    CountLast(xs, x, AllUnknown);
    CountLast(xs, x, AllAuthenticated);
    CountLast(xs, x, AllMalformed);
    IdentitiesLast(xs, x);
  }

  /** One more request, and the books still balance. */
  method Handle(service: AuthService, x: Exchange, ghost xs: seq<Exchange>)
    requires Balanced(service.counters, service.handled, xs)
    modifies service
    ensures Balanced(service.counters, service.handled, xs + [x])
  {
    BalanceStep(service.counters, service.handled, xs, x);
    var _ := service.Call(x.req, x.authn, x.policy);
  }

  /** A server from its start, over any sequence of requests under changing policies. */
  method Serve(xs: seq<Exchange>) returns (counters: Counters, handled: seq<User>)
    ensures counters.error + counters.failure + counters.success == Count(xs, AllAttempted)
    ensures counters.error == Count(xs, AllBusy) && counters.failure == Count(xs, AllUnknown)
    ensures counters.success == Count(xs, AllAuthenticated)
    ensures counters.success == counters.allowed + counters.denied + Count(xs, AllMalformed)
    ensures handled == Identities(xs) && |handled| == counters.allowed
  {
    var service := new AuthService();
    ghost var done: seq<Exchange> := [];
    var i := 0;
    while i < |xs|
      invariant i <= |xs| && done == xs[..i] && Balanced(service.counters, service.handled, done)
    {
      Handle(service, xs[i], done);
      done := done + [xs[i]];
      i := i + 1;
    }
    assert done == xs;
    counters, handled := service.counters, service.handled;
  }

  /** A request moves exactly one authentication counter, by one, exactly when its path is well
      escaped and it is not dropped while its token is checked. */
  lemma CountedExactlyWhenAttempted(c: Counters, x: Exchange)
    ensures var d := Tally(c, Decide(x.req, x.authn, x.policy));
            && (Attempted(x) <==> (d.error, d.failure, d.success) != (c.error, c.failure, c.success))
            && d.error + d.failure + d.success == c.error + c.failure + c.success + if Attempted(x) then 1 else 0
  {
  }

  /** Whoever reaches the handler carries one of the two marker groups, so a policy or a
      catch-all FlowSchema bound to both always covers it. */
  lemma ServedIdentityIsMarked(
    req: Request, policy: Policy, header: Option<string>, tokens: map<string, User>,
    account: string -> Option<AccountToken>, bootstrap: string -> Option<User>, certificate: Option<Certificate>)
    ensures var out := Decide(req, Authenticate(header, tokens, account, bootstrap, certificate), policy);
            out.Served? ==> Marked(out.user)
  {
    AuthenticatedIsMarked(header, tokens, account, bootstrap, certificate);
  }

  lemma AuthenticatedIsMarked(
    header: Option<string>, tokens: map<string, User>,
    account: string -> Option<AccountToken>, bootstrap: string -> Option<User>, certificate: Option<Certificate>)
    ensures var authn := Authenticate(header, tokens, account, bootstrap, certificate);
            authn.Identified? ==> Marked(authn.user)
  {
  }

  /** The facts classification sees are those authorization has just used. */
  function DigestOf(req: Request, user: User): Apf.Digest {
    var a := AuthzOf(req, user);
    Apf.Digest(user.name, user.groups, a.verb, a.group, a.resource, a.subresource, a.namespace, a.nonResourceUrl.None?,
               if a.nonResourceUrl.Some? then a.nonResourceUrl.value else "")
  }

  /** With the mandatory catch-all schema in place, every request that reaches the handler is
      classified, whoever it acts as. */
  lemma ServedRequestIsClassified(
    req: Request, caller: User, policy: Policy, schemas: seq<Apf.FlowSchema>, levels: seq<Apf.PriorityLevel>, f: Apf.FlowSchema)
    requires f in schemas && Apf.CatchAll(f) && Apf.NoDanglingReference(schemas, levels) && Marked(caller)
    ensures var out := Decide(req, Identified(caller), policy);
            out.Served? ==> Apf.Classify(schemas, levels, DigestOf(req, out.user)).Some?
  {
    var out := Decide(req, Identified(caller), policy);
    if out.Served? {
      Apf.CatchAllAlwaysAnswers(schemas, levels, DigestOf(req, out.user), f);
    }
  }

  /** Two requests that differ only in how path and query are spelled ask RBAC the same question.
      (The node authorizer is asked it too, but is also given the query as spelled.) */
  lemma SpellingDoesNotChangeAuthorization(r1: Request, r2: Request, q1: string, q2: string, user: User)
    requires r1.httpMethod == r2.httpMethod && ValidUtf8(r1.path) && ValidUtf8(r2.path)
    requires Decode(r1.path) == Decode(r2.path) && ValidUtf8(Decode(r1.path))
    requires r1.query == Some(q1) && r2.query == Some(q2) && DecodedPairs(q1) == DecodedPairs(q2)
    ensures AuthzOf(r1, user) == AuthzOf(r2, user)
  {
    assert ParsePath(r1.path) == ParsePath(r2.path) by {
      SpellingIsInvisible(r1.path);
      SpellingIsInvisible(r2.path);
    }
    assert NonResourceUrl(r1.path) == NonResourceUrl(r2.path) by {
      DecodedPathIsDecoding(r1.path);
      DecodedPathIsDecoding(r2.path);
    }
    assert RequestsWatch(r1.query) == RequestsWatch(r2.query) by {
      WatchIsDecoded(q1);
      WatchIsDecoded(q2);
    }
    assert FieldSelectorName(r1.query) == FieldSelectorName(r2.query) by {
      FieldSelectorIsDecoded(q1);
      FieldSelectorIsDecoded(q2);
    }
    SameQuestion(user, ParsePath(r1.path), NonResourceUrl(r1.path), r1.httpMethod, r1.query, r2.query);
  }

  lemma SameQuestion(user: User, parsed: ParsedPath, url: Option<string>, httpMethod: string,
                     q1: Option<string>, q2: Option<string>)
    requires RequestsWatch(q1) == RequestsWatch(q2) && FieldSelectorName(q1) == FieldSelectorName(q2)
    ensures Question(user, parsed, url, httpMethod, q1) == Question(user, parsed, url, httpMethod, q2)
  {
  }

  lemma DecodedPathIsDecoding(path: string)
    ensures DecodedPath(path) == if ValidUtf8(Decode(path)) then Decode(path) else path
  {
    if '%' !in path {
      NoPercentNoChange(path);
    }
  }
}
