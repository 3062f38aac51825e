/** What impersonation asks of RBAC, question by question, and the identity it leads to. */
module AuthImpersonation {
  import opened Prelude
  import opened Text
  import opened Utf8
  import opened Percent
  import opened SaNames
  import opened AuthPipeline

  // ---- Headers --------------------------------------------------------------------------------

  /** Header `i` is the first of that name. */
  ghost predicate FirstOf(hs: seq<Header>, name: string, i: nat) {
    i < |hs| && hs[i].name == name && forall j: nat :: j < i ==> hs[j].name != name
  }

  /** The first header of that name is readable and says `v`. */
  ghost predicate Says(hs: seq<Header>, name: string, v: string) {
    exists i: nat :: FirstOf(hs, name, i) && hs[i].value == Some(v)
  }

  lemma {:induction false} HeaderValueExactly(hs: seq<Header>, name: string, v: string)
    ensures HeaderValue(hs, name) == Some(v) <==> Says(hs, name, v)
  {
    if hs != [] {
      HeaderValueExactly(hs[1..], name, v);
      if hs[0].name == name {
        assert FirstOf(hs, name, 0);
      } else {
        forall i: nat ensures FirstOf(hs[1..], name, i) <==> FirstOf(hs, name, i + 1) {
          if FirstOf(hs[1..], name, i) {
            forall j: nat | j < i + 1 ensures hs[j].name != name {
              if j > 0 { assert hs[j] == hs[1..][j - 1]; }
            }
          }
          if FirstOf(hs, name, i + 1) {
            forall j: nat | j < i ensures hs[1..][j].name != name { assert hs[1..][j] == hs[j + 1]; }
          }
        }
        if i: nat :| FirstOf(hs, name, i) && hs[i].value == Some(v) {
          assert FirstOf(hs[1..], name, i - 1);
        }
      }
    }
  }

  ghost predicate Requested(hs: seq<Header>, g: string) {
    exists i :: 0 <= i < |hs| && hs[i] == Header("impersonate-group", Some(g))
  }

  /** The header gives the extra attribute `k` the value `v`; the key is percent-encoded, unless what
      it decodes to is not UTF-8. */
  ghost predicate GivesExtra(h: Header, k: string, v: string) {
    && h.value == Some(v)
    && exists raw: string ::
         h.name == "impersonate-extra-" + raw && k == if ValidUtf8(Decode(raw)) then Decode(raw) else raw
  }

  lemma GivesExtraExactly(h: Header, k: string, v: string)
    ensures CarriesExtra(h, k, v) <==> GivesExtra(h, k, v)
  {
    if IMP_EXTRA <= h.name {
      assert h.name == "impersonate-extra-" + h.name[|IMP_EXTRA|..];
    }
    if raw: string :| h.name == "impersonate-extra-" + raw {
      assert h.name[|IMP_EXTRA|..] == raw;
    }
  }

  /** A percent-encoded extra key is read as the key. */
  lemma EncodedExtraKey(e: string, k: string, v: string)
    requires Encodes(e, k) && ValidUtf8(k)
    ensures GivesExtra(Header("impersonate-extra-" + e, Some(v)), k, v)
  {
    EncodingInverse(e, k);
  }

  // ---- The questions --------------------------------------------------------------------------

  /** A ServiceAccount is asked for in its namespace, any other user by name. */
  ghost predicate MayBe(caller: User, target: string, rbac: AuthzRequest -> bool) {
    && (forall ns: string, name: string :: IsAccount(target, ns, name) ==>
          rbac(AuthzRequest(caller.name, caller.groups, "impersonate", "", "serviceaccounts", "",
                            Some(ns), Some(name), None)))
    && ((forall ns: string, name: string :: !IsAccount(target, ns, name)) ==>
          rbac(AuthzRequest(caller.name, caller.groups, "impersonate", "", "users", "", None, Some(target), None)))
  }

  ghost predicate MayJoin(hs: seq<Header>, caller: User, rbac: AuthzRequest -> bool) {
    forall g :: Requested(hs, g) ==>
      rbac(AuthzRequest(caller.name, caller.groups, "impersonate", "", "groups", "", None, Some(g), None))
  }

  ghost predicate MayBear(hs: seq<Header>, caller: User, rbac: AuthzRequest -> bool) {
    forall uid :: Says(hs, "impersonate-uid", uid) ==>
      rbac(AuthzRequest(caller.name, caller.groups, "impersonate", "authentication.k8s.io", "uids", "",
                        None, Some(uid), None))
  }

  ghost predicate MayCarry(hs: seq<Header>, caller: User, rbac: AuthzRequest -> bool) {
    forall i, k, v :: 0 <= i < |hs| && GivesExtra(hs[i], k, v) ==>
      rbac(AuthzRequest(caller.name, caller.groups, "impersonate", "authentication.k8s.io", "userextras", k,
                        None, Some(v), None))
  }

  /** Every question impersonation has to ask is answered with yes: user, groups, uid and extras. */
  ghost predicate MayActAs(hs: seq<Header>, caller: User, target: string, rbac: AuthzRequest -> bool) {
    MayBe(caller, target, rbac) && MayJoin(hs, caller, rbac) && MayBear(hs, caller, rbac) && MayCarry(hs, caller, rbac)
  }

  lemma MayBeExactly(caller: User, target: string, rbac: AuthzRequest -> bool)
    ensures MayBe(caller, target, rbac) <==> rbac(UserGrant(caller, target))
  {
    forall ns: string, name: string
      ensures IsAccount(target, ns, name) <==> SplitUsername(target) == Some((ns, name))
    {
      SplitUsernameMeaning(target, ns, name);
    }
    if SplitUsername(target).Some? {
      var (ns, name) := SplitUsername(target).value;
      assert IsAccount(target, ns, name);
    }
  }

  lemma ExtrasExactly(hs: seq<Header>, k: string, v: string)
    ensures HasValue(ExtraOf(hs), k, v) <==> exists i :: 0 <= i < |hs| && GivesExtra(hs[i], k, v)
  {
    ExtraMeaning(hs, k, v);
    forall i | 0 <= i < |hs| ensures CarriesExtra(hs[i], k, v) <==> GivesExtra(hs[i], k, v) {
      GivesExtraExactly(hs[i], k, v);
    }
  }

  lemma MayJoinExactly(hs: seq<Header>, caller: User, rbac: AuthzRequest -> bool)
    ensures MayJoin(hs, caller, rbac) <==> forall g :: g in Values(hs, IMP_GROUP) ==> rbac(GroupGrant(caller, g))
  {
    forall g ensures g in Values(hs, IMP_GROUP) <==> Requested(hs, g) {
      ValuesMeaning(hs, IMP_GROUP, g);
    }
  }

  lemma MayBearExactly(hs: seq<Header>, caller: User, rbac: AuthzRequest -> bool)
    ensures MayBear(hs, caller, rbac) <==>
            (HeaderValue(hs, IMP_UID).Some? ==> rbac(UidGrant(caller, HeaderValue(hs, IMP_UID).value)))
  {
    forall uid ensures HeaderValue(hs, IMP_UID) == Some(uid) <==> Says(hs, "impersonate-uid", uid) {
      HeaderValueExactly(hs, IMP_UID, uid);
    }
  }

  lemma MayCarryExactly(hs: seq<Header>, caller: User, rbac: AuthzRequest -> bool)
    ensures MayCarry(hs, caller, rbac) <==>
            forall k, v :: HasValue(ExtraOf(hs), k, v) ==> rbac(ExtraGrant(caller, k, v))
  {
    if MayCarry(hs, caller, rbac) {
      forall k, v | HasValue(ExtraOf(hs), k, v) ensures rbac(ExtraGrant(caller, k, v)) {
        ExtrasExactly(hs, k, v);
        var i :| 0 <= i < |hs| && GivesExtra(hs[i], k, v);
      }
    }
    if forall k, v :: HasValue(ExtraOf(hs), k, v) ==> rbac(ExtraGrant(caller, k, v)) {
      forall i, k, v | 0 <= i < |hs| && GivesExtra(hs[i], k, v)
        ensures rbac(AuthzRequest(caller.name, caller.groups, "impersonate", "authentication.k8s.io", "userextras", k,
                                  None, Some(v), None))
      {
        ExtrasExactly(hs, k, v);
        assert rbac(ExtraGrant(caller, k, v));
      }
    }
  }

  lemma MayActAsExactly(hs: seq<Header>, caller: User, target: string, rbac: AuthzRequest -> bool)
    ensures Granted(hs, caller, target, rbac) <==> MayActAs(hs, caller, target, rbac)
  {
    MayBeExactly(caller, target, rbac);
    MayJoinExactly(hs, caller, rbac);
    MayBearExactly(hs, caller, rbac);
    MayCarryExactly(hs, caller, rbac);
  }

  // ---- Outcomes -------------------------------------------------------------------------------

  /** An authenticated request is turned away as malformed exactly when it asks for a group, a uid or
      an extra attribute and names no user. */
  lemma MalformedExactly(req: Request, caller: User, policy: Policy)
    requires WellEscaped(req.path)
    ensures Decide(req, Identified(caller), policy) == BadImpersonation <==>
            && (forall i :: 0 <= i < |req.headers| ==> req.headers[i].name != "impersonate-user")
            && (exists i :: 0 <= i < |req.headers| &&
                  (req.headers[i].name == "impersonate-group" || req.headers[i].name == "impersonate-uid"
                   || "impersonate-extra-" <= req.headers[i].name))
  {
  }

  /** A request is denied for impersonation exactly when it names a user and one of the questions is
      answered with no. */
  lemma RefusalDeniesExactly(req: Request, caller: User, policy: Policy)
    requires WellEscaped(req.path)
    ensures Decide(req, Identified(caller), policy) == ImpersonationDenied <==>
            exists target :: Says(req.headers, "impersonate-user", target)
                             && !MayActAs(req.headers, caller, target, policy.rbac)
  {
    var named := HeaderValue(req.headers, IMP_USER);
    forall target
      ensures named == Some(target) <==> Says(req.headers, "impersonate-user", target)
    {
      HeaderValueExactly(req.headers, IMP_USER, target);
    }
    if named.Some? {
      MayActAsExactly(req.headers, caller, named.value, policy.rbac);
      var i: nat :| FirstOf(req.headers, "impersonate-user", i) && req.headers[i].value == named;
      assert HasHeader(req.headers, IMP_USER);
    }
  }

  /** The identity is made of what the headers ask for, and of nothing else. */
  ghost predicate MadeOf(hs: seq<Header>, target: string, user: User) {
    && user.name == target
    && (forall g :: g in user.groups <==>
          || Requested(hs, g)
          || (g == "system:authenticated" && !Requested(hs, "system:unauthenticated"))
          || ((forall other :: !Requested(hs, other)) && exists ns: string, name: string ::
                IsAccount(target, ns, name) && (g == "system:serviceaccounts" || g == "system:serviceaccounts:" + ns)))
    && (forall uid :: Says(hs, "impersonate-uid", uid) ==> user.uid == uid)
    && ((forall uid :: !Says(hs, "impersonate-uid", uid)) ==> user.uid == "")
    && (forall k, v :: HasValue(user.extra, k, v) <==> exists i :: 0 <= i < |hs| && GivesExtra(hs[i], k, v))
  }

  lemma RequestedNone(hs: seq<Header>)
    ensures Values(hs, IMP_GROUP) == [] <==> forall g :: !Requested(hs, g)
  {
    var values := Values(hs, IMP_GROUP);
    if values != [] {
      assert values[0] in values;
      ValuesMeaning(hs, IMP_GROUP, values[0]);
      assert Requested(hs, values[0]);
    } else {
      forall g ensures !Requested(hs, g) { ValuesMeaning(hs, IMP_GROUP, g); }
    }
  }

  lemma TargetGroups(hs: seq<Header>, target: string, g: string)
    ensures g in Target(hs, target).groups <==>
            || Requested(hs, g)
            || (g == "system:authenticated" && !Requested(hs, "system:unauthenticated"))
            || ((forall other :: !Requested(hs, other)) && exists ns: string, name: string ::
                  IsAccount(target, ns, name) && (g == "system:serviceaccounts" || g == "system:serviceaccounts:" + ns))
  {
    ImpersonatedGroupsExactly(target, Values(hs, IMP_GROUP), g);
    RequestedNone(hs);
    ValuesMeaning(hs, IMP_GROUP, g);
    ValuesMeaning(hs, IMP_GROUP, "system:unauthenticated");
  }

  lemma TargetIsMadeOf(hs: seq<Header>, target: string)
    ensures MadeOf(hs, target, Target(hs, target))
  {
    var user := Target(hs, target);
    forall g ensures g in user.groups <==>
            || Requested(hs, g)
            || (g == "system:authenticated" && !Requested(hs, "system:unauthenticated"))
            || ((forall other :: !Requested(hs, other)) && exists ns: string, name: string ::
                  IsAccount(target, ns, name) && (g == "system:serviceaccounts" || g == "system:serviceaccounts:" + ns))
    {
      TargetGroups(hs, target, g);
    }
    forall uid ensures HeaderValue(hs, IMP_UID) == Some(uid) <==> Says(hs, "impersonate-uid", uid) {
      HeaderValueExactly(hs, IMP_UID, uid);
    }
    forall k, v ensures HasValue(user.extra, k, v) <==> exists i :: 0 <= i < |hs| && GivesExtra(hs[i], k, v) {
      ExtrasExactly(hs, k, v);
    }
  }

  /** A handler sees the caller if the request names no user it could act as, and otherwise the
      identity named: RBAC has answered every question about it with yes, and it is made of what the
      headers ask for. */
  lemma ServedIdentityExactly(req: Request, caller: User, policy: Policy, user: User)
    requires Decide(req, Identified(caller), policy) == Served(user)
    ensures (forall target :: !Says(req.headers, "impersonate-user", target)) ==> user == caller
    ensures forall target :: Says(req.headers, "impersonate-user", target) ==>
              MayActAs(req.headers, caller, target, policy.rbac) && MadeOf(req.headers, target, user)
  {
    var named := HeaderValue(req.headers, IMP_USER);
    if named.Some? {
      HeaderValueExactly(req.headers, IMP_USER, named.value);
      MayActAsExactly(req.headers, caller, named.value, policy.rbac);
      TargetIsMadeOf(req.headers, named.value);
    }
    forall target | Says(req.headers, "impersonate-user", target) ensures named == Some(target) {
      HeaderValueExactly(req.headers, IMP_USER, target);
    }
  }

  /** So a handler sees an identity other than the caller's only if the request names it and the
      caller was granted every part of it. */
  lemma SubstitutedIdentityWasGranted(req: Request, caller: User, policy: Policy, user: User)
    requires Decide(req, Identified(caller), policy) == Served(user) && user != caller
    ensures exists target :: Says(req.headers, "impersonate-user", target)
              && MayActAs(req.headers, caller, target, policy.rbac) && MadeOf(req.headers, target, user)
  {
    ServedIdentityExactly(req, caller, policy, user);
    var target :| Says(req.headers, "impersonate-user", target);
  }
}
