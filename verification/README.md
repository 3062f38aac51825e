# A verified model of the u7s API server's hard parts

u7s is a single-binary Kubernetes control plane written in Rust. This project models the parts of
its API server where correctness depends on interleavings, on several functions agreeing with each
other, or on loops over bytes, and proves what those parts promise. `dafny verify dfyconfig.toml`
checks the whole project.

What is modelled, hardest first:

- **Single-flight conversion** (`FifoCache`, `FifoRuns`, `ConversionCache`, `SingleFlight`,
  `SingleFlightProgress`, `SingleFlightAgreement`, `SingleFlightLeaders`, `SingleFlightAlone`,
  `SingleFlightHerd`). Any number of concurrent list conversions share one bounded cache and one
  registry of in-flight keys. One step is one locked operation, one await that returns, or one local
  transition; webhook answers, failures, cancellations and evictions happen at any point. The
  benchmark's racer is the call with a single item. Proved: the invariant of every reachable state, no lost wakeup, no deadlock, an explicit bound on the length
  of every run, agreement of all results, what a woken follower finds, and how often one key can
  still be converted once it is cached, with runs that attain that bound.
- **ServiceAccount tokens** (`SigCache`, `SaTokens`, `SaClocks`, `SaRuns`, `SaCompleteness`,
  `SaKeyring`, `SaNames`). Interleaved calls of
  the token check run against both clocks, a changing store, a rotating key ring and the shared
  cache; auxiliary fields remember what each cache entry was made from, so that an accepted token
  can be traced to states of the run in which its key, signature and bound objects were good. How
  long a token outlives its expiry or its objects is bounded by both clocks, and runs from a fresh
  server attain the bounds.
- **Requests** (`Text`, `Utf8`, `Percent`, `RequestPath`, `RequestQuery`, `AuthPipeline`,
  `AuthImpersonation`, `AuthQuestions`). The percent decoder, the path and query interpretation on
  top of it, and the authentication, impersonation and authorization pipeline with its counters; the
  questions RBAC is asked are stated one by one, and the encodings are defined without the decoders.
- **API Priority and Fairness** (`Apf`). The classifier, what the lists of a FlowSchema say, and the
  declarative choice made among them.
- **Schema printing** (`SchemaKeys`, `SchemaJson`, `SchemaPrinter`, `SchemaRoundTrip`, `SchemaNulls`). The reference
  printer of a CustomResourceDefinition's JSONSchemaProps, with all forty-four keywords.
- **Protobuf field encoders** (`Varint`) and the **health endpoints** (`Health`).

Conventions. Text is a string of UTF-8 bytes, one `char` per byte, so that decoding, splitting and
prefix tests are those of the source. Times are nanoseconds; the wall clock may be set at will, the
monotonic clock only advances. Signature checking, RBAC, the node authorizer, JSON parsing and
Rust's debug quoting are parameters: every theorem holds for all of them. Fields of a state that no
branch reads (`owner`, `delivered`, `facts`, `sigWhy`, `liveWhy`, and the fields of a token call after
`phase`) are auxiliary history.

Where the code and its documentation or an expectation disagree, the code is modelled and the
difference is a lemma:

- One webhook call per cold key is not guaranteed. While the key stays cached, the conversions still
  to come are at most the calls that had missed on it and do not lead it (`LateLeadersWereUnserved`),
  and for every number of calls a run from a fresh server attains this (`LateLeaderBoundIsAttained`).
  From every state, `LateLeaderExactly` says which calls left to themselves convert it once more.
- The signature cache is said never to outlive the token's `exp`. That holds exactly while the wall
  clock is set forward by at most one nanosecond in all; every longer jump admits a run that accepts
  an expired token (`ExpiryIsKeptExactly`).
- Deleting an object is said to revoke its tokens within the liveness TTL. A read is stamped only
  after it returns, and a bound token's ServiceAccount is not looked at again while its Pod is
  checked, so both delays come on top (`AcceptanceEndsAfterRevocation`,
  `AcceptanceEndsAfterDeletion`); for all delays a run from a fresh server attains the bound
  (`RevocationBoundIsAttained`), so that the promise holds exactly while the delays stay within two
  nanoseconds (`RevocationIsPromptExactly`).
- Key rotation is said to keep every key a live token needs. It reads the wall clock, which can be
  set back after a key was dropped. A signature is safe exactly when the signing key outlasts the
  token by what the clock is still set back (`SigningIsSafeExactly`). Signing is always safe while
  the time since the last tick and the set-back together fit into the policy's margin
  (`PromptSigningIsSafe`); without that, a server is safe exactly if it does not prepublish, has a
  margin and its clock is never set back, and otherwise some run from a fresh ring orphans a token
  (`PolicyToleratesDelayExactly`).
- A request dropped while its token is checked moves no authentication counter; every other request
  with a well-escaped path moves exactly one (`CountedExactlyWhenAttempted`).
- The path grammar cannot express two shapes of target (`PathRoundTrip` is an if-and-only-if).
- A `HEAD` request on a watched collection is authorized as `watch` but not long-running
  (`HeadWatchIsNotLongRunning`), and nothing else disagrees (`LongRunningIsWatchExactly`).
- The length-delimited encoders lose the high bits of field numbers from 2^29 on
  (`StreamRoundTrip` is an if-and-only-if).

## Model

| member | source | states |
|---|---|---|
| `FifoCache.InsertedValid` | crates/apiserver/src/state.rs:934-948 | Insertion keeps the queue in step with the map and within capacity, always caches the new entry, and removes at most the oldest entry, only when a new key meets a full cache |
| `FifoCache.Insert` | crates/apiserver/src/state.rs:934-948 | The push, store and pop-while-over-capacity loop computes exactly that insertion |
| `FifoCache.WithoutValid` | crates/apiserver/src/state.rs:950-956 | Dropping any set of keys from map and queue keeps the cache valid |
| `FifoRuns.WithoutExactly` | crates/apiserver/src/state.rs:950-956 | It removes just those keys and alters no value |
| `FifoRuns.NewestAreKept` | crates/apiserver/src/state.rs:934-948 | After any number of insertions under distinct keys the cache holds exactly the newest keys it has room for, oldest first |
| `FifoRuns.InsertedAgain` | crates/apiserver/src/state.rs:934-948 | Storing a cached key again does not renew it |
| `FifoRuns.KeepAppend` | crates/apiserver/src/state.rs:950-956 | Dropping keys keeps the others in order |
| `ConversionCache.CrConversionCache.constructor` | crates/apiserver/src/state.rs:893-919 | A new cache is empty and valid, with capacity at least one |
| `ConversionCache.CrConversionCache.Get` | crates/apiserver/src/state.rs:921-924 | Lookup in the current cache, changing nothing |
| `ConversionCache.CrConversionCache.Claim` | crates/apiserver/src/state.rs:962-971 | The claimant leads exactly when the key was free, and then under a notifier no other key uses; otherwise it follows the registered notifier and nothing changes |
| `ConversionCache.CrConversionCache.Resolve` | crates/apiserver/src/state.rs:978-985 | A value is cached before the slot is freed; either way the slot is free and its notifier has fired |
| `ConversionCache.CrConversionCache.Invalidate` | crates/apiserver/src/state.rs:950-1008 | Each invalidation removes its keys from map and queue and touches nothing in flight |
| `ConversionCache.PublishedOk` | crates/apiserver/benches/cr_conversion_fanout.rs:287-291 | Publishing keeps the invariants and the value is then found |
| `SingleFlight.ApplyKeepsInv` | crates/apiserver/benches/cr_conversion_fanout.rs:276-294 | Every step of every interleaving keeps the invariant: one leader per in-flight key, followers hold that leader's notifier or a fired one, item states match the phase |
| `SingleFlight.StepKeepsCallOk` | crates/apiserver/src/handlers/cr.rs:576-672 | A call's items stay in the states its phase allows, through scan, claim, webhook, publish, release and wait rounds |
| `SingleFlight.NewFollower` | crates/apiserver/src/handlers/cr.rs:600-626 | An item starts to follow only by a claim on a registered key, and then holds that key's notifier |
| `SingleFlight.LeadershipAtCursor` | crates/apiserver/src/handlers/cr.rs:539-550 | The item an operation works on gains or loses leadership exactly as its key is registered or released, also when the claim guard releases it |
| `SingleFlightProgress.ExclusiveLeadership` | crates/apiserver/benches/cr_conversion_fanout.rs:276-294 | In every reachable state a key is in flight exactly when some item leads it, and then exactly one item of one call |
| `SingleFlightProgress.RunsKeepInv` | crates/apiserver/benches/cr_conversion_fanout.rs:276-294 | The invariant holds in every state of every run |
| `SingleFlightProgress.InitialInv` | crates/apiserver/src/state.rs:893-919 | The freshly started server satisfies the invariant |
| `SingleFlightProgress.Progress` | crates/apiserver/benches/cr_conversion_fanout.rs:340-368 | While a call is unfinished some call can step of its own accord: a blocked follower's key is held by a call that is not blocked |
| `SingleFlightProgress.RunsNeverBlock` | crates/apiserver/benches/cr_conversion_fanout.rs:340-368 | No run reaches a deadlock, with any answers, faults, cancellations and evictions |
| `SingleFlightProgress.StepDecreases` | crates/apiserver/benches/cr_conversion_fanout.rs:340-368 | Every operation closes an item, or lowers its call's rank without waking anyone |
| `SingleFlightProgress.ActLowersWeight` | crates/apiserver/benches/cr_conversion_fanout.rs:340-368 | The lexicographic weight of the whole system falls on every step |
| `SingleFlightProgress.RunsAreBounded` | crates/apiserver/benches/cr_conversion_fanout.rs:340-368 | From N items in C calls no interleaving takes more than (N+1)(40N+5C+1) steps |
| `SingleFlightAgreement.ConversionsAgree` | crates/apiserver/src/handlers/cr.rs:576-672 | Under a webhook whose k-th answer is the conversion of the k-th leader, every converted item carries the conversion of its own source, whether led, followed or read from the cache |
| `SingleFlightAgreement.DeliverInOrder` | crates/apiserver/src/handlers/cr.rs:633-637 | Each leader is answered with the value at its own position among the leaders |
| `SingleFlightAgreement.DoneCallsAreConverted` | crates/apiserver/src/handlers/cr.rs:576-672 | In every run from a started server a call that is done has converted every item, except exactly those it found at the target version |
| `SingleFlightAgreement.WokenFollowersHit` | crates/apiserver/benches/cr_conversion_fanout.rs:287-294 | Over every run from a started server, a follower woken by a leader that had published hits the cache, whatever other leaders failed; evicting the key is the only exception |
| `SingleFlightLeaders.NoNewMiss` | crates/apiserver/benches/cr_conversion_fanout.rs:272-294 | While a key is cached no operation makes an item newly miss on it |
| `SingleFlightLeaders.LateLeadersWereUnserved` | crates/apiserver/benches/cr_conversion_fanout.rs:340-360 | While a key stays cached, the conversions still to come are at most the calls that had missed on it and do not lead it |
| `SingleFlightAlone.LateLeaderExactly` | crates/apiserver/benches/cr_conversion_fanout.rs:272-294 | From every state with a key cached, a call left to itself converts the key once more exactly when it has missed on it without leading it, nobody holds it, and the call is not waiting for a notifier still to fire |
| `SingleFlightHerd.LateLeaderBoundIsAttained` | crates/apiserver/benches/cr_conversion_fanout.rs:340-360 | For every m, m+1 calls on a fresh server all miss, one caches the key, and the other m each still lead, without eviction, fault or cancellation: the bound is attained |
| `SigCache.CappedExpiry` | crates/apiserver/src/sa_sig_cache.rs:289-292 | The expiry is never before now, at most five minutes away, and no later than the token's remaining seconds allow |
| `SigCache.CappedExpiryExactly` | crates/apiserver/src/sa_sig_cache.rs:286-292 | The lesser of five minutes and the seconds left to the token |
| `SigCache.RecordedLiveOk` | crates/apiserver/src/sa_sig_cache.rs:168-178 | Recording stays within the cap, invents and moves no other entry, and drops no entry still within the TTL |
| `SigCache.SigCache.constructor` | crates/apiserver/src/sa_sig_cache.rs:142-154 | A new cache is empty and valid, with capacity at least one |
| `SigCache.SigCache.Get` | crates/apiserver/src/sa_sig_cache.rs:189-203 | Answers exactly when an entry exists whose expiry is still ahead |
| `SigCache.SigCache.InsertVerified` | crates/apiserver/src/sa_sig_cache.rs:209-237 | The new entry is stored under its expiry, other entries are kept or evicted but never altered |
| `SigCache.SigCache.SeenLive` | crates/apiserver/src/sa_sig_cache.rs:157-163 | True exactly for entries younger than the TTL |
| `SigCache.SigCache.RecordLive` | crates/apiserver/src/sa_sig_cache.rs:168-178 | The retain, give-up and insert code computes the recording above |
| `SaTokens.ApplyKeepsInv` | crates/apiserver/src/auth.rs:571-701 | Every step of every interleaving keeps: each cache entry stems from a full verification or a live read, and each call has established what its phase relies on |
| `SaTokens.StartIsWellFormed` | crates/apiserver/src/sa_sig_cache.rs:142-154 | A server that has just started satisfies the invariant |
| `SaTokens.FactsHeld` | crates/apiserver/src/auth.rs:571-701 | Whatever a call relies on was true in a state the run had passed through |
| `SaTokens.RunsKeepInv` | crates/apiserver/src/auth.rs:571-701 | The invariant holds in every state of every run |
| `SaTokens.AcceptedTokenWasChecked` | crates/apiserver/src/auth.rs:571-701 | An accepted token's key was in the ring during this call, the token was once fully verified before its expiry, it is for one of the call's audiences, or for the API server's own if the call names none, its subject names a ServiceAccount, and the objects stored under its ServiceAccount's and bound Pod's keys had the very uid and were not deleted more than a minute before, in a read noted less than five seconds before |
| `SaTokens.InspectionExactly` | crates/apiserver/src/auth.rs:630-663 | A verified token is rejected at the inspection exactly when it is not for the audience or names no ServiceAccount, and otherwise goes on to its ServiceAccount |
| `SaClocks.AcceptanceEndsAfterRevocation` | crates/apiserver/src/auth.rs:548-563 | Over every run, no call is accepted on an object later than the moment it stopped being live plus LIVENESS_TTL, the delay in noting the read it rests on, by this call or the one that left the memo, and, for the ServiceAccount of a bound token, the time the Pod check took |
| `SaClocks.AcceptanceEndsAfterDeletion` | crates/apiserver/src/auth.rs:509-563 | Over every run and by the wall clock, no call is accepted on an object deleted at d beyond the second d+60, LIVENESS_TTL, those delays and the forward jumps of the clock |
| `SaRuns.RevocationBoundIsAttained` | crates/apiserver/src/auth.rs:548-563 | For every token, bound to a Pod or not, every delay in noting, every Pod delay and every forward jump a run from a fresh server attains both bounds to the nanosecond |
| `SaRuns.RevocationIsPromptExactly` | crates/apiserver/src/auth.rs:548-563 | Some run whose call suffers delays of at most r is accepted more than LIVENESS_TTL after its object stopped being live if and only if r exceeds two nanoseconds |
| `SaTokens.MemoTrust` | crates/apiserver/src/auth.rs:548-563 | A memo hit rests on a live read of this very object and uid, noted less than the TTL ago |
| `SaClocks.AcceptedNearExpiry` | crates/apiserver/src/auth.rs:599-627 | Over every run, a signature is accepted no later than its exp plus what the wall clock was set forward beyond a nanosecond, and the call no later than that plus its own liveness checks |
| `SaClocks.AcceptedBeforeExpiry` | crates/apiserver/src/auth.rs:599-627 | In every run that never sets the wall clock forward no signature is accepted past its exp |
| `SaRuns.ExpiryBoundIsAttained` | crates/apiserver/src/sa_sig_cache.rs:189-203 | For every token, bound to a Pod or not, and every forward jump a run from a fresh server verifies the token, jumps and is served it from the cache, as late as the bound allows |
| `SaRuns.ExpiryIsKeptExactly` | crates/apiserver/src/sa_sig_cache.rs:286-292 | Some run with forward jumps of at most r accepts an expired token if and only if r exceeds one nanosecond |
| `SaCompleteness.GoodTokenIsAccepted` | crates/apiserver/src/auth.rs:571-701 | A call whose own steps find the key in the ring, the token signed, unexpired and for this audience, and its objects live, is never rejected: it can step until it is accepted, in at most eleven steps, whatever else happens |
| `SaKeyring.Plan` | crates/apiserver/src/sa_keys.rs:152-168 | The retire loop and the push compute the plan, and nothing changes unless reported |
| `SaKeyring.PlannedOk` | crates/apiserver/src/sa_keys.rs:152-168 | A plan keeps the ring non-empty, in strict order of first signing and free of repeated kids |
| `SaKeyring.SignerIsLastStarted` | crates/apiserver/src/sa_keys.rs:170-172 | The key after the signer has not started yet |
| `SaKeyring.SuccessorIsPrepublished` | crates/apiserver/src/sa_keys.rs:152-172 | A new key never signs earlier than prepublish after it enters the ring |
| `SaKeyring.FreshRingOk` | crates/apiserver/src/sa_keys.rs:238-281 | The ring load_or_generate creates is well formed, and its closing tick leaves it alone |
| `SaKeyring.SigningIsSafeExactly` | crates/apiserver/src/sa_keys.rs:331-336 | For every amount the clock may still be set back, a signature is safe from every continuation exactly when the signer outlasts the token by that amount: its successor, or the earliest possible one, starts late enough |
| `SaKeyring.NoTokenLosesItsKey` | crates/apiserver/src/sa_keys.rs:295-338 | Over every run of waiting, clock set-backs, ticks and safe signatures an unexpired token's key is in the ring |
| `SaKeyring.PromptSigningIsSafe` | crates/apiserver/src/sa_keys.rs:152-172 | Signing is safe while the time since the last tick and what the clock will be set back fit into the margin |
| `SaKeyring.PolicyToleratesDelayExactly` | crates/apiserver/src/sa_keys.rs:87-93 | No run from a fresh ring orphans a token, however late its ticks, if and only if the policy does not prepublish and has a margin, and the clock is not set back |
| `SaNames.SplitUsernameMeaning` | crates/apiserver/src/auth.rs:1316-1325 | A username splits to (ns, name) exactly when it is the prefix and two non-empty colon-free parts |
| `SaNames.NamespaceMatchIsExact` | crates/apiserver/src/apf.rs:178-187 | For such a username the wildcard subject matches exactly its own namespace |
| `SaNames.ImpersonationMatchesToken` | crates/apiserver/src/auth.rs:1748-1766 | Impersonating it without naming groups gives exactly the groups of a token for it |
| `SaNames.ImpersonatedGroupsExactly` | crates/apiserver/src/auth.rs:1748-1766 | An impersonated identity has the requested groups, those of its ServiceAccount if none are requested, and system:authenticated unless system:unauthenticated is requested |
| `SaNames.TokenGroupsExactly` | crates/apiserver/src/auth.rs:656-701 | A token's groups are the ServiceAccount groups, overall and of its namespace, and system:authenticated |
| `SaNames.SubjectOkMeaning` | crates/apiserver/src/auth.rs:656-663 | The token's subject check holds exactly for the prefix, a colon-free namespace, a colon and any name |
| `Percent.PercentDecodeBytes` | crates/apiserver/src/auth.rs:913-932 | The index-and-buffer loop is the one-pass decoding |
| `Percent.InvalidPathEscape` | crates/apiserver/src/auth.rs:972-979 | Accepts exactly the paths in which every percent sign starts an escape, and otherwise reports the first that does not |
| `Percent.EncodingInverse` | crates/apiserver/src/auth.rs:913-932 | The spellings of a text, any bytes escaped as % and two hex digits, high digit first and each in either case, are exactly the accepted texts that decode to it |
| `Percent.DecodeOfEscape` | crates/apiserver/src/auth.rs:913-932 | Decoding an escaped byte gives that byte, whatever follows |
| `Percent.NoEscapeNoChange` | crates/apiserver/src/auth.rs:913-932 | What starts no escape is kept, malformed or not |
| `Utf8.ValidExactly` | crates/apiserver/src/auth.rs:909-911 | The decoded bytes are accepted exactly when they encode a sequence of Unicode scalar values |
| `Utf8.LossyIsValid` | crates/apiserver/src/auth.rs:1020-1027 | The lossy repair of any bytes is well formed, each repair being U+FFFD |
| `Utf8.IllFormedChunkIsMaximal` | crates/apiserver/src/auth.rs:1020-1027 | What is repaired as a unit is the longest start of any encoding, or one byte |
| `Percent.DecodedLength` | crates/apiserver/src/auth.rs:913-932 | On every accepted path the output is shorter by two per percent sign |
| `Percent.DecodeSegments` | crates/apiserver/src/auth.rs:1020-1036 | Splitting on slashes and decoding each segment is decoding the whole path once, for every path |
| `RequestPath.SpellingIsInvisible` | crates/apiserver/src/auth.rs:1020-1036 | Parsing depends on the once-decoded path only |
| `RequestPath.PathRoundTrip` | crates/apiserver/src/auth.rs:1020-1090 | Printing a target between any slashes and parsing it under any percent-encoding gives it back, except exactly for the two ambiguous shapes |
| `RequestQuery.QueryParamIsFirstValue` | crates/apiserver/src/auth.rs:869-879 | Lookup finds the first pair whose decoded key is the wanted one |
| `RequestQuery.QueryRoundTrip` | crates/apiserver/src/auth.rs:869-879 | Every form-urlencoding of a list of pairs reads back as that list |
| `RequestQuery.FormEncodesMeaning` | crates/apiserver/src/auth.rs:877-879 | A form-urlencoding is a percent-encoding in which spaces may be + and no & is bare |
| `RequestQuery.SpelledPair` | crates/apiserver/src/auth.rs:869-879 | Two encoded sides joined by an equals sign, or a lone encoded key, read as the pair |
| `RequestQuery.WatchIsDecoded` | crates/apiserver/src/auth.rs:855-866 | The watch decision depends on the decoded pairs alone: anything but 0 or false, letter by letter in either case, or a value that is not UTF-8 |
| `RequestQuery.ResourceVerbExactly` | crates/apiserver/src/auth.rs:820-835 | For each verb, exactly which methods, names and queries of a resource request carry it |
| `RequestQuery.NonResourceVerbExactly` | crates/apiserver/src/auth.rs:784-797 | For each verb, exactly which methods of a non-resource request carry it |
| `RequestQuery.LongRunningAgreesWithVerb` | crates/apiserver/src/auth.rs:885-906 | A resource request is long-running exactly when it names one of the five streaming subresources or is a GET whose verb is watch |
| `RequestQuery.HeadWatchIsNotLongRunning` | crates/apiserver/src/auth.rs:820-835 | Every HEAD on an unnamed, non-streaming resource whose query asks for a watch has verb watch and is not long-running |
| `RequestQuery.LongRunningIsWatchExactly` | crates/apiserver/src/auth.rs:885-906 | Long-running equals verb watch or streaming subresource, for every method, exactly unless it is such a HEAD |
| `RequestQuery.SelectorNameMeaning` | crates/apiserver/src/auth.rs:949-965 | A selector pins n exactly when it is the single term metadata.name==n, or metadata.name=n without another double equals |
| `RequestQuery.FieldSelectorIsDecoded` | crates/apiserver/src/auth.rs:949-965 | The pinned name depends on the first decoded fieldSelector alone |
| `AuthPipeline.ExtraMeaning` | crates/apiserver/src/auth.rs:1714-1724 | The extra attributes are exactly the readable extra headers |
| `AuthPipeline.ExtraGranted` | crates/apiserver/src/auth.rs:1725-1742 | The nested loops accept exactly when every value of every extra attribute is granted |
| `AuthPipeline.Impersonate` | crates/apiserver/src/auth.rs:1605-1776 | The check loops yield the target identity exactly when the user, every group, the uid and every extra value are granted |
| `AuthPipeline.Authorize` | crates/apiserver/src/auth.rs:1778-1849 | Allowed exactly when node authorizer or RBAC permits the request, and for pod streaming subresources also its create form |
| `AuthPipeline.AuthService.Call` | crates/apiserver/src/auth.rs:1452-1900 | One request, possibly dropped while authenticating, gets the decided outcome, bumps the counters accordingly, and reaches the handler exactly when served, under the identity named |
| `AuthPipeline.AuthService.Admit` | crates/apiserver/src/auth.rs:1574-1900 | The same for an authenticated request |
| `AuthPipeline.Serve` | crates/apiserver/src/auth.rs:1452-1900 | A server run over any requests ends with one authentication count per request neither ill-escaped nor dropped, errors for those too busy to check and failures for unknown tokens, successes split into allowed, denied and malformed, and the handler run under exactly the acting identities, in order, once per allowed request |
| `AuthPipeline.CountedExactlyWhenAttempted` | crates/apiserver/src/auth.rs:1500-1571 | A request moves exactly one authentication counter, exactly when its path is well escaped and it is not dropped while authenticating |
| `AuthImpersonation.SubstitutedIdentityWasGranted` | crates/apiserver/src/auth.rs:1605-1776 | A handler sees another identity than the caller only if the request names it and RBAC allowed the caller to impersonate the user (or the ServiceAccount in its namespace), every group, the uid and every extra value, each as its own question |
| `AuthImpersonation.ServedIdentityExactly` | crates/apiserver/src/auth.rs:1605-1776 | Whoever is served is the caller if no user is named, and otherwise the named identity, granted question by question and made of just what the headers ask for |
| `AuthImpersonation.MayActAsExactly` | crates/apiserver/src/auth.rs:1624-1742 | What the check loops require is exactly that RBAC allows verb impersonate on users or serviceaccounts, groups, uids and userextras, each question written out |
| `AuthImpersonation.RefusalDeniesExactly` | crates/apiserver/src/auth.rs:1624-1742 | A request is denied for impersonation exactly when its first Impersonate-User header names a user and one of the questions is refused |
| `AuthImpersonation.MalformedExactly` | crates/apiserver/src/auth.rs:1584-1597 | A request is malformed exactly when it asks for a group, uid or extra and names no user |
| `AuthImpersonation.EncodedExtraKey` | crates/apiserver/src/auth.rs:1714-1724 | A percent-encoded extra key is read as the key |
| `AuthQuestions.BearerTokenExactly` | crates/apiserver/src/auth.rs:248-256 | A token is what follows Bearer, in any letter case, and a space |
| `AuthQuestions.CallerWithoutToken` | crates/apiserver/src/auth.rs:301-319 | Without a token the caller is the certificate's subject, or anonymous |
| `AuthQuestions.StaticTokenCaller` | crates/apiserver/src/auth.rs:321-336 | A token of the static map identifies its user, completed with system:authenticated |
| `AuthQuestions.AccountTokenCaller` | crates/apiserver/src/auth.rs:337-342 | Otherwise an accepted ServiceAccount token identifies its subject with the groups of its namespace |
| `AuthQuestions.OtherTokenCaller` | crates/apiserver/src/auth.rs:343-349 | Otherwise a bootstrap token identifies its user, and an unknown token is rejected, never anonymous |
| `AuthQuestions.AuthorizedExactly` | crates/apiserver/src/auth.rs:837-851 | Authorized exactly when node authorizer or RBAC permits the question, and for exec, attach and portforward on pods also its create form |
| `AuthQuestions.ServedExactly` | crates/apiserver/src/auth.rs:1778-1849 | A request is served exactly when the identity it acts as is permitted it, and forbidden otherwise |
| `AuthQuestions.TargetIsAuthorized` | crates/apiserver/src/auth.rs:1778-1829 | However its path is spelled, a request for an unambiguous target is authorized as that target, with the name of the path or the one its field selector pins |
| `AuthQuestions.TargetIsClassified` | crates/apiserver/src/auth.rs:1413-1435 | And classified as that target |
| `AuthQuestions.ElsewhereIsAuthorized` | crates/apiserver/src/auth.rs:1470-1482 | A path outside /api and /apis is authorized as the non-resource URL it decodes to |
| `AuthQuestions.ElsewhereIsClassified` | crates/apiserver/src/auth.rs:1413-1435 | And classified as that URL |
| `AuthPipeline.ServedIdentityIsMarked` | crates/apiserver/src/auth.rs:289-350 | Whoever reaches the handler, by static token, ServiceAccount, bootstrap token, certificate or anonymously, carries one of the two marker groups |
| `AuthPipeline.ServedRequestIsClassified` | crates/apiserver/src/auth.rs:1413-1435 | With a catch-all schema and no dangling reference every served request is classified |
| `AuthPipeline.SpellingDoesNotChangeAuthorization` | crates/apiserver/src/auth.rs:1778-1829 | Two spellings of one path and query lead to the same authorization question |
| `Apf.ClassifyRequest` | crates/apiserver/src/apf.rs:257-279 | Sorting and the two searches compute the classification |
| `Apf.ClassifyExactly` | crates/apiserver/src/apf.rs:257-279 | A request is classified by the one schema that covers it and goes before all others that do, by precedence, name and position, and by the first level of the name it refers to; and only so |
| `Apf.FlowSchemaExactly` | crates/apiserver/src/apf.rs:226-248 | The matcher decides exactly what the lists of the schema say: a subject and, by the kind of request, a resource or a URL rule |
| `Apf.ResourceRuleExactly` | crates/apiserver/src/apf.rs:189-208 | A resource rule covers a request exactly when it lists verb, group, the resource, or resource/subresource if there is one, and the namespace, or is cluster-scoped |
| `Apf.SubjectExactly` | crates/apiserver/src/apf.rs:153-187 | A subject covers exactly the user, group or ServiceAccount it names, or with a wildcard all of them, for ServiceAccounts all of its namespace |
| `Apf.UrlExactly` | crates/apiserver/src/apf.rs:210-224 | A rule path, stars at its end aside, covers exactly itself and what lies below it |
| `Apf.PlainResourcesMissSubresources` | crates/apiserver/src/apf.rs:189-208 | A schema listing only plain resources never classifies a request on a subresource |
| `Apf.SubresourceRuleIsExact` | crates/apiserver/src/apf.rs:189-208 | A rule for one subresource matches no other resource or subresource |
| `Apf.SortedIsSorted` | crates/apiserver/src/apf.rs:262-268 | The sort is in order by precedence and name, and a permutation |
| `Apf.SortThenFindIsLeast` | crates/apiserver/src/apf.rs:257-279 | Sorting and taking the first match chooses the least matching schema by precedence, name and position, and none exactly when none matches |
| `Apf.ClassifyIsOrderIndependent` | crates/apiserver/src/apf.rs:257-279 | With unique names only the set of matching schemas matters |
| `Apf.LaterSchemaIsIrrelevant` | crates/apiserver/src/apf.rs:257-279 | A schema added anywhere becomes the match or changes nothing, and changes nothing if it comes after the old match |
| `Apf.CatchAllMatches` | crates/apiserver/src/apf.rs:226-252 | A full catch-all matches every identified request |
| `Apf.CatchAllAlwaysAnswers` | crates/apiserver/src/apf.rs:257-279 | With a catch-all and no dangling reference every identified request is classified |
| `Apf.StarMeansBelow` | crates/apiserver/src/apf.rs:210-224 | A trailing star in a rule path means below this directory, not starting with |
| `SchemaPrinter.PrintSchema` | crates/apiserver/src/apiextensions_gen_adapter.rs:722-1055 | Filling one map keyword by keyword, in source order, and recursing for every nested schema, computes the printed schema |
| `SchemaPrinter.PrintOneDependency` | crates/apiserver/src/apiextensions_gen_adapter.rs:904-928 | A dependency prints as an object with its schema and its property list, each only if present |
| `SchemaPrinter.PrintOrArray` | crates/apiserver/src/apiextensions_gen_adapter.rs:929-943 | A schema beats a list, and an empty wrapper prints as an empty object |
| `SchemaRoundTrip.UnderPrint` | crates/apiserver/src/apiextensions_gen_adapter.rs:722-1055 | Every keyword of the printed object holds exactly what its own field prints, or is absent |
| `SchemaRoundTrip.ReadOfPrint` | crates/apiserver/src/apiextensions_gen_adapter.rs:722-1055 | At any depth, printing and reading back gives the schema's normal form |
| `SchemaRoundTrip.PrintOfNormal` | crates/apiserver/src/apiextensions_gen_adapter.rs:722-1055 | Normalising does not change what is printed |
| `SchemaRoundTrip.PrintIsInjectiveUpToNormal` | crates/apiserver/src/apiextensions_gen_adapter.rs:722-1055 | Two schemas print alike exactly when their normal forms are equal, and normalising is idempotent |
| `SchemaNulls.NullsInPrint` | crates/apiserver/src/apiextensions_gen_adapter.rs:10-14 | Null occurs only as an enum element or inside a raw document, and only keywords occur as keys of a schema |
| `Varint.PushVarintCompare` | crates/apiserver/src/apps_gen_adapter.rs:203-210 | The compare-push-shift loop appends the base-128 form |
| `Varint.PushVarintMask` | crates/apiserver/src/admissionreg_gen_adapter.rs:143-151 | The mask-shift-test loop appends the same form |
| `Varint.EncodeLvCompare` | crates/apiserver/src/apps_gen_adapter.rs:199-222 | Emits the length-delimited field, for every field number and payload |
| `Varint.EncodeLvMask` | crates/apiserver/src/admissionreg_gen_adapter.rs:139-164 | Emits identical bytes |
| `Varint.EncodeVarintField` | crates/apiserver/src/apps_gen_adapter.rs:224-246 | Emits the sign-extended varint field |
| `Varint.StreamDecodes` | crates/apiserver/src/apps_gen_adapter.rs:199-246 | Any concatenation of fields decodes to those fields, with field numbers reduced modulo 2^29 |
| `Varint.StreamRoundTrip` | crates/apiserver/src/apps_gen_adapter.rs:199-246 | Decoding gives back what was encoded exactly when every field number is below 2^29 |
| `Varint.VarintLength` | crates/apiserver/src/apps_gen_adapter.rs:211-219 | A value takes as many bytes as it has groups of seven bits, at least one |
| `Varint.NegativeTakesTen` | crates/apiserver/src/apps_gen_adapter.rs:236-244 | A negative i32 always takes ten bytes |
| `Health.RenderRoot` | crates/apiserver/src/health.rs:104-148 | The loop over lines, unknown and failed, the sort and the dedup give the specified answer |
| `Health.UnknownIsExact` | crates/apiserver/src/health.rs:128-136 | The warning lists exactly the excluded names matching no check, strictly increasing |
| `Health.RootIgnoresOrder` | crates/apiserver/src/health.rs:104-148 | Order and repetition of exclusions do not change the answer |
| `Health.ExcludingMoreIsMonotone` | crates/apiserver/src/health.rs:104-148 | Excluding more never turns 200 into 500 |
| `Health.OneLinePerCheck` | crates/apiserver/src/health.rs:114-127 | Read line by line, the detail is one line per check, in order, before the rest, each saying excluded, ok or failed |
| `Health.RootExactly` | crates/apiserver/src/health.rs:104-148 | The answer is 500 exactly when a check fails that is not excluded, and the bare ok exactly when none does and no detail is asked for |
| `Health.DetailExactly` | crates/apiserver/src/health.rs:114-148 | A detailed answer is the lines of the checks, the warning if some exclusion is unknown, and the verdict |
| `Health.SubExactly` | crates/apiserver/src/health.rs:170-179 | One check by name: the first of that name decides, and an unknown name is 404 |
| `Health.RootAgreesWithSubs` | crates/apiserver/src/health.rs:170-179 | The root fails exactly when some non-excluded check's own endpoint fails or a failing check is hidden behind a passing one of the same name |
| `Health.RootIsAllSubs` | crates/apiserver/src/health.rs:170-179 | With distinct names the root passes exactly when every endpoint not excluded passes |

## Left out

- Signature cryptography, JWT decoding, X.509 and TLS: foreign code, arbitrary functions here; equal token hashes are taken to mean equal tokens, and signed tokens to name objects without NUL bytes.
- `RbacIndex`, the node authorizer, bootstrap tokens, the static token file and client certificates: each is an arbitrary function or value the pipeline consults.
- The constant-time comparison of static tokens and the pre-authentication semaphore: only their outcomes (found or not, busy or not) are modelled.
- The extra attributes of a ServiceAccount identity (token id, pod, node), stale-token warnings, logging, metric labels and response bodies of the auth layer: field copying and I/O.
- Conversions without a configured webhook, and panics inside a webhook future: the model starts where a CRD has a conversion webhook.
- SaTokens.FactsHeld: a store read and the `unix_now()` that judges the deletion mark are one step here and two in the source, and `Instant::now()` is sampled just before the cache is locked; what happens in between is not modelled.
- SaKeyring.Plan: key generation and persistence can fail in the source and leave the ring as it was; the model plans with a given new kid, and a failed tick is a tick that did not happen.
- SaKeyring.FreshRingOk: a ring loaded from a file is any well-formed ring; tokens signed before the restart are not tracked.
- ConversionCache.CrConversionCache.Get: a cached body that no longer deserializes is a miss in the source; bodies are serialized JSON values, which always deserialize, so values are stored as such.
- SchemaPrinter.PrintSchema: the source writes the forty-four insertions out one by one; the model visits a table of keywords in that order, and JSON objects are unordered.
- SchemaPrinter.PrintSchema: numbers are reals, so rounding and the sign of zero are not modelled, and raw documents are given already parsed.
- Health.RenderRoot: Rust's debug quoting of names is a parameter, and the library sort is modelled by an insertion sort on values.
- Apf.ClassifyRequest: the library's stable sort is modelled by an insertion sort on values.
- Varint.EncodeLvCompare: payload lengths are unbounded, as `usize` lengths never reach 2^64.
- Percent.InvalidPathEscape: the reported text is three bytes where the source takes three characters, because it only feeds an error message.
- AuthPipeline.ServedRequestIsClassified: a cold flow-control cache skips classification in the source; the schemas and levels are given here.
- AuthPipeline.SpellingDoesNotChangeAuthorization: the node authorizer is also handed the query as spelled and decodes it itself; that decoding is not part of this model.
- AuthPipeline.AuthService.Call: each request is one atomic call, because the counters only ever increase by one and no decision reads them; a request dropped while its handler runs has already been counted.
- The other generated adapters, the remaining benchmarks, build scripts and argument parsing: field copying, measurement and wiring.
