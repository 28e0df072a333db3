# HOG, an application gateway: a verified model

HOG sits between browsers or API clients and backend services. It signs people
in against an identity provider, keeps their sessions, decides which requests
may pass, writes trusted identity headers, and forwards or aggregates backend
calls. This project models the parts of it whose correctness depends on more
than one function at a time, and proves what they promise.

`dafny verify dfyconfig.toml` checks everything.

## What is modelled

**Server-side sessions (`KeyedMutex`, `SessionProtocol`, `SessionLifetime`,
`SessionAnswers`, `SingleFlight`, `SessionEnd`, `Logout`, `StateManager`).** Threads, the store, the provider
and the clock are one transition system whose steps are the atomic sections of
the code. A run is any sequence of enabled steps by any number of threads. The
manager and the keyed mutex it owns are classes whose methods are proved to take
steps of that system; a Read that has to wait comes back blocked and is resumed
when its turn comes. Findings:

- Single-flight refresh needs one premise beyond a durable store, successful
  store operations and refreshed tokens that stay outside the skew window: the
  session must not reach its absolute end before the new tokens are stored,
  because a refresh past that end is not stored at all. For every horizon not
  before that end there is a run from an empty store, calm in every other
  respect, on which a second waiter presents the token that was just rotated
  (`SessionEnd.PastTheEndTheTokenIsPresentedAgain`).
- A logout is final if and only if no Read that can still write the session back
  is in flight at that moment. `Logout.Harmful` lists exactly those program
  points, and `Logout.LogoutIsFinalIff` proves both directions.

**Cookies (`Http`, `Numerals`, `CookieCodec`, `CookieManager`).** The chunked
cookie is written, read and cleared against a browser jar that applies
Set-Cookie in order (sections 5.2.2 and 5.3 of RFC 6265). The comment on
`readChunkedCookie` says that a cookie tossed onto the domain cannot deny a
session read. The code does not keep that promise: a stray whose index equals
the number of chunks is read as one more chunk, and one under a second spelling
of an index replaces a chunk that does not come after it.
`CookieCodec.StrayIsHarmlessIff` gives the exact condition, for a stray at any
place among any other cookies.

**Sign-in (`SignIn`, `SignInPairing`, `SignInJar`).** Login and Callback as
handlers on a response, and as steps of runs: over all browsers for the pairing
of state, nonce and verifier, and over one jar for independence, single use and
the bound on login cookies.

**Gate pipeline (`Headers`, `Projection`, `Pipeline`, `Noninterference`,
`Backend`, `LiveGates`).** Gates are functions on a request that carries its
context; a route is their composition. The central claim compares two runs.
When neither a session, nor an identity provider, nor an accept block is
configured, no gate strips anything and "required" asks for nothing
(`Noninterference.InactiveGatesPassEverything`, `Gateways.TerminalReachedIff`).
The comment in `prepareBackendRequest` has it that no client-supplied header
under the configured assertion name can reach a backend. On a route that forwards
identity nowhere the name is not known there, and a proxied request takes the
client's header along (`Backend.ConfiguredNameWithoutIssuer`).

**Authorization and the route loop (`Selectors`, `RouteResolution`, `Policies`,
`Authorization`, `Gateways`).** Selector matching, the overlay of route groups,
the union of policies, the gate that one denial is enough for, and the loop that
builds every route's chain, up to who reaches a terminal handler. A Rego engine
is a function to deny reasons or an error.

**Assertions, paths, templates, configuration text, aggregation (`Text`,
`Assertions`, `Paths`, `StaticPath`, `Templates`, `EnvExpansion`,
`Aggregation`).** The comment on `cleanRequestPath` calls its result slash-free;
the code keeps inner slashes, and a leading one when the trimmed path still had
one (`StaticPath.ServedKeepsSegments`). The `X-Hog-Partial` header joins group
names with commas and registration accepts a group with a comma in it, so the
header can be read back only without such groups
(`Aggregation.PartialHeaderIsReadable`).

## Assumptions

- Sealing with JSON is a function pair that inverts under one domain label, and
  only the gateway can seal. Session ids and login states do not repeat. Hashes
  that derive store keys do not collide. Ed25519 with base64url and JSON obeys
  the laws in `Assertions.Lawful`; a signature that holds was made by a minting
  (`Assertions.Unforged`, about the token presented).
- The clock, random draws, the provider's answers and the outcome of store
  operations are parameters, or labels of steps.
- A request sends the whole jar. Header keys are canonical. Lower case is exact
  wherever the result is ASCII; a header name with anything else is never written.
- Durations and times are exact integers of nanoseconds.

## Model

| member | source | states |
|---|---|---|
| KeyedMutex.EveryRunIsSafe | session/keyedmutex.go:18-41 | in every interleaving: one holder per key, refs equals the registered threads, threads on a key share the mapped entry, mapped iff referenced, empty at rest, and some thread inside can always step |
| KeyedMutex.StepKeepsInv | session/keyedmutex.go:18-41 | each atomic section keeps the inductive invariant behind those claims |
| KeyedMutex.KeyedMutexes.RegisterOn | session/keyedmutex.go:18-30 | the section under k.mu is exactly the Register step, creating the entry when there is none |
| KeyedMutex.KeyedMutexes.Enter | session/keyedmutex.go:31 | taking the entry's mutex is exactly the Acquire step |
| KeyedMutex.KeyedMutexes.Leave | session/keyedmutex.go:33 | leaving it is exactly the Release step |
| KeyedMutex.KeyedMutexes.DeregisterFrom | session/keyedmutex.go:34-39 | the rest of unlock is exactly the Deregister step, unmapping at zero references |
| SessionProtocol.NewConfig | session/statemanager.go:52-54 | a positive skew is kept, any other becomes 60 seconds |
| SessionProtocol.RunKeepsLocks | session/statemanager.go:170-212 | in every run each Read stands in the keyed mutex where its program counter says |
| SessionProtocol.OneInside | session/statemanager.go:177-178 | at most one Read per session is between lock and unlock |
| SessionLifetime.AbsoluteLifetime | session/statemanager.go:99-212 | in every run: stored and returned records keep all but their tokens as issued, every TTL is within the remaining lifetime measured, and no expiry check passes after issue time + TTL |
| SessionLifetime.ExpiredReadFails | session/statemanager.go:142-144 | a Read that checks a loaded record after issue time + TTL fails, after any run |
| SessionLifetime.ForeignClientFails | session/statemanager.go:145-147 | a Read by a client whose fingerprint is not the one of issue fails, after any run |
| SessionLifetime.TurnedDownKeepsALiveToken | session/statemanager.go:192-197 | in every run a Read that the provider turned down has its record iff the record's access token is still alive |
| SessionAnswers.AnswersWereDecided | session/statemanager.go:148-153 | in every run a Read that returned a record had decided on it, so what holds of decisions holds of answers |
| SingleFlight.SingleFlightRefresh | session/statemanager.go:170-212 | in every calm run of any number of Reads: no provider call follows a successful one, and every Read that waited and decides later gets the refreshed access token, its expiry, and the new refresh token or the old one if none came |
| SessionEnd.PastTheEndTheTokenIsPresentedAgain | session/statemanager.go:170-212 | for every refreshing configuration and every horizon not before the session's end, a run from an empty store that is calm but for that end and presents the rotated token again |
| Logout.LogoutIsFinalIff | session/statemanager.go:214-219 | after any run, a cleared session can come back iff a Read that can still store it is in flight |
| Logout.ReadAfterLogoutFails | session/statemanager.go:129-141 | once it is gone, every Read of it that starts in any continuation finds nothing |
| StateManager.Manager.constructor | session/statemanager.go:44-64 | an empty manager with the clamped skew is the initial state of the protocol |
| StateManager.Manager.Issue | session/statemanager.go:99-127 | the record holds this identity, these tokens and this client, for the TTL; it and the id cookie are one Issue step; a store failure leaves neither |
| StateManager.Manager.Read | session/statemanager.go:129-154 | blocked iff the record is due and another Read is inside; else finished, with result and whole new store given by the old store, the clock and the provider's answer |
| StateManager.Manager.Open | session/statemanager.go:130-147 | a record iff there is an id, a stored record, lifetime left and an equal fingerprint |
| StateManager.Manager.Approach | session/statemanager.go:170-177 | gets in line for the mutex iff there is a provider, a refresh token and the skew window is reached; else answers at once |
| StateManager.Manager.Proceed | session/statemanager.go:177-178 | goes on iff nobody is inside the session's critical section |
| StateManager.Manager.Resume | session/statemanager.go:177-212 | when the mutex can be taken, after any changes by others: another Read's refresh is taken over, else the provider decides; leaves the mutex |
| StateManager.FreeIff | session/keyedmutex.go:31-33 | in every run the mutex can be taken iff no Read of the session is inside |
| StateManager.Manager.Refresh | session/statemanager.go:180-212 | under the mutex: the re-loaded record if still fresh, else the provider decides |
| StateManager.Manager.Exchange | session/statemanager.go:191-211 | turned down: the record read before the lock iff its access token lives, and nothing stored; else that record with the new tokens, the old refresh token if none came |
| StateManager.Manager.Restore | session/statemanager.go:204-210 | the renewed record is stored for exactly the remaining lifetime, or not at all |
| StateManager.Manager.Clear | session/statemanager.go:214-229 | deletes the carried session if the store does, and always clears the cookie |
| StateManager.SessionCookieRoundTrip | session/statemanager.go:117-134 | for every jar the id cookie of Issue is the id the next Read carries |
| StateManager.CookieLivesAsLong | session/statemanager.go:124 | Max-Age is the whole seconds of the TTL |
| StateManager.ClearedCookieIsGone | session/statemanager.go:220-228 | for every jar, after Clear a request carries no id |
| Numerals.AtoiRoundTrip | session/cookie.go:64-85 | parsing a written chunk index gives it back |
| Numerals.AtoiReads | session/cookie.go:85 | a sign or none, zeros or none and a numeral are read as what they say, unless out of range |
| Numerals.AtoiOnlyReads | session/cookie.go:85 | and nothing else is read |
| CookieCodec.IndexReads | session/cookie.go:83-88 | every spelling of an index stands for it, negative ones for none |
| CookieCodec.IndexOnlyReads | session/cookie.go:83-88 | and only such names stand for an index |
| CookieCodec.WriteChunkedCookie | session/cookie.go:60-73 | the loop emits one cookie per 3900-byte slice, in order |
| CookieCodec.ChunkSizes | session/cookie.go:60-73 | ceil(len/3900) chunks, none empty, all but the last full |
| CookieCodec.ReadChunkedCookie | session/cookie.go:80-104 | the loops return the maximal contiguous run from index 0, absent iff index 0 is |
| CookieCodec.ClearChunkedCookie | session/cookie.go:128-138 | one expiration per cookie under the prefix |
| CookieCodec.ClearedJar | session/cookie.go:128-138 | clearing removes every name under the prefix, however spelled, and nothing else |
| CookieCodec.ChunkedRoundTrip | session/cookie.go:60-104 | for every jar and non-empty value, issuing then reading returns exactly the value |
| CookieCodec.StraysAreIgnored | session/cookie.go:75-104 | any number of cookies whose index does not parse, is negative or exceeds the count change nothing |
| CookieCodec.StrayIsHarmlessIff | session/cookie.go:75-104 | one extra cookie at any place leaves the value as it was iff it has no index, one beyond the count, a chunk's index that the chunk follows or that it repeats, or stands at the count with nothing in it or after it |
| CookieCodec.NextIndexExtends | session/cookie.go:92-99 | a cookie at exactly the next index is appended, with whatever parts follow it |
| CookieCodec.ClearedIsGone | session/cookie.go:80-138 | after clearing there is nothing to read |
| CookieManager.IssueThenRead | session/manager.go:59-95 | an issued session reads back whole iff not expired and the fingerprint is equal, else it is invalid |
| CookieManager.ReadSessionIs | session/manager.go:75-95 | no session iff there is no chunk 0; a session iff the value opens to it under the session label, unexpired and for this client |
| CookieManager.ClearThenRead | session/manager.go:75-99 | after Clear, Read reports no session |
| CookieManager.Manager.Issue | session/manager.go:59-73 | stale chunks are expired before the new ones are written |
| CookieManager.Manager.Read | session/manager.go:75-95 | each failure is reported as no session or as an invalid one |
| CookieManager.Manager.Clear | session/manager.go:97-99 | expires every chunk carried |
| SignIn.ReturnToIsLocal | auth/loginstate.go:46-59 | only local paths come out, and exactly the local ones come out unchanged |
| SignIn.Handlers.LoginCookies | auth/endpoints.go:39-47 | the login cookies of a request, in order, the plain one included |
| SignIn.Handlers.Login | auth/endpoints.go:84-109 | the sealed state, the cookies set, those expired at the limit and the redirect; 500 and no cookie when sealing fails |
| SignIn.Handlers.Callback | auth/endpoints.go:112-164 | what is handed to the provider, the cookies set and the answer in every branch; a completed sign-in redirects to its own return path |
| SignInPairing.UnmatchedCallbackUsesNothing | auth/endpoints.go:112-176 | a callback whose state no login cookie of the request was sealed for: no exchange, no cookie, the root page for a signed-in browser, else 400 |
| SignInPairing.ExchangePairing | auth/endpoints.go:84-164 | in every run a code is exchanged only with the nonce and verifier of the one Login that drew the state, and the answer given on success redirects only to its local return path |
| SignInJar.JudgeInJar | auth/endpoints.go:113-138 | the verdict on a request that sends the jar, in terms of the jar, refusals included |
| SignInJar.OtherLoginIndependent | auth/endpoints.go:99-107 | after another Login this sign-in completes iff it could before and the jar was below the limit |
| SignInJar.OtherCallbackIndependent | auth/endpoints.go:112-164 | another sign-in's callback never changes whether this one completes |
| SignInJar.OthersNeverInterfere | auth/endpoints.go:84-164 | over every run of other sign-ins below the limit this one completes at the end iff it could at the start |
| SignInJar.FinishedIsNeverReplayed | auth/endpoints.go:161-163 | in every run a finished state is never exchanged again |
| SignInJar.JarStaysBounded | auth/endpoints.go:26-52 | in every run a jar within five login cookies stays within five |
| Projection.Canon | auth/projection.go:150-159 | the in-place loop title-cases every field |
| Projection.CanonConcat | auth/projection.go:146-159 | underscores and hyphens separate words, empty words do not count, and the words' names are joined with one hyphen |
| Projection.CanonWord | auth/projection.go:146-159 | a word is title-cased |
| Projection.LiveRequest.StripUserHeaders | auth/projection.go:36-46 | exactly the X-User-* headers go |
| Projection.LiveRequest.SetHeaderSafe | auth/projection.go:103-111 | writes iff the name is a token and the value has no control character |
| Projection.LiveRequest.ApplyProjection | auth/projection.go:48-97 | the final header map, for the order in which the claims happened to come |
| Projection.OrderIsIrrelevant | auth/projection.go:48-111 | with distinct targets every iteration order gives the same header map |
| Projection.TrustedHeadersWin | auth/projection.go:89-97 | in both modes and with collisions, the subject and the groups headers end as trusted |
| Projection.OnlyThePrincipalsHeaders | auth/projection.go:17-97 | every X-User-* header downstream is the subject, the groups, or the value of a claim of the passport that goes there |
| Projection.DerivedClaimsArrive | auth/projection.go:68-87 | without a block every scalar claim with a header of its own and a clean value arrives under its name with its value |
| Projection.ListedClaimsArrive | auth/projection.go:56-67 | with a block a listed claim arrives under the configured name with its value, and nothing of the client's where there is none |
| Projection.GroupsHeaderName | auth/projection.go:51-54 | which header carries the groups |
| Pipeline.Compose | chain/middleware.go:22-28 | the backward loop makes mws[0] outermost |
| Pipeline.ComposeRuns | chain/middleware.go:22-28 | a composed chain answers what its first stopping gate answers, else the terminal's answer to the final request |
| Pipeline.CombineIsSequence | app/build.go:392-394 | two gates combined in one slot run as two in a row |
| Pipeline.RunConcat | chain/builtin.go:75-89 | a chain runs as its front, then its back |
| Pipeline.SkeletonRuns | chain/builtin.go:75-89 | a skeleton first identifies, then decides (login, then policies), then projects |
| Pipeline.BearerTokenIsRead | auth/bearer.go:101-113 | the scheme in any case and any space around the token yield the token |
| Pipeline.OnlyBearerHeadersAreRead | auth/bearer.go:101-113 | and nothing else yields one |
| Pipeline.AppRoutesUseTheCookie | app/build.go:270-271 | on an app route only the session cookie identifies, and no header changes before the decision |
| Pipeline.HandlerForwardsIdentity | app/build.go:480-499 | true iff some hop sets forwardIdentity |
| Noninterference.UserHeadersDoNotInterfere | app/build.go:267-329 | two requests that differ only in X-User-* get the same answer or reach the terminal as the same request |
| Noninterference.NorDoIterationOrders | auth/projection.go:48-97 | the same when each run iterates over the claims in its own order and claims go to distinct headers |
| Noninterference.InactiveGatesPassEverything | app/build.go:267-309 | without any identity source a request that no policy denies reaches the terminal unchanged, whatever the route requires |
| Noninterference.PrincipalProvenance | app/build.go:270-283 | on service routes: subject, token and session id from the first of cookie and bearer; passport and groups of a verified assertion with an equal subject; a principal from an assertion alone iff no bearer is required; the assertion header is gone |
| Noninterference.BearerErrorIff | auth/bearer.go:49-99 | a service request is marked iff it presented a token that nobody knew and nothing else resolved |
| LiveGates.Inbound.ResolveSession | auth/gates.go:14-25 | in place, what the session gate does |
| LiveGates.Inbound.ResolveBearer | auth/bearer.go:49-99 | in place, what the bearer gate does, the error mark included |
| LiveGates.Inbound.AcceptAssertion | auth/assertion_gate.go:31-79 | in place, what the assertion gate does |
| LiveGates.Inbound.MintAssertion | auth/assertion_gate.go:84-111 | in place, what the issuing gate does |
| Backend.Outbound.PrepareBackendRequest | terminal/forward.go:55-99 | the outbound header map, from any starting map |
| Backend.OutboundCookies | terminal/forward.go:56-58 | for any client headers the Cookie header leaves unchanged where forwarded, and not at all elsewhere |
| Backend.CookiesThroughTheRoute | terminal/forward.go:56-58 | the same through a whole built route, from the client's headers |
| Backend.OutboundUserHeaders | terminal/forward.go:59-63 | every projected X-User-* header leaves with its value |
| Backend.IdentityArrives | app/build.go:284-288 | through a whole built route a backend gets the resolved subject and groups, or no X-User-* header of the client's |
| Backend.ForwardedTellsTheWay | terminal/forward.go:104-118 | the last hop of the outbound X-Forwarded-For is the peer, after the hops claimed; host and protocol are the request's, each once |
| Backend.OutboundAuthorization | terminal/forward.go:64-75 | for any client headers: the principal's token iff forwarded and non-empty, else absent |
| Backend.OutboundAssertion | terminal/forward.go:76-97 | under the used name the inbound value iff opted in, and never under the default name otherwise |
| Backend.OutboundIdentityIsOurs | app/build.go:314-329 | through a whole built route: the freshly minted assertion iff opted in, resolved and minted, else none under either name |
| Backend.NoIdentityWithoutOptIn | terminal/forward.go:76-97 | on a route that forwards identity nowhere nothing leaves under the default name |
| Backend.ConfiguredNameWithoutIssuer | terminal/forward.go:76-97 | on such a route a header under the configured name leaves a proxied request iff the client sent it, with the client's value, and never an aggregated one |
| RouteResolution.Resolve | route/route.go:137-220 | the loops compute the overlay and the union, with the three refusals |
| RouteResolution.LaterGroupWins | route/route.go:141-156 | a setting is that of the last matching group that has one, and absent iff none has |
| RouteResolution.AuthorizeIsTheUnion | route/route.go:202-217 | no duplicates, and exactly the non-empty names of the route and of every matching group |
| RouteResolution.DistinctKeepsOrder | route/route.go:202-217 | names come in the order in which they are first asked for |
| RouteResolution.LabelsDecideWhatIsAsked | selector/selector.go:27-33 | a group that selects listed values of a label asks its policies of exactly the routes with one of them |
| RouteResolution.OwnSettingsWin | route/route.go:158-186 | what the route sets itself holds |
| RouteResolution.LastGroupDecides | route/route.go:141-186 | where it is silent, the last matching group with something to say decides |
| RouteResolution.ResolvesIff | route/route.go:158-200 | resolves iff type and auth are known ones and the deny redirect stays on this origin |
| Selectors.MatchesLabels | selector/selector.go:21-51 | the loops, operator by operator over the labels; a missing label reads as empty |
| Selectors.TermsNarrow | selector/selector.go:14-51 | no terms match everything, terms add up to a conjunction, an unknown operator matches nothing |
| Selectors.OperatorsAreComplementary | selector/selector.go:29-48 | In and NotIn, Exists and DoesNotExist are opposites |
| RouteResolution.DefaultsProtectServices | route/route.go:158-174 | where nobody sets them: a route is a service iff its handler proxies or aggregates, and needs a login iff it is a service |
| Policies.AnyGroup | authz/rule.go:66-77 | true iff the two lists share a group |
| Policies.IsSatisfied | authz/rule.go:47-64 | an empty rule lets everybody through; any other a known principal with one of its groups and, of every claim, one of the listed values |
| Policies.DecideFailsClosed | authz/policy.go:72-86 | a decision denies iff some tier disagrees or fails; only an engine error is a failure |
| Policies.Compile | authz/policy.go:32-67 | the first objection in document order is the error, undecodable documents included; without one the table holds exactly the documents |
| Policies.AcceptedMeans | authz/policy.go:32-67 | what it takes for a document to pass |
| Policies.RefusedRulesAreTheIdleOnes | authz/policy.go:40-52 | the refused require blocks are exactly those that everyone satisfies or no one can |
| Policies.AnonymousNeedsAnEngine | authz/policy.go:40-45 | in a compiled table only a policy without a require block can permit a request without a principal |
| Authorization.Judge | authz/gate.go:32-49 | the loop answers with the first denial, or lets the request through |
| Authorization.VerdictAllowsIff | authz/gate.go:32-49 | through iff every policy permits |
| Authorization.LookUpPolicies | app/build.go:296-303 | the lookup loop yields the named policies in order, or the first unknown name |
| Authorization.BuildGuard | app/build.go:295-309 | the policies with the redirect, which only app routes have |
| Authorization.BuiltIff | app/build.go:263-309 | a gate is built iff the route resolves and every policy asked for exists |
| Authorization.AllowsIffEveryPolicyPermits | app/build.go:263-309 | from resolution to the gate: allowed iff every policy named by the route or a matching group permits |
| Gateways.BuildRoute | app/build.go:263-329 | slot choice, gates, policies and issuer put in order, or the first refusal |
| Gateways.BuildRoutes | app/build.go:244-330 | every route mounted with its own chain, or the first objection in document order, duplicate patterns included |
| Gateways.TerminalReachedIff | app/build.go:244-330 | through the whole built chain: a request reaches the terminal iff a principal was resolved where one is required and any identity source exists, and every asked policy permits that principal |
| Gateways.UnknownIsAnswered | auth/gates.go:58-78 | through the whole chain: a navigation of an app is sent to the login, other requests of it get 401, a service answers 401 with its challenge |
| Gateways.WiredAsConfigured | app/build.go:267-291 | a built route has the gateway's identity sources and the settings it resolved to |
| Gateways.RefusalIs | app/build.go:244-328 | which refusal a route gets, in the code's order |
| Authorization.MoreGroupsNeverAdmitMore | route/route.go:202-217 | adding groups never turns a denial into an admission |
| Authorization.OrderNeverChangesTheVerdict | route/route.go:202-217 | permuting groups never changes allow versus deny |
| Authorization.OrderCanBreakResolution | route/route.go:141-165 | order can decide whether a route resolves, so both builds are premises |
| Authorization.FirstDenialAnswers | authz/gate.go:32-49 | the first policy that does not permit answers: the redirect where one is configured, but 403 when its engine failed |
| Authorization.DenialIs | app/build.go:304-308 | the exact answer of a denied request: 302 to the redirect in force on an app route unless the evaluation failed, else 403 |
| Authorization.InputTellsTheRequest | authz/input.go:20-47 | what a policy is told, field by field |
| Authorization.DenialAnswers | authz/gate.go:42-47 | a denial is 403, or on app routes only a redirect to a local path |
| Assertions.NewVerifier | auth/assertion.go:131-139 | exactly the keys of the right length are kept |
| Assertions.MintThenVerify | auth/assertion.go:88-202 | exactly when a minted token is accepted, with which claims, and the refusal otherwise |
| Assertions.ClockWindow | auth/assertion.go:88-202 | accepted on [m-30s, m+ttl+29s], refused after m+ttl+30s and before m-31s |
| Assertions.AcceptedWasMinted | auth/assertion.go:143-202 | whatever token is presented, forged ones included: if accepted, its claims are those of one minting, inside its window |
| Assertions.AcceptsIff | auth/assertion.go:143-202 | exactly which tokens are accepted, with which claims |
| Assertions.MintedIsUnforged | auth/assertion.go:88-117 | a trusted issuer's token meets that claim's premise with a signature that holds |
| StaticPath.CleanRequestPath | terminal/static.go:23-42 | refused iff some segment is hidden, else the cleaned path |
| StaticPath.TrimmedIs | terminal/static.go:24-28 | what the prefix and the slash take off |
| StaticPath.ServedKeepsSegments | terminal/static.go:23-42 | the segments of the served path are exactly the named segments of the trimmed one, in order, none with a leading dot; rooted iff the trimmed path was |
| Templates.SubstituteParams | terminal/aggregate.go:204-229 | the loop computes the placeholder-by-placeholder substitution |
| Templates.PlaceholderIsFilled | terminal/aggregate.go:204-243 | a placeholder becomes the request's value, and an empty, separating or dot value refuses the whole |
| Templates.SegmentWise | terminal/aggregate.go:204-229 | substituting and splitting into segments commute |
| Templates.ValuesNeverMakeDots | terminal/aggregate.go:235-243 | a segment that changed is never empty, "." or ".." |
| Templates.TemplateKeepsShape | terminal/aggregate.go:166-243 | the segments of the backend path are the base's followed by exactly the template's, filled in |
| Templates.TemplateKeepsShapeAlone | terminal/aggregate.go:166-243 | the same without a base path |
| EnvExpansion.ExpandEnv | config/env.go:11-39 | the loop equals tokenising once and rendering once, and ends |
| EnvExpansion.Piece | config/env.go:27-37 | a set value, else the default, else an error |
| EnvExpansion.TokensSpellTheText | config/env.go:14-30 | the tokens of a closed text spell it out again |
| EnvExpansion.FailsIff | config/env.go:21-37 | fails iff a reference is unterminated, or unset without a default |
| EnvExpansion.FirstFailureIsTheError | config/env.go:21-37 | the first token that cannot be rendered is the error |
| EnvExpansion.DefaultStartsAtTheFirstMark | config/env.go:27-30 | the first ":-" ends the name and starts the default |
| EnvExpansion.OneReference | config/env.go:31-37 | from text to text, one reference is its value even if empty, else the error |
| EnvExpansion.OnlyTheTextsNamesMatter | config/env.go:31-32 | only names written in the text are looked up, so values are never scanned again |
| EnvExpansion.TokensConcat | config/env.go:11-39 | tokenising distributes over concatenation at token boundaries |
| EnvExpansion.ExpansionDistributes | config/env.go:11-39 | so does expansion |
| Aggregation.RegisterAPI | terminal/aggregate.go:54-105 | the first objection is the error; accepted groups are unique, and every backend is kept, GET and required where left out |
| Aggregation.AcceptedMeans | terminal/aggregate.go:72-93 | what it takes for a backend to pass |
| Aggregation.UnsetMeansRequired | terminal/aggregate.go:94-97 | a backend whose required was left out fails the whole answer when it fails |
| Aggregation.EveryRunCollectsAll | terminal/aggregate.go:126-135 | in every interleaving of starts and completions every slot holds its outcome once Wait returns |
| Aggregation.SomeStepRemains | terminal/aggregate.go:126-135 | until Wait returns some goroutine can step |
| Aggregation.FanOut | terminal/aggregate.go:126-135 | the array filled by any such run equals the outcomes |
| Aggregation.ServeHTTP | terminal/aggregate.go:119-161 | 200 iff no required backend failed; else 504 or 502 by the first one in declaration order |
| Aggregation.AnswerIsUnique | terminal/aggregate.go:137-161 | fixed outcomes leave one answer, whatever the schedule |
| Aggregation.MergePartitionsTheGroups | terminal/aggregate.go:137-154 | merged keys and omitted groups partition the configured groups, with the right bodies |
| Aggregation.OmittedInOrder | terminal/aggregate.go:153-157 | omitted groups are listed in declaration order |
| Aggregation.PartialHeaderIsReadable | terminal/aggregate.go:155-157 | the header splits back into the omitted groups iff none contains a comma |

## Left out

- StateManager.Manager.Resume: the steps of other Reads between its own sections are covered by the transition system, not by the method, which runs them in one go.
- Aggregation.ServeHTTP: a backend's outcome is given; the timeout context and the 10 MiB read limit are not modelled.
- Authorization.DenialAnswers: Location is what is handed to http.Redirect, which may still normalise it; the same holds for every redirect in the model.
- Pipeline.CombineIsSequence: recover, request-id and access-log are pass-through; their headers and log lines are not modelled.
- Gateways.BuildRoutes: building terminal handlers and resolving plugins are not modelled, nor are their errors.
- Cookie attributes other than name, value and Max-Age (Secure, HttpOnly, SameSite), and names or values that net/http would refuse.
- In TrimSpace of a bearer token, white space beyond Latin-1.
- YAML decoding and defaulting of configuration, apart from the validation loops above; whether a document decodes is given.
- AES-GCM, Ed25519, SHA-256, base64 and JSON internals; OIDC discovery and token verification; OPA.
- The reverse proxy, transports, static file serving, os.Root and ServeMux matching.
- security/security.go and chain/forwarded.go, which would only add easy members.
- Passport and group filtering in session/passport.go and session/identity.go; only the resulting principal is kept.
- The Valkey store plugin, request and response plugins, telemetry, logging, the build tool and the command line.
