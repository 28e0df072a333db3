/**
  The gate pipeline: the gates of auth/gates.go, auth/bearer.go,
  auth/assertion_gate.go and auth/projection.go, composed as chain/middleware.go,
  chain/builtin.go and the route loop of app/build.go compose them.

  A gate either stops a request with a response or passes it on, changed.  The
  session manager, the identity provider, the assertion verifier and issuer, the
  policies and the iteration order of Go maps are functions.
 */
module Pipeline {
  import opened Wrappers
  import opened Headers
  import opened Projection

  // The request with what its context carries; `assertionHeader` is "" until IssueAssertion ran.
  datatype Request = Request(
    header: Header, principal: Option<Principal>, bearerError: bool, assertionHeader: string,
    verb: string, path: string, uri: string, host: string, peer: string)

  datatype Response = Response(status: int, location: string, challenge: string, body: string)

  datatype Outcome = Stop(response: Response) | Pass(request: Request)

  datatype Identity = Identity(subject: string, passport: map<string, Claim>, groups: seq<string>)

  // A session manager sees the Cookie header and the fingerprint headers of a request.
  datatype SessionReader = SessionReader(
    fingerprints: seq<string>, read: (seq<string>, seq<string>) -> Option<Principal>)

  datatype Gate =
    | Reserved
    | SessionGate(manager: Option<SessionReader>)
    | BearerGate(identify: string -> Option<Identity>)
    | AssertionGate(verify: string -> Option<Identity>, header: string, requireBearer: bool)
    | AuthGate(required: bool, isApp: bool, loginURL: string -> string)
    | AuthzGate(deny: (Option<Principal>, string, string) -> Option<Response>)
    | ProjectionGate(sp: Option<SessionProjection>, groupsAs: string, order: Principal -> seq<string>)
    | IssueAssertion(mint: Principal -> Option<string>, header: string)

  /* ---- what each gate does ---- */

  function Values(h: Header, name: string): seq<string> {
    if Canonical(name) in h then h[Canonical(name)] else []
  }

  function GetAll(h: Header, names: seq<string>): seq<string> {
    seq(|names|, i requires 0 <= i < |names| => Get(h, names[i]))
  }

  function SessionOf(m: Option<SessionReader>, h: Header): Option<Principal> {
    if m.None? then None else m.value.read(Values(h, COOKIE), GetAll(h, m.value.fingerprints))
  }

  predicate IsSpace(c: char) { c == ' ' || 0x09 as char <= c <= 0x0D as char || c == 0x85 as char || c == 0xA0 as char }

  function TrimLeft(s: string): string { if s != "" && IsSpace(s[0]) then TrimLeft(s[1..]) else s }

  function TrimRight(s: string): string
    decreases |s|
  {
    if s != "" && IsSpace(s[|s| - 1]) then TrimRight(s[..|s| - 1]) else s
  }

  // The scheme is compared without regard to case.
  function ParseBearer(value: string): Option<string> {
    var prefix := "bearer ";
    if |value| < |prefix| || (exists i :: 0 <= i < |prefix| && Lower(value[i]) != prefix[i]) then None
    else
      var token := TrimRight(TrimLeft(value[|prefix|..]));
      if token == "" then None else Some(token)
  }

  predicate Spaces(s: string) { forall i :: 0 <= i < |s| ==> IsSpace(s[i]) }

  lemma {:induction false} TrimLeftSpaces(pad: string, s: string)
    requires Spaces(pad) && (s == "" || !IsSpace(s[0]))
    ensures TrimLeft(pad + s) == s
  {
    if pad == "" {
      assert pad + s == s;
    } else {
      assert (pad + s)[0] == pad[0] && (pad + s)[1..] == pad[1..] + s;
      TrimLeftSpaces(pad[1..], s);
    }
  }

  lemma {:induction false} TrimRightSpaces(s: string, pad: string)
    requires Spaces(pad) && (s == "" || !IsSpace(s[|s| - 1]))
    ensures TrimRight(s + pad) == s
    decreases |pad|
  {
    if pad == "" {
      assert s + pad == s;
    } else {
      var all := s + pad;
      assert all[|all| - 1] == pad[|pad| - 1] && all[..|all| - 1] == s + pad[..|pad| - 1];
      TrimRightSpaces(s, pad[..|pad| - 1]);
    }
  }

  // The scheme in any case, any space around the token, and nothing else.
  predicate BearerValue(value: string, scheme: string, before: string, token: string, after: string) {
    && value == scheme + " " + before + token + after
    && |scheme| == 6 && (forall i :: 0 <= i < 6 ==> Lower(scheme[i]) == "bearer"[i])
    && Spaces(before) && Spaces(after)
    && token != "" && !IsSpace(token[0]) && !IsSpace(token[|token| - 1])
  }

  // A bearer header yields its token.
  lemma BearerTokenIsRead(value: string, scheme: string, before: string, token: string, after: string)
    requires BearerValue(value, scheme, before, token, after)
    ensures ParseBearer(value) == Some(token)
  {
    hide IsSpace, TrimLeft, TrimRight;
    assert value[7..] == before + (token + after);
    assert forall i :: 0 <= i < 6 ==> value[i] == scheme[i] && "bearer "[i] == "bearer"[i];
    assert value[6] == ' ';
    assert (token + after)[0] == token[0];
    TrimLeftSpaces(before, token + after);
    TrimRightSpaces(token, after);
  }

  lemma {:induction false} TrimLeftSplits(s: string) returns (pad: string)
    ensures Spaces(pad) && s == pad + TrimLeft(s) && (TrimLeft(s) == "" || !IsSpace(TrimLeft(s)[0]))
  {
    pad := "";
    if s != "" && IsSpace(s[0]) {
      var rest := TrimLeftSplits(s[1..]);
      pad := [s[0]] + rest;
      assert s == [s[0]] + s[1..];
    }
  }

  lemma {:induction false} TrimRightSplits(s: string) returns (pad: string)
    ensures Spaces(pad) && s == TrimRight(s) + pad && (TrimRight(s) == "" || !IsSpace(TrimRight(s)[|TrimRight(s)| - 1]))
    decreases |s|
  {
    pad := "";
    if s != "" && IsSpace(s[|s| - 1]) {
      var rest := TrimRightSplits(s[..|s| - 1]);
      pad := rest + [s[|s| - 1]];
      assert s == s[..|s| - 1] + [s[|s| - 1]];
    }
  }

  // And nothing but a bearer header yields a token.
  lemma OnlyBearerHeadersAreRead(value: string) returns (scheme: string, before: string, after: string)
    requires ParseBearer(value).Some?
    ensures BearerValue(value, scheme, before, ParseBearer(value).value, after)
  {
    hide IsSpace, TrimLeft, TrimRight;
    scheme := value[..6];
    before := TrimLeftSplits(value[7..]);
    var token := TrimLeft(value[7..]);
    after := TrimRightSplits(token);
    var t := TrimRight(token);
    assert forall i :: 0 <= i < 6 ==> Lower(value[i]) == "bearer "[i] && "bearer "[i] == "bearer"[i];
    assert Lower(value[6]) == "bearer "[6] == ' ';
    assert value == scheme + " " + before + t + after;
    assert t[0] == token[0];
  }

  function AssertionName(header: string): string { if header == "" then DEFAULT_ASSERTION else header }

  // What an accepted assertion makes of the principal that was resolved before it.
  function Asserted(p: Option<Principal>, a: Identity, requireBearer: bool): Option<Principal> {
    match p
    case Some(q) => if q.subject == a.subject then Some(q.(passport := a.passport, groups := a.groups)) else p
    case None => if requireBearer then None else Some(Principal(a.subject, a.passport, a.groups, "", ""))
  }

  function Challenge(r: Request): string { if r.bearerError then "Bearer error=\"invalid_token\"" else "Bearer" }

  predicate StartsLogin(h: Header) { Get(h, FETCH_MODE) == "" || Get(h, FETCH_MODE) == "navigate" }

  function Unauthenticated(g: Gate, r: Request): Response
    requires g.AuthGate?
  {
    if g.isApp && StartsLogin(r.header) then Response(302, g.loginURL(r.uri), "", "")
    else if g.isApp then Response(401, "", "", "unauthorized")
    else Response(401, "", Challenge(r), "unauthorized")
  }

  function Act(g: Gate, r: Request): Outcome {
    match g
    case Reserved => Pass(r)
    case SessionGate(m) =>
      var p := SessionOf(m, r.header);
      Pass(if p.Some? then r.(principal := p) else r)
    case BearerGate(identify) =>
      if r.principal.Some? then Pass(r)
      else
        (match ParseBearer(Get(r.header, AUTHORIZATION))
         case None => Pass(r)
         case Some(token) =>
           var id := identify(token);
           if id.None? || id.value.subject == "" then Pass(r.(bearerError := true))
           else Pass(r.(principal := Some(Principal(id.value.subject, id.value.passport, id.value.groups, token, "")))))
    case AssertionGate(verify, header, requireBearer) =>
      var name := AssertionName(header);
      var token := Get(r.header, name);
      var without := r.(header := Del(r.header, name));
      if token == "" || verify(token).None? then Pass(without)
      else Pass(without.(principal := Asserted(r.principal, verify(token).value, requireBearer)))
    case AuthGate(required, _, _) =>
      if required && r.principal.None? then Stop(Unauthenticated(g, r)) else Pass(r)
    case AuthzGate(deny) =>
      var answer := deny(r.principal, r.verb, r.path);
      if answer.Some? then Stop(answer.value) else Pass(r)
    case ProjectionGate(sp, groupsAs, order) =>
      var stripped := Stripped(r.header);
      Pass(r.(header := match r.principal
                        case Some(p) => Projected(stripped, p, sp, GroupsHeader(sp, groupsAs), order(p))
                        case None => stripped))
    case IssueAssertion(mint, header) =>
      var name := AssertionName(header);
      var without := Del(r.header, name);
      var token := if r.principal.Some? then mint(r.principal.value) else None;
      Pass(r.(header := if token.Some? then Set(without, name, token.value) else without, assertionHeader := name))
  }

  function Run(gates: seq<Gate>, r: Request): Outcome {
    if gates == [] then Pass(r)
    else match Act(gates[0], r)
         case Stop(a) => Stop(a)
         case Pass(r') => Run(gates[1..], r')
  }

  lemma {:induction false} RunConcat(a: seq<Gate>, b: seq<Gate>, r: Request)
    ensures Run(a + b, r) == match Run(a, r) case Stop(x) => Stop(x) case Pass(r') => Run(b, r')
  {
    if a == [] {
      assert a + b == b;
    } else {
      assert (a + b)[0] == a[0] && (a + b)[1..] == a[1..] + b;
      if Act(a[0], r).Pass? { RunConcat(a[1..], b, Act(a[0], r).request); }
    }
  }

  /* ---- handlers and middlewares are functions ---- */

  type Handler = Request -> Response
  type Middleware = Handler -> Handler

  function Wrap(g: Gate): Middleware {
    (next: Handler) => (r: Request) => match Act(g, r) case Stop(a) => a case Pass(r') => next(r')
  }

  function WrapAll(gates: seq<Gate>): seq<Middleware> {
    if gates == [] then [] else [Wrap(gates[0])] + WrapAll(gates[1..])
  }

  // mws[0] is the outermost.
  function Composed(terminal: Handler, mws: seq<Middleware>): Handler {
    if mws == [] then terminal else mws[0](Composed(terminal, mws[1..]))
  }

  method Compose(terminal: Handler, mws: seq<Middleware>) returns (h: Handler)
    ensures h == Composed(terminal, mws)
  {
    h := terminal;
    var i := |mws|;
    while i > 0
      invariant 0 <= i <= |mws|
      invariant h == Composed(terminal, mws[i..])
    {
      i := i - 1;
      assert mws[i..][1..] == mws[i + 1..];
      h := mws[i](h);
    }
    assert mws[0..] == mws;
  }

  function Combine(a: Middleware, b: Middleware): Middleware { (next: Handler) => a(b(next)) }

  // Two gates combined in one slot run as two gates in a row.
  lemma CombineIsSequence(a: Gate, b: Gate, next: Handler, r: Request)
    ensures Combine(Wrap(a), Wrap(b))(next)(r) == match Run([a, b], r) case Stop(x) => x case Pass(r') => next(r')
  {
    assert [a, b][1..] == [b] && [b][1..] == [];
    if Act(a, r).Pass? { assert Run([b], Act(a, r).request) == Act(b, Act(a, r).request); }
  }

  // A composed chain answers what the first stopping gate answers, else what the terminal makes of the result.
  lemma {:induction false} ComposeRuns(terminal: Handler, gates: seq<Gate>, r: Request)
    ensures Composed(terminal, WrapAll(gates))(r) == match Run(gates, r) case Stop(a) => a case Pass(r') => terminal(r')
  {
    if gates != [] {
      assert WrapAll(gates)[1..] == WrapAll(gates[1..]);
      if Act(gates[0], r).Pass? { ComposeRuns(terminal, gates[1..], Act(gates[0], r).request); }
    }
  }

  /* ---- the route ---- */

  datatype Accept = Accept(verify: string -> Option<Identity>, header: string, requireBearer: bool)

  datatype Issue = Issue(mint: Principal -> Option<string>, header: string)

  datatype ForwardOptions = ForwardOptions(accessToken: bool, cookies: bool, identity: bool)

  datatype Wiring = Wiring(
    isService: bool, required: bool, sp: Option<SessionProjection>, groupsAs: string, order: Principal -> seq<string>,
    session: Option<SessionReader>, bearer: Option<string -> Option<Identity>>, accept: Option<Accept>,
    issue: Option<Issue>,
    deny: Option<(Option<Principal>, string, string) -> Option<Response>>, loginURL: string -> string,
    backends: seq<ForwardOptions>)

  predicate AuthActive(w: Wiring) { w.session.Some? || w.bearer.Some? || w.accept.Some? }

  // Cookie first, then bearer, then assertion; the last two on service routes only.
  function Slot(w: Wiring): seq<Gate> {
    [SessionGate(w.session)]
    + (if w.isService && w.bearer.Some? then [BearerGate(w.bearer.value)] else [])
    + (if w.isService && w.accept.Some?
       then [AssertionGate(w.accept.value.verify, w.accept.value.header, w.accept.value.requireBearer)] else [])
  }

  function Authz(w: Wiring): seq<Gate> { if w.deny.Some? then [AuthzGate(w.deny.value)] else [Reserved] }

  // recover, request-id, access-log, session, auth-gate, authz, projection
  function Skeleton(w: Wiring): seq<Gate> {
    if AuthActive(w) then
      [Reserved, Reserved, Reserved] + Slot(w) + [AuthGate(w.required, !w.isService, w.loginURL)] + Authz(w)
      + [ProjectionGate(w.sp, w.groupsAs, w.order)]
    else
      [Reserved, Reserved, Reserved] + [Reserved, Reserved] + Authz(w) + [Reserved]
  }

  /* ---- what happens before projection ---- */

  function Front(w: Wiring): seq<Gate> {
    if AuthActive(w)
    then [Reserved, Reserved, Reserved] + Slot(w) + [AuthGate(w.required, !w.isService, w.loginURL)] + Authz(w)
    else [Reserved, Reserved, Reserved] + [Reserved, Reserved] + Authz(w)
  }

  function Last(w: Wiring): Gate {
    if AuthActive(w) then ProjectionGate(w.sp, w.groupsAs, w.order) else Reserved
  }

  // The request as the identity gates leave it; without them, as it came.
  function Identified(w: Wiring, r: Request): Request {
    if !AuthActive(w) then r else match Run(Slot(w), r) case Pass(at) => at case Stop(_) => r
  }

  lemma RunOne(g: Gate, r: Request)
    ensures Run([g], r) == Act(g, r)
  {
    assert [g][1..] == [];
    if Act(g, r).Pass? { assert Run([], Act(g, r).request) == Act(g, r); }
  }

  predicate IdentityGate(g: Gate) { g.SessionGate? || g.BearerGate? || g.AssertionGate? }

  // Identity gates stop nobody and change headers, principal and error mark only.
  lemma {:induction false} IdentityGatesPass(gates: seq<Gate>, r: Request)
    requires forall i :: 0 <= i < |gates| ==> IdentityGate(gates[i])
    ensures Run(gates, r).Pass?
    ensures var at := Run(gates, r).request;
      at == r.(header := at.header, principal := at.principal, bearerError := at.bearerError)
  {
    if gates != [] {
      IdentityGateActs(gates[0], r);
      IdentityGatesPass(gates[1..], Act(gates[0], r).request);
    }
  }

  lemma IdentityGateActs(g: Gate, r: Request)
    requires IdentityGate(g)
    ensures Act(g, r).Pass?
    ensures var at := Act(g, r).request;
      at == r.(header := at.header, principal := at.principal, bearerError := at.bearerError)
  {
    hide ParseBearer, Get, Canonical, SessionOf, Asserted;
  }

  lemma {:induction false} ReservedPass(n: nat, r: Request)
    ensures Run(seq(n, i => Reserved), r) == Pass(r)
  {
    if n > 0 {
      assert seq(n, i => Reserved)[1..] == seq(n - 1, i => Reserved);
      ReservedPass(n - 1, r);
    }
  }

  // What the two deciding gates say to a request.
  function Decided(w: Wiring, at: Request): Outcome {
    if AuthActive(w) && w.required && at.principal.None?
    then Stop(Unauthenticated(AuthGate(w.required, !w.isService, w.loginURL), at))
    else if w.deny.Some? && w.deny.value(at.principal, at.verb, at.path).Some?
    then Stop(w.deny.value(at.principal, at.verb, at.path).value)
    else Pass(at)
  }

  // First identify, then decide.
  lemma FrontDecides(w: Wiring, r: Request)
    ensures Run(Front(w), r) == Decided(w, Identified(w, r))
  {
    hide Run, Slot, Authz, Unauthenticated;
    if AuthActive(w) {
      var gate := AuthGate(w.required, !w.isService, w.loginURL);
      Reserves(3, r, Slot(w) + ([gate] + Authz(w)));
      assert Front(w) == seq(3, i => Reserved) + (Slot(w) + ([gate] + Authz(w)));
      RunConcat(Slot(w), [gate] + Authz(w), r);
      SlotPasses(w, r);
      var at := Run(Slot(w), r).request;
      RunConcat([gate], Authz(w), at);
      RunOne(gate, at);
      AuthzDecides(w, at);
    } else {
      Reserves(5, r, Authz(w));
      assert Front(w) == seq(5, i => Reserved) + Authz(w);
      AuthzDecides(w, r);
    }
  }

  lemma Reserves(n: nat, r: Request, rest: seq<Gate>)
    ensures Run(seq(n, i => Reserved) + rest, r) == Run(rest, r)
  {
    ReservedPass(n, r);
    RunConcat(seq(n, i => Reserved), rest, r);
  }

  lemma SlotPasses(w: Wiring, r: Request)
    ensures Run(Slot(w), r).Pass?
    ensures var at := Run(Slot(w), r).request;
      at == r.(header := at.header, principal := at.principal, bearerError := at.bearerError)
  {
    hide Run;
    IdentityGatesPass(Slot(w), r);
  }

  lemma AuthzDecides(w: Wiring, at: Request)
    ensures Run(Authz(w), at) ==
      if w.deny.Some? && w.deny.value(at.principal, at.verb, at.path).Some?
      then Stop(w.deny.value(at.principal, at.verb, at.path).value) else Pass(at)
  {
    hide Run;
    RunOne(Authz(w)[0], at);
    assert Authz(w) == [Authz(w)[0]];
  }

  // A skeleton is its deciding front and the projection.
  lemma SkeletonRuns(w: Wiring, r: Request)
    ensures Run(Skeleton(w), r) ==
      match Decided(w, Identified(w, r)) case Stop(a) => Stop(a) case Pass(at) => Act(Last(w), at)
  {
    hide Run, Slot, Authz, Decided, Identified, Act;
    assert Skeleton(w) == Front(w) + [Last(w)];
    RunConcat(Front(w), [Last(w)], r);
    FrontDecides(w, r);
    if Run(Front(w), r).Pass? { RunOne(Last(w), Run(Front(w), r).request); }
  }

  /* ---- the whole route ---- */

  predicate ForwardsIdentity(backends: seq<ForwardOptions>) { exists i :: 0 <= i < |backends| && backends[i].identity }

  method HandlerForwardsIdentity(backends: seq<ForwardOptions>) returns (r: bool)
    ensures r == ForwardsIdentity(backends)
  {
    for i := 0 to |backends|
      invariant forall j :: 0 <= j < i ==> !backends[j].identity
    {
      if backends[i].identity {
        return true;
      }
    }
    return false;
  }

  datatype BuildError = ForwardIdentityWithoutIssuer

  // The middlewares of a route, or the refusal of its configuration.
  function Build(w: Wiring): Result<seq<Gate>, BuildError> {
    if !ForwardsIdentity(w.backends) then Ok(Skeleton(w))
    else if w.issue.None? then Err(ForwardIdentityWithoutIssuer)
    else Ok(Skeleton(w) + [IssueAssertion(w.issue.value.mint, w.issue.value.header)])
  }

  // Closest to the terminal, on routes that forward identity.
  function Minting(w: Wiring): seq<Gate> {
    if ForwardsIdentity(w.backends) && w.issue.Some?
    then [IssueAssertion(w.issue.value.mint, w.issue.value.header)] else []
  }

  lemma BuiltIsSkeletonAndMinting(w: Wiring)
    ensures Build(w).Ok? <==> !ForwardsIdentity(w.backends) || w.issue.Some?
    ensures Build(w).Ok? ==> Build(w).value == Skeleton(w) + Minting(w)
  {
    hide Skeleton;
    if !ForwardsIdentity(w.backends) { assert Skeleton(w) + [] == Skeleton(w); }
  }

  /* ---- the three answers of a route that needs a login ---- */

  /**
    A request without a principal on a route that requires one: a navigation of
    an app route is sent to the login, anything else of an app route gets 401,
    and a service answers 401 with a challenge that says whether a token was bad.
   */
  lemma UnauthenticatedAnswers(w: Wiring, r: Request)
    requires AuthActive(w) && w.required && Identified(w, r).principal.None?
    ensures var at, out := Identified(w, r), Run(Skeleton(w), r);
            var mode := Get(at.header, "Sec-Fetch-Mode");
      && (!w.isService && (mode == "" || mode == "navigate") ==> out == Stop(Response(302, w.loginURL(r.uri), "", "")))
      && (!w.isService && mode != "" && mode != "navigate" ==> out == Stop(Response(401, "", "", "unauthorized")))
      && (w.isService ==>
            out == Stop(Response(401, "", if at.bearerError then "Bearer error=\"invalid_token\"" else "Bearer",
              "unauthorized")))
  {
    hide Run, Skeleton, Act, Slot, Get;
    SkeletonRuns(w, r);
    SlotPasses(w, r);
  }

  // On an app route only the session cookie counts, and no header is touched on the way to the decision.
  lemma AppRoutesUseTheCookie(w: Wiring, r: Request)
    requires AuthActive(w) && !w.isService
    ensures Identified(w, r) ==
      match SessionOf(w.session, r.header) case Some(p) => r.(principal := Some(p)) case None => r
  {
    hide SessionOf;
    assert Slot(w) == [SessionGate(w.session)];
    RunOne(SessionGate(w.session), r);
  }
}
