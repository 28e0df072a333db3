/**
  The per-route loop of app/build.go: a route's configuration is resolved, its
  policies are looked up and its gates are put in order; and what a request must
  bring to reach the terminal handler of a route that was built so.
 */
module Gateways {
  import opened Wrappers
  import opened Pipeline
  import opened Authorization
  import Headers
  import Projection
  import RouteResolution

  // What the gateway as a whole configures for all its routes.
  datatype Gateway = Gateway(
    session: Option<SessionReader>, bearer: Option<string -> Option<Identity>>, accept: Option<Accept>,
    issue: Option<Issue>, groupsAs: string, order: Projection.Principal -> seq<string>, loginURL: string -> string)

  // A route with the forward options of its terminal handler's hops.
  datatype RouteConfig = RouteConfig(route: RouteResolution.Route, hops: seq<ForwardOptions>)

  datatype Refusal =
    | DuplicateMatch(pattern: string)
    | Guarding(guard: Authorization.BuildError)
    | Forwarding(hop: Pipeline.BuildError)

  function WiringOf(gw: Gateway, c: RouteConfig, res: RouteResolution.Resolved, guard: Guard): Wiring {
    Wiring(
      res.typ == "service", res.auth == "required",
      if res.projection.Some? then res.projection.value.session else None, gw.groupsAs, gw.order,
      gw.session, gw.bearer, gw.accept, gw.issue, DenyOf(c.route, guard), gw.loginURL, c.hops)
  }

  function Wired(
    gw: Gateway, groups: seq<RouteResolution.RouteGroup>, table: Table, c: RouteConfig): Result<Wiring, Refusal>
  {
    match RouteResolution.Resolution(c.route, groups)
    case Err(e) => Err(Guarding(Unresolved(e)))
    case Ok(res) =>
      match GuardFor(res, table)
      case Err(e) => Err(Guarding(e))
      case Ok(guard) => Ok(WiringOf(gw, c, res, guard))
  }

  // The middlewares of a route, outermost first, or why there are none.
  function ChainOf(
    gw: Gateway, groups: seq<RouteResolution.RouteGroup>, table: Table, c: RouteConfig): Result<seq<Gate>, Refusal>
  {
    match Wired(gw, groups, table, c)
    case Err(e) => Err(e)
    case Ok(w) =>
      match Build(w)
      case Err(e) => Err(Forwarding(e))
      case Ok(gates) => Ok(gates)
  }

  /* ---- the loop ---- */

  // The slot, the gates around it, and the issuer behind everything.
  method BuildRoute(gw: Gateway, groups: seq<RouteResolution.RouteGroup>, table: Table, c: RouteConfig)
    returns (r: Result<seq<Gate>, Refusal>)
    ensures r == ChainOf(gw, groups, table, c)
  {
    hide RouteResolution.Resolution, LookUp, GuardFor, DenyOf, ForwardsIdentity, Skeleton;
    var resolution := RouteResolution.Resolve(c.route, groups);
    if resolution.Err? {
      return Err(Guarding(Unresolved(resolution.error)));
    }
    var resolved := resolution.value;
    var guard := BuildGuard(resolved, table);
    if guard.Err? {
      return Err(Guarding(guard.error));
    }
    TypeIsOneOfTwo(c.route, groups);
    var mws := BuildGates(gw, c, resolved, guard.value);
    var forwards := HandlerForwardsIdentity(c.hops);
    if forwards {
      if gw.issue.None? {
        return Err(Forwarding(ForwardIdentityWithoutIssuer));
      }
      mws := mws + [IssueAssertion(gw.issue.value.mint, gw.issue.value.header)];
    }
    return Ok(mws);
  }

  // Slots without a gate stay reserved; the three before them are recover, request-id and access-log.
  method BuildGates(gw: Gateway, c: RouteConfig, resolved: RouteResolution.Resolved, guard: Guard)
    returns (mws: seq<Gate>)
    requires resolved.typ in {"app", "service"}
    ensures mws == Skeleton(WiringOf(gw, c, resolved, guard))
  {
    hide DenyOf, Slot;
    var session, authGate, projection := [Reserved], Reserved, Reserved;
    if gw.session.Some? || gw.bearer.Some? || gw.accept.Some? {
      session := BuildSlot(gw, c, resolved, guard);
      authGate := AuthGate(resolved.auth == "required", resolved.typ == "app", gw.loginURL);
      projection := ProjectionGate(
        if resolved.projection.Some? then resolved.projection.value.session else None, gw.groupsAs, gw.order);
    }
    var deny := DenyOf(c.route, guard);
    var authz := if deny.Some? then AuthzGate(deny.value) else Reserved;
    mws := [Reserved, Reserved, Reserved] + session + [authGate, authz, projection];
  }

  method BuildSlot(gw: Gateway, c: RouteConfig, resolved: RouteResolution.Resolved, guard: Guard)
    returns (slot: seq<Gate>)
    ensures slot == Slot(WiringOf(gw, c, resolved, guard))
  {
    hide DenyOf;
    slot := [SessionGate(gw.session)];
    if resolved.typ == "service" {
      if gw.bearer.Some? {
        slot := slot + [BearerGate(gw.bearer.value)];
      }
      if gw.accept.Some? {
        slot := slot + [AssertionGate(gw.accept.value.verify, gw.accept.value.header, gw.accept.value.requireBearer)];
      }
    }
  }

  lemma TypeIsOneOfTwo(rt: RouteResolution.Route, groups: seq<RouteResolution.RouteGroup>)
    requires RouteResolution.Resolution(rt, groups).Ok?
    ensures RouteResolution.Resolution(rt, groups).value.typ in {"app", "service"}
  {
    hide RouteResolution.EffectiveType, RouteResolution.EffectiveAuth, RouteResolution.Authorize,
      RouteResolution.LastSet;
  }

  predicate Repeats(cs: seq<RouteConfig>, i: nat)
    requires i < |cs|
  {
    exists j :: 0 <= j < i && cs[j].route.pattern == cs[i].route.pattern
  }

  // Why the i-th route stops the build, once those before it were built.
  function Objection(
    gw: Gateway, groups: seq<RouteResolution.RouteGroup>, table: Table, cs: seq<RouteConfig>, i: nat): Option<Refusal>
    requires i < |cs|
  {
    if Repeats(cs, i) then Some(DuplicateMatch(cs[i].route.pattern))
    else match ChainOf(gw, groups, table, cs[i]) case Err(e) => Some(e) case Ok(_) => None
  }

  // A pattern that is taken is refused first; then the route must resolve, know its policies and its issuer.
  lemma RefusalIs(gw: Gateway, groups: seq<RouteResolution.RouteGroup>, table: Table, cs: seq<RouteConfig>, i: nat)
    requires i < |cs|
    ensures var c, o := cs[i], Objection(gw, groups, table, cs, i);
      if exists j :: 0 <= j < i && cs[j].route.pattern == c.route.pattern
      then o == Some(DuplicateMatch(c.route.pattern))
      else match GuardOf(c.route, groups, table)
           case Err(e) => o == Some(Guarding(e))
           case Ok(_) =>
             if ForwardsIdentity(c.hops) && gw.issue.None?
             then o == Some(Forwarding(ForwardIdentityWithoutIssuer)) else o.None?
  {
    hide RouteResolution.Resolution, GuardFor, Skeleton, ForwardsIdentity;
  }

  ghost predicate Mounted(
    gw: Gateway, groups: seq<RouteResolution.RouteGroup>, table: Table, cs: seq<RouteConfig>, n: nat,
    mux: map<string, seq<Gate>>)
    requires n <= |cs|
  {
    && (forall i :: 0 <= i < n ==>
          && Objection(gw, groups, table, cs, i).None?
          && cs[i].route.pattern in mux && Ok(mux[cs[i].route.pattern]) == ChainOf(gw, groups, table, cs[i]))
    && (forall p :: p in mux ==> exists i :: 0 <= i < n && cs[i].route.pattern == p)
  }

  ghost predicate FirstObjection(
    gw: Gateway, groups: seq<RouteResolution.RouteGroup>, table: Table, cs: seq<RouteConfig>, i: nat, e: Refusal)
    requires i < |cs|
  {
    && Objection(gw, groups, table, cs, i) == Some(e)
    && forall j :: 0 <= j < i ==> Objection(gw, groups, table, cs, j).None?
  }

  // Every route is mounted with its own chain, or the first objection is the error.
  method BuildRoutes(gw: Gateway, groups: seq<RouteResolution.RouteGroup>, table: Table, cs: seq<RouteConfig>)
    returns (r: Result<map<string, seq<Gate>>, Refusal>)
    ensures r.Ok? ==> Mounted(gw, groups, table, cs, |cs|, r.value)
    ensures r.Err? ==> exists i :: 0 <= i < |cs| && FirstObjection(gw, groups, table, cs, i, r.error)
  {
    hide ChainOf;
    var mux: map<string, seq<Gate>> := map[];
    for i := 0 to |cs|
      invariant Mounted(gw, groups, table, cs, i, mux)
    {
      if cs[i].route.pattern in mux {
        assert FirstObjection(gw, groups, table, cs, i, DuplicateMatch(cs[i].route.pattern));
        return Err(DuplicateMatch(cs[i].route.pattern));
      }
      var chain := BuildRoute(gw, groups, table, cs[i]);
      if chain.Err? {
        assert FirstObjection(gw, groups, table, cs, i, chain.error);
        return Err(chain.error);
      }
      MountedGrows(gw, groups, table, cs, i, mux, chain.value);
      mux := mux[cs[i].route.pattern := chain.value];
    }
    return Ok(mux);
  }

  lemma MountedGrows(
    gw: Gateway, groups: seq<RouteResolution.RouteGroup>, table: Table, cs: seq<RouteConfig>, n: nat,
    mux: map<string, seq<Gate>>, chain: seq<Gate>)
    requires n < |cs| && Mounted(gw, groups, table, cs, n, mux) && cs[n].route.pattern !in mux
    requires ChainOf(gw, groups, table, cs[n]) == Ok(chain)
    ensures Mounted(gw, groups, table, cs, n + 1, mux[cs[n].route.pattern := chain])
  {
    hide ChainOf;
    var grown := mux[cs[n].route.pattern := chain];
    forall p | p in grown ensures exists i :: 0 <= i < n + 1 && cs[i].route.pattern == p {
      if p != cs[n].route.pattern {
        var i :| 0 <= i < n && cs[i].route.pattern == p;
      }
    }
  }

  /* ---- who reaches the terminal ---- */

  lemma MintingPasses(w: Wiring, at: Request)
    ensures Run(Minting(w), at).Pass? && Run(Minting(w), at).request.principal == at.principal
  {
    hide Run;
    if Minting(w) == [] { NoGates(at); } else { RunOne(Minting(w)[0], at); assert Minting(w) == [Minting(w)[0]]; }
  }

  lemma NoGates(at: Request)
    ensures Run([], at) == Pass(at)
  {
  }

  lemma LastPasses(w: Wiring, at: Request)
    ensures Act(Last(w), at).Pass? && Act(Last(w), at).request.principal == at.principal
  {
  }

  // A built chain lets through what its two deciding gates let through, with the principal they saw.
  lemma BuiltDecides(w: Wiring, r: Request)
    requires Build(w).Ok?
    ensures Run(Build(w).value, r).Pass? <==> Decided(w, Identified(w, r)).Pass?
    ensures Run(Build(w).value, r).Pass? ==> Run(Build(w).value, r).request.principal == Identified(w, r).principal
  {
    hide Run, Skeleton, Minting, Act, Identified, Build, Unauthenticated;
    BuiltIsSkeletonAndMinting(w);
    RunConcat(Skeleton(w), Minting(w), r);
    SkeletonRuns(w, r);
    LastPasses(w, Identified(w, r));
    if Run(Skeleton(w), r).Pass? { MintingPasses(w, Run(Skeleton(w), r).request); }
  }

  // The verdict of the gate, as the pipeline asks for it.
  lemma DenyIsTheGate(rt: RouteResolution.Route, guard: Guard, at: Request)
    ensures var deny := DenyOf(rt, guard);
      deny.Some? && deny.value(at.principal, at.verb, at.path).Some? <==> Gated(rt, guard, at).Stop?
  {
    hide Verdict, InputFor;
  }

  // What a built route is wired with: the gateway's own identity sources, and the settings it resolved to.
  lemma WiredAsConfigured(gw: Gateway, groups: seq<RouteResolution.RouteGroup>, table: Table, c: RouteConfig)
    requires Wired(gw, groups, table, c).Ok?
    ensures RouteResolution.Resolution(c.route, groups).Ok?
    ensures var w, res := Wired(gw, groups, table, c).value, RouteResolution.Resolution(c.route, groups).value;
      && (w.isService <==> RouteResolution.EffectiveType(c.route, groups) == "service")
      && (w.required <==> RouteResolution.EffectiveAuth(c.route, groups) == "required")
      && w.session == gw.session && w.bearer == gw.bearer && w.accept == gw.accept && w.issue == gw.issue
      && w.groupsAs == gw.groupsAs && w.order == gw.order && w.loginURL == gw.loginURL && w.backends == c.hops
      && w.sp == (if res.projection.Some? then res.projection.value.session else None)
      && (AuthActive(w) <==> gw.session.Some? || gw.bearer.Some? || gw.accept.Some?)
  {
    hide RouteResolution.EffectiveType, RouteResolution.EffectiveAuth, RouteResolution.Authorize,
      RouteResolution.LastSet;
    hide LookUp, DenyOf;
  }

  // The gateway has some way to find out who is asking.
  predicate KnowsPeople(gw: Gateway) { gw.session.Some? || gw.bearer.Some? || gw.accept.Some? }

  /**
    Through the whole chain of every route that builds: a request reaches the
    terminal exactly when a principal was resolved if the route requires one and
    the gateway has any source of identity, and every policy that the route or a
    matching group asks for permits that principal.  Without any source of
    identity "required" asks for nothing.
   */
  lemma TerminalReachedIff(
    gw: Gateway, groups: seq<RouteResolution.RouteGroup>, table: Table, c: RouteConfig, r: Request)
    requires ChainOf(gw, groups, table, c).Ok?
    ensures var w, gates := Wired(gw, groups, table, c).value, ChainOf(gw, groups, table, c).value;
            var at := Identified(w, r);
      && (Run(gates, r).Pass? <==>
            && (KnowsPeople(gw) && RouteResolution.EffectiveAuth(c.route, groups) == "required" ==> at.principal.Some?)
            && Demands(c.route, groups, table, at))
      && (Run(gates, r).Pass? ==> Run(gates, r).request.principal == at.principal)
  {
    hide Run, Build, Identified, DenyOf, Gated, LookUp, Demands, Unauthenticated,
      RouteResolution.EffectiveType, RouteResolution.EffectiveAuth, RouteResolution.Authorize, RouteResolution.LastSet;
    var w := Wired(gw, groups, table, c).value;
    var guard := GuardOf(c.route, groups, table).value;
    var at := Identified(w, r);
    WiredAsConfigured(gw, groups, table, c);
    BuiltDecides(w, r);
    DenyIsTheGate(c.route, guard, at);
    AllowsIffEveryPolicyPermits(c.route, groups, table, at);
  }

  /**
    And one that a required route does not know is answered, through the whole
    chain, by its type: a navigation of an app is sent to the login, any other
    request of it gets 401, a service 401 with a challenge.
   */
  lemma UnknownIsAnswered(
    gw: Gateway, groups: seq<RouteResolution.RouteGroup>, table: Table, c: RouteConfig, r: Request)
    requires ChainOf(gw, groups, table, c).Ok? && KnowsPeople(gw)
    requires RouteResolution.EffectiveAuth(c.route, groups) == "required"
    requires Identified(Wired(gw, groups, table, c).value, r).principal.None?
    ensures var out, at := Run(ChainOf(gw, groups, table, c).value, r),
      Identified(Wired(gw, groups, table, c).value, r);
            var mode := Headers.Get(r.header, "Sec-Fetch-Mode");
      if RouteResolution.EffectiveType(c.route, groups) == "service" then
        out == Stop(Response(401, "", if at.bearerError then "Bearer error=\"invalid_token\"" else "Bearer",
          "unauthorized"))
      else if mode == "" || mode == "navigate" then out == Stop(Response(302, gw.loginURL(r.uri), "", ""))
      else out == Stop(Response(401, "", "", "unauthorized"))
  {
    hide Run, Build, DenyOf, LookUp, Skeleton, Minting, Identified, Headers.Get,
      RouteResolution.EffectiveType, RouteResolution.EffectiveAuth, RouteResolution.Authorize, RouteResolution.LastSet;
    var w := Wired(gw, groups, table, c).value;
    WiredAsConfigured(gw, groups, table, c);
    BuiltIsSkeletonAndMinting(w);
    RunConcat(Skeleton(w), Minting(w), r);
    UnauthenticatedAnswers(w, r);
    if !w.isService { AppRoutesUseTheCookie(w, r); }
  }
}
