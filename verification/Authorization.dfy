/**
  Authorization end to end: the policies a route resolves to (route/route.go) are
  looked up when the gateway is built (app/build.go) and judged on every request
  (authz/gate.go).  One denial is enough.
 */
module Authorization {
  import opened Wrappers
  import opened Policies
  import opened RouteResolution
  import Projection
  import Pipeline
  import SignIn

  // Subject, groups and claims are there, if empty, for a request without a principal.
  function InputOf(rt: Route, r: Pipeline.Request): Input {
    match r.principal
    case Some(p) => Input(p.subject, p.groups, p.passport, r.verb, r.path, rt.pattern, rt.name, rt.labels)
    case None => Input("", [], map[], r.verb, r.path, rt.pattern, rt.name, rt.labels)
  }

  // What a policy is told of the request, its route and its principal; nothing is left out for an unknown one.
  lemma InputTellsTheRequest(rt: Route, r: Pipeline.Request)
    ensures var input := InputOf(rt, r);
      && input.verb == r.verb && input.path == r.path
      && input.pattern == rt.pattern && input.routeName == rt.name && input.labels == rt.labels
      && (r.principal.None? ==> input.subject == "" && input.groups == [] && input.claims == map[])
      && (r.principal.Some? ==>
            && input.subject == r.principal.value.subject && input.groups == r.principal.value.groups
            && input.claims == r.principal.value.passport)
  {
  }

  const FORBIDDEN := Pipeline.Response(403, "", "", "forbidden")

  function SeeOther(location: string): Pipeline.Response { Pipeline.Response(302, location, "", "") }

  // What a denial answers: a redirect where there is one, but never for an engine that failed.
  function Denial(d: Decision, denyRedirect: string): Pipeline.Response {
    if denyRedirect != "" && !d.failed then SeeOther(denyRedirect) else FORBIDDEN
  }

  // The answer of the first policy that denies; None lets the request through.
  function Verdict(
    pols: seq<Policy>, denyRedirect: string, p: Option<Projection.Principal>, input: Input): Option<Pipeline.Response>
  {
    if pols == [] then None
    else if Decide(pols[0], p, input).deny then Some(Denial(Decide(pols[0], p, input), denyRedirect))
    else Verdict(pols[1..], denyRedirect, p, input)
  }

  method Judge(pols: seq<Policy>, denyRedirect: string, p: Option<Projection.Principal>, input: Input)
    returns (answer: Option<Pipeline.Response>)
    ensures answer == Verdict(pols, denyRedirect, p, input)
  {
    assert pols[0..] == pols;
    for i := 0 to |pols|
      invariant Verdict(pols, denyRedirect, p, input) == Verdict(pols[i..], denyRedirect, p, input)
    {
      assert pols[i..][1..] == pols[i + 1..];
      var d := Decide(pols[i], p, input);
      if !d.deny {
        continue;
      }
      if denyRedirect != "" && !d.failed {
        return Some(SeeOther(denyRedirect));
      }
      return Some(FORBIDDEN);
    }
    return None;
  }

  // Deny overrides: the gate lets a request through exactly when every policy permits it.
  lemma {:induction false} VerdictAllowsIff(
    pols: seq<Policy>, denyRedirect: string, p: Option<Projection.Principal>, input: Input)
    ensures Verdict(pols, denyRedirect, p, input).None? <==> forall i :: 0 <= i < |pols| ==> Permits(pols[i], p, input)
  {
    if pols != [] {
      DecideFailsClosed(pols[0], p, input);
      VerdictAllowsIff(pols[1..], denyRedirect, p, input);
      if Verdict(pols, denyRedirect, p, input).None? {
        forall i | 0 <= i < |pols| ensures Permits(pols[i], p, input) {
          if i > 0 { assert pols[i] == pols[1..][i - 1]; }
        }
      }
    }
  }

  /* ---- building the gate ---- */

  datatype BuildError = Unresolved(why: ResolveError) | UnknownPolicy(name: string)

  datatype Guard = Guard(policies: seq<Policy>, denyRedirect: string)

  type Table = map<string, Policy>

  function LookUp(names: seq<string>, table: Table): Result<seq<Policy>, BuildError> {
    if names == [] then Ok([])
    else
      var n := names[|names| - 1];
      var front := LookUp(names[..|names| - 1], table);
      if front.Err? then front else if n in table then Ok(front.value + [table[n]]) else Err(UnknownPolicy(n))
  }

  // Only app routes redirect a denial.
  function DenyRedirect(res: Resolved): string {
    if res.onDeny.Some? && res.typ == "app" then res.onDeny.value else ""
  }

  function GuardFor(res: Resolved, table: Table): Result<Guard, BuildError> {
    match LookUp(res.authorize, table)
    case Err(e) => Err(e)
    case Ok(pols) => Ok(Guard(pols, DenyRedirect(res)))
  }

  function GuardOf(rt: Route, groups: seq<RouteGroup>, table: Table): Result<Guard, BuildError> {
    match Resolution(rt, groups)
    case Err(e) => Err(Unresolved(e))
    case Ok(res) => GuardFor(res, table)
  }

  method LookUpPolicies(names: seq<string>, table: Table) returns (r: Result<seq<Policy>, BuildError>)
    ensures r == LookUp(names, table)
  {
    var pols: seq<Policy> := [];
    for i := 0 to |names|
      invariant LookUp(names[..i], table) == Ok(pols)
    {
      assert names[..i + 1][..i] == names[..i];
      if names[i] !in table {
        LookUpStops(names, table, i);
        return Err(UnknownPolicy(names[i]));
      }
      pols := pols + [table[names[i]]];
    }
    assert names[..|names|] == names;
    return Ok(pols);
  }

  method BuildGuard(resolved: Resolved, table: Table) returns (r: Result<Guard, BuildError>)
    ensures r == GuardFor(resolved, table)
  {
    hide LookUp;
    var pols := LookUpPolicies(resolved.authorize, table);
    if pols.Err? {
      return Err(pols.error);
    }
    var denyRedirect := "";
    if resolved.onDeny.Some? && resolved.typ == "app" {
      denyRedirect := resolved.onDeny.value;
    }
    r := Ok(Guard(pols.value, denyRedirect));
  }

  lemma {:induction false} LookUpStops(names: seq<string>, table: Table, i: nat)
    requires i < |names| && LookUp(names[..i], table).Ok? && names[i] !in table
    ensures LookUp(names, table) == Err(UnknownPolicy(names[i]))
  {
    var front := names[..|names| - 1];
    if i == |front| {
      assert front == names[..i];
    } else {
      assert front[..i] == names[..i];
      LookUpStops(front, table, i);
    }
  }

  lemma {:induction false} LookUpFinds(names: seq<string>, table: Table)
    ensures LookUp(names, table).Ok? <==> forall n :: n in names ==> n in table
    ensures LookUp(names, table).Ok? ==>
      var pols := LookUp(names, table).value;
      |pols| == |names| && forall i :: 0 <= i < |names| ==> pols[i] == table[names[i]]
  {
    if names != [] {
      var front := names[..|names| - 1];
      LookUpFinds(front, table);
      assert names == front + [names[|names| - 1]];
    }
  }

  // A gateway is built exactly when the route resolves and every policy asked for exists.
  lemma BuiltIff(rt: Route, groups: seq<RouteGroup>, table: Table)
    ensures GuardOf(rt, groups, table).Ok? <==>
      Resolution(rt, groups).Ok? && forall n :: Asked(rt, groups, n) ==> n in table
  {
    hide Asked;
    AuthorizeIsTheUnion(rt, groups);
    LookUpFinds(Authorize(rt, groups), table);
  }

  /* ---- the gate in the pipeline ---- */

  type Deny = (Option<Projection.Principal>, string, string) -> Option<Pipeline.Response>

  // What the gate consults on a request; nothing without policies.
  function DenyOf(rt: Route, guard: Guard): Option<Deny> {
    if guard.policies == [] then None
    else Some((p: Option<Projection.Principal>, verb: string, path: string) =>
      Verdict(guard.policies, guard.denyRedirect, p, InputFor(rt, p, verb, path)))
  }

  // Without policies the slot stays reserved.
  function GateOf(rt: Route, guard: Guard): Pipeline.Gate {
    match DenyOf(rt, guard) case None => Pipeline.Reserved case Some(deny) => Pipeline.AuthzGate(deny)
  }

  function InputFor(rt: Route, p: Option<Projection.Principal>, verb: string, path: string): Input {
    InputOf(rt, Pipeline.Request(map[], p, false, "", verb, path, "", "", ""))
  }

  function Gated(rt: Route, guard: Guard, r: Pipeline.Request): Pipeline.Outcome { Pipeline.Act(GateOf(rt, guard), r) }

  // The request itself goes through unchanged, or the verdict is the answer.
  lemma GatedIsTheVerdict(rt: Route, guard: Guard, r: Pipeline.Request)
    ensures Gated(rt, guard, r) ==
      match Verdict(guard.policies, guard.denyRedirect, r.principal, InputOf(rt, r))
      case None => Pipeline.Pass(r)
      case Some(a) => Pipeline.Stop(a)
  {
    hide Verdict;
    assert InputFor(rt, r.principal, r.verb, r.path) == InputOf(rt, r);
    if guard.policies == [] { NoPolicies(guard.denyRedirect, r.principal, InputOf(rt, r)); }
  }

  lemma NoPolicies(denyRedirect: string, p: Option<Projection.Principal>, input: Input)
    ensures Verdict([], denyRedirect, p, input) == None
  {
  }

  // What the route and its groups demand of a request.
  predicate Met(table: Table, n: string, rt: Route, r: Pipeline.Request) {
    n in table && Permits(table[n], r.principal, InputOf(rt, r))
  }

  ghost predicate Demands(rt: Route, groups: seq<RouteGroup>, table: Table, r: Pipeline.Request) {
    forall n :: Asked(rt, groups, n) ==> Met(table, n, rt, r)
  }

  // The gate allows exactly when every policy named by the route or by a matching group is satisfied.
  lemma AllowsIffEveryPolicyPermits(rt: Route, groups: seq<RouteGroup>, table: Table, r: Pipeline.Request)
    requires GuardOf(rt, groups, table).Ok?
    ensures Gated(rt, GuardOf(rt, groups, table).value, r).Pass? <==> Demands(rt, groups, table, r)
  {
    hide Asked, Permits, Gated, Verdict, InputOf, LookUp, Authorize;
    var guard, names := GuardOf(rt, groups, table).value, Authorize(rt, groups);
    GatedIsTheVerdict(rt, guard, r);
    VerdictAllowsIff(guard.policies, guard.denyRedirect, r.principal, InputOf(rt, r));
    AuthorizeIsTheUnion(rt, groups);
    LookUpFinds(names, table);
    if Demands(rt, groups, table, r) {
      forall i | 0 <= i < |names| ensures Permits(guard.policies[i], r.principal, InputOf(rt, r)) {
        assert names[i] in names && Met(table, names[i], rt, r);
      }
    }
    if Gated(rt, guard, r).Pass? {
      forall n | Asked(rt, groups, n) ensures Met(table, n, rt, r) {
        var i :| 0 <= i < |names| && names[i] == n;
      }
    }
  }

  predicate Among(groups: seq<RouteGroup>, more: seq<RouteGroup>) { forall g :: g in groups ==> g in more }

  lemma MoreGroupsAskMore(rt: Route, groups: seq<RouteGroup>, more: seq<RouteGroup>, n: string)
    requires Among(groups, more) && Asked(rt, groups, n)
    ensures Asked(rt, more, n)
  {
    if n !in rt.access.authorize {
      var g :| g in groups && Applies(g, rt) && n in g.access.authorize;
      assert g in more;
    }
  }

  // Adding groups, anywhere and in any number, never turns a denial into an admission.
  lemma MoreGroupsNeverAdmitMore(
    rt: Route, groups: seq<RouteGroup>, more: seq<RouteGroup>, table: Table, r: Pipeline.Request)
    requires Among(groups, more)
    requires GuardOf(rt, groups, table).Ok? && GuardOf(rt, more, table).Ok?
    requires Gated(rt, GuardOf(rt, groups, table).value, r).Stop?
    ensures Gated(rt, GuardOf(rt, more, table).value, r).Stop?
  {
    hide Asked, Met, Gated, GuardOf;
    AllowsIffEveryPolicyPermits(rt, groups, table, r);
    AllowsIffEveryPolicyPermits(rt, more, table, r);
    var n :| Asked(rt, groups, n) && !Met(table, n, rt, r);
    MoreGroupsAskMore(rt, groups, more, n);
  }

  // The order of the groups decides settings, never whether a request is let through.
  lemma OrderNeverChangesTheVerdict(
    rt: Route, groups: seq<RouteGroup>, permuted: seq<RouteGroup>, table: Table, r: Pipeline.Request)
    requires multiset(groups) == multiset(permuted)
    requires GuardOf(rt, groups, table).Ok? && GuardOf(rt, permuted, table).Ok?
    ensures Gated(rt, GuardOf(rt, groups, table).value, r).Pass? <==>
      Gated(rt, GuardOf(rt, permuted, table).value, r).Pass?
  {
    hide Gated, GuardOf;
    forall g ensures g in groups <==> g in permuted { assert g in groups <==> g in multiset(groups); }
    if Gated(rt, GuardOf(rt, groups, table).value, r).Stop? {
      MoreGroupsNeverAdmitMore(rt, groups, permuted, table, r);
    }
    if Gated(rt, GuardOf(rt, permuted, table).value, r).Stop? {
      MoreGroupsNeverAdmitMore(rt, permuted, groups, table, r);
    }
  }

  // A denial never leaves the origin, a service never redirects, and nothing but these two answers is given.
  lemma {:induction false} DenialAnswers(rt: Route, groups: seq<RouteGroup>, table: Table, r: Pipeline.Request)
    requires GuardOf(rt, groups, table).Ok? && Gated(rt, GuardOf(rt, groups, table).value, r).Stop?
    ensures var a := Gated(rt, GuardOf(rt, groups, table).value, r).response;
      a == FORBIDDEN
      || (EffectiveType(rt, groups) == "app" && a == SeeOther(a.location) && SignIn.LocalPath(a.location))
  {
    hide Verdict, InputOf, EffectiveType, EffectiveAuth, Authorize, LookUp, LastSet, SignIn.LocalPath, Gated;
    var guard := GuardOf(rt, groups, table).value;
    GatedIsTheVerdict(rt, guard, r);
    var i := FirstDenialAnswers(guard.policies, guard.denyRedirect, r.principal, InputOf(rt, r));
  }

  // pols[i] is the first policy that does not permit the request.
  predicate FirstDenial(pols: seq<Policy>, i: int, p: Option<Projection.Principal>, input: Input) {
    0 <= i < |pols| && !Permits(pols[i], p, input) && forall j :: 0 <= j < i ==> Permits(pols[j], p, input)
  }

  // The first policy that does not permit answers: with the redirect where there is one, but 403 if its engine failed.
  lemma {:induction false} FirstDenialAnswers(
    pols: seq<Policy>, denyRedirect: string, p: Option<Projection.Principal>, input: Input)
    returns (i: int)
    requires Verdict(pols, denyRedirect, p, input).Some?
    ensures FirstDenial(pols, i, p, input)
    ensures Verdict(pols, denyRedirect, p, input).value ==
      if denyRedirect != "" && !Decide(pols[i], p, input).failed then SeeOther(denyRedirect) else FORBIDDEN
  {
    hide Permits, Decide;
    DecideFailsClosed(pols[0], p, input);
    i := 0;
    if !Decide(pols[0], p, input).deny {
      var k := FirstDenialAnswers(pols[1..], denyRedirect, p, input);
      i := k + 1;
      forall j | 0 < j < i ensures Permits(pols[j], p, input) { assert pols[j] == pols[1..][j - 1]; }
    }
  }

  /**
    What a denied request is answered, exactly: on an app route with a deny
    redirect in force a 302 there, unless the policy that denied first failed to
    evaluate; a 403 in every other case.
   */
  lemma DenialIs(rt: Route, groups: seq<RouteGroup>, table: Table, r: Pipeline.Request) returns (i: int)
    requires GuardOf(rt, groups, table).Ok? && Gated(rt, GuardOf(rt, groups, table).value, r).Stop?
    ensures var pols, res := GuardOf(rt, groups, table).value.policies, Resolution(rt, groups).value;
      && FirstDenial(pols, i, r.principal, InputOf(rt, r))
      && Gated(rt, GuardOf(rt, groups, table).value, r).response ==
           if res.typ == "app" && res.onDeny.Some? && res.onDeny.value != ""
              && !Decide(pols[i], r.principal, InputOf(rt, r)).failed
           then Pipeline.Response(302, res.onDeny.value, "", "")
           else Pipeline.Response(403, "", "", "forbidden")
  {
    hide Verdict, InputOf, Resolution, LookUp, Gated, Decide, FirstDenial;
    var guard := GuardOf(rt, groups, table).value;
    GatedIsTheVerdict(rt, guard, r);
    i := FirstDenialAnswers(guard.policies, guard.denyRedirect, r.principal, InputOf(rt, r));
    FirstIsOne(guard.policies, i, r.principal, InputOf(rt, r));
  }

  lemma FirstIsOne(pols: seq<Policy>, i: int, p: Option<Projection.Principal>, input: Input)
    requires FirstDenial(pols, i, p, input)
    ensures 0 <= i < |pols|
  {
  }

  // Order can decide whether a route resolves at all, which is why both builds are premises above.
  lemma OrderCanBreakResolution(rt: Route, good: RouteGroup, bad: RouteGroup)
    requires rt.typ == "" && Applies(good, rt) && Applies(bad, rt) && good.typ == "app" && bad.typ == "both"
    requires rt.access.auth == "public" && rt.access.onDeny == Some("")
    ensures multiset([bad, good]) == multiset([good, bad])
    ensures Resolution(rt, [bad, good]).Ok? && Resolution(rt, [good, bad]) == Err(InvalidType)
  {
    assert [bad, good][..1] == [bad] && [good, bad][..1] == [good];
    assert ToLower("app") == "app" && ToLower("both") == "both" && ToLower("public") == "public";
  }
}
