/**
  A route's effective settings (route/route.go): its own fields, over those of
  the matching route groups with the later group winning, over defaults inferred
  from its handler; and the policies it must satisfy, which add up instead.
 */
module RouteResolution {
  import opened Wrappers
  import opened Selectors
  import Projection
  import Headers
  import Http
  import SignIn

  datatype ProjectionConfig = ProjectionConfig(session: Option<Projection.SessionProjection>)

  // An empty string is a field left out; onDeny is its redirect.
  datatype Access = Access(
    auth: string, projection: Option<ProjectionConfig>, authorize: seq<string>, onDeny: Option<string>)

  datatype Route = Route(
    name: string, pattern: string, labels: Labels, typ: string, handlerType: string, access: Access)

  datatype RouteGroup = RouteGroup(typ: string, selector: Selector, access: Access)

  datatype Resolved = Resolved(
    typ: string, auth: string, projection: Option<ProjectionConfig>, authorize: seq<string>, onDeny: Option<string>)

  datatype ResolveError = InvalidType | InvalidAuth | CrossOriginRedirect

  /* ---- settings: the later matching group wins ---- */

  predicate Applies(g: RouteGroup, rt: Route) { Matches(g.selector, rt.labels) }

  function NonEmpty(s: string): Option<string> { if s == "" then None else Some(s) }

  function TypeOf(g: RouteGroup): Option<string> { NonEmpty(g.typ) }
  function AuthOf(g: RouteGroup): Option<string> { NonEmpty(g.access.auth) }
  function ProjectionOf(g: RouteGroup): Option<ProjectionConfig> { g.access.projection }
  function OnDenyOf(g: RouteGroup): Option<string> { g.access.onDeny }

  function LastSet<T>(rt: Route, groups: seq<RouteGroup>, pick: RouteGroup -> Option<T>): Option<T> {
    if groups == [] then None
    else
      var g := groups[|groups| - 1];
      if Applies(g, rt) && pick(g).Some? then pick(g) else LastSet(rt, groups[..|groups| - 1], pick)
  }

  predicate Sets<T>(rt: Route, g: RouteGroup, pick: RouteGroup -> Option<T>) { Applies(g, rt) && pick(g).Some? }

  // The setting of groups[i] is the one in force: no later matching group has one.
  predicate InForce<T>(rt: Route, groups: seq<RouteGroup>, pick: RouteGroup -> Option<T>, i: int) {
    0 <= i < |groups| && Sets(rt, groups[i], pick) && forall j :: i < j < |groups| ==> !Sets(rt, groups[j], pick)
  }

  // The setting is that of the last matching group that has one, and there is none when no such group exists.
  lemma {:induction false} LaterGroupWins<T>(rt: Route, groups: seq<RouteGroup>, pick: RouteGroup -> Option<T>)
    returns (i: int)
    ensures LastSet(rt, groups, pick).Some? ==>
      InForce(rt, groups, pick, i) && LastSet(rt, groups, pick) == pick(groups[i])
    ensures LastSet(rt, groups, pick).None? ==> forall j :: 0 <= j < |groups| ==> !Sets(rt, groups[j], pick)
  {
    hide Applies;
    i := |groups| - 1;
    if groups != [] && !Sets(rt, groups[i], pick) {
      i := LaterGroupWins(rt, groups[..|groups| - 1], pick);
    }
  }

  lemma LastSetStep<T>(rt: Route, groups: seq<RouteGroup>, i: nat, pick: RouteGroup -> Option<T>)
    requires i < |groups|
    ensures LastSet(rt, groups[..i + 1], pick) ==
      if Sets(rt, groups[i], pick) then pick(groups[i]) else LastSet(rt, groups[..i], pick)
  {
    assert groups[..i + 1][..i] == groups[..i];
  }

  /* ---- policies: they add up ---- */

  // First appearances, in order; the empty name is no name.
  function Distinct(names: seq<string>): seq<string> {
    if names == [] then []
    else
      var d, n := Distinct(names[..|names| - 1]), names[|names| - 1];
      if n == "" || n in d then d else d + [n]
  }

  function GroupNames(rt: Route, groups: seq<RouteGroup>): seq<string> {
    if groups == [] then []
    else
      var g := groups[|groups| - 1];
      GroupNames(rt, groups[..|groups| - 1]) + if Applies(g, rt) then g.access.authorize else []
  }

  function Authorize(rt: Route, groups: seq<RouteGroup>): seq<string> {
    Distinct(rt.access.authorize + GroupNames(rt, groups))
  }

  predicate NoDuplicates(s: seq<string>) { forall i, j :: 0 <= i < j < |s| ==> s[i] != s[j] }

  predicate NamedByGroup(rt: Route, groups: seq<RouteGroup>, n: string) {
    exists g :: g in groups && Applies(g, rt) && n in g.access.authorize
  }

  // The route, or a group that matches it, asks for policy n.
  predicate Asked(rt: Route, groups: seq<RouteGroup>, n: string) {
    n != "" && (n in rt.access.authorize || NamedByGroup(rt, groups, n))
  }

  lemma {:induction false} DistinctIsASet(names: seq<string>)
    ensures NoDuplicates(Distinct(names))
    ensures forall n :: n in Distinct(names) <==> n != "" && n in names
  {
    if names != [] {
      var front := names[..|names| - 1];
      DistinctIsASet(front);
      assert names == front + [names[|names| - 1]];
    }
  }

  lemma {:induction false} GroupNamesAreNamed(rt: Route, groups: seq<RouteGroup>, n: string)
    ensures n in GroupNames(rt, groups) <==> NamedByGroup(rt, groups, n)
  {
    if groups != [] {
      var front, g := groups[..|groups| - 1], groups[|groups| - 1];
      GroupNamesAreNamed(rt, front, n);
      assert groups == front + [g];
      if NamedByGroup(rt, front, n) {
        var f :| f in front && Applies(f, rt) && n in f.access.authorize;
        assert f in groups;
      }
      if Applies(g, rt) && n in g.access.authorize { assert g in groups; }
    }
  }

  // The authorize list is the union of what the route and its groups ask for, each name once.
  lemma AuthorizeIsTheUnion(rt: Route, groups: seq<RouteGroup>)
    ensures NoDuplicates(Authorize(rt, groups))
    ensures forall n :: n in Authorize(rt, groups) <==> Asked(rt, groups, n)
  {
    DistinctIsASet(rt.access.authorize + GroupNames(rt, groups));
    forall n ensures n in Authorize(rt, groups) <==> Asked(rt, groups, n) {
      GroupNamesAreNamed(rt, groups, n);
    }
  }

  predicate OccursBefore(names: seq<string>, n: string, q: int) {
    exists p :: 0 <= p < q && p < |names| && names[p] == n
  }

  // Names are kept in the order in which they are first asked for: the route's own, then the groups' in document order.
  lemma {:induction false} DistinctKeepsOrder(names: seq<string>, i: nat, j: nat, q: nat)
    requires i < j < |Distinct(names)| && q < |names| && names[q] == Distinct(names)[j]
    ensures OccursBefore(names, Distinct(names)[i], q)
  {
    var front, n := names[..|names| - 1], names[|names| - 1];
    var d, kept := Distinct(names), Distinct(front);
    DistinctIsASet(front);
    DistinctIsASet(names);
    assert i < |kept| && d[i] == kept[i] && kept[i] in kept;
    assert kept[i] in front;
    var p :| 0 <= p < |front| && front[p] == kept[i];
    assert names[p] == d[i];
    if q < |front| {
      assert front[q] == d[j] && d[j] in kept;
      assert j < |kept|;
      DistinctKeepsOrder(front, i, j, q);
      var r :| 0 <= r < q && r < |front| && front[r] == kept[i];
      assert names[r] == d[i];
    }
  }

  // Which labels make a group's policies asked: a route with one of the listed values must satisfy them, no other.
  lemma LabelsDecideWhatIsAsked(rt: Route, g: RouteGroup, key: string, values: seq<string>, n: string)
    requires n != "" && n in g.access.authorize && n !in rt.access.authorize
    requires g.selector == Selector(map[], [Requirement(key, "In", values)])
    ensures n in Authorize(rt, [g]) <==> key in rt.labels && rt.labels[key] in values
  {
    hide Authorize;
    AuthorizeIsTheUnion(rt, [g]);
    OperatorsAreComplementary(key, values, rt.labels);
    assert Applies(g, rt) <==> Holds(g.selector.matchExpressions[0], rt.labels);
    assert g in [g];
  }

  /* ---- Resolve ---- */

  function FirstNonEmpty(a: string, b: string): string { if a != "" then a else b }

  function InferType(handlerType: string): string {
    if handlerType == "reverse-proxy" || handlerType == "api" then "service" else "app"
  }

  function ToLower(s: string): string { seq(|s|, i requires 0 <= i < |s| => Headers.LowerRune(s[i])) }

  function Or<T>(a: Option<T>, b: Option<T>): Option<T> { if a.Some? then a else b }

  function Else(a: Option<string>, default: string): string { if a.Some? then a.value else default }

  function EffectiveType(rt: Route, groups: seq<RouteGroup>): string {
    ToLower(Else(Or(NonEmpty(rt.typ), LastSet(rt, groups, TypeOf)), InferType(rt.handlerType)))
  }

  function EffectiveAuth(rt: Route, groups: seq<RouteGroup>): string {
    ToLower(Else(Or(NonEmpty(rt.access.auth), LastSet(rt, groups, AuthOf)),
                 if EffectiveType(rt, groups) == "service" then "required" else "public"))
  }

  function Resolution(rt: Route, groups: seq<RouteGroup>): Result<Resolved, ResolveError> {
    var typ, auth := EffectiveType(rt, groups), EffectiveAuth(rt, groups);
    var onDeny := Or(rt.access.onDeny, LastSet(rt, groups, OnDenyOf));
    if typ != "app" && typ != "service" then Err(InvalidType)
    else if auth != "required" && auth != "public" then Err(InvalidAuth)
    else if onDeny.Some? && onDeny.value != "" && !SignIn.LocalPath(onDeny.value) then Err(CrossOriginRedirect)
    else
      var projection := Or(rt.access.projection, LastSet(rt, groups, ProjectionOf));
      Ok(Resolved(typ, auth, projection, Authorize(rt, groups), onDeny))
  }

  lemma DistinctStep(before: seq<string>, names: seq<string>, i: nat)
    requires i < |names|
    ensures var d := Distinct(before + names[..i]);
      Distinct(before + names[..i + 1]) == if names[i] == "" || names[i] in d then d else d + [names[i]]
  {
    var all := before + names[..i + 1];
    assert all[..|all| - 1] == before + names[..i] && all[|all| - 1] == names[i];
  }

  // One walk over a list of names: the names seen are the names kept.
  method Add(names: seq<string>, seen: set<string>, authorize: seq<string>, ghost before: seq<string>)
    returns (seen': set<string>, authorize': seq<string>)
    requires authorize == Distinct(before) && forall n :: n in seen <==> n in authorize
    ensures authorize' == Distinct(before + names) && forall n :: n in seen' <==> n in authorize'
  {
    hide Distinct;
    seen', authorize' := seen, authorize;
    assert before + names[..0] == before;
    for i := 0 to |names|
      invariant authorize' == Distinct(before + names[..i])
      invariant forall n :: n in seen' <==> n in authorize'
    {
      DistinctStep(before, names, i);
      if names[i] != "" && names[i] !in seen' {
        seen', authorize' := AddOne(seen', authorize', names[i]);
      }
    }
    assert names[..|names|] == names;
  }

  method AddOne(seen: set<string>, authorize: seq<string>, n: string)
    returns (seen': set<string>, authorize': seq<string>)
    requires forall k :: k in seen <==> k in authorize
    ensures authorize' == authorize + [n] && forall k :: k in seen' <==> k in authorize'
  {
    seen', authorize' := seen + {n}, authorize + [n];
  }

  method ScanSettings(rt: Route, groups: seq<RouteGroup>)
    returns (gType: string, gAuth: string, proj: Option<ProjectionConfig>, onDeny: Option<string>)
    ensures NonEmpty(gType) == LastSet(rt, groups, TypeOf)
    ensures NonEmpty(gAuth) == LastSet(rt, groups, AuthOf)
    ensures proj == LastSet(rt, groups, ProjectionOf)
    ensures onDeny == LastSet(rt, groups, OnDenyOf)
  {
    hide LastSet, Matches;
    gType, gAuth, proj, onDeny := "", "", None, None;
    NothingSet(rt);
    for i := 0 to |groups|
      invariant NonEmpty(gType) == LastSet(rt, groups[..i], TypeOf)
      invariant NonEmpty(gAuth) == LastSet(rt, groups[..i], AuthOf)
      invariant proj == LastSet(rt, groups[..i], ProjectionOf)
      invariant onDeny == LastSet(rt, groups[..i], OnDenyOf)
    {
      var g := groups[i];
      LastSetStep(rt, groups, i, TypeOf);
      LastSetStep(rt, groups, i, AuthOf);
      LastSetStep(rt, groups, i, ProjectionOf);
      LastSetStep(rt, groups, i, OnDenyOf);
      var matches := MatchesLabels(g.selector, rt.labels);
      if matches {
        if g.typ != "" { gType := g.typ; }
        if g.access.auth != "" { gAuth := g.access.auth; }
        if g.access.projection.Some? { proj := g.access.projection; }
        if g.access.onDeny.Some? { onDeny := g.access.onDeny; }
      }
    }
    assert groups[..|groups|] == groups;
  }

  lemma NothingSet(rt: Route)
    ensures LastSet(rt, [], TypeOf).None? && LastSet(rt, [], AuthOf).None?
    ensures LastSet(rt, [], ProjectionOf).None? && LastSet(rt, [], OnDenyOf).None?
  {
  }

  method CollectNames(rt: Route, groups: seq<RouteGroup>) returns (authorize: seq<string>)
    ensures authorize == Authorize(rt, groups)
  {
    hide Matches, Distinct;
    var seen: set<string> := {};
    authorize := [];
    assert [] + rt.access.authorize == rt.access.authorize;
    NothingDistinct();
    seen, authorize := Add(rt.access.authorize, seen, authorize, []);
    ghost var before := rt.access.authorize;
    assert before + GroupNames(rt, []) == before;
    for i := 0 to |groups|
      invariant authorize == Distinct(before + GroupNames(rt, groups[..i]))
      invariant forall n :: n in seen <==> n in authorize
    {
      var g := groups[i];
      assert groups[..i + 1][..i] == groups[..i];
      assert (before + GroupNames(rt, groups[..i])) + g.access.authorize ==
        before + (GroupNames(rt, groups[..i]) + g.access.authorize);
      assert GroupNames(rt, groups[..i]) + [] == GroupNames(rt, groups[..i]);
      var matches := MatchesLabels(g.selector, rt.labels);
      if matches {
        seen, authorize := Add(g.access.authorize, seen, authorize, before + GroupNames(rt, groups[..i]));
      }
    }
    assert groups[..|groups|] == groups;
  }

  lemma NothingDistinct()
    ensures Distinct([]) == []
  {
  }

  // The four refusals of the redirect are those of a return address.
  lemma RedirectRule(p: string)
    ensures SignIn.LocalPath(p) <==>
      Http.HasPrefix(p, "/") && !Http.HasPrefix(p, "//") && !Http.HasPrefix(p, "/\\") && !SignIn.Contains(p, "://")
  {
    hide SignIn.Contains;
  }

  lemma TypeRule(rt: Route, groups: seq<RouteGroup>, gType: string)
    requires NonEmpty(gType) == LastSet(rt, groups, TypeOf)
    ensures var typ := FirstNonEmpty(rt.typ, gType);
      EffectiveType(rt, groups) == ToLower(if typ == "" then InferType(rt.handlerType) else typ)
  {
    hide LastSet, ToLower;
  }

  lemma AuthRule(rt: Route, groups: seq<RouteGroup>, gAuth: string)
    requires NonEmpty(gAuth) == LastSet(rt, groups, AuthOf)
    ensures var auth := FirstNonEmpty(rt.access.auth, gAuth);
      var default := if EffectiveType(rt, groups) == "service" then "required" else "public";
      EffectiveAuth(rt, groups) == ToLower(if auth == "" then default else auth)
  {
    hide LastSet, ToLower, EffectiveType;
  }

  method Resolve(rt: Route, groups: seq<RouteGroup>) returns (r: Result<Resolved, ResolveError>)
    ensures r == Resolution(rt, groups)
  {
    hide LastSet, Authorize, ToLower, SignIn.Contains, SignIn.LocalPath, Http.HasPrefix, EffectiveType, EffectiveAuth;
    var gType, gAuth, proj, onDeny := ScanSettings(rt, groups);
    TypeRule(rt, groups, gType);
    AuthRule(rt, groups, gAuth);
    var typ := FirstNonEmpty(rt.typ, gType);
    if typ == "" {
      typ := InferType(rt.handlerType);
    }
    typ := ToLower(typ);
    if typ != "app" && typ != "service" {
      return Err(InvalidType);
    }
    var auth := FirstNonEmpty(rt.access.auth, gAuth);
    if auth == "" {
      if typ == "service" {
        auth := "required";
      } else {
        auth := "public";
      }
    }
    auth := ToLower(auth);
    if auth != "required" && auth != "public" {
      return Err(InvalidAuth);
    }
    if rt.access.projection.Some? {
      proj := rt.access.projection;
    }
    if rt.access.onDeny.Some? {
      onDeny := rt.access.onDeny;
    }
    if onDeny.Some? && onDeny.value != "" {
      var redirect := onDeny.value;
      RedirectRule(redirect);
      if !Http.HasPrefix(redirect, "/") || Http.HasPrefix(redirect, "//") || Http.HasPrefix(redirect, "/\\")
         || SignIn.Contains(redirect, "://") {
        return Err(CrossOriginRedirect);
      }
    }
    var authorize := CollectNames(rt, groups);
    r := Ok(Resolved(typ, auth, proj, authorize, onDeny));
  }

  // A setting nobody makes: proxied and aggregated routes are services, services need a login, the rest is public.
  lemma DefaultsProtectServices(rt: Route, groups: seq<RouteGroup>)
    requires Resolution(rt, groups).Ok?
    ensures var res := Resolution(rt, groups).value;
      && (rt.typ == "" && (forall g :: g in groups ==> !Sets(rt, g, TypeOf)) ==>
            (res.typ == "service" <==> rt.handlerType in {"reverse-proxy", "api"}))
      && (rt.access.auth == "" && (forall g :: g in groups ==> !Sets(rt, g, AuthOf)) ==>
            (res.auth == "required" <==> res.typ == "service"))
  {
    hide Sets, Authorize, LastSet, SignIn.LocalPath, ToLower;
    LowerCaseDefaults();
    var i := LaterGroupWins(rt, groups, TypeOf);
    var j := LaterGroupWins(rt, groups, AuthOf);
  }

  lemma LowerCaseDefaults()
    ensures ToLower("service") == "service" && ToLower("app") == "app"
    ensures ToLower("required") == "required" && ToLower("public") == "public"
  {
  }

  lemma LowersAscii(s: string)
    ensures |ToLower(s)| == |s|
    ensures forall i :: 0 <= i < |s| && s[i] as int < 0x80 ==>
      ToLower(s)[i] == if 'A' <= s[i] <= 'Z' then (s[i] as int + 32) as char else s[i]
  {
  }

  // What the route says itself is what holds.
  lemma OwnSettingsWin(rt: Route, groups: seq<RouteGroup>)
    requires Resolution(rt, groups).Ok?
    ensures var res := Resolution(rt, groups).value;
      && (rt.typ != "" ==> res.typ == ToLower(rt.typ))
      && (rt.access.auth != "" ==> res.auth == ToLower(rt.access.auth))
      && (rt.access.projection.Some? ==> res.projection == rt.access.projection)
      && (rt.access.onDeny.Some? ==> res.onDeny == rt.access.onDeny)
  {
    hide Authorize, LastSet, SignIn.LocalPath, ToLower;
  }

  // Group i matches the route and has the setting; no later matching group has it.
  predicate LastWord<T>(rt: Route, groups: seq<RouteGroup>, pick: RouteGroup -> Option<T>, i: nat)
    requires i < |groups|
  {
    && Matches(groups[i].selector, rt.labels) && pick(groups[i]).Some?
    && forall j :: i < j < |groups| && Matches(groups[j].selector, rt.labels) ==> pick(groups[j]).None?
  }

  lemma LastWordIsLastSet<T>(rt: Route, groups: seq<RouteGroup>, pick: RouteGroup -> Option<T>, i: nat)
    requires i < |groups| && LastWord(rt, groups, pick, i)
    ensures LastSet(rt, groups, pick) == pick(groups[i])
  {
    hide LastSet, Matches;
    var k := LaterGroupWins(rt, groups, pick);
    assert Sets(rt, groups[i], pick);
  }

  // Where the route is silent, the last matching group with something to say decides.
  lemma LastGroupDecides(rt: Route, groups: seq<RouteGroup>, i: nat)
    requires Resolution(rt, groups).Ok? && i < |groups|
    ensures var res, g := Resolution(rt, groups).value, groups[i];
      && (rt.typ == "" && LastWord(rt, groups, (h: RouteGroup) => NonEmpty(h.typ), i) ==> res.typ == ToLower(g.typ))
      && (rt.access.auth == "" && LastWord(rt, groups, (h: RouteGroup) => NonEmpty(h.access.auth), i) ==>
            res.auth == ToLower(g.access.auth))
      && (rt.access.projection.None? && LastWord(rt, groups, (h: RouteGroup) => h.access.projection, i) ==>
            res.projection == g.access.projection)
      && (rt.access.onDeny.None? && LastWord(rt, groups, (h: RouteGroup) => h.access.onDeny, i) ==>
            res.onDeny == g.access.onDeny)
  {
    hide Authorize, LastSet, SignIn.LocalPath, ToLower, Matches;
    if LastWord(rt, groups, TypeOf, i) { LastWordIsLastSet(rt, groups, TypeOf, i); }
    if LastWord(rt, groups, AuthOf, i) { LastWordIsLastSet(rt, groups, AuthOf, i); }
    if LastWord(rt, groups, ProjectionOf, i) { LastWordIsLastSet(rt, groups, ProjectionOf, i); }
    if LastWord(rt, groups, OnDenyOf, i) { LastWordIsLastSet(rt, groups, OnDenyOf, i); }
  }

  /**
    A route resolves exactly when its type and its auth are among the known ones
    and its deny redirect, if any, stays on this origin.
   */
  lemma ResolvesIff(rt: Route, groups: seq<RouteGroup>)
    ensures var onDeny := if rt.access.onDeny.Some? then rt.access.onDeny else LastSet(rt, groups, OnDenyOf);
      Resolution(rt, groups).Ok? <==>
        && EffectiveType(rt, groups) in {"app", "service"} && EffectiveAuth(rt, groups) in {"required", "public"}
        && (onDeny.Some? && onDeny.value != "" ==> SignIn.LocalPath(onDeny.value))
    ensures EffectiveType(rt, groups) !in {"app", "service"} ==> Resolution(rt, groups) == Err(InvalidType)
    ensures EffectiveType(rt, groups) in {"app", "service"} && EffectiveAuth(rt, groups) !in {"required", "public"} ==>
      Resolution(rt, groups) == Err(InvalidAuth)
  {
    hide Authorize, LastSet, SignIn.LocalPath, EffectiveType, EffectiveAuth;
  }
}
