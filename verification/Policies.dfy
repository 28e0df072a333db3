/**
  Named policies (authz/rule.go, authz/policy.go): a built-in claim and group
  rule, a Rego engine, or both.  An engine is a function from the policy input to
  deny reasons or an error.
 */
module Policies {
  import opened Wrappers
  import opened Projection
  import Text

  // claims[c] lists the accepted values of claim c.
  datatype Require = Require(groups: seq<string>, claims: map<string, seq<string>>)

  datatype Input = Input(
    subject: string, groups: seq<string>, claims: map<string, Claim>,
    verb: string, path: string, pattern: string, routeName: string, labels: map<string, string>)

  datatype Evaluation = Reasons(reasons: seq<string>) | EvalError

  type Engine = Input -> Evaluation

  datatype Policy = Policy(name: string, require: Option<Require>, engine: Option<Engine>)

  /* ---- the built-in rule ---- */

  predicate Empty(r: Require) { r.groups == [] && |r.claims| == 0 }

  predicate Overlap(have: seq<string>, want: seq<string>) { exists g :: g in want && g in have }

  // The set is filled from what the principal has, then probed with what the rule wants.
  method AnyGroup(have: seq<string>, want: seq<string>) returns (r: bool)
    ensures r == Overlap(have, want)
  {
    var found: set<string> := {};
    for i := 0 to |have|
      invariant forall g :: g in found <==> g in have[..i]
    {
      found := found + {have[i]};
      assert have[..i + 1] == have[..i] + [have[i]];
    }
    assert have[..|have|] == have;
    for i := 0 to |want|
      invariant forall j :: 0 <= j < i ==> want[j] !in have
    {
      if want[i] in found {
        return true;
      }
    }
    return false;
  }

  predicate ClaimHolds(r: Require, p: Principal, c: string)
    requires c in r.claims
  {
    c in p.passport && Stringify(p.passport[c]) in r.claims[c]
  }

  // No principal satisfies only an empty rule.
  predicate Satisfied(r: Require, p: Option<Principal>) {
    Empty(r) ||
    (p.Some? && (r.groups == [] || Overlap(p.value.groups, r.groups))
     && forall c :: c in r.claims ==> ClaimHolds(r, p.value, c))
  }

  // Any one of the rule's groups, and of every claim any one of the listed values.
  predicate Fits(r: Require, p: Principal) {
    && (r.groups != [] ==> exists i, j :: 0 <= i < |r.groups| && 0 <= j < |p.groups| && r.groups[i] == p.groups[j])
    && (forall c :: c in r.claims ==>
          c in p.passport && exists k :: 0 <= k < |r.claims[c]| && r.claims[c][k] == Shown(p.passport[c]))
  }

  /**
    The code's own walk.  An empty rule lets everybody through; any other one
    nobody who is not known, and a known principal exactly when it fits.
   */
  method IsSatisfied(r: Require, p: Option<Principal>) returns (ok: bool)
    ensures ok == Satisfied(r, p)
    ensures r.groups == [] && r.claims == map[] ==> ok
    ensures (r.groups != [] || r.claims != map[]) ==> (ok <==> p.Some? && Fits(r, p.value))
  {
    NoClaims(r);
    if Empty(r) {
      return true;
    }
    if p.None? {
      return false;
    }
    OverlapMeans(p.value.groups, r.groups);
    if |r.groups| > 0 {
      var any := AnyGroup(p.value.groups, r.groups);
      if !any {
        return false;
      }
    }
    var todo := r.claims.Keys;
    while todo != {}
      invariant todo <= r.claims.Keys
      invariant forall c :: c in r.claims && c !in todo ==> ClaimHolds(r, p.value, c)
      decreases todo
    {
      var c :| c in todo;
      if c !in p.value.passport || Stringify(p.value.passport[c]) !in r.claims[c] {
        return false;
      }
      todo := todo - {c};
    }
    return true;
  }

  lemma NoClaims(r: Require)
    ensures |r.claims| == 0 <==> r.claims == map[]
  {
    if r.claims != map[] {
      var c :| c in r.claims;
      assert c in r.claims.Keys;
    }
  }

  lemma OverlapMeans(have: seq<string>, want: seq<string>)
    ensures Overlap(have, want) <==> exists i, j :: 0 <= i < |want| && 0 <= j < |have| && want[i] == have[j]
  {
    if Overlap(have, want) {
      var g :| g in want && g in have;
      var i :| 0 <= i < |want| && want[i] == g;
      var j :| 0 <= j < |have| && have[j] == g;
      assert want[i] == have[j];
    }
    if i, j :| 0 <= i < |want| && 0 <= j < |have| && want[i] == have[j] { assert want[i] in want && want[i] in have; }
  }

  /* ---- a policy's decision ---- */

  datatype Decision = Decision(deny: bool, reason: string, failed: bool)

  function Decide(pol: Policy, p: Option<Principal>, input: Input): Decision {
    if pol.require.Some? && !Satisfied(pol.require.value, p) then Decision(true, "require not satisfied", false)
    else if pol.engine.None? then Decision(false, "", false)
    else match pol.engine.value(input)
         case EvalError => Decision(true, "policy evaluation error", true)
         case Reasons(rs) => if |rs| > 0 then Decision(true, Text.Join(rs, "; "), false) else Decision(false, "", false)
  }

  // Every tier the policy has agrees; an engine that errors does not.
  predicate Permits(pol: Policy, p: Option<Principal>, input: Input) {
    && (pol.require.Some? ==> Satisfied(pol.require.value, p))
    && (pol.engine.Some? ==> pol.engine.value(input) == Reasons([]))
  }

  // Fail closed: nothing but agreement of every tier is not a denial, and only an engine's error is a failure.
  lemma DecideFailsClosed(pol: Policy, p: Option<Principal>, input: Input)
    ensures Decide(pol, p, input).deny <==> !Permits(pol, p, input)
    ensures Decide(pol, p, input).deny <==>
      || (pol.require.Some? && !Satisfied(pol.require.value, p))
      || (pol.engine.Some? && (pol.engine.value(input).EvalError? || pol.engine.value(input).reasons != []))
    ensures Decide(pol, p, input).deny && !(pol.require.Some? && !Satisfied(pol.require.value, p)) ==>
      Decide(pol, p, input).reason ==
        match pol.engine.value(input)
        case EvalError => "policy evaluation error"
        case Reasons(rs) => Text.Join(rs, "; ")
    ensures Decide(pol, p, input).failed <==>
      (pol.require.Some? ==> Satisfied(pol.require.value, p)) && pol.engine.Some? && pol.engine.value(input).EvalError?
  {
    if pol.engine.Some? && pol.engine.value(input).Reasons? {
      var rs := pol.engine.value(input).reasons;
      assert rs == [] <==> |rs| == 0;
    }
  }

  /* ---- Compile ---- */

  // rego is the path, "" when there is none; `decodes` is false for a document whose spec cannot be read.
  datatype PolicySpec = PolicySpec(name: string, decodes: bool, require: Option<Require>, rego: string)

  datatype CompileError =
    | Undecodable(at: string)
    | EmptyRequire(at: string)
    | NoTier(at: string)
    | EmptyClaim(at: string)
    | Duplicate(at: string)
    | BadRego(at: string)

  type Loader = string -> Option<Engine>

  predicate HasEmptyClaim(r: Require) { exists c :: c in r.claims && r.claims[c] == [] }

  // What Compile objects to in the i-th document, once those before it were accepted.
  function Complaint(specs: seq<PolicySpec>, i: nat, load: Loader): Option<CompileError>
    requires i < |specs|
  {
    var s := specs[i];
    if !s.decodes then Some(Undecodable(s.name))
    else if s.require.Some? && Empty(s.require.value) then Some(EmptyRequire(s.name))
    else if s.require.None? && s.rego == "" then Some(NoTier(s.name))
    else if s.require.Some? && HasEmptyClaim(s.require.value) then Some(EmptyClaim(s.name))
    else if Repeats(specs, i) then Some(Duplicate(s.name))
    else if s.rego != "" && load(s.rego).None? then Some(BadRego(s.name))
    else None
  }

  predicate Repeats(specs: seq<PolicySpec>, i: nat)
    requires i < |specs|
  {
    exists j :: 0 <= j < i && specs[j].name == specs[i].name
  }

  predicate Acceptable(specs: seq<PolicySpec>, n: nat, load: Loader)
    requires n <= |specs|
  {
    forall i :: 0 <= i < n ==> Complaint(specs, i, load).None?
  }

  function Compiled(s: PolicySpec, load: Loader): Policy {
    Policy(s.name, s.require, if s.rego == "" then None else load(s.rego))
  }

  // The table holds exactly the policies of the first n documents, under their names.
  ghost predicate TableOf(specs: seq<PolicySpec>, n: nat, load: Loader, table: map<string, Policy>)
    requires n <= |specs|
  {
    && (forall i :: 0 <= i < n ==> specs[i].name in table && table[specs[i].name] == Compiled(specs[i], load))
    && (forall k :: k in table ==> exists i :: 0 <= i < n && specs[i].name == k)
  }

  // A document passes with a rule that constrains and can be met, or an engine that loads, under a new name.
  lemma AcceptedMeans(specs: seq<PolicySpec>, i: nat, load: Loader)
    requires i < |specs|
    ensures var s := specs[i];
      Complaint(specs, i, load).None? <==>
        && s.decodes && (s.require.Some? || s.rego != "")
        && (s.require.Some? ==> s.require.value.groups != [] || s.require.value.claims != map[])
        && (s.require.Some? ==> forall c :: c in s.require.value.claims ==> s.require.value.claims[c] != [])
        && (forall j :: 0 <= j < i ==> specs[j].name != s.name)
        && (s.rego != "" ==> load(s.rego).Some?)
  {
    if specs[i].require.Some? { NoClaims(specs[i].require.value); }
  }

  lemma TableGrows(specs: seq<PolicySpec>, n: nat, load: Loader, table: map<string, Policy>)
    requires n < |specs| && TableOf(specs, n, load, table) && !Repeats(specs, n)
    ensures TableOf(specs, n + 1, load, table[specs[n].name := Compiled(specs[n], load)])
  {
    var grown := table[specs[n].name := Compiled(specs[n], load)];
    forall k | k in grown ensures exists i :: 0 <= i < n + 1 && specs[i].name == k {
      if k != specs[n].name {
        var i :| 0 <= i < n && specs[i].name == k;
      }
    }
  }

  // All or nothing: the first objection is the error, and without one every document is in the table.
  method Compile(specs: seq<PolicySpec>, load: Loader) returns (r: Result<map<string, Policy>, CompileError>)
    ensures r.Ok? ==> Acceptable(specs, |specs|, load) && TableOf(specs, |specs|, load, r.value)
    ensures r.Ok? ==> forall i :: 0 <= i < |specs| ==>
      && specs[i].name in r.value && r.value[specs[i].name].name == specs[i].name
      && r.value[specs[i].name].require == specs[i].require
      && r.value[specs[i].name].engine == if specs[i].rego == "" then None else load(specs[i].rego)
    ensures r.Err? ==>
      exists i :: 0 <= i < |specs| && Acceptable(specs, i, load) && Complaint(specs, i, load) == Some(r.error)
  {
    var out: map<string, Policy> := map[];
    for i := 0 to |specs|
      invariant Acceptable(specs, i, load) && TableOf(specs, i, load, out)
    {
      var s := specs[i];
      if !s.decodes {
        return Err(Undecodable(s.name));
      }
      if s.require.Some? && Empty(s.require.value) {
        return Err(EmptyRequire(s.name));
      }
      if s.require.None? && s.rego == "" {
        return Err(NoTier(s.name));
      }
      if s.require.Some? && HasEmptyClaim(s.require.value) {
        return Err(EmptyClaim(s.name));
      }
      if s.name in out {
        return Err(Duplicate(s.name));
      }
      var p := Policy(s.name, s.require, None);
      if s.rego != "" {
        var engine := load(s.rego);
        if engine.None? {
          return Err(BadRego(s.name));
        }
        p := p.(engine := engine);
      }
      TableGrows(specs, i, load, out);
      out := out[s.name := p];
    }
    return Ok(out);
  }

  ghost predicate Satisfiable(r: Require) { exists p :: Satisfied(r, Some(p)) }

  // A principal made to measure for a rule.
  function Suitable(r: Require): Principal
    requires !HasEmptyClaim(r)
  {
    Principal("", map c | c in r.claims :: Claim.Text(r.claims[c][0]), r.groups, "", "")
  }

  // The two rules that refuse a require block refuse exactly those that everyone, or no one, satisfies.
  lemma RefusedRulesAreTheIdleOnes(r: Require)
    ensures !Empty(r) && !HasEmptyClaim(r) <==> !Satisfied(r, None) && Satisfiable(r)
  {
    if HasEmptyClaim(r) {
      var c :| c in r.claims && r.claims[c] == [];
      assert !Empty(r);
      forall p ensures !Satisfied(r, Some(p)) { assert !ClaimHolds(r, p, c); }
    } else if !Empty(r) {
      var p := Suitable(r);
      if r.groups != [] { assert r.groups[0] in r.groups; }
      assert Satisfied(r, Some(p));
    }
  }

  // In a compiled table only an engine can let an anonymous request through.
  lemma AnonymousNeedsAnEngine(
    specs: seq<PolicySpec>, load: Loader, table: map<string, Policy>, n: string, input: Input)
    requires Acceptable(specs, |specs|, load) && TableOf(specs, |specs|, load, table)
    requires n in table && Permits(table[n], None, input)
    ensures table[n].require.None? && table[n].engine.Some?
  {
    var i :| 0 <= i < |specs| && specs[i].name == n;
    assert Complaint(specs, i, load).None?;
  }
}
