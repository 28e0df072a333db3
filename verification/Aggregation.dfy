/**
  The fan-out of terminal/aggregate.go: one goroutine per backend fills its own
  slot of the results, in any order; the merge then walks the backends in
  declaration order.  A backend's outcome is given; JSON is text.
 */
module Aggregation {
  import opened Wrappers
  import Text

  datatype BackendConfig = BackendConfig(
    group: string, upstream: string, path: string, verb: string, required: Option<bool>)

  datatype Backend = Backend(group: string, upstream: string, path: string, verb: string, required: bool)

  datatype BackendResult = BackendResult(body: string, ok: bool, timeout: bool)

  /* ---- registration ---- */

  // The decoded handler block; `decodes` is false for one that cannot be read.
  datatype APIConfig = APIConfig(decodes: bool, timeout: string, backends: seq<BackendConfig>)

  // A timeout of 0 is none.
  datatype APIHandler = APIHandler(backends: seq<Backend>, timeout: int)

  datatype ConfigError =
    | Undecodable
    | NoBackends
    | InvalidTimeout
    | GroupMissing(i: nat)
    | DuplicateGroup(group: string)
    | PathMissing(group: string)
    | InvalidUpstream(group: string)
    | InvalidMethod(group: string)

  // What URL parsing and request construction accept, and what a duration means.
  datatype Library = Library(
    validUpstream: string -> bool, validMethod: string -> bool, duration: string -> Option<int>)

  function VerbOf(c: BackendConfig): string { if c.verb == "" then "GET" else c.verb }

  function BackendOf(c: BackendConfig): Backend {
    Backend(c.group, c.upstream, c.path, VerbOf(c), if c.required.Some? then c.required.value else true)
  }

  predicate RepeatsGroup(cs: seq<BackendConfig>, i: nat)
    requires i < |cs|
  {
    exists j :: 0 <= j < i && cs[j].group == cs[i].group
  }

  // What registration objects to in the i-th backend, once those before it were accepted.
  function Objection(cs: seq<BackendConfig>, i: nat, lib: Library): Option<ConfigError>
    requires i < |cs|
  {
    var c := cs[i];
    if c.group == "" then Some(GroupMissing(i))
    else if RepeatsGroup(cs, i) then Some(DuplicateGroup(c.group))
    else if c.path == "" then Some(PathMissing(c.group))
    else if !lib.validUpstream(c.upstream) then Some(InvalidUpstream(c.group))
    else if !lib.validMethod(VerbOf(c)) then Some(InvalidMethod(c.group))
    else None
  }

  // What it takes for a backend to pass, and which missing part is named first.
  lemma AcceptedMeans(cs: seq<BackendConfig>, i: nat, lib: Library)
    requires i < |cs|
    ensures var c := cs[i];
      && (Objection(cs, i, lib).None? <==>
            && c.group != "" && c.path != "" && (forall j :: 0 <= j < i ==> cs[j].group != c.group)
            && lib.validUpstream(c.upstream) && lib.validMethod(if c.verb == "" then "GET" else c.verb))
      && (c.group == "" ==> Objection(cs, i, lib) == Some(GroupMissing(i)))
      && (c.group != "" && (exists j :: 0 <= j < i && cs[j].group == c.group) ==>
            Objection(cs, i, lib) == Some(DuplicateGroup(c.group)))
  {
  }

  predicate Unobjectionable(cs: seq<BackendConfig>, n: nat, lib: Library)
    requires n <= |cs|
  {
    forall i :: 0 <= i < n ==> Objection(cs, i, lib).None?
  }

  predicate UniqueGroups(bs: seq<Backend>) { forall i, j :: 0 <= i < j < |bs| ==> bs[i].group != bs[j].group }

  // What is wrong with the block as a whole.
  function BlockFault(ac: APIConfig, lib: Library): Option<ConfigError> {
    if !ac.decodes then Some(Undecodable)
    else if ac.backends == [] then Some(NoBackends)
    else if ac.timeout != "" && lib.duration(ac.timeout).None? then Some(InvalidTimeout)
    else None
  }

  predicate FirstObjection(cs: seq<BackendConfig>, i: nat, lib: Library, e: ConfigError)
    requires i < |cs|
  {
    Unobjectionable(cs, i, lib) && Objection(cs, i, lib) == Some(e)
  }

  // The first objection refuses the handler; without one every backend is there, each group once.
  method RegisterAPI(ac: APIConfig, lib: Library) returns (r: Result<APIHandler, ConfigError>)
    ensures BlockFault(ac, lib).Some? ==> r == Err(BlockFault(ac, lib).value)
    ensures BlockFault(ac, lib).None? && r.Err? ==>
      exists i :: 0 <= i < |ac.backends| && FirstObjection(ac.backends, i, lib, r.error)
    ensures r.Ok? ==> Unobjectionable(ac.backends, |ac.backends|, lib) && UniqueGroups(r.value.backends)
    ensures r.Ok? ==> |r.value.backends| == |ac.backends| > 0
    ensures r.Ok? ==> forall i :: 0 <= i < |ac.backends| ==> r.value.backends[i] == BackendOf(ac.backends[i])
    ensures r.Ok? ==> forall i :: 0 <= i < |ac.backends| ==>
      var c, b := ac.backends[i], r.value.backends[i];
      && b.group == c.group && b.upstream == c.upstream && b.path == c.path
      && b.verb == (if c.verb == "" then "GET" else c.verb) && (b.required <==> c.required != Some(false))
    ensures r.Ok? ==> r.value.timeout == if ac.timeout == "" then 0 else lib.duration(ac.timeout).value
  {
    if !ac.decodes {
      return Err(Undecodable);
    }
    if |ac.backends| == 0 {
      return Err(NoBackends);
    }
    var timeout := 0;
    if ac.timeout != "" {
      var d := lib.duration(ac.timeout);
      if d.None? {
        return Err(InvalidTimeout);
      }
      timeout := d.value;
    }
    var cs := ac.backends;
    var seen: set<string> := {};
    var backends: seq<Backend> := [];
    for i := 0 to |cs|
      invariant Unobjectionable(cs, i, lib)
      invariant forall g :: g in seen <==> exists j :: 0 <= j < i && cs[j].group == g
      invariant |backends| == i && forall j :: 0 <= j < i ==> backends[j] == BackendOf(cs[j])
    {
      var c := cs[i];
      var objection := CheckBackend(cs, i, seen, lib);
      if objection.Some? {
        assert FirstObjection(cs, i, lib, objection.value);
        return Err(objection.value);
      }
      seen := seen + {c.group};
      var verb := c.verb;
      if verb == "" {
        verb := "GET";
      }
      var required := true;
      if c.required.Some? {
        required := c.required.value;
      }
      backends := backends + [Backend(c.group, c.upstream, c.path, verb, required)];
    }
    NoRepeats(cs, lib, backends);
    return Ok(APIHandler(backends, timeout));
  }

  // `seen` are the groups of the backends before.
  method CheckBackend(cs: seq<BackendConfig>, i: nat, seen: set<string>, lib: Library) returns (e: Option<ConfigError>)
    requires i < |cs| && forall g :: g in seen <==> exists j :: 0 <= j < i && cs[j].group == g
    ensures e == Objection(cs, i, lib)
  {
    var c := cs[i];
    if c.group == "" {
      return Some(GroupMissing(i));
    }
    if c.group in seen {
      return Some(DuplicateGroup(c.group));
    }
    if c.path == "" {
      return Some(PathMissing(c.group));
    }
    if !lib.validUpstream(c.upstream) {
      return Some(InvalidUpstream(c.group));
    }
    if !lib.validMethod(VerbOf(c)) {
      return Some(InvalidMethod(c.group));
    }
    return None;
  }

  lemma NoRepeats(cs: seq<BackendConfig>, lib: Library, bs: seq<Backend>)
    requires Unobjectionable(cs, |cs|, lib)
    requires |bs| == |cs| && forall i :: 0 <= i < |cs| ==> bs[i] == BackendOf(cs[i])
    ensures UniqueGroups(bs)
  {
    forall i, j | 0 <= i < j < |bs| ensures bs[i].group != bs[j].group {
      assert Objection(cs, j, lib).None? && !RepeatsGroup(cs, j);
    }
  }

  /* ---- the fan-out ---- */

  // The handler's loop starts goroutine i; a goroutine writes its slot and is done.
  datatype Step = Start | Finish(i: nat)

  // `waiting` is the wait group's counter.
  datatype Flight = Flight(started: nat, running: set<nat>, waiting: int, results: seq<BackendResult>)

  const UNSET := BackendResult("", false, false)

  function Ground(n: nat): Flight { Flight(0, {}, 0, seq(n, _ => UNSET)) }

  predicate Enabled(f: Flight, s: Step, outcomes: seq<BackendResult>) {
    match s
    case Start => f.started < |outcomes|
    case Finish(i) => i in f.running
  }

  function Take(f: Flight, s: Step, outcomes: seq<BackendResult>): Flight {
    match s
    case Start => f.(started := f.started + 1, running := f.running + {f.started}, waiting := f.waiting + 1)
    case Finish(i) => f.(results := Write(f.results, i, outcomes), running := f.running - {i}, waiting := f.waiting - 1)
  }

  function Write(results: seq<BackendResult>, i: nat, outcomes: seq<BackendResult>): seq<BackendResult> {
    if i < |results| && i < |outcomes| then results[i := outcomes[i]] else results
  }

  // A run of the fan-out: steps in any order in which each may happen.
  predicate Flies(f: Flight, steps: seq<Step>, outcomes: seq<BackendResult>)
    decreases |steps|
  {
    steps == [] || (Enabled(f, steps[0], outcomes) && Flies(Take(f, steps[0], outcomes), steps[1..], outcomes))
  }

  function Landed(f: Flight, steps: seq<Step>, outcomes: seq<BackendResult>): Flight
    decreases |steps|
  {
    if steps == [] then f else Landed(Take(f, steps[0], outcomes), steps[1..], outcomes)
  }

  // The loop is over and Wait returns.
  predicate Waited(f: Flight, n: nat) { f.started == n && f.waiting == 0 }

  predicate InFlight(f: Flight, outcomes: seq<BackendResult>) {
    && f.started <= |outcomes| == |f.results|
    && f.waiting == |f.running|
    && (forall i :: i in f.running ==> i < f.started)
    && (forall i :: 0 <= i < f.started && i !in f.running ==> f.results[i] == outcomes[i])
  }

  lemma TakeKeeps(f: Flight, s: Step, outcomes: seq<BackendResult>)
    requires InFlight(f, outcomes) && Enabled(f, s, outcomes)
    ensures InFlight(Take(f, s, outcomes), outcomes)
  {
    var t := Take(f, s, outcomes);
    if s.Finish? {
      assert f.running == t.running + {s.i};
    }
  }

  lemma {:induction false} FlightKeeps(f: Flight, steps: seq<Step>, outcomes: seq<BackendResult>)
    requires InFlight(f, outcomes) && Flies(f, steps, outcomes)
    ensures InFlight(Landed(f, steps, outcomes), outcomes)
    decreases |steps|
  {
    if steps != [] {
      TakeKeeps(f, steps[0], outcomes);
      FlightKeeps(Take(f, steps[0], outcomes), steps[1..], outcomes);
    }
  }

  // However starts and completions interleave, once Wait returns every slot holds its backend's outcome.
  lemma EveryRunCollectsAll(steps: seq<Step>, outcomes: seq<BackendResult>)
    requires Flies(Ground(|outcomes|), steps, outcomes)
    requires Waited(Landed(Ground(|outcomes|), steps, outcomes), |outcomes|)
    ensures Landed(Ground(|outcomes|), steps, outcomes).results == outcomes
  {
    FlightKeeps(Ground(|outcomes|), steps, outcomes);
    assert Landed(Ground(|outcomes|), steps, outcomes).running == {};
  }

  // Until then some step can happen.
  lemma SomeStepRemains(f: Flight, outcomes: seq<BackendResult>)
    requires InFlight(f, outcomes) && !Waited(f, |outcomes|)
    ensures exists s :: Enabled(f, s, outcomes)
  {
    if f.started < |outcomes| {
      assert Enabled(f, Start, outcomes);
    } else {
      var i :| i in f.running;
      assert Enabled(f, Finish(i), outcomes);
    }
  }

  // The array of results, written by one such run.
  method FanOut(outcomes: seq<BackendResult>, steps: seq<Step>) returns (results: array<BackendResult>)
    requires Flies(Ground(|outcomes|), steps, outcomes)
    requires Waited(Landed(Ground(|outcomes|), steps, outcomes), |outcomes|)
    ensures results[..] == outcomes
  {
    hide Landed, Flies, Waited;
    results := new BackendResult[|outcomes|](_ => UNSET);
    ghost var f := Ground(|outcomes|);
    assert steps[0..] == steps;
    for k := 0 to |steps|
      invariant results[..] == f.results && InFlight(f, outcomes)
      invariant Flies(f, steps[k..], outcomes)
      invariant Landed(Ground(|outcomes|), steps, outcomes) == Landed(f, steps[k..], outcomes)
    {
      FirstStep(f, steps[k..], outcomes);
      assert steps[k..][1..] == steps[k + 1..];
      TakeKeeps(f, steps[k], outcomes);
      if steps[k].Finish? {
        results[steps[k].i] := outcomes[steps[k].i];
      }
      f := Take(f, steps[k], outcomes);
    }
    NoStep(f, outcomes);
    assert steps[|steps|..] == [];
    EveryRunCollectsAll(steps, outcomes);
  }

  lemma FirstStep(f: Flight, steps: seq<Step>, outcomes: seq<BackendResult>)
    requires steps != [] && Flies(f, steps, outcomes)
    ensures Enabled(f, steps[0], outcomes) && Flies(Take(f, steps[0], outcomes), steps[1..], outcomes)
    ensures Landed(f, steps, outcomes) == Landed(Take(f, steps[0], outcomes), steps[1..], outcomes)
  {
  }

  lemma NoStep(f: Flight, outcomes: seq<BackendResult>)
    ensures Landed(f, [], outcomes) == f
  {
  }

  /* ---- the merge ---- */

  datatype Answer = Failed(status: int) | Merged(body: map<string, string>, partial: Option<string>)

  predicate AllRequiredOk(bs: seq<Backend>, rs: seq<BackendResult>)
    requires |rs| == |bs|
  {
    forall i :: 0 <= i < |bs| ==> !Fatal(bs[i], rs[i])
  }

  predicate Fatal(b: Backend, r: BackendResult) { b.required && !r.ok }

  // The first required backend that failed, in declaration order.
  predicate FirstFatal(bs: seq<Backend>, rs: seq<BackendResult>, i: int)
    requires |rs| == |bs|
  {
    0 <= i < |bs| && Fatal(bs[i], rs[i]) && forall j :: 0 <= j < i ==> !Fatal(bs[j], rs[j])
  }

  // The groups of the backends that did not answer, in declaration order.
  function Omitted(bs: seq<Backend>, rs: seq<BackendResult>): seq<string>
    requires |rs| == |bs|
  {
    if bs == [] then []
    else
      var n := |bs| - 1;
      Omitted(bs[..n], rs[..n]) + if rs[n].ok then [] else [bs[n].group]
  }

  // Each group's body is that of its last answer.
  function Bodies(bs: seq<Backend>, rs: seq<BackendResult>): map<string, string>
    requires |rs| == |bs|
  {
    if bs == [] then map[]
    else
      var n := |bs| - 1;
      var front := Bodies(bs[..n], rs[..n]);
      if rs[n].ok then front[bs[n].group := rs[n].body] else front
  }

  // The X-Hog-Partial header: absent when nothing was left out.
  function Partial(omitted: seq<string>): Option<string> {
    if omitted == [] then None else Some(Text.Join(omitted, ","))
  }

  // The answer as a relation between backends and outcomes, with no schedule in it.
  ghost predicate Answers(bs: seq<Backend>, rs: seq<BackendResult>, a: Answer)
    requires |rs| == |bs|
  {
    match a
    case Merged(body, partial) => AllRequiredOk(bs, rs) && body == Bodies(bs, rs) && partial == Partial(Omitted(bs, rs))
    case Failed(status) => exists i :: FirstFatal(bs, rs, i) && status == if rs[i].timeout then 504 else 502
  }

  // The loop leaves at the first required failure; its status tells a timeout from any other.
  method ServeHTTP(bs: seq<Backend>, outcomes: seq<BackendResult>, steps: seq<Step>) returns (a: Answer)
    requires |outcomes| == |bs|
    requires Flies(Ground(|outcomes|), steps, outcomes)
    requires Waited(Landed(Ground(|outcomes|), steps, outcomes), |outcomes|)
    ensures Answers(bs, outcomes, a)
    ensures a.Merged? <==> forall i :: 0 <= i < |bs| && bs[i].required ==> outcomes[i].ok
    ensures a.Failed? ==> exists i ::
      && 0 <= i < |bs| && bs[i].required && !outcomes[i].ok
      && (forall j :: 0 <= j < i && bs[j].required ==> outcomes[j].ok)
      && a.status == if outcomes[i].timeout then 504 else 502
  {
    hide Landed, Flies, Waited, Partial;
    var results := FanOut(outcomes, steps);
    var merged: map<string, string> := map[];
    var omitted: seq<string> := [];
    for i := 0 to |bs|
      invariant merged == Bodies(bs[..i], outcomes[..i]) && omitted == Omitted(bs[..i], outcomes[..i])
      invariant forall j :: 0 <= j < i ==> !Fatal(bs[j], outcomes[j])
    {
      var b, res := bs[i], results[..][i];
      assert bs[..i + 1][..i] == bs[..i] && outcomes[..i + 1][..i] == outcomes[..i];
      if res.ok {
        merged := merged[b.group := res.body];
        continue;
      }
      if b.required {
        var code := 502;
        if res.timeout {
          code := 504;
        }
        assert FirstFatal(bs, outcomes, i);
        return Failed(code);
      }
      omitted := omitted + [b.group];
    }
    assert bs[..|bs|] == bs && outcomes[..|bs|] == outcomes;
    return Merged(merged, Partial(omitted));
  }

  // Fixed outcomes leave one answer.
  lemma AnswerIsUnique(bs: seq<Backend>, rs: seq<BackendResult>, a: Answer, b: Answer)
    requires |rs| == |bs| && Answers(bs, rs, a) && Answers(bs, rs, b)
    ensures a == b
  {
    if a.Failed? && b.Failed? {
      var i :| FirstFatal(bs, rs, i) && a.status == if rs[i].timeout then 504 else 502;
      var j :| FirstFatal(bs, rs, j) && b.status == if rs[j].timeout then 504 else 502;
      assert i == j;
    }
  }

  predicate NoDuplicates(s: seq<string>) { forall i, j :: 0 <= i < j < |s| ==> s[i] != s[j] }

  // Every group is in exactly one of the merged body and the omitted list, by whether its backend answered.
  ghost predicate Partitioned(bs: seq<Backend>, rs: seq<BackendResult>)
    requires |rs| == |bs|
  {
    && (forall i :: 0 <= i < |bs| && rs[i].ok ==>
      bs[i].group in Bodies(bs, rs) && Bodies(bs, rs)[bs[i].group] == rs[i].body)
    && (forall i :: 0 <= i < |bs| && !rs[i].ok ==> bs[i].group in Omitted(bs, rs))
    && (forall g :: g in Bodies(bs, rs) ==> OfGroup(bs, rs, g, true))
    && (forall g :: g in Omitted(bs, rs) ==> OfGroup(bs, rs, g, false))
    && NoDuplicates(Omitted(bs, rs))
  }

  predicate OfGroup(bs: seq<Backend>, rs: seq<BackendResult>, g: string, ok: bool)
    requires |rs| == |bs|
  {
    exists i :: 0 <= i < |bs| && bs[i].group == g && rs[i].ok == ok
  }

  lemma {:induction false} MergePartitionsTheGroups(bs: seq<Backend>, rs: seq<BackendResult>)
    requires |rs| == |bs| && UniqueGroups(bs)
    ensures Partitioned(bs, rs)
    ensures forall g :: g in Bodies(bs, rs) ==> g !in Omitted(bs, rs)
  {
    if bs != [] {
      var n := |bs| - 1;
      MergePartitionsTheGroups(bs[..n], rs[..n]);
      PartitionGrows(bs, rs);
    }
    forall g | g in Bodies(bs, rs) ensures g !in Omitted(bs, rs) {
      assert OfGroup(bs, rs, g, true);
    }
  }

  lemma PartitionGrows(bs: seq<Backend>, rs: seq<BackendResult>)
    requires |rs| == |bs| > 0 && UniqueGroups(bs)
    requires Partitioned(bs[..|bs| - 1], rs[..|bs| - 1])
    ensures Partitioned(bs, rs)
  {
    hide OfGroup;
    var n := |bs| - 1;
    var front, results := bs[..n], rs[..n];
    forall g, ok | OfGroup(front, results, g, ok) ensures OfGroup(bs, rs, g, ok) && g != bs[n].group {
      OlderGroup(bs, rs, g, ok);
    }
    NewestGroup(bs, rs);
    forall i | 0 <= i < n ensures bs[i] == front[i] && rs[i] == results[i] {}
  }

  lemma OlderGroup(bs: seq<Backend>, rs: seq<BackendResult>, g: string, ok: bool)
    requires |rs| == |bs| > 0 && UniqueGroups(bs) && OfGroup(bs[..|bs| - 1], rs[..|bs| - 1], g, ok)
    ensures OfGroup(bs, rs, g, ok) && g != bs[|bs| - 1].group
  {
    var n := |bs| - 1;
    var i :| 0 <= i < n && bs[..n][i].group == g && rs[..n][i].ok == ok;
    assert bs[i].group == g && rs[i].ok == ok;
  }

  lemma NewestGroup(bs: seq<Backend>, rs: seq<BackendResult>)
    requires |rs| == |bs| > 0
    ensures OfGroup(bs, rs, bs[|bs| - 1].group, rs[|bs| - 1].ok)
  {
  }

  predicate ListedBefore(o: seq<string>, a: string, b: string) {
    exists x, y :: 0 <= x < y < |o| && o[x] == a && o[y] == b
  }

  // The omitted groups are listed in declaration order.
  lemma {:induction false} OmittedInOrder(bs: seq<Backend>, rs: seq<BackendResult>, i: nat, j: nat)
    requires |rs| == |bs| && UniqueGroups(bs) && i < j < |bs| && !rs[i].ok && !rs[j].ok
    ensures ListedBefore(Omitted(bs, rs), bs[i].group, bs[j].group)
  {
    var n := |bs| - 1;
    var front, o := Omitted(bs[..n], rs[..n]), Omitted(bs, rs);
    assert front <= o;
    if j < n {
      OmittedInOrder(bs[..n], rs[..n], i, j);
      LongerList(front, o, bs[i].group, bs[j].group);
    } else {
      MergePartitionsTheGroups(bs[..n], rs[..n]);
      assert bs[..n][i].group in front;
      LastListed(front, bs[i].group, bs[n].group);
    }
  }

  lemma LongerList(o: seq<string>, more: seq<string>, a: string, b: string)
    requires o <= more && ListedBefore(o, a, b)
    ensures ListedBefore(more, a, b)
  {
    var x, y :| 0 <= x < y < |o| && o[x] == a && o[y] == b;
    assert more[x] == a && more[y] == b;
  }

  lemma LastListed(o: seq<string>, a: string, b: string)
    requires a in o
    ensures ListedBefore(o + [b], a, b)
  {
    var x :| 0 <= x < |o| && o[x] == a;
    assert (o + [b])[x] == a && (o + [b])[|o|] == b;
  }

  // A backend whose `required` was left out is required: its failure alone fails the whole answer.
  lemma UnsetMeansRequired(c: BackendConfig, r: BackendResult, a: Answer)
    requires c.required.None? && !r.ok && Answers([BackendOf(c)], [r], a)
    ensures a == Failed(if r.timeout then 504 else 502)
  {
    var bs := [BackendOf(c)];
    assert bs[0].required && Fatal(bs[0], [r][0]);
  }

  // The header names the omitted groups unambiguously exactly when no group contains a comma.
  lemma PartialHeaderIsReadable(omitted: seq<string>)
    requires omitted != []
    ensures Text.Split(Partial(omitted).value, ',') == omitted <==>
      forall i :: 0 <= i < |omitted| ==> ',' !in omitted[i]
  {
    if forall i :: 0 <= i < |omitted| ==> ',' !in omitted[i] {
      Text.SplitJoin(omitted, ',');
    }
    if Text.Split(Partial(omitted).value, ',') == omitted {
      forall i | 0 <= i < |omitted| ensures ',' !in omitted[i] {
        Text.PiecesAreFree(Partial(omitted).value, ',', i);
      }
    }
  }
}
