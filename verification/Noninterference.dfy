/**
  Two-run claims about the pipeline: what a client sends under X-User-* never
  shows in the answer or at the backend, and where a principal's parts come from.
 */
module Noninterference {
  import opened Wrappers
  import opened Headers
  import opened Projection
  import opened Pipeline

  // The same request, except perhaps for X-User-* headers.
  predicate SameButUser(a: Request, b: Request) {
    a.(header := Stripped(a.header)) == b.(header := Stripped(b.header))
  }

  // That is: equal in everything but headers, and in every header whose name does not start with X-User-.
  lemma SameButUserMeans(a: Request, b: Request)
    ensures SameButUser(a, b) <==>
      && a.(header := map[]) == b.(header := map[])
      && forall n :: !("X-User-" <= n) ==>
           (n in a.header <==> n in b.header) && (n in a.header && n in b.header ==> a.header[n] == b.header[n])
  {
    var x, y := Stripped(a.header), Stripped(b.header);
    if SameButUser(a, b) {
      assert x == y && a.(header := map[]) == b.(header := map[]);
      forall n | !("X-User-" <= n)
        ensures (n in a.header <==> n in b.header) && (n in a.header && n in b.header ==> a.header[n] == b.header[n])
      {
        assert n in x <==> n in a.header;
        assert n in y <==> n in b.header;
      }
    }
    if (forall n :: !("X-User-" <= n) ==>
          (n in a.header <==> n in b.header) && (n in a.header && n in b.header ==> a.header[n] == b.header[n])) {
      assert x == y;
    }
  }

  predicate Related(x: Outcome, y: Outcome) {
    match (x, y)
    case (Stop(a), Stop(b)) => a == b
    case (Pass(a), Pass(b)) => SameButUser(a, b)
    case _ => false
  }

  // The gate reads no X-User-* header; only configured names can make it do so.
  predicate Blind(g: Gate) {
    match g
    case SessionGate(Some(m)) => forall i :: 0 <= i < |m.fingerprints| ==> !UserHeader(Canonical(m.fingerprints[i]))
    case AssertionGate(_, header, _) => !UserHeader(Canonical(AssertionName(header)))
    case _ => true
  }

  lemma SameGet(h: Header, k: Header, name: string)
    requires Stripped(h) == Stripped(k) && !UserHeader(Canonical(name))
    ensures Get(h, name) == Get(k, name) && Values(h, name) == Values(k, name)
    ensures Stripped(Del(h, name)) == Stripped(Del(k, name))
  {
    var n := Canonical(name);
    assert n in h <==> n in Stripped(h);
    assert n in k <==> n in Stripped(k);
    assert Stripped(Del(h, name)) == Stripped(h) - {n};
    assert Stripped(Del(k, name)) == Stripped(k) - {n};
  }

  lemma FixedNamesAreBlind()
    ensures !UserHeader(Canonical(COOKIE)) && !UserHeader(Canonical(AUTHORIZATION))
    ensures !UserHeader(Canonical(FETCH_MODE))
  {
    NotUserHeader(COOKIE);
    NotUserHeader(AUTHORIZATION);
    NotUserHeader(FETCH_MODE);
  }

  lemma SameSession(m: Option<SessionReader>, h: Header, k: Header)
    requires Stripped(h) == Stripped(k) && Blind(SessionGate(m))
    ensures SessionOf(m, h) == SessionOf(m, k)
  {
    FixedNamesAreBlind();
    SameGet(h, k, COOKIE);
    if m.Some? {
      forall i | 0 <= i < |m.value.fingerprints|
        ensures Get(h, m.value.fingerprints[i]) == Get(k, m.value.fingerprints[i])
      {
        SameGet(h, k, m.value.fingerprints[i]);
      }
      assert GetAll(h, m.value.fingerprints) == GetAll(k, m.value.fingerprints);
    }
  }

  lemma GateIsBlind(g: Gate, a: Request, b: Request)
    requires SameButUser(a, b) && Blind(g) && !g.ProjectionGate? && !g.IssueAssertion?
    ensures Related(Act(g, a), Act(g, b))
  {
    FixedNamesAreBlind();
    match g
    case SessionGate(m) => SameSession(m, a.header, b.header);
    case BearerGate(_) => SameGet(a.header, b.header, AUTHORIZATION);
    case AssertionGate(_, header, _) => SameGet(a.header, b.header, AssertionName(header));
    case AuthGate(_, _, _) => SameGet(a.header, b.header, FETCH_MODE);
    case _ =>
  }

  // The projection gate forgets the difference altogether.
  lemma ProjectionAbsorbs(g: Gate, a: Request, b: Request)
    requires SameButUser(a, b) && g.ProjectionGate?
    ensures Act(g, a) == Act(g, b)
  {
  }

  lemma {:induction false} PrefixIsBlind(gates: seq<Gate>, a: Request, b: Request)
    requires SameButUser(a, b)
    requires forall i :: 0 <= i < |gates| ==> Blind(gates[i]) && !gates[i].ProjectionGate? && !gates[i].IssueAssertion?
    ensures Related(Run(gates, a), Run(gates, b))
  {
    if gates != [] {
      GateIsBlind(gates[0], a, b);
      if Act(gates[0], a).Pass? {
        PrefixIsBlind(gates[1..], Act(gates[0], a).request, Act(gates[0], b).request);
      }
    }
  }

  // The configured names this is about lie outside X-User-*.
  predicate NamesOutside(w: Wiring) {
    && Blind(SessionGate(w.session))
    && (w.accept.Some? ==> !UserHeader(Canonical(AssertionName(w.accept.value.header))))
  }

  lemma SkeletonRunsAlike(w: Wiring, a: Request, b: Request)
    requires AuthActive(w) && NamesOutside(w) && SameButUser(a, b)
    ensures Run(Skeleton(w), a) == Run(Skeleton(w), b)
  {
    hide Run, Act, Slot;
    var front, proj := Front(w), Last(w);
    assert Skeleton(w) == front + [proj];
    FrontIsBlind(w);
    PrefixIsBlind(front, a, b);
    RunConcat(front, [proj], a);
    RunConcat(front, [proj], b);
    if Run(front, a).Pass? {
      RunOne(proj, Run(front, a).request);
      RunOne(proj, Run(front, b).request);
      ProjectionAbsorbs(proj, Run(front, a).request, Run(front, b).request);
    }
  }

  lemma FrontIsBlind(w: Wiring)
    requires AuthActive(w) && NamesOutside(w)
    ensures forall i :: 0 <= i < |Front(w)| ==>
      Blind(Front(w)[i]) && !Front(w)[i].ProjectionGate? && !Front(w)[i].IssueAssertion?
  {
    hide UserHeader, Canonical;
  }

  lemma BuiltRunsAlike(w: Wiring, a: Request, b: Request)
    requires AuthActive(w) && NamesOutside(w) && SameButUser(a, b) && Build(w).Ok?
    ensures Run(Build(w).value, a) == Run(Build(w).value, b)
  {
    hide Run, Skeleton, Act, Slot;
    SkeletonRunsAlike(w, a, b);
    RunConcat(Skeleton(w), Minting(w), a);
    RunConcat(Skeleton(w), Minting(w), b);
    BuiltIsSkeletonAndMinting(w);
  }

  /**
    On every route with an active projection gate, through the whole composed
    chain and for every terminal handler: two requests that differ only in
    X-User-* headers get the same response, and reach the terminal, if they do,
    as the same request.
   */
  lemma UserHeadersDoNotInterfere(w: Wiring, terminal: Handler, a: Request, b: Request)
    requires AuthActive(w) && NamesOutside(w) && SameButUser(a, b) && Build(w).Ok?
    ensures Composed(terminal, WrapAll(Build(w).value))(a) == Composed(terminal, WrapAll(Build(w).value))(b)
    ensures Run(Build(w).value, a) == Run(Build(w).value, b)
  {
    BuiltRunsAlike(w, a, b);
    ComposeRuns(terminal, Build(w).value, a);
    ComposeRuns(terminal, Build(w).value, b);
  }

  // Two iteration orders for the principal of this request, whose claims go to distinct headers.
  ghost predicate OrdersAgree(w: Wiring, order': Principal -> seq<string>, r: Request) {
    var who := Identified(w, r).principal;
    who.Some? ==>
      && IsOrder(w.order(who.value), Iterated(who.value, w.sp)) && IsOrder(order'(who.value), Iterated(who.value, w.sp))
      && Injective(ClaimWrites(who.value, w.sp, GroupsHeader(w.sp, w.groupsAs)))
  }

  // The same claim when each of the two runs meets the claims in an order of its own.
  lemma NorDoIterationOrders(w: Wiring, order': Principal -> seq<string>, terminal: Handler, a: Request, b: Request)
    requires AuthActive(w) && NamesOutside(w) && SameButUser(a, b) && Build(w).Ok? && OrdersAgree(w, order', a)
    ensures var v := w.(order := order');
      && Build(v).Ok? && Run(Build(w).value, a) == Run(Build(v).value, b)
      && Composed(terminal, WrapAll(Build(w).value))(a) == Composed(terminal, WrapAll(Build(v).value))(b)
  {
    hide Run, Skeleton, Act, Slot, OrdersAgree;
    var v := w.(order := order');
    BuiltIsSkeletonAndMinting(w);
    BuiltIsSkeletonAndMinting(v);
    ReorderedSkeleton(w, order', a);
    RunConcat(Skeleton(w), Minting(w), a);
    RunConcat(Skeleton(v), Minting(v), a);
    BuiltRunsAlike(v, a, b);
    ComposeRuns(terminal, Build(w).value, a);
    ComposeRuns(terminal, Build(v).value, b);
  }

  lemma ReorderedSkeleton(w: Wiring, order': Principal -> seq<string>, r: Request)
    requires AuthActive(w) && OrdersAgree(w, order', r)
    ensures Run(Skeleton(w), r) == Run(Skeleton(w.(order := order')), r)
  {
    hide Run, Skeleton, Projected, Injective, IsOrder;
    var v := w.(order := order');
    SkeletonRuns(w, r);
    SkeletonRuns(v, r);
    var at := Identified(w, r);
    assert Slot(v) == Slot(w);
    assert Identified(v, r) == at && Decided(v, at) == Decided(w, at);
    if at.principal.Some? {
      var p := at.principal.value;
      OrderIsIrrelevant(Stripped(at.header), p, w.sp, GroupsHeader(w.sp, w.groupsAs), w.order(p), order'(p));
    }
  }

  /**
    Without a session, an IdP or an accept block nothing strips and nothing asks
    for a login, whatever the route requires: every request that no policy denies
    reaches the terminal with the headers the client sent.
   */
  lemma InactiveGatesPassEverything(w: Wiring, r: Request)
    requires !AuthActive(w)
    ensures var denied := if w.deny.Some? then w.deny.value(r.principal, r.verb, r.path) else None;
      Run(Skeleton(w), r) == if denied.Some? then Stop(denied.value) else Pass(r)
  {
    hide Run, Skeleton;
    SkeletonRuns(w, r);
  }

  /* ---- where the principal comes from ---- */

  // The principal of the first of cookie and bearer token that resolves one.
  function First(w: Wiring, r: Request): Option<Principal> {
    if SessionOf(w.session, r.header).Some? then SessionOf(w.session, r.header)
    else if w.bearer.None? then None
    else
      match ParseBearer(Get(r.header, AUTHORIZATION))
      case None => None
      case Some(token) =>
        var id := w.bearer.value(token);
        if id.None? || id.value.subject == "" then None
        else Some(Principal(id.value.subject, id.value.passport, id.value.groups, token, ""))
  }

  // The peer's verified statement, if the route accepts one and the request carries one.
  function Statement(w: Wiring, r: Request): Option<Identity> {
    if w.accept.None? || Get(r.header, AssertionName(w.accept.value.header)) == "" then None
    else w.accept.value.verify(Get(r.header, AssertionName(w.accept.value.header)))
  }

  /**
    On a service route the three identity gates never stop a request, and leave
    it with: the subject, access token and session id of the first of cookie and
    bearer token that resolved; the passport and groups of a verified assertion
    about the same subject, and otherwise of that first one; a principal from
    an assertion alone only when no bearer token is required and nothing else
    resolved; and never the assertion header itself.
   */
  lemma PrincipalProvenance(w: Wiring, r: Request)
    requires w.isService && r.principal.None?
    ensures Run(Slot(w), r).Pass?
    ensures var p, first, stated := Run(Slot(w), r).request.principal, First(w, r), Statement(w, r);
      && (first.Some? ==>
            && p.Some? && p.value.subject == first.value.subject
            && p.value.accessToken == first.value.accessToken && p.value.sessionId == first.value.sessionId
            && (if stated.Some? && stated.value.subject == first.value.subject
                then p.value.passport == stated.value.passport && p.value.groups == stated.value.groups
                else p == first))
      && (first.None? ==>
            && (p.Some? <==> stated.Some? && !w.accept.value.requireBearer)
            && (p.Some? ==>
                  p.value == Principal(stated.value.subject, stated.value.passport, stated.value.groups, "", "")))
    ensures w.accept.Some? ==> Absent(Run(Slot(w), r).request.header, AssertionName(w.accept.value.header))
  {
    var asserts := if w.accept.Some?
      then [AssertionGate(w.accept.value.verify, w.accept.value.header, w.accept.value.requireBearer)] else [];
    assert Slot(w) == Credentials(w) + asserts;
    RunConcat(Credentials(w), asserts, r);
    CredentialsResolveFirst(w, r);
    assert asserts != [] ==> asserts[1..] == [];
  }

  function Credentials(w: Wiring): seq<Gate> {
    [SessionGate(w.session)] + if w.bearer.Some? then [BearerGate(w.bearer.value)] else []
  }

  lemma CredentialsResolveFirst(w: Wiring, r: Request)
    requires r.principal.None?
    ensures Run(Credentials(w), r).Pass?
    ensures Run(Credentials(w), r).request.principal == First(w, r) && Run(Credentials(w), r).request.header == r.header
  {
    var session := SessionGate(w.session);
    var bearers := if w.bearer.Some? then [BearerGate(w.bearer.value)] else [];
    RunConcat([session], bearers, r);
    assert [session][1..] == [];
    assert bearers != [] ==> bearers[1..] == [];
  }

  // The error mark of a service route: a token was presented, nothing else resolved, and the provider did not know it.
  lemma BearerErrorIff(w: Wiring, r: Request)
    requires w.isService && r.principal.None? && !r.bearerError
    ensures Run(Slot(w), r).Pass?
    ensures Run(Slot(w), r).request.bearerError <==>
      && SessionOf(w.session, r.header).None? && w.bearer.Some?
      && ParseBearer(Get(r.header, AUTHORIZATION)).Some? && First(w, r).None?
  {
    hide ParseBearer, SessionOf, Get;
    var asserts := if w.accept.Some?
      then [AssertionGate(w.accept.value.verify, w.accept.value.header, w.accept.value.requireBearer)] else [];
    assert Slot(w) == Credentials(w) + asserts;
    RunConcat(Credentials(w), asserts, r);
    CredentialsMark(w, r);
    if asserts != [] { RunOne(asserts[0], Run(Credentials(w), r).request); }
  }

  lemma CredentialsMark(w: Wiring, r: Request)
    requires r.principal.None? && !r.bearerError
    ensures Run(Credentials(w), r).Pass?
    ensures Run(Credentials(w), r).request.bearerError <==>
      && SessionOf(w.session, r.header).None? && w.bearer.Some?
      && ParseBearer(Get(r.header, AUTHORIZATION)).Some? && First(w, r).None?
  {
    hide ParseBearer, SessionOf, Get;
    var session := SessionGate(w.session);
    var bearers := if w.bearer.Some? then [BearerGate(w.bearer.value)] else [];
    RunConcat([session], bearers, r);
    RunOne(session, r);
    if bearers != [] { RunOne(bearers[0], Act(session, r).request); }
  }
}
