/**
  What leaves for a backend: terminal/forward.go after the gates of the route.
 */
module Backend {
  import opened Wrappers
  import opened Headers
  import opened Projection
  import opened Pipeline
  import Text

  function WithUserHeaders(out: Header, inbound: Header): Header {
    out + (map n | n in inbound && UserHeader(n) :: inbound[n])
  }

  function WithAuthorization(out: Header, r: Request, opts: ForwardOptions): Header {
    if opts.accessToken && r.principal.Some? && r.principal.value.accessToken != ""
    then Set(Del(out, AUTHORIZATION), AUTHORIZATION, "Bearer " + r.principal.value.accessToken)
    else Del(out, AUTHORIZATION)
  }

  // The name IssueAssertion used on this request, else the default one.
  function AssertionUsed(r: Request): string { AssertionName(r.assertionHeader) }

  function WithAssertion(out: Header, r: Request, opts: ForwardOptions): Header {
    var cleared := Del(Del(out, DEFAULT_ASSERTION), AssertionUsed(r));
    if opts.identity && Get(r.header, AssertionUsed(r)) != ""
    then Set(cleared, AssertionUsed(r), Get(r.header, AssertionUsed(r))) else cleared
  }

  // X-Forwarded-*: the peer is appended, host and protocol are passed on.
  function WithForwarded(out: Header, r: Request): Header {
    var prior := Get(r.header, FORWARDED_FOR);
    var chain := if prior != "" then prior + ", " + r.peer else r.peer;
    var a := if r.peer == "" then out else Set(out, FORWARDED_FOR, chain);
    var b := if r.host == "" then a else Set(a, FORWARDED_HOST, r.host);
    if Get(r.header, FORWARDED_PROTO) == "" then b else Set(b, FORWARDED_PROTO, Get(r.header, FORWARDED_PROTO))
  }

  function Prepared(out: Header, r: Request, opts: ForwardOptions): Header {
    var a := if opts.cookies then out else Del(out, COOKIE);
    WithForwarded(WithAssertion(WithAuthorization(WithUserHeaders(a, r.header), r, opts), r, opts), r)
  }

  // The outbound request, whose header map is changed step by step.
  class Outbound {
    var header: Header

    constructor (header: Header)
      ensures this.header == header
    {
      this.header := header;
    }

    method PrepareBackendRequest(r: Request, opts: ForwardOptions)
      modifies this
      ensures header == Prepared(old(header), r, opts)
    {
      if !opts.cookies {
        header := Del(header, COOKIE);
      }
      CopyUserHeaders(r.header);
      ReplaceAuthorization(r, opts);
      ReplaceAssertion(r, opts);
      SetXForwarded(r);
    }

    method ReplaceAuthorization(r: Request, opts: ForwardOptions)
      modifies this
      ensures header == WithAuthorization(old(header), r, opts)
    {
      header := Del(header, AUTHORIZATION);
      if opts.accessToken {
        if r.principal.Some? && r.principal.value.accessToken != "" {
          header := Set(header, AUTHORIZATION, "Bearer " + r.principal.value.accessToken);
        }
      }
    }

    method ReplaceAssertion(r: Request, opts: ForwardOptions)
      modifies this
      ensures header == WithAssertion(old(header), r, opts)
    {
      var name := DEFAULT_ASSERTION;
      if r.assertionHeader != "" {
        name := r.assertionHeader;
      }
      header := Del(header, DEFAULT_ASSERTION);
      if name != DEFAULT_ASSERTION {
        header := Del(header, name);
      }
      assert header == Del(Del(old(header), DEFAULT_ASSERTION), name);
      if opts.identity {
        var v := Get(r.header, name);
        if v != "" {
          header := Set(header, name, v);
        }
      }
    }

    method CopyUserHeaders(inbound: Header)
      modifies this
      ensures header == WithUserHeaders(old(header), inbound)
    {
      var todo := inbound.Keys;
      while todo != {}
        invariant todo <= inbound.Keys
        invariant header == old(header) + (map n | n in inbound && n !in todo && UserHeader(n) :: inbound[n])
        decreases todo
      {
        var k :| k in todo;
        if USER_PREFIX <= k {
          header := header[k := inbound[k]];
        }
        todo := todo - {k};
      }
      assert (map n | n in inbound && n !in todo && UserHeader(n) :: inbound[n]) ==
        map n | n in inbound && UserHeader(n) :: inbound[n];
    }

    method SetXForwarded(r: Request)
      modifies this
      ensures header == WithForwarded(old(header), r)
    {
      if r.peer != "" {
        var prior := Get(r.header, FORWARDED_FOR);
        if prior != "" {
          header := Set(header, FORWARDED_FOR, prior + ", " + r.peer);
        } else {
          header := Set(header, FORWARDED_FOR, r.peer);
        }
      }
      if r.host != "" {
        header := Set(header, FORWARDED_HOST, r.host);
      }
      var proto := Get(r.header, FORWARDED_PROTO);
      if proto != "" {
        header := Set(header, FORWARDED_PROTO, proto);
      }
    }
  }

  // The assertion header is none of the others the gateway writes.
  predicate Distinct(name: string) {
    var n := Canonical(name);
    && n != Canonical(AUTHORIZATION) && n != Canonical(FORWARDED_FOR)
    && n != Canonical(FORWARDED_HOST) && n != Canonical(FORWARDED_PROTO)
  }

  lemma ForwardedTouchesOnlyItself(out: Header, r: Request, n: string)
    requires n != Canonical(FORWARDED_FOR) && n != Canonical(FORWARDED_HOST) && n != Canonical(FORWARDED_PROTO)
    ensures n in WithForwarded(out, r) <==> n in out
    ensures n in out ==> WithForwarded(out, r)[n] == out[n]
  {
  }

  // The hops a comma-separated list names.
  function Hops(value: string): seq<string> { if value == "" then [] else Text.Split(value, ',') }

  /**
    What a backend learns about the way: the last hop of X-Forwarded-For is the
    peer that the gateway saw itself, after the hops the request claimed, which
    cannot displace it; host and protocol are the request's, each once.
   */
  lemma ForwardedTellsTheWay(out: Header, r: Request, opts: ForwardOptions)
    requires r.peer != "" && ',' !in r.peer
    ensures var sent, claimed := Prepared(out, r, opts), Hops(Get(r.header, FORWARDED_FOR));
      && Canonical(FORWARDED_FOR) in sent && |sent[Canonical(FORWARDED_FOR)]| == 1
      && Hops(Get(sent, FORWARDED_FOR)) == claimed + [if claimed == [] then r.peer else " " + r.peer]
      && (r.host != "" ==> Is(sent, FORWARDED_HOST, r.host))
      && (Get(r.header, FORWARDED_PROTO) != "" ==> Is(sent, FORWARDED_PROTO, Get(r.header, FORWARDED_PROTO)))
  {
    hide Text.Split, WithUserHeaders, WithAuthorization, WithAssertion, WithForwarded, Canonical;
    var a := if opts.cookies then out else Del(out, COOKIE);
    var b := WithAssertion(WithAuthorization(WithUserHeaders(a, r.header), r, opts), r, opts);
    ForwardedValues(b, r);
    AppendedHop(Get(r.header, FORWARDED_FOR), r.peer);
  }

  lemma ForwardedValues(out: Header, r: Request)
    requires r.peer != ""
    ensures var sent, prior := WithForwarded(out, r), Get(r.header, FORWARDED_FOR);
      && Is(sent, FORWARDED_FOR, if prior == "" then r.peer else prior + ", " + r.peer)
      && (r.host != "" ==> Is(sent, FORWARDED_HOST, r.host))
      && (Get(r.header, FORWARDED_PROTO) != "" ==> Is(sent, FORWARDED_PROTO, Get(r.header, FORWARDED_PROTO)))
  {
    hide Canonical;
    ForwardedNames();
  }

  // What is not known of the request is left as it was.
  lemma NothingIsMadeUp(out: Header, r: Request)
    ensures r.peer == "" ==> SameAt(WithForwarded(out, r), out, Canonical(FORWARDED_FOR))
    ensures r.host == "" ==> SameAt(WithForwarded(out, r), out, Canonical(FORWARDED_HOST))
    ensures Get(r.header, FORWARDED_PROTO) == "" ==> SameAt(WithForwarded(out, r), out, Canonical(FORWARDED_PROTO))
  {
    hide Canonical;
    ForwardedNames();
  }

  lemma AppendedHop(prior: string, peer: string)
    requires peer != "" && ',' !in peer
    ensures Hops(if prior == "" then peer else prior + ", " + peer) ==
      Hops(prior) + [if prior == "" then peer else " " + peer]
    ensures Hops(prior) == [] <==> prior == ""
  {
    hide Text.Split;
    if prior == "" {
      Text.SplitFree(peer, ',');
    } else {
      Text.SplitConcat(prior, " " + peer, ',');
      Text.SplitFree(" " + peer, ',');
      assert prior + [','] + (" " + peer) == prior + ", " + peer;
    }
  }

  lemma ForwardedNames()
    ensures Canonical(FORWARDED_FOR) != Canonical(FORWARDED_HOST)
    ensures Canonical(FORWARDED_FOR) != Canonical(FORWARDED_PROTO)
    ensures Canonical(FORWARDED_HOST) != Canonical(FORWARDED_PROTO)
  {
    assert |Canonical(FORWARDED_FOR)| == 15 && |Canonical(FORWARDED_HOST)| == 16 && |Canonical(FORWARDED_PROTO)| == 17;
  }

  // Whatever the client sent, Authorization is the principal's token if the route forwards it, else absent.
  lemma OutboundAuthorization(out: Header, r: Request, opts: ForwardOptions)
    requires Distinct(AssertionUsed(r))
    ensures if opts.accessToken && r.principal.Some? && r.principal.value.accessToken != ""
            then Is(Prepared(out, r, opts), AUTHORIZATION, "Bearer " + r.principal.value.accessToken)
            else Absent(Prepared(out, r, opts), AUTHORIZATION)
  {
    var a := WithUserHeaders(if opts.cookies then out else Del(out, COOKIE), r.header);
    var b := WithAuthorization(a, r, opts);
    assert |Canonical(DEFAULT_ASSERTION)| != |Canonical(AUTHORIZATION)|;
    ForwardedTouchesOnlyItself(WithAssertion(b, r, opts), r, Canonical(AUTHORIZATION));
  }

  lemma DefaultIsDistinct()
    ensures Distinct(DEFAULT_ASSERTION)
  {
    assert |Canonical(DEFAULT_ASSERTION)| == 14;
  }

  // What is sent under the assertion name, and under the default name.
  lemma OutboundAssertion(out: Header, r: Request, opts: ForwardOptions)
    requires Distinct(AssertionUsed(r))
    ensures var v := Get(r.header, AssertionUsed(r));
      && (if opts.identity && v != "" then Is(Prepared(out, r, opts), AssertionUsed(r), v)
          else Absent(Prepared(out, r, opts), AssertionUsed(r)))
      && (Canonical(DEFAULT_ASSERTION) != Canonical(AssertionUsed(r)) ==>
        Absent(Prepared(out, r, opts), DEFAULT_ASSERTION))
  {
    DefaultIsDistinct();
    var a := WithUserHeaders(if opts.cookies then out else Del(out, COOKIE), r.header);
    var b := WithAssertion(WithAuthorization(a, r, opts), r, opts);
    ForwardedTouchesOnlyItself(b, r, Canonical(AssertionUsed(r)));
    ForwardedTouchesOnlyItself(b, r, Canonical(DEFAULT_ASSERTION));
  }

  // The assertion a route mints for the principal it resolved.
  function Minted(w: Wiring, p: Option<Principal>): Option<string> {
    if w.issue.None? || p.None? then None else w.issue.value.mint(p.value)
  }

  // On a route that forwards identity anywhere, IssueAssertion is the last gate.
  lemma IssuerRanLast(w: Wiring, r: Request)
    requires Build(w).Ok? && ForwardsIdentity(w.backends) && Run(Build(w).value, r).Pass?
    ensures Run(Skeleton(w), r).Pass?
    ensures Run(Build(w).value, r) ==
      Act(IssueAssertion(w.issue.value.mint, w.issue.value.header), Run(Skeleton(w), r).request)
  {
    hide Run, Skeleton, Act;
    var last := IssueAssertion(w.issue.value.mint, w.issue.value.header);
    RunConcat(Skeleton(w), [last], r);
    if Run(Skeleton(w), r).Pass? { RunOne(last, Run(Skeleton(w), r).request); }
  }

  // After minting the header is the fresh assertion, or is not there.
  lemma IssuerLeaves(mint: Principal -> Option<string>, header: string, r: Request)
    requires forall p :: mint(p) != Some("")
    ensures var at := Act(IssueAssertion(mint, header), r).request;
      && at.principal == r.principal && AssertionUsed(at) == AssertionName(header)
      && Get(at.header, AssertionName(header)) ==
           if r.principal.Some? && mint(r.principal.value).Some? then mint(r.principal.value).value else ""
  {
    hide Canonical;
  }

  /**
    Through a whole built route that forwards identity to some backend: for any
    client headers, any outbound header map to start from and every one of the
    route's backends, the outbound assertion is the freshly minted one exactly
    when that backend opted in, a principal was resolved and minting succeeded;
    otherwise there is none, under the configured name or the default one.
   */
  lemma OutboundIdentityIsOurs(w: Wiring, r: Request, out: Header, i: nat)
    requires Build(w).Ok? && ForwardsIdentity(w.backends) && i < |w.backends|
    requires Run(Build(w).value, r).Pass? && Distinct(AssertionName(w.issue.value.header))
    requires forall p :: w.issue.value.mint(p) != Some("")
    ensures var at := Run(Build(w).value, r).request;
            var name, sent := AssertionName(w.issue.value.header), Prepared(out, at, w.backends[i]);
      && (if w.backends[i].identity && Minted(w, at.principal).Some?
          then Is(sent, name, Minted(w, at.principal).value) else Absent(sent, name))
      && (Canonical(name) != Canonical(DEFAULT_ASSERTION) ==> Absent(sent, DEFAULT_ASSERTION))
  {
    hide Run, Skeleton, Act, Canonical, Prepared, Distinct, Get;
    IssuerRanLast(w, r);
    IssuerLeaves(w.issue.value.mint, w.issue.value.header, Run(Skeleton(w), r).request);
    OutboundAssertion(out, Run(Build(w).value, r).request, w.backends[i]);
  }

  // And on a route that forwards identity nowhere, nothing is sent under the default name.
  lemma NoIdentityWithoutOptIn(w: Wiring, r: Request, out: Header, i: nat)
    requires Build(w).Ok? && !ForwardsIdentity(w.backends) && i < |w.backends| && r.assertionHeader == ""
    requires Run(Build(w).value, r).Pass?
    ensures Absent(Prepared(out, Run(Build(w).value, r).request, w.backends[i]), DEFAULT_ASSERTION)
  {
    hide Run, Canonical, Prepared, Get;
    SkeletonKeepsName(Skeleton(w), r);
    DefaultIsDistinct();
    OutboundAssertion(out, Run(Skeleton(w), r).request, w.backends[i]);
  }

  lemma {:induction false} SkeletonKeepsName(gates: seq<Gate>, r: Request)
    requires (forall i :: 0 <= i < |gates| ==> !gates[i].IssueAssertion?) && Run(gates, r).Pass?
    ensures Run(gates, r).request.assertionHeader == r.assertionHeader
  {
    if gates != [] { SkeletonKeepsName(gates[1..], Act(gates[0], r).request); }
  }

  /* ---- a header the gateway does not manage on this route ---- */

  // No gate of the route's skeleton writes or removes this canonical name.
  predicate GatesLeave(w: Wiring, n: string) {
    && !UserHeader(n)
    && (w.isService && w.accept.Some? ==> n != Canonical(AssertionName(w.accept.value.header)))
    && n != Canonical(USER_ID) && n != Canonical(GroupsHeader(w.sp, w.groupsAs))
    && (Overrides(w.sp) ==> forall c :: c in w.sp.value.claims ==> n != Canonical(w.sp.value.claims[c]))
  }

  // Nor does any step before the backend.
  predicate Unmanaged(w: Wiring, n: string) {
    && GatesLeave(w, n)
    && n != Canonical(COOKIE) && n != Canonical(AUTHORIZATION) && n != Canonical(DEFAULT_ASSERTION)
    && n != Canonical(FORWARDED_FOR) && n != Canonical(FORWARDED_HOST) && n != Canonical(FORWARDED_PROTO)
  }

  predicate SameAt(h: Header, k: Header, n: string) { (n in h <==> n in k) && (n in h ==> h[n] == k[n]) }

  // A derived name is an X-User-* name in canonical form too.
  lemma DerivedIsUserHeader(x: string)
    requires Token(USER_PREFIX + x)
    ensures UserHeader(Canonical(USER_PREFIX + x))
  {
    var name := USER_PREFIX + x;
    assert forall i :: 0 <= i < 7 ==> Canonical(name)[i] == USER_PREFIX[i];
  }

  lemma NotAClaimTarget(
    p: Principal, sp: Option<SessionProjection>, gh: string, order: seq<string>, n: string, v: string)
    requires !UserHeader(n)
    requires Overrides(sp) ==> forall c :: c in sp.value.claims ==> n != Canonical(sp.value.claims[c])
    ensures !WrittenBy(ClaimWrites(p, sp, gh), order, n, v)
  {
    hide Canonical, UserHeader, Token, CanonClaim, Stringify, SafeValue;
    var writes := ClaimWrites(p, sp, gh);
    forall i | 0 <= i < |order| && order[i] in writes ensures writes[order[i]].0 != n {
      if !Overrides(sp) { DerivedIsUserHeader(CanonClaim(order[i])); }
    }
  }

  lemma ProjectionKeeps(
    h: Header, p: Principal, sp: Option<SessionProjection>, gh: string, order: seq<string>, n: string)
    requires !UserHeader(n) && n != Canonical(USER_ID) && n != Canonical(gh)
    requires Overrides(sp) ==> forall c :: c in sp.value.claims ==> n != Canonical(sp.value.claims[c])
    ensures SameAt(Projected(Stripped(h), p, sp, gh, order), h, n)
  {
    hide Canonical, UserHeader, SafeName, SafeValue, WriteAll, ClaimWrites;
    var base := Base(Stripped(h), sp);
    var written := WriteAll(base, ClaimWrites(p, sp, gh), order);
    WriteAllAt(base, ClaimWrites(p, sp, gh), order, n);
    forall v ensures !WrittenBy(ClaimWrites(p, sp, gh), order, n, v) { NotAClaimTarget(p, sp, gh, order, n, v); }
    assert SameAt(base, h, n);
    assert SameAt(written, base, n);
    assert SameAt(Trusted(written, p, gh), written, n);
  }

  lemma {:induction false} GatesKeep(w: Wiring, gates: seq<Gate>, r: Request, n: string)
    requires GatesLeave(w, n) && (forall i :: 0 <= i < |gates| ==> OfWiring(w, gates[i])) && Run(gates, r).Pass?
    ensures SameAt(Run(gates, r).request.header, r.header, n)
  {
    hide GatesLeave, Act;
    if gates != [] {
      GateKeeps(w, gates[0], r, n);
      GatesKeep(w, gates[1..], Act(gates[0], r).request, n);
    }
  }

  // A gate of the skeleton of `w`.
  predicate OfWiring(w: Wiring, g: Gate) {
    match g
    case AssertionGate(_, header, _) => w.isService && w.accept.Some? && header == w.accept.value.header
    case ProjectionGate(sp, groupsAs, _) => sp == w.sp && groupsAs == w.groupsAs
    case IssueAssertion(_, _) => false
    case _ => true
  }

  lemma GateKeeps(w: Wiring, g: Gate, r: Request, n: string)
    requires GatesLeave(w, n) && OfWiring(w, g) && Act(g, r).Pass?
    ensures SameAt(Act(g, r).request.header, r.header, n)
  {
    hide Canonical, UserHeader, Projected, Stripped, ParseBearer, SessionOf, Asserted;
    if g.ProjectionGate? { ProjectionGateKeeps(g, r, n); }
  }

  lemma ProjectionGateKeeps(g: Gate, r: Request, n: string)
    requires g.ProjectionGate? && !UserHeader(n) && n != Canonical(USER_ID)
    requires n != Canonical(GroupsHeader(g.sp, g.groupsAs))
    requires Overrides(g.sp) ==> forall c :: c in g.sp.value.claims ==> n != Canonical(g.sp.value.claims[c])
    ensures SameAt(Act(g, r).request.header, r.header, n)
  {
    hide Canonical, UserHeader, Projected, GroupsHeader;
    if r.principal.Some? {
      var p := r.principal.value;
      ProjectionKeeps(r.header, p, g.sp, GroupsHeader(g.sp, g.groupsAs), g.order(p), n);
    }
  }

  lemma PreparedKeeps(w: Wiring, out: Header, r: Request, opts: ForwardOptions, n: string)
    requires Unmanaged(w, n) && r.assertionHeader == ""
    ensures SameAt(Prepared(out, r, opts), out, n)
  {
    hide Canonical, UserHeader;
    var a := if opts.cookies then out else Del(out, COOKIE);
    var b := WithAuthorization(WithUserHeaders(a, r.header), r, opts);
    assert SameAt(b, out, n);
    assert SameAt(WithAssertion(b, r, opts), b, n);
    ForwardedTouchesOnlyItself(WithAssertion(b, r, opts), r, n);
  }

  /**
    The configured assertion name on a route that mints nothing.  The comment in
    the code has it that no client-supplied header reaches a backend under that
    name; but the name is known only where IssueAssertion ran.  On a route that
    forwards identity nowhere, a proxied request, which starts from the client's
    headers, takes the client's value along exactly when there is one, and an
    aggregated one, which starts from none, never does.
   */
  lemma ConfiguredNameWithoutIssuer(w: Wiring, r: Request, name: string, i: nat)
    requires Build(w).Ok? && !ForwardsIdentity(w.backends) && i < |w.backends| && r.assertionHeader == ""
    requires Unmanaged(w, Canonical(name)) && Run(Build(w).value, r).Pass?
    ensures var at := Run(Build(w).value, r).request;
      && SameAt(Prepared(at.header, at, w.backends[i]), r.header, Canonical(name))
      && Absent(Prepared(map[], at, w.backends[i]), name)
  {
    hide Run, Canonical, Prepared, GatesLeave;
    SkeletonIsOfWiring(w);
    GatesKeep(w, Skeleton(w), r, Canonical(name));
    SkeletonKeepsName(Skeleton(w), r);
    var at := Run(Skeleton(w), r).request;
    PreparedKeeps(w, at.header, at, w.backends[i], Canonical(name));
    PreparedKeeps(w, map[], at, w.backends[i], Canonical(name));
  }

  lemma SkeletonIsOfWiring(w: Wiring)
    ensures forall i :: 0 <= i < |Skeleton(w)| ==> OfWiring(w, Skeleton(w)[i])
  {
  }

  /* ---- cookies and identity headers ---- */

  // The assertion header is not one of the others, cookies included.
  predicate NotCookie(name: string) { Canonical(name) != Canonical(COOKIE) }

  lemma OtherStepsLeaveCookies(out: Header, r: Request, opts: ForwardOptions)
    requires NotCookie(AssertionUsed(r))
    ensures var a := if opts.cookies then out else Del(out, COOKIE); SameAt(Prepared(out, r, opts), a, "Cookie")
  {
    hide Canonical;
    ManagedNamesAreCanonical();
    assert COOKIE[0] == 'C' && USER_PREFIX[0] == 'X';
    assert !UserHeader(COOKIE) && COOKIE != AUTHORIZATION && COOKIE != DEFAULT_ASSERTION;
    assert |COOKIE| != |FORWARDED_FOR| && |COOKIE| != |FORWARDED_HOST| && |COOKIE| != |FORWARDED_PROTO|;
    var a := if opts.cookies then out else Del(out, COOKIE);
    var b := WithAuthorization(WithUserHeaders(a, r.header), r, opts);
    assert SameAt(b, a, "Cookie");
    assert SameAt(WithAssertion(b, r, opts), b, "Cookie");
    ForwardedTouchesOnlyItself(WithAssertion(b, r, opts), r, "Cookie");
  }

  // Cookies leave exactly where the route forwards them: unchanged there, and not at all elsewhere.
  lemma OutboundCookies(out: Header, r: Request, opts: ForwardOptions)
    requires NotCookie(AssertionUsed(r))
    ensures !opts.cookies ==> "Cookie" !in Prepared(out, r, opts)
    ensures opts.cookies ==> SameAt(Prepared(out, r, opts), out, "Cookie")
  {
    hide Prepared, Canonical;
    ManagedNamesAreCanonical();
    OtherStepsLeaveCookies(out, r, opts);
  }

  lemma MintingKeeps(w: Wiring, r: Request, n: string)
    requires w.issue.Some? ==> n != Canonical(AssertionName(w.issue.value.header))
    ensures Run(Minting(w), r).Pass? && SameAt(Run(Minting(w), r).request.header, r.header, n)
    ensures AssertionUsed(Run(Minting(w), r).request) ==
      if Minting(w) == [] then AssertionUsed(r) else AssertionName(w.issue.value.header)
  {
    hide Canonical, Run;
    if Minting(w) == [] {
      assert Minting(w) == [];
      NoGatesPass(r);
    } else {
      assert Minting(w) == [Minting(w)[0]];
      RunOne(Minting(w)[0], r);
    }
  }

  lemma NoGatesPass(r: Request)
    ensures Run([], r) == Pass(r)
  {
  }

  /**
    Through a whole built route, proxied from the client's own headers: a backend
    gets the client's Cookie header, unchanged, exactly when it opted in, as long
    as nobody configured a header of that name.
   */
  lemma CookiesThroughTheRoute(w: Wiring, r: Request, i: nat)
    requires Build(w).Ok? && i < |w.backends| && r.assertionHeader == "" && Run(Build(w).value, r).Pass?
    requires GatesLeave(w, "Cookie") && (w.issue.Some? ==> NotCookie(AssertionName(w.issue.value.header)))
    ensures var at := Run(Build(w).value, r).request;
            var sent := Prepared(at.header, at, w.backends[i]);
      if w.backends[i].cookies then SameAt(sent, r.header, "Cookie") else "Cookie" !in sent
  {
    hide Run, Canonical, Prepared, GatesLeave, Skeleton, Build;
    ManagedNamesAreCanonical();
    BuiltIsSkeletonAndMinting(w);
    RunConcat(Skeleton(w), Minting(w), r);
    var mid := Run(Skeleton(w), r).request;
    SkeletonIsOfWiring(w);
    GatesKeep(w, Skeleton(w), r, "Cookie");
    SkeletonKeepsName(Skeleton(w), r);
    MintingKeeps(w, mid, "Cookie");
    DefaultIsNotCookie();
    var at := Run(Build(w).value, r).request;
    OutboundCookies(at.header, at, w.backends[i]);
  }

  lemma DefaultIsNotCookie()
    ensures NotCookie(DEFAULT_ASSERTION)
  {
    hide Canonical;
    ManagedNamesAreCanonical();
    assert |COOKIE| != |DEFAULT_ASSERTION|;
  }

  // The projected identity reaches the backend: every X-User-* header of the request, and no other value for it.
  lemma OutboundUserHeaders(out: Header, r: Request, opts: ForwardOptions, n: string)
    requires UserHeader(n) && n != Canonical(AssertionUsed(r))
    ensures n in r.header ==> n in Prepared(out, r, opts) && Prepared(out, r, opts)[n] == r.header[n]
    ensures n !in r.header ==> SameAt(Prepared(out, r, opts), out, n)
  {
    hide Canonical;
    ManagedNamesAreCanonical();
    UserNamesAreOthers(n);
    var a := if opts.cookies then out else Del(out, COOKIE);
    var b := WithUserHeaders(a, r.header);
    var c := WithAuthorization(b, r, opts);
    assert SameAt(c, b, n);
    assert SameAt(WithAssertion(c, r, opts), c, n);
    ForwardedTouchesOnlyItself(WithAssertion(c, r, opts), r, n);
  }

  lemma UserNamesAreOthers(n: string)
    requires UserHeader(n)
    ensures n != COOKIE && n != AUTHORIZATION && n != DEFAULT_ASSERTION
    ensures n != FORWARDED_FOR && n != FORWARDED_HOST && n != FORWARDED_PROTO
  {
    assert n[2] == USER_PREFIX[2] == 'U' && n[0] == 'X';
    assert FORWARDED_FOR[2] == 'F' && FORWARDED_HOST[2] == 'F' && FORWARDED_PROTO[2] == 'F';
    assert DEFAULT_ASSERTION[2] == 'H';
  }

  /* ---- from the resolved principal to the backend ---- */

  lemma SkeletonProjects(w: Wiring, r: Request)
    requires AuthActive(w) && Run(Skeleton(w), r).Pass?
    ensures var at, h := Identified(w, r), Run(Skeleton(w), r).request.header;
      match at.principal
      case Some(p) => h == Projected(Stripped(at.header), p, w.sp, GroupsHeader(w.sp, w.groupsAs), w.order(p))
      case None => h == Stripped(at.header)
  {
    hide Run, Skeleton, Projected, Stripped, Identified;
    SkeletonRuns(w, r);
  }

  // The issuer's header is no X-User-* header.
  predicate IssuerOutside(w: Wiring) {
    w.issue.Some? ==> !UserHeader(Canonical(AssertionName(w.issue.value.header)))
  }

  /**
    Through a whole built route with an active projection gate, to every backend
    and from any outbound map: X-User-Id is the subject of the principal that was
    resolved, and the groups header is its groups; nobody resolved, and no
    X-User-* header of the client arrives.
   */
  lemma IdentityArrives(w: Wiring, r: Request, out: Header, i: nat, n: string)
    requires Build(w).Ok? && AuthActive(w) && IssuerOutside(w) && i < |w.backends| && r.assertionHeader == ""
    requires Run(Build(w).value, r).Pass? && UserHeader(n)
    ensures var at, who := Run(Build(w).value, r).request, Identified(w, r).principal;
            var sent, gh := Prepared(out, at, w.backends[i]), GroupsHeader(w.sp, w.groupsAs);
      && (who.None? && n !in out ==> n !in sent)
      && (who.Some? && Clean(who.value.subject) && Canonical(gh) != Canonical(USER_ID) ==>
            Is(sent, "X-User-Id", who.value.subject))
      && (who.Some? && who.value.groups != [] && SafeName(gh) && Clean(Text.Join(who.value.groups, ","))
          && Clean(who.value.subject) && UserHeader(Canonical(gh)) && Canonical(gh) != Canonical(USER_ID) ==>
            Is(sent, gh, Text.Join(who.value.groups, ",")))
  {
    hide Run, Canonical, Prepared, Skeleton, Minting, Build, Projected, Identified, GroupsHeader;
    hide Text.Join, Clean, SafeName;
    BuiltIsSkeletonAndMinting(w);
    RunConcat(Skeleton(w), Minting(w), r);
    var mid, gh := Run(Skeleton(w), r).request, GroupsHeader(w.sp, w.groupsAs);
    SkeletonProjects(w, r);
    UserIdIsUserHeader();
    UserHeadersPass(w, r, mid, out, i, n);
    UserHeadersPass(w, r, mid, out, i, Canonical(USER_ID));
    var who := Identified(w, r).principal;
    if who.Some? && Clean(who.value.subject) && Canonical(gh) != Canonical(USER_ID) {
      CleanIsSafe(who.value.subject);
      CleanIsSafe(Text.Join(who.value.groups, ","));
      TrustedHeadersWin(Stripped(Identified(w, r).header), who.value, w.sp, gh, w.order(who.value));
      if UserHeader(Canonical(gh)) { UserHeadersPass(w, r, mid, out, i, Canonical(gh)); }
    }
  }

  lemma CleanIsSafe(v: string)
    ensures Clean(v) <==> SafeValue(v)
  {
  }

  lemma UserIdIsUserHeader()
    ensures Canonical(USER_ID) == "X-User-Id" && UserHeader("X-User-Id")
  {
    hide Canonical;
    ManagedNamesAreCanonical();
  }

  // An X-User-* header of the projected request is what the backend gets.
  lemma UserHeadersPass(w: Wiring, r: Request, mid: Request, out: Header, i: nat, n: string)
    requires Build(w).Ok? && IssuerOutside(w) && i < |w.backends| && r.assertionHeader == ""
    requires Run(Skeleton(w), r) == Pass(mid) && Run(Build(w).value, r) == Run(Minting(w), mid) && UserHeader(n)
    ensures Run(Minting(w), mid).Pass?
    ensures var sent := Prepared(out, Run(Minting(w), mid).request, w.backends[i]);
      if n in mid.header then n in sent && sent[n] == mid.header[n] else SameAt(sent, out, n)
  {
    hide Run, Canonical, Prepared, Skeleton, Build, UserHeader;
    SkeletonKeepsNameOf(w, r);
    MintingKeeps(w, mid, n);
    DefaultIsNoUserHeader();
    OutboundUserHeaders(out, Run(Minting(w), mid).request, w.backends[i], n);
  }

  lemma SkeletonKeepsNameOf(w: Wiring, r: Request)
    requires Run(Skeleton(w), r).Pass?
    ensures Run(Skeleton(w), r).request.assertionHeader == r.assertionHeader
  {
    hide Run;
    SkeletonKeepsName(Skeleton(w), r);
  }

  lemma DefaultIsNoUserHeader()
    ensures !UserHeader(Canonical(DEFAULT_ASSERTION))
  {
    hide Canonical;
    ManagedNamesAreCanonical();
    assert DEFAULT_ASSERTION[2] == 'H' && USER_PREFIX[2] == 'U';
  }
}
