/**
  Identity projection of auth/projection.go: inbound X-User-* headers are
  stripped and, for an authenticated request, written anew from the principal.
  Go iterates over maps in any order; the order is explicit here.
 */
module Projection {
  import opened Wrappers
  import opened Headers
  import opened Text

  // A passport claim: `shown` is how fmt prints a value that is not a string.
  datatype Claim = Text(text: string) | Scalar(shown: string) | Compound(shown: string)

  datatype Principal = Principal(
    subject: string, passport: map<string, Claim>, groups: seq<string>, accessToken: string, sessionId: string)

  // A route's projection block; an empty groupsHeader means the default one.
  datatype SessionProjection = SessionProjection(claims: map<string, string>, groupsHeader: string)

  function Stringify(c: Claim): string { if c.Text? then c.text else c.shown }

  // The maximal runs between underscores and hyphens.
  function Fields(s: string, run: string := ""): seq<string>
    decreases |s|
  {
    var done := if run == "" then [] else [run];
    if s == "" then done
    else if s[0] == '_' || s[0] == '-' then done + Fields(s[1..])
    else Fields(s[1..], run + [s[0]])
  }

  // Upper case works on the first byte alone, which is no letter when the first letter takes several.
  function FirstByteUpper(c: char): char { if c as int < 0x80 then Upper(c) else 0xFFFD as char }

  // A part with anything outside ASCII left in it is shown inexactly, but no header of such a name is written.
  function TitleCase(part: string): string {
    seq(|part|, i requires 0 <= i < |part| => if i == 0 then FirstByteUpper(part[i]) else LowerRune(part[i]))
  }

  function TitleAll(parts: seq<string>): seq<string> {
    seq(|parts|, i requires 0 <= i < |parts| => TitleCase(parts[i]))
  }

  function CanonClaim(name: string): string { Join(TitleAll(Fields(name)), "-") }

  method Canon(name: string) returns (r: string)
    ensures r == CanonClaim(name)
  {
    var parts := Fields(name);
    for i := 0 to |parts|
      invariant |parts| == |Fields(name)|
      invariant forall j :: 0 <= j < i ==> parts[j] == TitleCase(Fields(name)[j])
      invariant forall j :: i <= j < |parts| ==> parts[j] == Fields(name)[j]
    {
      parts := parts[i := TitleCase(parts[i])];
    }
    assert parts == TitleAll(Fields(name));
    r := Join(parts, "-");
  }

  predicate SafeName(name: string) { name != "" && Token(name) }

  predicate SafeValue(value: string) { forall i :: 0 <= i < |value| ==> !(value[i] < ' ' || value[i] == 0x7f as char) }

  function SetSafe(h: Header, name: string, value: string): Header {
    if SafeName(name) && SafeValue(value) then Set(h, name, value) else h
  }

  function GroupsHeader(sp: Option<SessionProjection>, groupsAs: string): string {
    if sp.Some? && sp.value.groupsHeader != "" then sp.value.groupsHeader
    else USER_PREFIX + CanonClaim(if groupsAs == "" then "groups" else groupsAs)
  }

  predicate Overrides(sp: Option<SessionProjection>) { sp.Some? && sp.value.claims != map[] }

  /* ---- what is written, claim by claim ---- */

  type Writes = map<string, (string, string)>

  predicate Derives(p: Principal, gh: string, claim: string)
    requires claim in p.passport
  {
    var header := USER_PREFIX + CanonClaim(claim);
    && CanonClaim(claim) != "" && header != USER_ID && header != gh
    && !p.passport[claim].Compound?
    && SafeName(header) && SafeValue(Stringify(p.passport[claim]))
  }

  // For each claim that is projected, the header it goes to and its value.
  function ClaimWrites(p: Principal, sp: Option<SessionProjection>, gh: string): Writes {
    if Overrides(sp) then
      map c | c in sp.value.claims && c in p.passport
              && SafeName(sp.value.claims[c]) && SafeValue(Stringify(p.passport[c]))
        :: (Canonical(sp.value.claims[c]), Stringify(p.passport[c]))
    else
      map c | c in p.passport && Derives(p, gh, c) :: (Canonical(USER_PREFIX + CanonClaim(c)), Stringify(p.passport[c]))
  }

  // The claims the code iterates over.
  function Iterated(p: Principal, sp: Option<SessionProjection>): set<string> {
    if Overrides(sp) then sp.value.claims.Keys else p.passport.Keys
  }

  // Some iteration order of a Go map with these keys.
  predicate IsOrder(order: seq<string>, keys: set<string>) {
    && (forall i :: 0 <= i < |order| ==> order[i] in keys)
    && (forall k :: k in keys ==> k in order)
    && (forall i, j :: 0 <= i < j < |order| ==> order[i] != order[j])
  }

  function WriteAll(h: Header, w: Writes, order: seq<string>): Header {
    if order == [] then h
    else
      var before, k := WriteAll(h, w, order[..|order| - 1]), order[|order| - 1];
      if k in w then before[w[k].0 := [w[k].1]] else before
  }

  // Override mode first clears every configured target.
  function Base(h: Header, sp: Option<SessionProjection>): Header {
    if Overrides(sp) then h - (set c | c in sp.value.claims :: Canonical(sp.value.claims[c])) else h
  }

  // The subject and the groups, written last.
  function Trusted(h: Header, p: Principal, gh: string): Header {
    var cleared := Del(SetSafe(h, USER_ID, p.subject), gh);
    if p.groups != [] then SetSafe(cleared, gh, Join(p.groups, ",")) else cleared
  }

  function Projected(h: Header, p: Principal, sp: Option<SessionProjection>, gh: string, order: seq<string>): Header {
    Trusted(WriteAll(Base(h, sp), ClaimWrites(p, sp, gh), order), p, gh)
  }

  /* ---- order does not matter ---- */

  // Distinct claims go to distinct headers.
  ghost predicate Injective(w: Writes) {
    forall k, k' :: k in w && k' in w && w[k].0 == w[k'].0 ==> k == k'
  }

  ghost predicate WrittenBy(w: Writes, order: seq<string>, n: string, value: string) {
    exists i :: 0 <= i < |order| && order[i] in w && w[order[i]] == (n, value)
  }

  // Every header is the one of a claim that wrote it, or is as it was.
  lemma {:induction false} WriteAllAt(h: Header, w: Writes, order: seq<string>, n: string)
    ensures var r := WriteAll(h, w, order);
      && (n in r ==> (exists v :: r[n] == [v] && WrittenBy(w, order, n, v)) || (n in h && r[n] == h[n]))
      && (n in h ==> n in r)
      && ((exists v :: WrittenBy(w, order, n, v)) ==> n in r && exists v :: r[n] == [v] && WrittenBy(w, order, n, v))
  {
    if order != [] {
      var k, before := order[|order| - 1], order[..|order| - 1];
      WriteAllAt(h, w, before, n);
      forall v | WrittenBy(w, before, n, v) ensures WrittenBy(w, order, n, v) {
        var i :| 0 <= i < |before| && before[i] in w && w[before[i]] == (n, v);
        assert order[i] == before[i];
      }
      if k in w && w[k].0 == n {
        assert w[order[|order| - 1]] == (n, w[k].1);
        assert WrittenBy(w, order, n, w[k].1);
      } else {
        forall v | WrittenBy(w, order, n, v) ensures WrittenBy(w, before, n, v) {
          var i :| 0 <= i < |order| && order[i] in w && w[order[i]] == (n, v);
          assert before[i] == order[i];
        }
      }
    }
  }

  lemma SameWriters(w: Writes, keys: set<string>, a: seq<string>, b: seq<string>, n: string, v: string)
    requires IsOrder(a, keys) && IsOrder(b, keys) && WrittenBy(w, a, n, v)
    ensures WrittenBy(w, b, n, v)
  {
    var i :| 0 <= i < |a| && a[i] in w && w[a[i]] == (n, v);
    var j :| 0 <= j < |b| && b[j] == a[i];
  }

  lemma SameAt(h: Header, w: Writes, keys: set<string>, a: seq<string>, b: seq<string>, n: string)
    requires Injective(w) && IsOrder(a, keys) && IsOrder(b, keys)
    ensures n in WriteAll(h, w, a) ==> n in WriteAll(h, w, b) && WriteAll(h, w, a)[n] == WriteAll(h, w, b)[n]
  {
    WriteAllAt(h, w, a, n);
    WriteAllAt(h, w, b, n);
    if v :| WrittenBy(w, a, n, v) {
      SameWriters(w, keys, a, b, n, v);
    } else if v :| WrittenBy(w, b, n, v) {
      SameWriters(w, keys, b, a, n, v);
    }
  }

  // Whatever order the claims come in, the projected header map is the same.
  lemma OrderIsIrrelevant(
    h: Header, p: Principal, sp: Option<SessionProjection>, gh: string, a: seq<string>, b: seq<string>)
    requires IsOrder(a, Iterated(p, sp)) && IsOrder(b, Iterated(p, sp)) && Injective(ClaimWrites(p, sp, gh))
    ensures Projected(h, p, sp, gh, a) == Projected(h, p, sp, gh, b)
  {
    var w, base := ClaimWrites(p, sp, gh), Base(h, sp);
    forall n ensures (n in WriteAll(base, w, a) <==> n in WriteAll(base, w, b))
      && (n in WriteAll(base, w, a) ==> WriteAll(base, w, a)[n] == WriteAll(base, w, b)[n])
    {
      SameAt(base, w, Iterated(p, sp), a, b, n);
      SameAt(base, w, Iterated(p, sp), b, a, n);
    }
    assert WriteAll(base, w, a) == WriteAll(base, w, b);
  }

  // No claim can displace the subject or the groups, in either mode, collisions or not.
  lemma TrustedHeadersWin(h: Header, p: Principal, sp: Option<SessionProjection>, gh: string, order: seq<string>)
    requires Canonical(gh) != Canonical(USER_ID) && SafeValue(p.subject)
    ensures Is(Projected(h, p, sp, gh, order), USER_ID, p.subject)
    ensures if p.groups != [] && SafeName(gh) && SafeValue(Join(p.groups, ","))
            then Is(Projected(h, p, sp, gh, order), gh, Join(p.groups, ","))
            else Absent(Projected(h, p, sp, gh, order), gh)
  {
    assert SafeName(USER_ID);
  }

  // How a claim reads in a header: a string as it is, anything else as it prints.
  function Shown(c: Claim): string {
    match c case Text(text) => text case Scalar(shown) => shown case Compound(shown) => shown
  }

  // Claim c of the principal is the one that goes to header n: by its name, or as the route's block says.
  predicate GoesTo(p: Principal, sp: Option<SessionProjection>, c: string, n: string) {
    c in p.passport &&
    if sp.Some? && sp.value.claims != map[] then c in sp.value.claims && n == Canonical(sp.value.claims[c])
    else n == Canonical("X-User-" + CanonClaim(c)) && !p.passport[c].Compound?
  }

  // What is written is the value of a claim that goes there.
  lemma WrittenIsAClaim(
    p: Principal, sp: Option<SessionProjection>, gh: string, order: seq<string>, n: string, v: string)
    requires WrittenBy(ClaimWrites(p, sp, gh), order, n, v)
    ensures exists c :: GoesTo(p, sp, c, n) && v == Shown(p.passport[c])
  {
    hide Canonical, CanonClaim, SafeName, SafeValue;
    var w := ClaimWrites(p, sp, gh);
    var i :| 0 <= i < |order| && order[i] in w && w[order[i]] == (n, v);
    assert GoesTo(p, sp, order[i], n) && v == Shown(p.passport[order[i]]);
  }

  /**
    Downstream, an X-User-* header is the subject, the groups, or the value of a
    claim of this principal that goes to that header; never the client's.
   */
  lemma OnlyThePrincipalsHeaders(
    h: Header, p: Principal, sp: Option<SessionProjection>, gh: string, order: seq<string>, n: string)
    requires n in Projected(Stripped(h), p, sp, gh, order) && UserHeader(n)
    ensures n == Canonical(USER_ID) || n == Canonical(gh)
         || exists c :: GoesTo(p, sp, c, n) && Projected(Stripped(h), p, sp, gh, order)[n] == [Shown(p.passport[c])]
  {
    hide Canonical, SafeName, SafeValue, ClaimWrites, GoesTo;
    var w := ClaimWrites(p, sp, gh);
    WriteAllAt(Base(Stripped(h), sp), w, order, n);
    if n != Canonical(USER_ID) && n != Canonical(gh) {
      var v :| Projected(Stripped(h), p, sp, gh, order)[n] == [v] && WrittenBy(w, order, n, v);
      WrittenIsAClaim(p, sp, gh, order, n, v);
    }
  }

  // Characters that could end a header line or break it.
  predicate Clean(v: string) { forall i :: 0 <= i < |v| ==> !(v[i] as int < 0x20) && v[i] as int != 0x7f }

  // Whatever the order, a name to which exactly one writing claim goes ends with that claim's value.
  lemma SoleWriterWins(h: Header, w: Writes, order: seq<string>, c: string, n: string)
    requires c in order && c in w && w[c].0 == n && forall k :: k in w && w[k].0 == n ==> k == c
    ensures n in WriteAll(h, w, order) && WriteAll(h, w, order)[n] == [w[c].1]
  {
    WriteAllAt(h, w, order, n);
    assert WrittenBy(w, order, n, w[c].1) by {
      var i :| 0 <= i < |order| && order[i] == c;
      assert w[order[i]] == (n, w[c].1);
    }
  }

  lemma TrustedLeaves(h: Header, p: Principal, gh: string, n: string)
    requires n != Canonical(USER_ID) && n != Canonical(gh)
    ensures (n in Trusted(h, p, gh) <==> n in h) && (n in h ==> Trusted(h, p, gh)[n] == h[n])
  {
    hide Canonical, SafeName, SafeValue;
  }

  /**
    Without a projection block: every scalar claim whose name makes a header of
    its own and whose value is clean arrives under X-User-<Name> with its value.
   */
  lemma DerivedClaimsArrive(
    h: Header, p: Principal, sp: Option<SessionProjection>, gh: string, order: seq<string>, c: string)
    requires !Overrides(sp) && IsOrder(order, p.passport.Keys)
    requires c in p.passport && !p.passport[c].Compound? && Clean(Shown(p.passport[c]))
    requires CanonClaim(c) != "" && Token("X-User-" + CanonClaim(c))
    requires var n := Canonical("X-User-" + CanonClaim(c));
      && n != Canonical(USER_ID) && n != Canonical(gh)
      && forall d :: d in p.passport && Canonical("X-User-" + CanonClaim(d)) == n ==> d == c
    ensures Is(Projected(h, p, sp, gh, order), "X-User-" + CanonClaim(c), Shown(p.passport[c]))
  {
    hide Canonical, CanonClaim, Token, WriteAll, Trusted;
    var n, w := Canonical("X-User-" + CanonClaim(c)), ClaimWrites(p, sp, gh);
    assert c in w && w[c] == (n, Shown(p.passport[c]));
    SoleWriterWins(Base(h, sp), w, order, c, n);
    TrustedLeaves(WriteAll(Base(h, sp), w, order), p, gh, n);
  }

  /**
    With one: a listed claim arrives under the name the block gives it, and where
    the passport has no such claim nothing does, whatever the client sent there.
   */
  lemma ListedClaimsArrive(
    h: Header, p: Principal, sp: Option<SessionProjection>, gh: string, order: seq<string>, c: string)
    requires Overrides(sp) && IsOrder(order, sp.value.claims.Keys) && c in sp.value.claims
    requires var n := Canonical(sp.value.claims[c]);
      && n != Canonical(USER_ID) && n != Canonical(gh)
      && forall d :: d in sp.value.claims && Canonical(sp.value.claims[d]) == n ==> d == c
    ensures var name, sent := sp.value.claims[c], Projected(h, p, sp, gh, order);
      if c in p.passport && name != "" && Token(name) && Clean(Shown(p.passport[c]))
      then Is(sent, name, Shown(p.passport[c])) else Absent(sent, name)
  {
    hide Canonical, Token, WriteAll, Trusted;
    var n, w, base := Canonical(sp.value.claims[c]), ClaimWrites(p, sp, gh), Base(h, sp);
    TrustedLeaves(WriteAll(base, w, order), p, gh, n);
    if c in w {
      SoleWriterWins(base, w, order, c, n);
    } else {
      WriteAllAt(base, w, order, n);
    }
  }

  // The groups header: the block's own, else X-User- with the session's name for groups, else X-User-Groups.
  lemma GroupsHeaderName(sp: Option<SessionProjection>, groupsAs: string)
    ensures sp.Some? && sp.value.groupsHeader != "" ==> GroupsHeader(sp, groupsAs) == sp.value.groupsHeader
    ensures (sp.None? || sp.value.groupsHeader == "") && groupsAs != "" ==>
      GroupsHeader(sp, groupsAs) == "X-User-" + CanonClaim(groupsAs)
    ensures (sp.None? || sp.value.groupsHeader == "") && groupsAs == "" ==>
      GroupsHeader(sp, groupsAs) == "X-User-Groups"
  {
    hide CanonClaim;
    CanonWord("groups");
    assert TitleCase("groups") == "Groups";
  }

  /* ---- names of claims ---- */

  lemma {:induction false} FieldsOfWord(s: string, run: string)
    requires '_' !in s && '-' !in s
    ensures Fields(s, run) == if run + s == "" then [] else [run + s]
    decreases |s|
  {
    if s == "" {
      assert run + s == run;
    } else {
      assert s[0] in s;
      FieldsOfWord(s[1..], run + [s[0]]);
      assert (run + [s[0]]) + s[1..] == run + s;
    }
  }

  // A word is title-cased.
  lemma CanonWord(s: string)
    requires s != "" && '_' !in s && '-' !in s
    ensures CanonClaim(s) == TitleCase(s)
  {
    FieldsOfWord(s, "");
    assert "" + s == s;
    assert TitleAll([s]) == [TitleCase(s)];
  }

  // A capital first and small letters after it, for ASCII.
  lemma TitleCaseOfAscii(s: string, i: nat)
    requires i < |s| && s[i] as int < 0x80
    ensures |TitleCase(s)| == |s|
    ensures i == 0 ==> TitleCase(s)[i] == if 'a' <= s[i] <= 'z' then (s[i] as int - 32) as char else s[i]
    ensures i > 0 ==> TitleCase(s)[i] == if 'A' <= s[i] <= 'Z' then (s[i] as int + 32) as char else s[i]
  {
  }

  lemma {:induction false} FieldsConcat(a: string, sep: char, b: string, run: string)
    requires sep == '_' || sep == '-'
    ensures Fields(a + [sep] + b, run) == Fields(a, run) + Fields(b)
    decreases |a|
  {
    var whole := a + [sep] + b;
    if a == "" {
      assert whole[0] == sep && whole[1..] == b;
    } else {
      assert whole[0] == a[0] && whole[1..] == a[1..] + [sep] + b;
      if a[0] == '_' || a[0] == '-' {
        FieldsConcat(a[1..], sep, b, "");
      } else {
        FieldsConcat(a[1..], sep, b, run + [a[0]]);
      }
    }
  }

  lemma {:induction false} FieldsAreNonEmpty(s: string, run: string)
    ensures forall i :: 0 <= i < |Fields(s, run)| ==> Fields(s, run)[i] != ""
    decreases |s|
  {
    if s != "" {
      FieldsAreNonEmpty(s[1..], if s[0] == '_' || s[0] == '-' then "" else run + [s[0]]);
    }
  }

  lemma JoinedIsEmptyIff(parts: seq<string>)
    requires forall i :: 0 <= i < |parts| ==> parts[i] != ""
    ensures Join(TitleAll(parts), "-") == "" <==> parts == []
  {
    if parts != [] { assert |TitleAll(parts)[0]| == |parts[0]|; }
  }

  /**
    Underscores and hyphens separate words, and empty words do not count: the
    name of a compound claim is the names of its parts, joined with one hyphen.
   */
  lemma CanonConcat(a: string, sep: char, b: string)
    requires sep == '_' || sep == '-'
    ensures CanonClaim(a + [sep] + b) ==
      if CanonClaim(a) == "" then CanonClaim(b) else if CanonClaim(b) == "" then CanonClaim(a)
      else CanonClaim(a) + "-" + CanonClaim(b)
  {
    hide Fields, TitleCase;
    var x, y := Fields(a), Fields(b);
    FieldsConcat(a, sep, b, "");
    FieldsAreNonEmpty(a, "");
    FieldsAreNonEmpty(b, "");
    JoinedIsEmptyIff(x);
    JoinedIsEmptyIff(y);
    assert TitleAll(x + y) == TitleAll(x) + TitleAll(y);
    if x == [] {
      assert x + y == y;
    } else if y == [] {
      assert x + y == x;
    } else {
      JoinConcat(TitleAll(x), TitleAll(y), "-");
    }
  }

  // Examples of the code's own comment.
  lemma CanonExamples()
    ensures CanonClaim("email") == "Email" && CanonClaim("given_name") == "Given-Name"
  {
    hide CanonClaim;
    CanonWord("email");
    CanonWord("given");
    CanonWord("name");
    assert "given_name" == "given" + ['_'] + "name";
    CanonConcat("given", '_', "name");
    assert TitleCase("email") == "Email" && TitleCase("given") == "Given" && TitleCase("name") == "Name";
  }

  /* ---- the code, on a live request ---- */

  class LiveRequest {
    var header: Header

    constructor (header: Header)
      ensures this.header == header
    {
      this.header := header;
    }

    // Header keys are canonical, as the server delivers them.
    predicate CanonicalKeys()
      reads this
    {
      forall n :: n in header ==> Canonical(n) == n
    }

    method StripUserHeaders()
      requires CanonicalKeys()
      modifies this
      ensures header == Stripped(old(header))
      ensures forall n :: n in header <==> n in old(header) && !("X-User-" <= n)
      ensures forall n :: n in header ==> header[n] == old(header)[n]
    {
      var drop: seq<string> := [];
      var names := header.Keys;
      while names != {}
        invariant names <= header.Keys && header == old(header)
        invariant forall n :: n in drop <==> n in header && n !in names && UserHeader(n)
        decreases names
      {
        var name :| name in names;
        names := names - {name};
        if USER_PREFIX <= name {
          drop := drop + [name];
        }
      }
      for i := 0 to |drop|
        invariant header == map n | n in old(header) && n !in drop[..i] :: old(header)[n]
      {
        assert drop[i] in drop;
        header := Del(header, drop[i]);
        assert forall n :: n in drop[..i + 1] <==> n in drop[..i] || n == drop[i];
      }
      assert drop[..|drop|] == drop;
    }

    method SetHeaderSafe(name: string, value: string)
      modifies this
      ensures header == SetSafe(old(header), name, value)
      ensures if name != "" && Token(name) && Clean(value) then header == old(header)[Canonical(name) := [value]]
              else header == old(header)
    {
      if name == "" || !Token(name) {
        return;
      }
      if !SafeValue(value) {
        return;
      }
      header := Set(header, name, value);
    }

    // `order` reports the order in which the claims were taken.
    method ApplyProjection(p: Principal, sp: Option<SessionProjection>, groupsAs: string)
      returns (ghost order: seq<string>)
      modifies this
      ensures IsOrder(order, Iterated(p, sp))
      ensures header == Projected(old(header), p, sp, GroupsHeader(sp, groupsAs), order)
    {
      var gh := GroupsHeader(sp, groupsAs);
      if sp.Some? && sp.value.claims != map[] {
        ClearTargets(sp.value.claims);
        order := OverrideClaims(p, sp, gh);
      } else {
        order := DeriveClaims(p, sp, gh);
      }
      SetHeaderSafe(USER_ID, p.subject);
      header := Del(header, gh);
      if |p.groups| > 0 {
        SetHeaderSafe(gh, Join(p.groups, ","));
      }
    }

    method ClearTargets(claims: map<string, string>)
      modifies this
      ensures header == old(header) - (set c | c in claims :: Canonical(claims[c]))
    {
      var todo := claims.Keys;
      while todo != {}
        invariant todo <= claims.Keys
        invariant header == old(header) - (set c | c in claims && c !in todo :: Canonical(claims[c]))
        decreases todo
      {
        var c :| c in todo;
        header := Del(header, claims[c]);
        assert (set d | d in claims && d !in todo - {c} :: Canonical(claims[d]))
            == (set d | d in claims && d !in todo :: Canonical(claims[d])) + {Canonical(claims[c])};
        todo := todo - {c};
      }
    }

    method OverrideClaims(p: Principal, sp: Option<SessionProjection>, gh: string) returns (ghost order: seq<string>)
      requires Overrides(sp)
      modifies this
      ensures IsOrder(order, sp.value.claims.Keys)
      ensures header == WriteAll(old(header), ClaimWrites(p, sp, gh), order)
    {
      order := [];
      ghost var w := ClaimWrites(p, sp, gh);
      var todo := sp.value.claims.Keys;
      while todo != {}
        invariant todo <= sp.value.claims.Keys && IsOrder(order, sp.value.claims.Keys - todo)
        invariant header == WriteAll(old(header), w, order)
        decreases todo
      {
        var c :| c in todo;
        if c in p.passport {
          SetHeaderSafe(sp.value.claims[c], Stringify(p.passport[c]));
        }
        assert (order + [c])[..|order|] == order;
        order := order + [c];
        todo := todo - {c};
      }
    }

    method DeriveClaims(p: Principal, sp: Option<SessionProjection>, gh: string) returns (ghost order: seq<string>)
      requires !Overrides(sp)
      modifies this
      ensures IsOrder(order, p.passport.Keys)
      ensures header == WriteAll(old(header), ClaimWrites(p, sp, gh), order)
    {
      order := [];
      ghost var w := ClaimWrites(p, sp, gh);
      var todo := p.passport.Keys;
      while todo != {}
        invariant todo <= p.passport.Keys && IsOrder(order, p.passport.Keys - todo)
        invariant header == WriteAll(old(header), w, order)
        decreases todo
      {
        var k :| k in todo;
        assert (order + [k])[..|order|] == order;
        order := order + [k];
        todo := todo - {k};
        var c := Canon(k);
        if c == "" {
          continue;
        }
        var name := USER_PREFIX + c;
        if name == USER_ID || name == gh {
          continue;
        }
        if p.passport[k].Compound? {
          continue;
        }
        SetHeaderSafe(name, Stringify(p.passport[k]));
      }
    }
  }
}
