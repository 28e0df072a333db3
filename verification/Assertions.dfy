/**
  The identity assertion of auth/assertion.go: a compact JWS of section 7.1 of
  RFC 7515 with the clock window of sections 4.1.4 and 4.1.6 of RFC 7519.
  JSON with base64url, and Ed25519, are functions with their laws as premises.
  Times are in nanoseconds; the claims hold whole seconds.
 */
module Assertions {
  import opened Wrappers
  import opened Text
  import P = Projection

  const SECOND := 1_000_000_000
  const SKEW := 30 * SECOND
  const KEY_SIZE := 32

  datatype Head = Head(alg: string, typ: string, kid: string)

  datatype Claims = Claims(
    issuer: string, subject: string, issuedAt: int, expiresAt: int, passport: map<string, P.Claim>, groups: seq<string>)

  type Key = seq<bv8>

  // The encodings and the signature scheme.
  datatype Scheme = Scheme(
    encodeHead: Head -> string, decodeHead: string -> Option<Head>,
    encodeClaims: Claims -> string, decodeClaims: string -> Option<Claims>,
    encodeSig: string -> string, decodeSig: string -> Option<string>,
    sign: (Key, string) -> string, verify: (Key, string, string) -> bool, publicOf: Key -> Key)

  predicate DotFree(s: string) { '.' !in s }

  ghost predicate Lawful(c: Scheme) {
    && (forall h :: DotFree(c.encodeHead(h)) && c.decodeHead(c.encodeHead(h)) == Some(h))
    && (forall x :: DotFree(c.encodeClaims(x)) && c.decodeClaims(c.encodeClaims(x)) == Some(x))
    && (forall s :: DotFree(c.encodeSig(s)) && c.decodeSig(c.encodeSig(s)) == Some(s))
    && (forall k, m :: c.verify(c.publicOf(k), m, c.sign(k, m)))
  }

  // Division rounds down, as time.Unix does.
  function Unix(t: int): int { t / SECOND }

  datatype Issuer = Issuer(name: string, kid: string, key: Key, ttl: int)

  function ClaimsOf(i: Issuer, p: P.Principal, now: int): Claims {
    Claims(i.name, p.subject, Unix(now), Unix(now + i.ttl), p.passport, p.groups)
  }

  function SigningInput(c: Scheme, i: Issuer, p: P.Principal, now: int): string {
    c.encodeHead(Head("EdDSA", "JWT", i.kid)) + "." + c.encodeClaims(ClaimsOf(i, p, now))
  }

  function Mint(c: Scheme, i: Issuer, p: P.Principal, now: int): string {
    SigningInput(c, i, p, now) + "." + c.encodeSig(c.sign(i.key, SigningInput(c, i, p, now)))
  }

  datatype Verifier = Verifier(issuer: string, keys: map<string, Key>)

  datatype Refusal =
    | NotCompact | BadHeader | BadAlgorithm | UnknownKey | BadSignature | BadPayload
    | WrongIssuer | NoSubject | Expired | FromTheFuture

  // Keys of the wrong length are dropped: the signature check would panic on them.
  method NewVerifier(issuer: string, keys: map<string, Key>) returns (v: Verifier)
    ensures v == Verifier(issuer, map kid | kid in keys && |keys[kid]| == KEY_SIZE :: keys[kid])
  {
    var safe: map<string, Key> := map[];
    var todo := keys.Keys;
    while todo != {}
      invariant todo <= keys.Keys
      invariant safe == map kid | kid in keys && kid !in todo && |keys[kid]| == KEY_SIZE :: keys[kid]
      decreases todo
    {
      var kid :| kid in todo;
      if |keys[kid]| == KEY_SIZE {
        safe := safe[kid := keys[kid]];
      }
      todo := todo - {kid};
    }
    v := Verifier(issuer, safe);
  }

  function Verify(c: Scheme, v: Verifier, token: string, now: int): Result<Claims, Refusal> {
    var parts := Split(token, '.');
    if |parts| != 3 then Err(NotCompact)
    else
      match c.decodeHead(parts[0])
      case None => Err(BadHeader)
      case Some(head) =>
        if head.alg != "EdDSA" then Err(BadAlgorithm)
        else if head.kid !in v.keys || |v.keys[head.kid]| != KEY_SIZE then Err(UnknownKey)
        else
          match c.decodeSig(parts[2])
          case None => Err(BadSignature)
          case Some(sig) =>
            if !c.verify(v.keys[head.kid], parts[0] + "." + parts[1], sig) then Err(BadSignature)
            else
              match c.decodeClaims(parts[1])
              case None => Err(BadPayload)
              case Some(claims) =>
                if claims.issuer != v.issuer then Err(WrongIssuer)
                else if claims.subject == "" then Err(NoSubject)
                else if now > claims.expiresAt * SECOND + SKEW then Err(Expired)
                else if claims.issuedAt * SECOND > now + SKEW then Err(FromTheFuture)
                else Ok(claims)
  }

  /**
    Exactly what is accepted: three parts, a header that names EdDSA and a known
    key of 32 bytes, a signature of the first two parts under it, and claims of
    the trusted issuer about somebody, neither expired nor from the future by
    more than 30 seconds.
   */
  lemma AcceptsIff(c: Scheme, v: Verifier, token: string, now: int, claims: Claims)
    ensures Verify(c, v, token, now) == Ok(claims) <==>
      var parts := Split(token, '.');
      && |parts| == 3
      && var head, sig := c.decodeHead(parts[0]), c.decodeSig(parts[2]);
      && head.Some? && head.value.alg == "EdDSA" && head.value.kid in v.keys && |v.keys[head.value.kid]| == 32
      && sig.Some? && c.verify(v.keys[head.value.kid], parts[0] + "." + parts[1], sig.value)
      && c.decodeClaims(parts[1]) == Some(claims)
      && claims.issuer == v.issuer && claims.subject != ""
      && now <= (claims.expiresAt + 30) * 1_000_000_000 && claims.issuedAt * 1_000_000_000 <= now + 30_000_000_000
  {
    hide Split;
  }

  // Two dot-free pieces around a dot split into themselves.
  lemma TwoPieces(a: string, b: string)
    requires DotFree(a) && DotFree(b)
    ensures Split(a + "." + b, '.') == [a, b]
  {
    SplitConcat(a, b, '.');
    SplitFree(a, '.');
    SplitFree(b, '.');
  }

  lemma MintedParts(c: Scheme, i: Issuer, p: P.Principal, now: int)
    requires Lawful(c)
    ensures Split(Mint(c, i, p, now), '.') ==
      [c.encodeHead(Head("EdDSA", "JWT", i.kid)), c.encodeClaims(ClaimsOf(i, p, now)),
       c.encodeSig(c.sign(i.key, SigningInput(c, i, p, now)))]
  {
    var a, b := c.encodeHead(Head("EdDSA", "JWT", i.kid)), c.encodeClaims(ClaimsOf(i, p, now));
    var s := c.encodeSig(c.sign(i.key, SigningInput(c, i, p, now)));
    SplitConcat(a + "." + b, s, '.');
    TwoPieces(a, b);
    SplitFree(s, '.');
  }

  // The verifier trusts this issuer's key under its kid, and the principal has a subject.
  ghost predicate Matching(c: Scheme, i: Issuer, v: Verifier, p: P.Principal) {
    i.name == v.issuer && i.kid in v.keys && v.keys[i.kid] == c.publicOf(i.key)
    && |c.publicOf(i.key)| == KEY_SIZE && p.subject != ""
  }

  // Exactly when a minted token is accepted, and with which claims.
  lemma MintThenVerify(c: Scheme, i: Issuer, v: Verifier, p: P.Principal, minted: int, now: int)
    requires Lawful(c) && Matching(c, i, v, p)
    ensures Verify(c, v, Mint(c, i, p, minted), now)
         == if now > Unix(minted + i.ttl) * SECOND + SKEW then Err(Expired)
            else if Unix(minted) * SECOND > now + SKEW then Err(FromTheFuture)
            else Ok(ClaimsOf(i, p, minted))
  {
    MintedParts(c, i, p, minted);
  }

  /**
    Mint and Verify against two clocks: accepted, with the same subject, passport
    and groups, at every verifier time in [m - 30s, m + ttl + 29s]; refused at
    every time after m + ttl + 30s and before m - 31s.  The gaps are what
    truncation to whole seconds can cost.
   */
  lemma ClockWindow(c: Scheme, i: Issuer, v: Verifier, p: P.Principal, minted: int, now: int)
    requires Lawful(c) && Matching(c, i, v, p)
    ensures var r := Verify(c, v, Mint(c, i, p, minted), now);
      && (minted - 30 * SECOND <= now <= minted + i.ttl + 29 * SECOND ==>
            r.Ok? && r.value.subject == p.subject && r.value.passport == p.passport && r.value.groups == p.groups)
      && (now > minted + i.ttl + 30 * SECOND ==> r == Err(Expired))
      && (now < minted - 31 * SECOND ==> r.Err?)
  {
    MintThenVerify(c, i, v, p, minted, now);
    UnixBounds(minted);
    UnixBounds(minted + i.ttl);
  }

  // What was minted so far.
  datatype Minting = Minting(issuer: Issuer, principal: P.Principal, at: int)

  // The token is three parts whose last one is a signature, under the key of its kid, of the first two.
  predicate SignatureHolds(c: Scheme, v: Verifier, token: string) {
    var parts := Split(token, '.');
    && |parts| == 3
    && var head, sig := c.decodeHead(parts[0]), c.decodeSig(parts[2]);
    && head.Some? && head.value.kid in v.keys && sig.Some?
    && c.verify(v.keys[head.value.kid], parts[0] + "." + parts[1], sig.value)
  }

  predicate WasSigned(c: Scheme, log: seq<Minting>, input: string) {
    exists j :: 0 <= j < |log| && input == SigningInput(c, log[j].issuer, log[j].principal, log[j].at)
  }

  /**
    Nobody else can sign: if the signature presented with this token holds, then
    a minting of the log signed what it is over.
   */
  predicate Unforged(c: Scheme, v: Verifier, log: seq<Minting>, token: string) {
    SignatureHolds(c, v, token) ==>
      var parts := Split(token, '.');
      WasSigned(c, log, parts[0] + "." + parts[1])
  }

  // A token that a trusted issuer minted meets that premise, and its signature does hold.
  lemma MintedIsUnforged(c: Scheme, v: Verifier, log: seq<Minting>, j: nat)
    requires Lawful(c) && j < |log| && Matching(c, log[j].issuer, v, log[j].principal)
    ensures var token := Mint(c, log[j].issuer, log[j].principal, log[j].at);
      SignatureHolds(c, v, token) && Unforged(c, v, log, token)
  {
    MintedParts(c, log[j].issuer, log[j].principal, log[j].at);
  }

  /**
    The other direction: whatever token is presented, forged ones included, if it
    is accepted then its claims are those of one minting, and the clock is inside
    that minting's window.  Splitting and re-joining cannot change what was signed.
   */
  lemma AcceptedWasMinted(c: Scheme, v: Verifier, log: seq<Minting>, token: string, now: int)
    requires Lawful(c) && Unforged(c, v, log, token) && Verify(c, v, token, now).Ok?
    ensures exists j ::
      && 0 <= j < |log|
      && Verify(c, v, token, now).value == ClaimsOf(log[j].issuer, log[j].principal, log[j].at)
      && log[j].issuer.name == v.issuer && log[j].principal.subject != ""
      && log[j].at - 31 * SECOND <= now <= log[j].at + log[j].issuer.ttl + 30 * SECOND
  {
    var parts := Split(token, '.');
    assert SignatureHolds(c, v, token);
    var input := parts[0] + "." + parts[1];
    var j :| 0 <= j < |log| && input == SigningInput(c, log[j].issuer, log[j].principal, log[j].at);
    var e := log[j];
    PiecesAreFree(token, '.', 0);
    PiecesAreFree(token, '.', 1);
    TwoPieces(parts[0], parts[1]);
    TwoPieces(c.encodeHead(Head("EdDSA", "JWT", e.issuer.kid)), c.encodeClaims(ClaimsOf(e.issuer, e.principal, e.at)));
    assert parts[1] == [parts[0], parts[1]][1] == c.encodeClaims(ClaimsOf(e.issuer, e.principal, e.at));
    UnixBounds(e.at);
    UnixBounds(e.at + e.issuer.ttl);
  }

  lemma UnixBounds(t: int)
    ensures t - SECOND < Unix(t) * SECOND <= t
  {
  }
}
