/**
  The stateless session manager of session/manager.go over the chunked cookie.
  Encryption with JSON encoding is a pair of functions that invert each other
  under one domain label.
 */
module CookieManager {
  import opened Wrappers
  import opened Http
  import opened CookieCodec
  import opened Numerals
  import SP = SessionProtocol

  const SESSION_LABEL := "hog/session/v1"

  datatype Sealer = Sealer(seal: (SP.Session, string) -> string, open: (string, string) -> Option<SP.Session>)

  ghost predicate Lawful(s: Sealer) {
    forall plain: SP.Session, domain: string ::
      s.open(s.seal(plain, domain), domain) == Some(plain) && s.seal(plain, domain) != ""
  }

  datatype ReadError = NoSession | InvalidSession

  // What Read makes of a request's cookies at time `now`, for a client with fingerprint `fp`.
  function ReadSession(
    sealer: Sealer, name: string, cs: seq<Cookie>, now: int, fp: string): Result<SP.Session, ReadError>
  {
    match ReadBack(cs, name)
    case None => Err(NoSession)
    case Some(value) =>
      match sealer.open(value, SESSION_LABEL)
      case None => Err(InvalidSession)
      case Some(s) => if now > s.expiry || s.fingerprint != fp then Err(InvalidSession) else Ok(s)
  }

  class Manager {
    const name: string
    const sealer: Sealer

    constructor (name: string, sealer: Sealer)
      ensures this.name == name && this.sealer == sealer
    {
      this.name, this.sealer := name, sealer;
    }

    method Issue(w: ResponseWriter, cs: seq<Cookie>, s: SP.Session)
      modifies w`cookies
      ensures w.cookies == old(w.cookies) + Issued(cs, name, sealer.seal(s, SESSION_LABEL))
    {
      var value := sealer.seal(s, SESSION_LABEL);
      ClearChunkedCookie(w, cs, name);
      WriteChunkedCookie(w, name, value);
    }

    method Read(cs: seq<Cookie>, now: int, fp: string) returns (r: Result<SP.Session, ReadError>)
      ensures r == ReadSession(sealer, name, cs, now, fp)
    {
      var value := ReadChunkedCookie(cs, name);
      if value.None? {
        return Err(NoSession);
      }
      var found := sealer.open(value.value, SESSION_LABEL);
      if found.None? {
        return Err(InvalidSession);
      }
      var s := found.value;
      if now > s.expiry {
        return Err(InvalidSession);
      }
      if s.fingerprint != fp {
        return Err(InvalidSession);
      }
      return Ok(s);
    }

    method Clear(w: ResponseWriter, cs: seq<Cookie>)
      modifies w`cookies
      ensures w.cookies == old(w.cookies) + Expirations(cs, name + ".")
    {
      ClearChunkedCookie(w, cs, name);
    }
  }

  /**
    An issued session reads back whole, to its own client and until it expires,
    and to nobody else.  The length of the sealed text is a Go int.
   */
  lemma IssueThenRead(
    sealer: Sealer, name: string, jar: Jar, cs: seq<Cookie>, s: SP.Session, cs': seq<Cookie>, now: int, fp: string)
    requires Lawful(sealer) && |sealer.seal(s, SESSION_LABEL)| <= MAX_INT && Sends(jar, cs)
    requires Sends(KeepAll(jar, Issued(cs, name, sealer.seal(s, SESSION_LABEL))), cs')
    ensures ReadSession(sealer, name, cs', now, fp)
         == if now <= s.expiry && fp == s.fingerprint then Ok(s) else Err(InvalidSession)
  {
    ChunkedRoundTrip(jar, cs, name, sealer.seal(s, SESSION_LABEL), cs');
  }

  // Which of the three results a request gets, whatever its cookies hold.
  lemma ReadSessionIs(sealer: Sealer, name: string, cs: seq<Cookie>, now: int, fp: string, s: SP.Session)
    ensures var value := ReadBack(cs, name);
      && (ReadSession(sealer, name, cs, now, fp) == Err(NoSession) <==> value.None?)
      && (ReadSession(sealer, name, cs, now, fp) == Ok(s) <==>
            && value.Some? && sealer.open(value.value, "hog/session/v1") == Some(s)
            && now <= s.expiry && fp == s.fingerprint)
  {
    hide ReadBack;
  }

  lemma ClearThenRead(sealer: Sealer, name: string, jar: Jar, cs: seq<Cookie>, cs': seq<Cookie>, now: int, fp: string)
    requires Sends(jar, cs) && Sends(KeepAll(jar, Expirations(cs, name + ".")), cs')
    ensures ReadSession(sealer, name, cs', now, fp) == Err(NoSession)
  {
    ClearedIsGone(jar, cs, name, cs');
  }
}
