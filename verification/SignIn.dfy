/**
  The browser sign-in endpoints of auth/endpoints.go with the login cookie of
  auth/loginstate.go.  Sealing, random draws, the identity provider and the
  session manager are parameters.
 */
module SignIn {
  import opened Wrappers
  import opened Http

  datatype LoginState = LoginState(state: string, nonce: string, verifier: string, returnTo: string)

  // `seal` and `open` work under the label "hog/login/v1"; `digest` is the hex of the hashed state.
  datatype Gateway = Gateway(
    seal: LoginState -> string, open: string -> Option<LoginState>, digest: string -> string, pkce: bool)

  const LOGIN_COOKIE := "hog_login"
  const LOGIN_TTL := 600
  const MAX_LOGIN_FLOWS := 5

  function LoginCookieName(g: Gateway, state: string): string { LOGIN_COOKIE + "_" + g.digest(state) }

  predicate IsLoginName(name: string) { name == LOGIN_COOKIE || HasPrefix(name, LOGIN_COOKIE + "_") }

  predicate Contains(s: string, sub: string) { exists i :: 0 <= i <= |s| && sub <= s[i..] }

  function SafeReturnTo(raw: string): string {
    if raw == "" || raw[0] != '/' then "/"
    else if HasPrefix(raw, "//") || HasPrefix(raw, "/\\") then "/"
    else if Contains(raw, "://") then "/"
    else raw
  }

  // A path on this origin: one leading slash, and nothing a browser takes for a scheme or a host.
  predicate LocalPath(p: string) {
    p != "" && p[0] == '/' && !HasPrefix(p, "//") && !HasPrefix(p, "/\\") && !Contains(p, "://")
  }

  // Only a local path comes out, and a local path comes out unchanged.
  lemma ReturnToIsLocal(raw: string)
    ensures LocalPath(SafeReturnTo(raw)) && (SafeReturnTo(raw) == raw <==> LocalPath(raw))
  {
    assert !Contains("/", "://");
  }

  /* ---- Login ---- */

  function Flows(cs: seq<Cookie>): seq<Cookie> {
    if cs == [] then []
    else Flows(cs[..|cs| - 1]) + if IsLoginName(cs[|cs| - 1].name) then [cs[|cs| - 1]] else []
  }

  function Expired(names: seq<Cookie>): seq<SetCookie> {
    seq(|names|, i requires 0 <= i < |names| => SetCookie(names[i].name, "", -1))
  }

  function Cleared(cs: seq<Cookie>): seq<SetCookie> {
    if |Flows(cs)| >= MAX_LOGIN_FLOWS then Expired(Flows(cs)) else []
  }

  function LoginCookiesSet(g: Gateway, cs: seq<Cookie>, ls: LoginState): seq<SetCookie> {
    Cleared(cs) + [SetCookie(LoginCookieName(g, ls.state), g.seal(ls), LOGIN_TTL)]
  }

  /* ---- Callback ---- */

  datatype Query = Query(state: string, code: string, error: string)

  function Named(cs: seq<Cookie>, name: string): Option<Cookie> {
    if cs == [] then None else if cs[0].name == name then Some(cs[0]) else Named(cs[1..], name)
  }

  // The sign-in's own cookie, else the one written before sign-ins had their own.
  function CallbackCookie(g: Gateway, cs: seq<Cookie>, state: string): Option<Cookie> {
    if Named(cs, LoginCookieName(g, state)).Some? then Named(cs, LoginCookieName(g, state)) else Named(cs, LOGIN_COOKIE)
  }

  datatype Verdict = Reject(text: string) | ProviderError | Exchange(ls: LoginState, cookie: string)

  function Judge(g: Gateway, cs: seq<Cookie>, q: Query): Verdict {
    match CallbackCookie(g, cs, q.state)
    case None => Reject("login session expired; please restart sign-in")
    case Some(raw) =>
      match g.open(raw.value)
      case None => Reject("login session invalid; please restart sign-in")
      case Some(ls) =>
        if q.error != "" then ProviderError
        else if q.code == "" || q.state != ls.state then Reject("invalid authentication response")
        else Exchange(ls, raw.name)
  }

  // What follows the code exchange; `issued` are the session manager's cookies.
  datatype Outcome = ExchangeFailed | UserInfoFailed | IssueFailed | Completed(issued: seq<SetCookie>)

  // What the provider and the session manager answer when asked; `issued` is None when no session was written.
  datatype Replies = Replies(exchanged: bool, needsUserInfo: bool, userInfo: bool, issued: Option<seq<SetCookie>>)

  function OutcomeOf(r: Replies): Outcome {
    if !r.exchanged then ExchangeFailed
    else if r.needsUserInfo && !r.userInfo then UserInfoFailed
    else if r.issued.None? then IssueFailed
    else Completed(r.issued.value)
  }

  function CallbackCookiesSet(v: Verdict, o: Outcome): seq<SetCookie> {
    if v.Exchange? && o.Completed? then o.issued + [SetCookie(v.cookie, "", -1)] else []
  }

  function CallbackAnswer(v: Verdict, o: Outcome, hasSession: bool): Answer {
    match v
    case Reject(text) => if hasSession then Redirect("/") else Failure(400, text)
    case ProviderError => Failure(400, "identity provider returned an error")
    case Exchange(ls, _) =>
      match o
      case ExchangeFailed => Failure(502, "authentication failed")
      case UserInfoFailed => Failure(502, "authentication failed")
      case IssueFailed => Failure(500, "internal error")
      case Completed(_) => Redirect(ls.returnTo)
  }

  // The code, verifier and nonce handed to the provider.
  datatype Handed = Handed(code: string, verifier: string, nonce: string)

  // Only a callback that matches its sign-in hands anything over.
  function HandedOver(v: Verdict, q: Query): Option<Handed> {
    if v.Exchange? then Some(Handed(q.code, v.ls.verifier, v.ls.nonce)) else None
  }

  class Handlers {
    const g: Gateway

    constructor (g: Gateway)
      ensures this.g == g
    {
      this.g := g;
    }

    method LoginCookies(cs: seq<Cookie>) returns (out: seq<Cookie>)
      ensures out == Flows(cs)
      ensures forall c :: c in out <==> c in cs && (c.name == "hog_login" || "hog_login_" <= c.name)
    {
      out := [];
      for k := 0 to |cs|
        invariant out == Flows(cs[..k])
        invariant forall c :: c in out <==> c in cs[..k] && (c.name == "hog_login" || "hog_login_" <= c.name)
      {
        assert cs[..k + 1][..k] == cs[..k];
        if cs[k].name == LOGIN_COOKIE || HasPrefix(cs[k].name, LOGIN_COOKIE + "_") {
          out := out + [cs[k]];
        }
      }
      assert cs[..|cs|] == cs;
    }

    method ExpireLoginCookie(w: ResponseWriter, name: string)
      modifies w`cookies
      ensures w.cookies == old(w.cookies) + [SetCookie(name, "", -1)]
    {
      w.AddCookie(SetCookie(name, "", -1));
    }

    // `state`, `nonce` and `verifier` are the random draws; `authURL` is the provider's.
    method Login(
      w: ResponseWriter, cs: seq<Cookie>, rawReturnTo: string, state: string, nonce: string, verifier: string,
      seals: bool, authURL: LoginState -> string)
      returns (ls: LoginState)
      modifies w
      ensures ls == LoginState(state, nonce, if g.pkce then verifier else "", SafeReturnTo(rawReturnTo))
      ensures w.cookies == old(w.cookies) + if seals then LoginCookiesSet(g, cs, ls) else []
      ensures w.answer == if seals then Redirect(authURL(ls)) else Failure(500, "internal error")
      ensures seals ==>
        w.cookies != [] && w.cookies[|w.cookies| - 1] == SetCookie("hog_login_" + g.digest(state), g.seal(ls), 600)
    {
      hide Cleared, SafeReturnTo;
      ls := LoginState(state, nonce, "", SafeReturnTo(rawReturnTo));
      if g.pkce {
        ls := ls.(verifier := verifier);
      }
      if !seals {
        w.answer := Failure(500, "internal error");
        return;
      }
      var sealed := g.seal(ls);
      MakeRoom(w, cs);
      assert LoginCookieName(g, ls.state) == "hog_login_" + g.digest(state);
      w.AddCookie(SetCookie(LoginCookieName(g, ls.state), sealed, LOGIN_TTL));
      w.answer := Redirect(authURL(ls));
    }

    // At the limit a new sign-in clears the others.
    method MakeRoom(w: ResponseWriter, cs: seq<Cookie>)
      modifies w`cookies
      ensures w.cookies == old(w.cookies) + Cleared(cs)
    {
      var flows := LoginCookies(cs);
      if |flows| >= MAX_LOGIN_FLOWS {
        for k := 0 to |flows|
          invariant w.cookies == old(w.cookies) + Expired(flows)[..k]
        {
          ExpireLoginCookie(w, flows[k].name);
          assert Expired(flows)[..k + 1] == Expired(flows)[..k] + [Expired(flows)[k]];
        }
        assert Expired(flows)[..|flows|] == Expired(flows);
      }
    }

    method Lookup(cs: seq<Cookie>, name: string) returns (c: Option<Cookie>)
      ensures c == Named(cs, name)
    {
      var k := 0;
      while k < |cs| && cs[k].name != name
        invariant 0 <= k <= |cs| && Named(cs, name) == Named(cs[k..], name)
      {
        assert cs[k..][1..] == cs[k + 1..];
        k := k + 1;
      }
      c := if k < |cs| then Some(cs[k]) else None;
    }

    method RejectCallback(w: ResponseWriter, hasSession: bool, text: string)
      modifies w`answer
      ensures w.answer == if hasSession then Redirect("/") else Failure(400, text)
    {
      w.answer := if hasSession then Redirect("/") else Failure(400, text);
    }

    method Callback(w: ResponseWriter, cs: seq<Cookie>, q: Query, hasSession: bool, r: Replies)
      returns (handed: Option<Handed>)
      modifies w
      ensures var v := Judge(g, cs, q);
        && w.cookies == old(w.cookies) + CallbackCookiesSet(v, OutcomeOf(r))
        && w.answer == CallbackAnswer(v, OutcomeOf(r), hasSession)
        && handed == HandedOver(v, q)
      ensures Judge(g, cs, q).Exchange? ==>
        var ls, cookie := Judge(g, cs, q).ls, Judge(g, cs, q).cookie;
        if !r.exchanged || (r.needsUserInfo && !r.userInfo) then
          w.answer == Failure(502, "authentication failed") && w.cookies == old(w.cookies)
        else if r.issued.None? then
          w.answer == Failure(500, "internal error") && w.cookies == old(w.cookies)
        else
          && w.answer == Redirect(ls.returnTo)
          && w.cookies == old(w.cookies) + r.issued.value + [SetCookie(cookie, "", -1)]
      ensures !Judge(g, cs, q).Exchange? ==> w.cookies == old(w.cookies) && handed.None?
      ensures Judge(g, cs, q).ProviderError? ==> w.answer == Failure(400, "identity provider returned an error")
      ensures Judge(g, cs, q).Reject? ==>
        w.answer == if hasSession then Redirect("/") else Failure(400, Judge(g, cs, q).text)
    {
      handed := None;
      var raw := Lookup(cs, LoginCookieName(g, q.state));
      if raw.None? {
        raw := Lookup(cs, LOGIN_COOKIE);
      }
      if raw.None? {
        RejectCallback(w, hasSession, "login session expired; please restart sign-in");
        return;
      }
      var opening := g.open(raw.value.value);
      if opening.None? {
        RejectCallback(w, hasSession, "login session invalid; please restart sign-in");
        return;
      }
      var ls := opening.value;
      if q.error != "" {
        w.answer := Failure(400, "identity provider returned an error");
        return;
      }
      if q.code == "" || q.state != ls.state {
        RejectCallback(w, hasSession, "invalid authentication response");
        return;
      }
      handed := Some(Handed(q.code, ls.verifier, ls.nonce));
      if !r.exchanged {
        w.answer := Failure(502, "authentication failed");
        return;
      }
      if r.needsUserInfo {
        if !r.userInfo {
          w.answer := Failure(502, "authentication failed");
          return;
        }
      }
      if r.issued.None? {
        w.answer := Failure(500, "internal error");
        return;
      }
      w.cookies := w.cookies + r.issued.value;
      ExpireLoginCookie(w, raw.value.name);
      w.answer := Redirect(ls.returnTo);
    }
  }
}
