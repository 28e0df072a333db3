/**
  Exchange pairing: over every run of Login and Callback requests, from any
  number of browsers and with any cookies, a code is only ever exchanged with the
  nonce and the verifier that were drawn together with the callback's state.
 */
module SignInPairing {
  import opened Wrappers
  import opened Http
  import opened SignIn

  datatype Entry = Entry(raw: string, ls: LoginState)

  datatype Event =
    | Exchanged(state: string, handed: Handed)
    | SignedIn(state: string, to: string)

  datatype State = State(logins: seq<Entry>, log: seq<Event>)

  datatype Label =
    | Login(raw: string, ls: LoginState)
    | Callback(cs: seq<Cookie>, q: Query, o: Outcome, hasSession: bool)

  // States are drawn without repetition, and only Login can seal a login state.
  ghost predicate Enabled(g: Gateway, s: State, l: Label) {
    match l
    case Login(raw, ls) =>
      && ls.returnTo == SafeReturnTo(raw)
      && (forall i :: 0 <= i < |s.logins| ==> s.logins[i].ls.state != ls.state)
    case Callback(cs, _, _, _) =>
      forall j :: 0 <= j < |cs| && g.open(cs[j].value).Some? ==>
        exists i :: 0 <= i < |s.logins| && s.logins[i].ls == g.open(cs[j].value).value
  }

  // What the provider is handed, and where the handler's own answer sends a browser that is signed in.
  function News(g: Gateway, cs: seq<Cookie>, q: Query, o: Outcome, hasSession: bool): seq<Event> {
    var v := Judge(g, cs, q);
    match HandedOver(v, q)
    case None => []
    case Some(handed) =>
      [Exchanged(q.state, handed)]
      + if o.Completed? then [SignedIn(q.state, Location(CallbackAnswer(v, o, hasSession)))] else []
  }

  // A failure sends nobody anywhere.
  function Location(a: Answer): string { if a.Redirect? then a.location else "" }

  function Apply(g: Gateway, s: State, l: Label): State {
    match l
    case Login(raw, ls) => s.(logins := s.logins + [Entry(raw, ls)])
    case Callback(cs, q, o, hasSession) => s.(log := s.log + News(g, cs, q, o, hasSession))
  }

  ghost predicate Valid(g: Gateway, s: State, ls: seq<Label>)
    decreases |ls|
  {
    ls == [] || (Enabled(g, s, ls[0]) && Valid(g, Apply(g, s, ls[0]), ls[1..]))
  }

  function Exec(g: Gateway, s: State, ls: seq<Label>): State
    decreases |ls|
  {
    if ls == [] then s else Exec(g, Apply(g, s, ls[0]), ls[1..])
  }

  // The event belongs to login i: same state, its own nonce and verifier, its own way back.
  predicate BelongsTo(e: Event, login: Entry) {
    e.state == login.ls.state &&
    match e
    case Exchanged(_, handed) => handed.verifier == login.ls.verifier && handed.nonce == login.ls.nonce
    case SignedIn(_, to) => to == SafeReturnTo(login.raw) && LocalPath(to)
  }

  ghost predicate Attributed(e: Event, logins: seq<Entry>) {
    exists i :: 0 <= i < |logins| && BelongsTo(e, logins[i])
  }

  ghost predicate Paired(s: State) {
    && (forall i :: 0 <= i < |s.logins| ==> s.logins[i].ls.returnTo == SafeReturnTo(s.logins[i].raw))
    && (forall i, j :: 0 <= i < j < |s.logins| ==> s.logins[i].ls.state != s.logins[j].ls.state)
    && (forall e :: 0 <= e < |s.log| ==> Attributed(s.log[e], s.logins))
  }

  lemma {:induction false} NamedIsSent(cs: seq<Cookie>, name: string)
    ensures Named(cs, name).Some? ==> exists j :: 0 <= j < |cs| && cs[j] == Named(cs, name).value && cs[j].name == name
  {
    if cs != [] && cs[0].name != name {
      NamedIsSent(cs[1..], name);
      if Named(cs, name).Some? {
        var j :| 0 <= j < |cs[1..]| && cs[1..][j] == Named(cs, name).value && cs[1..][j].name == name;
        assert cs[j + 1] == cs[1..][j];
      }
    }
  }

  lemma CallbackEvents(g: Gateway, s: State, cs: seq<Cookie>, q: Query, o: Outcome, hasSession: bool)
    requires Paired(s) && Enabled(g, s, Callback(cs, q, o, hasSession))
    ensures forall e :: 0 <= e < |News(g, cs, q, o, hasSession)| ==>
      Attributed(News(g, cs, q, o, hasSession)[e], s.logins)
  {
    NamedIsSent(cs, LoginCookieName(g, q.state));
    NamedIsSent(cs, LOGIN_COOKIE);
    var v := Judge(g, cs, q);
    if v.Exchange? {
      var i :| 0 <= i < |s.logins| && s.logins[i].ls == v.ls;
      ReturnToIsLocal(s.logins[i].raw);
      forall e | 0 <= e < |News(g, cs, q, o, hasSession)| ensures BelongsTo(News(g, cs, q, o, hasSession)[e],
        s.logins[i]) {}
    }
  }

  lemma StepKeepsPaired(g: Gateway, s: State, l: Label)
    requires Paired(s) && Enabled(g, s, l)
    ensures Paired(Apply(g, s, l))
  {
    var s' := Apply(g, s, l);
    match l
    case Login(raw, ls) =>
      forall e | 0 <= e < |s'.log| ensures Attributed(s'.log[e], s'.logins) {
        assert Attributed(s.log[e], s.logins);
        var i :| 0 <= i < |s.logins| && BelongsTo(s.log[e], s.logins[i]);
        assert s'.logins[i] == s.logins[i];
      }
    case Callback(cs, q, o, hasSession) =>
      CallbackEvents(g, s, cs, q, o, hasSession);
      forall e | 0 <= e < |s'.log| ensures Attributed(s'.log[e], s'.logins) {
        if e >= |s.log| { assert s'.log[e] == News(g, cs, q, o, hasSession)[e - |s.log|]; }
      }
  }

  lemma {:induction false} RunKeepsPaired(g: Gateway, s: State, ls: seq<Label>)
    requires Paired(s) && Valid(g, s, ls)
    ensures Paired(Exec(g, s, ls))
    decreases |ls|
  {
    if ls != [] {
      StepKeepsPaired(g, s, ls[0]);
      RunKeepsPaired(g, Apply(g, s, ls[0]), ls[1..]);
    }
  }

  /**
    In every run: whatever was handed to the provider for a callback with state
    `st`, or answered after it, comes from one and the same Login, the only one
    that drew `st`; and the way back is a local path.
   */
  lemma ExchangePairing(g: Gateway, ls: seq<Label>, e: nat)
    requires Valid(g, State([], []), ls) && e < |Exec(g, State([], []), ls).log|
    ensures var s := Exec(g, State([], []), ls);
      exists i :: 0 <= i < |s.logins| && BelongsTo(s.log[e], s.logins[i])
        && forall k :: 0 <= k < |s.logins| && s.logins[k].ls.state == s.log[e].state ==> k == i
  {
    RunKeepsPaired(g, State([], []), ls);
    var s := Exec(g, State([], []), ls);
    assert Attributed(s.log[e], s.logins);
    var i :| 0 <= i < |s.logins| && BelongsTo(s.log[e], s.logins[i]);
  }

  // No login cookie of the request was sealed for this state.
  predicate Unmatched(g: Gateway, cs: seq<Cookie>, state: string) {
    forall i :: 0 <= i < |cs| && IsLoginName(cs[i].name) ==>
      g.open(cs[i].value).None? || g.open(cs[i].value).value.state != state
  }

  /**
    A callback that belongs to no sign-in of this browser uses nothing of itself:
    no exchange, no cookie, and an answer that is the root page for somebody who
    is signed in, or 400, whatever the code, the provider or the manager say.
   */
  lemma UnmatchedCallbackUsesNothing(g: Gateway, cs: seq<Cookie>, q: Query, o: Outcome, hasSession: bool)
    requires Unmatched(g, cs, q.state)
    ensures var v := Judge(g, cs, q);
      && !v.Exchange? && CallbackCookiesSet(v, o) == []
      && (CallbackAnswer(v, o, hasSession) == Redirect("/")
          || (CallbackAnswer(v, o, hasSession).Failure? && CallbackAnswer(v, o, hasSession).status == 400))
      && (hasSession && q.error == "" ==> CallbackAnswer(v, o, hasSession) == Redirect("/"))
  {
    NamedIsSent(cs, LoginCookieName(g, q.state));
    NamedIsSent(cs, LOGIN_COOKIE);
  }
}
