/**
  Several sign-ins in one browser: starting or finishing one does not disturb
  another below the limit, a finished one cannot be replayed, and the jar stays
  small.
 */
module SignInJar {
  import opened Wrappers
  import opened Http
  import opened SignIn

  // The login cookie that a callback with this state picks from the jar.
  function Picked(g: Gateway, jar: Jar, state: string): Option<string> {
    if LoginCookieName(g, state) in jar then Some(LoginCookieName(g, state))
    else if LOGIN_COOKIE in jar then Some(LOGIN_COOKIE)
    else None
  }

  // A callback with this state and a code gets to the exchange.
  predicate Completes(g: Gateway, jar: Jar, state: string) {
    && Picked(g, jar, state).Some?
    && var v := g.open(jar[Picked(g, jar, state).value]); v.Some? && v.value.state == state
  }

  // The cookie it picks opens as a login state.
  predicate Opens(g: Gateway, jar: Jar, state: string) {
    Picked(g, jar, state).Some? && g.open(jar[Picked(g, jar, state).value]).Some?
  }

  lemma {:induction false} NamedInJar(jar: Jar, cs: seq<Cookie>, name: string)
    requires forall i :: 0 <= i < |cs| ==> cs[i].name in jar && jar[cs[i].name] == cs[i].value
    ensures Named(cs, name).Some? <==> exists i :: 0 <= i < |cs| && cs[i].name == name
    ensures Named(cs, name).Some? ==> name in jar && Named(cs, name).value == Cookie(name, jar[name])
  {
    if cs != [] && cs[0].name != name {
      NamedInJar(jar, cs[1..], name);
      if Named(cs, name).Some? {
        var i :| 0 <= i < |cs[1..]| && cs[1..][i].name == name;
        assert cs[i + 1].name == name;
      }
      if i :| 0 <= i < |cs| && cs[i].name == name { assert cs[1..][i - 1].name == name; }
    }
  }

  // The handler's verdict on a request that carries the jar, in terms of the jar.
  lemma JudgeInJar(g: Gateway, jar: Jar, cs: seq<Cookie>, q: Query)
    requires Sends(jar, cs)
    ensures Judge(g, cs, q).Exchange? <==> Completes(g, jar, q.state) && q.code != "" && q.error == ""
    ensures Judge(g, cs, q).Exchange? ==>
      && Judge(g, cs, q).cookie == Picked(g, jar, q.state).value
      && g.open(jar[Judge(g, cs, q).cookie]) == Some(Judge(g, cs, q).ls)
    ensures Judge(g, cs, q).ProviderError? <==> Opens(g, jar, q.state) && q.error != ""
    ensures Picked(g, jar, q.state).None? ==> Judge(g, cs, q) == Reject("login session expired; please restart sign-in")
    ensures Picked(g, jar, q.state).Some? && !Opens(g, jar, q.state) ==>
      Judge(g, cs, q) == Reject("login session invalid; please restart sign-in")
    ensures Opens(g, jar, q.state) && Judge(g, cs, q).Reject? ==>
      Judge(g, cs, q) == Reject("invalid authentication response")
  {
    NamedInJar(jar, cs, LoginCookieName(g, q.state));
    NamedInJar(jar, cs, LOGIN_COOKIE);
  }

  function LoginNames(jar: Jar): set<string> { set n | n in jar && IsLoginName(n) }

  function NamesOf(cs: seq<Cookie>): set<string> { set i | 0 <= i < |cs| :: cs[i].name }

  lemma {:induction false} FlowsAreLoginNames(cs: seq<Cookie>)
    requires forall i, j :: 0 <= i < j < |cs| ==> cs[i].name != cs[j].name
    ensures NamesOf(Flows(cs)) == set n | n in NamesOf(cs) && IsLoginName(n)
    ensures |Flows(cs)| == |NamesOf(Flows(cs))|
  {
    if cs != [] {
      var last, before := cs[|cs| - 1], cs[..|cs| - 1];
      FlowsAreLoginNames(before);
      NamesOfSnoc(before, last);
      assert before + [last] == cs;
      if IsLoginName(last.name) {
        NamesOfSnoc(Flows(before), last);
        assert last.name !in NamesOf(before);
      } else {
        assert Flows(cs) == Flows(before);
      }
    }
  }

  lemma NamesOfSnoc(cs: seq<Cookie>, c: Cookie)
    ensures NamesOf(cs + [c]) == NamesOf(cs) + {c.name}
  {
    forall n | n in NamesOf(cs) + {c.name} ensures n in NamesOf(cs + [c]) {
      if n in NamesOf(cs) {
        var i :| 0 <= i < |cs| && cs[i].name == n;
        assert (cs + [c])[i].name == n;
      } else {
        assert (cs + [c])[|cs|].name == n;
      }
    }
  }

  lemma FlowsInJar(jar: Jar, cs: seq<Cookie>)
    requires Sends(jar, cs)
    ensures NamesOf(Flows(cs)) == LoginNames(jar) && |Flows(cs)| == |LoginNames(jar)|
  {
    FlowsAreLoginNames(cs);
    forall n | n in jar ensures n in NamesOf(cs) {
      var i :| 0 <= i < |cs| && cs[i].name == n;
    }
  }

  // The jar after a Login: below the limit it gains one cookie, at the limit only that one stays.
  lemma JarAfterLogin(g: Gateway, jar: Jar, cs: seq<Cookie>, ls: LoginState)
    requires Sends(jar, cs)
    ensures KeepAll(jar, LoginCookiesSet(g, cs, ls))
         == (if |LoginNames(jar)| < MAX_LOGIN_FLOWS then jar else jar - LoginNames(jar))
            [LoginCookieName(g, ls.state) := g.seal(ls)]
  {
    FlowsInJar(jar, cs);
    var gone := if |Flows(cs)| >= MAX_LOGIN_FLOWS then Expired(Flows(cs)) else [];
    var new' := SetCookie(LoginCookieName(g, ls.state), g.seal(ls), LOGIN_TTL);
    KeepAllConcat(jar, gone, [new']);
    var rest := KeepAll(jar, gone);
    assert KeepAll(rest, [new']) == Keep(rest, new');
    if |Flows(cs)| >= MAX_LOGIN_FLOWS {
      KeepAllExpired(jar, gone);
      ExpiredNames(Flows(cs));
    }
  }

  lemma ExpiredNames(flows: seq<Cookie>)
    ensures (set i | 0 <= i < |Expired(flows)| :: Expired(flows)[i].name) == NamesOf(flows)
  {
    var gone := Expired(flows);
    assert |gone| == |flows| && forall i :: 0 <= i < |flows| ==> gone[i].name == flows[i].name;
    var names := set i | 0 <= i < |gone| :: gone[i].name;
    forall n | n in NamesOf(flows) ensures n in names {
      var i :| 0 <= i < |flows| && flows[i].name == n;
      assert gone[i].name == n;
    }
  }

  // The session manager's cookies are nobody's login cookie, and do not open as one.
  ghost predicate SessionCookies(g: Gateway, cs: seq<SetCookie>) {
    forall i :: 0 <= i < |cs| ==> !IsLoginName(cs[i].name) && g.open(cs[i].value).None?
  }

  lemma {:induction false} JarAfterSessionCookies(g: Gateway, jar: Jar, cs: seq<SetCookie>)
    requires SessionCookies(g, cs)
    ensures var jar' := KeepAll(jar, cs);
      && (forall n :: IsLoginName(n) ==> (n in jar' <==> n in jar) && (n in jar ==> jar'[n] == jar[n]))
      && (forall n :: n in jar' && g.open(jar'[n]).Some? ==> n in jar && jar'[n] == jar[n])
    decreases |cs|
  {
    if cs != [] { JarAfterSessionCookies(g, Keep(jar, cs[0]), cs[1..]); }
  }

  lemma JarAfterCallback(g: Gateway, jar: Jar, v: Verdict, o: Outcome)
    requires o.Completed? ==> SessionCookies(g, o.issued)
    ensures var jar' := KeepAll(jar, CallbackCookiesSet(v, o));
            var gone := if v.Exchange? && o.Completed? then {v.cookie} else {};
      && (forall n :: IsLoginName(n) ==> (n in jar' <==> n in jar && n !in gone) && (n in jar' ==> jar'[n] == jar[n]))
      && (forall n :: n in jar' && g.open(jar'[n]).Some? ==> n in jar && n !in gone && jar'[n] == jar[n])
  {
    if v.Exchange? && o.Completed? {
      JarAfterSessionCookies(g, jar, o.issued);
      var last := SetCookie(v.cookie, "", -1);
      KeepAllConcat(jar, o.issued, [last]);
      assert KeepAll(KeepAll(jar, o.issued), [last]) == Keep(KeepAll(jar, o.issued), last);
    }
  }

  lemma LoginNameShape(g: Gateway, state: string)
    ensures LoginCookieName(g, state) == "hog_login_" + g.digest(state)
    ensures IsLoginName(LoginCookieName(g, state)) && LoginCookieName(g, state) != LOGIN_COOKIE
  {
  }

  // Another sign-in starts: this one can still complete exactly when it could and the jar was below the limit.
  lemma OtherLoginIndependent(g: Gateway, jar: Jar, cs: seq<Cookie>, ls: LoginState, mine: string)
    requires Sends(jar, cs) && LoginCookieName(g, ls.state) != LoginCookieName(g, mine)
    ensures Completes(g, KeepAll(jar, LoginCookiesSet(g, cs, ls)), mine)
       <==> Completes(g, jar, mine) && |LoginNames(jar)| < 5
  {
    JarAfterLogin(g, jar, cs, ls);
    LoginNameShape(g, mine);
    LoginNameShape(g, ls.state);
  }

  // Another sign-in's callback, however it ends, leaves this one as it was.
  lemma OtherCallbackIndependent(g: Gateway, jar: Jar, cs: seq<Cookie>, q: Query, o: Outcome, mine: string)
    requires Sends(jar, cs) && q.state != mine && LoginCookieName(g, q.state) != LoginCookieName(g, mine)
    requires o.Completed? ==> SessionCookies(g, o.issued)
    ensures Completes(g, KeepAll(jar, CallbackCookiesSet(Judge(g, cs, q), o)), mine) <==> Completes(g, jar, mine)
  {
    JudgeInJar(g, jar, cs, q);
    JarAfterCallback(g, jar, Judge(g, cs, q), o);
    LoginNameShape(g, mine);
    LoginNameShape(g, q.state);
  }

  /* ---- whole runs of one browser ---- */

  datatype Label =
    | Login(cs: seq<Cookie>, ls: LoginState)
    | Callback(cs: seq<Cookie>, q: Query, o: Outcome)
    | Lapse(name: string)   // a cookie's Max-Age runs out

  datatype Event = Exchanged(state: string) | Finished(state: string)

  datatype Browser = Browser(jar: Jar, drawn: set<string>, log: seq<Event>)

  ghost predicate Enabled(g: Gateway, b: Browser, l: Label) {
    match l
    case Login(cs, ls) =>
      // states do not repeat, and the cookie opens to what was sealed
      Sends(b.jar, cs) && ls.state !in b.drawn && g.open(g.seal(ls)) == Some(ls)
    case Callback(cs, q, o) => Sends(b.jar, cs) && (o.Completed? ==> SessionCookies(g, o.issued))
    case Lapse(_) => true
  }

  function News(g: Gateway, cs: seq<Cookie>, q: Query, o: Outcome): seq<Event> {
    if !Judge(g, cs, q).Exchange? then [] else [Exchanged(q.state)] + if o.Completed? then [Finished(q.state)] else []
  }

  function Apply(g: Gateway, b: Browser, l: Label): Browser {
    match l
    case Login(cs, ls) => b.(jar := KeepAll(b.jar, LoginCookiesSet(g, cs, ls)), drawn := b.drawn + {ls.state})
    case Callback(cs, q, o) =>
      b.(jar := KeepAll(b.jar, CallbackCookiesSet(Judge(g, cs, q), o)), log := b.log + News(g, cs, q, o))
    case Lapse(name) => b.(jar := b.jar - {name})
  }

  ghost predicate Valid(g: Gateway, b: Browser, ls: seq<Label>)
    decreases |ls|
  {
    ls == [] || (Enabled(g, b, ls[0]) && Valid(g, Apply(g, b, ls[0]), ls[1..]))
  }

  function Exec(g: Gateway, b: Browser, ls: seq<Label>): Browser
    decreases |ls|
  {
    if ls == [] then b else Exec(g, Apply(g, b, ls[0]), ls[1..])
  }

  predicate SealsState(g: Gateway, jar: Jar, n: string, state: string) {
    n in jar && g.open(jar[n]).Some? && g.open(jar[n]).value.state == state
  }

  // Every login state in the jar was drawn, and no state is in it twice.
  ghost predicate Sound(g: Gateway, b: Browser) {
    && (forall n :: n in b.jar && g.open(b.jar[n]).Some? ==> g.open(b.jar[n]).value.state in b.drawn)
    && (forall n, m, st :: SealsState(g, b.jar, n, st) && SealsState(g, b.jar, m, st) ==> n == m)
  }

  ghost predicate Spent(g: Gateway, b: Browser, st: string) {
    st in b.drawn && forall n :: !SealsState(g, b.jar, n, st)
  }

  // Whatever finished is spent, and was not exchanged afterwards.
  ghost predicate SingleUse(g: Gateway, b: Browser) {
    && (forall i :: 0 <= i < |b.log| && b.log[i].Finished? ==> Spent(g, b, b.log[i].state))
    && NoReplay(b.log)
  }

  ghost predicate NoReplay(log: seq<Event>) {
    forall i, j :: 0 <= i < j < |log| && log[i].Finished? ==> log[j].state != log[i].state
  }

  lemma StepKeepsSound(g: Gateway, b: Browser, l: Label)
    requires Sound(g, b) && Enabled(g, b, l)
    ensures Sound(g, Apply(g, b, l))
    ensures forall st :: Spent(g, b, st) ==> Spent(g, Apply(g, b, l), st)
  {
    var b' := Apply(g, b, l);
    match l
    case Login(cs, ls) =>
      JarAfterLogin(g, b.jar, cs, ls);
      forall n, st | SealsState(g, b'.jar, n, st) && st != ls.state ensures SealsState(g, b.jar, n, st) {}
      forall n | SealsState(g, b'.jar, n, ls.state) ensures n == LoginCookieName(g, ls.state) {}
    case Callback(cs, q, o) =>
      JarAfterCallback(g, b.jar, Judge(g, cs, q), o);
      forall n, st | SealsState(g, b'.jar, n, st) ensures SealsState(g, b.jar, n, st) {}
    case Lapse(name) =>
      forall n, st | SealsState(g, b'.jar, n, st) ensures SealsState(g, b.jar, n, st) {}
  }

  lemma CallbackSpends(g: Gateway, b: Browser, l: Label)
    requires Sound(g, b) && Enabled(g, b, l) && l.Callback? && Judge(g, l.cs, l.q).Exchange?
    ensures SealsState(g, b.jar, Judge(g, l.cs, l.q).cookie, l.q.state)
    ensures l.o.Completed? ==> Spent(g, Apply(g, b, l), l.q.state)
  {
    JudgeInJar(g, b.jar, l.cs, l.q);
    JarAfterCallback(g, b.jar, Judge(g, l.cs, l.q), l.o);
    assert SealsState(g, b.jar, Judge(g, l.cs, l.q).cookie, l.q.state);
    var b' := Apply(g, b, l);
    forall n | SealsState(g, b'.jar, n, l.q.state) ensures SealsState(g, b.jar, n, l.q.state) {}
  }

  lemma StepKeepsSingleUse(g: Gateway, b: Browser, l: Label)
    requires Sound(g, b) && SingleUse(g, b) && Enabled(g, b, l)
    ensures SingleUse(g, Apply(g, b, l))
  {
    hide Judge, KeepAll, SealsState, Sends, SessionCookies;
    var b' := Apply(g, b, l);
    StepKeepsSound(g, b, l);
    if l.Callback? && Judge(g, l.cs, l.q).Exchange? {
      CallbackSpends(g, b, l);
      forall i | 0 <= i < |b.log| && b.log[i].Finished? ensures b.log[i].state != l.q.state {
        assert Spent(g, b, b.log[i].state);
      }
    }
  }

  lemma {:induction false} RunKeepsSingleUse(g: Gateway, b: Browser, ls: seq<Label>)
    requires Sound(g, b) && SingleUse(g, b) && Valid(g, b, ls)
    ensures NoReplay(Exec(g, b, ls).log)
    decreases |ls|
  {
    if ls != [] {
      StepKeepsSingleUse(g, b, ls[0]);
      StepKeepsSound(g, b, ls[0]);
      RunKeepsSingleUse(g, Apply(g, b, ls[0]), ls[1..]);
    }
  }

  // In every run, once a sign-in finished its state is never exchanged again.
  lemma FinishedIsNeverReplayed(g: Gateway, jar: Jar, drawn: set<string>, ls: seq<Label>)
    requires Sound(g, Browser(jar, drawn, [])) && Valid(g, Browser(jar, drawn, []), ls)
    ensures NoReplay(Exec(g, Browser(jar, drawn, []), ls).log)
  {
    RunKeepsSingleUse(g, Browser(jar, drawn, []), ls);
  }

  // The step is somebody else's: a login below the limit, a callback of another state, a lapse of another cookie.
  predicate Aside(g: Gateway, b: Browser, l: Label, mine: string) {
    match l
    case Login(_, ls) =>
      LoginCookieName(g, ls.state) != LoginCookieName(g, mine) && |LoginNames(b.jar)| < MAX_LOGIN_FLOWS
    case Callback(_, q, _) => q.state != mine && LoginCookieName(g, q.state) != LoginCookieName(g, mine)
    case Lapse(name) => Picked(g, b.jar, mine) != Some(name)
  }

  predicate AllAside(g: Gateway, b: Browser, ls: seq<Label>, mine: string)
    decreases |ls|
  {
    ls == [] || (Aside(g, b, ls[0], mine) && AllAside(g, Apply(g, b, ls[0]), ls[1..], mine))
  }

  lemma StepAside(g: Gateway, b: Browser, l: Label, mine: string)
    requires Enabled(g, b, l) && Aside(g, b, l, mine)
    ensures Completes(g, Apply(g, b, l).jar, mine) <==> Completes(g, b.jar, mine)
  {
    match l
    case Login(cs, ls) => OtherLoginIndependent(g, b.jar, cs, ls, mine);
    case Callback(cs, q, o) => OtherCallbackIndependent(g, b.jar, cs, q, o, mine);
    case Lapse(name) =>
  }

  /**
    In every run of other sign-ins, any number of them starting, finishing,
    failing and lapsing: this one can complete at the end exactly when it could
    at the start.
   */
  lemma {:induction false} OthersNeverInterfere(g: Gateway, b: Browser, ls: seq<Label>, mine: string)
    requires Valid(g, b, ls) && AllAside(g, b, ls, mine)
    ensures Completes(g, Exec(g, b, ls).jar, mine) <==> Completes(g, b.jar, mine)
    decreases |ls|
  {
    if ls != [] {
      StepAside(g, b, ls[0], mine);
      OthersNeverInterfere(g, Apply(g, b, ls[0]), ls[1..], mine);
    }
  }

  lemma StepKeepsBound(g: Gateway, b: Browser, l: Label)
    requires |LoginNames(b.jar)| <= MAX_LOGIN_FLOWS && Enabled(g, b, l)
    ensures |LoginNames(Apply(g, b, l).jar)| <= MAX_LOGIN_FLOWS
  {
    var jar' := Apply(g, b, l).jar;
    match l
    case Login(cs, ls) =>
      JarAfterLogin(g, b.jar, cs, ls);
      var name := LoginCookieName(g, ls.state);
      LoginNameShape(g, ls.state);
      assert LoginNames(jar') == (if |LoginNames(b.jar)| < MAX_LOGIN_FLOWS then LoginNames(b.jar) else {}) + {name};
    case Callback(cs, q, o) =>
      JarAfterCallback(g, b.jar, Judge(g, cs, q), o);
      Smaller(LoginNames(jar'), LoginNames(b.jar));
    case Lapse(_) => Smaller(LoginNames(jar'), LoginNames(b.jar));
  }

  lemma Smaller(a: set<string>, b: set<string>)
    requires a <= b
    ensures |a| <= |b|
  {
    assert b == a + (b - a);
  }

  // A jar that starts within the bound stays within it.
  lemma {:induction false} JarStaysBounded(g: Gateway, b: Browser, ls: seq<Label>)
    requires |LoginNames(b.jar)| <= 5 && Valid(g, b, ls)
    ensures |LoginNames(Exec(g, b, ls).jar)| <= 5
    decreases |ls|
  {
    if ls != [] {
      StepKeepsBound(g, b, ls[0]);
      JarStaysBounded(g, Apply(g, b, ls[0]), ls[1..]);
    }
  }
}
