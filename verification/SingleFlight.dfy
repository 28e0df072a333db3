/**
  Single-flight refresh: on a calm run the provider refreshes a session at most
  once, never sees a token it has rotated, and every Read that waited for the
  mutex afterwards gets the refreshed record.
 */
module SingleFlight {
  import opened Wrappers
  import opened SessionProtocol
  import opened SessionLifetime
  import KM = KeyedMutex

  /**
    The premises, for session `sid` up to time `horizon`: store reads and writes
    of the session succeed, nobody logs it out, refreshed access tokens stay
    outside the skew window, and the session's own lifetime is not over.  The
    last one is needed because a refresh past the session's end is not stored.
    (That a refused refresh leaves the token valid is in the model: only a
    successful Call rotates.)
   */
  predicate Calm(cfg: Config, s: State, l: Label, sid: Sid, horizon: int)
    requires Enabled(cfg, s, l)
  {
    match l
    case Load(t, ok) => s.calls[t].sid == sid ==> ok
    case Reload(t, ok) => s.calls[t].sid == sid ==> ok
    case Put(t, ok) => s.calls[t].sid == sid ==> ok
    case Call(t, outcome) => s.calls[t].sid == sid && outcome.Some? ==> outcome.value.expiry - cfg.skew > horizon
    case Issue(id, madeAt, _) => id == sid ==> madeAt + cfg.ttl > horizon
    case Clear(id) => id != sid
    case Tick(elapsed) => s.now + elapsed <= horizon
    case _ => true
  }

  predicate CalmRun(cfg: Config, s: State, ls: seq<Label>, sid: Sid, horizon: int)
    requires Valid(cfg, s, ls)
    decreases |ls|
  {
    ls == [] || (Calm(cfg, s, ls[0], sid, horizon) && CalmRun(cfg, Apply(cfg, s, ls[0]), ls[1..], sid, horizon))
  }

  // What an observer of the log is promised.
  ghost predicate OneFlight(log: seq<Event>, sid: Sid) {
    forall i, j ::
      0 <= i < j < |log| && log[i].Called? && log[i].sid == sid && log[i].outcome.Some? && log[j].sid == sid ==>
      var tok := log[i].outcome.value;
      && !log[j].Called?
      && (log[j].Decided? && log[j].waited ==>
            && log[j].result.Some?
            && log[j].result.value.session.accessToken == tok.access
            && log[j].result.value.accessExpiry == tok.expiry
            && log[j].result.value.refreshToken == (if tok.refresh == "" then log[i].token else tok.refresh))
  }

  // Before the refresh everybody works on the issued record.
  predicate Grounded(pc: Pc, issued: Record) {
    match pc
    case Loaded(_, _, rec) => rec == issued
    case Admitted(_, rec) => rec == issued
    case Waiting(_, rec) => rec == issued
    case Queued(_, rec) => rec == issued
    case Locked(_, rec) => rec == issued
    case Reloaded(_, rec, again) => rec == issued && again == Some(issued)
    case Refreshing(_, rec) => rec == issued
    case Renewed(_, _) => false
    case Storing(_, _, _, _) => false
    case _ => true
  }

  // After it, the stale record can only be in the hands of those who will reload.
  predicate Landed(pc: Pc, issued: Record, renewed: Record) {
    match pc
    case Loaded(_, _, rec) => rec == issued || rec == renewed
    case Admitted(_, rec) => rec == issued || rec == renewed
    case Waiting(_, rec) => rec == issued
    case Queued(_, rec) => rec == issued
    case Locked(_, rec) => rec == issued
    case Reloaded(_, rec, again) => rec == issued && again == Some(renewed)
    case Refreshing(_, _) => false
    case Renewed(_, rec) => rec == renewed
    case Storing(_, rec, _, _) => rec == renewed
    case _ => true
  }

  predicate Carrying(pc: Pc, sid: Sid) { pc.sid == sid && (pc.Renewed? || pc.Storing?) }

  ghost predicate Flight(cfg: Config, s: State, sid: Sid, horizon: int) {
    && s.now <= horizon
    && (sid in s.renewed ==> sid in s.issued)
    && (sid in s.store ==> sid in s.issued)
    && (sid !in s.issued ==>
          forall t :: t in s.calls && s.calls[t].sid == sid ==> s.calls[t].Start? || s.calls[t].Done?)
    && (sid in s.issued ==>
         && sid in s.store && s.issued[sid].session.expiry > horizon
         && if sid !in s.renewed then
              && s.store[sid].rec == s.issued[sid]
              && (forall t :: t in s.calls && s.calls[t].sid == sid ==> Grounded(s.calls[t], s.issued[sid]))
            else
              && s.renewed[sid].accessExpiry - cfg.skew > horizon
              && (forall t :: t in s.calls && s.calls[t].sid == sid ==>
                Landed(s.calls[t], s.issued[sid], s.renewed[sid]))
              && (s.store[sid].rec == s.renewed[sid]
                  || (s.store[sid].rec == s.issued[sid] && exists t :: t in s.calls && Carrying(s.calls[t], sid))))
  }

  // The log, tied to the renewed record.
  ghost predicate FlightLog(s: State, sid: Sid) {
    && OneFlight(s.log, sid)
    && (forall i :: 0 <= i < |s.log| && s.log[i].Called? && s.log[i].sid == sid && s.log[i].outcome.Some? ==>
          && sid in s.issued && sid in s.renewed
          && s.log[i].token == s.issued[sid].refreshToken
          && s.renewed[sid] == Renew(s.issued[sid], s.log[i].outcome.value))
  }

  lemma BackgroundKeepsFlight(cfg: Config, s: State, l: Label, sid: Sid, horizon: int)
    requires Life(cfg, s) && Flight(cfg, s, sid, horizon)
    requires Enabled(cfg, s, l) && Background(l) && Calm(cfg, s, l, sid, horizon)
    ensures Flight(cfg, Apply(cfg, s, l), sid, horizon)
  {
    if l.Issue? && l.sid == sid {
      IssueStartsFlight(cfg, s, l, sid, horizon);
    } else {
      hide KM.Apply, KM.Enabled, Grounded, Landed, Carrying;
    }
  }

  lemma IssueStartsFlight(cfg: Config, s: State, l: Label, sid: Sid, horizon: int)
    requires Flight(cfg, s, sid, horizon)
    requires Enabled(cfg, s, l) && l.Issue? && l.sid == sid && Calm(cfg, s, l, sid, horizon)
    ensures Flight(cfg, Apply(cfg, s, l), sid, horizon)
  {
    hide KM.Apply, KM.Enabled, Landed, Carrying;
  }

  // What a step of a Read of another session can touch.
  lemma OtherSessionStep(cfg: Config, s: State, l: Label, sid: Sid)
    requires Enabled(cfg, s, l) && !Background(l) && (l.Begin? || s.calls[l.t].sid != sid)
    ensures var s' := Apply(cfg, s, l);
      && (sid in s'.store <==> sid in s.store) && (sid in s.store ==> s'.store[sid] == s.store[sid])
      && (sid in s'.renewed <==> sid in s.renewed) && (sid in s.renewed ==> s'.renewed[sid] == s.renewed[sid])
  {
    hide Apply, KM.Enabled;
    if l.Put? || l.Call? {
      WritesItsOwn(cfg, s, l, sid);
    } else {
      OnlyPutWrites(cfg, s, l);
      OnlyCallRenews(cfg, s, l);
    }
  }

  lemma WritesItsOwn(cfg: Config, s: State, l: Label, sid: Sid)
    requires Enabled(cfg, s, l) && (l.Put? || l.Call?) && s.calls[l.t].sid != sid
    ensures var s' := Apply(cfg, s, l);
      && (sid in s'.store <==> sid in s.store) && (sid in s.store ==> s'.store[sid] == s.store[sid])
      && (sid in s'.renewed <==> sid in s.renewed) && (sid in s.renewed ==> s'.renewed[sid] == s.renewed[sid])
  {
    hide KM.Apply, KM.Enabled;
  }

  lemma BegunPc(cfg: Config, s: State, l: Label)
    requires Enabled(cfg, s, l) && l.Begin?
    ensures l.t in Apply(cfg, s, l).calls && (Apply(cfg, s, l).calls[l.t].Start? || Apply(cfg, s, l).calls[l.t].Done?)
  {
  }

  lemma OtherKeepsFlight(cfg: Config, s: State, l: Label, sid: Sid, horizon: int)
    requires Flight(cfg, s, sid, horizon)
    requires Enabled(cfg, s, l) && !Background(l) && (l.Begin? || s.calls[l.t].sid != sid)
    ensures Flight(cfg, Apply(cfg, s, l), sid, horizon)
  {
    hide Apply, KM.Enabled;
    var s' := Apply(cfg, s, l);
    ReadStepMoves(cfg, s, l);
    ReadKeepsSession(cfg, s, l);
    OtherSessionStep(cfg, s, l, sid);
    if l.Begin? { BegunPc(cfg, s, l); }
    if t :| t in s.calls && Carrying(s.calls[t], sid) {
      assert t in s'.calls && Carrying(s'.calls[t], sid);
    }
  }

  // The session's own Reads, before any refresh has succeeded.
  lemma GroundedStep(cfg: Config, s: State, l: Label, sid: Sid, horizon: int)
    requires Flight(cfg, s, sid, horizon) && sid !in s.renewed
    requires Enabled(cfg, s, l) && !Background(l) && !l.Begin? && s.calls[l.t].sid == sid
    requires Calm(cfg, s, l, sid, horizon)
    requires !(l.Call? && l.outcome.Some?)
    ensures Flight(cfg, Apply(cfg, s, l), sid, horizon)
  {
    hide Apply, Grounded, Landed, Calm, KM.Enabled;
    ReadStepMoves(cfg, s, l);
    ReadKeepsSession(cfg, s, l);
    OnlyCallRenews(cfg, s, l);
    CalmSucceeds(cfg, s, l, sid, horizon);
    GroundedPc(cfg, s, l, sid);
    OnlyPutWrites(cfg, s, l);
  }

  lemma GroundedPc(cfg: Config, s: State, l: Label, sid: Sid)
    requires Enabled(cfg, s, l) && !Background(l) && !l.Begin? && s.calls[l.t].sid == sid
    requires !(l.Call? && l.outcome.Some?) && (l.Load? || l.Reload? ==> l.ok)
    requires if sid in s.issued
             then sid in s.store && s.store[sid].rec == s.issued[sid] && Grounded(s.calls[l.t], s.issued[sid])
             else sid !in s.store && (s.calls[l.t].Start? || s.calls[l.t].Done?)
    ensures !l.Put? && l.t in Apply(cfg, s, l).calls
    ensures var pc := Apply(cfg, s, l).calls[l.t];
      if sid in s.issued then Grounded(pc, s.issued[sid]) else pc.Start? || pc.Done?
  {
    hide KM.Apply, KM.Enabled;
  }

  // The one refresh: its holder is alone inside, so nobody else can be past the reload.
  lemma RefreshLands(cfg: Config, s: State, l: Label, sid: Sid, horizon: int)
    requires LocksInStep(s) && Flight(cfg, s, sid, horizon) && sid !in s.renewed
    requires l.Call? && l.outcome.Some? && Enabled(cfg, s, l) && s.calls[l.t].sid == sid
    requires Calm(cfg, s, l, sid, horizon)
    ensures Flight(cfg, Apply(cfg, s, l), sid, horizon)
  {
    var s' := Apply(cfg, s, l);
    assert Carrying(s'.calls[l.t], sid);
    forall u | u in s'.calls && s'.calls[u].sid == sid
      ensures Landed(s'.calls[u], s.issued[sid], s'.renewed[sid])
    {
      if u != l.t {
        assert s'.calls[u] == s.calls[u] && Grounded(s.calls[u], s.issued[sid]);
        if Critical(s.calls[u]) { OneInside(s, u, l.t); }
      }
    }
  }

  // A Read that holds the mutex after the refresh finds the refreshed record stored.
  lemma ReloadSeesRenewed(cfg: Config, s: State, t: Thread, sid: Sid, horizon: int)
    requires LocksInStep(s) && Flight(cfg, s, sid, horizon) && sid in s.renewed
    requires t in s.calls && s.calls[t].Locked? && s.calls[t].sid == sid
    ensures sid in s.store && s.store[sid].rec == s.renewed[sid]
  {
    if u :| u in s.calls && Carrying(s.calls[u], sid) { OneInside(s, t, u); }
  }

  // The session outlives the horizon, so its carrier always gets to store.
  lemma MeasuredInTime(cfg: Config, s: State, t: Thread, sid: Sid, horizon: int)
    requires Life(cfg, s) && Flight(cfg, s, sid, horizon)
    requires t in s.calls && s.calls[t].Renewed? && s.calls[t].sid == sid
    ensures s.calls[t].rec.session.expiry > horizon
  {
    assert FaithfulPc(s.issued, s.calls[t], s.now);
    assert Fixed(s.calls[t].rec.session).expiry == Fixed(s.issued[sid].session).expiry;
  }

  lemma LandedStep(cfg: Config, s: State, l: Label, sid: Sid, horizon: int)
    requires Flight(cfg, s, sid, horizon) && sid in s.renewed
    requires Enabled(cfg, s, l) && !Background(l) && !l.Begin? && s.calls[l.t].sid == sid
    requires Calm(cfg, s, l, sid, horizon)
    requires l.Reload? ==> s.store[sid].rec == s.renewed[sid]
    requires l.Measure? ==> s.calls[l.t].rec.session.expiry > horizon
    ensures Flight(cfg, Apply(cfg, s, l), sid, horizon)
  {
    hide Apply, Landed, Calm, KM.Enabled;
    var s' := Apply(cfg, s, l);
    ReadStepMoves(cfg, s, l);
    ReadKeepsSession(cfg, s, l);
    NoCallOnceLanded(cfg, s, l, s.issued[sid], s.renewed[sid]);
    OnlyCallRenews(cfg, s, l);
    CalmSucceeds(cfg, s, l, sid, horizon);
    LandedPc(cfg, s, l, sid, horizon);
    if l.Put? {
      PutLands(cfg, s, l, sid);
    } else {
      OnlyPutWrites(cfg, s, l);
      if t :| t in s.calls && Carrying(s.calls[t], sid) {
        assert t in s'.calls && Carrying(s'.calls[t], sid);
      }
    }
  }

  lemma CalmSucceeds(cfg: Config, s: State, l: Label, sid: Sid, horizon: int)
    requires Enabled(cfg, s, l) && Calm(cfg, s, l, sid, horizon) && !Background(l) && !l.Begin?
    requires s.calls[l.t].sid == sid
    ensures l.Load? || l.Reload? || l.Put? ==> l.ok
  {
    hide KM.Enabled;
  }

  lemma NoCallOnceLanded(cfg: Config, s: State, l: Label, issued: Record, renewed: Record)
    requires Enabled(cfg, s, l) && !Background(l) && !l.Begin? && Landed(s.calls[l.t], issued, renewed)
    ensures !l.Call?
  {
    hide KM.Enabled;
  }

  lemma PutLands(cfg: Config, s: State, l: Label, sid: Sid)
    requires Enabled(cfg, s, l) && l.Put? && l.ok && s.calls[l.t].sid == sid && sid in s.renewed && sid in s.issued
    requires Landed(s.calls[l.t], s.issued[sid], s.renewed[sid])
    ensures sid in Apply(cfg, s, l).store && Apply(cfg, s, l).store[sid].rec == s.renewed[sid]
  {
    hide KM.Apply, KM.Enabled;
  }

  lemma LandedPc(cfg: Config, s: State, l: Label, sid: Sid, horizon: int)
    requires sid in s.issued && sid in s.store && sid in s.renewed && s.now <= horizon
    requires s.renewed[sid].accessExpiry - cfg.skew > horizon
    requires s.store[sid].rec == s.issued[sid] || s.store[sid].rec == s.renewed[sid]
    requires Enabled(cfg, s, l) && !Background(l) && !l.Begin? && s.calls[l.t].sid == sid
    requires Landed(s.calls[l.t], s.issued[sid], s.renewed[sid])
    requires l.Load? || l.Reload? ==> l.ok
    requires l.Reload? ==> s.store[sid].rec == s.renewed[sid]
    requires l.Measure? ==> s.calls[l.t].rec.session.expiry > horizon
    ensures l.t in Apply(cfg, s, l).calls && Landed(Apply(cfg, s, l).calls[l.t], s.issued[sid], s.renewed[sid])
    ensures Carrying(s.calls[l.t], sid) && !l.Put? ==> Carrying(Apply(cfg, s, l).calls[l.t], sid)
  {
    hide KM.Apply, KM.Enabled;
  }

  lemma StepKeepsFlight(cfg: Config, s: State, l: Label, sid: Sid, horizon: int)
    requires Life(cfg, s) && LocksInStep(s) && Flight(cfg, s, sid, horizon)
    requires Enabled(cfg, s, l) && Calm(cfg, s, l, sid, horizon)
    ensures Flight(cfg, Apply(cfg, s, l), sid, horizon)
  {
    if Background(l) {
      BackgroundKeepsFlight(cfg, s, l, sid, horizon);
    } else if l.Begin? || s.calls[l.t].sid != sid {
      OtherKeepsFlight(cfg, s, l, sid, horizon);
    } else if sid in s.renewed {
      if l.Reload? { ReloadSeesRenewed(cfg, s, l.t, sid, horizon); }
      if l.Measure? { MeasuredInTime(cfg, s, l.t, sid, horizon); }
      LandedStep(cfg, s, l, sid, horizon);
    } else if l.Call? && l.outcome.Some? {
      RefreshLands(cfg, s, l, sid, horizon);
    } else {
      GroundedStep(cfg, s, l, sid, horizon);
    }
  }

  // Once refreshed, a step of the session adds no call and only decides on the refreshed record.
  lemma NewsAfterRefresh(cfg: Config, s: State, l: Label, sid: Sid, horizon: int, i: nat)
    requires Life(cfg, s) && Flight(cfg, s, sid, horizon) && sid in s.renewed
    requires Enabled(cfg, s, l) && Calm(cfg, s, l, sid, horizon) && i < |News(cfg, s, l)|
    requires News(cfg, s, l)[i].sid == sid
    ensures !News(cfg, s, l)[i].Called?
    ensures News(cfg, s, l)[i].Decided? && News(cfg, s, l)[i].waited ==>
      News(cfg, s, l)[i].result == Some(s.renewed[sid])
  {
    if !Background(l) && !l.Begin? && s.calls[l.t].sid == sid {
      assert Landed(s.calls[l.t], s.issued[sid], s.renewed[sid]);
      if l.Measure? { MeasuredInTime(cfg, s, l.t, sid, horizon); }
    }
  }

  lemma StepKeepsFlightLog(cfg: Config, s: State, l: Label, sid: Sid, horizon: int)
    requires Life(cfg, s) && Flight(cfg, s, sid, horizon) && FlightLog(s, sid)
    requires Enabled(cfg, s, l) && Calm(cfg, s, l, sid, horizon)
    ensures FlightLog(Apply(cfg, s, l), sid)
  {
    var s', n := Apply(cfg, s, l), |s.log|;
    if sid in s.renewed {
      assert sid in s'.renewed && s'.renewed[sid] == s.renewed[sid]
             && sid in s'.issued && s'.issued[sid] == s.issued[sid] by {
        RenewedStays(cfg, s, l, sid, horizon);
      }
      forall j | n <= j < |s'.log| && s'.log[j].sid == sid
        ensures !s'.log[j].Called?
        ensures s'.log[j].Decided? && s'.log[j].waited ==> s'.log[j].result == Some(s.renewed[sid])
      {
        NewsAfterRefresh(cfg, s, l, sid, horizon, j - n);
      }
    } else {
      FirstCall(cfg, s, l, sid, horizon);
    }
  }

  lemma RenewedStays(cfg: Config, s: State, l: Label, sid: Sid, horizon: int)
    requires Flight(cfg, s, sid, horizon) && sid in s.renewed && Enabled(cfg, s, l)
    ensures var s' := Apply(cfg, s, l);
      sid in s'.renewed && s'.renewed[sid] == s.renewed[sid] && sid in s'.issued && s'.issued[sid] == s.issued[sid]
  {
    hide KM.Apply, KM.Enabled;
    if !Background(l) && !l.Begin? && s.calls[l.t].sid == sid {
      assert Landed(s.calls[l.t], s.issued[sid], s.renewed[sid]);
    }
  }

  // Until the first success the log holds no success, and the first one presents the issued token.
  lemma FirstCall(cfg: Config, s: State, l: Label, sid: Sid, horizon: int)
    requires Flight(cfg, s, sid, horizon) && FlightLog(s, sid) && sid !in s.renewed
    requires Enabled(cfg, s, l)
    ensures FlightLog(Apply(cfg, s, l), sid)
  {
    var s', n := Apply(cfg, s, l), |s.log|;
    if l.Call? && l.outcome.Some? && s.calls[l.t].sid == sid {
      assert Grounded(s.calls[l.t], s.issued[sid]);
      assert News(cfg, s, l) == [Called(sid, s.issued[sid].refreshToken, l.outcome)];
    } else {
      forall j | n <= j < |s'.log| && s'.log[j].sid == sid && s'.log[j].Called? ensures s'.log[j].outcome.None? {
        assert s'.log[j] == News(cfg, s, l)[j - n];
      }
    }
  }

  lemma {:induction false} RunKeepsFlight(cfg: Config, s: State, ls: seq<Label>, sid: Sid, horizon: int)
    requires Life(cfg, s) && LocksInStep(s) && Flight(cfg, s, sid, horizon) && FlightLog(s, sid)
    requires Valid(cfg, s, ls) && CalmRun(cfg, s, ls, sid, horizon)
    ensures FlightLog(Exec(cfg, s, ls), sid)
    decreases |ls|
  {
    if ls != [] {
      StepKeepsLife(cfg, s, ls[0]);
      StepKeepsLocks(cfg, s, ls[0]);
      StepKeepsFlight(cfg, s, ls[0], sid, horizon);
      StepKeepsFlightLog(cfg, s, ls[0], sid, horizon);
      RunKeepsFlight(cfg, Apply(cfg, s, ls[0]), ls[1..], sid, horizon);
    }
  }

  // Every interleaving of any number of Reads, from an empty store, on calm premises.
  lemma SingleFlightRefresh(cfg: Config, now: int, ls: seq<Label>, sid: Sid, horizon: int)
    requires now <= horizon && Valid(cfg, Init(now), ls) && CalmRun(cfg, Init(now), ls, sid, horizon)
    ensures OneFlight(Exec(cfg, Init(now), ls).log, sid)
  {
    RunKeepsFlight(cfg, Init(now), ls, sid, horizon);
  }
}
