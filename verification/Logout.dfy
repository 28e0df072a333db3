/**
  When a logout is final.  A Read that is on its way to refresh a session can
  store the session again after Clear deleted it; this module says exactly
  which Reads can.
 */
module Logout {
  import opened Wrappers
  import opened SessionProtocol
  import opened SessionLifetime
  import KM = KeyedMutex

  // The access token comes due for refresh while the session is still alive.
  predicate ComesDue(cfg: Config, rec: Record) {
    Refreshable(cfg, rec) && rec.accessExpiry - cfg.skew + 1 < rec.session.expiry
  }

  // This Read can still write the session's record back at or after `now`.
  predicate Harmful(cfg: Config, now: int, pc: Pc) {
    match pc
    case Storing(_, _, _, _) => true
    case Loaded(_, fp, rec) => now < rec.session.expiry && rec.session.fingerprint == fp && ComesDue(cfg, rec)
    case Admitted(_, rec) => now < rec.session.expiry && ComesDue(cfg, rec)
    case Reloaded(_, rec, again) =>
      now < rec.session.expiry && (again.Some? ==> again.value.accessExpiry - cfg.skew < rec.session.expiry)
    case Waiting(_, rec) => now < rec.session.expiry
    case Queued(_, rec) => now < rec.session.expiry
    case Locked(_, rec) => now < rec.session.expiry
    case Refreshing(_, rec) => now < rec.session.expiry
    case Renewed(_, rec) => now < rec.session.expiry
    case _ => false
  }

  ghost predicate Gone(cfg: Config, s: State, sid: Sid) {
    && sid in s.issued && sid !in s.store
    && (forall t :: t in s.calls && s.calls[t].sid == sid ==> !Harmful(cfg, s.now, s.calls[t]))
  }

  lemma HarmlessStays(cfg: Config, s: State, l: Label)
    requires Enabled(cfg, s, l) && !Background(l) && !l.Begin?
    requires s.calls[l.t].sid !in s.store && !Harmful(cfg, s.now, s.calls[l.t])
    ensures l.t in Apply(cfg, s, l).calls && !Harmful(cfg, s.now, Apply(cfg, s, l).calls[l.t])
    ensures Apply(cfg, s, l).store == s.store
  {
    hide Apply, Harmful, KM.Apply, KM.Enabled;
    if l.Put? {
      NoPut(cfg, s, l);
    } else {
      OnlyPutWrites(cfg, s, l);
      if MutexLabel(l) { HarmlessInLine(cfg, s, l); } else { HarmlessOwn(cfg, s, l); }
    }
  }

  lemma NoPut(cfg: Config, s: State, l: Label)
    requires Enabled(cfg, s, l) && l.Put?
    ensures Harmful(cfg, s.now, s.calls[l.t])
  {
  }

  lemma HarmlessInLine(cfg: Config, s: State, l: Label)
    requires Enabled(cfg, s, l) && MutexLabel(l) && !Harmful(cfg, s.now, s.calls[l.t])
    ensures l.t in Apply(cfg, s, l).calls && !Harmful(cfg, s.now, Apply(cfg, s, l).calls[l.t])
  {
    hide KM.Apply, KM.Enabled;
  }

  lemma HarmlessOwn(cfg: Config, s: State, l: Label)
    requires Enabled(cfg, s, l) && OwnLabel(l) && !l.Begin? && !l.Put?
    requires s.calls[l.t].sid !in s.store && !Harmful(cfg, s.now, s.calls[l.t])
    ensures l.t in Apply(cfg, s, l).calls && !Harmful(cfg, s.now, Apply(cfg, s, l).calls[l.t])
  {
    hide KM.Apply, KM.Enabled;
  }

  lemma StepKeepsGone(cfg: Config, s: State, l: Label, sid: Sid)
    requires Gone(cfg, s, sid) && Enabled(cfg, s, l)
    ensures Gone(cfg, Apply(cfg, s, l), sid)
  {
    if Background(l) {
      BackgroundKeepsGone(cfg, s, l, sid);
    } else {
      ReadStepKeepsGone(cfg, s, l, sid);
    }
  }

  lemma BackgroundKeepsGone(cfg: Config, s: State, l: Label, sid: Sid)
    requires Gone(cfg, s, sid) && Enabled(cfg, s, l) && Background(l)
    ensures Gone(cfg, Apply(cfg, s, l), sid)
  {
    hide KM.Apply, KM.Enabled;
  }

  lemma ReadStepKeepsGone(cfg: Config, s: State, l: Label, sid: Sid)
    requires Gone(cfg, s, sid) && Enabled(cfg, s, l) && !Background(l)
    ensures Gone(cfg, Apply(cfg, s, l), sid)
  {
    hide Apply, Harmful;
    if l.Begin? { BeganIsHarmless(cfg, s, l); }
    ReadStepMoves(cfg, s, l);
    SidStays(cfg, s, l);
    if !l.Begin? && s.calls[l.t].sid == sid { HarmlessStays(cfg, s, l); }
  }

  lemma BeganIsHarmless(cfg: Config, s: State, l: Label)
    requires Enabled(cfg, s, l) && l.Begin?
    ensures l.t in Apply(cfg, s, l).calls && !Harmful(cfg, s.now, Apply(cfg, s, l).calls[l.t])
  {
  }

  lemma SidStays(cfg: Config, s: State, l: Label)
    requires Enabled(cfg, s, l) && !Background(l)
    ensures l.t in Apply(cfg, s, l).calls
    ensures !l.Begin? ==> Apply(cfg, s, l).calls[l.t].sid == s.calls[l.t].sid
    ensures forall id :: id in Apply(cfg, s, l).store && id !in s.store ==> !l.Begin? && id == s.calls[l.t].sid
  {
    hide KM.Apply, KM.Enabled;
  }

  lemma {:induction false} RunKeepsGone(cfg: Config, s: State, ls: seq<Label>, sid: Sid)
    requires Gone(cfg, s, sid) && Valid(cfg, s, ls)
    ensures Gone(cfg, Exec(cfg, s, ls), sid)
    decreases |ls|
  {
    if ls != [] {
      StepKeepsGone(cfg, s, ls[0], sid);
      RunKeepsGone(cfg, Apply(cfg, s, ls[0]), ls[1..], sid);
    }
  }

  // Some run from `s` stores the session again.
  ghost predicate Revivable(cfg: Config, s: State, sid: Sid) {
    exists s' :: Leads(cfg, s, s') && sid in s'.store
  }

  lemma RevivableBy(cfg: Config, s: State, l: Label, sid: Sid)
    requires Enabled(cfg, s, l) && Revivable(cfg, Apply(cfg, s, l), sid)
    ensures Revivable(cfg, s, sid)
  {
    var s' :| Leads(cfg, Apply(cfg, s, l), s') && sid in s'.store;
    LeadsBy(cfg, s, l, s');
  }

  lemma StoringRevives(cfg: Config, s: State, t: Thread)
    requires t in s.calls && s.calls[t].Storing?
    ensures Revivable(cfg, s, s.calls[t].sid)
  {
    var s' := Apply(cfg, s, Put(t, true));
    LeadsNowhere(cfg, s');
    assert Revivable(cfg, s', s.calls[t].sid);
    RevivableBy(cfg, s, Put(t, true), s.calls[t].sid);
  }

  lemma RenewedRevives(cfg: Config, s: State, t: Thread)
    requires t in s.calls && s.calls[t].Renewed? && Harmful(cfg, s.now, s.calls[t])
    ensures Revivable(cfg, s, s.calls[t].sid)
  {
    StoringRevives(cfg, Apply(cfg, s, Measure(t)), t);
    RevivableBy(cfg, s, Measure(t), s.calls[t].sid);
  }

  lemma RefreshingRevives(cfg: Config, s: State, t: Thread)
    requires t in s.calls && s.calls[t].Refreshing? && Harmful(cfg, s.now, s.calls[t])
    ensures Revivable(cfg, s, s.calls[t].sid)
  {
    var l := Call(t, Some(Tokens("", "", 0)));
    RenewedRevives(cfg, Apply(cfg, s, l), t);
    RevivableBy(cfg, s, l, s.calls[t].sid);
  }

  lemma ReloadedRevives(cfg: Config, s: State, t: Thread)
    requires t in s.calls && s.calls[t].Reloaded? && Harmful(cfg, s.now, s.calls[t])
    ensures Revivable(cfg, s, s.calls[t].sid)
    decreases s.calls[t].again.Some? && StillFresh(cfg, s.calls[t].again.value, s.now)
  {
    var pc := s.calls[t];
    if pc.again.Some? && StillFresh(cfg, pc.again.value, s.now) {
      var l := Tick(pc.again.value.accessExpiry - cfg.skew - s.now);
      ReloadedRevives(cfg, Apply(cfg, s, l), t);
      RevivableBy(cfg, s, l, pc.sid);
    } else {
      RefreshingRevives(cfg, Apply(cfg, s, Judge(t)), t);
      RevivableBy(cfg, s, Judge(t), pc.sid);
    }
  }

  lemma LockedRevives(cfg: Config, s: State, t: Thread)
    requires t in s.calls && s.calls[t].Locked? && Harmful(cfg, s.now, s.calls[t]) && s.calls[t].sid !in s.store
    ensures Revivable(cfg, s, s.calls[t].sid)
  {
    ReloadedRevives(cfg, Apply(cfg, s, Reload(t, true)), t);
    RevivableBy(cfg, s, Reload(t, true), s.calls[t].sid);
  }

  // Whoever holds the mutex either writes the session back itself or makes way.
  lemma QueuedRevives(cfg: Config, s: State, t: Thread)
    requires LocksInStep(s) && Life(cfg, s)
    requires t in s.calls && s.calls[t].Queued? && Harmful(cfg, s.now, s.calls[t]) && s.calls[t].sid !in s.store
    ensures Revivable(cfg, s, s.calls[t].sid)
  {
    var sid := s.calls[t].sid;
    if Enabled(cfg, s, Enter(t)) {
      LockedRevives(cfg, Apply(cfg, s, Enter(t)), t);
      RevivableBy(cfg, s, Enter(t), sid);
    } else {
      var u := HolderOf(cfg, s, t);
      if s.calls[u].Finishing? {
        AfterLeaveRevives(cfg, s, t, u);
      } else {
        HolderRevivesOrDecides(cfg, s, t, u);
      }
    }
  }

  lemma AfterLeaveRevives(cfg: Config, s: State, t: Thread, u: Thread)
    requires LocksInStep(s) && t in s.calls && u in s.calls && s.calls[u].Finishing? && s.calls[u].sid == s.calls[t].sid
    requires s.calls[t].Queued? && Harmful(cfg, s.now, s.calls[t]) && s.calls[t].sid !in s.store
    ensures Revivable(cfg, s, s.calls[t].sid)
  {
    HolderLeaves(cfg, s, u, t);
    var s1 := Apply(cfg, s, Leave(u));
    LockedRevives(cfg, Apply(cfg, s1, Enter(t)), t);
    RevivableBy(cfg, s1, Enter(t), s.calls[t].sid);
    RevivableBy(cfg, s, Leave(u), s.calls[t].sid);
  }

  lemma SameEnd(cfg: Config, s: State, t: Thread, u: Thread)
    requires Life(cfg, s) && t in s.calls && u in s.calls && s.calls[u].sid == s.calls[t].sid
    requires s.calls[t].Queued? && Critical(s.calls[u]) && !s.calls[u].Finishing?
    ensures s.calls[t].rec.session.expiry == s.calls[u].rec.session.expiry
  {
    assert FaithfulPc(s.issued, s.calls[t], s.now) && FaithfulPc(s.issued, s.calls[u], s.now);
    assert Fixed(s.calls[t].rec.session).expiry == Fixed(s.calls[u].rec.session).expiry;
  }

  lemma HolderRevivesOrDecides(cfg: Config, s: State, t: Thread, u: Thread)
    requires LocksInStep(s) && Life(cfg, s) && t in s.calls && u in s.calls && s.calls[u].sid == s.calls[t].sid
    requires s.calls[t].Queued? && Harmful(cfg, s.now, s.calls[t]) && s.calls[t].sid !in s.store
    requires Critical(s.calls[u]) && !s.calls[u].Finishing?
    ensures Revivable(cfg, s, s.calls[t].sid)
  {
    hide LocksInStep, Life, Revivable, KM.Apply, KM.Enabled, Apply, Enabled;
    SameEnd(cfg, s, t, u);
    match s.calls[u]
    case Storing(_, _, _, _) => StoringRevives(cfg, s, u);
    case Renewed(_, _) => RenewedRevives(cfg, s, u);
    case Refreshing(_, _) => RefreshingRevives(cfg, s, u);
    case Locked(_, _) => LockedRevives(cfg, s, u);
    case Reloaded(_, _, again) =>
      if Harmful(cfg, s.now, s.calls[u]) {
        ReloadedRevives(cfg, s, u);
      } else {
        ReloadedMakesWay(cfg, s, t, u);
      }
  }

  // A Read that takes over another one's refresh decides at once and leaves.
  lemma ReloadedMakesWay(cfg: Config, s: State, t: Thread, u: Thread)
    requires LocksInStep(s) && Life(cfg, s) && t in s.calls && u in s.calls && s.calls[u].sid == s.calls[t].sid
    requires s.calls[t].Queued? && Harmful(cfg, s.now, s.calls[t]) && s.calls[t].sid !in s.store
    requires s.calls[u].Reloaded? && !Harmful(cfg, s.now, s.calls[u])
    requires s.calls[t].rec.session.expiry == s.calls[u].rec.session.expiry
    ensures Revivable(cfg, s, s.calls[t].sid)
  {
    hide LocksInStep, Life, Revivable, KM.Apply, KM.Enabled;
    StepKeepsLocks(cfg, s, Judge(u));
    AfterLeaveRevives(cfg, Apply(cfg, s, Judge(u)), t, u);
    RevivableBy(cfg, s, Judge(u), s.calls[t].sid);
  }

  lemma WaitingRevives(cfg: Config, s: State, t: Thread)
    requires LocksInStep(s) && Life(cfg, s)
    requires t in s.calls && s.calls[t].Waiting? && Harmful(cfg, s.now, s.calls[t]) && s.calls[t].sid !in s.store
    ensures Revivable(cfg, s, s.calls[t].sid)
  {
    var spare := SpareRef(s.locks.heap.Keys);
    assert InStep(s.calls[t], KM.PhaseOf(s.locks, t));
    var l := Enlist(t, spare);
    StepKeepsLocks(cfg, s, l);
    StepKeepsLife(cfg, s, l);
    QueuedRevives(cfg, Apply(cfg, s, l), t);
    RevivableBy(cfg, s, l, s.calls[t].sid);
  }

  lemma AdmittedRevives(cfg: Config, s: State, t: Thread)
    requires LocksInStep(s) && Life(cfg, s)
    requires t in s.calls && s.calls[t].Admitted? && Harmful(cfg, s.now, s.calls[t]) && s.calls[t].sid !in s.store
    ensures Revivable(cfg, s, s.calls[t].sid)
    decreases !NearExpiry(cfg, s.calls[t].rec, s.now)
  {
    var rec := s.calls[t].rec;
    if NearExpiry(cfg, rec, s.now) {
      StepKeepsLocks(cfg, s, Decide(t));
      StepKeepsLife(cfg, s, Decide(t));
      WaitingRevives(cfg, Apply(cfg, s, Decide(t)), t);
      RevivableBy(cfg, s, Decide(t), s.calls[t].sid);
    } else {
      var l := Tick(rec.accessExpiry - cfg.skew + 1 - s.now);
      StepKeepsLife(cfg, s, l);
      AdmittedRevives(cfg, Apply(cfg, s, l), t);
      RevivableBy(cfg, s, l, s.calls[t].sid);
    }
  }

  lemma LoadedRevives(cfg: Config, s: State, t: Thread)
    requires LocksInStep(s) && Life(cfg, s)
    requires t in s.calls && s.calls[t].Loaded? && Harmful(cfg, s.now, s.calls[t]) && s.calls[t].sid !in s.store
    ensures Revivable(cfg, s, s.calls[t].sid)
  {
    StepKeepsLocks(cfg, s, Admit(t));
    StepKeepsLife(cfg, s, Admit(t));
    AdmittedRevives(cfg, Apply(cfg, s, Admit(t)), t);
    RevivableBy(cfg, s, Admit(t), s.calls[t].sid);
  }

  lemma HarmfulRevives(cfg: Config, s: State, t: Thread)
    requires LocksInStep(s) && Life(cfg, s)
    requires t in s.calls && Harmful(cfg, s.now, s.calls[t]) && s.calls[t].sid !in s.store
    ensures Revivable(cfg, s, s.calls[t].sid)
  {
    match s.calls[t]
    case Loaded(_, _, _) => LoadedRevives(cfg, s, t);
    case Admitted(_, _) => AdmittedRevives(cfg, s, t);
    case Waiting(_, _) => WaitingRevives(cfg, s, t);
    case Queued(_, _) => QueuedRevives(cfg, s, t);
    case Locked(_, _) => LockedRevives(cfg, s, t);
    case Reloaded(_, _, _) => ReloadedRevives(cfg, s, t);
    case Refreshing(_, _) => RefreshingRevives(cfg, s, t);
    case Renewed(_, _) => RenewedRevives(cfg, s, t);
    case Storing(_, _, _, _) => StoringRevives(cfg, s, t);
  }

  /**
    In every run, right after an issued session is cleared: the session can come
    back in some continuation if and only if a Read that can still write it back
    is in flight at that moment.
   */
  lemma LogoutIsFinalIff(cfg: Config, now: int, ls: seq<Label>, sid: Sid)
    requires Valid(cfg, Init(now), ls) && sid in Exec(cfg, Init(now), ls).issued
    ensures var s := Exec(cfg, Init(now), ls);
      Revivable(cfg, Apply(cfg, s, Clear(sid)), sid)
      <==> exists t :: t in s.calls && s.calls[t].sid == sid && Harmful(cfg, s.now, s.calls[t])
  {
    var s := Exec(cfg, Init(now), ls);
    var out := Apply(cfg, s, Clear(sid));
    RunKeepsLocks(cfg, Init(now), ls);
    RunKeepsLife(cfg, Init(now), ls);
    StepKeepsLocks(cfg, s, Clear(sid));
    StepKeepsLife(cfg, s, Clear(sid));
    if t :| t in s.calls && s.calls[t].sid == sid && Harmful(cfg, s.now, s.calls[t]) {
      HarmfulRevives(cfg, out, t);
    } else if Revivable(cfg, out, sid) {
      var s' :| Leads(cfg, out, s') && sid in s'.store;
      var ms :| Valid(cfg, out, ms) && Exec(cfg, out, ms) == s';
      assert Gone(cfg, out, sid);
      RunKeepsGone(cfg, out, ms, sid);
    }
  }

  // And while it is gone, a Read of it that starts finds nothing.
  lemma ReadAfterLogoutFails(cfg: Config, s: State, ls: seq<Label>, sid: Sid, t: Thread, ok: bool)
    requires Gone(cfg, s, sid) && Valid(cfg, s, ls)
    requires var s' := Exec(cfg, s, ls); t in s'.calls && s'.calls[t].Start? && s'.calls[t].sid == sid
    ensures Apply(cfg, Exec(cfg, s, ls), Load(t, ok)).calls[t] == Done(sid, None)
  {
    RunKeepsGone(cfg, s, ls, sid);
  }
}
