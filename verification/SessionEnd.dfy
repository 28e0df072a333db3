/**
  Why the session's own lifetime is among the premises of single-flight: a run
  from an empty store on which everything else is calm, and a rotated refresh
  token is presented again.
 */
module SessionEnd {
  import opened Wrappers
  import opened SessionProtocol
  import opened SingleFlight
  import KM = KeyedMutex

  // Calm in every respect but that the session may end before the horizon.
  predicate CalmButForTheEnd(cfg: Config, s: State, l: Label, sid: Sid, horizon: int)
    requires Enabled(cfg, s, l)
  {
    l.Issue? || Calm(cfg, s, l, sid, horizon)
  }

  predicate CalmButForTheEndRun(cfg: Config, s: State, ls: seq<Label>, sid: Sid, horizon: int)
    requires Valid(cfg, s, ls)
    decreases |ls|
  {
    ls == [] ||
    (CalmButForTheEnd(cfg, s, ls[0], sid, horizon)
     && CalmButForTheEndRun(cfg, Apply(cfg, s, ls[0]), ls[1..], sid, horizon))
  }

  // Such a run leads from `s` to `s'`.
  ghost predicate Reaches(cfg: Config, s: State, s': State, sid: Sid, horizon: int) {
    exists ls :: Valid(cfg, s, ls) && CalmButForTheEndRun(cfg, s, ls, sid, horizon) && Exec(cfg, s, ls) == s'
  }

  lemma ReachesNowhere(cfg: Config, s: State, sid: Sid, horizon: int)
    ensures Reaches(cfg, s, s, sid, horizon)
  {
    assert Valid(cfg, s, []) && CalmButForTheEndRun(cfg, s, [], sid, horizon) && Exec(cfg, s, []) == s;
  }

  lemma ReachesBy(cfg: Config, s: State, l: Label, s': State, sid: Sid, horizon: int)
    requires Enabled(cfg, s, l) && CalmButForTheEnd(cfg, s, l, sid, horizon)
    requires Reaches(cfg, Apply(cfg, s, l), s', sid, horizon)
    ensures Reaches(cfg, s, s', sid, horizon)
  {
    hide Enabled, Apply, CalmButForTheEnd;
    var next := Apply(cfg, s, l);
    var ls :| Valid(cfg, next, ls) && CalmButForTheEndRun(cfg, next, ls, sid, horizon) && Exec(cfg, next, ls) == s';
    var longer := [l] + ls;
    assert longer[1..] == ls;
    assert Valid(cfg, s, longer) && CalmButForTheEndRun(cfg, s, longer, sid, horizon) && Exec(cfg, s, longer) == s';
  }

  lemma ReachesOne(cfg: Config, s: State, l: Label, sid: Sid, horizon: int)
    requires Enabled(cfg, s, l) && CalmButForTheEnd(cfg, s, l, sid, horizon)
    ensures Reaches(cfg, s, Apply(cfg, s, l), sid, horizon)
  {
    hide Reaches, Enabled, Apply, CalmButForTheEnd;
    ReachesNowhere(cfg, Apply(cfg, s, l), sid, horizon);
    ReachesBy(cfg, s, l, Apply(cfg, s, l), sid, horizon);
  }

  lemma ReachesThrough(cfg: Config, s: State, mid: State, s': State, sid: Sid, horizon: int)
    requires Reaches(cfg, s, mid, sid, horizon) && Reaches(cfg, mid, s', sid, horizon)
    ensures Reaches(cfg, s, s', sid, horizon)
  {
    var ls :| Valid(cfg, s, ls) && CalmButForTheEndRun(cfg, s, ls, sid, horizon) && Exec(cfg, s, ls) == mid;
    RunThenReach(cfg, s, ls, s', sid, horizon);
  }

  lemma {:induction false} RunThenReach(cfg: Config, s: State, ls: seq<Label>, s': State, sid: Sid, horizon: int)
    requires Valid(cfg, s, ls) && CalmButForTheEndRun(cfg, s, ls, sid, horizon)
    requires Reaches(cfg, Exec(cfg, s, ls), s', sid, horizon)
    ensures Reaches(cfg, s, s', sid, horizon)
    decreases |ls|
  {
    hide Reaches, Enabled, Apply, CalmButForTheEnd;
    if ls != [] {
      RunThenReach(cfg, Apply(cfg, s, ls[0]), ls[1..], s', sid, horizon);
      ReachesBy(cfg, s, ls[0], s', sid, horizon);
    }
  }

  /* ---- the run, in stages ---- */

  // A record that is due at once and a session that ends with its TTL.
  function DueRecord(cfg: Config, now: int, fp: string): Record {
    Record(Session("", map[], [], "", now + cfg.ttl, now, fp), "token", now)
  }

  // A Read that starts now ends up waiting for the mutex with the stored record.
  predicate Due(cfg: Config, s: State, sid: Sid, rec: Record) {
    && sid != "" && sid in s.store && s.store[sid].rec == rec
    && Refreshable(cfg, rec) && NearExpiry(cfg, rec, s.now) && s.now <= rec.session.expiry
  }

  function Queueing(s: State, t: Thread, sid: Sid, rec: Record, spare: KM.Ref): State
    requires KM.Enabled(s.locks, KM.Register(t, sid, spare))
  {
    s.(calls := s.calls[t := Queued(sid, rec)], locks := KM.Apply(s.locks, KM.Register(t, sid, spare)),
       log := s.log + [PassedLifetime(sid, s.now)])
  }

  // One step, by its effect.
  lemma Moves(cfg: Config, s: State, l: Label, s': State, sid: Sid, horizon: int)
    requires Enabled(cfg, s, l) && CalmButForTheEnd(cfg, s, l, sid, horizon) && Apply(cfg, s, l) == s'
    ensures Reaches(cfg, s, s', sid, horizon)
  {
    hide Reaches, Enabled, Apply, CalmButForTheEnd;
    ReachesOne(cfg, s, l, sid, horizon);
  }

  lemma Admits(cfg: Config, s: State, t: Thread, sid: Sid, rec: Record, horizon: int)
    requires Due(cfg, s, sid, rec) && t !in s.calls
    ensures var s' := Become(s, t, Admitted(sid, rec)).(log := s.log + [PassedLifetime(sid, s.now)]);
      Reaches(cfg, s, s', sid, horizon)
  {
    hide Reaches, KM.Enabled, KM.Apply;
    var fp := rec.session.fingerprint;
    var s1 := Become(s, t, Start(sid, fp));
    var s2 := Become(s1, t, Loaded(sid, fp, rec));
    var s3 := Become(s2, t, Admitted(sid, rec)).(log := s.log + [PassedLifetime(sid, s.now)]);
    Moves(cfg, s, Begin(t, sid, fp), s1, sid, horizon);
    Moves(cfg, s1, Load(t, true), s2, sid, horizon);
    Moves(cfg, s2, Admit(t), s3, sid, horizon);
    ReachesThrough(cfg, s, s1, s2, sid, horizon);
    ReachesThrough(cfg, s, s2, s3, sid, horizon);
    assert s3 == Become(s, t, Admitted(sid, rec)).(log := s.log + [PassedLifetime(sid, s.now)]);
  }

  lemma Approaches(cfg: Config, s: State, t: Thread, sid: Sid, rec: Record, spare: KM.Ref, horizon: int)
    requires Due(cfg, s, sid, rec) && t !in s.calls && KM.Enabled(s.locks, KM.Register(t, sid, spare))
    ensures Reaches(cfg, s, Queueing(s, t, sid, rec, spare), sid, horizon)
  {
    hide Reaches, KM.Enabled, KM.Apply;
    var s3 := Become(s, t, Admitted(sid, rec)).(log := s.log + [PassedLifetime(sid, s.now)]);
    var s4 := Become(s3, t, Waiting(sid, rec));
    Admits(cfg, s, t, sid, rec, horizon);
    Moves(cfg, s3, Decide(t), s4, sid, horizon);
    Moves(cfg, s4, Enlist(t, spare), Queueing(s4, t, sid, rec, spare).(log := s4.log), sid, horizon);
    assert Queueing(s4, t, sid, rec, spare).(log := s4.log) == Queueing(s, t, sid, rec, spare);
    ReachesThrough(cfg, s, s3, s4, sid, horizon);
    ReachesThrough(cfg, s, s4, Queueing(s, t, sid, rec, spare), sid, horizon);
  }

  // The stored record is as stale as the Read's own, so the Read goes on to the provider.
  predicate Stale(cfg: Config, s: State, sid: Sid) {
    sid in s.store && !StillFresh(cfg, s.store[sid].rec, s.now)
  }

  function Inside(s: State, t: Thread): State
    requires t in s.calls && s.calls[t].Queued? && KM.Enabled(s.locks, KM.Acquire(t))
  {
    s.(calls := s.calls[t := Refreshing(s.calls[t].sid, s.calls[t].rec)], locks := KM.Apply(s.locks, KM.Acquire(t)))
  }

  lemma TakesOver(cfg: Config, s: State, t: Thread, horizon: int)
    requires t in s.calls && s.calls[t].Queued? && Enabled(cfg, s, Enter(t)) && Stale(cfg, s, s.calls[t].sid)
    ensures Reaches(cfg, s, Inside(s, t), s.calls[t].sid, horizon)
  {
    hide Reaches, KM.Enabled, KM.Apply;
    var sid, rec := s.calls[t].sid, s.calls[t].rec;
    var s1 := Become(s, t, Locked(sid, rec)).(locks := KM.Apply(s.locks, KM.Acquire(t)));
    var s2 := Become(s1, t, Reloaded(sid, rec, Some(s.store[sid].rec)));
    Moves(cfg, s, Enter(t), s1, sid, horizon);
    Moves(cfg, s1, Reload(t, true), s2, sid, horizon);
    Moves(cfg, s2, Judge(t), Become(s2, t, Refreshing(sid, rec)), sid, horizon);
    assert Become(s2, t, Refreshing(sid, rec)) == Inside(s, t);
    ReachesThrough(cfg, s, s1, s2, sid, horizon);
    ReachesThrough(cfg, s, s2, Inside(s, t), sid, horizon);
  }

  // The refresh succeeds after the session's end: nothing is stored, and the holder is ready to leave.
  function RenewedInVain(s: State, t: Thread, tok: Tokens): State
    requires t in s.calls && s.calls[t].Refreshing?
  {
    var sid, rec := s.calls[t].sid, Renew(s.calls[t].rec, tok);
    Become(s, t, Finishing(sid, Some(rec))).(
      renewed := s.renewed[sid := rec],
      log := s.log + [Called(sid, s.calls[t].rec.refreshToken, Some(tok)), Decided(sid, true, Some(rec))])
  }

  lemma RenewsInVain(cfg: Config, s: State, t: Thread, tok: Tokens, horizon: int)
    requires t in s.calls && s.calls[t].Refreshing? && s.now >= s.calls[t].rec.session.expiry
    requires tok.expiry - cfg.skew > horizon
    ensures Reaches(cfg, s, RenewedInVain(s, t, tok), s.calls[t].sid, horizon)
  {
    hide Reaches, KM.Enabled, KM.Apply;
    var sid, rec := s.calls[t].sid, Renew(s.calls[t].rec, tok);
    var s1 := Become(s, t, Renewed(sid, rec)).(
      renewed := s.renewed[sid := rec], log := s.log + [Called(sid, s.calls[t].rec.refreshToken, Some(tok))]);
    var s2 := RenewedInVain(s, t, tok);
    Moves(cfg, s, Call(t, Some(tok)), s1, sid, horizon);
    assert s1.log + [Decided(sid, true, Some(rec))] == s2.log;
    Moves(cfg, s1, Measure(t), s2, sid, horizon);
    ReachesThrough(cfg, s, s1, s2, sid, horizon);
  }

  lemma ReachedLocks(cfg: Config, now: int, s: State, sid: Sid, horizon: int)
    requires Reaches(cfg, Init(now), s, sid, horizon)
    ensures LocksInStep(s)
  {
    hide Enabled, Apply, CalmButForTheEnd;
    var ls :| Valid(cfg, Init(now), ls) && CalmButForTheEndRun(cfg, Init(now), ls, sid, horizon)
              && Exec(cfg, Init(now), ls) == s;
    RunKeepsLocks(cfg, Init(now), ls);
  }

  // Two Reads of a session that is due wait for the same mutex, and one of them gets it.
  ghost predicate TwoInLine(cfg: Config, s: State, t: Thread, u: Thread, sid: Sid, rec: Record) {
    && t != u && s.calls == map[t := Refreshing(sid, rec), u := Queued(sid, rec)]
    && sid in s.store && s.store[sid].rec == rec && rec.refreshToken == "token"
  }

  // An issued session that is due, and nobody at work.
  lemma IssuedDue(cfg: Config, now: int, sid: Sid, rec: Record, horizon: int) returns (s: State)
    requires cfg.hasProvider && cfg.skew > 0 && cfg.ttl >= 0 && sid != ""
    requires rec.session.issuedAt == now == rec.accessExpiry && rec.session.expiry == now + cfg.ttl
    requires rec.refreshToken != ""
    ensures Reaches(cfg, Init(now), s, sid, horizon) && s.now == now && s.calls == map[] && s.locks == KM.INIT
    ensures Due(cfg, s, sid, rec)
  {
    hide Reaches;
    s := Apply(cfg, Init(now), Issue(sid, now, rec));
    Moves(cfg, Init(now), Issue(sid, now, rec), s, sid, horizon);
  }

  lemma TwoApproach(cfg: Config, s: State, sid: Sid, rec: Record, t: Thread, u: Thread, horizon: int)
    returns (s': State)
    requires Due(cfg, s, sid, rec) && s.calls == map[] && s.locks == KM.INIT && t != u
    ensures Reaches(cfg, s, s', sid, horizon) && s'.now == s.now && s'.store == s.store
    ensures s'.calls == map[t := Queued(sid, rec), u := Queued(sid, rec)] && Enabled(cfg, s', Enter(t))
  {
    hide Reaches;
    var s1 := Queueing(s, t, sid, rec, 0);
    Approaches(cfg, s, t, sid, rec, 0, horizon);
    s' := Queueing(s1, u, sid, rec, 1);
    Approaches(cfg, s1, u, sid, rec, 1, horizon);
    ReachesThrough(cfg, s, s1, s', sid, horizon);
  }

  lemma TwoGetInLine(cfg: Config, now: int, sid: Sid, t: Thread, u: Thread, fp: string, horizon: int) returns (s: State)
    requires cfg.hasProvider && cfg.skew > 0 && cfg.ttl >= 0 && sid != "" && t != u
    ensures Reaches(cfg, Init(now), s, sid, horizon) && s.now == now
    ensures TwoInLine(cfg, s, t, u, sid, DueRecord(cfg, now, fp))
  {
    hide Reaches, Apply, KM.Apply, KM.Enabled;
    var rec := DueRecord(cfg, now, fp);
    var s1 := IssuedDue(cfg, now, sid, rec, horizon);
    var s2 := TwoApproach(cfg, s1, sid, rec, t, u, horizon);
    TakesOver(cfg, s2, t, horizon);
    s := Inside(s2, t);
    ReachesThrough(cfg, Init(now), s1, s2, sid, horizon);
    ReachesThrough(cfg, Init(now), s2, s, sid, horizon);
  }

  // From there, once the session has ended, the second Read presents the token the first one had rotated.
  lemma SecondPresents(cfg: Config, s: State, t: Thread, u: Thread, sid: Sid, rec: Record, tok: Tokens, horizon: int)
    returns (s': State)
    requires TwoInLine(cfg, s, t, u, sid, rec) && LocksInStep(s) && s.now >= rec.session.expiry
    requires !StillFresh(cfg, rec, s.now) && tok.expiry - cfg.skew > horizon
    ensures Reaches(cfg, s, s', sid, horizon) && !OneFlight(s'.log, sid)
  {
    hide Reaches, LocksInStep, KM.Enabled, KM.Apply;
    var s1 := RenewedInVain(s, t, tok);
    RenewsInVain(cfg, s, t, tok, horizon);
    InVainKeepsLocks(cfg, s, t, tok);
    HolderLeaves(cfg, s1, t, u);
    var s2 := Apply(cfg, s1, Leave(t));
    Moves(cfg, s1, Leave(t), s2, sid, horizon);
    TakesOver(cfg, s2, u, horizon);
    var s3 := Inside(s2, u);
    s' := Apply(cfg, s3, Call(u, None));
    Moves(cfg, s3, Call(u, None), s', sid, horizon);
    ReachesThrough(cfg, s, s1, s2, sid, horizon);
    ReachesThrough(cfg, s, s2, s3, sid, horizon);
    ReachesThrough(cfg, s, s3, s', sid, horizon);
    var i, j := |s.log|, |s.log| + 2;
    assert s'.log[i] == Called(sid, rec.refreshToken, Some(tok));
    assert s'.log[j] == Called(sid, rec.refreshToken, None);
  }

  lemma InVainKeepsLocks(cfg: Config, s: State, t: Thread, tok: Tokens)
    requires LocksInStep(s) && t in s.calls && s.calls[t].Refreshing?
    ensures LocksInStep(RenewedInVain(s, t, tok))
  {
    OwnStepKeepsLocks(s, RenewedInVain(s, t, tok), t);
  }

  /**
    For every configuration that refreshes at all and every horizon not before the
    session's end: a run from an empty store that keeps every premise of
    single-flight but the one on the session's lifetime, and breaks its promise.
   */
  lemma PastTheEndTheTokenIsPresentedAgain(
    cfg: Config, now: int, sid: Sid, t: Thread, u: Thread, fp: string, tok: Tokens, horizon: int)
    returns (ls: seq<Label>)
    requires cfg.hasProvider && cfg.skew > 0 && cfg.ttl >= 0 && sid != "" && t != u
    requires now + cfg.ttl <= horizon < tok.expiry - cfg.skew
    ensures Valid(cfg, Init(now), ls) && CalmButForTheEndRun(cfg, Init(now), ls, sid, horizon)
    ensures !OneFlight(Exec(cfg, Init(now), ls).log, sid)
  {
    var rec := DueRecord(cfg, now, fp);
    var s := TwoGetInLine(cfg, now, sid, t, u, fp, horizon);
    var late := s.(now := now + cfg.ttl);
    Passes(cfg, s, cfg.ttl, sid, horizon);
    ReachesThrough(cfg, Init(now), s, late, sid, horizon);
    ReachedLocks(cfg, now, late, sid, horizon);
    var s' := SecondPresents(cfg, late, t, u, sid, rec, tok, horizon);
    ReachesThrough(cfg, Init(now), late, s', sid, horizon);
    ls :| Valid(cfg, Init(now), ls) && CalmButForTheEndRun(cfg, Init(now), ls, sid, horizon)
          && Exec(cfg, Init(now), ls) == s';
  }

  lemma Passes(cfg: Config, s: State, elapsed: nat, sid: Sid, horizon: int)
    requires s.now + elapsed <= horizon
    ensures Reaches(cfg, s, s.(now := s.now + elapsed), sid, horizon)
  {
    hide Reaches;
    Moves(cfg, s, Tick(elapsed), s.(now := s.now + elapsed), sid, horizon);
  }
}
