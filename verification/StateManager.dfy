/**
  The server-side session manager as the object it is: `store` is updated in
  place, and a call of Read, Issue or Clear is proved to be one run of the
  transition system, so whatever holds on every run holds of the code.

  The clock, the provider's answer and the outcome of the store's operations are
  parameters.  A Read whose session's mutex is held by another one comes back
  blocked, still in line, and Resume goes on with it when the mutex is free; in
  between, any number of other calls may change the manager.
 */
module StateManager {
  import opened Wrappers
  import opened SessionProtocol
  import opened Http
  import SignIn
  import SignInJar
  import KM = KeyedMutex

  // The clock readings of one Read, in the order in which the code takes them.
  datatype Instants = Instants(admit: int, decide: int, judge: int, answer: int, measure: int, put: int)

  predicate Ordered(c: Instants, now: int) {
    now <= c.admit <= c.decide <= c.judge <= c.answer <= c.measure <= c.put
  }

  /* ---- the cookie that carries the session id ---- */

  // The id a request carries; no cookie and an empty one are the same.
  function Carried(cs: seq<Cookie>, name: string): Sid {
    match SignIn.Named(cs, name)
    case Some(c) => c.value
    case None => ""
  }

  // Whole seconds, truncated toward zero.
  function MaxAge(ttl: int): int { if ttl >= 0 then ttl / 1_000_000_000 else -(-ttl / 1_000_000_000) }

  // The cookie lives for the whole seconds of the session, and not longer.
  lemma CookieLivesAsLong(ttl: int)
    requires ttl >= 0
    ensures MaxAge(ttl) * 1_000_000_000 <= ttl < (MaxAge(ttl) + 1) * 1_000_000_000
  {
  }

  // A jar that holds a cookie of this name sends it, and one that does not sends none.
  lemma CarriedFromJar(jar: Jar, name: string, cs: seq<Cookie>)
    requires Sends(jar, cs)
    ensures Carried(cs, name) == if name in jar then jar[name] else ""
  {
    SignInJar.NamedInJar(jar, cs, name);
    if name in jar {
      var i :| 0 <= i < |cs| && cs[i].name == name;
      assert SignIn.Named(cs, name).Some?;
    }
  }

  // The id comes back after Issue, for every jar and a lifetime that is not over, and is gone after Clear.
  lemma SessionCookieRoundTrip(jar: Jar, name: string, sid: Sid, ttl: int, cs: seq<Cookie>)
    requires ttl >= 0 && Sends(Keep(jar, SetCookie(name, sid, MaxAge(ttl))), cs)
    ensures Carried(cs, name) == sid
  {
    assert MaxAge(ttl) >= 0;
    var kept := Keep(jar, SetCookie(name, sid, MaxAge(ttl)));
    assert kept == jar[name := sid];
    CarriedFromJar(kept, name, cs);
  }

  lemma ClearedCookieIsGone(jar: Jar, name: string, cs: seq<Cookie>)
    requires Sends(Keep(jar, SetCookie(name, "", -1)), cs)
    ensures Carried(cs, name) == ""
  {
    CarriedFromJar(jar - {name}, name, cs);
  }

  // What a session takes from the verified identity.
  datatype Profile = Profile(subject: string, passport: map<string, string>, groups: seq<string>)

  function MakeSession(cfg: Config, who: Profile, access: string, fp: string, now: int): Session {
    Session(who.subject, who.passport, who.groups, access, now + cfg.ttl, now, fp)
  }

  // The record holds this identity, these tokens and this client, from issue time to expiry.
  predicate IssuedTo(rec: Record, who: Profile, tok: Tokens, fp: string, issuedAt: int, expiry: int) {
    && rec.session.subject == who.subject && rec.session.passport == who.passport && rec.session.groups == who.groups
    && rec.session.accessToken == tok.access && rec.session.fingerprint == fp
    && rec.session.issuedAt == issuedAt && rec.session.expiry == expiry
    && rec.refreshToken == tok.refresh && rec.accessExpiry == tok.expiry
  }

  /* ---- what a Read does ---- */

  // What the checks before any refresh make of a request.
  function Opened(store: map<Sid, Stored>, sid: Sid, fp: string, admit: int, got: bool): Option<Record> {
    if sid == "" || !got || sid !in store then None
    else if admit > store[sid].rec.session.expiry || store[sid].rec.session.fingerprint != fp then None
    else Some(store[sid].rec)
  }

  // The record has to be refreshed.
  predicate Due(cfg: Config, rec: Record, decide: int) { Refreshable(cfg, rec) && NearExpiry(cfg, rec, decide) }

  datatype Ending = Refused | Kept(rec: Record) | Renewal(rec: Record)

  function Exchanged(stale: Record, answered: int, outcome: Option<Tokens>): Ending {
    match outcome
    case Some(tok) => Renewal(Renew(stale, tok))
    case None => if AfterRefusal(stale, answered).Some? then Kept(stale) else Refused
  }

  // What happens under the mutex: another Read's refresh is taken over, else the provider decides.
  function Rejoined(
    cfg: Config, store: map<Sid, Stored>, sid: Sid, stale: Record, c: Instants, gotAgain: bool,
    outcome: Option<Tokens>): Ending
  {
    if gotAgain && sid in store && StillFresh(cfg, store[sid].rec, c.judge) then Kept(store[sid].rec)
    else Exchanged(stale, c.answer, outcome)
  }

  function Outcome(e: Ending): Option<Record> { if e.Refused? then None else Some(e.rec) }

  // Only a renewed record is written, and only while some of its lifetime remains.
  function StoreAfter(store: map<Sid, Stored>, sid: Sid, e: Ending, c: Instants, put: bool): map<Sid, Stored> {
    if e.Renewal? && put && e.rec.session.expiry > c.measure
    then store[sid := Stored(e.rec, c.put + (e.rec.session.expiry - c.measure))] else store
  }

  // A Read has an answer, or stands in line for its session's mutex.
  datatype Progress = Finished(out: Option<Record>) | Blocked(rec: Record, ref: KM.Ref)

  // Nobody is inside the session's critical section.
  ghost predicate Free(s: State, sid: Sid) {
    forall u :: u in s.calls && Critical(s.calls[u]) ==> s.calls[u].sid != sid
  }

  // The mutex can be taken exactly when nobody is inside.
  lemma FreeIff(cfg: Config, s: State, t: Thread)
    requires LocksInStep(s) && t in s.calls && s.calls[t].Queued?
    ensures SessionProtocol.Enabled(cfg, s, Enter(t)) <==> Free(s, s.calls[t].sid)
  {
    if !SessionProtocol.Enabled(cfg, s, Enter(t)) {
      var u := HolderOf(cfg, s, t);
    } else {
      forall u | u in s.calls && Critical(s.calls[u]) && s.calls[u].sid == s.calls[t].sid ensures false {
        HeldIsNotFree(cfg, s, t, u);
      }
    }
  }

  lemma HeldIsNotFree(cfg: Config, s: State, t: Thread, u: Thread)
    requires LocksInStep(s) && t in s.calls && s.calls[t].Queued?
    requires u in s.calls && Critical(s.calls[u]) && s.calls[u].sid == s.calls[t].sid
    ensures !SessionProtocol.Enabled(cfg, s, Enter(t))
  {
    var p, q := KM.PhaseOf(s.locks, u), KM.PhaseOf(s.locks, t);
    assert InStep(s.calls[u], p) && InStep(s.calls[t], q) && KM.OneEntryPerKey(s.locks);
    assert s.locks.heap[q.ref].holder == Some(u);
  }

  // What every run from an empty manager keeps about the mutexes.
  lemma ReachableLocks(cfg: Config, start: int, s: State)
    requires Leads(cfg, Init(start), s)
    ensures LocksInStep(s)
  {
    var ls :| SessionProtocol.Valid(cfg, Init(start), ls) && Exec(cfg, Init(start), ls) == s;
    RunKeepsLocks(cfg, Init(start), ls);
  }

  /* ---- single steps, by what they do to the Read that takes them ---- */

  // The step takes Read t to `pc` and leaves the rest alone, except for the log.
  ghost predicate Advances(s: State, s': State, t: Thread, pc: Pc) {
    && s'.calls == s.calls[t := pc] && s'.store == s.store && s'.issued == s.issued
    && s'.locks == s.locks && s'.now == s.now
  }

  lemma BeginStep(cfg: Config, s: State, t: Thread, sid: Sid, fp: string)
    requires t !in s.calls
    ensures SessionProtocol.Enabled(cfg, s, Begin(t, sid, fp))
    ensures Advances(s, Apply(cfg, s, Begin(t, sid, fp)), t, if sid == "" then Done(sid, None) else Start(sid, fp))
  {
  }

  lemma LoadStep(cfg: Config, s: State, t: Thread, sid: Sid, fp: string, got: bool)
    requires t in s.calls && s.calls[t] == Start(sid, fp)
    ensures SessionProtocol.Enabled(cfg, s, Load(t, got))
    ensures Advances(s, Apply(cfg, s, Load(t, got)), t,
      if got && sid in s.store then Loaded(sid, fp, s.store[sid].rec) else Done(sid, None))
  {
  }

  lemma ReloadStep(cfg: Config, s: State, t: Thread, sid: Sid, rec: Record, got: bool)
    requires t in s.calls && s.calls[t] == Locked(sid, rec)
    ensures SessionProtocol.Enabled(cfg, s, Reload(t, got))
    ensures Advances(s, Apply(cfg, s, Reload(t, got)), t, Reloaded(sid, rec, Found(s, sid, got)))
  {
  }

  lemma JudgeStep(cfg: Config, s: State, t: Thread, sid: Sid, rec: Record, again: Option<Record>)
    requires t in s.calls && s.calls[t] == Reloaded(sid, rec, again)
    ensures SessionProtocol.Enabled(cfg, s, Judge(t))
    ensures Advances(s, Apply(cfg, s, Judge(t)), t,
      if again.Some? && StillFresh(cfg, again.value, s.now) then Finishing(sid, again) else Refreshing(sid, rec))
  {
  }

  lemma MeasureStep(cfg: Config, s: State, t: Thread, sid: Sid, rec: Record)
    requires t in s.calls && s.calls[t] == Renewed(sid, rec)
    ensures SessionProtocol.Enabled(cfg, s, Measure(t))
    ensures var left := rec.session.expiry - s.now;
      Advances(s, Apply(cfg, s, Measure(t)), t,
        if left > 0 then Storing(sid, rec, s.now, left) else Finishing(sid, Some(rec)))
  {
  }

  lemma PutStep(cfg: Config, s: State, t: Thread, sid: Sid, rec: Record, at: int, ttl: int, put: bool)
    requires t in s.calls && s.calls[t] == Storing(sid, rec, at, ttl)
    ensures SessionProtocol.Enabled(cfg, s, Put(t, put))
    ensures var s' := Apply(cfg, s, Put(t, put));
      && s'.store == (if put then s.store[sid := Stored(rec, s.now + ttl)] else s.store)
      && Advances(s, s'.(store := s.store), t, Finishing(sid, Some(rec)))
  {
  }

  class Manager {
    const cookieName: string
    const cfg: Config
    const mutexes: KM.KeyedMutexes
    ghost const start: int
    var store: map<Sid, Stored>
    ghost var world: State

    ghost predicate Valid()
      reads this, mutexes
    {
      && mutexes.Valid() && mutexes.Model() == world.locks
      && world.store == store && Leads(cfg, Init(start), world)
    }

    constructor (cookieName: string, ttl: int, refreshSkew: int, hasProvider: bool, ghost now: int)
      ensures Valid() && cfg == NewConfig(ttl, refreshSkew, hasProvider) && store == map[] && fresh(mutexes)
      ensures world == Init(now) && start == now && this.cookieName == cookieName
    {
      this.cookieName := cookieName;
      cfg := NewConfig(ttl, refreshSkew, hasProvider);
      mutexes := new KM.KeyedMutexes();
      store := map[];
      world := Init(now);
      start := now;
      new;
      LeadsNowhere(cfg, world);
    }

    // One step of the transition system.
    ghost method Step(l: Label)
      requires Leads(cfg, Init(start), world) && SessionProtocol.Enabled(cfg, world, l)
      modifies `world
      ensures world == Apply(cfg, old(world), l)
      ensures Leads(cfg, Init(start), world)
    {
      LeadsThen(cfg, Init(start), world, l);
      world := Apply(cfg, world, l);
    }

    // Time passes until `at`.
    ghost method Pass(at: int)
      requires Leads(cfg, Init(start), world) && world.now <= at
      modifies `world
      ensures world == old(world).(now := at)
      ensures Leads(cfg, Init(start), world)
    {
      hide Leads, KM.Apply, KM.Enabled;
      Step(Tick(at - world.now));
    }

    // `sid` is drawn at random, so no session has it; a store that fails leaves no session and no cookie.
    method Issue(w: ResponseWriter, who: Profile, tok: Tokens, fp: string, sid: Sid, madeAt: int, now: int, put: bool)
      returns (ok: bool)
      requires Valid() && madeAt <= now == world.now && sid != "" && sid !in world.issued
      modifies this, w`cookies
      ensures Valid() && ok == put
      ensures if !put then store == old(store) else
        sid in store && store == old(store)[sid := Stored(store[sid].rec, now + cfg.ttl)]
        && IssuedTo(store[sid].rec, who, tok, fp, madeAt, madeAt + cfg.ttl)
      ensures var rec := Record(MakeSession(cfg, who, tok.access, fp, madeAt), tok.refresh, tok.expiry);
        && world == (if put then Apply(cfg, old(world), Label.Issue(sid, madeAt, rec)) else old(world))
        && w.cookies == old(w.cookies) + if put then [SetCookie(cookieName, sid, MaxAge(cfg.ttl))] else []
    {
      hide Leads, KM.Apply, KM.Enabled;
      var rec := Record(MakeSession(cfg, who, tok.access, fp, madeAt), tok.refresh, tok.expiry);
      if !put {
        return false;
      }
      store := store[sid := Stored(rec, now + cfg.ttl)];
      Step(Label.Issue(sid, madeAt, rec));
      w.AddCookie(SetCookie(cookieName, sid, MaxAge(cfg.ttl)));
      return true;
    }

    // The cookie is cleared whatever becomes of the delete.
    method Clear(w: ResponseWriter, cs: seq<Cookie>, deleted: bool)
      requires Valid()
      modifies this, w`cookies
      ensures Valid() && w.cookies == old(w.cookies) + [SetCookie(cookieName, "", -1)]
      ensures var sid := Carried(cs, cookieName);
        && world == (if sid != "" && deleted then Apply(cfg, old(world), Label.Clear(sid)) else old(world))
        && store == if sid != "" && deleted then old(store) - {sid} else old(store)
    {
      hide Leads, KM.Apply, KM.Enabled;
      var sid := Carried(cs, cookieName);
      if sid != "" {
        if deleted {
          store := store - {sid};
          Step(Label.Clear(sid));
        }
      }
      w.AddCookie(SetCookie(cookieName, "", -1));
    }

    // A Read goes through the checks and gets in line; it goes on at once if its turn has come.
    method Read(
      t: Thread, cs: seq<Cookie>, fp: string, c: Instants, got: bool, gotAgain: bool, outcome: Option<Tokens>,
      put: bool)
      returns (r: Progress)
      requires Valid() && Ordered(c, world.now) && t !in world.calls
      modifies this, mutexes
      ensures Valid() && world.issued == old(world.issued)
      ensures var sid := Carried(cs, cookieName);
              var found := Opened(old(store), sid, fp, c.admit, got);
        && (r.Blocked? <==> found.Some? && Due(cfg, found.value, c.decide) && !old(Free(world, sid)))
        && (match r
            case Blocked(rec, ref) =>
              found == Some(rec) && InLine(t, sid, rec, ref) && store == old(store)
              && world.calls == old(world.calls)[t := Queued(sid, rec)]
            case Finished(out) =>
              var e := if found.None? then Refused
                       else if !Due(cfg, found.value, c.decide) then Kept(found.value)
                       else Rejoined(cfg, old(store), sid, found.value, c, gotAgain, outcome);
              out == Outcome(e) && store == StoreAfter(old(store), sid, e, c, put)
              && world.calls == old(world.calls)[t := Done(sid, out)])
    {
      hide Leads, Apply, Opened, Due, Rejoined, StoreAfter, Critical, KM.Enabled, SessionProtocol.Enabled;
      var sid := Carried(cs, cookieName);
      var rec := Open(t, sid, fp, c, got);
      if rec.None? {
        Unwritten(store, sid, Refused, c, put);
        return Finished(None);
      }
      var ref := Approach(t, sid, rec.value, c.decide);
      if ref.None? {
        Unwritten(store, sid, Kept(rec.value), c, put);
        return Finished(rec);
      }
      FreeOfOthers(old(world), world, t, sid);
      r := Proceed(t, sid, rec.value, ref.value, c, gotAgain, outcome, put);
    }

    // In line: go on if the mutex can be taken.
    method Proceed(
      t: Thread, sid: Sid, rec: Record, ref: KM.Ref, c: Instants, gotAgain: bool, outcome: Option<Tokens>, put: bool)
      returns (r: Progress)
      requires Valid() && InLine(t, sid, rec, ref) && world.now <= c.judge <= c.answer <= c.measure <= c.put
      modifies this, mutexes
      ensures Valid() && world.issued == old(world.issued) && (r.Blocked? <==> !old(Free(world, sid)))
      ensures r.Blocked? ==>
        r == Blocked(rec, ref) && world == old(world) && store == old(store) && InLine(t, sid, rec, ref)
      ensures r.Finished? ==>
        var e := Rejoined(cfg, old(store), sid, rec, c, gotAgain, outcome);
        r.out == Outcome(e) && store == StoreAfter(old(store), sid, e, c, put)
        && world.calls == old(world.calls)[t := Done(sid, r.out)]
    {
      hide Leads, Rejoined, StoreAfter, Critical, KM.Enabled, SessionProtocol.Enabled, Apply;
      ReachableLocks(cfg, start, world);
      FreeIff(cfg, world, t);
      var free := Unheld(t, sid, rec, ref);
      if !free {
        return Blocked(rec, ref);
      }
      var out := Resume(t, sid, rec, ref, c, gotAgain, outcome, put);
      return Finished(out);
    }

    // Thread t waits for the session's mutex, which is `ref`.
    ghost predicate InLine(t: Thread, sid: Sid, rec: Record, ref: KM.Ref)
      reads this, mutexes
    {
      && t in world.calls && world.calls[t] == Queued(sid, rec)
      && t in mutexes.phase && mutexes.phase[t] == KM.Registered(sid, ref)
    }

    // Whether the mutex can be taken right now.
    method Unheld(ghost t: Thread, ghost sid: Sid, ghost rec: Record, ref: KM.Ref) returns (free: bool)
      requires Valid() && InLine(t, sid, rec, ref)
      ensures free <==> SessionProtocol.Enabled(cfg, world, Enter(t))
    {
      hide Leads;
      ReachableLocks(cfg, start, world);
      assert KM.PhaseOf(world.locks, t) == mutexes.phase[t];
      free := mutexes.heap[ref].holder.None?;
    }

    // The checks of Read before any refresh: a record, its absolute lifetime, the client's fingerprint.
    method Open(t: Thread, sid: Sid, fp: string, c: Instants, got: bool) returns (rec: Option<Record>)
      requires Valid() && world.now <= c.admit && t !in world.calls
      modifies `world
      ensures Valid() && world.issued == old(world.issued) && world.now <= c.admit
      ensures rec == Opened(store, sid, fp, c.admit, got)
      ensures rec.Some? <==>
        && sid != "" && got && sid in store
        && c.admit <= store[sid].rec.session.expiry && store[sid].rec.session.fingerprint == fp
      ensures rec.Some? ==> rec.value == store[sid].rec
      ensures world.calls == old(world.calls)[t := if rec.Some? then Admitted(sid, rec.value) else Done(sid, None)]
    {
      hide Leads, Apply, SessionProtocol.Enabled, KM.Apply, KM.Enabled;
      BeginStep(cfg, world, t, sid, fp);
      Step(Begin(t, sid, fp));
      if sid == "" {
        return None;
      }
      LoadStep(cfg, world, t, sid, fp, got);
      Step(Load(t, got));
      if !got || sid !in store {
        return None;
      }
      rec := Admitting(t, sid, fp, store[sid].rec, c.admit);
    }

    method Admitting(ghost t: Thread, sid: Sid, fp: string, found: Record, admit: int) returns (rec: Option<Record>)
      requires Valid() && world.now <= admit && t in world.calls && world.calls[t] == Loaded(sid, fp, found)
      modifies `world
      ensures Valid() && world.issued == old(world.issued) && world.now == admit
      ensures rec == if admit > found.session.expiry || found.session.fingerprint != fp then None else Some(found)
      ensures world.calls == old(world.calls)[t := if rec.Some? then Admitted(sid, found) else Done(sid, None)]
    {
      hide Leads, KM.Apply, KM.Enabled;
      Pass(admit);
      Step(Admit(t));
      if admit > found.session.expiry || found.session.fingerprint != fp {
        return None;
      }
      return Some(found);
    }

    // Up to the line: a record that is not due is returned as it is.
    method Approach(t: Thread, sid: Sid, rec: Record, decide: int) returns (ref: Option<KM.Ref>)
      requires Valid() && world.now <= decide && t in world.calls && world.calls[t] == Admitted(sid, rec)
      modifies this, mutexes
      ensures Valid() && world.issued == old(world.issued) && store == old(store) && world.now == decide
      ensures ref.Some? <==> Due(cfg, rec, decide)
      ensures ref.Some? <==> cfg.hasProvider && rec.refreshToken != "" && decide > rec.accessExpiry - cfg.skew
      ensures world.calls == old(world.calls)[t := if ref.Some? then Queued(sid, rec) else Done(sid, Some(rec))]
      ensures ref.Some? ==> InLine(t, sid, rec, ref.value)
    {
      hide Leads, KM.Enabled, KM.Apply;
      Pass(decide);
      Step(Decide(t));
      if !cfg.hasProvider || rec.refreshToken == "" {
        return None;
      }
      if !(decide > rec.accessExpiry - cfg.skew) {
        return None;
      }
      var r := Register(t, sid, rec);
      return Some(r);
    }

    method Register(t: Thread, sid: Sid, rec: Record) returns (ref: KM.Ref)
      requires Valid() && t in world.calls && world.calls[t] == Waiting(sid, rec)
      modifies `world, mutexes
      ensures Valid() && world.issued == old(world.issued) && world.now == old(world.now)
      ensures world.calls == old(world.calls)[t := Queued(sid, rec)] && InLine(t, sid, rec, ref)
    {
      hide Leads, KM.Apply, KM.Enabled;
      ReachableLocks(cfg, start, world);
      assert InStep(world.calls[t], KM.PhaseOf(world.locks, t));
      ghost var spare := mutexes.next;
      ref := mutexes.RegisterOn(t, sid);
      Step(Enlist(t, spare));
    }

    // The rest of maybeRefresh, from the moment the mutex can be taken.
    method Resume(
      t: Thread, sid: Sid, rec: Record, ref: KM.Ref, c: Instants, gotAgain: bool, outcome: Option<Tokens>, put: bool)
      returns (out: Option<Record>)
      requires Valid() && InLine(t, sid, rec, ref) && SessionProtocol.Enabled(cfg, world, Enter(t))
      requires world.now <= c.judge <= c.answer <= c.measure <= c.put
      modifies this, mutexes
      ensures Valid() && world.calls == old(world.calls)[t := Done(sid, out)] && world.issued == old(world.issued)
      ensures var e := Rejoined(cfg, old(store), sid, rec, c, gotAgain, outcome);
        out == Outcome(e) && store == StoreAfter(old(store), sid, e, c, put)
    {
      hide Leads, KM.Apply, KM.Enabled, Rejoined, StoreAfter, Outcome;
      Lock(t, sid, rec, ref);
      out := Refresh(t, sid, rec, c, gotAgain, outcome, put);
      Unlock(t, sid, ref);
    }

    method Lock(t: Thread, sid: Sid, rec: Record, ref: KM.Ref)
      requires Valid() && InLine(t, sid, rec, ref) && SessionProtocol.Enabled(cfg, world, Enter(t))
      modifies `world, mutexes
      ensures Valid() && world.issued == old(world.issued) && world.now == old(world.now)
      ensures world.calls == old(world.calls)[t := Locked(sid, rec)]
      ensures t in mutexes.phase && mutexes.phase[t] == KM.Holding(sid, ref)
    {
      hide Leads;
      assert KM.PhaseOf(world.locks, t) == mutexes.phase[t];
      mutexes.Enter(t, ref);
      Step(Enter(t));
    }

    method Unlock(ghost t: Thread, sid: Sid, ref: KM.Ref)
      requires Valid() && t in world.calls && world.calls[t].Finishing? && world.calls[t].sid == sid
      requires t in mutexes.phase && mutexes.phase[t] == KM.Holding(sid, ref)
      modifies `world, mutexes
      ensures Valid() && world.issued == old(world.issued)
      ensures world.calls == old(world.calls)[t := Done(sid, old(world.calls[t].result))]
    {
      hide Leads;
      ReachableLocks(cfg, start, world);
      assert KM.PhaseOf(world.locks, t) == mutexes.phase[t];
      mutexes.Leave(t, ref);
      Step(Label.Leave(t));
      Delisting(t, sid, ref);
    }

    method Delisting(ghost t: Thread, sid: Sid, ref: KM.Ref)
      requires Valid() && t in world.calls && world.calls[t].Unlocked? && world.calls[t].sid == sid
      requires t in mutexes.phase && mutexes.phase[t] == KM.Released(sid, ref)
      modifies `world, mutexes
      ensures Valid() && world.issued == old(world.issued)
      ensures world.calls == old(world.calls)[t := Done(sid, old(world.calls[t].result))]
    {
      hide Leads;
      ReachableLocks(cfg, start, world);
      assert KM.PhaseOf(world.locks, t) == mutexes.phase[t];
      mutexes.DeregisterFrom(t, sid, ref);
      Step(Delist(t));
    }

    // The part of maybeRefresh that runs under the session's mutex.
    method Refresh(
      ghost t: Thread, sid: Sid, stale: Record, c: Instants, gotAgain: bool, outcome: Option<Tokens>, put: bool)
      returns (out: Option<Record>)
      requires Valid() && t in world.calls && world.calls[t] == Locked(sid, stale)
      requires world.now <= c.judge <= c.answer <= c.measure <= c.put
      modifies this
      ensures Valid() && world.calls == old(world.calls)[t := Finishing(sid, out)] && world.issued == old(world.issued)
      ensures var e := Rejoined(cfg, old(store), sid, stale, c, gotAgain, outcome);
        out == Outcome(e) && store == StoreAfter(old(store), sid, e, c, put)
      ensures gotAgain && sid in old(store) && c.judge < old(store)[sid].rec.accessExpiry - cfg.skew ==>
        out == Some(old(store)[sid].rec) && store == old(store)
      ensures !(gotAgain && sid in old(store) && c.judge < old(store)[sid].rec.accessExpiry - cfg.skew) ==>
        && (outcome.None? ==> if c.answer < stale.accessExpiry then out == Some(stale) else out.None?)
        && (outcome.Some? ==> out.Some? && out.value.session.accessToken == outcome.value.access)
    {
      hide Leads, Apply, SessionProtocol.Enabled, Exchanged, KM.Apply, KM.Enabled;
      ReloadStep(cfg, world, t, sid, stale, gotAgain);
      Step(Reload(t, gotAgain));
      Pass(c.judge);
      JudgeStep(cfg, world, t, sid, stale, Found(world, sid, gotAgain));
      Step(Judge(t));
      if gotAgain && sid in store && c.judge < store[sid].rec.accessExpiry - cfg.skew {
        return Some(store[sid].rec);
      }
      out := Exchange(t, sid, stale, c, outcome, put);
    }

    // The provider is asked with the record read before the mutex was taken.
    method Exchange(ghost t: Thread, sid: Sid, stale: Record, c: Instants, outcome: Option<Tokens>, put: bool)
      returns (out: Option<Record>)
      requires Valid() && t in world.calls && world.calls[t] == Refreshing(sid, stale)
      requires world.now <= c.answer <= c.measure <= c.put
      modifies this
      ensures Valid() && world.calls == old(world.calls)[t := Finishing(sid, out)] && world.issued == old(world.issued)
      ensures var e := Exchanged(stale, c.answer, outcome);
        out == Outcome(e) && store == StoreAfter(old(store), sid, e, c, put)
      ensures outcome.None? ==>
        store == old(store) && if c.answer < stale.accessExpiry then out == Some(stale) else out.None?
      ensures outcome.Some? ==>
        && out.Some? && out.value.session == stale.session.(accessToken := outcome.value.access)
        && out.value.accessExpiry == outcome.value.expiry
        && out.value.refreshToken == if outcome.value.refresh == "" then stale.refreshToken else outcome.value.refresh
    {
      hide Leads, KM.Apply, KM.Enabled;
      Pass(c.answer);
      Step(Call(t, outcome));
      if outcome.None? {
        return if c.answer < stale.accessExpiry then Some(stale) else None;
      }
      var rec := stale;
      rec := rec.(session := rec.session.(accessToken := outcome.value.access));
      rec := rec.(accessExpiry := outcome.value.expiry);
      if outcome.value.refresh != "" {
        rec := rec.(refreshToken := outcome.value.refresh);
      }
      out := Some(rec);
      Restore(t, sid, rec, c, put);
    }

    // The conditional write at the end of a successful refresh.
    method Restore(ghost t: Thread, sid: Sid, rec: Record, c: Instants, put: bool)
      requires Valid() && t in world.calls && world.calls[t] == Renewed(sid, rec)
      requires world.now <= c.measure <= c.put
      modifies this
      ensures Valid() && world.calls == old(world.calls)[t := Finishing(sid, Some(rec))]
      ensures world.issued == old(world.issued)
      ensures store == StoreAfter(old(store), sid, Renewal(rec), c, put)
      ensures var left := rec.session.expiry - c.measure;
        store == if put && left > 0 then old(store)[sid := Stored(rec, c.put + left)] else old(store)
    {
      hide Leads, Apply, SessionProtocol.Enabled, KM.Apply, KM.Enabled;
      Pass(c.measure);
      MeasureStep(cfg, world, t, sid, rec);
      Step(Measure(t));
      var remaining := rec.session.expiry - c.measure;
      if remaining > 0 {
        Pass(c.put);
        if put {
          store := store[sid := Stored(rec, c.put + remaining)];
        }
        PutStep(cfg, world, t, sid, rec, c.measure, remaining, put);
        Step(Put(t, put));
      }
    }
  }

  lemma Unwritten(store: map<Sid, Stored>, sid: Sid, e: Ending, c: Instants, put: bool)
    requires !e.Renewal?
    ensures StoreAfter(store, sid, e, c, put) == store
  {
  }

  // Whether a session is free does not depend on a Read that is not inside.
  lemma FreeOfOthers(s: State, s': State, t: Thread, sid: Sid)
    requires t !in s.calls && t in s'.calls && s'.calls == s.calls[t := s'.calls[t]] && s'.calls[t].Queued?
    ensures Free(s', sid) <==> Free(s, sid)
  {
    if Free(s', sid) {
      forall u | u in s.calls && Critical(s.calls[u]) ensures s.calls[u].sid != sid {
        assert s'.calls[u] == s.calls[u];
      }
    }
  }
}
