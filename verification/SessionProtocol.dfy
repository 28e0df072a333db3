/**
  Server-side sessions with silent refresh (session/statemanager.go) as a
  transition system: any number of Read calls, the store, the identity provider,
  the clock and the keyed mutex interleave step by step.

  The store holds plain records: sealing under the label "hog/store/v1" is an
  injective pair, and a value that does not open is a failed Get.  Keys are
  session ids, because the hash that derives a store key has no collisions.
 */
module SessionProtocol {
  import opened Wrappers
  import KM = KeyedMutex

  type Sid = string
  type Thread = KM.Thread

  datatype Session = Session(
    subject: string, passport: map<string, string>, groups: seq<string>,
    accessToken: string, expiry: int, issuedAt: int, fingerprint: string)

  datatype Record = Record(session: Session, refreshToken: string, accessExpiry: int)

  // What the provider answers to a refresh.
  datatype Tokens = Tokens(access: string, refresh: string, expiry: int)

  datatype Config = Config(ttl: int, skew: int, hasProvider: bool)

  // Times and durations are in nanoseconds.
  const DEFAULT_SKEW := 60_000_000_000

  function NewConfig(ttl: int, refreshSkew: int, hasProvider: bool): (cfg: Config)
    ensures cfg.skew > 0 && (refreshSkew > 0 ==> cfg.skew == refreshSkew)
    ensures (refreshSkew <= 0 ==> cfg.skew == 60_000_000_000)
    ensures cfg.ttl == ttl && cfg.hasProvider == hasProvider
  {
    Config(ttl, if refreshSkew <= 0 then DEFAULT_SKEW else refreshSkew, hasProvider)
  }

  // A session's identity and lifetime, everything a refresh must leave alone.
  function Fixed(s: Session): Session { s.(accessToken := "") }

  function Renew(rec: Record, tok: Tokens): Record {
    Record(rec.session.(accessToken := tok.access),
           if tok.refresh != "" then tok.refresh else rec.refreshToken,
           tok.expiry)
  }

  predicate Refreshable(cfg: Config, rec: Record) { cfg.hasProvider && rec.refreshToken != "" }

  predicate NearExpiry(cfg: Config, rec: Record, now: int) { now > rec.accessExpiry - cfg.skew }

  predicate StillFresh(cfg: Config, rec: Record, now: int) { now < rec.accessExpiry - cfg.skew }

  // What a Read returns when the provider refused the refresh.
  function AfterRefusal(rec: Record, now: int): Option<Record> {
    if now < rec.accessExpiry then Some(rec) else None
  }

  datatype Stored = Stored(rec: Record, deadline: int)

  // The program counter of one Read call.
  datatype Pc =
    | Start(sid: Sid, fp: string)
    | Loaded(sid: Sid, fp: string, rec: Record)
    | Admitted(sid: Sid, rec: Record)                     // lifetime and fingerprint passed
    | Waiting(sid: Sid, rec: Record)                      // about to call lock
    | Queued(sid: Sid, rec: Record)                       // registered on the key's entry
    | Locked(sid: Sid, rec: Record)                       // holds the key's mutex
    | Reloaded(sid: Sid, rec: Record, again: Option<Record>)
    | Refreshing(sid: Sid, rec: Record)                   // calling the provider with rec's token
    | Renewed(sid: Sid, rec: Record)                      // rec now carries the new tokens
    | Storing(sid: Sid, rec: Record, at: int, ttl: int)   // remaining lifetime measured at `at`
    | Finishing(sid: Sid, result: Option<Record>)         // decided, still holds the mutex
    | Unlocked(sid: Sid, result: Option<Record>)
    | Done(sid: Sid, result: Option<Record>)

  // What an observer of the run sees.
  datatype Event =
    | PassedLifetime(sid: Sid, at: int)
    | Called(sid: Sid, token: string, outcome: Option<Tokens>)
    | Wrote(sid: Sid, rec: Record, at: int, ttl: int)
    | TurnedDown(sid: Sid, rec: Record, at: int, result: Option<Record>)
    | Decided(sid: Sid, waited: bool, result: Option<Record>)

  datatype State = State(
    now: int,
    store: map<Sid, Stored>,
    issued: map<Sid, Record>,     // the record each session was issued with
    renewed: map<Sid, Record>,    // the record of the latest successful refresh
    calls: map<Thread, Pc>,
    locks: KM.State,
    log: seq<Event>)

  datatype Label =
    | Begin(t: Thread, sid: Sid, fp: string)
    | Load(t: Thread, ok: bool)
    | Admit(t: Thread)
    | Decide(t: Thread)
    | Enlist(t: Thread, spare: KM.Ref)
    | Enter(t: Thread)
    | Reload(t: Thread, ok: bool)
    | Judge(t: Thread)
    | Call(t: Thread, outcome: Option<Tokens>)
    | Measure(t: Thread)
    | Put(t: Thread, ok: bool)
    | Leave(t: Thread)
    | Delist(t: Thread)
    | Issue(sid: Sid, madeAt: int, rec: Record)
    | Clear(sid: Sid)
    | Evict(sid: Sid)
    | Tick(elapsed: nat)

  function Init(now: int): State { State(now, map[], map[], map[], map[], KM.INIT, []) }

  function Become(s: State, t: Thread, pc: Pc): State { s.(calls := s.calls[t := pc]) }

  function Found(s: State, sid: Sid, ok: bool): Option<Record> {
    if ok && sid in s.store then Some(s.store[sid].rec) else None
  }

  predicate Enabled(cfg: Config, s: State, l: Label) {
    match l
    case Begin(t, _, _) => t !in s.calls
    case Load(t, _) => t in s.calls && s.calls[t].Start?
    case Admit(t) => t in s.calls && s.calls[t].Loaded?
    case Decide(t) => t in s.calls && s.calls[t].Admitted?
    case Enlist(t, spare) =>
      t in s.calls && s.calls[t].Waiting? && KM.Enabled(s.locks, KM.Register(t, s.calls[t].sid, spare))
    case Enter(t) => t in s.calls && s.calls[t].Queued? && KM.Enabled(s.locks, KM.Acquire(t))
    case Reload(t, _) => t in s.calls && s.calls[t].Locked?
    case Judge(t) => t in s.calls && s.calls[t].Reloaded?
    case Call(t, _) => t in s.calls && s.calls[t].Refreshing?
    case Measure(t) => t in s.calls && s.calls[t].Renewed?
    case Put(t, _) => t in s.calls && s.calls[t].Storing?
    case Leave(t) => t in s.calls && s.calls[t].Finishing? && KM.Enabled(s.locks, KM.Release(t))
    case Delist(t) => t in s.calls && s.calls[t].Unlocked? && KM.Enabled(s.locks, KM.Deregister(t))
    case Issue(sid, madeAt, rec) =>
      // 32 random bytes: an id that was never issued
      sid !in s.issued && sid != "" && madeAt <= s.now
      && rec.session.issuedAt == madeAt && rec.session.expiry == madeAt + cfg.ttl
    case Clear(_) => true
    case Evict(sid) => sid in s.store && s.store[sid].deadline <= s.now
    case Tick(_) => true
  }

  // What the step does to everything but the log.
  function Move(cfg: Config, s: State, l: Label): State
    requires Enabled(cfg, s, l)
  {
    match l
    case Begin(t, sid, fp) => Become(s, t, if sid == "" then Done(sid, None) else Start(sid, fp))
    case Load(t, ok) =>
      var pc := s.calls[t];
      Become(s, t, match Found(s, pc.sid, ok)
                   case Some(rec) => Loaded(pc.sid, pc.fp, rec)
                   case None => Done(pc.sid, None))
    case Admit(t) =>
      var pc := s.calls[t];
      Become(s, t, if s.now <= pc.rec.session.expiry && pc.rec.session.fingerprint == pc.fp
                   then Admitted(pc.sid, pc.rec) else Done(pc.sid, None))
    case Decide(t) =>
      var pc := s.calls[t];
      Become(s, t, if Refreshable(cfg, pc.rec) && NearExpiry(cfg, pc.rec, s.now)
                   then Waiting(pc.sid, pc.rec) else Done(pc.sid, Some(pc.rec)))
    case Enlist(t, spare) =>
      var pc := s.calls[t];
      Become(s, t, Queued(pc.sid, pc.rec)).(locks := KM.Apply(s.locks, KM.Register(t, pc.sid, spare)))
    case Enter(t) =>
      var pc := s.calls[t];
      Become(s, t, Locked(pc.sid, pc.rec)).(locks := KM.Apply(s.locks, KM.Acquire(t)))
    case Reload(t, ok) =>
      var pc := s.calls[t];
      Become(s, t, Reloaded(pc.sid, pc.rec, Found(s, pc.sid, ok)))
    case Judge(t) =>
      var pc := s.calls[t];
      Become(s, t, if pc.again.Some? && StillFresh(cfg, pc.again.value, s.now)
                   then Finishing(pc.sid, pc.again) else Refreshing(pc.sid, pc.rec))
    case Call(t, outcome) =>
      var pc := s.calls[t];
      (match outcome
       case None => Become(s, t, Finishing(pc.sid, AfterRefusal(pc.rec, s.now)))
       case Some(tok) =>
         Become(s, t, Renewed(pc.sid, Renew(pc.rec, tok))).(renewed := s.renewed[pc.sid := Renew(pc.rec, tok)]))
    case Measure(t) =>
      var pc := s.calls[t];
      var remaining := pc.rec.session.expiry - s.now;
      Become(s, t, if remaining > 0 then Storing(pc.sid, pc.rec, s.now, remaining) else Finishing(pc.sid, Some(pc.rec)))
    case Put(t, ok) =>
      var pc := s.calls[t];
      Become(if ok then s.(store := s.store[pc.sid := Stored(pc.rec, s.now + pc.ttl)]) else s,
             t, Finishing(pc.sid, Some(pc.rec)))
    case Leave(t) =>
      var pc := s.calls[t];
      Become(s, t, Unlocked(pc.sid, pc.result)).(locks := KM.Apply(s.locks, KM.Release(t)))
    case Delist(t) =>
      var pc := s.calls[t];
      Become(s, t, Done(pc.sid, pc.result)).(locks := KM.Apply(s.locks, KM.Deregister(t)))
    case Issue(sid, _, rec) =>
      s.(store := s.store[sid := Stored(rec, s.now + cfg.ttl)], issued := s.issued[sid := rec])
    case Clear(sid) => s.(store := s.store - {sid})
    case Evict(sid) => s.(store := s.store - {sid})
    case Tick(elapsed) => s.(now := s.now + elapsed)
  }

  // What an observer sees of the step.
  function News(cfg: Config, s: State, l: Label): seq<Event>
    requires Enabled(cfg, s, l)
  {
    match l
    case Admit(t) =>
      var pc := s.calls[t];
      if s.now <= pc.rec.session.expiry then [PassedLifetime(pc.sid, s.now)] else []
    case Decide(t) =>
      var pc := s.calls[t];
      if Refreshable(cfg, pc.rec) && NearExpiry(cfg, pc.rec, s.now) then [] else [Decided(pc.sid, false, Some(pc.rec))]
    case Judge(t) =>
      var pc := s.calls[t];
      if pc.again.Some? && StillFresh(cfg, pc.again.value, s.now) then [Decided(pc.sid, true, pc.again)] else []
    case Call(t, outcome) =>
      var pc := s.calls[t];
      [Called(pc.sid, pc.rec.refreshToken, outcome)]
      + (if outcome.Some? then []
         else var result := AfterRefusal(pc.rec, s.now);
           [TurnedDown(pc.sid, pc.rec, s.now, result), Decided(pc.sid, true, result)])
    case Measure(t) =>
      var pc := s.calls[t];
      if pc.rec.session.expiry - s.now > 0 then [] else [Decided(pc.sid, true, Some(pc.rec))]
    case Put(t, _) =>
      var pc := s.calls[t];
      [Wrote(pc.sid, pc.rec, pc.at, pc.ttl), Decided(pc.sid, true, Some(pc.rec))]
    case Issue(sid, madeAt, rec) => [Wrote(sid, rec, madeAt, cfg.ttl)]
    case _ => []
  }

  function Apply(cfg: Config, s: State, l: Label): State
    requires Enabled(cfg, s, l)
  {
    Move(cfg, s, l).(log := s.log + News(cfg, s, l))
  }

  predicate Valid(cfg: Config, s: State, ls: seq<Label>)
    decreases |ls|
  {
    ls == [] || (Enabled(cfg, s, ls[0]) && Valid(cfg, Apply(cfg, s, ls[0]), ls[1..]))
  }

  function Exec(cfg: Config, s: State, ls: seq<Label>): State
    requires Valid(cfg, s, ls)
    decreases |ls|
  {
    if ls == [] then s else Exec(cfg, Apply(cfg, s, ls[0]), ls[1..])
  }

  // Some run leads from `s` to `s'`.
  ghost predicate Leads(cfg: Config, s: State, s': State) {
    exists ls :: Valid(cfg, s, ls) && Exec(cfg, s, ls) == s'
  }

  lemma LeadsNowhere(cfg: Config, s: State)
    ensures Leads(cfg, s, s)
  {
    assert Valid(cfg, s, []) && Exec(cfg, s, []) == s;
  }

  lemma LeadsBy(cfg: Config, s: State, l: Label, s': State)
    requires Enabled(cfg, s, l) && Leads(cfg, Apply(cfg, s, l), s')
    ensures Leads(cfg, s, s')
  {
    var ls :| Valid(cfg, Apply(cfg, s, l), ls) && Exec(cfg, Apply(cfg, s, l), ls) == s';
    assert ([l] + ls)[1..] == ls;
    assert Valid(cfg, s, [l] + ls) && Exec(cfg, s, [l] + ls) == s';
  }

  lemma {:induction false} LeadsThen(cfg: Config, s: State, s': State, l: Label)
    requires Leads(cfg, s, s') && Enabled(cfg, s', l)
    ensures Leads(cfg, s, Apply(cfg, s', l))
  {
    var ls :| Valid(cfg, s, ls) && Exec(cfg, s, ls) == s';
    ExtendRun(cfg, s, ls, l);
  }

  lemma {:induction false} ExtendRun(cfg: Config, s: State, ls: seq<Label>, l: Label)
    requires Valid(cfg, s, ls) && Enabled(cfg, Exec(cfg, s, ls), l)
    ensures Valid(cfg, s, ls + [l]) && Exec(cfg, s, ls + [l]) == Apply(cfg, Exec(cfg, s, ls), l)
    decreases |ls|
  {
    var longer := ls + [l];
    if ls == [] {
      assert longer[1..] == [];
    } else {
      assert longer[1..] == ls[1..] + [l];
      ExtendRun(cfg, Apply(cfg, s, ls[0]), ls[1..], l);
    }
  }

  predicate Background(l: Label) { l.Issue? || l.Clear? || l.Evict? || l.Tick? }

  // A step of one Read changes that Read's program counter and nobody else's.
  lemma ReadStepMoves(cfg: Config, s: State, l: Label)
    requires Enabled(cfg, s, l) && !Background(l)
    ensures var s' := Apply(cfg, s, l);
      && s'.issued == s.issued && s'.now == s.now
      && l.t in s'.calls && s'.calls == s.calls[l.t := s'.calls[l.t]]
  {
    hide KM.Apply, KM.Enabled;
  }

  lemma OnlyPutWrites(cfg: Config, s: State, l: Label)
    requires Enabled(cfg, s, l) && !Background(l) && !l.Put?
    ensures Apply(cfg, s, l).store == s.store && Apply(cfg, s, l).issued == s.issued
  {
    hide KM.Apply, KM.Enabled;
  }

  lemma OnlyCallRenews(cfg: Config, s: State, l: Label)
    requires Enabled(cfg, s, l) && !(l.Call? && l.outcome.Some?)
    ensures Apply(cfg, s, l).renewed == s.renewed
  {
    hide KM.Apply, KM.Enabled;
  }

  lemma ReadKeepsSession(cfg: Config, s: State, l: Label)
    requires Enabled(cfg, s, l) && !Background(l)
    ensures var s' := Apply(cfg, s, l);
      l.t in s'.calls && s'.calls[l.t].sid == (if l.Begin? then l.sid else s.calls[l.t].sid)
  {
    hide KM.Apply, KM.Enabled;
  }

  // Where a Read stands in the keyed mutex, as its program counter says.
  predicate InStep(pc: Pc, p: KM.Phase) {
    match pc
    case Queued(sid, _) => p.Registered? && p.key == sid
    case Unlocked(sid, _) => p.Released? && p.key == sid
    case Locked(_, _) | Reloaded(_, _, _) | Refreshing(_, _) | Renewed(_, _) | Storing(_, _, _, _) | Finishing(_, _) =>
      p.Holding? && p.key == pc.sid
    case _ => p == KM.Outside
  }

  predicate Critical(pc: Pc) {
    pc.Locked? || pc.Reloaded? || pc.Refreshing? || pc.Renewed? || pc.Storing? || pc.Finishing?
  }

  ghost predicate LocksInStep(s: State) {
    && KM.Inv(s.locks)
    && (forall t: Thread ::
          if t in s.calls then InStep(s.calls[t], KM.PhaseOf(s.locks, t)) else KM.PhaseOf(s.locks, t) == KM.Outside)
  }

  // A step that leaves the mutexes alone.
  lemma OwnStepKeepsLocks(s: State, s': State, t: Thread)
    requires LocksInStep(s) && s'.locks == s.locks && t in s'.calls && s'.calls == s.calls[t := s'.calls[t]]
    requires InStep(s'.calls[t], KM.PhaseOf(s.locks, t))
    ensures LocksInStep(s')
  {
  }

  // A step of the keyed mutex.
  lemma MutexStepKeepsLocks(s: State, s': State, l: KM.Label)
    requires LocksInStep(s) && KM.Enabled(s.locks, l) && s'.locks == KM.Apply(s.locks, l)
    requires l.t in s'.calls && s'.calls == s.calls[l.t := s'.calls[l.t]]
    requires InStep(s'.calls[l.t], KM.PhaseOf(s'.locks, l.t))
    ensures LocksInStep(s')
  {
    hide InStep, KM.Apply, KM.Enabled, KM.Inv, KM.PhaseOf;
    KM.StepKeepsInv(s.locks, l);
    forall u: Thread | u != l.t ensures KM.PhaseOf(s'.locks, u) == KM.PhaseOf(s.locks, u) {
      OthersStay(s.locks, l, u);
    }
  }

  lemma OthersStay(locks: KM.State, l: KM.Label, u: Thread)
    requires KM.Enabled(locks, l) && u != l.t
    ensures KM.PhaseOf(KM.Apply(locks, l), u) == KM.PhaseOf(locks, u)
  {
  }

  predicate OwnLabel(l: Label) {
    !(l.Enlist? || l.Enter? || l.Leave? || l.Delist? || l.Issue? || l.Clear? || l.Evict? || l.Tick?)
  }

  // Such a step moves only the Read that takes it, and not in the mutexes.
  lemma OwnLabelMoves(cfg: Config, s: State, l: Label)
    requires OwnLabel(l) && Enabled(cfg, s, l)
    ensures var s' := Apply(cfg, s, l);
            && s'.locks == s.locks && l.t in s'.calls && s'.calls == s.calls[l.t := s'.calls[l.t]]
            && (forall p :: (if l.t in s.calls then InStep(s.calls[l.t], p) else p == KM.Outside) ==>
              InStep(s'.calls[l.t], p))
  {
    hide KM.Apply, KM.Enabled;
  }

  lemma OwnLabelKeepsLocks(cfg: Config, s: State, l: Label)
    requires LocksInStep(s) && OwnLabel(l) && Enabled(cfg, s, l)
    ensures LocksInStep(Apply(cfg, s, l))
  {
    hide InStep, Apply, Enabled;
    OwnLabelMoves(cfg, s, l);
    OwnStepKeepsLocks(s, Apply(cfg, s, l), l.t);
  }

  lemma BackgroundKeepsLocks(cfg: Config, s: State, l: Label)
    requires LocksInStep(s) && Background(l) && Enabled(cfg, s, l)
    ensures LocksInStep(Apply(cfg, s, l))
  {
    hide InStep, KM.Apply, KM.Enabled;
    assert Apply(cfg, s, l).calls == s.calls && Apply(cfg, s, l).locks == s.locks;
  }

  // What a Read does to its mutex.
  predicate MutexLabel(l: Label) { l.Enlist? || l.Enter? || l.Leave? || l.Delist? }

  function MutexStep(s: State, l: Label): KM.Label
    requires MutexLabel(l) && l.t in s.calls
  {
    match l
    case Enlist(t, spare) => KM.Register(t, s.calls[t].sid, spare)
    case Enter(t) => KM.Acquire(t)
    case Leave(t) => KM.Release(t)
    case Delist(t) => KM.Deregister(t)
  }

  lemma MutexLabelMoves(cfg: Config, s: State, l: Label)
    requires MutexLabel(l) && Enabled(cfg, s, l)
    ensures l.t in s.calls && KM.Enabled(s.locks, MutexStep(s, l))
    ensures var s' := Apply(cfg, s, l);
      && s'.locks == KM.Apply(s.locks, MutexStep(s, l))
      && l.t in s'.calls && s'.calls == s.calls[l.t := s'.calls[l.t]]
  {
    hide KM.Apply, KM.Enabled;
  }

  lemma MutexLabelInStep(cfg: Config, s: State, l: Label)
    requires LocksInStep(s) && MutexLabel(l) && Enabled(cfg, s, l)
    ensures var s' := Apply(cfg, s, l); l.t in s'.calls && InStep(s'.calls[l.t], KM.PhaseOf(s'.locks, l.t))
  {
    hide Apply, InStep, KM.Apply, KM.Enabled;
    MutexLabelMoves(cfg, s, l);
    var step := MutexStep(s, l);
    assert InStep(s.calls[l.t], KM.PhaseOf(s.locks, l.t));
    PhaseMoves(s.locks, step);
    PcMoves(cfg, s, l, KM.PhaseOf(s.locks, l.t), KM.PhaseOf(KM.Apply(s.locks, step), l.t));
  }

  // The phases of the mutex, one after the other.
  predicate NextPhase(l: KM.Label, p: KM.Phase, q: KM.Phase) {
    match l
    case Register(_, key, _) => q.Registered? && q.key == key
    case Acquire(_) => p.Registered? && q.Holding? && q.key == p.key
    case Release(_) => p.Holding? && q.Released? && q.key == p.key
    case Deregister(_) => q == KM.Outside
  }

  lemma PhaseMoves(locks: KM.State, l: KM.Label)
    requires KM.Enabled(locks, l)
    ensures NextPhase(l, KM.PhaseOf(locks, l.t), KM.PhaseOf(KM.Apply(locks, l), l.t))
  {
  }

  lemma PcMoves(cfg: Config, s: State, l: Label, p: KM.Phase, q: KM.Phase)
    requires MutexLabel(l) && Enabled(cfg, s, l) && InStep(s.calls[l.t], p) && NextPhase(MutexStep(s, l), p, q)
    ensures l.t in Apply(cfg, s, l).calls && InStep(Apply(cfg, s, l).calls[l.t], q)
  {
    hide KM.Apply, KM.Enabled;
  }

  lemma StepKeepsLocks(cfg: Config, s: State, l: Label)
    requires LocksInStep(s) && Enabled(cfg, s, l)
    ensures LocksInStep(Apply(cfg, s, l))
  {
    hide LocksInStep, Apply, Enabled, InStep, KM.Apply, KM.Enabled;
    if OwnLabel(l) {
      OwnLabelKeepsLocks(cfg, s, l);
    } else if Background(l) {
      BackgroundKeepsLocks(cfg, s, l);
    } else {
      MutexLabelMoves(cfg, s, l);
      MutexLabelInStep(cfg, s, l);
      MutexStepKeepsLocks(s, Apply(cfg, s, l), MutexStep(s, l));
    }
  }

  lemma {:induction false} RunKeepsLocks(cfg: Config, s: State, ls: seq<Label>)
    requires LocksInStep(s) && Valid(cfg, s, ls)
    ensures LocksInStep(Exec(cfg, s, ls))
    decreases |ls|
  {
    if ls != [] {
      StepKeepsLocks(cfg, s, ls[0]);
      RunKeepsLocks(cfg, Apply(cfg, s, ls[0]), ls[1..]);
    }
  }

  // The critical section of a session is occupied by at most one Read.
  lemma OneInside(s: State, t: Thread, u: Thread)
    requires LocksInStep(s) && t in s.calls && u in s.calls
    requires Critical(s.calls[t]) && Critical(s.calls[u]) && s.calls[t].sid == s.calls[u].sid
    ensures t == u
  {
    KM.InvIsSafe(s.locks);
  }

  // A Read that has decided can leave, and then the mutex is free for a waiting one.
  lemma HolderLeaves(cfg: Config, s: State, t: Thread, u: Thread)
    requires LocksInStep(s) && t in s.calls && u in s.calls
    requires s.calls[t].Finishing? && s.calls[u].Queued? && s.calls[u].sid == s.calls[t].sid
    ensures Enabled(cfg, s, Leave(t)) && Enabled(cfg, Apply(cfg, s, Leave(t)), Enter(u))
  {
    var p, q := KM.PhaseOf(s.locks, t), KM.PhaseOf(s.locks, u);
    assert InStep(s.calls[t], p) && InStep(s.calls[u], q);
    assert KM.OneEntryPerKey(s.locks);
    assert p.ref == q.ref && p.ref in s.locks.heap;
  }

  // A Read that cannot enter waits for one that is inside.
  lemma HolderOf(cfg: Config, s: State, t: Thread) returns (u: Thread)
    requires LocksInStep(s) && t in s.calls && s.calls[t].Queued? && !Enabled(cfg, s, Enter(t))
    ensures u in s.calls && u != t && s.calls[u].sid == s.calls[t].sid && Critical(s.calls[u])
  {
    var q := KM.PhaseOf(s.locks, t);
    assert InStep(s.calls[t], q) && KM.OneEntryPerKey(s.locks);
    u := s.locks.heap[q.ref].holder.value;
    var p := KM.PhaseOf(s.locks, u);
    assert p.Holding? && p.ref == q.ref;
    assert s.locks.m[p.key] == s.locks.m[q.key];
    assert u in s.calls && InStep(s.calls[u], p);
  }

  // Allocation never runs out.
  lemma {:induction false} SpareRef(used: set<KM.Ref>) returns (r: KM.Ref)
    ensures forall x :: x in used ==> x < r
    ensures r !in used
  {
    if used == {} {
      r := 0;
    } else {
      var x :| x in used;
      var y := SpareRef(used - {x});
      r := if x < y then y else x + 1;
      assert forall z :: z in used ==> z == x || z in used - {x};
    }
  }
}
