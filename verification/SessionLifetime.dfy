/**
  Absolute lifetime: however Reads, refreshes, logouts, store failures and the
  clock interleave, a session keeps the identity and the end it was issued with.
 */
module SessionLifetime {
  import opened Wrappers
  import opened SessionProtocol
  import KM = KeyedMutex

  // `rec` is the record issued under `sid`, up to its tokens.
  predicate Faithful(issued: map<Sid, Record>, sid: Sid, rec: Record) {
    sid in issued && Fixed(rec.session) == Fixed(issued[sid].session)
  }

  predicate FaithfulResult(issued: map<Sid, Record>, sid: Sid, r: Option<Record>) {
    r.Some? ==> Faithful(issued, sid, r.value)
  }

  predicate FaithfulPc(issued: map<Sid, Record>, pc: Pc, now: int) {
    match pc
    case Start(_, _) => true
    case Finishing(sid, r) => FaithfulResult(issued, sid, r)
    case Unlocked(sid, r) => FaithfulResult(issued, sid, r)
    case Done(sid, r) => FaithfulResult(issued, sid, r)
    case Reloaded(sid, rec, again) => Faithful(issued, sid, rec) && FaithfulResult(issued, sid, again)
    case Storing(sid, rec, at, ttl) => Faithful(issued, sid, rec) && ttl == rec.session.expiry - at && at <= now
    case _ => Faithful(issued, pc.sid, pc.rec)
  }

  predicate FaithfulEvent(cfg: Config, issued: map<Sid, Record>, e: Event) {
    match e
    case PassedLifetime(sid, at) => sid in issued && at <= issued[sid].session.issuedAt + cfg.ttl
    case Wrote(sid, rec, at, ttl) => Faithful(issued, sid, rec) && ttl <= rec.session.expiry - at
    case Decided(sid, _, r) => FaithfulResult(issued, sid, r)
    case Called(_, _, _) => true
    case TurnedDown(sid, rec, at, r) =>
      Faithful(issued, sid, rec) && r == if at < rec.accessExpiry then Some(rec) else None
  }

  ghost predicate FaithfulStore(cfg: Config, s: State) {
    && (forall sid :: sid in s.issued ==> s.issued[sid].session.expiry == s.issued[sid].session.issuedAt + cfg.ttl)
    && (forall sid :: sid in s.store ==>
          Faithful(s.issued, sid, s.store[sid].rec) && s.store[sid].deadline >= s.issued[sid].session.expiry)
  }

  ghost predicate FaithfulCalls(s: State) {
    forall t :: t in s.calls ==> FaithfulPc(s.issued, s.calls[t], s.now)
  }

  ghost predicate FaithfulLog(cfg: Config, issued: map<Sid, Record>, log: seq<Event>) {
    forall i :: 0 <= i < |log| ==> FaithfulEvent(cfg, issued, log[i])
  }

  ghost predicate Life(cfg: Config, s: State) {
    FaithfulStore(cfg, s) && FaithfulCalls(s) && FaithfulLog(cfg, s.issued, s.log)
  }

  // The steps that only carry a record along, and the steps that load, judge or renew one.
  predicate Carries(l: Label) {
    l.Begin? || l.Admit? || l.Decide? || l.Enlist? || l.Enter? || l.Leave? || l.Delist?
  }

  lemma CarriedRecord(cfg: Config, s: State, l: Label)
    requires Enabled(cfg, s, l) && Carries(l)
    requires l.t in s.calls ==> FaithfulPc(s.issued, s.calls[l.t], s.now)
    ensures l.t in Apply(cfg, s, l).calls && FaithfulPc(s.issued, Apply(cfg, s, l).calls[l.t], s.now)
  {
    hide KM.Apply, KM.Enabled;
  }

  lemma LoadedRecord(cfg: Config, s: State, l: Label)
    requires FaithfulStore(cfg, s) && Enabled(cfg, s, l) && (l.Load? || l.Reload?)
    requires FaithfulPc(s.issued, s.calls[l.t], s.now)
    ensures l.t in Apply(cfg, s, l).calls && FaithfulPc(s.issued, Apply(cfg, s, l).calls[l.t], s.now)
  {
    hide KM.Apply, KM.Enabled;
  }

  // Judging, renewing, measuring and storing work on the Read's own records.
  lemma OwnRecord(cfg: Config, s: State, l: Label)
    requires Enabled(cfg, s, l) && (l.Judge? || l.Call? || l.Measure? || l.Put?)
    requires FaithfulPc(s.issued, s.calls[l.t], s.now)
    ensures l.t in Apply(cfg, s, l).calls && FaithfulPc(s.issued, Apply(cfg, s, l).calls[l.t], s.now)
  {
    hide KM.Apply, KM.Enabled;
    if l.Call? && l.outcome.Some? {
      assert Fixed(Renew(s.calls[l.t].rec, l.outcome.value).session) == Fixed(s.calls[l.t].rec.session);
    }
  }

  lemma ReadStepPc(cfg: Config, s: State, l: Label)
    requires FaithfulStore(cfg, s) && Enabled(cfg, s, l) && !Background(l)
    requires l.t in s.calls ==> FaithfulPc(s.issued, s.calls[l.t], s.now)
    ensures l.t in Apply(cfg, s, l).calls && FaithfulPc(s.issued, Apply(cfg, s, l).calls[l.t], s.now)
  {
    hide Apply, FaithfulPc, FaithfulStore, KM.Enabled;
    if Carries(l) {
      CarriedRecord(cfg, s, l);
    } else if l.Load? || l.Reload? {
      LoadedRecord(cfg, s, l);
    } else {
      OwnRecord(cfg, s, l);
    }
  }

  lemma ReadStepStore(cfg: Config, s: State, l: Label)
    requires FaithfulStore(cfg, s) && Enabled(cfg, s, l) && !Background(l)
    requires l.t in s.calls ==> FaithfulPc(s.issued, s.calls[l.t], s.now)
    ensures FaithfulStore(cfg, Apply(cfg, s, l))
  {
    hide KM.Apply, KM.Enabled;
    if l.Put? {
      assert s.calls[l.t].rec.session.expiry == Fixed(s.issued[s.calls[l.t].sid].session).expiry;
    } else {
      OnlyPutWrites(cfg, s, l);
    }
  }

  lemma ReadStepEvents(cfg: Config, s: State, l: Label)
    requires FaithfulStore(cfg, s) && Enabled(cfg, s, l) && !Background(l)
    requires l.t in s.calls ==> FaithfulPc(s.issued, s.calls[l.t], s.now)
    ensures FaithfulLog(cfg, s.issued, News(cfg, s, l))
  {
    hide KM.Apply, KM.Enabled;
    if l.Admit? {
      assert s.calls[l.t].rec.session.expiry == Fixed(s.issued[s.calls[l.t].sid].session).expiry;
    }
  }

  // Background steps leave every Read where it was; records that were issued stay issued.
  lemma BackgroundMoves(cfg: Config, s: State, l: Label)
    requires Enabled(cfg, s, l) && Background(l)
    ensures var s' := Apply(cfg, s, l);
      && s'.calls == s.calls && s'.now >= s.now
      && (forall sid :: sid in s.issued ==> sid in s'.issued && s'.issued[sid] == s.issued[sid])
  {
    hide KM.Apply, KM.Enabled;
  }

  lemma BackgroundStore(cfg: Config, s: State, l: Label)
    requires FaithfulStore(cfg, s) && Enabled(cfg, s, l) && Background(l)
    ensures FaithfulStore(cfg, Apply(cfg, s, l))
  {
    hide KM.Apply, KM.Enabled;
  }

  lemma BackgroundEvents(cfg: Config, s: State, l: Label)
    requires Enabled(cfg, s, l) && Background(l)
    ensures Apply(cfg, s, l).log == s.log + News(cfg, s, l)
    ensures FaithfulLog(cfg, Apply(cfg, s, l).issued, News(cfg, s, l))
  {
    hide KM.Apply, KM.Enabled;
  }

  // What was faithful stays so when more is issued and time passes.
  lemma FaithfulStays(issued: map<Sid, Record>, more: map<Sid, Record>, pc: Pc, now: int, later: int)
    requires forall sid :: sid in issued ==> sid in more && more[sid] == issued[sid]
    requires FaithfulPc(issued, pc, now) && now <= later
    ensures FaithfulPc(more, pc, later)
  {
  }

  lemma FaithfulEventStays(cfg: Config, issued: map<Sid, Record>, more: map<Sid, Record>, e: Event)
    requires forall sid :: sid in issued ==> sid in more && more[sid] == issued[sid]
    requires FaithfulEvent(cfg, issued, e)
    ensures FaithfulEvent(cfg, more, e)
  {
  }

  lemma BackgroundKeepsLife(cfg: Config, s: State, l: Label)
    requires Life(cfg, s) && Enabled(cfg, s, l) && Background(l)
    ensures Life(cfg, Apply(cfg, s, l))
  {
    hide Apply, Enabled, News, FaithfulStore, FaithfulPc, FaithfulEvent;
    var s' := Apply(cfg, s, l);
    BackgroundMoves(cfg, s, l);
    BackgroundStore(cfg, s, l);
    BackgroundEvents(cfg, s, l);
    forall t | t in s'.calls ensures FaithfulPc(s'.issued, s'.calls[t], s'.now) {
      FaithfulStays(s.issued, s'.issued, s.calls[t], s.now, s'.now);
    }
    forall i | 0 <= i < |s.log| ensures FaithfulEvent(cfg, s'.issued, s.log[i]) {
      FaithfulEventStays(cfg, s.issued, s'.issued, s.log[i]);
    }
  }

  lemma StepKeepsLife(cfg: Config, s: State, l: Label)
    requires Life(cfg, s) && Enabled(cfg, s, l)
    ensures Life(cfg, Apply(cfg, s, l))
  {
    if Background(l) {
      BackgroundKeepsLife(cfg, s, l);
    } else {
      ReadStepMoves(cfg, s, l);
      ReadStepPc(cfg, s, l);
      ReadStepStore(cfg, s, l);
      ReadStepEvents(cfg, s, l);
    }
  }

  lemma {:induction false} RunKeepsLife(cfg: Config, s: State, ls: seq<Label>)
    requires Life(cfg, s) && Valid(cfg, s, ls)
    ensures Life(cfg, Exec(cfg, s, ls))
    decreases |ls|
  {
    if ls != [] {
      StepKeepsLife(cfg, s, ls[0]);
      RunKeepsLife(cfg, Apply(cfg, s, ls[0]), ls[1..]);
    }
  }

  /**
    In every run from an empty store: a stored record, and every record a Read
    decides on, has the subject, passport, groups, fingerprint, issue time and
    expiry it was issued with; every write asks for a TTL within the remaining
    lifetime measured for it; and no Read passes its expiry check later than
    issue time + TTL, however many refreshes happened.
   */
  lemma AbsoluteLifetime(cfg: Config, now: int, ls: seq<Label>)
    requires Valid(cfg, Init(now), ls)
    ensures var s := Exec(cfg, Init(now), ls);
      && (forall sid :: sid in s.store ==>
            && sid in s.issued
            && s.store[sid].rec.session.(accessToken := "") == s.issued[sid].session.(accessToken := ""))
      && (forall i :: 0 <= i < |s.log| && s.log[i].Wrote? ==>
            && s.log[i].sid in s.issued
            && s.log[i].ttl <= s.issued[s.log[i].sid].session.expiry - s.log[i].at)
      && (forall i :: 0 <= i < |s.log| && s.log[i].PassedLifetime? ==>
            && s.log[i].sid in s.issued
            && s.log[i].at <= s.issued[s.log[i].sid].session.issuedAt + cfg.ttl)
      && (forall i :: 0 <= i < |s.log| && s.log[i].Decided? && s.log[i].result.Some? ==>
            && s.log[i].sid in s.issued
            && s.log[i].result.value.session.(accessToken := "") == s.issued[s.log[i].sid].session.(accessToken := ""))
  {
    RunKeepsLife(cfg, Init(now), ls);
    var s := Exec(cfg, Init(now), ls);
    forall i | 0 <= i < |s.log| ensures FaithfulEvent(cfg, s.issued, s.log[i]) {}
    forall i | 0 <= i < |s.log| && s.log[i].Wrote? && s.log[i].sid in s.issued
      ensures s.log[i].rec.session.expiry == s.issued[s.log[i].sid].session.expiry
    {
      assert Fixed(s.log[i].rec.session).expiry == Fixed(s.issued[s.log[i].sid].session).expiry;
    }
  }

  /**
    In every run, a Read that the provider turned down keeps its record exactly
    while the record's own access token is alive, and otherwise has none.
   */
  lemma TurnedDownKeepsALiveToken(cfg: Config, now: int, ls: seq<Label>, i: nat)
    requires Valid(cfg, Init(now), ls) && i < |Exec(cfg, Init(now), ls).log|
    requires Exec(cfg, Init(now), ls).log[i].TurnedDown?
    ensures var e := Exec(cfg, Init(now), ls).log[i];
      if e.at < e.rec.accessExpiry then e.result == Some(e.rec) else e.result == None
  {
    RunKeepsLife(cfg, Init(now), ls);
    var s := Exec(cfg, Init(now), ls);
    assert FaithfulEvent(cfg, s.issued, s.log[i]);
  }

  // A Read of a client whose fingerprint is not the one the session was issued to fails, after any run.
  lemma ForeignClientFails(cfg: Config, now: int, ls: seq<Label>, t: Thread)
    requires Valid(cfg, Init(now), ls)
    requires var s := Exec(cfg, Init(now), ls); t in s.calls && s.calls[t].Loaded?
    ensures var s := Exec(cfg, Init(now), ls);
      && s.calls[t].sid in s.issued
      && (s.calls[t].fp != s.issued[s.calls[t].sid].session.fingerprint ==>
            Apply(cfg, s, Admit(t)).calls[t] == Done(s.calls[t].sid, None))
  {
    RunKeepsLife(cfg, Init(now), ls);
    var s := Exec(cfg, Init(now), ls);
    assert FaithfulPc(s.issued, s.calls[t], s.now);
    assert Fixed(s.calls[t].rec.session).fingerprint == Fixed(s.issued[s.calls[t].sid].session).fingerprint;
  }

  // A Read that loaded its record in any run, and checks it past the end, fails.
  lemma ExpiredReadFails(cfg: Config, now: int, ls: seq<Label>, t: Thread)
    requires Valid(cfg, Init(now), ls)
    requires var s := Exec(cfg, Init(now), ls); t in s.calls && s.calls[t].Loaded?
    ensures var s := Exec(cfg, Init(now), ls);
      && s.calls[t].sid in s.issued
      && (s.now > s.issued[s.calls[t].sid].session.issuedAt + cfg.ttl ==>
            Apply(cfg, s, Admit(t)).calls[t] == Done(s.calls[t].sid, None))
  {
    RunKeepsLife(cfg, Init(now), ls);
    var s := Exec(cfg, Init(now), ls);
    assert FaithfulPc(s.issued, s.calls[t], s.now);
    assert Fixed(s.calls[t].rec.session).expiry == Fixed(s.issued[s.calls[t].sid].session).expiry;
  }
}
