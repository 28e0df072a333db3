/** What a Read returns is what the run's log says it decided: no answer is made up on the way out. */
module SessionAnswers {
  import opened Wrappers
  import opened SessionProtocol
  import KM = KeyedMutex

  ghost predicate Logged(log: seq<Event>, sid: Sid, rec: Record) {
    exists i :: 0 <= i < |log| && log[i].Decided? && log[i].sid == sid && log[i].result == Some(rec)
  }

  // The record this Read is going to return, or has returned.
  function Answer(pc: Pc): Option<Record> {
    if pc.Finishing? || pc.Unlocked? || pc.Done? then pc.result else None
  }

  ghost predicate Told(s: State) {
    forall t :: t in s.calls && Answer(s.calls[t]).Some? ==> Logged(s.log, s.calls[t].sid, Answer(s.calls[t]).value)
  }

  lemma LoggedStays(log: seq<Event>, more: seq<Event>, sid: Sid, rec: Record)
    requires Logged(log, sid, rec)
    ensures Logged(log + more, sid, rec)
  {
    var i :| 0 <= i < |log| && log[i].Decided? && log[i].sid == sid && log[i].result == Some(rec);
    assert (log + more)[i] == log[i];
  }

  lemma LoggedLast(log: seq<Event>, more: seq<Event>, sid: Sid, waited: bool, rec: Record)
    requires more != [] && more[|more| - 1] == Decided(sid, waited, Some(rec))
    ensures Logged(log + more, sid, rec)
  {
    assert (log + more)[|log| + |more| - 1] == Decided(sid, waited, Some(rec));
  }

  // The step by which a Read gets its answer logs that answer last.
  lemma AnswerIsLogged(cfg: Config, s: State, l: Label)
    requires Enabled(cfg, s, l) && !Background(l)
    ensures l.t in Apply(cfg, s, l).calls
    ensures var pc, news := Apply(cfg, s, l).calls[l.t], News(cfg, s, l);
      Answer(pc).Some? ==>
        || (l.t in s.calls && Answer(s.calls[l.t]) == Answer(pc) && s.calls[l.t].sid == pc.sid)
        || (news != [] && exists w :: news[|news| - 1] == Decided(pc.sid, w, Answer(pc)))
  {
    hide KM.Apply, KM.Enabled;
    var pc, news := Apply(cfg, s, l).calls[l.t], News(cfg, s, l);
    if Answer(pc).Some? && news != [] {
      assert news[|news| - 1] == Decided(pc.sid, !l.Decide?, Answer(pc));
    }
  }

  lemma StepKeepsTold(cfg: Config, s: State, l: Label)
    requires Told(s) && Enabled(cfg, s, l)
    ensures Told(Apply(cfg, s, l))
  {
    hide Move, News, Logged, Answer, Enabled;
    var s', news := Apply(cfg, s, l), News(cfg, s, l);
    CallsMove(cfg, s, l);
    forall t | t in s'.calls && Answer(s'.calls[t]).Some?
      ensures Logged(s'.log, s'.calls[t].sid, Answer(s'.calls[t]).value)
    {
      var pc := s'.calls[t];
      if !Background(l) && t == l.t {
        AnswerIsLogged(cfg, s, l);
        if t in s.calls && Answer(s.calls[t]) == Answer(pc) && s.calls[t].sid == pc.sid {
          LoggedStays(s.log, news, pc.sid, Answer(pc).value);
        } else {
          var w :| news[|news| - 1] == Decided(pc.sid, w, Answer(pc));
          LoggedLast(s.log, news, pc.sid, w, Answer(pc).value);
        }
      } else {
        LoggedStays(s.log, news, pc.sid, Answer(pc).value);
      }
    }
  }

  lemma CallsMove(cfg: Config, s: State, l: Label)
    requires Enabled(cfg, s, l)
    ensures var s' := Apply(cfg, s, l);
      if Background(l) then s'.calls == s.calls else l.t in s'.calls && s'.calls == s.calls[l.t := s'.calls[l.t]]
  {
    hide KM.Apply, KM.Enabled;
  }

  lemma {:induction false} RunKeepsTold(cfg: Config, s: State, ls: seq<Label>)
    requires Told(s) && Valid(cfg, s, ls)
    ensures Told(Exec(cfg, s, ls))
    decreases |ls|
  {
    if ls != [] {
      StepKeepsTold(cfg, s, ls[0]);
      RunKeepsTold(cfg, Apply(cfg, s, ls[0]), ls[1..]);
    }
  }

  // In every run: a Read that returned a record decided on it, so what holds of decisions holds of answers.
  lemma AnswersWereDecided(cfg: Config, now: int, ls: seq<Label>, t: Thread, sid: Sid, rec: Record)
    requires Valid(cfg, Init(now), ls)
    requires var s := Exec(cfg, Init(now), ls); t in s.calls && s.calls[t] == Done(sid, Some(rec))
    ensures var log := Exec(cfg, Init(now), ls).log;
      exists i :: 0 <= i < |log| && log[i].Decided? && log[i].sid == sid && log[i].result == Some(rec)
  {
    RunKeepsTold(cfg, Init(now), ls);
    assert Answer(Exec(cfg, Init(now), ls).calls[t]) == Some(rec);
  }
}
