/**
  The per-key mutex of session/keyedmutex.go as a transition system.

  Each section of code that runs while `k.mu` is held is one atomic step
  (Register, Deregister); taking and leaving an entry's own mutex are the other
  two (Acquire, Release).  Any number of threads interleave these steps.
 */
module KeyedMutex {
  import opened Wrappers

  type Thread = nat
  type Key = string

  // The identity of a heap-allocated refMutex.
  type Ref = nat

  // `holder` is the thread inside the entry's own mutex.
  datatype RefMutex = RefMutex(refs: int, holder: Option<Thread>)

  // Where a thread stands between the call of `lock` and the end of `unlock`.
  datatype Phase =
    | Outside
    | Registered(key: Key, ref: Ref)
    | Holding(key: Key, ref: Ref)
    | Released(key: Key, ref: Ref)

  datatype State = State(m: map<Key, Ref>, heap: map<Ref, RefMutex>, phase: map<Thread, Phase>)

  datatype Label =
    | Register(t: Thread, key: Key, spare: Ref)
    | Acquire(t: Thread)
    | Release(t: Thread)
    | Deregister(t: Thread)

  const INIT := State(map[], map[], map[])

  function PhaseOf(s: State, t: Thread): Phase {
    if t in s.phase then s.phase[t] else Outside
  }

  predicate Enabled(s: State, l: Label) {
    match l
    case Register(t, _, spare) => PhaseOf(s, t) == Outside && spare !in s.heap
    case Acquire(t) =>
      PhaseOf(s, t).Registered? && PhaseOf(s, t).ref in s.heap && s.heap[PhaseOf(s, t).ref].holder == None
    case Release(t) => PhaseOf(s, t).Holding? && PhaseOf(s, t).ref in s.heap
    case Deregister(t) => PhaseOf(s, t).Released? && PhaseOf(s, t).ref in s.heap
  }

  function Apply(s: State, l: Label): State
    requires Enabled(s, l)
  {
    match l
    case Register(t, key, spare) =>
      var ref := if key in s.m then s.m[key] else spare;
      var entry := if ref in s.heap then s.heap[ref] else RefMutex(0, None);
      State(s.m[key := ref], s.heap[ref := entry.(refs := entry.refs + 1)], s.phase[t := Registered(key, ref)])
    case Acquire(t) =>
      var p := s.phase[t];
      s.(heap := s.heap[p.ref := s.heap[p.ref].(holder := Some(t))], phase := s.phase[t := Holding(p.key, p.ref)])
    case Release(t) =>
      var p := s.phase[t];
      s.(heap := s.heap[p.ref := s.heap[p.ref].(holder := None)], phase := s.phase[t := Released(p.key, p.ref)])
    case Deregister(t) =>
      var p := s.phase[t];
      var entry := s.heap[p.ref].(refs := s.heap[p.ref].refs - 1);
      State(if entry.refs == 0 then s.m - {p.key} else s.m, s.heap[p.ref := entry], s.phase[t := Outside])
  }

  // The labels `ls` can be taken one after the other from `s`.
  predicate Valid(s: State, ls: seq<Label>)
    decreases |ls|
  {
    ls == [] || (Enabled(s, ls[0]) && Valid(Apply(s, ls[0]), ls[1..]))
  }

  function Exec(s: State, ls: seq<Label>): State
    requires Valid(s, ls)
    decreases |ls|
  {
    if ls == [] then s else Exec(Apply(s, ls[0]), ls[1..])
  }

  // The threads that registered on entry `r` and have not yet deregistered.
  function Users(s: State, r: Ref): set<Thread> {
    set t | t in s.phase && s.phase[t] != Outside && s.phase[t].ref == r
  }

  // What the code is for, read off a state.

  ghost predicate MutualExclusion(s: State) {
    forall t: Thread, u: Thread ::
      PhaseOf(s, t).Holding? && PhaseOf(s, u).Holding? && PhaseOf(s, t).key == PhaseOf(s, u).key ==> t == u
  }

  ghost predicate RefsCountUsers(s: State) {
    forall r :: r in s.heap ==> s.heap[r].refs == |Users(s, r)|
  }

  ghost predicate OneEntryPerKey(s: State) {
    forall t: Thread :: PhaseOf(s, t) != Outside ==>
      PhaseOf(s, t).key in s.m && s.m[PhaseOf(s, t).key] == PhaseOf(s, t).ref && PhaseOf(s, t).ref in s.heap
  }

  ghost predicate MappedIffReferenced(s: State) {
    forall r :: r in s.heap ==> (s.heap[r].refs > 0 <==> exists k :: k in s.m && s.m[k] == r)
  }

  ghost predicate EmptyAtRest(s: State) {
    (forall t: Thread :: PhaseOf(s, t) == Outside) ==> s.m == map[]
  }

  // Some thread that is inside can take its next step, so nobody waits forever on nobody.
  ghost predicate CanProgress(s: State) {
    (exists t: Thread :: PhaseOf(s, t) != Outside) ==> exists l: Label :: !l.Register? && Enabled(s, l)
  }

  // The inductive invariant behind them.
  ghost predicate Inv(s: State) {
    && OneEntryPerKey(s)
    && RefsCountUsers(s)
    && (forall k :: k in s.m ==> s.m[k] in s.heap && s.heap[s.m[k]].refs > 0)
    && (forall k, k' :: k in s.m && k' in s.m && s.m[k] == s.m[k'] ==> k == k')
    && (forall r, t: Thread :: r in s.heap ==>
          (s.heap[r].holder == Some(t) <==> PhaseOf(s, t).Holding? && PhaseOf(s, t).ref == r))
  }

  lemma StepKeepsInv(s: State, l: Label)
    requires Inv(s) && Enabled(s, l)
    ensures Inv(Apply(s, l))
  {
    match l
    case Register(t, key, spare) => RegisterKeepsInv(s, t, key, spare);
    case Acquire(t) => HandOverKeepsInv(s, l);
    case Release(t) => HandOverKeepsInv(s, l);
    case Deregister(t) => DeregisterKeepsInv(s, t);
  }

  // Entering and leaving an entry's mutex move nobody on or off an entry.
  lemma HandOverKeepsInv(s: State, l: Label)
    requires Inv(s) && Enabled(s, l) && (l.Acquire? || l.Release?)
    ensures Inv(Apply(s, l))
  {
    var s' := Apply(s, l);
    assert PhaseOf(s, l.t) == s.phase[l.t];
    forall r ensures Users(s', r) == Users(s, r) {}
    forall u: Thread | u != l.t ensures PhaseOf(s', u) == PhaseOf(s, u) {}
  }

  lemma RegisterUsers(s: State, t: Thread, key: Key, spare: Ref)
    requires Inv(s) && Enabled(s, Register(t, key, spare))
    ensures RefsCountUsers(Apply(s, Register(t, key, spare)))
  {
    var s' := Apply(s, Register(t, key, spare));
    var ref := s'.phase[t].ref;
    FreshHasNoUsers(s, spare);
    assert Users(s', ref) == Users(s, ref) + {t};
    forall r | r in s.heap && r != ref ensures Users(s', r) == Users(s, r) {}
  }

  lemma RegisterKeepsInv(s: State, t: Thread, key: Key, spare: Ref)
    requires Inv(s) && Enabled(s, Register(t, key, spare))
    ensures Inv(Apply(s, Register(t, key, spare)))
  {
    var s' := Apply(s, Register(t, key, spare));
    RegisterUsers(s, t, key, spare);
    forall u: Thread | u != t ensures PhaseOf(s', u) == PhaseOf(s, u) {}
  }

  lemma FreshHasNoUsers(s: State, spare: Ref)
    requires Inv(s) && spare !in s.heap
    ensures Users(s, spare) == {}
  {
    assert forall t :: t in s.phase ==> PhaseOf(s, t) == s.phase[t];
  }

  lemma DeregisterUsers(s: State, t: Thread)
    requires Inv(s) && Enabled(s, Deregister(t))
    ensures var s', p := Apply(s, Deregister(t)), s.phase[t];
      && Users(s', p.ref) == Users(s, p.ref) - {t} && t in Users(s, p.ref)
      && RefsCountUsers(s')
  {
    var s', p := Apply(s, Deregister(t)), s.phase[t];
    assert PhaseOf(s, t) == p;
    assert Users(s', p.ref) == Users(s, p.ref) - {t};
    forall r | r in s.heap && r != p.ref ensures Users(s', r) == Users(s, r) {}
  }

  // The last user of an entry unmaps it; anybody else still finds it mapped.
  lemma DeregisterKeepsInv(s: State, t: Thread)
    requires Inv(s) && Enabled(s, Deregister(t))
    ensures Inv(Apply(s, Deregister(t)))
  {
    var s', p := Apply(s, Deregister(t)), s.phase[t];
    DeregisterUsers(s, t);
    forall u: Thread | u != t ensures PhaseOf(s', u) == PhaseOf(s, u) {}
    forall u: Thread | PhaseOf(s', u) != Outside
      ensures PhaseOf(s', u).key in s'.m && s'.m[PhaseOf(s', u).key] == PhaseOf(s', u).ref
    {
      if PhaseOf(s, u).key == p.key {
        assert PhaseOf(s, t) == p;
        assert u in Users(s', p.ref);
      }
    }
  }

  lemma {:induction false} RunKeepsInv(s: State, ls: seq<Label>)
    requires Inv(s) && Valid(s, ls)
    ensures Inv(Exec(s, ls))
    decreases |ls|
  {
    if ls != [] {
      StepKeepsInv(s, ls[0]);
      RunKeepsInv(Apply(s, ls[0]), ls[1..]);
    }
  }

  lemma InvIsSafe(s: State)
    requires Inv(s)
    ensures MutualExclusion(s) && MappedIffReferenced(s) && EmptyAtRest(s) && CanProgress(s)
  {
    forall r | r in s.heap && s.heap[r].refs > 0 ensures exists k :: k in s.m && s.m[k] == r {
      var t :| t in Users(s, r);
      assert PhaseOf(s, t).key in s.m;
    }
    if forall t: Thread :: PhaseOf(s, t) == Outside {
      assert forall r :: r in s.heap ==> Users(s, r) == {} by {
        assert forall t :: t in s.phase ==> PhaseOf(s, t) == s.phase[t];
      }
    } else {
      var t :| PhaseOf(s, t) != Outside;
      match s.heap[PhaseOf(s, t).ref].holder
      case Some(u) => assert Enabled(s, Release(u));
      case None =>
        assert Enabled(s, Acquire(t)) || Enabled(s, Deregister(t));
    }
  }

  // Every interleaving of every number of threads, from the zero keyedMutex.
  lemma EveryRunIsSafe(ls: seq<Label>)
    requires Valid(INIT, ls)
    ensures var s := Exec(INIT, ls);
            MutualExclusion(s) && RefsCountUsers(s) && OneEntryPerKey(s) && MappedIffReferenced(s)
            && EmptyAtRest(s) && CanProgress(s)
  {
    RunKeepsInv(INIT, ls);
    InvIsSafe(Exec(INIT, ls));
  }

  /** The keyedMutex object: the same steps as in-place updates of its fields. */
  class KeyedMutexes {
    var m: map<Key, Ref>
    var heap: map<Ref, RefMutex>
    var next: Ref   // where the next refMutex is allocated
    ghost var phase: map<Thread, Phase>

    ghost predicate Valid()
      reads this
    {
      (forall r :: r in heap ==> r < next) && (forall k :: k in m ==> m[k] in heap)
    }

    ghost function Model(): State
      reads this
    {
      State(m, heap, phase)
    }

    constructor ()
      ensures Valid() && Model() == INIT
    {
      m, heap, next, phase := map[], map[], 0, map[];
    }

    // `lock` up to the release of k.mu.
    method RegisterOn(ghost t: Thread, key: Key) returns (ref: Ref)
      requires Valid() && PhaseOf(Model(), t) == Outside
      modifies this
      ensures Valid() && Enabled(old(Model()), Register(t, key, old(next)))
      ensures Model() == Apply(old(Model()), Register(t, key, old(next)))
      ensures t in phase && phase[t] == Registered(key, ref)
    {
      if key !in m {
        heap := heap[next := RefMutex(0, None)];
        m := m[key := next];
        next := next + 1;
      }
      ref := m[key];
      heap := heap[ref := heap[ref].(refs := heap[ref].refs + 1)];
      phase := phase[t := Registered(key, ref)];
    }

    // `rm.mu.Lock()` once the mutex is free.
    method Enter(t: Thread, ref: Ref)
      requires Valid() && Enabled(Model(), Acquire(t)) && phase[t].ref == ref
      modifies `heap, `phase
      ensures Valid() && Model() == Apply(old(Model()), Acquire(t))
    {
      heap := heap[ref := heap[ref].(holder := Some(t))];
      phase := phase[t := Holding(phase[t].key, ref)];
    }

    // `rm.mu.Unlock()`.
    method Leave(ghost t: Thread, ref: Ref)
      requires Valid() && Enabled(Model(), Release(t)) && phase[t].ref == ref
      modifies `heap, `phase
      ensures Valid() && Model() == Apply(old(Model()), Release(t))
    {
      heap := heap[ref := heap[ref].(holder := None)];
      phase := phase[t := Released(phase[t].key, ref)];
    }

    // The rest of the returned unlock function, under k.mu.
    method DeregisterFrom(ghost t: Thread, key: Key, ref: Ref)
      requires Valid() && Enabled(Model(), Deregister(t)) && phase[t] == Released(key, ref)
      modifies this
      ensures Valid() && Model() == Apply(old(Model()), Deregister(t))
    {
      heap := heap[ref := heap[ref].(refs := heap[ref].refs - 1)];
      if heap[ref].refs == 0 {
        m := m - {key};
      }
      phase := phase[t := Outside];
    }
  }
}
