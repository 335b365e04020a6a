/**
 The concurrent map is linearizable: in every run, under every interleaving, each operation takes
 effect at one moment between its call and its return, and answers what a plain map would have
 answered at that moment.
 */
module ConcurrentMapTheorems {
  import opened Options
  import opened ConcurrentMap
  import opened ConcurrentMapProof
  import opened ConcurrentMapSteps

  // ------------------------------------------------------------------------------------
  // The invariant of the whole system
  // ------------------------------------------------------------------------------------

  function HolderPhase(s: State): Phase {
    if s.sh.lock.Some? && s.sh.lock.value in s.running then PhaseOf(s.running[s.sh.lock.value]) else Normal
  }

  ghost predicate RunningOk(s: State, id: OpId)
    requires id in s.running
  {
    var r := s.running[id];
    && id < s.nextId && OpInv(s.sh, id, r)
    && r.before <= |s.done|
    && (forall i :: 0 <= i < r.before ==> s.done[i].res <= r.inv)
  }

  /** A completed operation: answered correctly for moment `lin` of its call, and recorded as
      the writer of its own change only. */
  ghost predicate CompletedOk(sh: Shared, c: Completed) {
    && Justified(sh.hist, c.op, c.inv, Outcome(c.result, c.lin))
    && c.lin <= c.res < |sh.hist|
    && (Writes(c.op, sh.hist[c.lin]) ==> c.lin < c.res)
    && (forall t :: 0 <= t < |sh.writer| ==> (sh.writer[t] == c.id <==> Writes(c.op, sh.hist[c.lin]) && t == c.lin))
    && (forall e {:trigger e in sh.owner} :: e in sh.owner && sh.owner[e] == c.id ==> !sh.P(e).Val?)
  }

  ghost predicate DoneOk(s: State, i: nat)
    requires i < |s.done|
  {
    var c := s.done[i];
    && c.id < s.nextId && c.id !in s.running && CompletedOk(s.sh, c)
    && c.before <= i
    && (forall j :: 0 <= j < c.before ==> s.done[j].res <= c.inv)
  }

  /** Operation `id` has run to completion. */
  ghost predicate Finished(s: State, id: OpId) {
    exists i :: 0 <= i < |s.done| && s.done[i].id == id
  }

  ghost predicate Inv(s: State) {
    && SharedInv(s.sh, HolderPhase(s))
    && (s.sh.lock.Some? ==> s.sh.lock.value in s.running)
    && (forall id {:trigger RunningOk(s, id)} {:trigger id in s.running} :: id in s.running ==> RunningOk(s, id))
    && (forall i {:trigger DoneOk(s, i)} {:trigger s.done[i]} :: 0 <= i < |s.done| ==> DoneOk(s, i))
    && (forall i, j :: 0 <= i < j < |s.done| ==> s.done[i].id != s.done[j].id)
    && (forall t :: 0 <= t < |s.sh.writer| ==>
          s.sh.writer[t] < s.nextId && (s.sh.writer[t] in s.running || Finished(s, s.sh.writer[t])))
    && (forall e {:trigger e in s.sh.owner} :: e in s.sh.owner ==> s.sh.owner[e] < s.nextId)
    && s.sh.hist[0] == map[]
  }

  lemma InitInv(s: State)
    requires Init(s)
    ensures Inv(s)
  {
    assert forall k :: s.sh.Linked(k).None?;
  }

  lemma InvokeInv(s: State, s': State, op: Op)
    requires Inv(s) && Invoke(s, s', op)
    ensures Inv(s')
  {
    hide Links, Published, Gone, Denotes, Shape;
    var id := s.nextId;
    var r := s'.running[id];
    assert HolderPhase(s') == HolderPhase(s);
    assert OpInv(s.sh, id, r) by {
      assert forall t :: 0 <= t < |s.sh.writer| ==> s.sh.writer[t] != id;
    }
    forall x | x in s'.running ensures RunningOk(s', x) {
      if x != id { assert RunningOk(s, x); }
    }
    forall i | 0 <= i < |s'.done| ensures DoneOk(s', i) { assert DoneOk(s, i); }
    forall t | 0 <= t < |s'.sh.writer| ensures s'.sh.writer[t] in s'.running || Finished(s', s'.sh.writer[t]) {
      if s.sh.writer[t] !in s.running {
        var i :| 0 <= i < |s.done| && s.done[i].id == s.sh.writer[t];
        assert s'.done[i].id == s'.sh.writer[t];
      }
    }
  }


  // ------------------------------------------------------------------------------------
  // Steps
  // ------------------------------------------------------------------------------------

  /** What a step that neither holds nor takes the mutex establishes, whatever the lock holder is doing. */
  ghost predicate FreeKeeps(sh: Shared, ph: Phase, id: OpId, r: Running, sh': Shared, pc': Pc) {
    && SharedInv(sh', ph) && Advance(sh, sh', id) && Unmoved(sh, sh') && sh'.lock == sh.lock
    && OpInv(sh', id, r.(pc := pc'))
  }

  lemma FreeStep(sh: Shared, ph: Phase, id: OpId, r: Running, sh': Shared, pc': Pc)
    requires SharedInv(sh, ph) && OpInv(sh, id, r) && Step(sh, id, r, sh', pc')
    requires !Holding(r.pc) && !r.pc.WantLock?
    ensures FreeKeeps(sh, ph, id, r, sh', pc')
  {
    hide SharedInv, OpInv, Advance;
    match r.pc
    case Begin => Still(sh, ph, id); BeginOk(sh, ph, id, r);
    case EntryLoad(_, _) => Still(sh, ph, id); EntryLoadOk(sh, ph, id, r);
    case EntryCas(_, _, _) => EntryCasOk(sh, ph, id, r);
    case Walk(_, _, _) => FreeWalk(sh, ph, id, r, pc');
  }

  lemma FreeWalk(sh: Shared, ph: Phase, id: OpId, r: Running, pc': Pc)
    requires SharedInv(sh, ph) && OpInv(sh, id, r) && r.pc.Walk?
    requires if r.pc.todo == {} then pc' == Return(Outcome(Visited(r.pc.seen, true), sh.Now()))
             else exists k, more :: k in r.pc.todo && pc' == AfterVisit(sh, r.pc.snap, r.pc.todo, r.pc.seen, k, more)
    ensures FreeKeeps(sh, ph, id, r, sh, pc')
  {
    Still(sh, ph, id);
    if r.pc.todo == {} {
      WalkEndOk(sh, id, r);
    } else {
      var k, more :| k in r.pc.todo && pc' == AfterVisit(sh, r.pc.snap, r.pc.todo, r.pc.seen, k, more);
      WalkStepOk(sh, ph, id, r, k, more);
    }
  }

  /** An entry method run under the mutex. */
  lemma HeldEntryStep(sh: Shared, id: OpId, r: Running, sh': Shared, pc': Pc)
    requires SharedInv(sh, Normal) && OpInv(sh, id, r) && Step(sh, id, r, sh', pc')
    requires (r.pc.EntryLoad? || r.pc.EntryCas?) && Holding(r.pc)
    ensures StepKeeps(sh, id, r, sh', pc') && sh'.lock == sh.lock
  {
    hide Links, Published, Gone, Denotes, Shape, Advance, Claims;
    if r.pc.EntryLoad? {
      Still(sh, Normal, id);
      EntryLoadOk(sh, Normal, id, r);
    } else {
      EntryCasOk(sh, Normal, id, r);
    }
    if pc'.Miss? {
      NormalToSlack(sh');
    }
  }

  lemma LockedStep(sh: Shared, id: OpId, r: Running)
    requires SharedInv(sh, Normal) && OpInv(sh, id, r) && r.pc.Locked?
    ensures var (sh', pc') := AfterLocked(sh, id, r.op); StepKeeps(sh, id, r, sh', pc') && sh'.lock == sh.lock
  {
    match r.op
    case Range => LockedRange(sh, id, r);
    case CompareAndSwap(_, _) => LockedCas(sh, id, r);
    case Swap(_, _) => LockedStore(sh, id, r);
    case LoadOrStore(_, _) => LockedStore(sh, id, r);
    case _ => LockedLookup(sh, id, r);
  }

  /** Steps of the lock holder on its entry and on `dirty`. */
  lemma EditStep(sh: Shared, id: OpId, r: Running, sh': Shared, pc': Pc)
    requires SharedInv(sh, PhaseOf(r)) && OpInv(sh, id, r) && Step(sh, id, r, sh', pc')
    requires r.pc.Unexpunge? || r.pc.Relink? || r.pc.SwapIn? || r.pc.Copy? || r.pc.CopyLoad? || r.pc.CopyCas?
    ensures StepKeeps(sh, id, r, sh', pc') && sh'.lock == sh.lock
  {
    hide SharedInv, OpInv, Advance;
    match r.pc
    case Unexpunge(_) => UnexpungeOk(sh, id, r);
    case Relink(_) => RelinkOk(sh, id, r);
    case SwapIn(_) => SwapInOk(sh, id, r);
    case Copy(_) => Still(sh, PhaseOf(r), id); CopyOk(sh, id, r, pc');
    case CopyLoad(_, _) => CopyLoadOk(sh, id, r);
    case CopyCas(_, _) => CopyCasOk(sh, id, r);
  }

  /** The last steps of a critical section. */
  lemma TailStep(sh: Shared, id: OpId, r: Running, sh': Shared, pc': Pc)
    requires SharedInv(sh, PhaseOf(r)) && OpInv(sh, id, r) && Step(sh, id, r, sh', pc')
    requires r.pc.Mark? || r.pc.Insert? || r.pc.Miss? || r.pc.PromoteStore? || r.pc.PromoteClear? || r.pc.Unlock?
    ensures StepKeeps(sh, id, r, sh', pc') && sh'.lock == if r.pc.Unlock? then None else sh.lock
  {
    hide SharedInv, OpInv, Advance;
    match r.pc
    case Mark => MarkOk(sh, id, r);
    case Insert => InsertOk(sh, id, r);
    case Miss(_) => MissOk(sh, id, r);
    case PromoteStore(_) => PromoteStoreOk(sh, id, r);
    case PromoteClear(_) => PromoteClearOk(sh, id, r);
    case Unlock(_) => UnlockOk(sh, id, r);
  }

  /** A step of the lock holder. */
  lemma HeldStep(sh: Shared, id: OpId, r: Running, sh': Shared, pc': Pc)
    requires SharedInv(sh, PhaseOf(r)) && OpInv(sh, id, r) && Step(sh, id, r, sh', pc') && Holding(r.pc)
    ensures StepKeeps(sh, id, r, sh', pc')
    ensures sh'.lock == if r.pc.Unlock? then None else sh.lock
  {
    hide SharedInv, OpInv, Advance;
    if r.pc.Locked? {
      LockedStep(sh, id, r);
    } else if r.pc.EntryLoad? || r.pc.EntryCas? {
      HeldEntryStep(sh, id, r, sh', pc');
    } else if r.pc.Unexpunge? || r.pc.Relink? || r.pc.SwapIn? || r.pc.Copy? || r.pc.CopyLoad? || r.pc.CopyCas? {
      EditStep(sh, id, r, sh', pc');
    } else {
      TailStep(sh, id, r, sh', pc');
    }
  }

  /** A completed operation stays correctly answered and recorded. */
  lemma CompletedKept(sh: Shared, sh': Shared, actor: OpId, c: Completed)
    requires Advance(sh, sh', actor) && Sizes(sh) && Sizes(sh') && c.id != actor && CompletedOk(sh, c)
    ensures CompletedOk(sh', c)
  {
    JustifiedKept(sh.hist, sh'.hist, c.op, c.inv, Outcome(c.result, c.lin));
    assert sh'.hist[c.lin] == sh.hist[c.lin];
    forall t | 0 <= t < |sh'.writer| ensures sh'.writer[t] == c.id <==> (Writes(c.op, sh.hist[c.lin]) && t == c.lin) {
      if t < |sh.writer| {
        assert sh'.writer[t] == sh.writer[t] || Taken(sh, sh', t);
      }
    }
  }

  /** The step of `id` relates the two states as far as the other operations are concerned. */
  ghost predicate GoodStep(s: State, s': State, id: OpId) {
    && StepBy(s, s', id)
    && Advance(s.sh, s'.sh, id) && Sizes(s'.sh)
    && OpInv(s'.sh, id, s'.running[id])
    && (s.sh.lock.Some? && s.sh.lock != Some(id) ==> Unmoved(s.sh, s'.sh) && s'.sh.lock == s.sh.lock)
    && (s'.sh.lock == s.sh.lock || s'.sh.lock == Some(id) || s'.sh.lock.None?)
    && (s'.sh.lock.Some? ==> s'.sh.lock.value in s.running)
  }

  lemma StepIsGood(s: State, s': State, id: OpId)
    requires Inv(s) && StepBy(s, s', id)
    ensures GoodStep(s, s', id) && SharedInv(s'.sh, HolderPhase(s'))
  {
    hide Links, Published, Gone, Denotes, Shape, Claims, PcOk;
    var r, pc' := s.running[id], s'.running[id].pc;
    assert RunningOk(s, id);
    if Holding(r.pc) {
      HeldStep(s.sh, id, r, s'.sh, pc');
    } else if r.pc.WantLock? {
      WantLockOk(s.sh, HolderPhase(s), id, r);
    } else {
      FreeStep(s.sh, HolderPhase(s), id, r, s'.sh, pc');
    }
  }

  lemma OtherGood(s: State, s': State, id: OpId, x: OpId)
    requires Inv(s) && GoodStep(s, s', id) && x in s.running
    ensures RunningOk(s', x)
  {
    assert RunningOk(s, x);
    if x != id {
      assert s.sh.lock == Some(x) <==> s'.sh.lock == Some(x);
      OthersKept(s.sh, s'.sh, id, x, s.running[x]);
    }
  }

  lemma DoneGood(s: State, s': State, id: OpId, i: nat)
    requires Inv(s) && GoodStep(s, s', id) && i < |s.done|
    ensures DoneOk(s', i)
  {
    assert DoneOk(s, i);
    CompletedKept(s.sh, s'.sh, id, s.done[i]);
  }

  lemma StepInv(s: State, s': State, id: OpId)
    requires Inv(s) && StepBy(s, s', id)
    ensures Inv(s')
  {
    hide Links, Published, Gone, Denotes, Shape, OpInv;
    StepIsGood(s, s', id);
    forall x | x in s'.running ensures RunningOk(s', x) { OtherGood(s, s', id, x); }
    forall i | 0 <= i < |s'.done| ensures DoneOk(s', i) { DoneGood(s, s', id, i); }
    assert s'.sh.hist[0] == s.sh.hist[0];
    forall e | e in s'.sh.owner ensures s'.sh.owner[e] < s'.nextId { assert RunningOk(s, id); }
    WritersKnown(s, s', id);
  }

  lemma WritersKnown(s: State, s': State, id: OpId)
    requires Inv(s) && GoodStep(s, s', id)
    ensures forall t :: 0 <= t < |s'.sh.writer| ==>
      s'.sh.writer[t] < s'.nextId && (s'.sh.writer[t] in s'.running || Finished(s', s'.sh.writer[t]))
  {
    assert RunningOk(s, id);
    forall t | 0 <= t < |s'.sh.writer| ensures
      s'.sh.writer[t] < s'.nextId && (s'.sh.writer[t] in s'.running || Finished(s', s'.sh.writer[t]))
    {
      if s'.sh.writer[t] != id {
        assert t < |s.sh.writer| && s.sh.writer[t] == s'.sh.writer[t];
        if s.sh.writer[t] !in s.running {
          var i :| 0 <= i < |s.done| && s.done[i].id == s.sh.writer[t];
          assert s'.done[i].id == s'.sh.writer[t];
        }
      }
    }
  }

  lemma RespondInv(s: State, s': State, id: OpId)
    requires Inv(s) && Respond(s, s', id)
    ensures Inv(s')
  {
    hide Links, Published, Gone, Denotes, Shape, CompletedOk, Claims;
    var r := s.running[id];
    var n := |s.done|;
    assert RunningOk(s, id) && s.sh.lock != Some(id);
    assert HolderPhase(s') == HolderPhase(s);
    forall x | x in s'.running ensures RunningOk(s', x) { assert RunningOk(s, x); }
    forall i | 0 <= i < |s'.done| ensures DoneOk(s', i) {
      if i < n { assert DoneOk(s, i); } else { ReturnedOk(s, s', id); }
    }
    forall t | 0 <= t < |s'.sh.writer| ensures s'.sh.writer[t] in s'.running || Finished(s', s'.sh.writer[t]) {
      if s.sh.writer[t] == id {
        assert s'.done[n].id == id;
      } else if s.sh.writer[t] !in s.running {
        var i :| 0 <= i < |s.done| && s.done[i].id == s.sh.writer[t];
        assert s'.done[i].id == s'.sh.writer[t];
      }
    }
  }

  lemma ReturnedOk(s: State, s': State, id: OpId)
    requires SharedInv(s.sh, HolderPhase(s)) && Respond(s, s', id) && RunningOk(s, id)
    ensures DoneOk(s', |s.done|)
  {
    var c := s'.done[|s.done|];
    assert Claim(s.sh, id, s.running[id]) == if Writes(c.op, s.sh.hist[c.lin]) then Some(c.lin) else None;
  }

  lemma NextInv(s: State, s': State)
    requires Inv(s) && NextState(s, s')
    ensures Inv(s')
  {
    if op :| Invoke(s, s', op) {
      InvokeInv(s, s', op);
    } else if id :| StepBy(s, s', id) {
      StepInv(s, s', id);
    } else {
      var id :| Respond(s, s', id);
      RespondInv(s, s', id);
    }
  }

  lemma {:induction false} RunInv(run: seq<State>, i: nat)
    requires IsRun(run) && i < |run|
    ensures Inv(run[i])
  {
    if i == 0 {
      InitInv(run[0]);
    } else {
      RunInv(run, i - 1);
      NextInv(run[i - 1], run[i]);
    }
  }
}
