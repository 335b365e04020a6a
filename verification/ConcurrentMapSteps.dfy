/**
 Every step of an operation keeps its own invariant, and with the facts about the shared state
 of ConcurrentMapProof every step of the system keeps the invariant of the whole system.
 */
module ConcurrentMapSteps {
  import opened Options
  import opened ConcurrentMap
  import opened ConcurrentMapProof

  // ------------------------------------------------------------------------------------
  // Bookkeeping of changes
  // ------------------------------------------------------------------------------------

  /** Steps that leave the record of changes alone. */
  lemma ClaimsMove(sh: Shared, sh': Shared, id: OpId, r: Running, pc': Pc)
    requires Claims(sh, id, r)
    requires sh'.writer == sh.writer && sh'.owner == sh.owner
    requires forall e {:trigger sh'.P(e)} {:trigger e in sh.owner} :: e in sh.owner ==> sh'.P(e) == sh.P(e)
    requires Claim(sh', id, r.(pc := pc')) == Claim(sh, id, r)
    requires r.op.LoadAndDelete? && HeldBy(r.pc).Some? && sh.P(HeldBy(r.pc).value).Val? ==> HeldBy(pc') == HeldBy(r.pc)
    ensures Claims(sh', id, r.(pc := pc'))
  {
  }

  /** The operation, which had changed nothing so far, makes the change now recorded last. */
  lemma ClaimsLog(sh: Shared, sh': Shared, id: OpId, r: Running, pc': Pc)
    requires Claims(sh, id, r) && Claim(sh, id, r).None?
    requires sh'.writer == sh.writer + [id] && sh'.owner == sh.owner
    requires forall e {:trigger sh'.P(e)} {:trigger e in sh.owner} :: e in sh.owner ==> sh'.P(e) == sh.P(e)
    requires Claim(sh', id, r.(pc := pc')) == Some(|sh.writer|)
    requires forall e {:trigger e in sh.owner} :: e in sh.owner && sh.owner[e] == id ==> !sh.P(e).Val?
    ensures Claims(sh', id, r.(pc := pc'))
  {
  }

  /** No value behind a published entry is anybody's pending deletion. */
  lemma LinkedUnclaimed(sh: Shared, id: OpId, e: EntryId)
    requires Gone(sh) && e !in sh.gone
    ensures EntryClaim(sh, id, e).None? && e !in sh.owner
  {
  }

  // ------------------------------------------------------------------------------------
  // Steps that change nothing shared
  // ------------------------------------------------------------------------------------

  /** When `read` is not amended it covers `dirty`. */
  lemma NotAmended(sh: Shared, ph: Phase)
    requires SharedInv(sh, ph) && !sh.read.amended
    ensures forall k :: k !in sh.read.m ==> sh.Linked(k).None? && k !in sh.Current()
  {
    forall k | k !in sh.read.m ensures sh.Linked(k).None? && k !in sh.Current() {
      assert k !in sh.Dirty();
      assert Lookup(sh.Current(), k) == sh.Seen(k);
    }
  }

  /** "No value" is the right answer for the current moment. */
  lemma AbsentNow(sh: Shared, op: Op, inv: nat)
    requires Sizes(sh) && Denotes(sh) && !op.Range? && !op.Swap? && !op.LoadOrStore? && inv < |sh.hist|
    requires sh.Seen(op.k).None?
    ensures Justified(sh.hist, op, inv, Outcome(NotFound(op), sh.Now())) && !Writes(op, sh.hist[sh.Now()])
  {
    assert Lookup(sh.Current(), op.k) == sh.Seen(op.k);
  }

  /** "No value" read from an entry is right for the moment the entry left, or for now. */
  lemma AbsentThen(sh: Shared, ph: Phase, r: Running, e: EntryId)
    requires SharedInv(sh, ph) && r.inv < |sh.hist|
    requires !r.op.Range? && !r.op.Swap? && !r.op.LoadOrStore?
    requires Usable(sh, r.inv, r.op.k, e) && !sh.P(e).Val?
    ensures Justified(sh.hist, r.op, r.inv, Outcome(NotFound(r.op), LastAbsent(sh, e)))
    ensures !Writes(r.op, sh.hist[LastAbsent(sh, e)])
  {
    if e in sh.gone {
      assert GoneEntry(sh, e);
    } else {
      assert Placed(sh, e);
      AbsentNow(sh, r.op, r.inv);
    }
  }

  lemma BeginOk(sh: Shared, ph: Phase, id: OpId, r: Running)
    requires SharedInv(sh, ph) && OpInv(sh, id, r) && r.pc.Begin?
    ensures OpInv(sh, id, r.(pc := AfterBegin(sh, r.op)))
  {
    if r.op.Range? {
      if !sh.read.amended {
        NotAmended(sh, ph);
        WalkStarts(sh, ph, r.inv, sh.read.m);
      }
    } else if r.op.k in sh.read.m {
      BeginFound(sh, ph, id, r);
    } else if !sh.read.amended && !r.op.Swap? && !r.op.LoadOrStore? {
      NotAmended(sh, ph);
      AbsentNow(sh, r.op, r.inv);
    }
    BeginMoves(sh, id, r);
  }

  lemma BeginFound(sh: Shared, ph: Phase, id: OpId, r: Running)
    requires SharedInv(sh, ph) && !r.op.Range? && r.op.k in sh.read.m
    ensures var e := sh.read.m[r.op.k]; Usable(sh, r.inv, r.op.k, e) && e in sh.published && e !in sh.owner
  {
    var e := sh.read.m[r.op.k];
    assert sh.Linked(r.op.k) == Some(e) && FoundOk(sh, r.op.k);
    LinkedUnclaimed(sh, id, e);
  }

  lemma BeginMoves(sh: Shared, id: OpId, r: Running)
    requires OpInv(sh, id, r) && r.pc.Begin?
    requires !r.op.Range? && r.op.k in sh.read.m ==>
      var e := sh.read.m[r.op.k]; Usable(sh, r.inv, r.op.k, e) && e in sh.published && e !in sh.owner
    requires r.op.Range? && !sh.read.amended ==> WalkOk(sh, r.inv, sh.read.m, sh.read.m.Keys, map[])
    requires !r.op.Range? && r.op.k !in sh.read.m && !sh.read.amended && !r.op.Swap? && !r.op.LoadOrStore? ==>
      Justified(sh.hist, r.op, r.inv, Outcome(NotFound(r.op), sh.Now())) && !Writes(r.op, sh.hist[sh.Now()])
    ensures OpInv(sh, id, r.(pc := AfterBegin(sh, r.op)))
  {
    ClaimsMove(sh, sh, id, r, AfterBegin(sh, r.op));
  }

  /** A published snapshot that covers all linked keys is a sound start for Range. */
  lemma WalkStarts(sh: Shared, ph: Phase, inv: nat, snap: map<Key, EntryId>)
    requires SharedInv(sh, ph) && inv < |sh.hist|
    requires forall k :: k in snap ==> sh.Linked(k) == Some(snap[k]) && snap[k] in sh.published
    requires forall k :: k !in snap ==> k !in sh.Current()
    ensures WalkOk(sh, inv, snap, snap.Keys, map[])
  {
    forall k | k in snap ensures Usable(sh, inv, k, snap[k]) {
      assert FoundOk(sh, k);
      LinkedUnclaimed(sh, 0, snap[k]);
    }
    forall k | k !in snap ensures Witness(sh.hist, inv, k, None) {
      assert Lookup(sh.hist[sh.Now()], k) == None;
    }
  }

  lemma EntryLoadOk(sh: Shared, ph: Phase, id: OpId, r: Running)
    requires SharedInv(sh, ph) && OpInv(sh, id, r) && r.pc.EntryLoad?
    ensures OpInv(sh, id, r.(pc := AfterEntryLoad(sh, r, r.pc.e, r.pc.how)))
  {
    var e, how := r.pc.e, r.pc.how;
    var pc' := AfterEntryLoad(sh, r, e, how);
    if sh.P(e).Val? && (r.op.Load? || r.op.LoadOrStore?) {
      PresentThen(sh, ph, r, e);
      assert e in sh.owner ==> sh.owner[e] != id;
    } else if !sh.P(e).Val? && !r.op.Swap? && !r.op.LoadOrStore? {
      AbsentThen(sh, ph, r, e);
    }
    EntryLoadMoves(sh, id, r);
  }

  lemma EntryLoadMoves(sh: Shared, id: OpId, r: Running)
    requires OpInv(sh, id, r) && r.pc.EntryLoad?
    requires var pc' := AfterEntryLoad(sh, r, r.pc.e, r.pc.how);
      OutOf(pc').Some? ==>
        Justified(sh.hist, r.op, r.inv, OutOf(pc').value) && !Writes(r.op, sh.hist[OutOf(pc').value.lin])
    ensures OpInv(sh, id, r.(pc := AfterEntryLoad(sh, r, r.pc.e, r.pc.how)))
  {
    ClaimsMove(sh, sh, id, r, AfterEntryLoad(sh, r, r.pc.e, r.pc.how));
  }

  /** A value read from an entry is right for now, or for the last moment before the entry left. */
  lemma PresentThen(sh: Shared, ph: Phase, r: Running, e: EntryId)
    requires SharedInv(sh, ph) && r.inv < |sh.hist|
    requires r.op.Load? || r.op.LoadOrStore?
    requires Usable(sh, r.inv, r.op.k, e) && sh.P(e).Val?
    requires r.op.LoadOrStore? ==> e in sh.published || sh.Linked(r.op.k) == Some(e)
    ensures var lin := if r.op.Load? then LastPresent(sh, e) else sh.Now();
      Justified(sh.hist, r.op, r.inv, Outcome(FoundValue(r.op, sh.P(e).v), lin)) && !Writes(r.op, sh.hist[lin])
  {
    if e in sh.gone {
      assert GoneEntry(sh, e) && OwnedEntry(sh, e) && FoundOk(sh, r.op.k);
    } else {
      assert Placed(sh, e);
      assert Lookup(sh.Current(), r.op.k) == sh.Seen(r.op.k);
    }
  }

  lemma CopyOk(sh: Shared, id: OpId, r: Running, pc': Pc)
    requires SharedInv(sh, PhaseOf(r)) && OpInv(sh, id, r) && r.pc.Copy? && Step(sh, id, r, sh, pc')
    ensures OpInv(sh, id, r.(pc := pc')) && PhaseOf(r.(pc := pc')) == PhaseOf(r)
  {
    var todo := r.pc.todo;
    if todo != {} {
      var k :| k in todo && pc' == CopyLoad(k, todo - {k});
      assert todo - {k} + {k} == todo;
    }
    ClaimsMove(sh, sh, id, r, pc');
  }

  lemma WalkEndOk(sh: Shared, id: OpId, r: Running)
    requires Sizes(sh) && OpInv(sh, id, r) && r.pc.Walk? && r.pc.todo == {}
    ensures OpInv(sh, id, r.(pc := Return(Outcome(Visited(r.pc.seen, true), sh.Now()))))
  {
    assert RangeOk(sh.hist, r.inv, r.pc.seen, true);
    assert sh.hist[..sh.Now() + 1] == sh.hist;
    ClaimsMove(sh, sh, id, r, Return(Outcome(Visited(r.pc.seen, true), sh.Now())));
  }

  lemma WalkStepOk(sh: Shared, ph: Phase, id: OpId, r: Running, k: Key, more: bool)
    requires SharedInv(sh, ph) && OpInv(sh, id, r) && r.pc.Walk? && k in r.pc.todo
    ensures OpInv(sh, id, r.(pc := AfterVisit(sh, r.pc.snap, r.pc.todo, r.pc.seen, k, more)))
  {
    var snap, todo, seen := r.pc.snap, r.pc.todo, r.pc.seen;
    VisitOk(sh, ph, r.inv, k, snap[k]);
    VisitKept(sh, r.inv, snap, todo, seen, k);
    WalkMoves(sh, id, r, k, more);
  }

  lemma WalkMoves(sh: Shared, id: OpId, r: Running, k: Key, more: bool)
    requires Sizes(sh) && OpInv(sh, id, r) && r.pc.Walk? && k in r.pc.todo
    requires var p := sh.P(r.pc.snap[k]); var seen' := if p.Val? then r.pc.seen[k := p.v] else r.pc.seen;
      WalkOk(sh, r.inv, r.pc.snap, r.pc.todo - {k}, seen') && RangeOk(sh.hist, r.inv, seen', false)
    ensures OpInv(sh, id, r.(pc := AfterVisit(sh, r.pc.snap, r.pc.todo, r.pc.seen, k, more)))
  {
    assert sh.hist[..sh.Now() + 1] == sh.hist;
    ClaimsMove(sh, sh, id, r, AfterVisit(sh, r.pc.snap, r.pc.todo, r.pc.seen, k, more));
  }

  lemma VisitKept(sh: Shared, inv: nat, snap: map<Key, EntryId>, todo: set<Key>, seen: Model, k: Key)
    requires WalkOk(sh, inv, snap, todo, seen) && k in todo
    requires Witness(sh.hist, inv, k, if sh.P(snap[k]).Val? then Some(sh.P(snap[k]).v) else None)
    ensures var seen' := if sh.P(snap[k]).Val? then seen[k := sh.P(snap[k]).v] else seen;
      WalkOk(sh, inv, snap, todo - {k}, seen') && RangeOk(sh.hist, inv, seen', false)
  {
    var seen' := if sh.P(snap[k]).Val? then seen[k := sh.P(snap[k]).v] else seen;
    forall x | x in snap && x !in todo - {k} ensures Witness(sh.hist, inv, x, Lookup(seen', x)) {
      if x != k { assert Lookup(seen', x) == Lookup(seen, x); }
    }
  }

  /** What Range reads from an entry was the plain map's value for its key at some moment of the call. */
  lemma VisitOk(sh: Shared, ph: Phase, inv: nat, k: Key, e: EntryId)
    requires SharedInv(sh, ph) && inv < |sh.hist| && Usable(sh, inv, k, e) && e in sh.published
    ensures Witness(sh.hist, inv, k, if sh.P(e).Val? then Some(sh.P(e).v) else None)
  {
    if e in sh.gone {
      assert GoneEntry(sh, e);
      assert Lookup(sh.hist[sh.gone[e]], k) == None;
    } else {
      assert Placed(sh, e);
      assert Lookup(sh.hist[sh.Now()], k) == sh.Seen(k);
    }
  }

  // ------------------------------------------------------------------------------------
  // Compare-and-swap on an entry
  // ------------------------------------------------------------------------------------

  /** The operation's answer and effect when it meets the pointer `p` for its key. */
  lemma AnswerAt(op: Op, m: Model, p: Ptr, id: OpId)
    requires !op.Range? && !op.Load? && !p.Expunged?
    requires op.LoadOrStore? ==> p.Nil?
    requires !op.Swap? && !op.LoadOrStore? ==> p.Val?
    requires Lookup(m, op.k) == (if p.Val? then Some(p.v) else None)
    ensures Answer(op, m) == (if p.Val? then FoundValue(op, p.v) else NotFound(op))
    ensures Writes(op, m) && OnlyAt(Effect(op, m), m, op.k, NewPtr(id, op)) && !NewPtr(id, op).Expunged?
  {
  }

  lemma EntryCasOk(sh: Shared, ph: Phase, id: OpId, r: Running)
    requires SharedInv(sh, ph) && OpInv(sh, id, r) && r.pc.EntryCas?
    ensures var (sh', pc') := AfterEntryCas(sh, id, r, r.pc.e, r.pc.p, r.pc.how);
      && SharedInv(sh', ph) && Advance(sh, sh', id) && Unmoved(sh, sh') && sh'.lock == sh.lock
      && OpInv(sh', id, r.(pc := pc'))
  {
    var e, p, how := r.pc.e, r.pc.p, r.pc.how;
    if sh.P(e) != p {
      LockShared(sh, ph, id, sh.lock);
      assert sh.(lock := sh.lock) == sh;
      ClaimsMove(sh, sh, id, r, EntryLoad(e, how));
    } else if e in sh.gone {
      assert GoneEntry(sh, e);
      assert e !in sh.published;
      CasOnGone(sh, ph, id, r);
    } else {
      CasOnLinked(sh, ph, id, r);
    }
  }

  /** The state and program counter a winning compare-and-swap leads to. */
  ghost predicate CasWins(sh: Shared, id: OpId, r: Running) {
    r.pc.EntryCas? && sh.P(r.pc.e) == r.pc.p && OpInv(sh, id, r)
  }

  lemma CasOnLinked(sh: Shared, ph: Phase, id: OpId, r: Running)
    requires SharedInv(sh, ph) && CasWins(sh, id, r) && r.pc.e !in sh.gone
    ensures var (sh', pc') := AfterEntryCas(sh, id, r, r.pc.e, r.pc.p, r.pc.how);
      && SharedInv(sh', ph) && Advance(sh, sh', id) && Unmoved(sh, sh') && sh'.lock == sh.lock
      && OpInv(sh', id, r.(pc := pc'))
  {
    var e, p, how := r.pc.e, r.pc.p, r.pc.how;
    assert Placed(sh, e);
    assert Lookup(sh.Current(), r.op.k) == sh.Seen(r.op.k);
    AnswerAt(r.op, sh.Current(), p, id);
    SwingShared(sh, ph, id, r.op, e, NewPtr(id, r.op));
    LinkedUnclaimed(sh, id, e);
    CasLogged(sh, id, r);
  }

  lemma CasLogged(sh: Shared, id: OpId, r: Running)
    requires Sizes(sh) && CasWins(sh, id, r) && r.pc.e !in sh.gone && r.pc.e !in sh.owner
    requires Writes(r.op, sh.Current())
    requires Answer(r.op, sh.Current()) == (if r.pc.p.Val? then FoundValue(r.op, r.pc.p.v) else NotFound(r.op))
    ensures var (sh', pc') := AfterEntryCas(sh, id, r, r.pc.e, r.pc.p, r.pc.how); OpInv(sh', id, r.(pc := pc'))
  {
    var (sh', pc') := AfterEntryCas(sh, id, r, r.pc.e, r.pc.p, r.pc.how);
    assert sh'.hist[sh.Now()] == sh.Current();
    assert Justified(sh'.hist, r.op, r.inv, OutOf(pc').value);
    ClaimsLog(sh, sh', id, r, pc');
  }

  lemma CasOnGone(sh: Shared, ph: Phase, id: OpId, r: Running)
    requires SharedInv(sh, ph) && CasWins(sh, id, r) && r.pc.e in sh.gone && r.pc.e !in sh.published
    ensures var (sh', pc') := AfterEntryCas(sh, id, r, r.pc.e, r.pc.p, r.pc.how);
      && SharedInv(sh', ph) && Advance(sh, sh', id) && Unmoved(sh, sh') && sh'.lock == sh.lock
      && OpInv(sh', id, r.(pc := pc'))
  {
    hide Links, Published, Gone, Denotes, Shape, Advance, OpInv;
    GoneTarget(sh, ph, id, r);
    TakeOverShared(sh, ph, id, r.pc.e);
    CasTaken(sh, id, r);
  }

  /** Only the two deletes can still be holding an entry that left the map and was never published. */
  lemma GoneTarget(sh: Shared, ph: Phase, id: OpId, r: Running)
    requires SharedInv(sh, ph) && CasWins(sh, id, r) && r.pc.e in sh.gone && r.pc.e !in sh.published
    ensures (r.op.LoadAndDelete? || r.op.CompareAndDelete?) && r.pc.p.Val?
  {
    assert FoundOk(sh, r.op.k);
  }

  lemma CasTaken(sh: Shared, id: OpId, r: Running)
    requires Sizes(sh) && CasWins(sh, id, r) && (r.op.LoadAndDelete? || r.op.CompareAndDelete?)
    requires r.pc.e in sh.owner && OwnedEntry(sh, r.pc.e)
    ensures var (sh', pc') := AfterEntryCas(sh, id, r, r.pc.e, r.pc.p, r.pc.how); OpInv(sh', id, r.(pc := pc'))
  {
    var (sh', pc') := AfterEntryCas(sh, id, r, r.pc.e, r.pc.p, r.pc.how);
    assert Justified(sh'.hist, r.op, r.inv, OutOf(pc').value);
    ClaimsTaken(sh, sh', id, r, pc');
  }

  /** The change of an orphan now counts as made by the operation that swung it to nil. */
  lemma ClaimsTaken(sh: Shared, sh': Shared, id: OpId, r: Running, pc': Pc)
    requires Claims(sh, id, r) && HeldBy(r.pc).Some? && OutOf(r.pc).None?
    requires var e := HeldBy(r.pc).value;
      && e in sh.owner && OwnedEntry(sh, e) && sh.P(e).Val?
      && sh'.owner == sh.owner && sh'.writer == sh.writer[sh.gone[e] - 1 := id] && sh'.P(e).Nil?
      && (forall x {:trigger sh'.P(x)} :: x != e ==> sh'.P(x) == sh.P(x))
      && Claim(sh', id, r.(pc := pc')) == Some(sh.gone[e] - 1)
    ensures Claims(sh', id, r.(pc := pc'))
  {
    var e := HeldBy(r.pc).value;
    var c := Claim(sh, id, r);
    forall t | 0 <= t < |sh'.writer| ensures sh'.writer[t] == id <==> t == sh.gone[e] - 1 {
      assert sh.writer[t] == id <==> c == Some(t);
    }
  }

  // ------------------------------------------------------------------------------------
  // Steps of the lock holder
  // ------------------------------------------------------------------------------------

  /** What a step of the lock holder, or one taking or giving up the lock, has to establish. */
  ghost predicate StepKeeps(sh: Shared, id: OpId, r: Running, sh': Shared, pc': Pc) {
    SharedInv(sh', PhaseOf(r.(pc := pc'))) && Advance(sh, sh', id) && OpInv(sh', id, r.(pc := pc'))
  }

  /** Nothing happens to the shared state. */
  lemma Still(sh: Shared, ph: Phase, id: OpId)
    requires SharedInv(sh, ph)
    ensures Advance(sh, sh, id) && Unmoved(sh, sh)
  {
    LockShared(sh, ph, id, sh.lock);
    assert sh.(lock := sh.lock) == sh;
  }

  lemma UnexpungeOk(sh: Shared, id: OpId, r: Running)
    requires SharedInv(sh, Normal) && OpInv(sh, id, r) && r.pc.Unexpunge?
    ensures var (sh', pc') := AfterUnexpunge(sh, r.op, r.pc.e); StepKeeps(sh, id, r, sh', pc') && sh'.lock == sh.lock
  {
    UnexpungeStep(sh, id, r);
    UnexpungeMoves(sh, id, r);
  }

  lemma UnexpungeStep(sh: Shared, id: OpId, r: Running)
    requires SharedInv(sh, Normal) && r.pc.Unexpunge? && (r.op.Swap? || r.op.LoadOrStore?)
    requires r.op.k in sh.read.m && sh.read.m[r.op.k] == r.pc.e
    ensures var (sh', pc') := AfterUnexpunge(sh, r.op, r.pc.e);
      SharedInv(sh', PhaseOf(r.(pc := pc'))) && Advance(sh, sh', id)
    ensures FoundOk(sh, r.op.k) && r.pc.e !in sh.owner
  {
    var e := r.pc.e;
    assert sh.Linked(r.op.k) == Some(e) && FoundOk(sh, r.op.k);
    LinkedUnclaimed(sh, id, e);
    if sh.P(e).Expunged? {
      UnexpungeShared(sh, id, r.op.k, e);
    } else {
      Still(sh, Normal, id);
    }
  }

  lemma UnexpungeMoves(sh: Shared, id: OpId, r: Running)
    requires OpInv(sh, id, r) && r.pc.Unexpunge? && FoundOk(sh, r.op.k) && r.pc.e !in sh.owner
    ensures var (sh', pc') := AfterUnexpunge(sh, r.op, r.pc.e); OpInv(sh', id, r.(pc := pc')) && sh'.lock == sh.lock
  {
    var (sh', pc') := AfterUnexpunge(sh, r.op, r.pc.e);
    assert sh.Linked(r.op.k) == Some(r.pc.e);
    ClaimsMove(sh, sh', id, r, pc');
  }

  lemma RelinkOk(sh: Shared, id: OpId, r: Running)
    requires SharedInv(sh, PhaseOf(r)) && OpInv(sh, id, r) && r.pc.Relink?
    ensures var (sh', pc') := AfterRelink(sh, r.op, r.pc.e); StepKeeps(sh, id, r, sh', pc') && sh'.lock == sh.lock
  {
    RelinkStep(sh, id, r);
    RelinkMoves(sh, id, r);
  }

  lemma RelinkStep(sh: Shared, id: OpId, r: Running)
    requires SharedInv(sh, PhaseOf(r)) && r.pc.Relink? && (r.op.Swap? || r.op.LoadOrStore?)
    ensures var (sh', pc') := AfterRelink(sh, r.op, r.pc.e);
      SharedInv(sh', PhaseOf(r.(pc := pc'))) && Advance(sh, sh', id)
    ensures sh.dirty.Some? && sh.Linked(r.op.k) == Some(r.pc.e) && FoundOk(sh, r.op.k)
    ensures r.pc.e !in sh.owner && !sh.P(r.pc.e).Expunged? && r.op.k in sh.read.m
  {
    assert sh.Linked(r.op.k) == Some(r.pc.e) && FoundOk(sh, r.op.k);
    LinkedUnclaimed(sh, id, r.pc.e);
    RelinkShared(sh, id, r.op.k, r.pc.e);
  }

  lemma RelinkMoves(sh: Shared, id: OpId, r: Running)
    requires OpInv(sh, id, r) && r.pc.Relink? && sh.dirty.Some?
    requires sh.Linked(r.op.k) == Some(r.pc.e) && FoundOk(sh, r.op.k) && r.op.k in sh.read.m
    requires r.pc.e !in sh.owner && !sh.P(r.pc.e).Expunged?
    ensures var (sh', pc') := AfterRelink(sh, r.op, r.pc.e); OpInv(sh', id, r.(pc := pc')) && sh'.lock == sh.lock
  {
    var (sh', pc') := AfterRelink(sh, r.op, r.pc.e);
    ClaimsMove(sh, sh', id, r, pc');
  }

  lemma SwapInOk(sh: Shared, id: OpId, r: Running)
    requires SharedInv(sh, Normal) && OpInv(sh, id, r) && r.pc.SwapIn?
    ensures var (sh', pc') := AfterSwapIn(sh, id, r.op, r.pc.e); StepKeeps(sh, id, r, sh', pc') && sh'.lock == sh.lock
  {
    var e := r.pc.e;
    assert FoundOk(sh, r.op.k);
    assert Lookup(sh.Current(), r.op.k) == sh.Seen(r.op.k);
    AnswerAt(r.op, sh.Current(), sh.P(e), id);
    SwingShared(sh, Normal, id, r.op, e, NewPtr(id, r.op));
    LinkedUnclaimed(sh, id, e);
    SwapInLogged(sh, id, r);
  }

  lemma SwapInLogged(sh: Shared, id: OpId, r: Running)
    requires Sizes(sh) && OpInv(sh, id, r) && r.pc.SwapIn? && r.pc.e !in sh.owner
    requires Answer(r.op, sh.Current())
      == (if sh.P(r.pc.e).Val? then FoundValue(r.op, sh.P(r.pc.e).v) else NotFound(r.op))
    ensures var (sh', pc') := AfterSwapIn(sh, id, r.op, r.pc.e); OpInv(sh', id, r.(pc := pc'))
  {
    var (sh', pc') := AfterSwapIn(sh, id, r.op, r.pc.e);
    assert sh'.hist[sh.Now()] == sh.Current();
    assert Justified(sh'.hist, r.op, r.inv, OutOf(pc').value);
    ClaimsLog(sh, sh', id, r, pc');
  }

  lemma CopyLoadOk(sh: Shared, id: OpId, r: Running)
    requires SharedInv(sh, PhaseOf(r)) && OpInv(sh, id, r) && r.pc.CopyLoad?
    ensures var (sh', pc') := AfterCopyLoad(sh, r.pc.k, r.pc.todo);
      StepKeeps(sh, id, r, sh', pc') && sh'.lock == sh.lock
  {
    hide Links, Published, Gone, Denotes, Shape, Advance;
    CopyLoadStep(sh, id, r);
    CopyLoadMoves(sh, id, r);
  }

  lemma CopyLoadStep(sh: Shared, id: OpId, r: Running)
    requires SharedInv(sh, PhaseOf(r)) && r.pc.CopyLoad? && r.pc.k !in r.pc.todo
    ensures var (sh', pc') := AfterCopyLoad(sh, r.pc.k, r.pc.todo);
      SharedInv(sh', PhaseOf(r.(pc := pc'))) && Advance(sh, sh', id) && !pc'.Broken?
  {
    hide Links, Published, Gone, Denotes, Shape, Advance, OpInv;
    CopyShared(sh, id, r.pc.k, r.pc.todo);
    Still(sh, PhaseOf(r), id);
  }

  lemma CopyLoadMoves(sh: Shared, id: OpId, r: Running)
    requires OpInv(sh, id, r) && r.pc.CopyLoad? && !AfterCopyLoad(sh, r.pc.k, r.pc.todo).1.Broken?
    ensures var (sh', pc') := AfterCopyLoad(sh, r.pc.k, r.pc.todo); OpInv(sh', id, r.(pc := pc')) && sh'.lock == sh.lock
  {
    var (sh', pc') := AfterCopyLoad(sh, r.pc.k, r.pc.todo);
    ClaimsMove(sh, sh', id, r, pc');
  }

  lemma CopyCasOk(sh: Shared, id: OpId, r: Running)
    requires SharedInv(sh, PhaseOf(r)) && OpInv(sh, id, r) && r.pc.CopyCas?
    ensures var (sh', pc') := AfterCopyCas(sh, r.pc.k, r.pc.todo); StepKeeps(sh, id, r, sh', pc') && sh'.lock == sh.lock
  {
    hide Links, Published, Gone, Denotes, Shape, Advance;
    CopyEntry(sh, PhaseOf(r), id, r.pc.k, r.pc.todo);
    CopyCasShared(sh, id, r);
    CopyCasMoves(sh, id, r);
  }

  lemma CopyCasShared(sh: Shared, id: OpId, r: Running)
    requires SharedInv(sh, PhaseOf(r)) && r.pc.CopyCas? && r.pc.k !in r.pc.todo && r.pc.k in sh.read.m
    ensures var (sh', pc') := AfterCopyCas(sh, r.pc.k, r.pc.todo);
      SharedInv(sh', PhaseOf(r.(pc := pc'))) && Advance(sh, sh', id)
  {
    hide Links, Published, Gone, Denotes, Shape, Advance, OpInv;
    if sh.P(sh.read.m[r.pc.k]).Nil? {
      ExpungeShared(sh, id, r.pc.k, r.pc.todo);
    } else {
      Still(sh, PhaseOf(r), id);
    }
  }

  lemma CopyEntry(sh: Shared, ph: Phase, id: OpId, k: Key, todo: set<Key>)
    requires SharedInv(sh, ph) && ph == Copying(todo + {k})
    ensures k in sh.read.m && sh.read.m[k] !in sh.owner
  {
    assert k in todo + {k};
    assert sh.Linked(k) == Some(sh.read.m[k]) && FoundOk(sh, k);
    LinkedUnclaimed(sh, id, sh.read.m[k]);
  }

  lemma CopyCasMoves(sh: Shared, id: OpId, r: Running)
    requires OpInv(sh, id, r) && r.pc.CopyCas? && r.pc.k in sh.read.m && sh.read.m[r.pc.k] !in sh.owner
    ensures var (sh', pc') := AfterCopyCas(sh, r.pc.k, r.pc.todo); OpInv(sh', id, r.(pc := pc'))
  {
    var (sh', pc') := AfterCopyCas(sh, r.pc.k, r.pc.todo);
    ClaimsMove(sh, sh', id, r, pc');
  }

  lemma MarkOk(sh: Shared, id: OpId, r: Running)
    requires SharedInv(sh, PhaseOf(r)) && OpInv(sh, id, r) && r.pc.Mark?
    ensures var sh' := sh.(read := ReadOnly(sh.read.m, true)); StepKeeps(sh, id, r, sh', Insert)
  {
    hide Links, Published, Gone, Denotes, Shape, Advance, OpInv;
    MarkShared(sh, id);
    MarkMoves(sh, id, r);
  }

  lemma MarkMoves(sh: Shared, id: OpId, r: Running)
    requires OpInv(sh, id, r) && r.pc.Mark?
    ensures OpInv(sh.(read := ReadOnly(sh.read.m, true)), id, r.(pc := Insert))
  {
    ClaimsMove(sh, sh.(read := ReadOnly(sh.read.m, true)), id, r, Insert);
  }

  lemma InsertOk(sh: Shared, id: OpId, r: Running)
    requires SharedInv(sh, PhaseOf(r)) && OpInv(sh, id, r) && r.pc.Insert?
    ensures var (sh', pc') := AfterInsert(sh, id, r.op); StepKeeps(sh, id, r, sh', pc') && sh'.lock == sh.lock
  {
    hide Links, Published, Gone, Denotes, Shape, Advance;
    InsertAbsent(sh, r.op);
    InsertShared(sh, id, r.op);
    InsertLogged(sh, id, r);
  }

  lemma InsertAbsent(sh: Shared, op: Op)
    requires Denotes(sh) && Shape(sh, Slack) && Absent(sh, op)
    ensures sh.dirty.Some? && op.k !in sh.Current()
  {
    assert Lookup(sh.Current(), op.k) == sh.Seen(op.k);
  }

  lemma InsertLogged(sh: Shared, id: OpId, r: Running)
    requires Sizes(sh) && Gone(sh) && OpInv(sh, id, r) && r.pc.Insert? && sh.dirty.Some? && r.op.k !in sh.Current()
    ensures var (sh', pc') := AfterInsert(sh, id, r.op); OpInv(sh', id, r.(pc := pc'))
  {
    var (sh', pc') := AfterInsert(sh, id, r.op);
    forall e | e in sh.owner ensures sh'.P(e) == sh.P(e) { assert OwnedEntry(sh, e); }
    assert sh'.hist[sh.Now()] == sh.Current();
    assert Justified(sh'.hist, r.op, r.inv, OutOf(pc').value);
    ClaimsLog(sh, sh', id, r, pc');
  }

  lemma MissOk(sh: Shared, id: OpId, r: Running)
    requires SharedInv(sh, PhaseOf(r)) && OpInv(sh, id, r) && r.pc.Miss?
    ensures var (sh', pc') := AfterMiss(sh, r.pc.next); StepKeeps(sh, id, r, sh', pc') && sh'.lock == sh.lock
  {
    hide Links, Published, Gone, Denotes, Shape, Advance, OpInv;
    MissSharedStep(sh, id, r);
    MissMoves(sh, id, r);
  }

  lemma MissSharedStep(sh: Shared, id: OpId, r: Running)
    requires SharedInv(sh, Slack) && r.pc.Miss?
    ensures var (sh', pc') := AfterMiss(sh, r.pc.next); SharedInv(sh', PhaseOf(r.(pc := pc'))) && Advance(sh, sh', id)
  {
    hide Links, Published, Gone, Denotes, Shape, Advance, OpInv;
    MissShared(sh, id);
  }

  lemma MissMoves(sh: Shared, id: OpId, r: Running)
    requires Sizes(sh) && Gone(sh) && OpInv(sh, id, r) && r.pc.Miss?
    requires Advance(sh, AfterMiss(sh, r.pc.next).0, id)
    ensures var (sh', pc') := AfterMiss(sh, r.pc.next); OpInv(sh', id, r.(pc := pc'))
  {
    var (sh', pc') := AfterMiss(sh, r.pc.next);
    NextMoves(sh, sh', id, r, pc', r.pc.next);
  }

  /** The part of a critical section's tail that does not touch the entries' values. */
  ghost predicate Tail(sh: Shared, sh': Shared, id: OpId, r: Running, pc': Pc, next: Next) {
    && Advance(sh, sh', id) && Sizes(sh) && Gone(sh) && OpInv(sh, id, r)
    && (r.pc == Miss(next) || r.pc == PromoteStore(next) || r.pc == PromoteClear(next))
    && (pc' == PromoteStore(next) || pc' == PromoteClear(next) || pc' == Unlock(next))
    && sh'.hist == sh.hist && sh'.writer == sh.writer && sh'.owner == sh.owner
    && sh'.heap == sh.heap && sh'.lock == sh.lock
  }

  /** What follows the critical section stays as planned. */
  lemma NextMoves(sh: Shared, sh': Shared, id: OpId, r: Running, pc': Pc, next: Next)
    requires Tail(sh, sh', id, r, pc', next)
    requires pc'.PromoteStore? ==> !next.Scan?
    requires next.Scan? ==> forall k :: k in next.snap ==> next.snap[k] in sh'.published
    ensures OpInv(sh', id, r.(pc := pc'))
  {
    match next
    case Finish(_) => FinishMoves(sh, sh', id, r, pc', next);
    case Entry(_) => EntryMoves(sh, sh', id, r, pc', next);
    case Scan(_) => ScanMoves(sh, sh', id, r, pc', next);
  }

  lemma FinishMoves(sh: Shared, sh': Shared, id: OpId, r: Running, pc': Pc, next: Next)
    requires Tail(sh, sh', id, r, pc', next) && next.Finish?
    ensures OpInv(sh', id, r.(pc := pc'))
  {
    ClaimsMove(sh, sh', id, r, pc');
  }

  lemma EntryMoves(sh: Shared, sh': Shared, id: OpId, r: Running, pc': Pc, next: Next)
    requires Tail(sh, sh', id, r, pc', next) && next.Entry?
    ensures OpInv(sh', id, r.(pc := pc'))
  {
    var e := next.e;
    UsableKept(sh, sh', id, r.inv, r.op.k, e);
    SameEntryClaim(sh, sh', id, e);
    EntryPlanned(sh, sh', id, r, pc', next);
  }

  lemma SameEntryClaim(sh: Shared, sh': Shared, id: OpId, e: EntryId)
    requires Gone(sh) && sh'.owner == sh.owner && sh'.P(e) == sh.P(e)
    requires e in sh.gone ==> e in sh'.gone && sh'.gone[e] == sh.gone[e]
    ensures EntryClaim(sh', id, e) == EntryClaim(sh, id, e)
  {
    if e in sh.owner { assert OwnedEntry(sh, e); }
  }

  lemma EntryPlanned(sh: Shared, sh': Shared, id: OpId, r: Running, pc': Pc, next: Next)
    requires OpInv(sh, id, r) && next.Entry?
    requires r.pc == Miss(next) || r.pc == PromoteStore(next) || r.pc == PromoteClear(next)
    requires pc' == PromoteStore(next) || pc' == PromoteClear(next) || pc' == Unlock(next)
    requires sh'.hist == sh.hist && sh'.writer == sh.writer && sh'.owner == sh.owner
    requires sh'.heap == sh.heap && sh'.lock == sh.lock
    requires Usable(sh', r.inv, r.op.k, next.e) && EntryClaim(sh', id, next.e) == EntryClaim(sh, id, next.e)
    ensures OpInv(sh', id, r.(pc := pc'))
  {
    ClaimsMove(sh, sh', id, r, pc');
  }

  lemma ScanMoves(sh: Shared, sh': Shared, id: OpId, r: Running, pc': Pc, next: Next)
    requires Tail(sh, sh', id, r, pc', next) && next.Scan? && !pc'.PromoteStore?
    requires forall k :: k in next.snap ==> next.snap[k] in sh'.published
    ensures OpInv(sh', id, r.(pc := pc'))
  {
    forall k | k in next.snap ensures Usable(sh', r.inv, k, next.snap[k]) {
      UsableKept(sh, sh', id, r.inv, k, next.snap[k]);
    }
    ClaimsMove(sh, sh', id, r, pc');
  }

  lemma PromoteStoreOk(sh: Shared, id: OpId, r: Running)
    requires SharedInv(sh, PhaseOf(r)) && OpInv(sh, id, r) && r.pc.PromoteStore?
    ensures StepKeeps(sh, id, r, AfterPromoteStore(sh), PromoteClear(r.pc.next))
    ensures AfterPromoteStore(sh).lock == sh.lock
  {
    hide Links, Published, Gone, Denotes, Shape, Advance, OpInv;
    PromoteShared(sh, id);
    PromoteMoves(sh, id, r);
  }

  lemma PromoteMoves(sh: Shared, id: OpId, r: Running)
    requires Sizes(sh) && Gone(sh) && OpInv(sh, id, r) && r.pc.PromoteStore?
    requires Advance(sh, AfterPromoteStore(sh), id) && Published(AfterPromoteStore(sh))
    ensures OpInv(AfterPromoteStore(sh), id, r.(pc := PromoteClear(r.pc.next)))
  {
    NextMoves(sh, AfterPromoteStore(sh), id, r, PromoteClear(r.pc.next), r.pc.next);
  }

  lemma PromoteClearOk(sh: Shared, id: OpId, r: Running)
    requires SharedInv(sh, PhaseOf(r)) && OpInv(sh, id, r) && r.pc.PromoteClear?
    ensures StepKeeps(sh, id, r, sh.(dirty := None, misses := 0), Unlock(r.pc.next))
  {
    hide Links, Published, Gone, Denotes, Shape, Advance;
    ClearShared(sh, id);
    NextMoves(sh, sh.(dirty := None, misses := 0), id, r, Unlock(r.pc.next), r.pc.next);
  }

  lemma UnlockOk(sh: Shared, id: OpId, r: Running)
    requires SharedInv(sh, PhaseOf(r)) && OpInv(sh, id, r) && r.pc.Unlock?
    ensures StepKeeps(sh, id, r, sh.(lock := None), AfterUnlock(r.pc.next))
  {
    hide Links, Published, Gone, Denotes, Shape, Advance, OpInv;
    LockShared(sh, Normal, id, None);
    match r.pc.next
    case Finish(_) => UnlockFinish(sh, id, r);
    case Entry(_) => UnlockEntry(sh, id, r);
    case Scan(_) => UnlockScan(sh, id, r);
  }

  lemma UnlockFinish(sh: Shared, id: OpId, r: Running)
    requires OpInv(sh, id, r) && r.pc.Unlock? && r.pc.next.Finish?
    ensures OpInv(sh.(lock := None), id, r.(pc := AfterUnlock(r.pc.next)))
  {
    ClaimsMove(sh, sh.(lock := None), id, r, AfterUnlock(r.pc.next));
  }

  lemma UnlockEntry(sh: Shared, id: OpId, r: Running)
    requires OpInv(sh, id, r) && r.pc.Unlock? && r.pc.next.Entry?
    ensures OpInv(sh.(lock := None), id, r.(pc := AfterUnlock(r.pc.next)))
  {
    assert Usable(sh.(lock := None), r.inv, r.op.k, r.pc.next.e);
    ClaimsMove(sh, sh.(lock := None), id, r, AfterUnlock(r.pc.next));
  }

  lemma UnlockScan(sh: Shared, id: OpId, r: Running)
    requires OpInv(sh, id, r) && r.pc.Unlock? && r.pc.next.Scan?
    ensures OpInv(sh.(lock := None), id, r.(pc := AfterUnlock(r.pc.next)))
  {
    var snap := r.pc.next.snap;
    forall k | k in snap ensures Usable(sh.(lock := None), r.inv, k, snap[k]) {
      assert Usable(sh, r.inv, k, snap[k]);
    }
    ClaimsMove(sh, sh.(lock := None), id, r, AfterUnlock(r.pc.next));
  }

  lemma WantLockOk(sh: Shared, ph: Phase, id: OpId, r: Running)
    requires SharedInv(sh, ph) && OpInv(sh, id, r) && r.pc.WantLock?
    ensures var sh' := sh.(lock := Some(id));
      SharedInv(sh', ph) && Advance(sh, sh', id) && Unmoved(sh, sh') && OpInv(sh', id, r.(pc := Locked))
  {
    LockShared(sh, ph, id, Some(id));
    ClaimsMove(sh, sh.(lock := Some(id)), id, r, Locked);
  }

  // ------------------------------------------------------------------------------------
  // The first action under the mutex
  // ------------------------------------------------------------------------------------

  /** An entry found under the mutex may be used, and is nobody's pending deletion. */
  lemma FoundUsable(sh: Shared, ph: Phase, id: OpId, inv: nat, k: Key, e: EntryId)
    requires SharedInv(sh, ph) && inv < |sh.hist| && sh.Linked(k) == Some(e)
    ensures Usable(sh, inv, k, e) && EntryClaim(sh, id, e).None? && e !in sh.owner
  {
    assert FoundOk(sh, k);
    LinkedUnclaimed(sh, id, e);
  }

  lemma LockedRange(sh: Shared, id: OpId, r: Running)
    requires SharedInv(sh, Normal) && OpInv(sh, id, r) && r.pc.Locked? && r.op.Range?
    ensures var (sh', pc') := AfterLocked(sh, id, r.op); StepKeeps(sh, id, r, sh', pc') && sh'.lock == sh.lock
  {
    var pc' := AfterLocked(sh, id, r.op).1;
    var snap := if sh.read.amended then sh.Dirty() else sh.read.m;
    Still(sh, Normal, id);
    RangeStarts(sh, id, r.inv, snap);
    ClaimsMove(sh, sh, id, r, pc');
  }

  lemma RangeStarts(sh: Shared, id: OpId, inv: nat, snap: map<Key, EntryId>)
    requires SharedInv(sh, Normal) && inv < |sh.hist|
    requires snap == if sh.read.amended then sh.Dirty() else sh.read.m
    ensures forall k :: k in snap ==> Usable(sh, inv, k, snap[k])
    ensures forall k :: k !in snap ==> Witness(sh.hist, inv, k, None)
    ensures !sh.read.amended ==> forall k :: k in snap ==> snap[k] in sh.published
  {
    forall k | k in snap ensures Usable(sh, inv, k, snap[k]) {
      if sh.read.amended { assert SharedEntry(sh, k); }
      FoundUsable(sh, Normal, id, inv, k, snap[k]);
    }
    forall k | k !in snap ensures Witness(sh.hist, inv, k, None) {
      assert sh.Seen(k).None?;
      assert Lookup(sh.hist[sh.Now()], k) == sh.Seen(k);
    }
  }

  lemma LockedCas(sh: Shared, id: OpId, r: Running)
    requires SharedInv(sh, Normal) && OpInv(sh, id, r) && r.pc.Locked? && r.op.CompareAndSwap?
    ensures var (sh', pc') := AfterLocked(sh, id, r.op); StepKeeps(sh, id, r, sh', pc') && sh'.lock == sh.lock
  {
    var pc' := AfterLocked(sh, id, r.op).1;
    Still(sh, Normal, id);
    if sh.Linked(r.op.k).Some? {
      FoundUsable(sh, Normal, id, r.inv, r.op.k, sh.Linked(r.op.k).value);
    } else {
      AbsentNow(sh, r.op, r.inv);
    }
    ClaimsMove(sh, sh, id, r, pc');
  }

  lemma LockedStore(sh: Shared, id: OpId, r: Running)
    requires SharedInv(sh, Normal) && OpInv(sh, id, r) && r.pc.Locked? && (r.op.Swap? || r.op.LoadOrStore?)
    ensures var (sh', pc') := AfterLocked(sh, id, r.op); StepKeeps(sh, id, r, sh', pc') && sh'.lock == sh.lock
  {
    var k := r.op.k;
    if sh.Linked(k).Some? {
      Still(sh, Normal, id);
      FoundUsable(sh, Normal, id, r.inv, k, sh.Linked(k).value);
      assert k !in sh.read.m ==> SharedEntry(sh, k);
      LockedStoreFound(sh, id, r);
    } else {
      LockedStoreAbsent(sh, id, r);
      LockedStoreMoves(sh, id, r);
    }
  }

  lemma LockedStoreFound(sh: Shared, id: OpId, r: Running)
    requires OpInv(sh, id, r) && r.pc.Locked? && (r.op.Swap? || r.op.LoadOrStore?)
    requires sh.Linked(r.op.k).Some? && sh.Linked(r.op.k).value !in sh.owner
    requires Usable(sh, r.inv, r.op.k, sh.Linked(r.op.k).value)
    requires r.op.k !in sh.read.m ==> SharedEntry(sh, r.op.k) && sh.read.amended
    ensures var (sh', pc') := AfterLocked(sh, id, r.op);
      sh' == sh && OpInv(sh, id, r.(pc := pc')) && PhaseOf(r.(pc := pc')) == Normal
  {
    ClaimsMove(sh, sh, id, r, AfterLocked(sh, id, r.op).1);
  }

  lemma LockedStoreAbsent(sh: Shared, id: OpId, r: Running)
    requires SharedInv(sh, Normal) && (r.op.Swap? || r.op.LoadOrStore?) && sh.Linked(r.op.k).None?
    ensures var (sh', pc') := AfterLocked(sh, id, r.op); SharedInv(sh', PhaseOf(r.(pc := pc'))) && Advance(sh, sh', id)
    ensures !sh.read.amended ==> sh.dirty.None?
  {
    hide Links, Published, Gone, Denotes, Shape, Advance, OpInv;
    if sh.read.amended {
      Still(sh, Normal, id);
      NormalToSlack(sh);
    } else {
      StartCopyShared(sh, id);
    }
  }

  lemma NormalToSlack(sh: Shared)
    requires SharedInv(sh, Normal) && sh.read.amended
    ensures SharedInv(sh, Slack)
  {
  }

  lemma LockedStoreMoves(sh: Shared, id: OpId, r: Running)
    requires OpInv(sh, id, r) && r.pc.Locked? && (r.op.Swap? || r.op.LoadOrStore?) && sh.Linked(r.op.k).None?
    requires !sh.read.amended ==> sh.dirty.None?
    ensures var (sh', pc') := AfterLocked(sh, id, r.op); OpInv(sh', id, r.(pc := pc')) && sh'.lock == sh.lock
  {
    var (sh', pc') := AfterLocked(sh, id, r.op);
    ClaimsMove(sh, sh', id, r, pc');
  }

  lemma LockedLookup(sh: Shared, id: OpId, r: Running)
    requires SharedInv(sh, Normal) && OpInv(sh, id, r) && r.pc.Locked?
    requires r.op.Load? || r.op.LoadAndDelete? || r.op.CompareAndDelete?
    ensures var (sh', pc') := AfterLocked(sh, id, r.op); StepKeeps(sh, id, r, sh', pc') && sh'.lock == sh.lock
  {
    var k := r.op.k;
    if r.op.LoadAndDelete? && k !in sh.read.m && sh.read.amended && k in sh.Dirty() {
      LockedUnlink(sh, id, r);
    } else {
      Still(sh, Normal, id);
      LockedLookupShape(sh, id, r);
      if sh.Linked(k).Some? {
        FoundUsable(sh, Normal, id, r.inv, k, sh.Linked(k).value);
      } else {
        AbsentNow(sh, r.op, r.inv);
      }
      LockedLookupMoves(sh, id, r);
    }
  }

  lemma LockedLookupShape(sh: Shared, id: OpId, r: Running)
    requires SharedInv(sh, Normal) && !r.op.Range?
    ensures SharedInv(sh, PhaseOf(r.(pc := LookupLocked(sh, id, r.op).1)))
    ensures r.op.k in sh.Dirty() ==> sh.read.amended
  {
  }

  lemma LockedLookupMoves(sh: Shared, id: OpId, r: Running)
    requires OpInv(sh, id, r) && r.pc.Locked?
    requires r.op.Load? || r.op.LoadAndDelete? || r.op.CompareAndDelete?
    requires LookupLocked(sh, id, r.op).0 == sh && (r.op.k in sh.Dirty() ==> sh.read.amended)
    requires sh.Linked(r.op.k).Some? ==>
      Usable(sh, r.inv, r.op.k, sh.Linked(r.op.k).value) && sh.Linked(r.op.k).value !in sh.owner
    requires sh.Linked(r.op.k).None? ==>
      Justified(sh.hist, r.op, r.inv, Outcome(NotFound(r.op), sh.Now())) && !Writes(r.op, sh.hist[sh.Now()])
    ensures OpInv(sh, id, r.(pc := LookupLocked(sh, id, r.op).1))
  {
    ClaimsMove(sh, sh, id, r, LookupLocked(sh, id, r.op).1);
  }

  lemma LockedUnlink(sh: Shared, id: OpId, r: Running)
    requires SharedInv(sh, Normal) && OpInv(sh, id, r) && r.pc.Locked? && r.op.LoadAndDelete?
    requires r.op.k !in sh.read.m && sh.read.amended && r.op.k in sh.Dirty()
    requires r.inv < |sh.hist|
    ensures var (sh', pc') := AfterLocked(sh, id, r.op); StepKeeps(sh, id, r, sh', pc') && sh'.lock == sh.lock
  {
    hide Links, Published, Gone, Denotes, Shape, Advance, OpInv;
    UnlinkShared(sh, id, r.op);
    FoundUsable(sh, Normal, id, r.inv, r.op.k, sh.Dirty()[r.op.k]);
    UnlinkMoves(sh, id, r);
  }

  lemma UnlinkMoves(sh: Shared, id: OpId, r: Running)
    requires Sizes(sh) && OpInv(sh, id, r) && r.pc.Locked? && r.op.LoadAndDelete? && r.op.k in sh.Dirty()
    requires var e := sh.Dirty()[r.op.k]; Usable(sh, r.inv, r.op.k, e) && e !in sh.owner
    ensures OpInv(Unlinked(sh, id, r.op), id, r.(pc := Miss(Entry(sh.Dirty()[r.op.k]))))
  {
    var e := sh.Dirty()[r.op.k];
    var sh' := Unlinked(sh, id, r.op);
    assert sh'.heap == sh.heap;
    if !sh.P(e).Val? {
      ClaimsMove(sh, sh', id, r, Miss(Entry(e)));
    } else {
      assert Claim(sh', id, r.(pc := Miss(Entry(e)))) == Some(|sh.writer|);
    }
  }
}
