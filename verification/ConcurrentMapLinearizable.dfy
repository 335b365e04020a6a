/**
 From the moments recorded by the proof to a sequential order of whole operations on a plain map,
 and the other results about every run of the concurrent map.
 */
module ConcurrentMapLinearizable {
  import opened Options
  import opened ConcurrentMap
  import opened ConcurrentMapProof
  import opened ConcurrentMapSteps
  import opened ConcurrentMapTheorems

  // ------------------------------------------------------------------------------------
  // A sequential order
  // ------------------------------------------------------------------------------------

  /** A place in the sequential order: the completed operation number `i`, which changed nothing,
      at moment `t`; or the operation that made the change from moment `t` to moment `t + 1`. */
  datatype Slot = Read(t: nat, i: nat) | Write(t: nat)

  ghost predicate Valid(s: State, x: Slot) {
    match x
    case Read(t, i) => i < |s.done| && IsReader(s, i, t)
    case Write(t) => t < |s.sh.writer|
  }

  /** Completed operation number `i` is a reader answered for moment `t`.  Range is not atomic and
      is described by `RangeIsWitnessed` instead. */
  ghost predicate IsReader(s: State, i: nat, t: nat)
    requires i < |s.done|
  {
    var c := s.done[i];
    !c.op.Range? && c.lin == t && t < |s.sh.hist| && !Writes(c.op, s.sh.hist[t])
  }

  /** Index of a completed operation. */
  ghost function DoneIndex(s: State, id: OpId): nat
    requires Finished(s, id)
    ensures DoneIndex(s, id) < |s.done| && s.done[DoneIndex(s, id)].id == id
  {
    var i :| 0 <= i < |s.done| && s.done[i].id == id;
    i
  }

  ghost function IdOf(s: State, x: Slot): OpId
    requires Valid(s, x)
  {
    match x
    case Read(_, i) => s.done[i].id
    case Write(t) => s.sh.writer[t]
  }

  /** The operation with this id. */
  ghost function OpOf(s: State, id: OpId): Option<Op> {
    if id in s.running then Some(s.running[id].op)
    else if Finished(s, id) then Some(s.done[DoneIndex(s, id)].op)
    else None
  }

  /** The result of the operation with this id, if it has returned. */
  ghost function ResultOf(s: State, id: OpId): Option<Result> {
    if Finished(s, id) then Some(s.done[DoneIndex(s, id)].result) else None
  }

  /** The plain map after performing the operations `ids` one after the other. */
  ghost function Replay(s: State, ids: seq<OpId>): Model {
    if ids == [] then map[]
    else
      var op := OpOf(s, ids[|ids| - 1]);
      var m := Replay(s, ids[..|ids| - 1]);
      if op.Some? then Effect(op.value, m) else m
  }

  /** Performed one after the other on a plain map, the operations `ids` give the results they returned. */
  ghost predicate Legal(s: State, ids: seq<OpId>) {
    ids == [] ||
    var id := ids[|ids| - 1];
    var m := Replay(s, ids[..|ids| - 1]);
    && Legal(s, ids[..|ids| - 1])
    && OpOf(s, id).Some?
    && (ResultOf(s, id).Some? ==> ResultOf(s, id).value == Answer(OpOf(s, id).value, m))
  }

  /** The operations that returned before operation `id` was called. */
  ghost function CalledAfter(s: State, id: OpId): nat {
    if id in s.running then s.running[id].before
    else if Finished(s, id) then s.done[DoneIndex(s, id)].before
    else 0
  }

  /** `a` comes before `b` in `ids`. */
  ghost predicate Precedes(ids: seq<OpId>, a: OpId, b: OpId) {
    exists p, q :: 0 <= p < q < |ids| && ids[p] == a && ids[q] == b
  }

  /** `ids` is a linearization of the operations of `s` (Range aside): it holds every completed
      operation once, perhaps some running ones, and no others; replayed on a plain map it gives
      every returned result and ends in the map the structure denotes; and an operation that
      returned before another was called comes before it. */
  ghost predicate Linearization(s: State, ids: seq<OpId>) {
    && (forall p, q :: 0 <= p < q < |ids| ==> ids[p] != ids[q])
    && (forall i :: 0 <= i < |s.done| && !s.done[i].op.Range? ==> s.done[i].id in ids)
    && (forall id :: id in ids ==> id in s.running || Finished(s, id))
    && Legal(s, ids)
    && (forall k :: Lookup(Replay(s, ids), k) == s.sh.Seen(k))
    && (forall i, b :: 0 <= i < |s.done| && s.done[i].id in ids && b in ids && i < CalledAfter(s, b) ==>
          Precedes(ids, s.done[i].id, b))
  }

  // ------------------------------------------------------------------------------------
  // Building the order
  // ------------------------------------------------------------------------------------

  /** All slots before moment `t`, and the readers among the first `n` completed operations at `t`. */
  ghost function Upto(s: State, t: nat, n: nat): seq<Slot>
    requires t <= |s.sh.writer| && n <= |s.done|
    decreases t, n
  {
    if n > 0 then
      Upto(s, t, n - 1) + (if IsReader(s, n - 1, t) then [Read(t, n - 1)] else [])
    else if t > 0 then Upto(s, t - 1, |s.done|) + [Write(t - 1)]
    else []
  }

  ghost predicate Less(x: Slot, y: Slot) {
    x.t < y.t || (x.t == y.t && x.Read? && (y.Write? || x.i < y.i))
  }

  /** `x` lies before moment `t`, or is a reader among the first `n` at `t`. */
  ghost predicate Below(x: Slot, t: nat, n: nat) {
    x.t < t || (x.t == t && x.Read? && x.i < n)
  }

  lemma {:induction false} UptoSorted(s: State, t: nat, n: nat)
    requires t <= |s.sh.writer| && n <= |s.done|
    ensures forall p :: 0 <= p < |Upto(s, t, n)| ==> Valid(s, Upto(s, t, n)[p]) && Below(Upto(s, t, n)[p], t, n)
    ensures forall p, q :: 0 <= p < q < |Upto(s, t, n)| ==> Less(Upto(s, t, n)[p], Upto(s, t, n)[q])
    decreases t, n
  {
    if n > 0 {
      UptoSorted(s, t, n - 1);
    } else if t > 0 {
      UptoSorted(s, t - 1, |s.done|);
    }
  }

  lemma {:induction false} UptoComplete(s: State, t: nat, n: nat, x: Slot)
    requires t <= |s.sh.writer| && n <= |s.done| && Valid(s, x) && Below(x, t, n)
    ensures x in Upto(s, t, n)
    decreases t, n
  {
    if n > 0 {
      if x != Read(t, n - 1) { UptoComplete(s, t, n - 1, x); }
    } else if t > 0 {
      if x != Write(t - 1) { UptoComplete(s, t - 1, |s.done|, x); }
    }
  }

  ghost function Ids(s: State, xs: seq<Slot>): seq<OpId>
    requires forall p :: 0 <= p < |xs| ==> Valid(s, xs[p])
  {
    seq(|xs|, p requires 0 <= p < |xs| => IdOf(s, xs[p]))
  }

  /** The operations standing at the slots of `Upto(s, t, n)`. */
  ghost function OrderUpto(s: State, t: nat, n: nat): seq<OpId>
    requires t <= |s.sh.writer| && n <= |s.done|
  {
    UptoSorted(s, t, n);
    Ids(s, Upto(s, t, n))
  }

  /** The sequential order of state `s`. */
  ghost function Order(s: State): seq<OpId> {
    OrderUpto(s, |s.sh.writer|, |s.done|)
  }

  lemma OrderReader(s: State, t: nat, n: nat)
    requires t <= |s.sh.writer| && 0 < n <= |s.done|
    ensures OrderUpto(s, t, n) == OrderUpto(s, t, n - 1) + if IsReader(s, n - 1, t) then [s.done[n - 1].id] else []
  {
  }

  lemma OrderWriter(s: State, t: nat)
    requires 0 < t <= |s.sh.writer|
    ensures OrderUpto(s, t, 0) == OrderUpto(s, t - 1, |s.done|) + [s.sh.writer[t - 1]]
  {
  }

  lemma ReaderAnswered(s: State, i: nat, t: nat)
    requires Inv(s) && i < |s.done| && IsReader(s, i, t)
    ensures var c := s.done[i];
      && OpOf(s, c.id) == Some(c.op) && ResultOf(s, c.id) == Some(c.result)
      && c.result == Answer(c.op, s.sh.hist[t]) && Effect(c.op, s.sh.hist[t]) == s.sh.hist[t]
  {
    assert DoneOk(s, i) && Finished(s, s.done[i].id);
    assert DoneIndex(s, s.done[i].id) == i;
  }

  /** The change from moment `t` to the next is the effect of the operation recorded for it,
      and its result, once returned, is the plain map's answer at `t`. */
  lemma WriterAnswered(s: State, t: nat)
    requires Inv(s) && t < |s.sh.writer|
    ensures var id := s.sh.writer[t];
      && OpOf(s, id).Some? && !OpOf(s, id).value.Range?
      && Writes(OpOf(s, id).value, s.sh.hist[t])
      && s.sh.hist[t + 1] == Effect(OpOf(s, id).value, s.sh.hist[t])
      && (ResultOf(s, id).Some? ==> ResultOf(s, id).value == Answer(OpOf(s, id).value, s.sh.hist[t]))
  {
    var id := s.sh.writer[t];
    if id in s.running {
      assert RunningOk(s, id);
      RunningWriter(s, id, t);
      NotFinished(s, id);
    } else {
      assert DoneOk(s, DoneIndex(s, id));
    }
  }

  lemma NotFinished(s: State, id: OpId)
    requires Inv(s) && id in s.running
    ensures !Finished(s, id)
  {
    forall i | 0 <= i < |s.done| ensures s.done[i].id != id { assert DoneOk(s, i); }
  }

  lemma RunningWriter(s: State, id: OpId, t: nat)
    requires SharedInv(s.sh, HolderPhase(s)) && id in s.running && RunningOk(s, id)
    requires t < |s.sh.writer| && s.sh.writer[t] == id
    ensures var op := s.running[id].op; Writes(op, s.sh.hist[t]) && s.sh.hist[t + 1] == Effect(op, s.sh.hist[t])
    ensures s.running[id].inv <= t
  {
    var r := s.running[id];
    assert Claim(s.sh, id, r) == Some(t);
    if OutOf(r.pc).None? {
      var e := HeldBy(r.pc).value;
      assert OwnedEntry(s.sh, e);
    }
  }

  ghost predicate ReaderFits(s: State, i: nat)
    requires i < |s.done|
  {
    var c := s.done[i];
    c.lin < |s.sh.hist| && IsReader(s, i, c.lin) ==>
      && OpOf(s, c.id) == Some(c.op) && ResultOf(s, c.id) == Some(c.result)
      && c.result == Answer(c.op, s.sh.hist[c.lin]) && Effect(c.op, s.sh.hist[c.lin]) == s.sh.hist[c.lin]
  }

  ghost predicate WriterFits(s: State, t: nat)
    requires t < |s.sh.writer| && |s.sh.hist| == |s.sh.writer| + 1
  {
    var id := s.sh.writer[t];
    && OpOf(s, id).Some?
    && s.sh.hist[t + 1] == Effect(OpOf(s, id).value, s.sh.hist[t])
    && (ResultOf(s, id).Some? ==> ResultOf(s, id).value == Answer(OpOf(s, id).value, s.sh.hist[t]))
  }

  /** All that the replay needs to know about a state. */
  ghost predicate Fits(s: State) {
    && |s.sh.hist| == |s.sh.writer| + 1 && s.sh.hist[0] == map[]
    && (forall i :: 0 <= i < |s.done| ==> ReaderFits(s, i))
    && (forall t :: 0 <= t < |s.sh.writer| ==> WriterFits(s, t))
  }

  lemma InvFits(s: State)
    requires Inv(s)
    ensures Fits(s)
  {
    forall i | 0 <= i < |s.done| ensures ReaderFits(s, i) {
      if IsReader(s, i, s.done[i].lin) { ReaderAnswered(s, i, s.done[i].lin); }
    }
    forall t | 0 <= t < |s.sh.writer| ensures WriterFits(s, t) { WriterAnswered(s, t); }
  }

  /** One more operation at the end of a legal order. */
  lemma ReplayOneMore(s: State, ids: seq<OpId>, id: OpId, m: Model)
    requires Legal(s, ids) && Replay(s, ids) == m && OpOf(s, id).Some?
    requires ResultOf(s, id).Some? ==> ResultOf(s, id).value == Answer(OpOf(s, id).value, m)
    ensures Legal(s, ids + [id]) && Replay(s, ids + [id]) == Effect(OpOf(s, id).value, m)
  {
    assert (ids + [id])[..|ids|] == ids;
  }

  /** Performing the operations of the order up to moment `t` gives the plain map of that moment. */
  lemma {:induction false} ReplayUpto(s: State, t: nat, n: nat)
    requires Fits(s) && t <= |s.sh.writer| && n <= |s.done|
    ensures Legal(s, OrderUpto(s, t, n)) && Replay(s, OrderUpto(s, t, n)) == s.sh.hist[t]
    decreases t, n
  {
    hide Legal, Replay;
    if n > 0 {
      OrderReader(s, t, n);
      ReplayUpto(s, t, n - 1);
      if IsReader(s, n - 1, t) {
        assert ReaderFits(s, n - 1);
        ReplayOneMore(s, OrderUpto(s, t, n - 1), s.done[n - 1].id, s.sh.hist[t]);
      } else {
        assert OrderUpto(s, t, n) == OrderUpto(s, t, n - 1);
      }
    } else if t > 0 {
      OrderWriter(s, t);
      ReplayUpto(s, t - 1, |s.done|);
      assert WriterFits(s, t - 1);
      ReplayOneMore(s, OrderUpto(s, t - 1, |s.done|), s.sh.writer[t - 1], s.sh.hist[t - 1]);
    } else {
      assert OrderUpto(s, 0, 0) == [];
      ReplayNothing(s);
    }
  }

  lemma ReplayNothing(s: State)
    ensures Legal(s, []) && Replay(s, []) == map[]
  {
  }

  /** An operation stands at the moment it was answered for, which is a moment of its call. */
  lemma SlotFacts(s: State, x: Slot)
    requires Inv(s) && Valid(s, x)
    ensures var id := IdOf(s, x);
      && (Finished(s, id) ==>
            var c := s.done[DoneIndex(s, id)];
            x.t == c.lin && c.inv <= x.t <= c.res && (x.Read? <==> !Writes(c.op, s.sh.hist[c.lin]))
            && (x.Read? ==> x.i == DoneIndex(s, id)) && (x.Write? ==> x.t < c.res))
      && (!Finished(s, id) ==>
            x.Write? && id in s.running && s.running[id].inv <= x.t && Claim(s.sh, id, s.running[id]) == Some(x.t))
  {
    var id := IdOf(s, x);
    if Finished(s, id) {
      assert DoneOk(s, DoneIndex(s, id));
    } else {
      assert RunningOk(s, id);
      RunningWriter(s, id, x.t);
    }
  }

  lemma SlotUnique(s: State, x: Slot, y: Slot)
    requires Inv(s) && Valid(s, x) && Valid(s, y) && IdOf(s, x) == IdOf(s, y)
    ensures x == y
  {
    SlotFacts(s, x);
    SlotFacts(s, y);
  }

  /** Every completed operation other than Range has a slot. */
  lemma SlotOf(s: State, i: nat) returns (x: Slot)
    requires Inv(s) && i < |s.done| && !s.done[i].op.Range?
    ensures Valid(s, x) && IdOf(s, x) == s.done[i].id
  {
    assert DoneOk(s, i);
    var c := s.done[i];
    if Writes(c.op, s.sh.hist[c.lin]) {
      x := Write(c.lin);
    } else {
      x := Read(c.lin, i);
    }
  }

  /** An operation that returned before another was called stands at an earlier slot. */
  lemma RealTime(s: State, x: Slot, y: Slot)
    requires Inv(s) && Valid(s, x) && Valid(s, y) && Finished(s, IdOf(s, x))
    requires DoneIndex(s, IdOf(s, x)) < CalledAfter(s, IdOf(s, y))
    ensures Less(x, y)
  {
    var b := IdOf(s, y);
    SlotFacts(s, x);
    SlotFacts(s, y);
    if b in s.running {
      assert RunningOk(s, b);
      NotFinished(s, b);
    } else {
      assert DoneOk(s, DoneIndex(s, b));
    }
  }

  lemma OrderIsLinearization(s: State)
    requires Inv(s)
    ensures Linearization(s, Order(s))
  {
    var n := |s.sh.writer|;
    var xs := Upto(s, n, |s.done|);
    UptoSorted(s, n, |s.done|);
    InvFits(s);
    ReplayUpto(s, n, |s.done|);
    OrderHoldsAll(s, xs, Order(s));
    OrderRealTime(s, xs, Order(s));
    assert Replay(s, Order(s)) == s.sh.Current();
  }

  lemma OrderHoldsAll(s: State, xs: seq<Slot>, ids: seq<OpId>)
    requires Inv(s) && xs == Upto(s, |s.sh.writer|, |s.done|)
    requires (forall p :: 0 <= p < |xs| ==> Valid(s, xs[p])) && ids == Ids(s, xs)
    requires forall p, q :: 0 <= p < q < |xs| ==> Less(xs[p], xs[q])
    ensures forall p, q :: 0 <= p < q < |ids| ==> ids[p] != ids[q]
    ensures forall i :: 0 <= i < |s.done| && !s.done[i].op.Range? ==> s.done[i].id in ids
    ensures forall id :: id in ids ==> id in s.running || Finished(s, id)
  {
    forall p, q | 0 <= p < q < |ids| ensures ids[p] != ids[q] {
      if ids[p] == ids[q] { SlotUnique(s, xs[p], xs[q]); }
    }
    forall i | 0 <= i < |s.done| && !s.done[i].op.Range? ensures s.done[i].id in ids {
      var x := SlotOf(s, i);
      assert DoneOk(s, i);
      UptoComplete(s, |s.sh.writer|, |s.done|, x);
      var p :| 0 <= p < |xs| && xs[p] == x;
      assert ids[p] == s.done[i].id;
    }
    forall id | id in ids ensures id in s.running || Finished(s, id) {
      var p :| 0 <= p < |ids| && ids[p] == id;
      SlotFacts(s, xs[p]);
    }
  }

  lemma OrderRealTime(s: State, xs: seq<Slot>, ids: seq<OpId>)
    requires Inv(s) && (forall p :: 0 <= p < |xs| ==> Valid(s, xs[p])) && ids == Ids(s, xs)
    requires forall p, q :: 0 <= p < q < |xs| ==> Less(xs[p], xs[q])
    ensures forall i, b :: 0 <= i < |s.done| && s.done[i].id in ids && b in ids && i < CalledAfter(s, b) ==>
      Precedes(ids, s.done[i].id, b)
  {
    forall i, b | 0 <= i < |s.done| && s.done[i].id in ids && b in ids && i < CalledAfter(s, b)
      ensures Precedes(ids, s.done[i].id, b)
    {
      var p :| 0 <= p < |ids| && ids[p] == s.done[i].id;
      var q :| 0 <= q < |ids| && ids[q] == b;
      DoneIndexUnique(s, i);
      RealTime(s, xs[p], xs[q]);
      assert p < q;
    }
  }

  lemma DoneIndexUnique(s: State, i: nat)
    requires i < |s.done|
    requires forall i, j :: 0 <= i < j < |s.done| ==> s.done[i].id != s.done[j].id
    ensures Finished(s, s.done[i].id) && DoneIndex(s, s.done[i].id) == i
  {
  }

  // ------------------------------------------------------------------------------------
  // Results about every run
  // ------------------------------------------------------------------------------------

  /** Every state of every run has a linearization. */
  lemma Linearizable(run: seq<State>, i: nat)
    requires IsRun(run) && i < |run|
    ensures exists ids :: Linearization(run[i], ids)
  {
    RunInv(run, i);
    OrderIsLinearization(run[i]);
  }

  /** What Range reports for a key, and for every key when it ran to the end, is what the plain
      map held for that key at some moment between the call and the return. */
  lemma RangeIsWitnessed(run: seq<State>, i: nat, n: nat, k: Key)
    requires IsRun(run) && i < |run| && n < |run[i].done| && run[i].done[n].op.Range?
    requires var c := run[i].done[n]; c.result.Visited? ==> k in c.result.seen || c.result.complete
    ensures var c := run[i].done[n];
      && c.result.Visited?
      && exists t :: c.inv <= t <= c.res < |run[i].sh.hist| && Lookup(run[i].sh.hist[t], k) == Lookup(c.result.seen, k)
  {
    RunInv(run, i);
    var s := run[i];
    var c := s.done[n];
    assert DoneOk(s, n);
    var h := s.sh.hist[..c.lin + 1];
    assert Witness(h, c.inv, k, Lookup(c.result.seen, k));
    var t :| c.inv <= t < |h| && Lookup(h[t], k) == Lookup(c.result.seen, k);
    assert s.sh.hist[t] == h[t];
  }

  /** No operation ever writes to a nil map, dereferences `expunged` or hands back a made-up zero value. */
  lemma NeverBroken(run: seq<State>, i: nat, id: OpId)
    requires IsRun(run) && i < |run| && id in run[i].running
    ensures !run[i].running[id].pc.Broken?
  {
    RunInv(run, i);
    assert RunningOk(run[i], id);
  }

  /** The invariant stated in the source's comments, in every state where the mutex is free. */
  lemma QuietShape(run: seq<State>, i: nat)
    requires IsRun(run) && i < |run| && run[i].sh.lock.None?
    ensures var sh := run[i].sh;
      && (sh.read.amended <==> sh.dirty.Some?)
      && (forall k :: k in sh.read.m ==> (sh.P(sh.read.m[k]).Expunged? <==> sh.dirty.Some? && k !in sh.dirty.value))
      && (forall k :: k in sh.Dirty() && k in sh.read.m ==> sh.Dirty()[k] == sh.read.m[k])
      && (forall k :: k in sh.Dirty() ==> !sh.P(sh.Dirty()[k]).Expunged?)
      && (if sh.dirty.Some? then sh.misses < |sh.dirty.value| else sh.misses == 0)
  {
    RunInv(run, i);
    var sh := run[i].sh;
    forall k | k in sh.Dirty() ensures SharedEntry(sh, k) { }
  }

  /** Published entries stay published, and an entry that left the map stays away. */
  ghost predicate Keeps(sh: Shared, sh': Shared) {
    && sh.published <= sh'.published && sh.keyOf <= sh'.keyOf
    && sh.gone.Keys <= sh'.gone.Keys
  }

  lemma OneStepKeeps(run: seq<State>, j: nat)
    requires IsRun(run) && j + 1 < |run|
    ensures Keeps(run[j].sh, run[j + 1].sh)
  {
    RunInv(run, j);
    var s, s' := run[j], run[j + 1];
    if id :| StepBy(s, s', id) {
      StepIsGood(s, s', id);
    } else {
      assert NextState(s, s');
      assert s'.sh == s.sh;
    }
  }

  lemma {:induction false} ChainKeeps(run: seq<State>, i: nat, j: nat)
    requires i <= j < |run|
    requires forall l :: i <= l < j ==> Keeps(run[l].sh, run[l + 1].sh)
    ensures Keeps(run[i].sh, run[j].sh)
    decreases j
  {
    if i < j {
      ChainKeeps(run, i, j - 1);
      assert Keeps(run[j - 1].sh, run[j - 1 + 1].sh);
    }
  }

  lemma RunKeeps(run: seq<State>, i: nat, j: nat)
    requires IsRun(run) && i <= j < |run|
    ensures Keeps(run[i].sh, run[j].sh)
  {
    forall l | i <= l < j ensures Keeps(run[l].sh, run[l + 1].sh) { OneStepKeeps(run, l); }
    ChainKeeps(run, i, j);
  }

  /** A stale `read` snapshot is harmless: each of its entries is still the current entry of its
      key, or is expunged and stays expunged for the rest of the run. */
  lemma StaleSnapshot(run: seq<State>, i: nat, j: nat, k: Key)
    requires IsRun(run) && i <= j < |run| && k in run[i].sh.read.m
    ensures var e := run[i].sh.read.m[k];
      || (k in run[j].sh.read.m && run[j].sh.read.m[k] == e)
      || (forall l :: j <= l < |run| ==>
            run[l].sh.P(e).Expunged? && !(k in run[l].sh.read.m && run[l].sh.read.m[k] == e))
  {
    var e := run[i].sh.read.m[k];
    RunInv(run, i);
    assert run[i].sh.Linked(k) == Some(e) && FoundOk(run[i].sh, k);
    RunInv(run, j);
    RunKeeps(run, i, j);
    if e in run[j].sh.gone {
      forall l | j <= l < |run|
        ensures run[l].sh.P(e).Expunged? && !(k in run[l].sh.read.m && run[l].sh.read.m[k] == e) {
        RunInv(run, l);
        RunKeeps(run, j, l);
        assert GoneEntry(run[l].sh, e);
        assert FoundOk(run[l].sh, k);
      }
    }
  }

  lemma StoreTargetLinked(sh: Shared, ph: Phase, id: OpId, r: Running)
    requires SharedInv(sh, ph) && OpInv(sh, id, r) && r.pc.EntryCas? && sh.P(r.pc.e) == r.pc.p
    requires r.op.Swap? || r.op.LoadOrStore? || r.op.CompareAndSwap?
    ensures r.pc.e !in sh.gone && sh.Linked(r.op.k) == Some(r.pc.e)
  {
    var e := r.pc.e;
    assert FoundOk(sh, r.op.k) && Placed(sh, e);
  }

  /** A lock-free store that wins its compare-and-swap, through however old a snapshot, is visible
      at once under its key and changes nothing else. */
  lemma NoLostUpdate(run: seq<State>, i: nat, id: OpId, k: Key)
    requires IsRun(run) && i + 1 < |run| && StepBy(run[i], run[i + 1], id)
    requires var r := run[i].running[id];
      && r.pc.EntryCas? && run[i].sh.P(r.pc.e) == r.pc.p
      && (r.op.Swap? || r.op.LoadOrStore? || r.op.CompareAndSwap?)
    ensures var op := run[i].running[id].op;
      run[i + 1].sh.Seen(k) == if k == op.k then Some(op.v) else run[i].sh.Seen(k)
  {
    RunInv(run, i);
    StoreVisible(run[i], run[i + 1], id, k);
  }

  /** At the entry of a key found only through `dirty`, with the mutex held. */
  predicate ViaDirtyPc(pc: Pc) {
    (pc.EntryLoad? || pc.EntryCas?) && pc.how.ViaDirty?
  }

  /** Every operation that had to consult `dirty`, other than a Swap and a first insertion, counts a miss
      before it lets go of the mutex... */
  lemma MissesCount(run: seq<State>, i: nat, id: OpId)
    requires IsRun(run) && i + 1 < |run| && StepBy(run[i], run[i + 1], id)
    ensures var op, pc, pc' := run[i].running[id].op, run[i].running[id].pc, run[i + 1].running[id].pc;
            var sh := run[i].sh;
      && (pc.Locked? && !op.Range? && op.k !in sh.read.m && sh.read.amended ==>
            && (op.Load? || op.LoadAndDelete? || op.CompareAndDelete? ==> pc'.Miss?)
            && (op.LoadOrStore? || op.CompareAndSwap? ==> (ViaDirtyPc(pc') <==> op.k in sh.Dirty())))
      && (ViaDirtyPc(pc) ==> pc'.Miss? || ViaDirtyPc(pc'))
  {
    NeverBroken(run, i + 1, id);
    hide IsRun;
    SlowLookup(run[i].sh, id, run[i].running[id], run[i + 1].sh, run[i + 1].running[id].pc);
    SlowEntry(run[i].sh, id, run[i].running[id], run[i + 1].sh, run[i + 1].running[id].pc);
  }

  lemma SlowLookup(sh: Shared, id: OpId, r: Running, sh': Shared, pc': Pc)
    requires Step(sh, id, r, sh', pc') && !pc'.Broken?
    ensures r.pc.Locked? && !r.op.Range? && r.op.k !in sh.read.m && sh.read.amended ==>
      && (r.op.Load? || r.op.LoadAndDelete? || r.op.CompareAndDelete? ==> pc'.Miss?)
      && (r.op.LoadOrStore? || r.op.CompareAndSwap? ==> (ViaDirtyPc(pc') <==> r.op.k in sh.Dirty()))
  {
    hide Unlinked;
  }

  lemma SlowEntry(sh: Shared, id: OpId, r: Running, sh': Shared, pc': Pc)
    requires Step(sh, id, r, sh', pc') && !pc'.Broken?
    ensures ViaDirtyPc(r.pc) ==> pc'.Miss? || ViaDirtyPc(pc')
  {
  }

  /** ...and the miss promotes `dirty` exactly when it makes as many as `dirty` has keys. */
  lemma MissPromotes(s: State, s': State, id: OpId)
    requires StepBy(s, s', id)
    ensures var pc, pc' := s.running[id].pc, s'.running[id].pc;
      && (pc.Miss? ==> s'.sh.misses == s.sh.misses + 1 && s'.sh.dirty == s.sh.dirty)
      && (pc.Miss? ==> pc' == if s'.sh.misses < |s.sh.Dirty()| then Unlock(pc.next) else PromoteStore(pc.next))
      && (pc.PromoteStore? ==> s'.sh.read == ReadOnly(s.sh.Dirty(), false) && pc' == PromoteClear(pc.next))
      && (pc.PromoteClear? ==> s'.sh.dirty == None && s'.sh.misses == 0 && pc' == Unlock(pc.next))
  {
  }

  /** While `dirty` is rebuilt, an entry that goes into it holds a value at that step, and one that is left
      out is expunged. */
  lemma CopiesLive(run: seq<State>, i: nat, id: OpId)
    requires IsRun(run) && i + 1 < |run| && StepBy(run[i], run[i + 1], id)
    requires run[i].running[id].pc.CopyLoad? || run[i].running[id].pc.CopyCas?
    requires run[i + 1].running[id].pc.Copy?
    ensures var k := run[i].running[id].pc.k; var sh, sh' := run[i].sh, run[i + 1].sh;
      && k in sh.read.m && k !in sh.Dirty()
      && (k in sh'.Dirty() <==> sh.P(sh.read.m[k]).Val?) && (k in sh'.Dirty() ==> sh'.Dirty()[k] == sh.read.m[k])
      && (k !in sh'.Dirty() <==> sh'.P(sh.read.m[k]).Expunged?)
  {
    RunInv(run, i);
    var s := run[i];
    assert RunningOk(s, id);
    CopyStep(s.sh, HolderPhase(s), s.running[id], run[i + 1].sh, run[i + 1].running[id].pc);
  }

  lemma CopyStep(sh: Shared, ph: Phase, r: Running, sh': Shared, pc': Pc)
    requires SharedInv(sh, ph) && ph == PhaseOf(r) && pc'.Copy?
    requires || (r.pc.CopyLoad? && (sh', pc') == AfterCopyLoad(sh, r.pc.k, r.pc.todo))
             || (r.pc.CopyCas? && (sh', pc') == AfterCopyCas(sh, r.pc.k, r.pc.todo))
    ensures var k := r.pc.k;
      && k in sh.read.m && k !in sh.Dirty()
      && (k in sh'.Dirty() <==> sh.P(sh.read.m[k]).Val?) && (k in sh'.Dirty() ==> sh'.Dirty()[k] == sh.read.m[k])
      && (k !in sh'.Dirty() <==> sh'.P(sh.read.m[k]).Expunged?)
  {
    var e := sh.read.m[r.pc.k];
    assert sh.Linked(r.pc.k) == Some(e) && FoundOk(sh, r.pc.k);
  }

  /** A lock-free delete that wins its compare-and-swap, through however old a snapshot: an entry from a
      snapshot cannot have left the map, and then the key is gone at once; an entry that had left the
      map leaves the key as it was; and no other key changes. */
  lemma NoLostDelete(run: seq<State>, i: nat, id: OpId, k: Key)
    requires IsRun(run) && i + 1 < |run| && StepBy(run[i], run[i + 1], id)
    requires var r := run[i].running[id];
      && r.pc.EntryCas? && run[i].sh.P(r.pc.e) == r.pc.p && (r.op.LoadAndDelete? || r.op.CompareAndDelete?)
    ensures var r := run[i].running[id]; var sh, sh' := run[i].sh, run[i + 1].sh;
      && (r.pc.e in sh.published ==> r.pc.e !in sh.gone)
      && (r.pc.e !in sh.gone ==> sh'.Seen(k) == if k == r.op.k then None else sh.Seen(k))
      && (r.pc.e in sh.gone ==> sh'.Seen(k) == sh.Seen(k))
  {
    RunInv(run, i);
    DeleteVisible(run[i], run[i + 1], id, k);
  }

  lemma DeleteVisible(s: State, s': State, id: OpId, k: Key)
    requires Inv(s) && StepBy(s, s', id)
    requires var r := s.running[id];
      && r.pc.EntryCas? && s.sh.P(r.pc.e) == r.pc.p && (r.op.LoadAndDelete? || r.op.CompareAndDelete?)
    ensures var r := s.running[id];
      && (r.pc.e in s.sh.published ==> r.pc.e !in s.sh.gone)
      && (r.pc.e !in s.sh.gone ==> s'.sh.Seen(k) == if k == r.op.k then None else s.sh.Seen(k))
      && (r.pc.e in s.sh.gone ==> s'.sh.Seen(k) == s.sh.Seen(k))
  {
    var r := s.running[id];
    assert RunningOk(s, id);
    var e := r.pc.e;
    assert e in s.sh.gone ==> GoneEntry(s.sh, e);
    DeleteTarget(s.sh, HolderPhase(s), id, r);
    hide OpInv, SharedInv, RunningOk, Inv;
    ClearVisible(s.sh, s'.sh, r.op.k, e, k);
  }

  lemma DeleteTarget(sh: Shared, ph: Phase, id: OpId, r: Running)
    requires SharedInv(sh, ph) && OpInv(sh, id, r) && r.pc.EntryCas? && sh.P(r.pc.e) == r.pc.p
    requires r.op.LoadAndDelete? || r.op.CompareAndDelete?
    ensures Links(sh) && |sh.heap| == |sh.keyOf| && r.pc.e < |sh.keyOf| && sh.keyOf[r.pc.e] == r.op.k && r.pc.p.Val?
  {
  }

  /** Emptying entry `e` of key `k`. */
  lemma ClearVisible(sh: Shared, sh': Shared, k: Key, e: EntryId, x: Key)
    requires Links(sh) && |sh.heap| == |sh.keyOf| && e < |sh.keyOf| && sh.keyOf[e] == k
    requires sh'.read == sh.read && sh'.dirty == sh.dirty && sh'.heap == sh.Set(e, Nil).heap
    ensures e !in sh.gone ==> sh'.Seen(x) == if x == k then None else sh.Seen(x)
    ensures e in sh.gone ==> sh'.Seen(x) == sh.Seen(x)
  {
    assert FoundOk(sh, x) && FoundOk(sh, k) && Placed(sh, e) && sh'.Linked(x) == sh.Linked(x);
  }

  lemma StoreVisible(s: State, s': State, id: OpId, k: Key)
    requires Inv(s) && StepBy(s, s', id)
    requires var r := s.running[id];
      && r.pc.EntryCas? && s.sh.P(r.pc.e) == r.pc.p
      && (r.op.Swap? || r.op.LoadOrStore? || r.op.CompareAndSwap?)
    ensures var op := s.running[id].op; s'.sh.Seen(k) == if k == op.k then Some(op.v) else s.sh.Seen(k)
  {
    var r := s.running[id];
    assert RunningOk(s, id);
    StoreTargetLinked(s.sh, HolderPhase(s), id, r);
    SetVisible(s.sh, s'.sh, r.op.k, r.pc.e, Val(id, r.op.v), k);
  }

  lemma SetVisible(sh: Shared, sh': Shared, k: Key, e: EntryId, p: Ptr, x: Key)
    requires Links(sh) && |sh.heap| == |sh.keyOf| && sh.Linked(k) == Some(e) && p.Val?
    requires sh'.read == sh.read && sh'.dirty == sh.dirty && sh'.heap == sh.Set(e, p).heap
    ensures sh'.Seen(x) == if x == k then Some(p.v) else sh.Seen(x)
  {
    assert FoundOk(sh, x) && FoundOk(sh, k) && sh'.Linked(x) == sh.Linked(x);
  }
}
