/**
 Invariants of the concurrent map, indexed by the lock holder's program counter, and the proof
 that every step of every operation keeps them.
 */
module ConcurrentMapProof {
  import opened Options
  import opened ConcurrentMap

  // ------------------------------------------------------------------------------------
  // Shared state
  // ------------------------------------------------------------------------------------

  /** Where the lock holder stands, as far as the shape of `read` and `dirty` is concerned. */
  datatype Phase =
    | Normal
    | Slack                          // about to count a miss or to insert
    | Unexpunged(k: Key, e: EntryId) // entry revived but not yet back in dirty
    | Copying(todo: set<Key>)        // dirty under construction
    | Promoting                      // about to store dirty into read
    | Clearing                       // stored, dirty not yet cleared

  function PhaseOf(r: Running): Phase {
    match r.pc
    case Relink(e) => if r.op.Range? then Normal else Unexpunged(r.op.k, e)
    case Copy(todo) => Copying(todo)
    case CopyLoad(k, todo) => Copying(todo + {k})
    case CopyCas(k, todo) => Copying(todo + {k})
    case Mark => Copying({})
    case Insert => Slack
    case Miss(_) => Slack
    case PromoteStore(_) => Promoting
    case PromoteClear(_) => Clearing
    case _ => Normal
  }

  ghost predicate Sizes(sh: Shared) {
    && |sh.heap| == |sh.keyOf| && |sh.hist| > 0 && |sh.writer| + 1 == |sh.hist|
    && sh.owner.Keys <= sh.gone.Keys
  }

  /** An entry through which `k` is found was made for `k` and has not left the map. */
  ghost predicate FoundOk(sh: Shared, k: Key) {
    var e := sh.Linked(k);
    e.Some? ==> e.value < |sh.keyOf| && sh.keyOf[e.value] == k && e.value !in sh.gone
  }

  /** Every entry ever made either is how its key is found, or has left the map for good. */
  ghost predicate Placed(sh: Shared, e: EntryId)
    requires e < |sh.keyOf|
  {
    e in sh.gone || sh.Linked(sh.keyOf[e]) == Some(e)
  }

  /** `dirty` shares its entries with `read`, and holds no expunged one. */
  ghost predicate SharedEntry(sh: Shared, k: Key)
    requires k in sh.Dirty()
  {
    (k in sh.read.m ==> sh.Dirty()[k] == sh.read.m[k]) && !sh.P(sh.Dirty()[k]).Expunged?
  }

  ghost predicate Links(sh: Shared) {
    && (forall k {:trigger FoundOk(sh, k)} {:trigger sh.Linked(k)} :: FoundOk(sh, k))
    && (forall e {:trigger Placed(sh, e)} {:trigger sh.keyOf[e]} :: 0 <= e < |sh.keyOf| ==> Placed(sh, e))
    && (forall k {:trigger SharedEntry(sh, k)} {:trigger k in sh.Dirty()} :: k in sh.Dirty() ==> SharedEntry(sh, k))
  }

  /** Every entry of a published `read` map is still in `read` under its key, or expunged and gone. */
  ghost predicate Published(sh: Shared) {
    && (forall k :: k in sh.read.m ==> sh.read.m[k] in sh.published)
    && (forall e :: e in sh.published ==> e < |sh.keyOf|)
    && (forall e :: e in sh.published && e !in sh.gone ==>
          sh.keyOf[e] in sh.read.m && sh.read.m[sh.keyOf[e]] == e)
  }

  /** What remains of an entry that left the map. */
  ghost predicate GoneEntry(sh: Shared, e: EntryId)
    requires e in sh.gone
  {
    && e < |sh.heap| && e < |sh.keyOf| && sh.gone[e] < |sh.hist|
    && sh.keyOf[e] !in sh.hist[sh.gone[e]]
    && (e in sh.published <==> sh.P(e).Expunged?)
    && (sh.P(e).Val? ==> e in sh.owner)
  }

  /** An entry taken out of `dirty`: while it still carries its value, the change it stands for
      is recorded as made by the LoadAndDelete that took it out. */
  ghost predicate OwnedEntry(sh: Shared, e: EntryId)
    requires e in sh.owner
  {
    && e in sh.gone && e !in sh.published
    && 0 < sh.gone[e] < |sh.hist| && sh.gone[e] <= |sh.writer| && e < |sh.keyOf|
    && sh.gone[e] in sh.cut && sh.cut[sh.gone[e]] == e
    && (sh.P(e).Val? ==>
          && Lookup(sh.hist[sh.gone[e] - 1], sh.keyOf[e]) == Some(sh.P(e).v)
          && sh.hist[sh.gone[e]] == sh.hist[sh.gone[e] - 1] - {sh.keyOf[e]}
          && sh.writer[sh.gone[e] - 1] == sh.owner[e])
  }

  ghost predicate Gone(sh: Shared) {
    && (forall e {:trigger GoneEntry(sh, e)} {:trigger e in sh.gone} :: e in sh.gone ==> GoneEntry(sh, e))
    && (forall e {:trigger OwnedEntry(sh, e)} {:trigger e in sh.owner} :: e in sh.owner ==> OwnedEntry(sh, e))
  }

  /** The structure denotes the last plain map of the history. */
  ghost predicate Denotes(sh: Shared) {
    forall k :: Lookup(sh.Current(), k) == sh.Seen(k)
  }

  /** A read entry is expunged exactly when dirty exists and lacks its key. */
  ghost predicate ExpungedIffMissing(sh: Shared, except: set<Key>) {
    forall k :: k in sh.read.m && k !in except ==>
      (sh.P(sh.read.m[k]).Expunged? <==> sh.dirty.Some? && k !in sh.dirty.value)
  }

  ghost predicate Shape(sh: Shared, ph: Phase) {
    match ph
    case Normal =>
      && (sh.read.amended <==> sh.dirty.Some?)
      && ExpungedIffMissing(sh, {})
      && (sh.dirty.Some? ==> sh.misses < |sh.dirty.value|)
      && (sh.dirty.None? ==> sh.misses == 0)
    case Slack =>
      sh.read.amended && sh.dirty.Some? && ExpungedIffMissing(sh, {}) && sh.misses <= |sh.dirty.value|
    case Unexpunged(k, e) =>
      && sh.read.amended && sh.dirty.Some? && sh.misses < |sh.dirty.value|
      && k in sh.read.m && sh.read.m[k] == e && k !in sh.dirty.value && !sh.P(e).Expunged?
      && ExpungedIffMissing(sh, {k})
    case Copying(todo) =>
      && !sh.read.amended && sh.dirty.Some? && sh.misses == 0
      && sh.dirty.value.Keys <= sh.read.m.Keys && todo <= sh.read.m.Keys
      && ExpungedIffMissing(sh, todo)
      && (forall k :: k in todo ==> !sh.P(sh.read.m[k]).Expunged? && k !in sh.dirty.value)
    case Promoting =>
      sh.read.amended && sh.dirty.Some? && ExpungedIffMissing(sh, {})
    case Clearing =>
      sh.dirty.Some? && sh.read == ReadOnly(sh.dirty.value, false)
  }

  ghost predicate SharedInv(sh: Shared, ph: Phase) {
    Sizes(sh) && Links(sh) && Published(sh) && Gone(sh) && Denotes(sh) && Shape(sh, ph)
  }

  // ------------------------------------------------------------------------------------
  // One running operation
  // ------------------------------------------------------------------------------------

  /** At some moment of the operation the plain map held `v` for `k`. */
  ghost predicate Witness(hist: seq<Model>, inv: nat, k: Key, v: Option<Value>) {
    exists t :: inv <= t < |hist| && Lookup(hist[t], k) == v
  }

  /** The operation may still use entry `e` for key `k`: if it left the map, it did so during the operation. */
  ghost predicate Usable(sh: Shared, inv: nat, k: Key, e: EntryId) {
    && e < |sh.keyOf| && sh.keyOf[e] == k
    && (e in sh.gone ==> inv <= sh.gone[e])
    && (e in sh.owner && e in sh.gone ==> inv < sh.gone[e])
  }

  /** Range: decided keys were as reported at some moment, the others are still to be looked at. */
  ghost predicate WalkOk(sh: Shared, inv: nat, snap: map<Key, EntryId>, todo: set<Key>, seen: Model) {
    && todo <= snap.Keys && seen.Keys <= snap.Keys - todo
    && (forall k :: k in todo ==> Usable(sh, inv, k, snap[k]) && snap[k] in sh.published)
    && (forall k :: k !in snap ==> Witness(sh.hist, inv, k, None))
    && (forall k :: k in snap && k !in todo ==> Witness(sh.hist, inv, k, Lookup(seen, k)))
  }

  /** Range reports, for every key, what the plain map held for it at some moment of the call. */
  ghost predicate RangeOk(hist: seq<Model>, inv: nat, seen: Model, complete: bool) {
    forall k :: (k in seen || complete) ==> Witness(hist, inv, k, Lookup(seen, k))
  }

  /** `out` is a correct answer of `op` for a moment of the history not before `inv`. */
  ghost predicate Justified(hist: seq<Model>, op: Op, inv: nat, out: Outcome) {
    && inv <= out.lin < |hist|
    && (op.Range? ==> out.result.Visited? && RangeOk(hist[..out.lin + 1], inv, out.result.seen, out.result.complete))
    && (!op.Range? ==> out.result == Answer(op, hist[out.lin]))
    && (Writes(op, hist[out.lin]) ==> out.lin + 1 < |hist| && hist[out.lin + 1] == Effect(op, hist[out.lin]))
  }

  function OutOf(pc: Pc): Option<Outcome> {
    match pc
    case Return(out) => Some(out)
    case Miss(next) => NextOut(next)
    case PromoteStore(next) => NextOut(next)
    case PromoteClear(next) => NextOut(next)
    case Unlock(next) => NextOut(next)
    case _ => None
  }

  function NextOut(next: Next): Option<Outcome> {
    if next.Finish? then Some(next.out) else None
  }

  /** The entry an operation is about to act on without holding the lock throughout. */
  function HeldBy(pc: Pc): Option<EntryId> {
    match pc
    case EntryLoad(e, _) => Some(e)
    case EntryCas(e, _, _) => Some(e)
    case Miss(next) => NextEntry(next)
    case PromoteStore(next) => NextEntry(next)
    case PromoteClear(next) => NextEntry(next)
    case Unlock(next) => NextEntry(next)
    case _ => None
  }

  function NextEntry(next: Next): Option<EntryId> {
    if next.Entry? then Some(next.e) else None
  }

  /** The change of the plain map that currently counts as made by this operation. */
  function Claim(sh: Shared, id: OpId, r: Running): Option<nat> {
    var out := OutOf(r.pc);
    var e := HeldBy(r.pc);
    if out.Some? then
      (if out.value.lin < |sh.hist| && Writes(r.op, sh.hist[out.value.lin]) then Some(out.value.lin) else None)
    else if e.Some? then EntryClaim(sh, id, e.value)
    else None
  }

  function EntryClaim(sh: Shared, id: OpId, e: EntryId): Option<nat> {
    if e in sh.owner && sh.owner[e] == id && sh.P(e).Val? && e in sh.gone && sh.gone[e] > 0 then
      Some(sh.gone[e] - 1)
    else None
  }

  /** The operation is recorded as the writer of its own change and of no other. */
  ghost predicate Claims(sh: Shared, id: OpId, r: Running) {
    && (forall t :: 0 <= t < |sh.writer| ==> (sh.writer[t] == id <==> Claim(sh, id, r) == Some(t)))
    && (forall e {:trigger e in sh.owner} :: e in sh.owner && sh.owner[e] == id ==>
          r.op.LoadAndDelete? && (sh.P(e).Val? ==> HeldBy(r.pc) == Some(e)))
  }

  predicate Holding(pc: Pc) {
    match pc
    case Begin => false
    case WantLock => false
    case EntryLoad(_, how) => !how.Free?
    case EntryCas(_, _, how) => !how.Free?
    case Walk(_, _, _) => false
    case Return(_) => false
    case Broken => false
    case _ => true
  }

  /** Which entry methods an operation uses, and what the compare-and-swap expects. */
  ghost predicate EntryOk(sh: Shared, r: Running, e: EntryId, how: How) {
    && !r.op.Range?
    && Usable(sh, r.inv, r.op.k, e)
    && (r.op.Swap? ==> how.Free?)
    && (r.op.Load? || r.op.LoadAndDelete? || r.op.CompareAndDelete? ==> how.Free?)
    && (how.Free? && (r.op.Swap? || r.op.LoadOrStore? || r.op.CompareAndSwap?) ==> e in sh.published)
    && (how.ViaRead? ==> r.op.k in sh.read.m && sh.read.m[r.op.k] == e)
    && (!how.Free? && r.op.LoadOrStore? ==> !sh.P(e).Expunged?)
    && (how.ViaDirty? ==> r.op.k !in sh.read.m && r.op.k in sh.Dirty() && sh.Dirty()[r.op.k] == e && sh.read.amended)
  }

  ghost predicate NextOk(sh: Shared, r: Running, next: Next) {
    match next
    case Finish(out) => Justified(sh.hist, r.op, r.inv, out)
    case Entry(e) =>
      (r.op.Load? || r.op.LoadAndDelete? || r.op.CompareAndDelete?) && Usable(sh, r.inv, r.op.k, e)
    case Scan(snap) =>
      && r.op.Range?
      && (r.pc.PromoteStore? ==> snap == sh.Dirty())
      && (!r.pc.PromoteStore? ==> forall k :: k in snap ==> snap[k] in sh.published)
      && (forall k :: k in snap ==> Usable(sh, r.inv, k, snap[k]))
      && (forall k :: k !in snap ==> Witness(sh.hist, r.inv, k, None))
  }

  ghost predicate PcOk(sh: Shared, r: Running) {
    match r.pc
    case Begin => true
    case WantLock => true
    case Locked => true
    case EntryLoad(e, how) => EntryOk(sh, r, e, how)
    case EntryCas(e, p, how) =>
      && !r.op.Load?
      && EntryOk(sh, r, e, how)
      && !p.Expunged?
      && (r.op.LoadOrStore? ==> p.Nil?)
      && (!r.op.Swap? && !r.op.LoadOrStore? ==> p.Val?)
    case Unexpunge(e) => (r.op.Swap? || r.op.LoadOrStore?) && r.op.k in sh.read.m && sh.read.m[r.op.k] == e
    case Relink(e) => r.op.Swap? || r.op.LoadOrStore?
    case SwapIn(e) => r.op.Swap? && sh.Linked(r.op.k) == Some(e) && !sh.P(e).Expunged?
    case Copy(todo) => Absent(sh, r.op)
    case CopyLoad(k, todo) => Absent(sh, r.op) && k !in todo
    case CopyCas(k, todo) => Absent(sh, r.op) && k !in todo
    case Mark => Absent(sh, r.op)
    case Insert => Absent(sh, r.op)
    case Miss(next) => NextOk(sh, r, next) && !next.Scan?
    case PromoteStore(next) => NextOk(sh, r, next)
    case PromoteClear(next) => NextOk(sh, r, next)
    case Unlock(next) => NextOk(sh, r, next)
    case Walk(snap, todo, seen) => r.op.Range? && WalkOk(sh, r.inv, snap, todo, seen)
    case Return(out) => Justified(sh.hist, r.op, r.inv, out)
    case Broken => false
  }

  ghost predicate Absent(sh: Shared, op: Op) {
    (op.Swap? || op.LoadOrStore?) && op.k !in sh.read.m && op.k !in sh.Dirty()
  }

  ghost predicate OpInv(sh: Shared, id: OpId, r: Running) {
    && r.inv < |sh.hist|
    && (Holding(r.pc) <==> sh.lock == Some(id))
    && PcOk(sh, r)
    && Claims(sh, id, r)
  }

  // ------------------------------------------------------------------------------------
  // What a step of one operation may do to the others
  // ------------------------------------------------------------------------------------

  /** The history only grows, entries only leave, and a change may only be taken over by `id`
      together with the value of the unlinked entry it stands for. */
  ghost predicate Advance(sh: Shared, sh': Shared, id: OpId) {
    && sh.hist <= sh'.hist && |sh.writer| <= |sh'.writer|
    && |sh.heap| <= |sh'.heap| && sh.keyOf <= sh'.keyOf
    && sh.published <= sh'.published
    && (forall e {:trigger e in sh.gone} {:trigger e in sh'.gone} ::
          e in sh.gone ==> e in sh'.gone && sh'.gone[e] == sh.gone[e])
    && (forall e {:trigger e in sh'.gone} :: e in sh'.gone && e !in sh.gone ==> sh.Now() <= sh'.gone[e])
    && (forall e {:trigger e in sh'.owner} :: e in sh'.owner && e !in sh.owner ==> NewlyOwned(sh, sh', id, e))
    && (forall e {:trigger e in sh.owner} {:trigger e in sh'.owner} :: e in sh.owner ==> StillOwned(sh, sh', id, e))
    && (forall t {:trigger sh'.writer[t]} :: 0 <= t < |sh.writer| ==>
          sh'.writer[t] == sh.writer[t] || (sh'.writer[t] == id && Taken(sh, sh', t)))
    && (forall t {:trigger sh'.writer[t]} :: |sh.writer| <= t < |sh'.writer| ==> sh'.writer[t] == id)
  }

  ghost predicate NewlyOwned(sh: Shared, sh': Shared, id: OpId, e: EntryId)
    requires e in sh'.owner
  {
    e !in sh.gone && e in sh'.gone && sh.Now() < sh'.gone[e] && sh'.owner[e] == id
  }

  ghost predicate StillOwned(sh: Shared, sh': Shared, id: OpId, e: EntryId)
    requires e in sh.owner
  {
    && e in sh'.owner && sh'.owner[e] == sh.owner[e]
    && (sh'.P(e) == sh.P(e) || sh'.P(e).Nil?)
    && (e in sh.gone && 0 < sh.gone[e] <= |sh.writer| && sh.gone[e] <= |sh'.writer| && sh.P(e).Val? && sh'.P(e).Nil? ==>
          sh'.writer[sh.gone[e] - 1] == id)
  }

  ghost predicate Taken(sh: Shared, sh': Shared, t: nat)
    requires t < |sh.writer|
  {
    exists e {:trigger e in sh.owner} ::
      e in sh.owner && e in sh.gone && sh.gone[e] == t + 1 && sh.P(e).Val? && sh'.P(e).Nil?
      && sh.owner[e] == sh.writer[t]
  }

  /** Nothing the mutex protects has changed, and no entry became or ceased to be expunged. */
  ghost predicate Unmoved(sh: Shared, sh': Shared) {
    && sh'.read == sh.read && sh'.dirty == sh.dirty && sh'.misses == sh.misses
    && |sh'.heap| == |sh.heap| && sh'.keyOf == sh.keyOf
    && (forall e :: 0 <= e < |sh.heap| ==> (sh'.P(e).Expunged? <==> sh.P(e).Expunged?))
  }

  lemma WitnessKept(h: seq<Model>, h': seq<Model>, inv: nat, k: Key, v: Option<Value>)
    requires h <= h' && Witness(h, inv, k, v)
    ensures Witness(h', inv, k, v)
  {
    var t :| inv <= t < |h| && Lookup(h[t], k) == v;
    assert h'[t] == h[t];
  }

  lemma JustifiedKept(h: seq<Model>, h': seq<Model>, op: Op, inv: nat, out: Outcome)
    requires h <= h' && Justified(h, op, inv, out)
    ensures Justified(h', op, inv, out)
  {
    assert h'[out.lin] == h[out.lin];
    if Writes(op, h[out.lin]) {
      assert h'[out.lin + 1] == h[out.lin + 1];
    }
    assert h'[..out.lin + 1] == h[..out.lin + 1];
  }

  lemma UsableKept(sh: Shared, sh': Shared, id: OpId, inv: nat, k: Key, e: EntryId)
    requires Advance(sh, sh', id) && Sizes(sh) && inv < |sh.hist| && Usable(sh, inv, k, e)
    ensures Usable(sh', inv, k, e)
  {
  }

  lemma NextKept(sh: Shared, sh': Shared, id: OpId, r: Running, next: Next)
    requires Advance(sh, sh', id) && Sizes(sh) && r.inv < |sh.hist|
    requires r.pc.PromoteStore? ==> Unmoved(sh, sh')
    requires NextOk(sh, r, next)
    ensures NextOk(sh', r, next)
  {
    match next
    case Finish(out) => JustifiedKept(sh.hist, sh'.hist, r.op, r.inv, out);
    case Entry(e) => UsableKept(sh, sh', id, r.inv, r.op.k, e);
    case Scan(snap) =>
      forall k | k in snap ensures Usable(sh', r.inv, k, snap[k]) { UsableKept(sh, sh', id, r.inv, k, snap[k]); }
      forall k | k !in snap ensures Witness(sh'.hist, r.inv, k, None) {
        WitnessKept(sh.hist, sh'.hist, r.inv, k, None);
      }
  }

  lemma WalkKept(sh: Shared, sh': Shared, id: OpId, inv: nat, snap: map<Key, EntryId>, todo: set<Key>, seen: Model)
    requires Advance(sh, sh', id) && Sizes(sh) && inv < |sh.hist| && WalkOk(sh, inv, snap, todo, seen)
    ensures WalkOk(sh', inv, snap, todo, seen)
  {
    forall k | k in todo ensures Usable(sh', inv, k, snap[k]) { UsableKept(sh, sh', id, inv, k, snap[k]); }
    forall k | k !in snap ensures Witness(sh'.hist, inv, k, None) { WitnessKept(sh.hist, sh'.hist, inv, k, None); }
    forall k | k in snap && k !in todo ensures Witness(sh'.hist, inv, k, Lookup(seen, k)) {
      WitnessKept(sh.hist, sh'.hist, inv, k, Lookup(seen, k));
    }
  }

  lemma PcKept(sh: Shared, sh': Shared, id: OpId, r: Running)
    requires Advance(sh, sh', id) && Sizes(sh) && r.inv < |sh.hist| && PcOk(sh, r)
    requires Holding(r.pc) ==> Unmoved(sh, sh')
    ensures PcOk(sh', r)
  {
    match r.pc
    case EntryLoad(e, how) => UsableKept(sh, sh', id, r.inv, r.op.k, e);
    case EntryCas(e, p, how) => UsableKept(sh, sh', id, r.inv, r.op.k, e);
    case Miss(next) => NextKept(sh, sh', id, r, next);
    case PromoteStore(next) => NextKept(sh, sh', id, r, next);
    case PromoteClear(next) => NextKept(sh, sh', id, r, next);
    case Unlock(next) => NextKept(sh, sh', id, r, next);
    case Walk(snap, todo, seen) => WalkKept(sh, sh', id, r.inv, snap, todo, seen);
    case Return(out) => JustifiedKept(sh.hist, sh'.hist, r.op, r.inv, out);
    case _ =>
  }

  lemma OutExcludesEntry(pc: Pc)
    ensures OutOf(pc).None? || HeldBy(pc).None?
  {
  }

  /** The change behind an orphan is taken over only together with the orphan's value. */
  lemma NotTaken(sh: Shared, sh': Shared, actor: OpId, id: OpId, r: Running, t: nat)
    requires Advance(sh, sh', actor) && Claims(sh, id, r)
    requires t < |sh.writer| && sh.writer[t] == id
    requires HeldBy(r.pc).Some? ==> sh'.P(HeldBy(r.pc).value) == sh.P(HeldBy(r.pc).value)
    ensures sh'.writer[t] == id
  {
    assert sh'.writer[t] == sh.writer[t] || Taken(sh, sh', t);
  }

  /** Another operation's step leaves a claim alone, or takes it over with its entry. */
  ghost predicate ClaimStays(sh: Shared, sh': Shared, actor: OpId, c: Option<nat>, c': Option<nat>) {
    || (c.None? && c'.None?)
    || (c.Some? && c.value < |sh.writer| <= |sh'.writer| && c' == c && sh'.writer[c.value] == sh.writer[c.value])
    || (c.Some? && c.value < |sh.writer| <= |sh'.writer| && c'.None? && sh'.writer[c.value] == actor)
  }

  lemma OutClaimKept(sh: Shared, sh': Shared, actor: OpId, id: OpId, r: Running)
    requires Advance(sh, sh', actor) && Sizes(sh) && Sizes(sh') && id != actor
    requires OutOf(r.pc).Some? && Justified(sh.hist, r.op, r.inv, OutOf(r.pc).value)
    requires Claims(sh, id, r)
    ensures ClaimStays(sh, sh', actor, Claim(sh, id, r), Claim(sh', id, r))
  {
    OutExcludesEntry(r.pc);
    var out := OutOf(r.pc).value;
    assert sh'.hist[out.lin] == sh.hist[out.lin];
    if Claim(sh, id, r).Some? {
      NotTaken(sh, sh', actor, id, r, out.lin);
    }
  }

  lemma EntryClaimKept(sh: Shared, sh': Shared, actor: OpId, id: OpId, e: EntryId)
    requires e in sh.owner ==> OwnedEntry(sh, e) && StillOwned(sh, sh', actor, e)
    requires e in sh.owner ==> e in sh'.gone && sh'.gone[e] == sh.gone[e]
    requires e in sh'.owner && e !in sh.owner ==> NewlyOwned(sh, sh', actor, e)
    requires |sh.writer| <= |sh'.writer| && id != actor
    ensures EntryClaim(sh, id, e).Some? ==>
      EntryClaim(sh, id, e).value < |sh.writer| && sh.writer[EntryClaim(sh, id, e).value] == id
    ensures EntryClaim(sh', id, e).Some? ==> EntryClaim(sh', id, e) == EntryClaim(sh, id, e) && sh'.P(e) == sh.P(e)
    ensures EntryClaim(sh', id, e).None? && EntryClaim(sh, id, e).Some? ==>
      sh'.writer[EntryClaim(sh, id, e).value] == actor
  {
  }

  lemma HeldClaimKept(sh: Shared, sh': Shared, actor: OpId, id: OpId, r: Running)
    requires Advance(sh, sh', actor) && Sizes(sh) && Gone(sh) && id != actor
    requires OutOf(r.pc).None?
    requires Claims(sh, id, r)
    ensures ClaimStays(sh, sh', actor, Claim(sh, id, r), Claim(sh', id, r))
  {
    if HeldBy(r.pc).Some? {
      var e := HeldBy(r.pc).value;
      assert e in sh.owner ==> OwnedEntry(sh, e) && StillOwned(sh, sh', actor, e);
      EntryClaimKept(sh, sh', actor, id, e);
      var c, c' := EntryClaim(sh, id, e), EntryClaim(sh', id, e);
      if c'.Some? {
        NotTaken(sh, sh', actor, id, r, c.value);
      }
    }
  }

  lemma ClaimsKept(sh: Shared, sh': Shared, actor: OpId, id: OpId, r: Running)
    requires Advance(sh, sh', actor) && Sizes(sh) && Sizes(sh') && Gone(sh) && id != actor
    requires OutOf(r.pc).Some? ==> Justified(sh.hist, r.op, r.inv, OutOf(r.pc).value)
    requires Claims(sh, id, r)
    ensures Claims(sh', id, r)
  {
    if OutOf(r.pc).Some? {
      OutClaimKept(sh, sh', actor, id, r);
    } else {
      HeldClaimKept(sh, sh', actor, id, r);
    }
    var c, c' := Claim(sh, id, r), Claim(sh', id, r);
    forall t | 0 <= t < |sh'.writer| ensures sh'.writer[t] == id <==> c' == Some(t) {
      if t < |sh.writer| {
        assert sh.writer[t] == id <==> c == Some(t);
        assert sh'.writer[t] == sh.writer[t] || sh'.writer[t] == actor;
      } else {
        assert sh'.writer[t] == actor;
      }
    }
  }

  /** An operation that is not stepping keeps its invariant. */
  lemma OthersKept(sh: Shared, sh': Shared, actor: OpId, id: OpId, r: Running)
    requires Advance(sh, sh', actor) && Sizes(sh) && Sizes(sh') && Gone(sh) && id != actor
    requires OpInv(sh, id, r)
    requires sh.lock == Some(id) ==> Unmoved(sh, sh')
    requires sh.lock == Some(id) <==> sh'.lock == Some(id)
    ensures OpInv(sh', id, r)
  {
    PcKept(sh, sh', actor, r);
    ClaimsKept(sh, sh', actor, id, r);
  }

  // ------------------------------------------------------------------------------------
  // What each kind of action does to the shared state
  // ------------------------------------------------------------------------------------

  /** `m'` is `m` except that `k` holds what `q` points to. */
  ghost predicate OnlyAt(m': Model, m: Model, k: Key, q: Ptr) {
    && Lookup(m', k) == (if q.Val? then Some(q.v) else None)
    && (forall x :: x != k ==> Lookup(m', x) == Lookup(m, x))
  }

  lemma UnmovedKept(sh: Shared, sh': Shared, ph: Phase)
    requires Unmoved(sh, sh') && sh'.gone == sh.gone && sh'.published == sh.published
    requires |sh.heap| == |sh.keyOf| && Links(sh) && Published(sh) && Shape(sh, ph)
    ensures Links(sh') && Published(sh') && Shape(sh', ph)
    ensures forall k :: sh'.Linked(k) == sh.Linked(k)
  {
    assert forall k :: sh'.Linked(k) == sh.Linked(k);
    forall x | x in sh'.Dirty() ensures SharedEntry(sh', x) {
      assert SharedEntry(sh, x);
    }
    forall k | k in sh.read.m ensures sh'.P(sh.read.m[k]).Expunged? <==> sh.P(sh.read.m[k]).Expunged? {
      assert sh.Linked(k) == Some(sh.read.m[k]);
    }
    assert Shape(sh', ph);
  }

  /** Writing a value, or nil, through a linked entry changes the plain map at that key only. */
  lemma SwingShared(sh: Shared, ph: Phase, id: OpId, op: Op, e: EntryId, q: Ptr)
    requires SharedInv(sh, ph) && !op.Range?
    requires e < |sh.heap| && e !in sh.gone && sh.keyOf[e] == op.k && !sh.P(e).Expunged? && !q.Expunged?
    requires OnlyAt(Effect(op, sh.Current()), sh.Current(), op.k, q)
    ensures var sh' := sh.Set(e, q).Log(id, op);
      SharedInv(sh', ph) && Advance(sh, sh', id) && Unmoved(sh, sh')
  {
    var sh' := sh.Set(e, q).Log(id, op);
    UnmovedKept(sh, sh', ph);
    SwingGone(sh, id, op, e, q);
    SwingDenotes(sh, id, op, e, q);
  }

  lemma SwingDenotes(sh: Shared, id: OpId, op: Op, e: EntryId, q: Ptr)
    requires Links(sh) && Denotes(sh) && |sh.heap| == |sh.keyOf| && !op.Range?
    requires e < |sh.heap| && e !in sh.gone && sh.keyOf[e] == op.k
    requires OnlyAt(Effect(op, sh.Current()), sh.Current(), op.k, q)
    ensures Denotes(sh.Set(e, q).Log(id, op))
  {
    var sh' := sh.Set(e, q).Log(id, op);
    forall k ensures Lookup(sh'.Current(), k) == sh'.Seen(k) {
      assert sh'.Linked(k) == sh.Linked(k);
      assert Lookup(sh.Current(), k) == sh.Seen(k);
    }
  }

  lemma SwingGone(sh: Shared, id: OpId, op: Op, e: EntryId, q: Ptr)
    requires Sizes(sh) && Gone(sh) && e < |sh.heap| && e !in sh.gone
    ensures var sh' := sh.Set(e, q).Log(id, op);
      Gone(sh') && Sizes(sh') && Advance(sh, sh', id)
  {
    var sh' := sh.Set(e, q).Log(id, op);
    forall x | x in sh'.owner ensures OwnedEntry(sh', x) {
      assert OwnedEntry(sh, x);
    }
    forall x | x in sh'.gone ensures GoneEntry(sh', x) {
      assert GoneEntry(sh, x);
    }
  }

  /** A delete that wins on an unlinked entry takes over the change the unlinking made. */
  lemma TakeOverShared(sh: Shared, ph: Phase, id: OpId, e: EntryId)
    requires SharedInv(sh, ph) && e in sh.gone && sh.P(e).Val?
    ensures e in sh.owner && OwnedEntry(sh, e)
    ensures var sh' := sh.Set(e, Nil).(writer := sh.writer[sh.gone[e] - 1 := id]);
      SharedInv(sh', ph) && Advance(sh, sh', id) && Unmoved(sh, sh')
  {
    var sh' := sh.Set(e, Nil).(writer := sh.writer[sh.gone[e] - 1 := id]);
    UnmovedKept(sh, sh', ph);
    TakeOverGone(sh, id, e);
    TakeOverDenotes(sh, id, e);
  }

  lemma TakeOverDenotes(sh: Shared, id: OpId, e: EntryId)
    requires Sizes(sh) && Links(sh) && Denotes(sh) && e in sh.gone && e < |sh.heap| && 0 < sh.gone[e] <= |sh.writer|
    ensures Denotes(sh.Set(e, Nil).(writer := sh.writer[sh.gone[e] - 1 := id]))
  {
    var sh' := sh.Set(e, Nil).(writer := sh.writer[sh.gone[e] - 1 := id]);
    forall k ensures Lookup(sh'.Current(), k) == sh'.Seen(k) {
      assert Lookup(sh.Current(), k) == sh.Seen(k);
      assert FoundOk(sh, k);
    }
  }

  lemma TakeOverGone(sh: Shared, id: OpId, e: EntryId)
    requires Sizes(sh) && Gone(sh) && e in sh.gone && e in sh.owner && 0 < sh.gone[e] <= |sh.writer|
    requires sh.P(e).Val?
    ensures var sh' := sh.Set(e, Nil).(writer := sh.writer[sh.gone[e] - 1 := id]);
      Gone(sh') && Sizes(sh') && Advance(sh, sh', id)
  {
    var sh' := sh.Set(e, Nil).(writer := sh.writer[sh.gone[e] - 1 := id]);
    assert OwnedEntry(sh, e);
    forall x | x in sh'.owner ensures OwnedEntry(sh', x) {
      assert OwnedEntry(sh, x);
    }
    forall x | x in sh'.gone ensures GoneEntry(sh', x) {
      assert GoneEntry(sh, x);
    }
    hide Gone, GoneEntry;
    TakeOverAdvance(sh, id, e);
  }

  lemma TakeOverAdvance(sh: Shared, id: OpId, e: EntryId)
    requires Sizes(sh) && e in sh.gone && e in sh.owner && OwnedEntry(sh, e) && sh.P(e).Val?
    requires forall x :: x in sh.owner ==> OwnedEntry(sh, x)
    ensures Advance(sh, sh.Set(e, Nil).(writer := sh.writer[sh.gone[e] - 1 := id]), id)
  {
    var sh' := sh.Set(e, Nil).(writer := sh.writer[sh.gone[e] - 1 := id]);
    forall t | 0 <= t < |sh.writer| && sh'.writer[t] != sh.writer[t] ensures Taken(sh, sh', t) {
      assert t == sh.gone[e] - 1;
    }
  }

  /** Actions of the lock holder that record nothing in the history. */
  ghost predicate Silent(sh: Shared, sh': Shared) {
    && sh'.hist == sh.hist && sh'.writer == sh.writer && sh'.gone == sh.gone
    && sh'.owner == sh.owner && sh'.cut == sh.cut
    && sh'.keyOf == sh.keyOf && |sh'.heap| == |sh.heap| && sh'.published == sh.published
    && (forall e {:trigger sh'.P(e)} :: e in sh.gone ==> sh'.P(e) == sh.P(e))
  }

  lemma SilentKept(sh: Shared, sh': Shared, id: OpId)
    requires Silent(sh, sh') && Sizes(sh) && Gone(sh)
    ensures Sizes(sh') && Gone(sh') && Advance(sh, sh', id)
  {
    forall e | e in sh'.owner ensures OwnedEntry(sh', e) && StillOwned(sh, sh', id, e) {
      assert OwnedEntry(sh, e);
    }
    forall e | e in sh'.gone ensures GoneEntry(sh', e) {
      assert GoneEntry(sh, e);
    }
  }

  lemma SameSeen(sh: Shared, sh': Shared)
    requires Denotes(sh) && sh'.hist == sh.hist && forall k :: sh'.Seen(k) == sh.Seen(k)
    ensures Denotes(sh')
  {
    forall k ensures Lookup(sh'.Current(), k) == sh'.Seen(k) {
      assert Lookup(sh.Current(), k) == sh.Seen(k);
    }
  }

  lemma LockShared(sh: Shared, ph: Phase, id: OpId, lock: Option<OpId>)
    requires SharedInv(sh, ph)
    ensures SharedInv(sh.(lock := lock), ph) && Advance(sh, sh.(lock := lock), id) && Unmoved(sh, sh.(lock := lock))
  {
    hide Links, Published, Gone, Denotes, Shape, Advance;
    var sh' := sh.(lock := lock);
    UnmovedKept(sh, sh', ph);
    SilentKept(sh, sh', id);
    SameSeen(sh, sh');
  }

  lemma StartCopyShared(sh: Shared, id: OpId)
    requires SharedInv(sh, Normal) && !sh.read.amended
    ensures sh.dirty.None?
    ensures var sh' := sh.(dirty := Some(map[])); SharedInv(sh', Copying(sh.read.m.Keys)) && Advance(sh, sh', id)
  {
    var sh' := sh.(dirty := Some(map[]));
    assert forall k :: sh'.Linked(k) == sh.Linked(k);
    SilentKept(sh, sh', id);
    SameSeen(sh, sh');
  }

  lemma UnexpungeShared(sh: Shared, id: OpId, k: Key, e: EntryId)
    requires SharedInv(sh, Normal) && k in sh.read.m && sh.read.m[k] == e && sh.P(e).Expunged?
    ensures var sh' := sh.Set(e, Nil); SharedInv(sh', Unexpunged(k, e)) && Advance(sh, sh', id)
  {
    var sh' := sh.Set(e, Nil);
    assert sh.Linked(k) == Some(e);
    assert forall x :: sh'.Linked(x) == sh.Linked(x);
    forall x | x in sh'.Dirty() ensures SharedEntry(sh', x) {
      assert SharedEntry(sh, x);
    }
    SilentKept(sh, sh', id);
    SameSeen(sh, sh');
    forall x | x in sh.read.m && x != k ensures sh.read.m[x] != e { assert sh.Linked(x) == Some(sh.read.m[x]); }
  }

  lemma RelinkShared(sh: Shared, id: OpId, k: Key, e: EntryId)
    requires SharedInv(sh, Unexpunged(k, e))
    ensures var sh' := sh.(dirty := Some(sh.Dirty()[k := e])); SharedInv(sh', Normal) && Advance(sh, sh', id)
  {
    var sh' := sh.(dirty := Some(sh.Dirty()[k := e]));
    assert forall x :: sh'.Linked(x) == sh.Linked(x);
    SilentKept(sh, sh', id);
    SameSeen(sh, sh');
  }

  lemma CopyShared(sh: Shared, id: OpId, k: Key, todo: set<Key>)
    requires SharedInv(sh, Copying(todo + {k})) && k !in todo
    ensures k in sh.read.m && !sh.P(sh.read.m[k]).Expunged? && sh.dirty.Some?
    ensures sh.P(sh.read.m[k]).Val? ==>
      var sh' := sh.(dirty := Some(sh.Dirty()[k := sh.read.m[k]]));
      SharedInv(sh', Copying(todo)) && Advance(sh, sh', id)
  {
    assert k in todo + {k};
    var sh' := sh.(dirty := Some(sh.Dirty()[k := sh.read.m[k]]));
    assert forall x :: sh'.Linked(x) == sh.Linked(x);
    SilentKept(sh, sh', id);
    SameSeen(sh, sh');
  }

  lemma ExpungeShared(sh: Shared, id: OpId, k: Key, todo: set<Key>)
    requires SharedInv(sh, Copying(todo + {k})) && k !in todo
    requires k in sh.read.m && sh.P(sh.read.m[k]).Nil?
    ensures var sh' := sh.Set(sh.read.m[k], Expunged); SharedInv(sh', Copying(todo)) && Advance(sh, sh', id)
  {
    hide Gone, Denotes, Shape, Advance;
    var e := sh.read.m[k];
    var sh' := sh.Set(e, Expunged);
    assert sh.Linked(k) == Some(e) && FoundOk(sh, k);
    assert forall x :: sh'.Linked(x) == sh.Linked(x);
    SilentKept(sh, sh', id);
    SameSeen(sh, sh');
    ExpungeShape(sh, k, todo);
  }

  lemma ExpungeShape(sh: Shared, k: Key, todo: set<Key>)
    requires Links(sh) && |sh.heap| == |sh.keyOf| && Shape(sh, Copying(todo + {k})) && k !in todo
    requires k in sh.read.m && sh.P(sh.read.m[k]).Nil?
    ensures var sh' := sh.Set(sh.read.m[k], Expunged);
      Shape(sh', Copying(todo)) && forall x :: x in sh'.Dirty() ==> SharedEntry(sh', x)
  {
    var e := sh.read.m[k];
    var sh' := sh.Set(e, Expunged);
    assert k in todo + {k};
    assert sh.Linked(k) == Some(e);
    forall x | x in sh.read.m && x != k ensures sh.read.m[x] != e && sh'.P(sh.read.m[x]) == sh.P(sh.read.m[x]) {
      assert sh.Linked(x) == Some(sh.read.m[x]);
    }
    forall x | x in sh'.Dirty() ensures SharedEntry(sh', x) {
      assert SharedEntry(sh, x) && x in sh.read.m && x != k;
    }
  }

  lemma MarkShared(sh: Shared, id: OpId)
    requires SharedInv(sh, Copying({}))
    ensures var sh' := sh.(read := ReadOnly(sh.read.m, true)); SharedInv(sh', Slack) && Advance(sh, sh', id)
  {
    hide Gone, Denotes, Advance;
    var sh' := sh.(read := ReadOnly(sh.read.m, true));
    assert forall x :: sh'.Linked(x) == sh.Linked(x);
    forall x | x in sh'.Dirty() ensures SharedEntry(sh', x) {
      assert SharedEntry(sh, x);
    }
    SilentKept(sh, sh', id);
    SameSeen(sh, sh');
  }

  lemma MissShared(sh: Shared, id: OpId)
    requires SharedInv(sh, Slack)
    ensures var sh' := sh.(misses := sh.misses + 1);
      SharedInv(sh', if sh'.misses < |sh.Dirty()| then Normal else Promoting) && Advance(sh, sh', id)
  {
    var sh' := sh.(misses := sh.misses + 1);
    assert forall x :: sh'.Linked(x) == sh.Linked(x);
    SilentKept(sh, sh', id);
    SameSeen(sh, sh');
  }

  lemma ClearShared(sh: Shared, id: OpId)
    requires SharedInv(sh, Clearing)
    ensures var sh' := sh.(dirty := None, misses := 0); SharedInv(sh', Normal) && Advance(sh, sh', id)
  {
    var sh' := sh.(dirty := None, misses := 0);
    assert forall x :: sh'.Linked(x) == sh.Linked(x);
    forall x | x in sh.read.m ensures !sh.P(sh.read.m[x]).Expunged? {
      assert SharedEntry(sh, x);
    }
    SilentKept(sh, sh', id);
    SameSeen(sh, sh');
  }

  /** Storing `dirty` into `read` denotes the same map; the expunged entries it leaves out are gone. */
  lemma PromoteShared(sh: Shared, id: OpId)
    requires SharedInv(sh, Promoting)
    ensures var sh' := AfterPromoteStore(sh); SharedInv(sh', Clearing) && Advance(sh, sh', id)
  {
    var sh' := AfterPromoteStore(sh);
    hide Links, Published, Gone, Denotes, Advance;
    PromoteGone(sh, id);
    PromoteLinks(sh);
    PromoteSeen(sh);
    SameSeen(sh, sh');
  }

  lemma PromoteSeen(sh: Shared)
    requires SharedInv(sh, Promoting)
    ensures forall k :: AfterPromoteStore(sh).Seen(k) == sh.Seen(k)
  {
    var sh' := AfterPromoteStore(sh);
    forall k ensures sh'.Seen(k) == sh.Seen(k) {
      assert sh.Linked(k).Some? ==> sh'.Linked(k) == sh.Linked(k) || sh.P(sh.Linked(k).value).Expunged?;
    }
  }

  /** The entries a promotion leaves out are expunged, and their keys absent. */
  lemma LeftOut(sh: Shared, e: EntryId)
    requires Sizes(sh) && Links(sh) && Published(sh) && Denotes(sh) && Shape(sh, Promoting)
    requires e in EntriesOf(sh, sh.read.m) && e !in EntriesOf(sh, sh.Dirty())
    ensures e !in sh.gone && e in sh.published && sh.P(e).Expunged? && sh.keyOf[e] !in sh.Current()
    ensures sh.keyOf[e] !in sh.Dirty()
  {
    var k := sh.keyOf[e];
    assert sh.Linked(k) == Some(e);
    assert Lookup(sh.Current(), k) == sh.Seen(k);
  }

  lemma PromoteGone(sh: Shared, id: OpId)
    requires Sizes(sh) && Links(sh) && Published(sh) && Gone(sh) && Denotes(sh) && Shape(sh, Promoting)
    ensures var sh' := AfterPromoteStore(sh); Sizes(sh') && Gone(sh') && Advance(sh, sh', id)
  {
    var sh' := AfterPromoteStore(sh);
    forall e | e in sh'.gone ensures GoneEntry(sh', e) {
      if e in sh.gone {
        assert GoneEntry(sh, e);
        assert sh.Linked(sh.keyOf[e]) != Some(e);
      } else {
        LeftOut(sh, e);
      }
    }
    forall e | e in sh.gone ensures sh'.gone[e] == sh.gone[e] {
      assert GoneEntry(sh, e);
      assert sh.Linked(sh.keyOf[e]) != Some(e);
    }
    forall e | e in sh'.owner ensures OwnedEntry(sh', e) && StillOwned(sh, sh', id, e) {
      assert OwnedEntry(sh, e);
      assert sh.Linked(sh.keyOf[e]) != Some(e);
    }
  }

  lemma PromoteLinks(sh: Shared)
    requires Sizes(sh) && Links(sh) && Published(sh) && Shape(sh, Promoting)
    ensures var sh' := AfterPromoteStore(sh); Links(sh') && Published(sh') && Shape(sh', Clearing)
  {
    var sh' := AfterPromoteStore(sh);
    PromotePublished(sh);
    assert sh'.Dirty() == sh.Dirty();
    forall k ensures FoundOk(sh', k) {
      assert FoundOk(sh, k);
      if k in sh.Dirty() { assert SharedEntry(sh, k) && sh.Linked(k) == Some(sh.Dirty()[k]); }
    }
    forall e | 0 <= e < |sh.keyOf| ensures Placed(sh', e) {
      assert Placed(sh, e);
    }
    forall k | k in sh'.Dirty() ensures SharedEntry(sh', k) {
      assert SharedEntry(sh, k);
    }
  }

  lemma PromotePublished(sh: Shared)
    requires Sizes(sh) && Links(sh) && Published(sh) && Shape(sh, Promoting)
    ensures Published(AfterPromoteStore(sh))
  {
    var sh' := AfterPromoteStore(sh);
    forall k | k in sh'.read.m ensures sh'.read.m[k] in sh'.published {
      assert sh.Linked(k) == Some(sh.Dirty()[k]);
    }
    forall e | e in sh'.published && e !in sh'.gone ensures sh.keyOf[e] in sh'.read.m && sh'.read.m[sh.keyOf[e]] == e {
      assert e in EntriesOf(sh, sh.Dirty()) || e in EntriesOf(sh, sh.read.m);
    }
  }

  /** A new entry in `dirty` adds its key to the plain map. */
  lemma InsertShared(sh: Shared, id: OpId, op: Op)
    requires SharedInv(sh, Slack) && Absent(sh, op)
    ensures SharedInv(AfterInsert(sh, id, op).0, Normal) && Advance(sh, AfterInsert(sh, id, op).0, id)
    ensures AfterInsert(sh, id, op).1 == Unlock(Finish(Outcome(NotFound(op), sh.Now())))
  {
    var sh' := AfterInsert(sh, id, op).0;
    var e := |sh.heap|;
    forall k | k != op.k ensures sh'.Linked(k) == sh.Linked(k) && sh'.Seen(k) == sh.Seen(k) { }
    forall k ensures Lookup(sh'.Current(), k) == sh'.Seen(k) {
      assert Lookup(sh.Current(), k) == sh.Seen(k);
    }
    InsertGone(sh, id, op);
    assert sh'.Linked(op.k) == Some(e);
    InsertLinks(sh, id, op);
  }

  lemma InsertGone(sh: Shared, id: OpId, op: Op)
    requires Sizes(sh) && Gone(sh) && Absent(sh, op) && sh.dirty.Some?
    ensures var sh' := AfterInsert(sh, id, op).0; Sizes(sh') && Gone(sh') && Advance(sh, sh', id)
  {
    var sh' := AfterInsert(sh, id, op).0;
    forall e | e in sh'.gone ensures GoneEntry(sh', e) { assert GoneEntry(sh, e); }
    forall e | e in sh'.owner ensures OwnedEntry(sh', e) && StillOwned(sh, sh', id, e) {
      assert OwnedEntry(sh, e) && GoneEntry(sh, e);
    }
  }

  lemma InsertLinks(sh: Shared, id: OpId, op: Op)
    requires Sizes(sh) && Gone(sh) && Links(sh) && Published(sh) && Absent(sh, op) && Shape(sh, Slack)
    ensures var sh' := AfterInsert(sh, id, op).0; Links(sh') && Published(sh') && Shape(sh', Normal)
  {
    var sh' := AfterInsert(sh, id, op).0;
    assert |sh.heap| !in sh.gone;
    GrownLinks(sh, sh', op.k, id, op.v);
    GrownShape(sh, sh', op.k, id, op.v);
  }

  /** `sh'` has one more entry, found through `dirty` under the new key `k`. */
  ghost predicate GrownBy(sh: Shared, sh': Shared, k: Key, id: OpId, v: Value) {
    && k !in sh.read.m && k !in sh.Dirty() && |sh.heap| == |sh.keyOf|
    && sh'.read == sh.read && sh'.dirty == Some(sh.Dirty()[k := |sh.heap|]) && sh'.misses == sh.misses
    && sh'.heap == sh.heap + [Val(id, v)] && sh'.keyOf == sh.keyOf + [k]
    && sh'.published == sh.published && sh'.gone == sh.gone
  }

  lemma GrownLinks(sh: Shared, sh': Shared, k: Key, id: OpId, v: Value)
    requires Links(sh) && GrownBy(sh, sh', k, id, v) && |sh.heap| !in sh.gone
    ensures Links(sh')
  {
    forall x ensures FoundOk(sh', x) && (x != k ==> sh'.Linked(x) == sh.Linked(x)) {
      assert FoundOk(sh, x);
    }
    forall e | 0 <= e < |sh'.keyOf| ensures Placed(sh', e) {
      if e < |sh.keyOf| { assert Placed(sh, e); }
    }
    forall x | x in sh'.Dirty() ensures SharedEntry(sh', x) {
      if x != k { assert SharedEntry(sh, x); }
    }
  }

  lemma GrownShape(sh: Shared, sh': Shared, k: Key, id: OpId, v: Value)
    requires Links(sh) && Published(sh) && Shape(sh, Slack) && GrownBy(sh, sh', k, id, v)
    ensures Published(sh') && Shape(sh', Normal)
  {
    forall x | x in sh.read.m ensures sh'.P(sh.read.m[x]) == sh.P(sh.read.m[x]) {
      assert sh.Linked(x) == Some(sh.read.m[x]) && FoundOk(sh, x);
    }
  }

  /** Taking an entry out of `dirty` removes its key from the plain map. */
  lemma UnlinkShared(sh: Shared, id: OpId, op: Op)
    requires SharedInv(sh, Normal) && op.LoadAndDelete? && op.k in sh.Dirty() && op.k !in sh.read.m
    ensures SharedInv(Unlinked(sh, id, op), Slack) && Advance(sh, Unlinked(sh, id, op), id)
  {
    hide Links, Published, Gone, Denotes, Shape, Advance;
    var sh' := Unlinked(sh, id, op);
    UnlinkTarget(sh, op);
    UnlinkGone(sh, id, op);
    CutLinks(sh, sh', op.k);
    CutShape(sh, sh', op.k);
    UnlinkDenotes(sh, id, op);
  }

  /** An entry found only through `dirty` was never published. */
  lemma UnlinkTarget(sh: Shared, op: Op)
    requires SharedInv(sh, Normal) && op.LoadAndDelete? && op.k in sh.Dirty() && op.k !in sh.read.m
    ensures Leaving(sh, op, sh.Dirty()[op.k])
  {
    assert sh.Linked(op.k) == Some(sh.Dirty()[op.k]) && FoundOk(sh, op.k) && SharedEntry(sh, op.k);
    assert Lookup(sh.Current(), op.k) == sh.Seen(op.k);
  }

  lemma UnlinkDenotes(sh: Shared, id: OpId, op: Op)
    requires |sh.hist| > 0 && Denotes(sh) && op.LoadAndDelete? && op.k in sh.Dirty() && op.k !in sh.read.m
    ensures Denotes(Unlinked(sh, id, op))
  {
    var sh' := Unlinked(sh, id, op);
    forall k ensures Lookup(sh'.Current(), k) == sh'.Seen(k) {
      assert Lookup(sh.Current(), k) == sh.Seen(k);
      if k != op.k { assert sh'.Linked(k) == sh.Linked(k); }
    }
  }

  /** The entry `e` of `op.k` may leave the map at the current moment. */
  ghost predicate Leaving(sh: Shared, op: Op, e: EntryId) {
    && op.LoadAndDelete? && op.k in sh.Dirty() && sh.Dirty()[op.k] == e
    && e < |sh.keyOf| && sh.keyOf[e] == op.k && e !in sh.gone && e !in sh.published && !sh.P(e).Expunged?
    && Lookup(sh.Current(), op.k) == (if sh.P(e).Val? then Some(sh.P(e).v) else None)
  }

  lemma UnlinkGone(sh: Shared, id: OpId, op: Op)
    requires Sizes(sh) && Gone(sh) && op.LoadAndDelete? && op.k in sh.Dirty() && Leaving(sh, op, sh.Dirty()[op.k])
    ensures var sh' := Unlinked(sh, id, op); Sizes(sh') && Gone(sh') && Advance(sh, sh', id)
  {
    var e := sh.Dirty()[op.k];
    if sh.P(e).Val? { UnlinkValue(sh, id, op, e); } else { UnlinkNil(sh, id, op, e); }
  }

  lemma UnlinkValue(sh: Shared, id: OpId, op: Op, e: EntryId)
    requires Sizes(sh) && Gone(sh) && Leaving(sh, op, e) && sh.P(e).Val?
    ensures var sh' := Unlinked(sh, id, op); Sizes(sh') && Gone(sh') && Advance(sh, sh', id)
  {
    var sh' := Unlinked(sh, id, op);
    forall x | x in sh'.gone ensures GoneEntry(sh', x) {
      if x != e { assert GoneEntry(sh, x); }
    }
    forall x | x in sh'.owner ensures OwnedEntry(sh', x) {
      if x != e { assert OwnedEntry(sh, x); }
    }
    UnlinkAdvance(sh, id, op, e);
  }

  lemma UnlinkAdvance(sh: Shared, id: OpId, op: Op, e: EntryId)
    requires Sizes(sh) && Leaving(sh, op, e) && sh.P(e).Val?
    ensures Advance(sh, Unlinked(sh, id, op), id)
  {
  }

  lemma UnlinkNil(sh: Shared, id: OpId, op: Op, e: EntryId)
    requires Sizes(sh) && Gone(sh) && Leaving(sh, op, e) && sh.P(e).Nil?
    ensures var sh' := Unlinked(sh, id, op); Sizes(sh') && Gone(sh') && Advance(sh, sh', id)
  {
    var sh' := Unlinked(sh, id, op);
    forall x | x in sh'.gone ensures GoneEntry(sh', x) {
      if x != e { assert GoneEntry(sh, x); }
    }
    forall x | x in sh'.owner ensures OwnedEntry(sh', x) && StillOwned(sh, sh', id, x) { assert OwnedEntry(sh, x); }
  }

  /** `sh'` lacks the key `k`, found only through `dirty`, and records that its entry has left. */
  ghost predicate CutFrom(sh: Shared, sh': Shared, k: Key) {
    && k in sh.Dirty() && k !in sh.read.m
    && sh'.read == sh.read && sh'.dirty == Some(sh.Dirty() - {k}) && sh'.misses == sh.misses
    && sh'.heap == sh.heap && sh'.keyOf == sh.keyOf && sh'.published == sh.published
    && sh'.gone.Keys == sh.gone.Keys + {sh.Dirty()[k]}
  }

  lemma CutLinks(sh: Shared, sh': Shared, k: Key)
    requires Links(sh) && CutFrom(sh, sh', k)
    ensures Links(sh')
  {
    var e := sh.Dirty()[k];
    assert sh.Linked(k) == Some(e);
    forall x ensures FoundOk(sh', x) && (x != k ==> sh'.Linked(x) == sh.Linked(x)) {
      assert FoundOk(sh, x) && FoundOk(sh, k);
    }
    forall x | 0 <= x < |sh'.keyOf| ensures Placed(sh', x) {
      assert Placed(sh, x);
    }
    forall x | x in sh'.Dirty() ensures SharedEntry(sh', x) {
      assert SharedEntry(sh, x);
    }
  }

  lemma CutShape(sh: Shared, sh': Shared, k: Key)
    requires Links(sh) && Published(sh) && Shape(sh, Normal) && CutFrom(sh, sh', k)
    ensures Published(sh') && Shape(sh', Slack)
  {
    MapCut(sh.Dirty(), k);
    assert sh.Linked(k) == Some(sh.Dirty()[k]);
  }

  lemma MapCut(m: map<Key, EntryId>, k: Key)
    requires k in m
    ensures |m - {k}| == |m| - 1
  {
    assert (m - {k}).Keys == m.Keys - {k};
    assert |(m - {k}).Keys| == |m.Keys| - 1;
  }
}
