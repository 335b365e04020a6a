/**
 The concurrent map of util/sync_map.go as an interleaved step system.

 Each running operation has a program counter.  One step is one atomic load, store,
 compare-and-swap or mutex action; accesses to `dirty` and `misses`, which the mutex
 protects, are merged into the neighbouring atomic action of the lock holder except where
 the intermediate state matters (between un-expunging an entry and linking it again,
 between building `dirty` and publishing `amended`, between storing the promoted map and
 clearing `dirty`).
 */
module ConcurrentMap {
  import opened Options

  type Key(==, !new)
  type Value(==, !new)
  type Model = map<Key, Value>
  type EntryId = nat
  type OpId = nat

  /** Contents of `entry.p`.  `cell` is the address of the heap cell holding the value: every
      operation allocates one cell, so the operation's own id serves as its address. */
  datatype Ptr = Nil | Expunged | Val(cell: OpId, v: Value)

  datatype ReadOnly = ReadOnly(m: map<Key, EntryId>, amended: bool)

  datatype Op =
    | Load(k: Key)
    | Swap(k: Key, v: Value)
    | LoadOrStore(k: Key, v: Value)
    | LoadAndDelete(k: Key)
    | CompareAndSwap(k: Key, v: Value)
    | CompareAndDelete(k: Key)
    | Range

  datatype Result =
    | Got(found: Option<Value>)
    | Actual(actual: Value, loaded: bool)
    | Flag(ok: bool)
    | Visited(seen: Model, complete: bool)

  // ------------------------------------------------------------------------------------
  // The plain map every operation is measured against
  // ------------------------------------------------------------------------------------

  function Lookup(m: Model, k: Key): Option<Value> {
    if k in m then Some(m[k]) else None
  }

  // `Answer` and `Effect` are the plain map; PlainMapLaws says what that means in terms of loads.

  /** What the operation answers on a plain map. */
  function Answer(op: Op, m: Model): Result {
    match op
    case Load(k) => Got(Lookup(m, k))
    case Swap(k, _) => Got(Lookup(m, k))
    case LoadAndDelete(k) => Got(Lookup(m, k))
    case LoadOrStore(k, v) => if k in m then Actual(m[k], true) else Actual(v, false)
    case CompareAndSwap(k, _) => Flag(k in m)
    case CompareAndDelete(k) => Flag(k in m)
    case Range => Visited(m, true)
  }

  /** What the operation leaves behind on a plain map. */
  function Effect(op: Op, m: Model): Model {
    match op
    case Load(_) => m
    case Swap(k, v) => m[k := v]
    case LoadOrStore(k, v) => if k in m then m else m[k := v]
    case LoadAndDelete(k) => m - {k}
    case CompareAndSwap(k, v) => if k in m then m[k := v] else m
    case CompareAndDelete(k) => m - {k}
    case Range => m
  }

  /** Whether the operation is a write when it meets the plain map `m`. */
  predicate Writes(op: Op, m: Model) {
    match op
    case Load(_) => false
    case Swap(_, _) => true
    case LoadOrStore(k, _) => k !in m
    case LoadAndDelete(k) => k in m
    case CompareAndSwap(k, _) => k in m
    case CompareAndDelete(k) => k in m
    case Range => false
  }

  /** The laws of a plain map, with every operation measured by the loads before and after it. */
  lemma PlainMapLaws(m: Model, k: Key, j: Key, v: Value)
    ensures Answer(Load(k), map[]) == Got(None)
    ensures Answer(Load(j), Effect(Swap(k, v), m)) == if j == k then Got(Some(v)) else Answer(Load(j), m)
    ensures Answer(Swap(k, v), m) == Answer(Load(k), m) && Answer(LoadAndDelete(k), m) == Answer(Load(k), m)
    ensures Answer(Load(j), Effect(LoadAndDelete(k), m)) == if j == k then Got(None) else Answer(Load(j), m)
    ensures Effect(CompareAndDelete(k), m) == Effect(LoadAndDelete(k), m)
    ensures Answer(CompareAndDelete(k), m) == Flag(Answer(Load(k), m) != Got(None)) == Answer(CompareAndSwap(k, v), m)
    ensures Answer(Load(k), m) == Got(None) ==>
      && Effect(CompareAndSwap(k, v), m) == m && Effect(LoadOrStore(k, v), m) == Effect(Swap(k, v), m)
      && Answer(LoadOrStore(k, v), m) == Actual(v, false)
    ensures forall x :: Answer(Load(k), m) == Got(Some(x)) ==>
      && Effect(CompareAndSwap(k, v), m) == Effect(Swap(k, v), m) && Effect(LoadOrStore(k, v), m) == m
      && Answer(LoadOrStore(k, v), m) == Actual(x, true)
    ensures Effect(Load(k), m) == m && Effect(Range, m) == m
    ensures Answer(Range, m).Visited? && Answer(Range, m).complete
    ensures (k in Answer(Range, m).seen <==> Answer(Load(k), m) != Got(None))
    ensures k in Answer(Range, m).seen ==> Answer(Load(k), m) == Got(Some(Answer(Range, m).seen[k]))
  {
    assert k !in m ==> m - {k} == m;
  }

  // ------------------------------------------------------------------------------------
  // State
  // ------------------------------------------------------------------------------------

  /** The fields of `Map` and of its entries, followed by history variables that no step reads:
      the key an entry was made for, the entries that ever stood in a published `read` map,
      the moment an entry left the map, the LoadAndDelete that took an entry out of `dirty`
      (`owner`) and, for the moment after such a removal, which entry it was (`cut`),
      the plain maps the structure has denoted so far, and which operation made each change. */
  datatype Shared = Shared(
    read: ReadOnly,
    dirty: Option<map<Key, EntryId>>,
    misses: nat,
    lock: Option<OpId>,
    heap: seq<Ptr>,
    keyOf: seq<Key>,
    published: set<EntryId>,
    gone: map<EntryId, nat>,
    owner: map<EntryId, OpId>,
    cut: map<nat, EntryId>,
    hist: seq<Model>,
    writer: seq<OpId>)
  {
    function P(e: EntryId): Ptr {
      if e < |heap| then heap[e] else Nil
    }

    function Set(e: EntryId, p: Ptr): Shared {
      if e < |heap| then this.(heap := heap[e := p]) else this
    }

    function Dirty(): map<Key, EntryId> {
      if dirty.Some? then dirty.value else map[]
    }

    function Now(): nat {
      if |hist| == 0 then 0 else |hist| - 1
    }

    function Current(): Model {
      if |hist| == 0 then map[] else hist[|hist| - 1]
    }

    /** The entry through which `k` is found, if any. */
    function Linked(k: Key): Option<EntryId> {
      if k in read.m then Some(read.m[k])
      else if k in Dirty() then Some(Dirty()[k])
      else None
    }

    /** The value the structure holds for `k`. */
    function Seen(k: Key): Option<Value> {
      var e := Linked(k);
      if e.Some? && P(e.value).Val? then Some(P(e.value).v) else None
    }

    /** Records that operation `id` changed the denoted plain map. */
    function Log(id: OpId, op: Op): Shared {
      this.(hist := hist + [Effect(op, Current())], writer := writer + [id])
    }
  }

  /** How an entry method was reached: lock-free, or with the mutex held through either map. */
  datatype How = Free | ViaRead | ViaDirty

  /** A result together with the moment (an index into `hist`) it is an answer for. */
  datatype Outcome = Outcome(result: Result, lin: nat)

  /** What follows the critical section. */
  datatype Next = Finish(out: Outcome) | Entry(e: EntryId) | Scan(snap: map<Key, EntryId>)

  datatype Pc =
    | Begin
    | WantLock
    | Locked
    | EntryLoad(e: EntryId, how: How)
    | EntryCas(e: EntryId, p: Ptr, how: How)
    | Unexpunge(e: EntryId)
    | Relink(e: EntryId)
    | SwapIn(e: EntryId)
    | Copy(todo: set<Key>)
    | CopyLoad(k: Key, todo: set<Key>)
    | CopyCas(k: Key, todo: set<Key>)
    | Mark
    | Insert
    | Miss(next: Next)
    | PromoteStore(next: Next)
    | PromoteClear(next: Next)
    | Unlock(next: Next)
    | Walk(snap: map<Key, EntryId>, todo: set<Key>, seen: Model)
    | Return(out: Outcome)
    | Broken  // a nil-map write, a dereference of `expunged`, or a zero value handed back as a result

  datatype Running = Running(op: Op, inv: nat, before: nat, pc: Pc)

  datatype Completed = Completed(id: OpId, op: Op, result: Result, inv: nat, before: nat, lin: nat, res: nat)

  datatype State = State(sh: Shared, running: map<OpId, Running>, done: seq<Completed>, nextId: OpId)

  // ------------------------------------------------------------------------------------
  // Steps
  // ------------------------------------------------------------------------------------

  /** The result of an operation that found no value for its key. */
  function NotFound(op: Op): Result {
    match op
    case Load(_) => Got(None)
    case Swap(_, _) => Got(None)
    case LoadAndDelete(_) => Got(None)
    case LoadOrStore(_, v) => Actual(v, false)
    case CompareAndSwap(_, _) => Flag(false)
    case CompareAndDelete(_) => Flag(false)
    case Range => Visited(map[], true)
  }

  /** The result of an operation that found the value `v` for its key. */
  function FoundValue(op: Op, v: Value): Result {
    match op
    case Load(_) => Got(Some(v))
    case Swap(_, _) => Got(Some(v))
    case LoadAndDelete(_) => Got(Some(v))
    case LoadOrStore(_, _) => Actual(v, true)
    case CompareAndSwap(_, _) => Flag(true)
    case CompareAndDelete(_) => Flag(true)
    case Range => Visited(map[], true)
  }

  /** First action of every operation: load `read` and look the key up in it. */
  function AfterBegin(sh: Shared, op: Op): Pc {
    var absent := Return(Outcome(NotFound(op), sh.Now()));
    match op
    case Range => if sh.read.amended then WantLock else Walk(sh.read.m, sh.read.m.Keys, map[])
    case Swap(k, _) => if k in sh.read.m then EntryLoad(sh.read.m[k], Free) else WantLock
    case LoadOrStore(k, _) => if k in sh.read.m then EntryLoad(sh.read.m[k], Free) else WantLock
    case _ =>
      if op.k in sh.read.m then EntryLoad(sh.read.m[op.k], Free)
      else if sh.read.amended then WantLock
      else absent
  }

  /** First action under the mutex: load `read` again and consult `dirty`. */
  function AfterLocked(sh: Shared, id: OpId, op: Op): (Shared, Pc) {
    var absent := Finish(Outcome(NotFound(op), sh.Now()));
    match op
    case Range =>
      if sh.read.amended then (sh, PromoteStore(Scan(sh.Dirty()))) else (sh, Unlock(Scan(sh.read.m)))
    case CompareAndSwap(k, _) =>
      if k in sh.read.m then (sh, EntryLoad(sh.read.m[k], ViaRead))
      else if k in sh.Dirty() then (sh, EntryLoad(sh.Dirty()[k], ViaDirty))
      else (sh, Unlock(absent))
    case Swap(k, _) =>
      if k in sh.read.m then (sh, Unexpunge(sh.read.m[k]))
      else if k in sh.Dirty() then (sh, SwapIn(sh.Dirty()[k]))
      else MakeDirty(sh)
    case LoadOrStore(k, _) =>
      if k in sh.read.m then (sh, Unexpunge(sh.read.m[k]))
      else if k in sh.Dirty() then (sh, EntryLoad(sh.Dirty()[k], ViaDirty))
      else MakeDirty(sh)
    case _ => LookupLocked(sh, id, op)
  }

  /** The slow path of Load, LoadAndDelete and CompareAndDelete. */
  function LookupLocked(sh: Shared, id: OpId, op: Op): (Shared, Pc)
    requires !op.Range?
  {
    var absent := Finish(Outcome(NotFound(op), sh.Now()));
    if op.k in sh.read.m then (sh, Unlock(Entry(sh.read.m[op.k])))
    else if !sh.read.amended then (sh, Unlock(absent))
    else if op.k !in sh.Dirty() then (sh, Miss(absent))
    else (if op.LoadAndDelete? then Unlinked(sh, id, op) else sh, Miss(Entry(sh.Dirty()[op.k])))
  }

  /** The start of `dirtyLocked`, reached only when `read` is not amended. */
  function MakeDirty(sh: Shared): (Shared, Pc) {
    if sh.read.amended then (sh, Insert)
    else if sh.dirty.Some? then (sh, Mark)
    else (sh.(dirty := Some(map[])), Copy(sh.read.m.Keys))
  }

  /** `delete(m.dirty, key)` in LoadAndDelete: the entry leaves the map, value and all. */
  function Unlinked(sh: Shared, id: OpId, op: Op): Shared
    requires op.LoadAndDelete? && op.k in sh.Dirty()
  {
    var e := sh.Dirty()[op.k];
    var cut := sh.(dirty := Some(sh.Dirty() - {op.k}));
    if sh.P(e).Val? then
      cut.Log(id, op).(gone := sh.gone[e := sh.Now() + 1], owner := sh.owner[e := id],
                           cut := sh.cut[sh.Now() + 1 := e])
    else
      cut.(gone := sh.gone[e := sh.Now()])
  }

  /** Where an entry method goes once its result is known. */
  function Conclude(how: How, out: Outcome): Pc {
    match how
    case Free => Return(out)
    case ViaRead => Unlock(Finish(out))
    case ViaDirty => Miss(Finish(out))
  }

  /** `e.p.Load()` and the branch on it in load, trySwap, tryLoadOrStore, tryCompareAndSwap, delete. */
  function AfterEntryLoad(sh: Shared, r: Running, e: EntryId, how: How): Pc {
    var p := sh.P(e);
    var absent := Conclude(how, Outcome(NotFound(r.op), LastAbsent(sh, e)));
    match r.op
    case Range => Broken
    case Load(_) => if p.Val? then Conclude(how, Outcome(FoundValue(r.op, p.v), LastPresent(sh, e))) else absent
    case Swap(_, _) => if p.Expunged? then (if how.Free? then WantLock else Broken) else EntryCas(e, p, how)
    case LoadOrStore(_, _) =>
      if p.Expunged? then (if how.Free? then WantLock else Broken)
      else if p.Val? then Conclude(how, Outcome(FoundValue(r.op, p.v), sh.Now()))
      else EntryCas(e, p, how)
    case _ => if p.Val? then EntryCas(e, p, how) else absent
  }

  /** The moment for which "no value" read from `e` is an answer: now, unless `e` left the map before. */
  function LastAbsent(sh: Shared, e: EntryId): nat {
    if e in sh.gone then sh.gone[e] else sh.Now()
  }

  /** The moment for which a value read from `e` is an answer: now, or just before `e` left the map. */
  function LastPresent(sh: Shared, e: EntryId): nat {
    if e in sh.gone && sh.gone[e] > 0 then sh.gone[e] - 1 else sh.Now()
  }

  function NewPtr(id: OpId, op: Op): Ptr {
    if op.Swap? || op.LoadOrStore? || op.CompareAndSwap? then Val(id, op.v) else Nil
  }

  /** `e.p.CompareAndSwap(p, new)`.  A delete that wins on an entry already taken out of `dirty`
      takes over the change made by the LoadAndDelete that unlinked it. */
  function AfterEntryCas(sh: Shared, id: OpId, r: Running, e: EntryId, p: Ptr, how: How): (Shared, Pc) {
    if sh.P(e) != p then (sh, EntryLoad(e, how))
    else
      var result := if p.Val? then FoundValue(r.op, p.v) else NotFound(r.op);
      var swung := sh.Set(e, NewPtr(id, r.op));
      if e in sh.gone && 0 < sh.gone[e] <= |sh.writer| then
        (swung.(writer := sh.writer[sh.gone[e] - 1 := id]), Conclude(how, Outcome(result, sh.gone[e] - 1)))
      else
        (swung.Log(id, r.op), Conclude(how, Outcome(result, sh.Now())))
  }

  /** After the entry is known not to be expunged: `swapLocked` or `tryLoadOrStore`. */
  function AfterLink(op: Op, e: EntryId): Pc {
    if op.Swap? then SwapIn(e) else EntryLoad(e, ViaRead)
  }

  function AfterUnexpunge(sh: Shared, op: Op, e: EntryId): (Shared, Pc) {
    if sh.P(e).Expunged? then (sh.Set(e, Nil), Relink(e)) else (sh, AfterLink(op, e))
  }

  function AfterRelink(sh: Shared, op: Op, e: EntryId): (Shared, Pc) {
    if op.Range? || sh.dirty.None? then (sh, Broken)
    else (sh.(dirty := Some(sh.dirty.value[op.k := e])), AfterLink(op, e))
  }

  function AfterSwapIn(sh: Shared, id: OpId, op: Op, e: EntryId): (Shared, Pc) {
    var was := sh.P(e);
    if !op.Swap? || was.Expunged? then (sh, Broken)
    else
      var result := if was.Val? then FoundValue(op, was.v) else NotFound(op);
      (sh.Set(e, Val(id, op.v)).Log(id, op), Unlock(Finish(Outcome(result, sh.Now()))))
  }

  /** The load of `tryExpungeLocked`, and `m.dirty[k] = e` when the entry still holds a value. */
  function AfterCopyLoad(sh: Shared, k: Key, todo: set<Key>): (Shared, Pc) {
    if k !in sh.read.m || sh.dirty.None? then (sh, Broken)
    else
      var p := sh.P(sh.read.m[k]);
      if p.Nil? then (sh, CopyCas(k, todo))
      else if p.Expunged? then (sh, Copy(todo))
      else (sh.(dirty := Some(sh.dirty.value[k := sh.read.m[k]])), Copy(todo))
  }

  function AfterCopyCas(sh: Shared, k: Key, todo: set<Key>): (Shared, Pc) {
    if k !in sh.read.m then (sh, Broken)
    else if sh.P(sh.read.m[k]).Nil? then (sh.Set(sh.read.m[k], Expunged), Copy(todo))
    else (sh, CopyLoad(k, todo))
  }

  /** `m.dirty[key] = newEntry(value)`. */
  function AfterInsert(sh: Shared, id: OpId, op: Op): (Shared, Pc) {
    if sh.dirty.None? || !(op.Swap? || op.LoadOrStore?) then (sh, Broken)
    else
      var e := |sh.heap|;
      var grown := sh.(heap := sh.heap + [Val(id, op.v)], keyOf := sh.keyOf + [op.k],
                       dirty := Some(sh.dirty.value[op.k := e]));
      (grown.Log(id, op), Unlock(Finish(Outcome(NotFound(op), sh.Now()))))
  }

  /** `m.misses++` and the promotion test of `missLocked`. */
  function AfterMiss(sh: Shared, next: Next): (Shared, Pc) {
    var counted := sh.(misses := sh.misses + 1);
    if counted.misses < |sh.Dirty()| then (counted, Unlock(next)) else (counted, PromoteStore(next))
  }

  /** The entries through which `m` finds their keys. */
  function EntriesOf(sh: Shared, m: map<Key, EntryId>): set<EntryId> {
    set e | 0 <= e < |sh.keyOf| && sh.keyOf[e] in m && m[sh.keyOf[e]] == e
  }

  /** `m.read.Store(&readOnly{m: m.dirty})`.  The entries of the old `read` that `dirty` lacks are gone. */
  function AfterPromoteStore(sh: Shared): Shared {
    var kept := EntriesOf(sh, sh.Dirty());
    sh.(read := ReadOnly(sh.Dirty(), false),
        published := sh.published + kept,
        gone := sh.gone + map e | e in EntriesOf(sh, sh.read.m) - kept :: sh.Now())
  }

  function AfterUnlock(next: Next): Pc {
    match next
    case Finish(out) => Return(out)
    case Entry(e) => EntryLoad(e, Free)
    case Scan(snap) => Walk(snap, snap.Keys, map[])
  }

  /** One visit of Range; `more` is false when the callback asked to stop. */
  function AfterVisit(sh: Shared, snap: map<Key, EntryId>, todo: set<Key>, seen: Model, k: Key, more: bool): Pc
    requires k in todo
  {
    if k !in snap then Broken
    else
      var p := sh.P(snap[k]);
      if !p.Val? then Walk(snap, todo - {k}, seen)
      else if more then Walk(snap, todo - {k}, seen[k := p.v])
      else Return(Outcome(Visited(seen[k := p.v], false), sh.Now()))
  }

  /** Operation `id`, described by `r`, takes the shared state from `sh` to `sh'` and moves to `pc'`. */
  ghost predicate Step(sh: Shared, id: OpId, r: Running, sh': Shared, pc': Pc) {
    match r.pc
    case Begin => sh' == sh && pc' == AfterBegin(sh, r.op)
    case WantLock => sh.lock.None? && sh' == sh.(lock := Some(id)) && pc' == Locked
    case Locked => (sh', pc') == AfterLocked(sh, id, r.op)
    case EntryLoad(e, how) => sh' == sh && pc' == AfterEntryLoad(sh, r, e, how)
    case EntryCas(e, p, how) => (sh', pc') == AfterEntryCas(sh, id, r, e, p, how)
    case Unexpunge(e) => (sh', pc') == AfterUnexpunge(sh, r.op, e)
    case Relink(e) => (sh', pc') == AfterRelink(sh, r.op, e)
    case SwapIn(e) => (sh', pc') == AfterSwapIn(sh, id, r.op, e)
    case Copy(todo) =>
      sh' == sh && if todo == {} then pc' == Mark else exists k :: k in todo && pc' == CopyLoad(k, todo - {k})
    case CopyLoad(k, todo) => (sh', pc') == AfterCopyLoad(sh, k, todo)
    case CopyCas(k, todo) => (sh', pc') == AfterCopyCas(sh, k, todo)
    case Mark => sh' == sh.(read := ReadOnly(sh.read.m, true)) && pc' == Insert
    case Insert => (sh', pc') == AfterInsert(sh, id, r.op)
    case Miss(next) => (sh', pc') == AfterMiss(sh, next)
    case PromoteStore(next) => sh' == AfterPromoteStore(sh) && pc' == PromoteClear(next)
    case PromoteClear(next) => sh' == sh.(dirty := None, misses := 0) && pc' == Unlock(next)
    case Unlock(next) => sh' == sh.(lock := None) && pc' == AfterUnlock(next)
    case Walk(snap, todo, seen) =>
      sh' == sh &&
      if todo == {} then pc' == Return(Outcome(Visited(seen, true), sh.Now()))
      else exists k, more :: k in todo && pc' == AfterVisit(sh, snap, todo, seen, k, more)
    case Return(_) => false
    case Broken => false
  }

  ghost predicate Init(s: State) {
    && s.sh == Shared(ReadOnly(map[], false), None, 0, None, [], [], {}, map[], map[], map[], [map[]], [])
    && s.running == map[] && s.done == [] && s.nextId == 0
  }

  /** A goroutine calls `op`. */
  ghost predicate Invoke(s: State, s': State, op: Op) {
    s' == s.(running := s.running[s.nextId := Running(op, s.sh.Now(), |s.done|, Begin)], nextId := s.nextId + 1)
  }

  ghost predicate StepBy(s: State, s': State, id: OpId) {
    id in s.running && id in s'.running &&
    var r := s.running[id];
    var pc' := s'.running[id].pc;
    Step(s.sh, id, r, s'.sh, pc') && s' == s.(sh := s'.sh, running := s.running[id := r.(pc := pc')])
  }

  /** Operation `id` returns to its caller. */
  ghost predicate Respond(s: State, s': State, id: OpId) {
    id in s.running && s.running[id].pc.Return? &&
    var r := s.running[id];
    s' == s.(running := s.running - {id},
             done := s.done + [Completed(id, r.op, r.pc.out.result, r.inv, r.before, r.pc.out.lin, s.sh.Now())])
  }

  ghost predicate NextState(s: State, s': State) {
    || (exists op :: Invoke(s, s', op))
    || (exists id :: StepBy(s, s', id))
    || (exists id :: Respond(s, s', id))
  }

  /** A finite run of the map, under any interleaving. */
  ghost predicate IsRun(run: seq<State>) {
    |run| > 0 && Init(run[0]) && forall i :: 0 <= i < |run| - 1 ==> NextState(run[i], run[i + 1])
  }
}
