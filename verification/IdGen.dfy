/** The bit-packed id generator. */
module IdGen {
  import opened Options
  import opened Bits

  datatype Gen = Gen(time: nat, genId: nat, index: nat)

  const K12: nat := 0x1000
  const K41: nat := 0x200_0000_0000
  const LONG: nat := 0x1001 // one reading more than there are indices

  /** The id: 41 bits of time from bit 20, 8 of generator from bit 16, 8 of module from bit 12, 12 of index. */
  function Pack(time: nat, genId: nat, moduleId: nat, index: nat): nat {
    Or(Or(Or(Shl(And(time, K41 - 1), 20), Shl(And(genId, 0xFF), 16)), Shl(And(moduleId, 0xFF), 12)), And(index, 0xFFF))
  }

  function TimeFromId(id: nat): nat {
    And(Shr(id, 20), K41 - 1) / 1000
  }

  /** The state after one call that read the clock at `now`. */
  function Tick(g: Gen, now: nat): Gen {
    if now != g.time then g.(time := now, index := 1) else g.(index := g.index + 1)
  }

  predicate Panics(g: Gen) {
    And(g.index, 0xFFF) == 0
  }

  class IDGen {
    var time: nat
    const genId: nat
    var index: nat

    constructor (id: nat)
      ensures View() == Gen(0, id, 0)
    {
      time, genId, index := 0, id, 0;
    }

    function View(): Gen
      reads this
    {
      Gen(time, genId, index)
    }

    /** NewID; no id when it panics, which leaves the index counted up. */
    method NewID(now: nat, moduleId: nat) returns (id: Option<nat>)
      modifies this
      ensures View() == Tick(old(View()), now)
      ensures id == if Panics(View()) then None else Some(Pack(now, genId, moduleId, index))
    {
      if now != time {
        time := now;
        index := 0;
      }
      index := index + 1;
      if And(index, 0xFFF) == 0 {
        return None;
      }
      return Some(Pack(time, genId, moduleId, index));
    }
  }

  // ------------------------------------------------------------------------------------
  // The fields of an id
  // ------------------------------------------------------------------------------------

  lemma Powers()
    ensures Pow2(4) == 16 && Pow2(8) == 256 && Pow2(12) == K12 && Pow2(16) == 0x1_0000 && Pow2(41) == K41
  {
    assert Pow2(4) == 16;
    assert Pow2(8) == 256;
    assert Pow2(12) == K12;
    assert Pow2(16) == 0x1_0000;
    assert Pow2(20) == 0x10_0000;
    assert Pow2(32) == 0x1_0000_0000;
    assert Pow2(41) == K41;
  }

  lemma Masks(time: nat, genId: nat, moduleId: nat, index: nat)
    ensures And(time, K41 - 1) == Low(time, 41) && And(genId, 0xFF) == Low(genId, 8)
    ensures And(moduleId, 0xFF) == Low(moduleId, 8) && And(index, 0xFFF) == Low(index, 12)
  {
    hide And, Low, Pow2;
    Powers();
    LowBits(time, 41);
    LowBits(genId, 8);
    LowBits(moduleId, 8);
    LowBits(index, 12);
  }

  lemma OrAll(a: nat, b: nat, c: nat, d: nat, k: nat)
    ensures Shr(Or(Or(Or(a, b), c), d), k) == Or(Or(Or(Shr(a, k), Shr(b, k)), Shr(c, k)), Shr(d, k))
    ensures Low(Or(Or(Or(a, b), c), d), k) == Or(Or(Or(Low(a, k), Low(b, k)), Low(c, k)), Low(d, k))
  {
    hide Or, Shr, Low;
    OrParts(a, b, k);
    OrParts(Or(a, b), c, k);
    OrParts(Or(Or(a, b), c), d, k);
  }

  /** The high half of a byte: the generator's reaches into the time, the module's into the generator. */
  function Spill(x: nat): nat {
    Shr(Low(x, 8), 4)
  }

  /** Above bit 20 an id is the time, with the high half of the generator's byte spilled into it... */
  lemma TimeField(time: nat, genId: nat, moduleId: nat, index: nat)
    ensures Shr(Pack(time, genId, moduleId, index), 20) == Or(Low(time, 41), Spill(genId))
  {
    hide Or, Shr, Low, Shl, And, Pow2;
    Masks(time, genId, moduleId, index);
    Powers();
    var t, g, m, i := Low(time, 41), Low(genId, 8), Low(moduleId, 8), Low(index, 12);
    OrAll(Shl(t, 20), Shl(g, 16), Shl(m, 12), i, 20);
    ShiftBack(t, 20, 0);
    ShrZero(t);
    ShiftBack(g, 16, 4);
    ShiftBack(m, 12, 8);
    LowBits(moduleId, 8);
    LowBits(m, 8);
    Gone(index, 20);
    OrZero(Or(t, Shr(g, 4)));
  }

  lemma ShrZero(x: nat)
    ensures Shr(x, 0) == x && Low(x, 0) == 0
  {
  }

  /** The index is gone after a shift by 12 or more. */
  lemma Gone(index: nat, k: nat)
    requires k >= 12
    ensures Shr(Low(index, 12), k) == 0
  {
    hide Shr, Low;
    LowBits(index, 12);
    PowGrows(12, k);
    LowBits(Low(index, 12), k);
  }

  /** ...below bit 12 it is the index... */
  lemma IndexField(time: nat, genId: nat, moduleId: nat, index: nat)
    ensures Low(Pack(time, genId, moduleId, index), 12) == Low(index, 12)
  {
    hide Or, Shr, Low, Shl, And, Pow2;
    Masks(time, genId, moduleId, index);
    var t, g, m, i := Low(time, 41), Low(genId, 8), Low(moduleId, 8), Low(index, 12);
    OrAll(Shl(t, 20), Shl(g, 16), Shl(m, 12), i, 12);
    ShiftPart(t, 20, 12);
    ShiftPart(g, 16, 12);
    ShiftPart(m, 12, 12);
    LowLow(index, 12, 12);
    OrZero(0);
    OrZero(i);
  }

  /** ...at bits 16 to 19 the generator's low half and the module's high half overlap... */
  lemma GeneratorField(time: nat, genId: nat, moduleId: nat, index: nat)
    ensures Low(Shr(Pack(time, genId, moduleId, index), 16), 4) == Or(Low(genId, 4), Spill(moduleId))
  {
    hide Or, Shr, Low, Shl, And, Pow2;
    NoSpill(moduleId);
    Powers();
    LowBits(Spill(moduleId), 4);
    Masks(time, genId, moduleId, index);
    var t, g, m, i := Low(time, 41), Low(genId, 8), Low(moduleId, 8), Low(index, 12);
    OrAll(Shl(t, 20), Shl(g, 16), Shl(m, 12), i, 16);
    ShiftPart(t, 20, 16);
    ShiftBack(g, 16, 0);
    ShrZero(g);
    ShiftBack(m, 12, 4);
    Gone(index, 16);
    OrAll(Shl(t, 4), g, Shr(m, 4), 0, 4);
    ShiftPart(t, 4, 4);
    LowLow(genId, 8, 4);
    LowBits(0, 4);
    OrZero(Low(genId, 4));
    OrZero(Or(Low(genId, 4), Low(Shr(m, 4), 4)));
  }

  /** ...and at bits 12 to 15 it is the module's low half. */
  lemma ModuleField(time: nat, genId: nat, moduleId: nat, index: nat)
    ensures Low(Shr(Pack(time, genId, moduleId, index), 12), 4) == Low(moduleId, 4)
  {
    hide Or, Shr, Low, Shl, And, Pow2;
    Masks(time, genId, moduleId, index);
    var t, g, m, i := Low(time, 41), Low(genId, 8), Low(moduleId, 8), Low(index, 12);
    OrAll(Shl(t, 20), Shl(g, 16), Shl(m, 12), i, 12);
    ShiftPart(t, 20, 12);
    ShiftPart(g, 16, 12);
    ShiftBack(m, 12, 0);
    ShrZero(m);
    Gone(index, 12);
    OrAll(Shl(t, 8), Shl(g, 4), m, 0, 4);
    ShiftPart(t, 8, 4);
    ShiftPart(g, 4, 4);
    LowLow(moduleId, 8, 4);
    LowBits(0, 4);
    OrZero(0);
    OrZero(Low(moduleId, 4));
  }

  lemma NoSpill(x: nat)
    ensures And(x, 0xF0) == 16 * Spill(x) && Spill(x) < 16
  {
    hide And, Low, Shr, Pow2;
    AndHalf(x, 0x78);
    AndHalf(x / 2, 0x3C);
    AndHalf(x / 2 / 2, 0x1E);
    AndHalf(x / 2 / 2 / 2, 0xF);
    Powers();
    FourDown(x);
    ShrLow(x, 4, 4);
    LowBits(x / 2 / 2 / 2 / 2, 4);
  }

  lemma FourDown(x: nat)
    ensures Shr(x, 4) == x / 2 / 2 / 2 / 2
  {
    assert Shr(x / 2 / 2, 2) == Shr(x / 2 / 2 / 2 / 2, 0);
  }

  lemma AndHalf(x: nat, y: nat)
    ensures And(x, 2 * y) == 2 * And(x / 2, y)
  {
  }

  /** Two ids agree on the four fields. */
  predicate SameFields(t: nat, g: nat, m: nat, i: nat, t': nat, g': nat, m': nat, i': nat) {
    && Or(Low(t, 41), Spill(g)) == Or(Low(t', 41), Spill(g'))
    && Or(Low(g, 4), Spill(m)) == Or(Low(g', 4), Spill(m'))
    && Low(m, 4) == Low(m', 4)
    && Low(i, 12) == Low(i', 12)
  }

  /** Exactly when two ids are the same, for all times, generators, modules and indices. */
  lemma PackEqual(t: nat, g: nat, m: nat, i: nat, t': nat, g': nat, m': nat, i': nat)
    ensures Pack(t, g, m, i) == Pack(t', g', m', i') <==> SameFields(t, g, m, i, t', g', m', i')
  {
    hide Or, Shr, Low, Pack, Spill;
    TimeField(t, g, m, i);
    TimeField(t', g', m', i');
    GeneratorField(t, g, m, i);
    GeneratorField(t', g', m', i');
    ModuleField(t, g, m, i);
    ModuleField(t', g', m', i');
    IndexField(t, g, m, i);
    IndexField(t', g', m', i');
    if SameFields(t, g, m, i, t', g', m', i') {
      FromFields(Pack(t, g, m, i), Pack(t', g', m', i'));
    }
  }

  lemma FromFields(x: nat, y: nat)
    requires Shr(x, 20) == Shr(y, 20) && Low(Shr(x, 16), 4) == Low(Shr(y, 16), 4)
    requires Low(Shr(x, 12), 4) == Low(Shr(y, 12), 4) && Low(x, 12) == Low(y, 12)
    ensures x == y
  {
    hide Shr, Low, Shl;
    ShrShr(x, 16, 4);
    ShrShr(y, 16, 4);
    Join(Shr(x, 16), 4);
    Join(Shr(y, 16), 4);
    ShrShr(x, 12, 4);
    ShrShr(y, 12, 4);
    Join(Shr(x, 12), 4);
    Join(Shr(y, 12), 4);
    Join(x, 12);
    Join(y, 12);
  }

  // ------------------------------------------------------------------------------------
  // Uniqueness over runs
  // ------------------------------------------------------------------------------------

  datatype Call = Call(now: nat, moduleId: nat)

  /** The state after the first calls. */
  function After(g: Gen, calls: seq<Call>): Gen {
    if calls == [] then g else Tick(After(g, calls[..|calls| - 1]), calls[|calls| - 1].now)
  }

  /** The state of a new generator after call number `i`. */
  function StateAt(genId: nat, calls: seq<Call>, i: nat): Gen
    requires i < |calls|
  {
    After(Gen(0, genId, 0), calls[..i + 1])
  }

  /** Call number `i` returns, rather than panics... */
  predicate Returns(genId: nat, calls: seq<Call>, i: nat)
    requires i < |calls|
  {
    !Panics(StateAt(genId, calls, i))
  }

  /** ...and this is the id it returns. */
  function IdAt(genId: nat, calls: seq<Call>, i: nat): nat
    requires i < |calls|
  {
    var s := StateAt(genId, calls, i);
    Pack(s.time, s.genId, calls[i].moduleId, s.index)
  }

  /** How many readings in a row, up to call `i`, were the same. */
  function Streak(calls: seq<Call>, i: nat): nat
    requires i < |calls|
  {
    if i > 0 && calls[i - 1].now == calls[i].now then Streak(calls, i - 1) + 1 else 1
  }

  /** Call `i` and the following ones, `n` in all, read the same time. */
  ghost predicate Block(calls: seq<Call>, i: nat, n: nat) {
    i + n <= |calls| && forall k :: i <= k < i + n ==> calls[k].now == calls[i].now
  }

  /** A reading is taken again after another one. */
  ghost predicate Recurs(calls: seq<Call>) {
    exists i, k, j :: 0 <= i < k < j < |calls| && calls[i].now == calls[j].now && calls[k].now != calls[i].now
  }

  ghost predicate Before2To41(calls: seq<Call>) {
    forall i :: 0 <= i < |calls| ==> calls[i].now < K41
  }

  ghost predicate OneModule(calls: seq<Call>) {
    forall i :: 0 <= i < |calls| ==> calls[i].moduleId == calls[0].moduleId
  }

  /** The index counts the readings in a row. */
  lemma {:induction false} StateIs(genId: nat, calls: seq<Call>, i: nat)
    requires i < |calls|
    ensures StateAt(genId, calls, i) == Gen(calls[i].now, genId, Streak(calls, i))
  {
    var before := calls[..i + 1][..i];
    if i > 0 {
      StateIs(genId, calls, i - 1);
      assert before == calls[..i - 1 + 1];
    } else {
      assert before == [];
    }
    assert StateAt(genId, calls, i) == Tick(After(Gen(0, genId, 0), before), calls[i].now);
  }

  lemma Low12(x: nat)
    ensures Low(x, 12) == And(x, 0xFFF) == x % K12
  {
    hide Low, And, Pow2;
    Powers();
    LowBits(x, 12);
    Mask(x, 12);
  }

  lemma ReturnsIs(genId: nat, calls: seq<Call>, i: nat)
    requires i < |calls|
    ensures Returns(genId, calls, i) <==> Streak(calls, i) % K12 != 0
  {
    hide And, StateAt;
    StateIs(genId, calls, i);
    Low12(Streak(calls, i));
  }

  /** Exactly when two calls of one generator yield the same id. */
  lemma SameIdExactly(genId: nat, calls: seq<Call>, i: nat, j: nat)
    requires i < |calls| && j < |calls|
    ensures IdAt(genId, calls, i) == IdAt(genId, calls, j) <==>
      SameFields(calls[i].now, genId, calls[i].moduleId, Streak(calls, i),
                 calls[j].now, genId, calls[j].moduleId, Streak(calls, j))
  {
    hide Pack, SameFields, StateAt;
    StateIs(genId, calls, i);
    StateIs(genId, calls, j);
    PackEqual(calls[i].now, genId, calls[i].moduleId, Streak(calls, i),
              calls[j].now, genId, calls[j].moduleId, Streak(calls, j));
  }

  /** The calls of a streak, backwards from its last one. */
  lemma {:induction false} StreakBack(calls: seq<Call>, n: nat, k: nat)
    requires n < |calls| && k < Streak(calls, n)
    ensures k <= n && calls[n - k].now == calls[n].now && Streak(calls, n - k) == Streak(calls, n) - k
  {
    if k > 0 { StreakBack(calls, n - 1, k - 1); }
  }

  /** While the reading stays the same the streak grows. */
  lemma {:induction false} StreakOn(calls: seq<Call>, i: nat, j: nat)
    requires i <= j < |calls| && forall k :: i <= k <= j ==> calls[k].now == calls[i].now
    ensures Streak(calls, j) == Streak(calls, i) + (j - i)
  {
    if i < j {
      StreakOn(calls, i, j - 1);
      assert calls[j - 1].now == calls[i].now == calls[j].now;
    }
  }

  lemma StreakIsBlock(calls: seq<Call>, n: nat, k: nat)
    requires n < |calls| && 0 < k <= Streak(calls, n)
    ensures k <= n + 1 && Block(calls, n + 1 - k, k)
  {
    StreakBack(calls, n, k - 1);
    forall x | n + 1 - k <= x < n + 1 ensures calls[x].now == calls[n + 1 - k].now { StreakBack(calls, n, n - x); }
  }

  /** No call panics exactly when no 4096 readings in a row are the same. */
  lemma NoPanicExactly(genId: nat, calls: seq<Call>)
    ensures (forall i :: 0 <= i < |calls| ==> Returns(genId, calls, i)) <==>
      (forall i :: 0 <= i < |calls| ==> !Block(calls, i, K12))
  {
    hide Returns, Block;
    forall i | 0 <= i < |calls| && !Returns(genId, calls, i)
      ensures exists b :: 0 <= b < |calls| && Block(calls, b, K12) {
      ReturnsIs(genId, calls, i);
      assert Streak(calls, i) >= K12;
      StreakIsBlock(calls, i, K12);
    }
    forall i | 0 <= i < |calls| && Block(calls, i, K12)
      ensures exists n :: 0 <= n < |calls| && !Returns(genId, calls, n) {
      var n := BlockPanics(calls, i);
      ReturnsIs(genId, calls, n);
    }
  }

  lemma BlockPanics(calls: seq<Call>, i: nat) returns (n: nat)
    requires Block(calls, i, K12)
    ensures n < |calls| && Streak(calls, n) % K12 == 0
  {
    var s := Streak(calls, i) % K12;
    n := if s == 0 then i else i + (K12 - s);
    StreakOn(calls, i, n);
  }

  /** Returned ids are distinct, whatever the modules, if the generator number is clean, no reading
      recurs, and none is taken more than 4096 times in a row. */
  lemma IdsDistinct(genId: nat, calls: seq<Call>, i: nat, j: nat)
    requires And(genId, 0xF0) == 0 && Before2To41(calls) && !Recurs(calls) && i < j < |calls|
    requires forall b :: 0 <= b < |calls| ==> !Block(calls, b, LONG)
    requires Returns(genId, calls, i) && Returns(genId, calls, j)
    ensures IdAt(genId, calls, i) != IdAt(genId, calls, j)
  {
    hide Returns, IdAt, Low, Or, And, Spill, Block;
    SameIdExactly(genId, calls, i, j);
    ReturnsIs(genId, calls, i);
    ReturnsIs(genId, calls, j);
    Low12(Streak(calls, i));
    Low12(Streak(calls, j));
    CleanTimes(genId, calls[i].now, calls[j].now);
    if calls[i].now == calls[j].now {
      forall k | i <= k <= j ensures calls[k].now == calls[i].now { }
      StreakOn(calls, i, j);
      if Streak(calls, j) > K12 { StreakIsBlock(calls, j, LONG); }
    }
  }

  /** A clean generator number leaves the time alone. */
  lemma CleanTimes(genId: nat, t: nat, u: nat)
    requires And(genId, 0xF0) == 0 && t < K41 && u < K41
    ensures Or(Low(t, 41), Spill(genId)) == Or(Low(u, 41), Spill(genId)) <==> t == u
  {
    hide Or, Low, And, Spill, Pow2;
    NoSpill(genId);
    Powers();
    LowBits(t, 41);
    LowBits(u, 41);
    OrZero(t);
    OrZero(u);
  }

  /** The first call of the streak of call `n`. */
  function First(calls: seq<Call>, n: nat): int
    requires n < |calls|
  {
    n + 1 - Streak(calls, n)
  }

  lemma FirstIs(calls: seq<Call>, n: nat)
    requires n < |calls|
    ensures 0 <= First(calls, n) <= n && Streak(calls, First(calls, n)) == 1
    ensures calls[First(calls, n)].now == calls[n].now
  {
    StreakBack(calls, n, Streak(calls, n) - 1);
  }

  /** A streak starts after any other reading before it. */
  lemma StreakAfter(calls: seq<Call>, k: nat, j: nat)
    requires k < j < |calls| && calls[k].now != calls[j].now
    ensures First(calls, j) > k
  {
    if First(calls, j) <= k { StreakBack(calls, j, j - k); }
  }

  /** For one module a reading that recurs repeats an id... */
  lemma RecurrenceCollides(genId: nat, calls: seq<Call>) returns (a: nat, b: nat)
    requires OneModule(calls) && Recurs(calls)
    ensures a < b < |calls| && Returns(genId, calls, a) && Returns(genId, calls, b)
    ensures IdAt(genId, calls, a) == IdAt(genId, calls, b)
  {
    hide Returns, IdAt, Low, Or, Spill;
    var i, k, j :| 0 <= i < k < j < |calls| && calls[i].now == calls[j].now && calls[k].now != calls[i].now;
    FirstIs(calls, i);
    FirstIs(calls, j);
    a, b := First(calls, i), First(calls, j);
    StreakAfter(calls, k, j);
    SameIdExactly(genId, calls, a, b);
    ReturnsIs(genId, calls, a);
    ReturnsIs(genId, calls, b);
  }

  /** ...and so does one taken 4097 times in a row. */
  lemma LongBlockCollides(genId: nat, calls: seq<Call>, i: nat) returns (a: nat)
    requires OneModule(calls) && Block(calls, i, LONG)
    ensures a + K12 < |calls| && Returns(genId, calls, a) && Returns(genId, calls, a + K12)
    ensures IdAt(genId, calls, a) == IdAt(genId, calls, a + K12)
  {
    hide Returns, IdAt, Low, Or, Spill, Streak;
    a := LongStreak(calls, i);
    SameIdExactly(genId, calls, a, a + K12);
    ReturnsIs(genId, calls, a);
    ReturnsIs(genId, calls, a + K12);
    Low12(1);
    Low12(K12 + 1);
  }

  /** The first and the 4097th call of a long streak. */
  lemma LongStreak(calls: seq<Call>, i: nat) returns (a: nat)
    requires Block(calls, i, LONG)
    ensures a + K12 < |calls| && calls[a].now == calls[a + K12].now
    ensures Streak(calls, a) == 1 && Streak(calls, a + K12) == K12 + 1
  {
    hide Streak;
    var n := i + K12;
    StreakOn(calls, i, n);
    FirstIs(calls, i);
    FirstIs(calls, n);
    a := First(calls, n);
    StreakBack(calls, n, n - (a + K12));
  }

  ghost predicate AllDistinct(genId: nat, calls: seq<Call>) {
    forall i, j :: 0 <= i < j < |calls| && Returns(genId, calls, i) && Returns(genId, calls, j) ==>
      IdAt(genId, calls, i) != IdAt(genId, calls, j)
  }

  /** With a clean generator number and a clock below 2^41, the ids one module gets are all distinct
      exactly when no reading recurs after another and none is taken more than 4096 times in a row;
      whether the clock goes back does not matter. */
  lemma UniqueExactly(genId: nat, calls: seq<Call>)
    requires And(genId, 0xF0) == 0 && Before2To41(calls) && OneModule(calls)
    ensures AllDistinct(genId, calls) <==> !Recurs(calls) && forall b :: 0 <= b < |calls| ==> !Block(calls, b, LONG)
  {
    hide Returns, IdAt, Block, Recurs;
    if Recurs(calls) {
      var a, b := RecurrenceCollides(genId, calls);
    } else if b :| 0 <= b < |calls| && Block(calls, b, LONG) {
      var a := LongBlockCollides(genId, calls, b);
    } else {
      forall i, j | 0 <= i < j < |calls| && Returns(genId, calls, i) && Returns(genId, calls, j)
        ensures IdAt(genId, calls, i) != IdAt(genId, calls, j) {
        IdsDistinct(genId, calls, i, j);
      }
    }
  }

  /** Within one millisecond the n-th call has index n, panics iff 4096 divides n, and ids are equal
      exactly if the numbers of their calls agree modulo 4096. */
  lemma OneMillisecond(genId: nat, calls: seq<Call>, i: nat, j: nat)
    requires OneModule(calls) && Block(calls, 0, |calls|) && i < |calls| && j < |calls|
    ensures StateAt(genId, calls, i) == Gen(calls[0].now, genId, i + 1)
    ensures Returns(genId, calls, i) <==> (i + 1) % K12 != 0
    ensures IdAt(genId, calls, i) == IdAt(genId, calls, j) <==> (i + 1) % K12 == (j + 1) % K12
  {
    hide Returns, IdAt, StateAt, Low, Or, Spill;
    StreakOn(calls, 0, i);
    StreakOn(calls, 0, j);
    StateIs(genId, calls, i);
    ReturnsIs(genId, calls, i);
    SameIdExactly(genId, calls, i, j);
    Low12(i + 1);
    Low12(j + 1);
  }

  /** A generator number with a bit of 0xF0 set spills into the time: every time that lacks the spilled
      bits shares its ids with the later time that has them. */
  lemma SpillCollides(genId: nat, moduleId: nat, t: nat)
    requires And(genId, 0xF0) != 0 && t < K41 && And(t, Spill(genId)) == 0
    ensures var u := Or(t, Spill(genId)); var calls := [Call(t, moduleId), Call(u, moduleId)];
      && t < u < K41 && Returns(genId, calls, 0) && Returns(genId, calls, 1)
      && IdAt(genId, calls, 0) == IdAt(genId, calls, 1)
  {
    hide Returns, IdAt, Low, Or, And, Spill, Pow2;
    var h := Spill(genId);
    var u := Or(t, h);
    var calls := [Call(t, moduleId), Call(u, moduleId)];
    NoSpill(genId);
    OrAdds(t, h);
    Powers();
    LowBits(t, 41);
    LowBits(h, 41);
    OrParts(t, h, 41);
    LowBits(u, 41);
    OrAgain(t, h);
    SameIdExactly(genId, calls, 0, 1);
    ReturnsIs(genId, calls, 0);
    ReturnsIs(genId, calls, 1);
  }

  /** Readings that keep to what a caller can promise: below 2^41, never 4096 the same in a row, never
      one again after another. */
  ghost predicate Orderly(calls: seq<Call>) {
    Before2To41(calls) && !Recurs(calls) && forall b :: 0 <= b < |calls| ==> !Block(calls, b, K12)
  }

  /** Orderly readings give distinct ids exactly for the generator numbers without a bit of 0xF0. */
  lemma CleanExactly(genId: nat)
    ensures And(genId, 0xF0) == 0 <==> forall calls :: Orderly(calls) ==> AllDistinct(genId, calls)
  {
    hide And, Returns, IdAt;
    if And(genId, 0xF0) == 0 {
      forall calls | Orderly(calls) ensures AllDistinct(genId, calls) {
        forall b | 0 <= b < |calls| ensures !Block(calls, b, LONG) { assert !Block(calls, b, K12); }
        forall i, j | 0 <= i < j < |calls| && Returns(genId, calls, i) && Returns(genId, calls, j)
          ensures IdAt(genId, calls, i) != IdAt(genId, calls, j) {
          IdsDistinct(genId, calls, i, j);
        }
      }
    } else {
      NoBits(Spill(genId));
      SpillCollides(genId, 0, 0);
      var calls := [Call(0, 0), Call(Or(0, Spill(genId)), 0)];
      assert Orderly(calls) && !AllDistinct(genId, calls);
    }
  }

  lemma NoBits(y: nat)
    ensures And(0, y) == 0
  {
  }

  // ------------------------------------------------------------------------------------
  // Several generators
  // ------------------------------------------------------------------------------------

  /** Generator g with module m and generator g' with module m' leave the same bits 12 to 19. */
  predicate Overlap(g: nat, m: nat, g': nat, m': nat) {
    Low(m, 4) == Low(m', 4) && Or(Low(g, 4), Spill(m)) == Or(Low(g', 4), Spill(m'))
  }

  ghost predicate SomeTimeMeet(g: nat, m: nat, g': nat, m': nat) {
    exists t, i, t', i' ::
      0 <= t < K41 && 0 <= t' < K41 && 0 < i < K12 && 0 < i' < K12 && Pack(t, g, m, i) == Pack(t', g', m', i')
  }

  /** Exactly which pairs of generator and module can produce the same id. */
  lemma MeetExactly(g: nat, m: nat, g': nat, m': nat)
    ensures SomeTimeMeet(g, m, g', m') <==> Overlap(g, m, g', m')
    ensures !Overlap(g, m, g', m') ==>
      forall t: nat, i: nat, t': nat, i': nat :: Pack(t, g, m, i) != Pack(t', g', m', i')
  {
    hide Or, Shr, Low, Pack, Spill, Pow2;
    forall t: nat, i: nat, t': nat, i': nat | Pack(t, g, m, i) == Pack(t', g', m', i') ensures Overlap(g, m, g', m') {
      PackEqual(t, g, m, i, t', g', m', i');
    }
    if Overlap(g, m, g', m') {
      var t, t' := Spill(g'), Spill(g);
      NoSpill(g);
      NoSpill(g');
      Powers();
      LowBits(t, 41);
      LowBits(t', 41);
      OrCommutes(t, t');
      PackEqual(t, g, m, 1, t', g', m', 1);
    }
  }

  /** Different generators below 16 never meet for modules below 16... */
  lemma GeneratorsDisjoint(g: nat, m: nat, g': nat, m': nat)
    requires g < 16 && g' < 16 && m < 16 && m' < 16 && g != g'
    ensures !SomeTimeMeet(g, m, g', m')
  {
    hide Or, Low, Pack, Spill, Pow2, SomeTimeMeet;
    MeetExactly(g, m, g', m');
    Powers();
    SmallModule(m);
    SmallModule(m');
    LowBits(g, 4);
    LowBits(g', 4);
    OrZero(g);
    OrZero(g');
  }

  lemma SmallModule(m: nat)
    requires m < 16
    ensures Spill(m) == 0
  {
    hide Shr, Low, Pow2;
    Powers();
    LowBits(m, 8);
    LowBits(m, 4);
  }

  /** ...but module 16 g + m of generator 0 meets module m of generator g at every time. */
  lemma ModulesCollide(g: nat, m: nat, t: nat, i: nat)
    requires g < 16 && m < 16
    ensures Pack(t, g, m, i) == Pack(t, 0, 16 * g + m, i)
  {
    hide Or, Shr, Low, Pack, Spill, Pow2;
    PackEqual(t, g, m, i, t, 0, 16 * g + m, i);
    Powers();
    SmallModule(m);
    SmallModule(g);
    SmallModule(0);
    HighModule(g, m);
    LowBits(g, 4);
    LowBits(m, 4);
    LowBits(0, 4);
    OrZero(g);
  }

  lemma HighModule(g: nat, m: nat)
    requires g < 16 && m < 16
    ensures Spill(16 * g + m) == g && Low(16 * g + m, 4) == m
  {
    hide Low, Shr, Pow2, And;
    var x := 16 * g + m;
    Powers();
    LowBits(x, 8);
    FourDown(x);
    LowBits(x, 4);
    Mask(x, 4);
  }

  /** With one module, 16, generators 1 and 0 meet while 8 and 0 do not: what counts is whether the
      module's high half covers the bits in which the generators differ. */
  lemma Module16()
    ensures SomeTimeMeet(1, 16, 0, 16) && !SomeTimeMeet(8, 16, 0, 16)
  {
    hide Low, Spill, Pow2, SomeTimeMeet;
    MeetExactly(1, 16, 0, 16);
    MeetExactly(8, 16, 0, 16);
    Powers();
    HighModule(1, 0);
    LowBits(1, 4);
    LowBits(8, 4);
    LowBits(0, 4);
    OrUnfold(8, 1);
    OrZero(1);
  }

  // ------------------------------------------------------------------------------------
  // The time in an id
  // ------------------------------------------------------------------------------------

  lemma OrSmall(t: nat, h: nat)
    requires h < 8
    ensures Or(t, h) / 1000 == t / 1000
  {
    hide Or;
    OrParts(t, h, 3);
    Eighth(t);
    Eighth(h);
    Eighth(Or(t, h));
    OrZero(t / 8);
  }

  lemma Eighth(x: nat)
    ensures Shr(x, 3) == x / 8 && x / 1000 == x / 8 / 125
  {
    assert Shr(x, 3) == Shr(x / 2 / 2, 1) == x / 2 / 2 / 2;
  }

  /** GetTimeFromId gives back the second for every time below 2^41 exactly when bit 7 of the generator
      number is clear: its bits 4 to 6 spill into the time but cannot carry it over a second. */
  lemma TimeRecovered(genId: nat)
    ensures Spill(genId) < 8 <==>
      forall t, m, i :: 0 <= t < K41 ==> TimeFromId(Pack(t, genId, m, i)) == t / 1000
  {
    hide Spill, TimeFromId, Pack;
    if Spill(genId) < 8 {
      forall t, m, i | 0 <= t < K41 ensures TimeFromId(Pack(t, genId, m, i)) == t / 1000 {
        TimeIs(t, genId, m, i);
        OrSmall(t, Spill(genId));
      }
    } else {
      SecondLost(genId);
    }
  }

  lemma TimeIs(t: nat, genId: nat, m: nat, i: nat)
    requires t < K41
    ensures TimeFromId(Pack(t, genId, m, i)) == Or(t, Spill(genId)) / 1000
  {
    hide Or, Shr, Low, And, Pack, Pow2;
    var h := Spill(genId);
    TimeField(t, genId, m, i);
    Powers();
    NoSpill(genId);
    Masks(Or(t, h), 0, 0, 0);
    LowBits(t, 41);
    LowBits(h, 41);
    OrParts(t, h, 41);
  }

  lemma SecondLost(genId: nat)
    requires Spill(genId) >= 8
    ensures TimeFromId(Pack(992, genId, 0, 1)) != 992 / 1000
  {
    hide Or, TimeFromId, Pack, Spill, Low, And, Shr, Pow2;
    TimeIs(992, genId, 0, 1);
    NoSpill(genId);
    var h := Spill(genId);
    OrUnfold(992, h);
    OrUnfold(496, h / 2);
    OrUnfold(248, h / 2 / 2);
    OrUnfold(124, 1);
    OrZero(62);
  }

  lemma OrUnfold(x: nat, y: nat)
    ensures Or(x, y) == 2 * Or(x / 2, y / 2) + if x % 2 == 1 || y % 2 == 1 then 1 else 0
  {
  }
}
