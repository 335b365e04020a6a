/** The size-class buffer pool. */
module BytesCache {
  import opened Options
  import opened Bits

  /** A byte buffer; only its capacity and its identity matter here. */
  class Buf {
    const capacity: nat

    constructor (capacity: nat)
      ensures this.capacity == capacity
    {
      this.capacity := capacity;
    }
  }

  /** 64-bit negation of a size. */
  function Neg(x: nat): nat
    requires x <= Pow2(63)
  {
    if x == 0 then 0 else Doubles(63); Pow2(64) - x
  }

  /** `size & -size == size`. */
  predicate Single(x: nat)
    requires x <= Pow2(63)
  {
    And(x, Neg(x)) == x
  }

  lemma AndNone(y: nat)
    ensures And(0, y) == 0
  {
  }

  lemma SingleIs(x: nat)
    requires x <= Pow2(63)
    ensures Single(x) <==> x == 0 || IsPow2(x)
  {
    hide Pow2, And;
    if x > 0 {
      Doubles(63);
      LowBit(x, 64);
    } else {
      AndNone(0);
    }
  }

  /** The least k with size <= 2^k. */
  ghost predicate CeilLog2(size: nat, k: nat) {
    size <= Pow2(k) && (k > 0 ==> Pow2(k - 1) < size)
  }

  /** `getIndex` is the ceiling of the binary logarithm. */
  method GetIndex(size: nat) returns (index: nat)
    requires size <= Pow2(63)
    ensures CeilLog2(size, index)
  {
    hide Pow2, Single, IsPow2;
    Doubles(63);
    if size == 0 {
      return 0;
    }
    var tp := Single(size);
    SingleIs(size);
    var rest := size;
    index := 0;
    Whole(size);
    while rest != 0
      invariant Shifted(rest, size, index)
      decreases rest
    {
      Halve(rest, size, index);
      rest := rest / 2;
      index := index + 1;
    }
    Last(size, index);
    if tp {
      var k := IsPow2Means(size);
      Between(k, index);
      ClassAtPower(k);
      index := index - 1;
    } else if size == Pow2(index - 1) {
      Pow2Is(index - 1);
    }
  }

  /** `rest` is what is left of `size` after `index` shifts. */
  ghost predicate Shifted(rest: nat, size: nat, index: nat) {
    && rest * Pow2(index) <= size < (rest + 1) * Pow2(index)
    && (rest == 0 ==> index > 0 && Pow2(index - 1) <= size)
  }

  lemma Whole(size: nat)
    requires size > 0
    ensures Shifted(size, size, 0)
  {
  }

  lemma Last(size: nat, index: nat)
    requires Shifted(0, size, index)
    ensures index > 0 && Pow2(index - 1) <= size < Pow2(index)
  {
  }

  lemma ClassAtPower(k: nat)
    ensures CeilLog2(Pow2(k), k)
  {
  }

  lemma Halve(rest: nat, size: nat, index: nat)
    requires rest > 0 && Shifted(rest, size, index)
    ensures Shifted(rest / 2, size, index + 1)
  {
    var p, h := Pow2(index), rest / 2;
    assert h * (2 * p) == (2 * h) * p && (h + 1) * (2 * p) == (2 * h + 2) * p;
    assert (2 * h) * p <= rest * p && (rest + 1) * p <= (2 * h + 2) * p;
  }

  /** 2^k lies in [2^(n-1), 2^n) only for k = n - 1. */
  lemma Between(k: nat, n: nat)
    requires n > 0 && Pow2(n - 1) <= Pow2(k) < Pow2(n)
    ensures k == n - 1
  {
    if k < n - 1 {
      PowGrows(k, n - 1);
    } else if k >= n {
      PowGrows(n, k);
    }
  }

  /** A buffer of capacity 2^k belongs to pool k and no other. */
  lemma ClassOfPower(k: nat, n: nat)
    requires CeilLog2(Pow2(k), n)
    ensures n == k
  {
    if n > k {
      PowGrows(k, n - 1);
    } else if n < k {
      PowGrows(n, k);
    }
  }

  /** `size >> 1`, k times over; division rounds down, as the shift of a negative number does. */
  function Shifts(size: int, k: nat): int {
    if k == 0 then size else Shifts(size, k - 1) / 2
  }

  /** The loop of `getIndex` ends for a size exactly if it is not negative. */
  lemma EndsExactly(size: int)
    ensures (exists k :: Shifts(size, k) == 0) <==> size >= 0
  {
    if size < 0 {
      forall k: nat ensures Shifts(size, k) < 0 { StaysNegative(size, k); }
    } else {
      ShiftedOut(size, size);
      assert Shifts(size, size) == 0;
    }
  }

  lemma {:induction false} StaysNegative(size: int, k: nat)
    requires size < 0
    ensures Shifts(size, k) < 0
  {
    if k > 0 { StaysNegative(size, k - 1); }
  }

  lemma {:induction false} ShiftedOut(size: nat, k: nat)
    ensures 0 <= Shifts(size, k) && (Shifts(size, k) == 0 || Shifts(size, k) + k <= size)
  {
    if k > 0 { ShiftedOut(size, k - 1); }
  }

  // ------------------------------------------------------------------------------------
  // The pools
  // ------------------------------------------------------------------------------------

  /** The 64 pools, and as history the buffers handed out and not given back. */
  datatype State = State(pools: seq<set<Buf>>, held: set<Buf>)

  ghost predicate InPools(s: State, b: Buf) {
    exists i :: 0 <= i < |s.pools| && b in s.pools[i]
  }

  /** What every use of the package keeps: pool i holds only buffers whose class is i and that nobody
      holds; their capacity is 2^i, or zero in pool 0. */
  ghost predicate Sound(s: State) {
    && |s.pools| == 64 && s.pools[63] == {}
    && forall i, b :: 0 <= i < 64 && b in s.pools[i] ==>
         (b.capacity == Pow2(i) || (i == 0 && b.capacity == 0)) && b !in s.held
  }

  /** Pool i holds only buffers of capacity 2^i. */
  ghost predicate Exact(s: State) {
    forall i, b :: 0 <= i < |s.pools| && b in s.pools[i] ==> b.capacity == Pow2(i)
  }

  /** Buffer `b` is taken for a size: from the pool of its class, or new and of that class. */
  ghost predicate Fetch(s: State, s': State, size: nat, b: Buf) {
    exists i :: 0 <= i < |s.pools| && CeilLog2(size, i) && FetchFrom(s, s', i, b)
  }

  ghost predicate FetchFrom(s: State, s': State, i: nat, b: Buf)
    requires i < |s.pools|
  {
    || (b in s.pools[i] && s' == State(s.pools[i := s.pools[i] - {b}], s.held + {b}))
    || (!InPools(s, b) && b !in s.held && b.capacity == Pow2(i) && s' == s.(held := s.held + {b}))
  }

  /** Buffer `b` is given back: kept in the pool of its class if its capacity passes the test. */
  ghost predicate Deliver(s: State, s': State, b: Buf) {
    if b.capacity == 0 || IsPow2(b.capacity)
    then exists i :: 0 <= i < |s.pools| && DeliverTo(s, s', i, b)
    else s' == s.(held := s.held - {b})
  }

  ghost predicate DeliverTo(s: State, s': State, i: nat, b: Buf)
    requires i < |s.pools|
  {
    CeilLog2(b.capacity, i) && s' == State(s.pools[i := s.pools[i] + {b}], s.held - {b})
  }

  function Size(l: int, capa: Option<int>): int {
    if capa.Some? then capa.value else l
  }

  /** What `Get` comes to: a buffer; the panic for a capacity below the length; the panic of slicing a
      buffer below zero or past its capacity; the panic of making one above 2^62 bytes; or, for a
      negative size, the loop of `getIndex` that never ends. */
  datatype Outcome = Handed(buf: Buf) | BadCapacity | OutOfRange(buf: Buf) | TooLarge | Endless

  /** A 64-bit integer. */
  predicate IsInt(x: int) {
    0 <= x + Pow2(63) && x < Pow2(63)
  }

  class Cache {
    var pools: seq<set<Buf>>
    ghost var held: set<Buf>

    constructor ()
      ensures View() == Empty()
    {
      pools, held := seq(64, _ => {}), {};
    }

    ghost function View(): State
      reads this
    {
      State(pools, held)
    }

    /** `Get`.  `reuse` is the pool's choice to hand out a buffer it has rather than a new one. */
    method Get(l: int, capa: Option<int>, reuse: bool) returns (r: Outcome)
      requires Sound(View()) && IsInt(l) && IsInt(Size(l, capa))
      modifies this
      ensures Sound(View())
      ensures r.BadCapacity? <==> capa.Some? && l > capa.value
      ensures r.Endless? <==> !r.BadCapacity? && Size(l, capa) < 0
      ensures r.TooLarge? <==> !r.BadCapacity? && Size(l, capa) > Pow2(62)
      ensures r.BadCapacity? || r.Endless? || r.TooLarge? ==> View() == old(View())
      ensures r.Handed? || r.OutOfRange? ==> Fetch(old(View()), View(), Size(l, capa), r.buf)
      ensures r.Handed? ==> 0 <= l <= r.buf.capacity
      ensures r.OutOfRange? ==> l < 0 || l > r.buf.capacity
      ensures Exact(old(View())) ==> Exact(View()) && (r.OutOfRange? ==> l < 0)
    {
      hide Pow2;
      Doubles(62);
      var size := l;
      if capa.Some? {
        if l > capa.value {
          return BadCapacity;
        }
        size := capa.value;
      }
      if size < 0 {
        return Endless;
      }
      var i := GetIndex(size);
      IndexIs63(size, i);
      if i == 63 {
        return TooLarge;
      }
      var b: Buf;
      if reuse && pools[i] != {} {
        b :| b in pools[i];
        pools := pools[i := pools[i] - {b}];
      } else {
        b := new Buf(Pow2(i));
      }
      held := held + {b};
      assert FetchFrom(old(View()), View(), i, b);
      FetchKeeps(old(View()), View(), i, b);
      r := if 0 <= l <= b.capacity then Handed(b) else OutOfRange(b);
    }

    /** `Put`, of any buffer that is not in a pool already, wherever it came from. */
    method Put(b: Buf)
      requires Sound(View()) && !InPools(View(), b) && b.capacity < Pow2(63)
      modifies this
      ensures Sound(View()) && Deliver(old(View()), View(), b)
      ensures Exact(View()) <==> Exact(old(View())) && b.capacity != 0
    {
      hide Pow2, Single, IsPow2;
      SingleIs(b.capacity);
      held := held - {b};
      if !Single(b.capacity) {
        return;
      }
      var i := GetIndex(b.capacity);
      ClassOf(b.capacity, i);
      pools := pools[i := pools[i] + {b}];
      assert DeliverTo(old(View()), View(), i, b);
      DeliverKeeps(old(View()), View(), b);
    }
  }

  /** The pool of index 63 is only asked for sizes above 2^62. */
  lemma IndexIs63(size: nat, i: nat)
    requires size < Pow2(63) && CeilLog2(size, i)
    ensures i <= 63 && (i == 63 <==> size > Pow2(62))
  {
    hide Pow2;
    if i > 63 { PowGrows(63, i - 1); }
    if i < 63 { PowGrows(i, 62); }
  }

  function Empty(): State {
    State(seq(64, _ => {}), {})
  }

  /** A capacity that passes the test of `Put` is zero, of class 0, or the power of its class. */
  lemma ClassOf(capacity: nat, i: nat)
    requires capacity < Pow2(63) && (capacity == 0 || IsPow2(capacity)) && CeilLog2(capacity, i)
    ensures i < 63 && (if capacity == 0 then i == 0 else capacity == Pow2(i))
  {
    hide Pow2;
    if capacity > 0 {
      var k := IsPow2Means(capacity);
      ClassOfPower(k, i);
      if k >= 63 { PowGrows(63, k); }
    }
  }

  /** Taking a buffer keeps the pools as they should be. */
  lemma FetchKeeps(s: State, s': State, i: nat, b: Buf)
    requires Sound(s) && i < 63 && FetchFrom(s, s', i, b)
    ensures Sound(s') && (Exact(s) ==> Exact(s')) && b !in s.held && b in s'.held
    ensures b.capacity == Pow2(i) || (i == 0 && b.capacity == 0)
  {
    OnePool(i);
  }

  lemma DeliverKeeps(s: State, s': State, b: Buf)
    requires Sound(s) && !InPools(s, b) && b.capacity < Pow2(63) && Deliver(s, s', b)
    ensures Sound(s') && (Exact(s') <==> Exact(s) && b.capacity != 0)
  {
    hide Pow2, IsPow2;
    if b.capacity == 0 || IsPow2(b.capacity) {
      var i :| 0 <= i < |s.pools| && DeliverTo(s, s', i, b);
      ClassOf(b.capacity, i);
      assert b in s'.pools[i];
      assert forall j, x :: 0 <= j < 64 && x in s.pools[j] ==> x in s'.pools[j];
      PowPositive(i);
    }
  }

  lemma PowPositive(i: nat)
    ensures Pow2(i) > 0
  {
  }

  /** Different pools hold buffers of different capacity. */
  lemma OnePool(i: nat)
    ensures forall j: nat :: Pow2(j) == Pow2(i) ==> j == i
  {
    forall j: nat | Pow2(j) == Pow2(i) ensures j == i {
      if j < i { PowGrows(j, i); }
      if i < j { PowGrows(i, j); }
    }
  }

  lemma SmallIndex(size: nat, i: nat)
    requires size <= Pow2(62) && CeilLog2(size, i)
    ensures i <= 62
  {
    if i > 62 { PowGrows(62, i - 1); }
  }

  // ------------------------------------------------------------------------------------
  // Runs
  // ------------------------------------------------------------------------------------

  /** A `Get` that took `buf`, a `Put`, or the pool's own decision to forget a buffer. */
  datatype Step = GetStep(l: int, capa: Option<int>, buf: Buf) | PutStep(buf: Buf) | Forget(buf: Buf)

  ghost predicate Next(s: State, s': State, step: Step) {
    match step
    case GetStep(l, capa, b) =>
      l <= Size(l, capa) && 0 <= Size(l, capa) <= Pow2(62) && Fetch(s, s', Size(l, capa), b)
    case PutStep(b) => !InPools(s, b) && b.capacity < Pow2(63) && Deliver(s, s', b)
    case Forget(b) => exists i :: 0 <= i < |s.pools| && s' == s.(pools := s.pools[i := s.pools[i] - {b}])
  }

  ghost predicate IsRun(run: seq<State>, steps: seq<Step>) {
    && |run| == |steps| + 1 && run[0] == Empty()
    && forall k {:trigger steps[k]} :: 0 <= k < |steps| ==> Next(run[k], run[k + 1], steps[k])
  }

  ghost predicate PutsZero(steps: seq<Step>, n: nat) {
    exists k :: 0 <= k < n && k < |steps| && steps[k].PutStep? && steps[k].buf.capacity == 0
  }

  lemma {:induction false} RunSound(run: seq<State>, steps: seq<Step>, n: nat)
    requires IsRun(run, steps) && n < |run|
    ensures Sound(run[n])
  {
    if n > 0 {
      RunSound(run, steps, n - 1);
      var s, s', step := run[n - 1], run[n], steps[n - 1];
      assert Next(s, s', step);
      NextSound(s, s', step);
    }
  }

  lemma NextSound(s: State, s': State, step: Step)
    requires Sound(s) && Next(s, s', step)
    ensures Sound(s') && (!step.PutStep? && Exact(s) ==> Exact(s'))
    ensures step.PutStep? ==> (Exact(s') <==> Exact(s) && step.buf.capacity != 0)
  {
    hide Pow2, Sound, Exact, Deliver, FetchFrom;
    match step
    case GetStep(l, capa, b) =>
      var i :| 0 <= i < |s.pools| && CeilLog2(Size(l, capa), i) && FetchFrom(s, s', i, b);
      Pools(s);
      SmallIndex(Size(l, capa), i);
      FetchKeeps(s, s', i, b);
    case PutStep(b) =>
      DeliverKeeps(s, s', b);
    case Forget(b) =>
      ForgetKeeps(s, s', b);
  }

  lemma ForgetKeeps(s: State, s': State, b: Buf)
    requires Sound(s) && exists i :: 0 <= i < |s.pools| && s' == s.(pools := s.pools[i := s.pools[i] - {b}])
    ensures Sound(s') && (Exact(s) ==> Exact(s'))
  {
  }

  lemma Pools(s: State)
    requires Sound(s)
    ensures |s.pools| == 64
  {
  }

  /** Every pool i held only buffers of capacity 2^i so far exactly if nobody put a buffer of capacity zero. */
  lemma {:induction false} ExactExactly(run: seq<State>, steps: seq<Step>, n: nat)
    requires IsRun(run, steps) && n < |run|
    ensures (forall k :: 0 <= k <= n ==> Exact(run[k])) <==> !PutsZero(steps, n)
  {
    hide Exact, Next;
    if n == 0 {
      EmptyExact();
    } else {
      ExactExactly(run, steps, n - 1);
      RunSound(run, steps, n - 1);
      assert Next(run[n - 1], run[n], steps[n - 1]);
      NextSound(run[n - 1], run[n], steps[n - 1]);
      var last := steps[n - 1];
      assert PutsZero(steps, n) <==> PutsZero(steps, n - 1) || (last.PutStep? && last.buf.capacity == 0);
    }
  }

  lemma EmptyExact()
    ensures Exact(Empty())
  {
  }

  /** A `Get` never hands out a buffer somebody holds; and slicing it to the length is out of range exactly
      if its capacity is zero and the length one, which needs a buffer of capacity zero put before. */
  lemma GetInRange(run: seq<State>, steps: seq<Step>, n: nat)
    requires IsRun(run, steps) && n < |steps| && steps[n].GetStep?
    ensures var x := steps[n];
      && x.buf !in run[n].held
      && (x.l > x.buf.capacity <==> x.l == 1 && x.buf.capacity == 0)
      && (x.l > x.buf.capacity ==> PutsZero(steps, n))
  {
    hide Sound, Exact, PutsZero, FetchFrom, Pow2;
    var s, s', x := run[n], run[n + 1], steps[n];
    RunSound(run, steps, n);
    assert Next(s, s', x);
    var i :| 0 <= i < |s.pools| && CeilLog2(Size(x.l, x.capa), i) && FetchFrom(s, s', i, x.buf);
    Pools(s);
    SmallIndex(Size(x.l, x.capa), i);
    FetchKeeps(s, s', i, x.buf);
    PowAtZero();
    if x.l > x.buf.capacity {
      ZeroInPool(s, s', i, x.buf);
      ExactExactly(run, steps, n);
    }
  }

  lemma PowAtZero()
    ensures Pow2(0) == 1
  {
  }

  lemma ZeroInPool(s: State, s': State, i: nat, b: Buf)
    requires i < |s.pools| && FetchFrom(s, s', i, b) && b.capacity == 0
    ensures !Exact(s)
  {
  }

  /** And that happens: put a buffer of capacity zero, get one of length one. */
  lemma ZeroHanded(b: Buf)
    requires b.capacity == 0
    ensures var s1 := State(Empty().pools[0 := {b}], {});
      IsRun([Empty(), s1, State(Empty().pools, {b})], [PutStep(b), GetStep(1, None, b)]) && 1 > b.capacity
  {
    hide Pow2;
    PowAtZero();
    PowPositive(62);
    PowPositive(63);
    var s0 := Empty();
    var s1 := State(s0.pools[0 := {b}], {});
    var s2 := State(s0.pools, {b});
    assert s0.pools[0] + {b} == {b} && {b} - {b} == {};
    assert s1.pools[0 := s1.pools[0] - {b}] == s0.pools;
    assert CeilLog2(0, 0) && CeilLog2(1, 0);
    assert DeliverTo(s0, s1, 0, b);
    assert FetchFrom(s1, s2, 0, b);
    var run, steps := [s0, s1, s2], [PutStep(b), GetStep(1, None, b)];
    assert Next(run[0], run[1], steps[0]) && Next(run[1], run[2], steps[1]);
  }
}
