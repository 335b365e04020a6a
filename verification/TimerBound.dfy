/**
 How slow an insertion may be.  With the delay between its clock reading and its container as a
 parameter, nothing is late in any run exactly if that delay is at most one tick length.
 */
module TimerBound {
  import opened Options
  import opened Timer
  import opened TimerRuns

  /** A step that takes no time, or time passing under the given delay. */
  ghost predicate SlowNext(s: Sys, s': Sys, delay: int) {
    PassWithin(s, s', delay) || (s'.time == s.time && Next(s, s'))
  }

  ghost predicate IsSlowRun(run: seq<Sys>, delay: int) {
    |run| > 0 && Init(run[0]) && forall i :: 0 <= i < |run| - 1 ==> SlowNext(run[i], run[i + 1], delay)
  }

  /** A tick takes the due tasks and leaves one in a container that was due at its scheduled time. */
  ghost predicate Late(run: seq<Sys>, i: nat) {
    && i + 1 < |run| && Split(run[i], run[i + 1])
    && exists x :: x in All(run[i + 1].lists) && x.next <= run[i + 1].base
  }

  ghost predicate CanBeLate(t: int, delay: int) {
    exists run: seq<Sys>, i: nat :: IsSlowRun(run, delay) && run[0].t == t && Late(run, i)
  }

  lemma TickLengthKept(s: Sys, s': Sys)
    requires Next(s, s')
    ensures s'.t == s.t
  {
    hide Pass, BeginTick, StartSecond, ReadSecond, ReadThird, Split, SweepSecond, SweepThird;
    hide RunTask, ReadInsert, Append, Create;
    if Phase(s, s') {
      PhaseKeepsLength(s, s');
    } else if SweepSecond(s, s') || SweepThird(s, s') || exists i :: Append(s, s', i) {
      MovesKeepLength(s, s');
    } else {
      OthersQuiet(s, s');
    }
  }

  lemma PhaseKeepsLength(s: Sys, s': Sys)
    requires Phase(s, s')
    ensures s'.t == s.t
  {
    hide BeginTick, StartSecond;
    if BeginTick(s, s') || StartSecond(s, s') { TicksKeepLength(s, s'); }
  }

  lemma TicksKeepLength(s: Sys, s': Sys)
    requires BeginTick(s, s') || StartSecond(s, s')
    ensures s'.t == s.t
  {
  }

  lemma MovesKeepLength(s: Sys, s': Sys)
    requires SweepSecond(s, s') || SweepThird(s, s') || exists i :: Append(s, s', i)
    ensures s'.t == s.t
  {
    hide Put, Place, MoveSecond, MoveThird;
  }

  lemma {:induction false} TickLength(run: seq<Sys>, delay: int, i: nat)
    requires IsSlowRun(run, delay) && i < |run|
    ensures run[i].t == run[0].t
  {
    hide Next;
    if i > 0 {
      TickLength(run, delay, i - 1);
      assert SlowNext(run[i - 1], run[i], delay);
      if !PassWithin(run[i - 1], run[i], delay) { TickLengthKept(run[i - 1], run[i]); }
    }
  }

  lemma QuickEnough(run: seq<Sys>, delay: int)
    requires IsSlowRun(run, delay) && delay <= run[0].t
    ensures IsRun(run)
  {
    hide SlowNext, Next;
    forall i | 0 <= i < |run| - 1 ensures Next(run[i], run[i + 1]) {
      assert SlowNext(run[i], run[i + 1], delay);
      TickLength(run, delay, i);
      QuickStep(run[i], run[i + 1], delay);
    }
  }

  lemma QuickStep(s: Sys, s': Sys, delay: int)
    requires SlowNext(s, s', delay) && delay <= s.t
    ensures Next(s, s')
  {
    hide BeginTick, StartSecond, ReadSecond, ReadThird, Split, SweepSecond, SweepThird;
    hide RunTask, ReadInsert, Append, Create;
    if PassWithin(s, s', delay) { assert Pass(s, s'); }
  }

  // ------------------------------------------------------------------------------------
  // A late task
  // ------------------------------------------------------------------------------------

  function Last(run: seq<Sys>): Sys
    requires run != []
  {
    run[|run| - 1]
  }

  lemma Push(run: seq<Sys>, s': Sys, delay: int)
    requires run != [] && IsSlowRun(run, delay) && SlowNext(Last(run), s', delay)
    ensures IsSlowRun(run + [s'], delay)
  {
    hide SlowNext, Init;
    var next := run + [s'];
    forall i | 0 <= i < |next| - 1 ensures SlowNext(next[i], next[i + 1], delay) {
      if i < |run| - 1 { assert SlowNext(run[i], run[i + 1], delay); }
    }
  }

  /** Between ticks, nothing in `first`, no sweep under way. */
  ghost predicate Calm(s: Sys) {
    && s.t > 0 && !s.ticking && s.lists.first == [] && s.sweep2.Idle? && s.sweep3.Idle? && s.time <= s.base + s.t
  }

  /** The state after the next tick. */
  function Ticked(s: Sys): Sys {
    var now := s.base + s.t;
    if s.count2 + 1 >= 4 then s.(time := now, base := now, sweep2 := Launched, count2 := 0)
    else s.(time := now, base := now, count2 := s.count2 + 1)
  }

  lemma Tick(run: seq<Sys>, delay: int) returns (more: seq<Sys>)
    requires run != [] && IsSlowRun(run, delay) && Calm(Last(run))
    requires forall i :: 0 <= i < |Last(run).inserting| ==>
      Last(run).base + Last(run).t <= Last(run).inserting[i].x + delay
    ensures IsSlowRun(more, delay) && |more| == |run| + 3 && more[0] == run[0] && Last(more) == Ticked(Last(run))
    ensures Split(more[|more| - 2], more[|more| - 1])
  {
    hide IsSlowRun, SlowNext;
    var s := Last(run);
    var s1 := s.(time := s.base + s.t);
    var s2 := Ticked(s).(ticking := true);
    var s3 := Ticked(s);
    Passes(s, s1, delay);
    Push(run, s1, delay);
    Begins(s1, s2, delay);
    Push(run + [s1], s2, delay);
    Splits(s2, s3, delay);
    Push(run + [s1] + [s2], s3, delay);
    more := run + [s1] + [s2] + [s3];
    RunStart(run, s1, s2, s3);
  }

  lemma RunStart(run: seq<Sys>, s1: Sys, s2: Sys, s3: Sys)
    requires run != []
    ensures (run + [s1] + [s2] + [s3])[0] == run[0]
  {
  }

  lemma Passes(s: Sys, s': Sys, delay: int)
    requires s' == s.(time := s'.time) && !s.ticking && !Sweeping(s) && s.time <= s'.time < s.base + 2 * s.t
    requires forall i :: 0 <= i < |s.inserting| ==> s'.time <= s.inserting[i].x + delay
    ensures SlowNext(s, s', delay)
  {
  }

  lemma Begins(s: Sys, s': Sys, delay: int)
    requires BeginTick(s, s')
    ensures SlowNext(s, s', delay)
  {
  }

  lemma Splits(s: Sys, s': Sys, delay: int)
    requires s.ticking && s.lists.first == [] && s' == s.(ticking := false)
    ensures Split(s, s') && SlowNext(s, s', delay)
  {
    assert s.launched + multiset(Due(s.lists.first, s.time)) == s.launched;
    assert s' == s.(ticking := false, lists := s.lists.(first := []), launched := s.launched, fires := s.fires);
    assert Split(s, s');
  }

  /** A launched sweep of an empty `second`, from start to end. */
  lemma Sweep(run: seq<Sys>, delay: int) returns (more: seq<Sys>)
    requires run != [] && IsSlowRun(run, delay)
    requires var s := Last(run); s.sweep2.Launched? && s.count3 < 4 && s.lists == Lists([], [], [])
    ensures IsSlowRun(more, delay) && more != [] && more[0] == run[0]
    ensures Last(more) == Last(run).(sweep2 := Idle, count3 := Last(run).count3 + 1)
  {
    hide IsSlowRun, SlowNext;
    var s := Last(run);
    var s1 := s.(sweep2 := Started, count3 := s.count3 + 1);
    var s2 := s1.(sweep2 := Limit(s.time + 5 * s.t));
    var s3 := s1.(sweep2 := Idle);
    Sweeps(s, s1, s2, s3, delay);
    Push(run, s1, delay);
    Push(run + [s1], s2, delay);
    Push(run + [s1] + [s2], s3, delay);
    more := run + [s1] + [s2] + [s3];
    RunStart(run, s1, s2, s3);
  }

  lemma Sweeps(s: Sys, s1: Sys, s2: Sys, s3: Sys, delay: int)
    requires s.sweep2.Launched? && s.count3 < 4 && s.lists == Lists([], [], [])
    requires s1 == s.(sweep2 := Started, count3 := s.count3 + 1) && s2 == s1.(sweep2 := Limit(s.time + 5 * s.t))
    requires s3 == s1.(sweep2 := Idle)
    ensures SlowNext(s, s1, delay) && SlowNext(s1, s2, delay) && SlowNext(s2, s3, delay)
  {
    assert StartSecond(s, s1) && ReadSecond(s1, s2);
    assert MoveSecond(s2.lists, s2.sweep2.limit) == s2.lists;
    assert SweepSecond(s2, s3);
  }

  /** The task that will be late: due at 8t, one run. */
  function Victim(t: int): Task {
    Task(0, 8 * t, 0, 1)
  }

  /** The start, and the start with the task waiting to be inserted. */
  function Start(t: int): Sys {
    Sys(t, 0, 0, false, Lists([], [], []), 0, 0, Idle, Idle, multiset{}, multiset{}, [], map[], map[], map[], map[])
  }

  function Made(t: int): Sys {
    Start(t).(waiting := multiset{Victim(t)}, cur := map[0 := Victim(t)], orders := map[0 := Order(8 * t, 0, 1, 0)],
              calls := map[0 := 0], fires := map[0 := []])
  }

  lemma Begin(t: int, delay: int)
    requires t > 0
    ensures IsSlowRun([Start(t), Made(t)], delay)
  {
    var s, s' := Start(t), Made(t);
    assert s.waiting + multiset{Victim(t)} == s'.waiting;
    assert Create(s, s', 0, Order(8 * t, 0, 1, 0));
    assert SlowNext(s, s', delay);
  }

  /** The insertion reads the clock one unit before the third tick, and places the task in `second`... */
  lemma ReadsClock(s: Sys, s': Sys, delay: int)
    requires s.waiting == multiset{Victim(s.t)} && s.inserting == []
    requires s' == s.(waiting := multiset{}, inserting := [Inserting(Victim(s.t), s.time)])
    ensures SlowNext(s, s', delay)
  {
    assert s.waiting - multiset{Victim(s.t)} == multiset{};
    assert s.inserting + [Inserting(Victim(s.t), s.time)] == s'.inserting;
    assert ReadInsert(s, s', Victim(s.t));
  }

  /** ...which it reaches t + 1 later, after the sweep. */
  lemma Reaches(s: Sys, s': Sys, delay: int)
    requires s.t > 0 && s.inserting == [Inserting(Victim(s.t), 3 * s.t - 1)] && s.lists == Lists([], [], [])
    requires s' == s.(inserting := [], lists := Lists([], [Victim(s.t)], []))
    ensures SlowNext(s, s', delay)
  {
    assert s.inserting[..0] + s.inserting[1..] == [];
    assert Place(Victim(s.t), 3 * s.t - 1, s.t) == Second;
    assert [] + [Victim(s.t)] == [Victim(s.t)];
    assert Append(s, s', 0);
  }

  /** Up to the clock reading of the insertion, at 3t - 1. */
  lemma Opening(t: int, delay: int) returns (run: seq<Sys>)
    requires t > 0 && delay > t
    ensures IsSlowRun(run, delay) && run != [] && run[0] == Start(t)
    ensures Last(run) == Made(t).(time := 3 * t - 1, base := 2 * t, count2 := 2, waiting := multiset{},
                                  inserting := [Inserting(Victim(t), 3 * t - 1)])
  {
    hide IsSlowRun, SlowNext;
    Begin(t, delay);
    run := [Start(t), Made(t)];
    run := Tick(run, delay);
    run := Tick(run, delay);
    var s := Last(run);
    var s1 := s.(time := 3 * t - 1);
    Passes(s, s1, delay);
    Push(run, s1, delay);
    var s2 := s1.(waiting := multiset{}, inserting := [Inserting(Victim(t), 3 * t - 1)]);
    ReadsClock(s1, s2, delay);
    Push(run + [s1], s2, delay);
    run := run + [s1] + [s2];
  }

  /** Up to the insertion, at 4t, after the sweep that began there. */
  lemma Middle(t: int, delay: int) returns (run: seq<Sys>)
    requires t > 0 && delay > t
    ensures IsSlowRun(run, delay) && run != [] && run[0] == Start(t)
    ensures Last(run) == Made(t).(time := 4 * t, base := 4 * t, count2 := 0, count3 := 1, waiting := multiset{},
                                  lists := Lists([], [Victim(t)], []))
  {
    hide IsSlowRun, SlowNext;
    run := Opening(t, delay);
    run := Tick(run, delay);
    run := Tick(run, delay);
    run := Sweep(run, delay);
    var s := Last(run);
    var s1 := s.(inserting := [], lists := Lists([], [Victim(t)], []));
    Reaches(s, s1, delay);
    Push(run, s1, delay);
    run := run + [s1];
  }

  /** The tick of 8t splits `first` before its sweep has moved the task there. */
  lemma LateRun(t: int, delay: int) returns (run: seq<Sys>)
    requires t > 0 && delay > t
    ensures IsSlowRun(run, delay) && |run| >= 2 && run[0].t == t && Late(run, |run| - 2)
  {
    hide IsSlowRun, SlowNext, Split;
    run := Middle(t, delay);
    run := Tick(run, delay);
    run := Tick(run, delay);
    run := Tick(run, delay);
    run := Tick(run, delay);
    assert Last(run).base == 8 * t && Victim(t) in All(Last(run).lists);
  }

  /** Some run leaves a task late exactly if insertions may take longer than a tick. */
  lemma LateExactly(t: int, delay: int)
    requires t > 0
    ensures CanBeLate(t, delay) <==> delay > t
  {
    if delay > t {
      var run := LateRun(t, delay);
    } else {
      forall run: seq<Sys>, i: nat | IsSlowRun(run, delay) && run[0].t == t ensures !Late(run, i) {
        NeverSo(run, delay, i);
      }
    }
  }

  lemma NeverSo(run: seq<Sys>, delay: int, i: nat)
    requires IsSlowRun(run, delay) && delay <= run[0].t
    ensures !Late(run, i)
  {
    hide IsSlowRun, IsRun, Split;
    QuickEnough(run, delay);
    forall x | i + 1 < |run| && Split(run[i], run[i + 1]) && x in All(run[i + 1].lists)
      ensures x.next > run[i + 1].base {
      NeverLate(run, i, x);
    }
  }
}
