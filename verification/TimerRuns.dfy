/**
 The timer over whole runs.  The ticker, the sweeps, the insertions and the runs of tasks are
 separate goroutines; a step is one clock reading, one critical section or one launch.  The only
 timing assumptions are those written in `PassWithin`: a tick begins within one tick length of its
 scheduled time, the work it launches on the containers is done before the next tick is due, and
 an insertion reaches its container at most one tick length after it read the clock.
 */
module TimerRuns {
  import opened Options
  import opened Timer

  /** A sweep: not running, launched, at work, or past its clock reading with the limit it computed. */
  datatype Sweep = Idle | Launched | Started | Limit(limit: int)

  /** An insertion that has read the clock at `x` and not yet reached its container. */
  datatype Inserting = Inserting(task: Task, x: int)

  /** A firing: the due time of the task and the clock reading of the tick. */
  datatype Fire = Fire(due: int, at: int)

  /** What was asked for when a task was created: `total` calls, or -1 for no end; `early` of them
      made at once. */
  datatype Order = Order(due: int, interval: int, total: int, early: nat)

  datatype Sys = Sys(
    t: int,                         // tick length: 100ms * level
    time: int,                      // the clock
    base: int,                      // scheduled time of the last tick begun
    ticking: bool,                  // that tick has not yet split `first`
    lists: Lists,
    count2: nat,
    count3: nat,
    sweep2: Sweep,
    sweep3: Sweep,
    launched: multiset<Task>,       // go run(row), not yet executed
    waiting: multiset<Task>,        // putInto called, clock not yet read
    inserting: seq<Inserting>,
    // history: the tasks alive, by id; what was asked for; calls made; firings
    cur: map<nat, Task>,
    orders: map<nat, Order>,
    calls: map<nat, nat>,
    fires: map<nat, seq<Fire>>)

  function TaskSeq(xs: seq<Inserting>): seq<Task> {
    seq(|xs|, i requires 0 <= i < |xs| => xs[i].task)
  }

  function Tasks(xs: seq<Inserting>): multiset<Task> {
    multiset(TaskSeq(xs))
  }

  /** Every task alive anywhere. */
  function Alive(s: Sys): multiset<Task> {
    All(s.lists) + s.launched + s.waiting + Tasks(s.inserting)
  }

  predicate Sweeping(s: Sys) {
    !s.sweep2.Idle? || !s.sweep3.Idle?
  }

  ghost predicate Init(s: Sys) {
    && s.t > 0 && s.time == s.base && !s.ticking
    && s.lists == Lists([], [], []) && s.count2 == 0 && s.count3 == 0 && s.sweep2.Idle? && s.sweep3.Idle?
    && s.launched == multiset{} && s.waiting == multiset{} && s.inserting == []
    && s.cur == map[] && s.orders == map[] && s.calls == map[] && s.fires == map[]
  }

  // ------------------------------------------------------------------------------------
  // Steps
  // ------------------------------------------------------------------------------------

  /** Time passes, with an insertion reaching its container at most `delay` after it read the clock. */
  ghost predicate PassWithin(s: Sys, s': Sys, delay: int) {
    && s.time <= s'.time && s' == s.(time := s'.time)
    && (s.ticking || Sweeping(s) ==> s'.time < s.base + s.t)
    && s'.time < s.base + 2 * s.t
    && (forall i :: 0 <= i < |s.inserting| ==> s'.time <= s.inserting[i].x + delay)
  }

  ghost predicate Pass(s: Sys, s': Sys) {
    PassWithin(s, s', s.t)
  }

  /** A tick begins: count, and launch a sweep of `second` every fourth time. */
  ghost predicate BeginTick(s: Sys, s': Sys) {
    && !s.ticking && s.time >= s.base + s.t
    && s' == if s.count2 + 1 >= 4 then s.(base := s.base + s.t, ticking := true, sweep2 := Launched, count2 := 0)
             else s.(base := s.base + s.t, ticking := true, count2 := s.count2 + 1)
  }

  function LogFires(fires: map<nat, seq<Fire>>, due: seq<Task>, at: int): map<nat, seq<Fire>> {
    if due == [] then fires
    else
      var m := LogFires(fires, due[..|due| - 1], at);
      var x := due[|due| - 1];
      if x.id in m then m[x.id := m[x.id] + [Fire(x.next, at)]] else m
  }

  /** The tick reads the clock and takes the due tasks out of `first`. */
  ghost predicate Split(s: Sys, s': Sys) {
    && s.ticking
    && s' == s.(ticking := false,
                lists := s.lists.(first := Later(s.lists.first, s.time)),
                launched := s.launched + multiset(Due(s.lists.first, s.time)),
                fires := LogFires(s.fires, Due(s.lists.first, s.time), s.time))
  }

  /** A launched sweep of `second` starts: count, and launch a sweep of `third` every fifth time. */
  ghost predicate StartSecond(s: Sys, s': Sys) {
    && s.sweep2.Launched?
    && s' == if s.count3 + 1 >= 5 then s.(sweep2 := Started, sweep3 := Launched, count3 := 0)
             else s.(sweep2 := Started, count3 := s.count3 + 1)
  }

  ghost predicate ReadSecond(s: Sys, s': Sys) {
    s.sweep2.Started? && s' == s.(sweep2 := Limit(s.time + 5 * s.t))
  }

  ghost predicate SweepSecond(s: Sys, s': Sys) {
    s.sweep2.Limit? && s' == s.(sweep2 := Idle, lists := MoveSecond(s.lists, s.sweep2.limit))
  }

  ghost predicate ReadThird(s: Sys, s': Sys) {
    s.sweep3.Launched? && s' == s.(sweep3 := Limit(s.time + 25 * s.t))
  }

  ghost predicate SweepThird(s: Sys, s': Sys) {
    s.sweep3.Limit? && s' == s.(sweep3 := Idle, lists := MoveThird(s.lists, s.sweep3.limit))
  }

  /** `run` on a fired task: call the function, and insert the task again unless it was the last time. */
  ghost predicate RunTask(s: Sys, s': Sys, x: Task) {
    && x in s.launched
    && var again := AfterRun(x);
       s' == s.(launched := s.launched - multiset{x},
                waiting := if again.Some? then s.waiting + multiset{again.value} else s.waiting,
                cur := if again.Some? then s.cur[x.id := again.value] else s.cur - {x.id},
                calls := if x.id in s.calls then s.calls[x.id := s.calls[x.id] + CallsOfRun(x)] else s.calls)
  }

  /** `putInto` reads the clock. */
  ghost predicate ReadInsert(s: Sys, s': Sys, x: Task) {
    && x in s.waiting
    && s' == s.(waiting := s.waiting - multiset{x}, inserting := s.inserting + [Inserting(x, s.time)])
  }

  /** `putInto` appends the task to the container it chose. */
  ghost predicate Append(s: Sys, s': Sys, i: nat) {
    && i < |s.inserting|
    && var x := s.inserting[i].task;
       s' == s.(inserting := s.inserting[..i] + s.inserting[i + 1..],
                lists := Put(s.lists, Place(x, s.inserting[i].x, s.t), x))
  }

  /** The task NewTimer inserts for an order, if any. */
  function FirstTask(id: nat, o: Order): Option<Task> {
    if o.total == -1 then Some(Task(id, o.due, o.interval, -1))
    else if o.total > o.early then Some(Task(id, o.due, o.interval, o.total - o.early))
    else None
  }

  /** NewTimer with `total` requested calls, `early` of them made at once; `total` -1 means no end. */
  ghost predicate Create(s: Sys, s': Sys, id: nat, o: Order) {
    && id !in s.orders && o.early <= 1 && (o.total == -1 || o.total >= 1)
    && var x := FirstTask(id, o);
       s' == s.(orders := s.orders[id := o], calls := s.calls[id := o.early], fires := s.fires[id := []],
                cur := if x.Some? then s.cur[id := x.value] else s.cur,
                waiting := if x.Some? then s.waiting + multiset{x.value} else s.waiting)
  }

  /** The steps that touch no task. */
  ghost predicate Phase(s: Sys, s': Sys) {
    Pass(s, s') || BeginTick(s, s') || StartSecond(s, s') || ReadSecond(s, s') || ReadThird(s, s')
  }

  ghost predicate Next(s: Sys, s': Sys) {
    || Phase(s, s') || Split(s, s') || SweepSecond(s, s') || SweepThird(s, s')
    || (exists x :: RunTask(s, s', x)) || (exists x :: ReadInsert(s, s', x)) || (exists i :: Append(s, s', i))
    || (exists id, o :: Create(s, s', id, o))
  }

  ghost predicate IsRun(run: seq<Sys>) {
    |run| > 0 && Init(run[0]) && forall i :: 0 <= i < |run| - 1 ==> Next(run[i], run[i + 1])
  }

  // ------------------------------------------------------------------------------------
  // Nothing is late
  // ------------------------------------------------------------------------------------

  /** Ticks from the last tick begun to the one that launches the next sweep of `third`. */
  function TicksToThird(s: Sys): int {
    if s.sweep2.Launched? then 4 * (4 - s.count3) else (4 - s.count2) + 4 * (4 - s.count3)
  }

  ghost predicate Clock(s: Sys) {
    && s.t > 0 && s.base <= s.time < s.base + 2 * s.t
    && (s.ticking || Sweeping(s) ==> s.time < s.base + s.t)
    && s.count2 < 4 && s.count3 < 5
    && (!s.sweep2.Idle? ==> s.count2 == 0)
    && (!s.sweep3.Idle? ==> s.count2 == 0 && s.count3 == 0 && !s.sweep2.Launched? && !s.sweep3.Started?)
    && (s.sweep2.Limit? ==> s.sweep2.limit >= s.base + 5 * s.t)
    && (s.sweep3.Limit? ==> s.sweep3.limit >= s.base + 25 * s.t)
    && (forall i :: 0 <= i < |s.inserting| ==> s.time <= s.inserting[i].x + s.t)
  }

  /** Everything in `second` is due after the tick that launches its next sweep... */
  function Horizon2(s: Sys): int {
    if s.sweep2.Idle? then s.base + (4 - s.count2) * s.t else s.base
  }

  /** ...and everything in `third` four ticks after the one that launches its next sweep. */
  function Horizon3(s: Sys): int {
    if s.sweep3.Idle? then s.base + (TicksToThird(s) + 4) * s.t else s.base + 4 * s.t
  }

  ghost predicate After(xs: seq<Task>, time: int) {
    forall x :: x in xs ==> x.next > time
  }

  ghost predicate OnTime(s: Sys) {
    Clock(s) && After(s.lists.second, Horizon2(s)) && After(s.lists.third, Horizon3(s))
  }

  lemma Scaled(a: int, b: int, t: int)
    requires a <= b && t > 0
    ensures a * t <= b * t
  {
  }

  lemma AppendOnTime(s: Sys, s': Sys, i: nat)
    requires OnTime(s) && Append(s, s', i)
    ensures OnTime(s')
  {
    var c := s.inserting[i];
    Scaled(4 - s.count2, 4, s.t);
    Scaled(TicksToThird(s) + 4, 24, s.t);
    forall j | 0 <= j < |s'.inserting| ensures s'.time <= s'.inserting[j].x + s'.t {
      if j >= i { assert s'.inserting[j] == s.inserting[j + 1]; }
    }
  }

  lemma SweepsOnTime(s: Sys, s': Sys)
    requires OnTime(s) && (SweepSecond(s, s') || SweepThird(s, s'))
    ensures OnTime(s')
  {
    hide OnTime, SweepSecond, SweepThird;
    if SweepSecond(s, s') {
      SecondOnTime(s, s');
    } else {
      ThirdOnTime(s, s');
    }
  }

  lemma SecondOnTime(s: Sys, s': Sys)
    requires OnTime(s) && SweepSecond(s, s')
    ensures OnTime(s')
  {
    SecondHorizons(s, s');
    hide Horizon2, Horizon3, Clock;
    SplitConserves(s.lists.second, s.sweep2.limit);
  }

  lemma SecondHorizons(s: Sys, s': Sys)
    requires Clock(s) && SweepSecond(s, s')
    ensures Clock(s') && Horizon3(s') == Horizon3(s) && Horizon2(s') <= s.sweep2.limit
  {
    assert TicksToThird(s') == TicksToThird(s);
  }

  lemma ThirdOnTime(s: Sys, s': Sys)
    requires OnTime(s) && SweepThird(s, s')
    ensures OnTime(s')
  {
    ThirdHorizons(s, s');
    hide Horizon2, Horizon3, Clock;
    SplitConserves(s.lists.third, s.sweep3.limit);
  }

  lemma ThirdHorizons(s: Sys, s': Sys)
    requires Clock(s) && SweepThird(s, s')
    ensures Clock(s') && Horizon2(s') == Horizon2(s) <= Horizon3(s) && Horizon3(s') <= s.sweep3.limit
  {
    assert TicksToThird(s') == 20;
  }

  lemma OneLess(a: int, t: int)
    ensures (a - 1) * t == a * t - t
  {
  }

  lemma BeginOnTime(s: Sys, s': Sys)
    requires OnTime(s) && BeginTick(s, s')
    ensures OnTime(s')
  {
    OneLess(4 - s.count2, s.t);
    OneLess(TicksToThird(s) + 4, s.t);
    assert s.sweep2.Idle? && s.sweep3.Idle?;
    assert TicksToThird(s') == TicksToThird(s) - 1;
    assert Horizon2(s') == Horizon2(s) && Horizon3(s') == Horizon3(s);
  }

  /** The steps that move no task between `second`, `third` and elsewhere. */
  lemma PhaseOnTime(s: Sys, s': Sys)
    requires OnTime(s) && Phase(s, s') && !BeginTick(s, s')
    ensures OnTime(s')
  {
    hide OnTime, Pass, StartSecond, ReadSecond, ReadThird;
    if StartSecond(s, s') {
      StartOnTime(s, s');
    } else if Pass(s, s') {
      PassOnTime(s, s');
    } else {
      ReadsOnTime(s, s');
    }
  }

  lemma PassOnTime(s: Sys, s': Sys)
    requires OnTime(s) && Pass(s, s')
    ensures OnTime(s')
  {
    assert TicksToThird(s') == TicksToThird(s);
  }

  lemma ReadsOnTime(s: Sys, s': Sys)
    requires OnTime(s) && (ReadSecond(s, s') || ReadThird(s, s'))
    ensures OnTime(s')
  {
    assert TicksToThird(s') == TicksToThird(s);
    assert Horizon2(s') == Horizon2(s) && Horizon3(s') == Horizon3(s);
  }

  lemma StartOnTime(s: Sys, s': Sys)
    requires OnTime(s) && StartSecond(s, s')
    ensures OnTime(s')
  {
    assert s.sweep3.Idle?;
    assert Horizon2(s') == Horizon2(s);
    assert s.count3 < 4 ==> TicksToThird(s') == TicksToThird(s);
    assert s.count3 == 4 ==> TicksToThird(s) == 0;
    assert Horizon3(s') == Horizon3(s);
  }

  lemma QuietOnTime(s: Sys, s': Sys)
    requires OnTime(s)
    requires s' == s.(ticking := s'.ticking, lists := s.lists.(first := s'.lists.first), launched := s'.launched,
                      waiting := s'.waiting, inserting := s'.inserting, cur := s'.cur, orders := s'.orders,
                      calls := s'.calls, fires := s'.fires)
    requires s'.ticking ==> s.ticking
    requires forall i :: 0 <= i < |s'.inserting| ==> s'.inserting[i] in s.inserting || s'.inserting[i].x == s.time
    ensures OnTime(s')
  {
  }

  lemma StepOnTime(s: Sys, s': Sys)
    requires OnTime(s) && Next(s, s')
    ensures OnTime(s')
  {
    hide OnTime, Phase, BeginTick, SweepSecond, SweepThird, Append, Split, RunTask, ReadInsert, Create;
    if BeginTick(s, s') {
      BeginOnTime(s, s');
    } else if SweepSecond(s, s') || SweepThird(s, s') {
      SweepsOnTime(s, s');
    } else if i :| Append(s, s', i) {
      AppendOnTime(s, s', i);
    } else if Phase(s, s') {
      PhaseOnTime(s, s');
    } else {
      OthersQuiet(s, s');
      QuietOnTime(s, s');
    }
  }

  lemma OthersQuiet(s: Sys, s': Sys)
    requires
      || Split(s, s') || (exists x :: RunTask(s, s', x)) || (exists x :: ReadInsert(s, s', x))
      || (exists id, o :: Create(s, s', id, o))
    ensures s' == s.(ticking := s'.ticking, lists := s.lists.(first := s'.lists.first), launched := s'.launched,
                     waiting := s'.waiting, inserting := s'.inserting, cur := s'.cur, orders := s'.orders,
                     calls := s'.calls, fires := s'.fires)
    ensures s'.ticking ==> s.ticking
    ensures forall i :: 0 <= i < |s'.inserting| ==> s'.inserting[i] in s.inserting || s'.inserting[i].x == s.time
  {
  }

  lemma {:induction false} RunOnTime(run: seq<Sys>, i: nat)
    requires IsRun(run) && i < |run|
    ensures OnTime(run[i])
  {
    if i > 0 {
      RunOnTime(run, i - 1);
      StepOnTime(run[i - 1], run[i]);
    }
  }

  /** `n` ticks after the start of the run, `third` has been swept, or is about to be, `r` times, once every
      twenty ticks, and `second` once every four. */
  ghost predicate InCadence(s: Sys, base: int, n: nat, r: nat) {
    && s.base == base + n * s.t && s.count2 < 4
    && n == 20 * r + 4 * (s.count3 + if s.sweep2.Launched? then 1 else 0) + s.count2
  }

  /** In every reachable state the counters agree with the number of ticks. */
  lemma {:induction false} SweepCadence(run: seq<Sys>, i: nat) returns (n: nat, r: nat)
    requires IsRun(run) && i < |run|
    ensures InCadence(run[i], run[0].base, n, r)
  {
    if i == 0 {
      n, r := 0, 0;
    } else {
      n, r := SweepCadence(run, i - 1);
      RunOnTime(run, i - 1);
      n, r := CadenceStep(run[i - 1], run[i], run[0].base, n, r);
    }
  }

  lemma CadenceStep(s: Sys, s': Sys, base: int, n: nat, r: nat) returns (n': nat, r': nat)
    requires Clock(s) && InCadence(s, base, n, r) && Next(s, s')
    ensures InCadence(s', base, n', r')
  {
    hide Clock, InCadence, Pass, BeginTick, StartSecond, ReadSecond, ReadThird;
    hide SweepSecond, SweepThird, Append, Split, RunTask, ReadInsert, Create;
    n', r' := n, r;
    if BeginTick(s, s') {
      n' := n + 1;
      BeginCadence(s, s', base, n, r);
    } else if StartSecond(s, s') {
      r' := if s.count3 + 1 >= 5 then r + 1 else r;
      StartCadence(s, s', base, n, r);
    } else {
      OtherCadence(s, s', base, n, r);
    }
  }

  lemma BeginCadence(s: Sys, s': Sys, base: int, n: nat, r: nat)
    requires Clock(s) && InCadence(s, base, n, r) && BeginTick(s, s')
    ensures InCadence(s', base, n + 1, r) && (s'.sweep2 == Launched <==> (n + 1) % 4 == 0)
  {
    OneLess(n + 1, s.t);
    assert !s.sweep2.Launched?;
  }

  /** A sweep of `second` that starts launches one of `third` exactly at every twentieth tick. */
  lemma StartCadence(s: Sys, s': Sys, base: int, n: nat, r: nat)
    requires Clock(s) && InCadence(s, base, n, r) && StartSecond(s, s')
    ensures InCadence(s', base, n, if s.count3 + 1 >= 5 then r + 1 else r)
    ensures s'.sweep3 == Launched <==> n % 20 == 0
  {
    assert s.count2 == 0 && s.sweep3.Idle?;
  }

  /** The steps that neither tick nor start a sweep keep the counters. */
  lemma OtherCadence(s: Sys, s': Sys, base: int, n: nat, r: nat)
    requires InCadence(s, base, n, r) && Next(s, s') && !BeginTick(s, s') && !StartSecond(s, s')
    ensures InCadence(s', base, n, r)
  {
    hide InCadence, Pass, BeginTick, StartSecond, ReadSecond, ReadThird;
    hide SweepSecond, SweepThird, Append, Split, RunTask, ReadInsert, Create;
    if Pass(s, s') || ReadSecond(s, s') || ReadThird(s, s') {
      ReadsKeepCount(s, s');
    } else if SweepSecond(s, s') || SweepThird(s, s') || exists i :: Append(s, s', i) {
      MovesKeepCount(s, s');
    } else {
      OthersQuiet(s, s');
    }
    SameCount(s, s', base, n, r);
  }

  ghost predicate CountKept(s: Sys, s': Sys) {
    && s'.t == s.t && s'.base == s.base && s'.count2 == s.count2 && s'.count3 == s.count3
    && (s'.sweep2.Launched? <==> s.sweep2.Launched?)
  }

  lemma SameCount(s: Sys, s': Sys, base: int, n: nat, r: nat)
    requires InCadence(s, base, n, r) && CountKept(s, s')
    ensures InCadence(s', base, n, r)
  {
  }

  lemma ReadsKeepCount(s: Sys, s': Sys)
    requires Pass(s, s') || ReadSecond(s, s') || ReadThird(s, s')
    ensures CountKept(s, s')
  {
  }

  lemma MovesKeepCount(s: Sys, s': Sys)
    requires SweepSecond(s, s') || SweepThird(s, s') || exists i :: Append(s, s', i)
    ensures CountKept(s, s')
  {
    hide Put, Place, MoveSecond, MoveThird;
  }

  /** Never late: when a tick has taken the due tasks, no task left in any container was due at the
      tick's scheduled time. */
  lemma NeverLate(run: seq<Sys>, i: nat, x: Task)
    requires IsRun(run) && i + 1 < |run| && Split(run[i], run[i + 1])
    requires x in All(run[i + 1].lists)
    ensures x.next > run[i + 1].base
  {
    RunOnTime(run, i);
    var s := run[i];
    SplitConserves(s.lists.first, s.time);
    Scaled(0, 4 - s.count2, s.t);
    Scaled(0, TicksToThird(s) + 4, s.t);
  }

  /** Never early, and never a task that could have fired before: a task a tick takes is due, and if
      it was already in a container when the previous tick did its work it was not due then. */
  lemma NeverEarly(run: seq<Sys>, i: nat, j: nat, x: Task)
    requires IsRun(run) && i < j && j + 1 < |run| && Split(run[i], run[i + 1]) && Split(run[j], run[j + 1])
    requires x in Due(run[j].lists.first, run[j].time)
    ensures x.next <= run[j].time
    ensures x in All(run[i + 1].lists) ==> x.next > run[i + 1].base
  {
    SplitConserves(run[j].lists.first, run[j].time);
    if x in All(run[i + 1].lists) {
      NeverLate(run, i, x);
    }
  }

  // ------------------------------------------------------------------------------------
  // Nothing is lost
  // ------------------------------------------------------------------------------------

  lemma TasksSplit(xs: seq<Inserting>, i: nat)
    requires i < |xs|
    ensures Tasks(xs) == Tasks(xs[..i] + xs[i + 1..]) + multiset{xs[i].task}
  {
    var ts := TaskSeq(xs);
    assert TaskSeq(xs[..i] + xs[i + 1..]) == ts[..i] + ts[i + 1..];
    assert ts == ts[..i] + [ts[i]] + ts[i + 1..];
  }

  lemma TasksAppend(xs: seq<Inserting>, c: Inserting)
    ensures Tasks(xs + [c]) == Tasks(xs) + multiset{c.task}
  {
    assert TaskSeq(xs + [c]) == TaskSeq(xs) + [c.task];
  }

  /** Time, ticks, sweeps and insertions conserve the tasks. */
  lemma MovesKeepAlive(s: Sys, s': Sys)
    requires Phase(s, s') || Split(s, s') || SweepSecond(s, s') || SweepThird(s, s')
      || (exists x :: ReadInsert(s, s', x)) || (exists i :: Append(s, s', i))
    ensures Alive(s') == Alive(s)
  {
    hide *;
    if Phase(s, s') {
      PhaseKeepsAlive(s, s');
    } else if Split(s, s') {
      SplitKeepsAlive(s, s');
    } else if SweepSecond(s, s') || SweepThird(s, s') {
      SweepKeepsAlive(s, s');
    } else if x :| ReadInsert(s, s', x) {
      ReadKeepsAlive(s, s', x);
    } else if i :| Append(s, s', i) {
      AppendKeepsAlive(s, s', i);
    }
  }

  lemma PhaseKeepsAlive(s: Sys, s': Sys)
    requires Phase(s, s')
    ensures Alive(s') == Alive(s)
  {
    hide Alive, Pass, BeginTick, StartSecond, ReadSecond, ReadThird;
    if Pass(s, s') || ReadSecond(s, s') || ReadThird(s, s') {
      ReadsKeepTasks(s, s');
    } else {
      TicksKeepTasks(s, s');
    }
    SameTasks(s, s');
  }

  ghost predicate TasksKept(s: Sys, s': Sys) {
    && s'.lists == s.lists && s'.launched == s.launched && s'.waiting == s.waiting && s'.inserting == s.inserting
    && RecordsKept(s, s')
  }

  ghost predicate RecordsKept(s: Sys, s': Sys) {
    && s'.launched == s.launched && s'.cur == s.cur && s'.orders == s.orders
    && s'.calls == s.calls && s'.fires == s.fires
  }

  lemma SameTasks(s: Sys, s': Sys)
    requires TasksKept(s, s')
    ensures Alive(s') == Alive(s)
  {
  }

  lemma ReadsKeepTasks(s: Sys, s': Sys)
    requires Pass(s, s') || ReadSecond(s, s') || ReadThird(s, s')
    ensures TasksKept(s, s')
  {
  }

  lemma TicksKeepTasks(s: Sys, s': Sys)
    requires BeginTick(s, s') || StartSecond(s, s')
    ensures TasksKept(s, s')
  {
    hide TasksKept, BeginTick;
    if BeginTick(s, s') { BeginKeepsTasks(s, s'); } else { StartKeepsTasks(s, s'); }
  }

  lemma BeginKeepsTasks(s: Sys, s': Sys)
    requires BeginTick(s, s')
    ensures TasksKept(s, s')
  {
  }

  lemma StartKeepsTasks(s: Sys, s': Sys)
    requires StartSecond(s, s')
    ensures TasksKept(s, s')
  {
  }

  lemma MovesKeepRecords(s: Sys, s': Sys)
    requires
      || SweepSecond(s, s') || SweepThird(s, s')
      || (exists x :: ReadInsert(s, s', x)) || (exists i :: Append(s, s', i))
    ensures RecordsKept(s, s')
  {
    hide MoveSecond, MoveThird, Put, Place, Append, ReadInsert, RecordsKept;
    if i :| Append(s, s', i) {
      AppendKeepsRecords(s, s', i);
    } else if x :| ReadInsert(s, s', x) {
      ReadKeepsRecords(s, s', x);
    } else {
      SweepsKeepRecords(s, s');
    }
  }

  lemma AppendKeepsRecords(s: Sys, s': Sys, i: nat)
    requires Append(s, s', i)
    ensures RecordsKept(s, s')
  {
    hide Put, Place;
  }

  lemma ReadKeepsRecords(s: Sys, s': Sys, x: Task)
    requires ReadInsert(s, s', x)
    ensures RecordsKept(s, s')
  {
  }

  lemma SweepsKeepRecords(s: Sys, s': Sys)
    requires SweepSecond(s, s') || SweepThird(s, s')
    ensures RecordsKept(s, s')
  {
    hide MoveSecond, MoveThird;
  }

  lemma ReadKeepsAlive(s: Sys, s': Sys, x: Task)
    requires ReadInsert(s, s', x)
    ensures Alive(s') == Alive(s)
  {
    TasksAppend(s.inserting, Inserting(x, s.time));
  }

  lemma AppendKeepsAlive(s: Sys, s': Sys, i: nat)
    requires Append(s, s', i)
    ensures Alive(s') == Alive(s)
  {
    TasksSplit(s.inserting, i);
    var x := s.inserting[i].task;
    assert All(s'.lists) == All(s.lists) + multiset{x};
  }

  lemma SplitKeepsAlive(s: Sys, s': Sys)
    requires Split(s, s')
    ensures Alive(s') == Alive(s)
  {
    SplitConserves(s.lists.first, s.time);
  }

  lemma SweepKeepsAlive(s: Sys, s': Sys)
    requires SweepSecond(s, s') || SweepThird(s, s')
    ensures Alive(s') == Alive(s)
  {
    if SweepSecond(s, s') {
      MovesConserve(s.lists, s.sweep2.limit);
    } else {
      MovesConserve(s.lists, s.sweep3.limit);
    }
  }

  /** The tasks alive, those of them fired and not yet run, and the records kept about them. */
  datatype Book = Book(alive: multiset<Task>, launched: multiset<Task>, cur: map<nat, Task>,
                       orders: map<nat, Order>, calls: map<nat, nat>, fires: map<nat, seq<Fire>>)

  function BookOf(s: Sys): Book {
    Book(Alive(s), s.launched, s.cur, s.orders, s.calls, s.fires)
  }

  ghost predicate Known(b: Book, id: nat) {
    id in b.orders && id in b.calls && id in b.fires && b.calls[id] >= b.orders[id].early
  }

  /** Runs of the task executed so far. */
  function RunsOf(b: Book, id: nat): int
    requires Known(b, id)
  {
    b.calls[id] - b.orders[id].early
  }

  /** The task of an order that is not used up: it is alive in one place, it is due when its next
      run is, and it has as many runs left as calls are owed. */
  ghost predicate Accounted(b: Book, id: nat)
    requires id in b.cur
  {
    var x := b.cur[id];
    && x.id == id && Known(b, id) && b.alive[x] == 1
    && var o := b.orders[id];
       && x.interval == o.interval && x.next == o.due + RunsOf(b, id) * o.interval
       && (o.total == -1 ==> x.times == -1)
       && (o.total != -1 ==> x.times == o.total - b.calls[id] && x.times >= 1)
       && |b.fires[id]| == RunsOf(b, id) + b.launched[x]
  }

  /** Every firing was due at its place on the grid of its order, and not early; an order whose task
      is gone has had all its calls. */
  ghost predicate OrderOk(b: Book, id: nat) {
    && Known(b, id)
    && (forall k :: 0 <= k < |b.fires[id]| ==>
          b.fires[id][k].due == b.orders[id].due + k * b.orders[id].interval && b.fires[id][k].due <= b.fires[id][k].at)
    && (b.orders[id].total == -1 || b.orders[id].total >= 1)
    && (id !in b.cur ==> b.orders[id].total == b.calls[id])
  }

  ghost predicate Ledger(b: Book) {
    && (forall x {:trigger b.alive[x]} :: b.alive[x] > 0 ==> x.id in b.cur && b.cur[x.id] == x)
    && (forall id {:trigger Accounted(b, id)} {:trigger id in b.cur} :: id in b.cur ==> Accounted(b, id))
    && (forall id {:trigger OrderOk(b, id)} {:trigger id in b.orders} :: id in b.orders ==> OrderOk(b, id))
    && b.launched <= b.alive
  }

  lemma {:induction false} LogFiresAt(fires: map<nat, seq<Fire>>, due: seq<Task>, at: int, id: nat)
    requires forall i, j :: 0 <= i < j < |due| ==> due[i].id != due[j].id
    ensures LogFires(fires, due, at).Keys == fires.Keys
    ensures id in fires && (forall i :: 0 <= i < |due| ==> due[i].id != id) ==>
      LogFires(fires, due, at)[id] == fires[id]
    ensures forall i :: 0 <= i < |due| && due[i].id == id && id in fires ==>
      LogFires(fires, due, at)[id] == fires[id] + [Fire(due[i].next, at)]
  {
    if due != [] {
      LogFiresAt(fires, due[..|due| - 1], at, id);
    }
  }

  /** Tasks `due`, alive and not fired, are fired at time `at`. */
  ghost predicate Fires(b: Book, b': Book, due: seq<Task>, at: int) {
    && b.launched + multiset(due) <= b.alive
    && (forall x :: x in due ==> x.next <= at)
    && b' == b.(launched := b.launched + multiset(due), fires := LogFires(b.fires, due, at))
  }

  lemma Count(xs: seq<Task>, i: nat, j: nat)
    requires i < j < |xs| && xs[i] == xs[j]
    ensures multiset(xs)[xs[i]] >= 2
  {
    assert xs == xs[..i] + [xs[i]] + xs[i + 1..j] + [xs[j]] + xs[j + 1..];
  }

  lemma DistinctIds(b: Book, xs: seq<Task>)
    requires Ledger(b) && multiset(xs) <= b.alive
    ensures forall i, j :: 0 <= i < j < |xs| ==> xs[i].id != xs[j].id
  {
    forall i, j | 0 <= i < j < |xs| ensures xs[i].id != xs[j].id {
      assert xs[i] in multiset(xs) && xs[j] in multiset(xs);
      assert b.alive[xs[i]] > 0 && b.alive[xs[j]] > 0;
      assert Accounted(b, xs[i].id);
      if xs[i] == xs[j] { Count(xs, i, j); }
    }
  }

  lemma FiresLedger(b: Book, b': Book, due: seq<Task>, at: int)
    requires Ledger(b) && Fires(b, b', due, at)
    ensures Ledger(b')
  {
    DistinctIds(b, due);
    forall id | id in b.orders ensures OrderOk(b', id) && (id in b.cur ==> Accounted(b', id)) {
      FiresOrder(b, b', due, at, id);
    }
    forall id | id in b'.cur ensures Accounted(b', id) { assert Accounted(b, id); }
  }

  lemma FiresOrder(b: Book, b': Book, due: seq<Task>, at: int, id: nat)
    requires Ledger(b) && Fires(b, b', due, at) && id in b.orders
    requires forall i, j :: 0 <= i < j < |due| ==> due[i].id != due[j].id
    ensures OrderOk(b', id) && (id in b.cur ==> Accounted(b', id))
  {
    hide Accounted, LogFires;
    LogFiresAt(b.fires, due, at, id);
    assert OrderOk(b, id);
    if i :| 0 <= i < |due| && due[i].id == id {
      var x := due[i];
      assert x in multiset(due) && b.alive[x] > 0;
      assert Accounted(b, id);
      FiredOrder(b, b', due, at, x);
    } else {
      assert id in b.cur ==> Accounted(b, id);
      UnfiredOrder(b, b', due, at, id);
    }
  }

  lemma FiredOrder(b: Book, b': Book, due: seq<Task>, at: int, x: Task)
    requires Fires(b, b', due, at) && x in due && x.id in b.orders && OrderOk(b, x.id)
    requires x.id in b.cur && b.cur[x.id] == x && Accounted(b, x.id)
    requires x.id in b'.fires && b'.fires[x.id] == b.fires[x.id] + [Fire(x.next, at)]
    ensures OrderOk(b', x.id) && Accounted(b', x.id)
  {
    hide LogFires;
    assert x in multiset(due) && multiset(due)[x] == 1 && b.launched[x] == 0;
  }

  lemma UnfiredOrder(b: Book, b': Book, due: seq<Task>, at: int, id: nat)
    requires Fires(b, b', due, at) && id in b.orders && OrderOk(b, id) && (id in b.cur ==> Accounted(b, id))
    requires id in b'.fires && b'.fires[id] == b.fires[id] && forall i :: 0 <= i < |due| ==> due[i].id != id
    ensures OrderOk(b', id) && (id in b.cur ==> Accounted(b', id))
  {
    hide LogFires;
    assert id in b.cur ==> multiset(due)[b.cur[id]] == 0;
  }

  /** The task a run inserts again, if any. */
  function Again(x: Task): multiset<Task> {
    if AfterRun(x).Some? then multiset{AfterRun(x).value} else multiset{}
  }

  /** A fired task is run. */
  ghost predicate Runs(b: Book, b': Book, x: Task) {
    && b.launched[x] > 0 && x.id in b.calls
    && var again := AfterRun(x);
       b' == b.(launched := b.launched - multiset{x},
                alive := b.alive - multiset{x} + Again(x),
                cur := if again.Some? then b.cur[x.id := again.value] else b.cur - {x.id},
                calls := b.calls[x.id := b.calls[x.id] + CallsOfRun(x)])
  }

  lemma RunsLedger(b: Book, b': Book, x: Task)
    requires Ledger(b) && Runs(b, b', x)
    ensures Ledger(b')
  {
    hide Accounted, OrderOk, AfterRun, Again, Runs, Ledger;
    Fired(b, b', x);
    RunsTask(b, b', x);
    RunsAlive(b, b', x);
    forall id | id in b'.cur ensures Accounted(b', id) {
      if id != x.id { RunsOthers(b, b', x, id); }
    }
    forall id | id in b'.orders ensures OrderOk(b', id) {
      LedgerOrder(b, b', x, id);
      RunsOrder(b, b', x, id);
    }
    LedgerMade(b');
  }

  /** A fired task is the one alive task of its order. */
  lemma Fired(b: Book, b': Book, x: Task)
    requires Ledger(b) && Runs(b, b', x)
    ensures b.alive[x] > 0 && x.id in b.cur && b.cur[x.id] == x && Accounted(b, x.id)
    ensures x.id in b'.cur <==> AfterRun(x).Some?
    ensures forall id :: id in b'.cur && id != x.id ==> id in b.cur
  {
    hide Accounted, OrderOk;
  }

  lemma LedgerOrder(b: Book, b': Book, x: Task, id: nat)
    requires Ledger(b) && Runs(b, b', x) && id in b'.orders
    ensures id in b.orders && OrderOk(b, id)
  {
    hide Accounted, OrderOk;
  }

  lemma LedgerMade(b: Book)
    requires forall x {:trigger b.alive[x]} :: b.alive[x] > 0 ==> x.id in b.cur && b.cur[x.id] == x
    requires b.launched <= b.alive
    requires (forall id :: id in b.cur ==> Accounted(b, id)) && (forall id :: id in b.orders ==> OrderOk(b, id))
    ensures Ledger(b)
  {
    hide Accounted, OrderOk;
  }

  lemma RunsOrder(b: Book, b': Book, x: Task, id: nat)
    requires Runs(b, b', x) && OrderOk(b, id)
    requires id == x.id && AfterRun(x).None? ==>
      id in b'.calls && id in b'.orders && b'.calls[id] == b'.orders[id].total
    ensures OrderOk(b', id)
  {
  }

  lemma RunsAlive(b: Book, b': Book, x: Task)
    requires Ledger(b) && Runs(b, b', x) && x.id in b.cur && Accounted(b, x.id)
    ensures forall y {:trigger b'.alive[y]} :: b'.alive[y] > 0 ==> y.id in b'.cur && b'.cur[y.id] == y
    ensures b'.launched <= b'.alive
  {
    assert b.alive[x] == 1;
    hide Accounted, OrderOk;
    forall y ensures b'.alive[y] > 0 ==> y.id in b'.cur && b'.cur[y.id] == y {
      assert b.alive[y] > 0 ==> y.id in b.cur && b.cur[y.id] == y;
    }
    assert b.launched[x] <= b.alive[x];
  }

  lemma RunsOthers(b: Book, b': Book, x: Task, id: nat)
    requires Ledger(b) && Runs(b, b', x) && id != x.id && id in b.cur
    ensures id in b'.cur && Accounted(b', id)
  {
    assert Accounted(b, id);
    hide Ledger;
    OthersCounted(b, b', x, b.cur[id]);
    OtherRecords(b, b', x, id);
  }

  lemma OthersCounted(b: Book, b': Book, x: Task, y: Task)
    requires Runs(b, b', x) && y.id != x.id
    ensures b'.alive[y] == b.alive[y] && b'.launched[y] == b.launched[y]
  {
  }

  lemma OtherRecords(b: Book, b': Book, x: Task, id: nat)
    requires Runs(b, b', x) && id != x.id
    ensures id in b.cur ==> id in b'.cur && b'.cur[id] == b.cur[id]
    ensures id in b.calls ==> id in b'.calls && b'.calls[id] == b.calls[id]
    ensures b'.orders == b.orders && b'.fires == b.fires
  {
  }

  lemma RunsTask(b: Book, b': Book, x: Task)
    requires Ledger(b) && Runs(b, b', x) && b.alive[x] > 0 && x.id in b.cur && Accounted(b, x.id)
    ensures AfterRun(x).Some? ==> Accounted(b', x.id)
    ensures AfterRun(x).None? ==> x.id in b'.calls && x.id in b'.orders && b'.calls[x.id] == b'.orders[x.id].total
  {
    if AfterRun(x).Some? {
      var y := AfterRun(x).value;
      RunsOnce(b, b', x, y);
      OneLess(RunsOf(b, x.id) + 1, x.interval);
    }
  }

  lemma RunsOnce(b: Book, b': Book, x: Task, y: Task)
    requires Ledger(b) && Runs(b, b', x) && x.id in b.cur && b.cur[x.id] == x && Accounted(b, x.id)
    requires AfterRun(x) == Some(y)
    ensures b'.alive[y] == 1 && b'.launched[y] == 0
  {
    assert y != x ==> b.alive[y] == 0 && b.launched[y] <= b.alive[y];
  }

  /** A new order. */
  ghost predicate Makes(b: Book, b': Book, id: nat, o: Order) {
    && id !in b.orders && o.early <= 1 && (o.total == -1 || o.total >= 1)
    && var x := FirstTask(id, o);
       b' == b.(orders := b.orders[id := o], calls := b.calls[id := o.early], fires := b.fires[id := []],
                cur := if x.Some? then b.cur[id := x.value] else b.cur,
                alive := if x.Some? then b.alive + multiset{x.value} else b.alive)
  }

  lemma MakesLedger(b: Book, b': Book, id: nat, o: Order)
    requires Ledger(b) && Makes(b, b', id, o)
    ensures Ledger(b')
  {
    hide Accounted, OrderOk;
    MakesFresh(b, id);
    MakesTask(b, b', id, o);
    forall x | x in b'.cur ensures Accounted(b', x) {
      if x != id { MakesOthers(b, b', id, o, x); }
    }
    forall x | x in b'.orders ensures OrderOk(b', x) {
      if x != id { MakesOrders(b, b', id, o, x); }
    }
  }

  lemma MakesTask(b: Book, b': Book, id: nat, o: Order)
    requires Makes(b, b', id, o)
    requires id !in b.cur && forall y: Task :: y.id == id ==> b.alive[y] == 0 && b.launched[y] == 0
    ensures OrderOk(b', id) && (id in b'.cur ==> Accounted(b', id))
  {
  }

  lemma MakesOrders(b: Book, b': Book, id: nat, o: Order, x: nat)
    requires Makes(b, b', id, o) && x != id && x in b.orders && OrderOk(b, x)
    ensures OrderOk(b', x)
  {
  }

  lemma MakesFresh(b: Book, id: nat)
    requires Ledger(b) && id !in b.orders
    ensures id !in b.cur && forall y: Task :: y.id == id ==> b.alive[y] == 0 && b.launched[y] == 0
  {
    assert id in b.cur ==> Known(b, id);
    forall y: Task | y.id == id ensures b.alive[y] == 0 && b.launched[y] == 0 { assert b.launched[y] <= b.alive[y]; }
  }

  lemma MakesOthers(b: Book, b': Book, id: nat, o: Order, x: nat)
    requires Ledger(b) && Makes(b, b', id, o) && x != id && x in b.cur
    ensures x in b'.cur && Accounted(b', x)
  {
    assert Accounted(b, x);
    var y := b.cur[x];
    assert b'.alive[y] == b.alive[y];
  }

  lemma SplitInBook(s: Sys, s': Sys)
    requires Split(s, s')
    ensures Fires(BookOf(s), BookOf(s'), Due(s.lists.first, s.time), s.time)
  {
    SplitConserves(s.lists.first, s.time);
    SplitKeepsAlive(s, s');
  }

  lemma Replaced(a: multiset<Task>, l: multiset<Task>, w: multiset<Task>, t: multiset<Task>, x: Task,
                 added: multiset<Task>)
    requires x in l
    ensures a + (l - multiset{x}) + (w + added) + t == a + l + w + t - multiset{x} + added
  {
  }

  lemma RunAlive(s: Sys, s': Sys, x: Task)
    requires RunTask(s, s', x)
    ensures Alive(s') == Alive(s) - multiset{x} + Again(x)
  {
    Replaced(All(s.lists), s.launched, s.waiting, Tasks(s.inserting), x, Again(x));
    assert s'.waiting == s.waiting + Again(x);
  }

  lemma RunInBook(s: Sys, s': Sys, x: Task)
    requires RunTask(s, s', x) && Ledger(BookOf(s))
    ensures Runs(BookOf(s), BookOf(s'), x)
  {
    hide Alive, Ledger, AfterRun, Again;
    RunKnown(s, x);
    RunAlive(s, s', x);
  }

  lemma RunKnown(s: Sys, x: Task)
    requires Ledger(BookOf(s)) && x in s.launched
    ensures x.id in s.calls
  {
    var b := BookOf(s);
    assert b.launched[x] > 0;
    assert b.alive[x] > 0 && Accounted(b, x.id);
  }

  lemma CreateInBook(s: Sys, s': Sys, id: nat, o: Order)
    requires Create(s, s', id, o)
    ensures Makes(BookOf(s), BookOf(s'), id, o)
  {
  }

  lemma StepLedger(s: Sys, s': Sys)
    requires Ledger(BookOf(s)) && Next(s, s')
    ensures Ledger(BookOf(s'))
  {
    hide Ledger, Alive, Fires, Runs, Makes, Phase, SweepSecond, SweepThird, Append, Split;
    hide RunTask, ReadInsert, Create, BookOf;
    if x :| RunTask(s, s', x) {
      RunInBook(s, s', x);
      RunsLedger(BookOf(s), BookOf(s'), x);
    } else if id, o :| Create(s, s', id, o) {
      CreateInBook(s, s', id, o);
      MakesLedger(BookOf(s), BookOf(s'), id, o);
    } else if Split(s, s') {
      SplitInBook(s, s');
      FiresLedger(BookOf(s), BookOf(s'), Due(s.lists.first, s.time), s.time);
    } else {
      MovesKeepBook(s, s');
    }
  }

  lemma MovesKeepBook(s: Sys, s': Sys)
    requires Phase(s, s') || SweepSecond(s, s') || SweepThird(s, s')
      || (exists x :: ReadInsert(s, s', x)) || (exists i :: Append(s, s', i))
    ensures BookOf(s') == BookOf(s)
  {
    hide Alive, Pass, BeginTick, StartSecond, ReadSecond, ReadThird, SweepSecond, SweepThird, ReadInsert, Append;
    MovesKeepAlive(s, s');
    if Pass(s, s') || ReadSecond(s, s') || ReadThird(s, s') {
      ReadsKeepTasks(s, s');
    } else if BeginTick(s, s') || StartSecond(s, s') {
      TicksKeepTasks(s, s');
    } else {
      MovesKeepRecords(s, s');
    }
  }

  lemma {:induction false} RunLedger(run: seq<Sys>, i: nat)
    requires IsRun(run) && i < |run|
    ensures Ledger(BookOf(run[i]))
  {
    if i > 0 {
      RunLedger(run, i - 1);
      StepLedger(run[i - 1], run[i]);
    } else {
      assert Alive(run[0]) == multiset{};
    }
  }

  /** A task asked for with N calls is called exactly N times, the call made at once included: while
      calls are owed the task is alive in exactly one place and carries what is owed; when none is
      owed it is gone.  A task asked for without end is never dropped. */
  lemma CallsExactly(run: seq<Sys>, i: nat, id: nat)
    requires IsRun(run) && i < |run| && id in run[i].orders
    ensures var s := run[i]; var o := s.orders[id];
      && id in s.calls
      && (o.total == -1 ==> exists x: Task :: x.id == id && x.times == -1 && Alive(s)[x] == 1)
      && (o.total != -1 ==> s.calls[id] <= o.total)
      && (o.total != -1 && s.calls[id] < o.total ==>
            exists x: Task :: x.id == id && x.times == o.total - s.calls[id] && Alive(s)[x] == 1)
      && (o.total != -1 && s.calls[id] == o.total ==> forall x: Task :: x.id == id ==> Alive(s)[x] == 0)
  {
    RunLedger(run, i);
    var s := run[i];
    var b := BookOf(s);
    assert OrderOk(b, id);
    if id in b.cur {
      assert Accounted(b, id);
    } else {
      forall x: Task | x.id == id ensures b.alive[x] == 0 { }
    }
  }

  /** The k-th firing of a task is due exactly k intervals after its first due time, and happens no
      earlier. */
  lemma KthFiring(run: seq<Sys>, i: nat, id: nat, k: nat)
    requires IsRun(run) && i < |run| && id in run[i].fires && id in run[i].orders && k < |run[i].fires[id]|
    ensures var o := run[i].orders[id]; var f := run[i].fires[id][k];
      f.due == o.due + k * o.interval && f.due <= f.at
  {
    RunLedger(run, i);
    assert OrderOk(BookOf(run[i]), id);
  }
}
