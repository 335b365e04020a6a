/**
 The three containers of util/timer: what a tick, a sweep, an insertion and a run do to them.
 Times are in nanoseconds, as in the source.
 */
module Timer {
  import opened Options

  const BASIC: int := 100_000_000 // basicNumber: 100ms

  /** A `TimerFunc`; `id` stands for its function and message. */
  datatype Task = Task(id: nat, next: int, interval: int, times: int)

  // ------------------------------------------------------------------------------------
  // TimeSplit
  // ------------------------------------------------------------------------------------

  /** The rows due at `timestamp`, in order. */
  function Due(rows: seq<Task>, timestamp: int): seq<Task> {
    if rows == [] then []
    else Due(rows[..|rows| - 1], timestamp) + if rows[|rows| - 1].next <= timestamp then [rows[|rows| - 1]] else []
  }

  /** The rows not yet due at `timestamp`, in order. */
  function Later(rows: seq<Task>, timestamp: int): seq<Task> {
    if rows == [] then []
    else Later(rows[..|rows| - 1], timestamp) + if rows[|rows| - 1].next <= timestamp then [] else [rows[|rows| - 1]]
  }

  method TimeSplit(rows: seq<Task>, timestamp: int) returns (mins: seq<Task>, maxs: seq<Task>)
    ensures mins == Due(rows, timestamp) && maxs == Later(rows, timestamp)
  {
    mins, maxs := [], [];
    for i := 0 to |rows|
      invariant mins == Due(rows[..i], timestamp) && maxs == Later(rows[..i], timestamp)
    {
      assert rows[..i + 1][..i] == rows[..i];
      if rows[i].next <= timestamp {
        mins := mins + [rows[i]];
      } else {
        maxs := maxs + [rows[i]];
      }
    }
    assert rows[..|rows|] == rows;
  }

  /** TimeSplit loses and invents nothing, and splits exactly at `timestamp`. */
  lemma SplitConserves(rows: seq<Task>, timestamp: int)
    ensures multiset(Due(rows, timestamp)) + multiset(Later(rows, timestamp)) == multiset(rows)
    ensures forall x :: x in Due(rows, timestamp) <==> x in rows && x.next <= timestamp
    ensures forall x :: x in Later(rows, timestamp) <==> x in rows && x.next > timestamp
  {
    SplitCounts(rows, timestamp);
    SplitMembers(rows, timestamp);
  }

  lemma {:induction false} SplitCounts(rows: seq<Task>, timestamp: int)
    ensures multiset(Due(rows, timestamp)) + multiset(Later(rows, timestamp)) == multiset(rows)
  {
    if rows != [] {
      var front, x := rows[..|rows| - 1], rows[|rows| - 1];
      SplitCounts(front, timestamp);
      SplitLast(rows, timestamp);
      hide Due, Later;
      if x.next <= timestamp {
        JoinDue(Due(front, timestamp), Later(front, timestamp), front, x);
      } else {
        JoinLater(Due(front, timestamp), Later(front, timestamp), front, x);
      }
    }
  }

  lemma SplitLast(rows: seq<Task>, timestamp: int)
    requires rows != []
    ensures var front, x := rows[..|rows| - 1], rows[|rows| - 1];
      && rows == front + [x]
      && (x.next <= timestamp ==>
            Due(rows, timestamp) == Due(front, timestamp) + [x] && Later(rows, timestamp) == Later(front, timestamp))
      && (x.next > timestamp ==>
            Due(rows, timestamp) == Due(front, timestamp) && Later(rows, timestamp) == Later(front, timestamp) + [x])
  {
  }

  lemma JoinDue(due: seq<Task>, later: seq<Task>, front: seq<Task>, x: Task)
    requires multiset(due) + multiset(later) == multiset(front)
    ensures multiset(due + [x]) + multiset(later) == multiset(front + [x])
  {
    Snoc(due, x);
    Snoc(front, x);
    OneMore(multiset(due), multiset(later), x);
  }

  lemma JoinLater(due: seq<Task>, later: seq<Task>, front: seq<Task>, x: Task)
    requires multiset(due) + multiset(later) == multiset(front)
    ensures multiset(due) + multiset(later + [x]) == multiset(front + [x])
  {
    Snoc(later, x);
    Snoc(front, x);
    OneMore(multiset(due), multiset(later), x);
  }

  lemma Snoc(xs: seq<Task>, x: Task)
    ensures multiset(xs + [x]) == multiset(xs) + multiset{x}
  {
  }

  lemma OneMore(a: multiset<Task>, b: multiset<Task>, x: Task)
    ensures a + multiset{x} + b == a + b + multiset{x} && a + (b + multiset{x}) == a + b + multiset{x}
  {
  }

  lemma {:induction false} SplitMembers(rows: seq<Task>, timestamp: int)
    ensures forall x :: x in Due(rows, timestamp) <==> x in rows && x.next <= timestamp
    ensures forall x :: x in Later(rows, timestamp) <==> x in rows && x.next > timestamp
  {
    if rows != [] {
      var front, x := rows[..|rows| - 1], rows[|rows| - 1];
      SplitMembers(front, timestamp);
      assert rows == front + [x];
    }
  }

  /** Positions in `rows`, in order, of the rows of `part`. */
  ghost predicate InOrder(rows: seq<Task>, part: seq<Task>, at: seq<nat>) {
    && |at| == |part| && (forall k :: 0 <= k < |at| ==> at[k] < |rows| && part[k] == rows[at[k]])
    && (forall j, k :: 0 <= j < k < |at| ==> at[j] < at[k])
  }

  /** Both sides of the split keep the order of the rows. */
  lemma {:induction false} SplitInOrder(rows: seq<Task>, timestamp: int) returns (due: seq<nat>, later: seq<nat>)
    ensures InOrder(rows, Due(rows, timestamp), due) && InOrder(rows, Later(rows, timestamp), later)
    ensures |due| + |later| == |rows|
  {
    hide InOrder;
    if rows == [] {
      due, later := [], [];
      NoneInOrder();
    } else {
      var n := |rows| - 1;
      due, later := SplitInOrder(rows[..n], timestamp);
      SplitLast(rows, timestamp);
      MoreInOrder(rows, Due(rows[..n], timestamp), due);
      MoreInOrder(rows, Later(rows[..n], timestamp), later);
      if rows[n].next <= timestamp { due := due + [n]; } else { later := later + [n]; }
    }
  }

  lemma NoneInOrder()
    ensures InOrder([], [], [])
  {
  }

  lemma MoreInOrder(rows: seq<Task>, part: seq<Task>, at: seq<nat>)
    requires rows != [] && InOrder(rows[..|rows| - 1], part, at)
    ensures InOrder(rows, part, at) && InOrder(rows, part + [rows[|rows| - 1]], at + [|rows| - 1])
  {
  }

  // ------------------------------------------------------------------------------------
  // Containers
  // ------------------------------------------------------------------------------------

  /** The caches of `first`, `second` and `third`. */
  datatype Lists = Lists(first: seq<Task>, second: seq<Task>, third: seq<Task>)

  function All(l: Lists): multiset<Task> {
    multiset(l.first) + multiset(l.second) + multiset(l.third)
  }

  datatype Where = First | Second | Third

  /** The container `putInto` chooses for a task at time `now`, with tick length `t`. */
  function Place(x: Task, now: int, t: int): Where {
    if x.next <= now + 5 * t then First
    else if x.next > now + 25 * t then Third
    else Second
  }

  function Put(l: Lists, w: Where, x: Task): Lists {
    match w
    case First => l.(first := l.first + [x])
    case Second => l.(second := l.second + [x])
    case Third => l.(third := l.third + [x])
  }

  function MoveSecond(l: Lists, limit: int): Lists {
    l.(first := l.first + Due(l.second, limit), second := Later(l.second, limit))
  }

  function MoveThird(l: Lists, limit: int): Lists {
    l.(second := l.second + Due(l.third, limit), third := Later(l.third, limit))
  }

  /** `times` and `next` after one run, if the task is to be inserted again. */
  function AfterRun(x: Task): Option<Task> {
    if x.times == 0 || x.times == 1 then None
    else if x.times == -1 then Some(x.(next := x.next + x.interval))
    else Some(x.(times := x.times - 1, next := x.next + x.interval))
  }

  /** Number of calls of the function made by one run. */
  function CallsOfRun(x: Task): nat {
    if x.times == 0 then 0 else 1
  }

  /** The windows of the containers: up to 5t ahead, from there to 25t, and beyond. */
  lemma Windows(x: Task, now: int, t: int)
    requires t >= 0
    ensures Place(x, now, t) == First <==> x.next - now <= 5 * t
    ensures Place(x, now, t) == Second <==> 5 * t < x.next - now <= 25 * t
    ensures Place(x, now, t) == Third <==> 25 * t < x.next - now
    ensures forall l, w :: All(Put(l, w, x)) == All(l) + multiset{x}
  {
    forall l, w ensures All(Put(l, w, x)) == All(l) + multiset{x} {
      Snoc(l.first, x);
      Snoc(l.second, x);
      Snoc(l.third, x);
    }
  }

  /** Sweeps conserve tasks, and leave behind exactly what is due after their limit. */
  lemma MovesConserve(l: Lists, limit: int)
    ensures All(MoveSecond(l, limit)) == All(l) && All(MoveThird(l, limit)) == All(l)
    ensures var m := MoveSecond(l, limit);
      m.third == l.third && (forall x :: x in m.second <==> x in l.second && x.next > limit)
      && forall x :: x in m.first <==> x in l.first || (x in l.second && x.next <= limit)
    ensures var m := MoveThird(l, limit);
      m.first == l.first && (forall x :: x in m.third <==> x in l.third && x.next > limit)
      && forall x :: x in m.second <==> x in l.second || (x in l.third && x.next <= limit)
  {
    SplitConserves(l.second, limit);
    SplitConserves(l.third, limit);
  }

  class TimerFunc {
    var next: int
    const interval: int
    var times: int
    const id: nat

    constructor (id: nat, next: int, interval: int, times: int)
      ensures Value() == Task(id, next, interval, times)
    {
      this.id, this.next, this.interval, this.times := id, next, interval, times;
    }

    function Value(): Task
      reads this
    {
      Task(id, next, interval, times)
    }

    /** `run`: how often the function is called, and whether the task is inserted again. */
    method Run() returns (calls: nat, again: bool)
      modifies this
      ensures calls == CallsOfRun(old(Value()))
      ensures again == AfterRun(old(Value())).Some?
      ensures again ==> Value() == AfterRun(old(Value())).value
      ensures !again ==> Value() == old(Value())
      ensures calls == (if old(times) == 0 then 0 else 1) && (again <==> old(times) != 0 && old(times) != 1)
      ensures again ==> next == old(next) + interval && times == if old(times) == -1 then -1 else old(times) - 1
    {
      if times == 0 {
        return 0, false;
      } else if times == 1 {
        return 1, false;
      } else if times == -1 {
        next := next + interval;
      } else {
        times := times - 1;
        next := next + interval;
      }
      return 1, true;
    }
  }

  /** The package's global containers and counters. */
  class Wheel {
    var first: seq<Task>
    var second: seq<Task>
    var third: seq<Task>
    var count2: nat
    var count3: nat
    const level: int

    constructor (interval: int)
      ensures Contents() == Lists([], [], []) && count2 == 0 && count3 == 0
      ensures level == if interval > 0 then interval else 5
    {
      first, second, third, count2, count3 := [], [], [], 0, 0;
      level := if interval > 0 then interval else 5;
    }

    function Contents(): Lists
      reads this
    {
      Lists(first, second, third)
    }

    /** The start of a tick: every fourth one launches a sweep of `second`. */
    method CountTick() returns (launch: bool)
      modifies `count2
      ensures launch == (old(count2) + 1 >= 4)
      ensures count2 == if launch then 0 else old(count2) + 1
    {
      count2 := count2 + 1;
      launch := count2 >= 4;
      if launch { count2 := 0; }
    }

    /** The rest of a tick: what is due leaves `first` and is run. */
    method SplitFirst(now: int) returns (fired: seq<Task>)
      modifies `first
      ensures fired == Due(old(first), now) && first == Later(old(first), now)
    {
      var mins, maxs := TimeSplit(first, now);
      first := maxs;
      fired := mins;
    }

    /** The start of a sweep of `second`: every fifth one launches a sweep of `third`. */
    method CountSweep() returns (launch: bool)
      modifies `count3
      ensures launch == (old(count3) + 1 >= 5)
      ensures count3 == if launch then 0 else old(count3) + 1
    {
      count3 := count3 + 1;
      launch := count3 >= 5;
      if launch { count3 := 0; }
    }

    method CheckSecondCache(now: int)
      modifies `first, `second
      ensures Contents() == MoveSecond(old(Contents()), now + 500_000_000 * level)
    {
      var limit := now + (5 * BASIC) * level;
      var mins, maxs := TimeSplit(second, limit);
      first := first + mins;
      second := maxs;
    }

    method CheckThirdCache(now: int)
      modifies `second, `third
      ensures Contents() == MoveThird(old(Contents()), now + 2_500_000_000 * level)
    {
      var limit := now + (25 * BASIC) * level;
      var mins, maxs := TimeSplit(third, limit);
      second := second + mins;
      third := maxs;
    }

    method PutInto(x: Task, now: int)
      modifies `first, `second, `third
      ensures Contents() == Put(old(Contents()), Place(x, now, BASIC * level), x)
      ensures first == if x.next - now <= 500_000_000 * level then old(first) + [x] else old(first)
      ensures third == if x.next - now > 500_000_000 * level && x.next - now > 2_500_000_000 * level
                       then old(third) + [x] else old(third)
      ensures second == if 500_000_000 * level < x.next - now <= 2_500_000_000 * level
                        then old(second) + [x] else old(second)
    {
      if x.next <= now + (5 * BASIC) * level {
        first := first + [x];
      } else if x.next > now + (25 * BASIC) * level {
        third := third + [x];
      } else {
        second := second + [x];
      }
    }
  }

  // ------------------------------------------------------------------------------------
  // Creating a task
  // ------------------------------------------------------------------------------------

  /** The advance loop of `checkTime`: the first value after `now` on the grid of `next` and `step`. */
  method Advance(next: int, now: int, step: int) returns (r: int, ghost k: nat)
    requires step > 0
    ensures r == next + k * step && now < r
    ensures k > 0 ==> r - step <= now
  {
    r, k := next, 0;
    while r <= now
      invariant r == next + k * step
      invariant k > 0 ==> r - step <= now
      decreases now - r
    {
      r, k := r + step, k + 1;
    }
  }

  datatype Created = Created(calls: nat, task: Option<Task>)

  /** What NewTimer makes of `times` and `run`: how often it calls the function at once, and the
      task it inserts; nothing at all for `times` 0, which is an error. */
  method NewTimer(id: nat, next: int, interval: int, times: int, run: bool) returns (c: Option<Created>)
    ensures c.None? <==> times == 0
    ensures c.Some? ==> c.value.calls == if run then 1 else 0
    ensures c.Some? && times > 0 ==>
      times == c.value.calls + if c.value.task.Some? then c.value.task.value.times else 0
    ensures c.Some? && times < 0 ==> c.value.task.Some? && c.value.task.value.times == -1
    ensures c.Some? && c.value.task.Some? ==>
      c.value.task.value == Task(id, next, interval, c.value.task.value.times) && c.value.task.value.times != 0
  {
    var n := times;
    if n < 0 {
      n := -1;
    } else if n == 0 {
      return None;
    }
    var calls := 0;
    if run {
      if n == 1 {
        return Some(Created(1, None));
      } else if n == -1 {
        calls := 1;
      } else {
        n := n - 1;
        calls := 1;
      }
    }
    return Some(Created(calls, Some(Task(id, next, interval, n))));
  }

  /** NewRunDuration: first due one `duration` from now, then every `duration`. */
  method NewRunDuration(id: nat, now: int, duration: int, times: int) returns (task: Option<Task>)
    ensures task.None? <==> times == 0
    ensures times > 0 ==> task == Some(Task(id, now + duration, duration, times))
    ensures times < 0 ==> task == Some(Task(id, now + duration, duration, -1))
  {
    if times == 0 {
      return None;
    }
    return Some(Task(id, now + duration, duration, if times < 0 then -1 else times));
  }
}
