/**
 What the callback of Range answered.  The answers are kept beside the run, as history: one for each
 visit of a live key, in the order of the calls.
 */
module ConcurrentMapRange {
  import opened Options
  import opened ConcurrentMap
  import opened ConcurrentMapLinearizable

  /** The answers given to each operation so far. */
  type Answers = map<OpId, seq<bool>>

  function Heard(a: Answers, id: OpId): seq<bool> {
    if id in a then a[id] else []
  }

  /** Operation `id` visits the entry of `k` and, if it holds a value, is told `more`. */
  ghost predicate Visit(s: State, s': State, a: Answers, a': Answers, id: OpId, k: Key, more: bool)
    requires id in s.running && id in s'.running && s.running[id].pc.Walk?
  {
    var pc := s.running[id].pc;
    && k in pc.todo && s'.running[id].pc == AfterVisit(s.sh, pc.snap, pc.todo, pc.seen, k, more)
    && a' == if k in pc.snap && s.sh.P(pc.snap[k]).Val? then a[id := Heard(a, id) + [more]] else a
  }

  /** A step of the map together with what it adds to the answers. */
  ghost predicate NextHeard(s: State, s': State, a: Answers, a': Answers) {
    || ((exists op :: Invoke(s, s', op)) && a' == a)
    || ((exists id :: Respond(s, s', id)) && a' == a)
    || (exists id :: Hears(s, s', a, a', id))
  }

  ghost predicate Hears(s: State, s': State, a: Answers, a': Answers, id: OpId) {
    StepBy(s, s', id) && StepHeard(s, s', a, a', id)
  }

  ghost predicate StepHeard(s: State, s': State, a: Answers, a': Answers, id: OpId)
    requires id in s.running && id in s'.running
  {
    if s.running[id].pc.Walk? && s.running[id].pc.todo != {}
    then exists k, more :: Visit(s, s', a, a', id, k, more)
    else a' == a
  }

  ghost predicate IsHeardRun(run: seq<State>, a: seq<Answers>) {
    && |run| > 0 && |a| == |run| && Init(run[0]) && a[0] == map[]
    && forall i :: 0 <= i < |run| - 1 ==> NextHeard(run[i], run[i + 1], a[i], a[i + 1])
  }

  // ------------------------------------------------------------------------------------
  // Every run can be heard
  // ------------------------------------------------------------------------------------

  lemma HearStep(s: State, s': State, a: Answers) returns (a': Answers)
    requires NextState(s, s')
    ensures NextHeard(s, s', a, a')
  {
    a' := a;
    if id :| StepBy(s, s', id) && s.running[id].pc.Walk? && s.running[id].pc.todo != {} {
      var pc := s.running[id].pc;
      var k, more :| k in pc.todo && s'.running[id].pc == AfterVisit(s.sh, pc.snap, pc.todo, pc.seen, k, more);
      a' := if k in pc.snap && s.sh.P(pc.snap[k]).Val? then a[id := Heard(a, id) + [more]] else a;
      assert Visit(s, s', a, a', id, k, more);
      assert Hears(s, s', a, a', id);
    } else if id :| StepBy(s, s', id) {
      assert Hears(s, s', a, a', id);
    }
  }

  lemma {:induction false} CanBeHeard(run: seq<State>) returns (a: seq<Answers>)
    requires IsRun(run)
    ensures IsHeardRun(run, a)
  {
    hide NextHeard, NextState;
    if |run| == 1 {
      a := [map[]];
    } else {
      var n := |run| - 1;
      var front := run[..n];
      forall i | 0 <= i < n - 1 ensures NextState(front[i], front[i + 1]) {
        assert NextState(run[i], run[i + 1]);
      }
      a := CanBeHeard(front);
      var last := HearStep(run[n - 1], run[n], a[n - 1]);
      var more := a + [last];
      forall i | 0 <= i < n ensures NextHeard(run[i], run[i + 1], more[i], more[i + 1]) {
        if i < n - 1 { assert NextHeard(front[i], front[i + 1], a[i], a[i + 1]); }
      }
      a := more;
    }
  }

  lemma {:induction false} HeardIsRun(run: seq<State>, a: seq<Answers>)
    requires IsHeardRun(run, a)
    ensures IsRun(run)
  {
    hide Invoke, StepBy, Respond;
    forall i | 0 <= i < |run| - 1 ensures NextState(run[i], run[i + 1]) {
      assert NextHeard(run[i], run[i + 1], a[i], a[i + 1]);
    }
  }

  // ------------------------------------------------------------------------------------
  // The answers and the course of Range
  // ------------------------------------------------------------------------------------

  ghost predicate AllTrue(h: seq<bool>) {
    forall i :: 0 <= i < |h| ==> h[i]
  }

  /** Told to stop, by the last answer and none before. */
  ghost predicate Stopped(h: seq<bool>) {
    h != [] && !h[|h| - 1] && AllTrue(h[..|h| - 1])
  }

  /** What a Range that heard `h` reports: one key for each answer, and complete unless stopped. */
  ghost predicate Reports(r: Result, h: seq<bool>) {
    r.Visited? && |r.seen| == |h| && if r.complete then AllTrue(h) else Stopped(h)
  }

  /** A Range at `pc` that heard `h`. */
  ghost predicate Course(pc: Pc, h: seq<bool>) {
    match pc
    case Begin => h == []
    case WantLock => h == []
    case Locked => h == []
    case PromoteStore(next) => next.Scan? && h == []
    case PromoteClear(next) => next.Scan? && h == []
    case Unlock(next) => next.Scan? && h == []
    case Walk(_, todo, seen) => seen.Keys !! todo && |seen| == |h| && AllTrue(h)
    case Return(out) => Reports(out.result, h)
    case Broken => true
    case _ => false
  }

  ghost predicate Told(s: State, a: Answers) {
    && (forall id :: id in s.running ==> id < s.nextId)
    && (forall id :: id in s.running && s.running[id].op.Range? ==> Course(s.running[id].pc, Heard(a, id)))
    && (forall n :: 0 <= n < |s.done| ==> s.done[n].id < s.nextId && s.done[n].id !in s.running)
    && (forall n :: 0 <= n < |s.done| && s.done[n].op.Range? ==> Reports(s.done[n].result, Heard(a, s.done[n].id)))
    && (forall id :: id in a ==> id < s.nextId)
  }

  lemma InvokeTold(s: State, s': State, a: Answers, op: Op)
    requires Told(s, a) && Invoke(s, s', op)
    ensures Told(s', a)
  {
  }

  lemma RespondTold(s: State, s': State, a: Answers, id: OpId)
    requires Told(s, a) && Respond(s, s', id)
    ensures Told(s', a)
  {
  }

  lemma Counted(seen: Model, k: Key, v: Value)
    requires k !in seen
    ensures |seen[k := v]| == |seen| + 1
  {
    assert seen[k := v].Keys == seen.Keys + {k};
    assert |seen[k := v].Keys| == |seen[k := v]| && |seen.Keys| == |seen|;
  }

  /** One visit. */
  lemma VisitCourse(sh: Shared, pc: Pc, h: seq<bool>, k: Key, more: bool)
    requires pc.Walk? && k in pc.todo && Course(pc, h)
    ensures var h' := if k in pc.snap && sh.P(pc.snap[k]).Val? then h + [more] else h;
      Course(AfterVisit(sh, pc.snap, pc.todo, pc.seen, k, more), h')
  {
    if k in pc.snap && sh.P(pc.snap[k]).Val? {
      Counted(pc.seen, k, sh.P(pc.snap[k]).v);
      assert (h + [more])[..|h|] == h;
    }
  }

  /** The steps of a Range other than its visits. */
  lemma PlainCourse(sh: Shared, id: OpId, r: Running, sh': Shared, pc': Pc, h: seq<bool>)
    requires r.op.Range? && Course(r.pc, h) && Step(sh, id, r, sh', pc') && !(r.pc.Walk? && r.pc.todo != {})
    ensures Course(pc', h)
  {
  }

  lemma StepTold(s: State, s': State, a: Answers, a': Answers, id: OpId)
    requires Told(s, a) && Hears(s, s', a, a', id)
    ensures Told(s', a')
  {
    hide Step, Course, Reports, AfterVisit;
    StepAnswers(s, s', a, a', id);
    if s.running[id].op.Range? { StepCourse(s, s', a, a', id); }
  }

  /** Only the operation that takes the step hears anything. */
  lemma StepAnswers(s: State, s': State, a: Answers, a': Answers, id: OpId)
    requires StepBy(s, s', id) && StepHeard(s, s', a, a', id)
    ensures forall x :: x != id ==> Heard(a', x) == Heard(a, x)
    ensures forall x :: x in a' ==> x in a || x == id
  {
    hide Step, AfterVisit;
  }

  lemma StepCourse(s: State, s': State, a: Answers, a': Answers, id: OpId)
    requires Told(s, a) && StepBy(s, s', id) && StepHeard(s, s', a, a', id) && s.running[id].op.Range?
    ensures Course(s'.running[id].pc, Heard(a', id))
  {
    hide Course;
    var r := s.running[id];
    if r.pc.Walk? && r.pc.todo != {} {
      var k, more :| Visit(s, s', a, a', id, k, more);
      VisitCourse(s.sh, r.pc, Heard(a, id), k, more);
    } else {
      PlainCourse(s.sh, id, r, s'.sh, s'.running[id].pc, Heard(a, id));
    }
  }

  lemma {:induction false} RunTold(run: seq<State>, a: seq<Answers>, i: nat)
    requires IsHeardRun(run, a) && i < |run|
    ensures Told(run[i], a[i])
  {
    hide Told, Invoke, Respond, Hears;
    if i == 0 {
      NothingTold(run[0]);
    } else {
      RunTold(run, a, i - 1);
      var s, s', b, b' := run[i - 1], run[i], a[i - 1], a[i];
      assert NextHeard(s, s', b, b');
      if op :| Invoke(s, s', op) && b' == b {
        InvokeTold(s, s', b, op);
      } else if id :| Respond(s, s', id) && b' == b {
        RespondTold(s, s', b, id);
      } else {
        var id :| Hears(s, s', b, b', id);
        StepTold(s, s', b, b', id);
      }
    }
  }

  lemma NothingTold(s: State)
    requires Init(s)
    ensures Told(s, map[])
  {
  }

  /** A Range that has returned called its callback once for each key it reports, and it is incomplete
      exactly if the last answer was to stop and no earlier one was. */
  lemma RangeStopsExactly(run: seq<State>, a: seq<Answers>, i: nat, n: nat)
    requires IsHeardRun(run, a) && i < |run| && n < |run[i].done| && run[i].done[n].op.Range?
    ensures var r := run[i].done[n].result; var h := Heard(a[i], run[i].done[n].id);
      && r.Visited? && |r.seen| == |h|
      && (!r.complete <==> h != [] && !h[|h| - 1] && forall j :: 0 <= j < |h| - 1 ==> h[j])
      && (r.complete <==> forall j :: 0 <= j < |h| ==> h[j])
  {
    RunTold(run, a, i);
    var h := Heard(a[i], run[i].done[n].id);
    assert Reports(run[i].done[n].result, h);
    assert h != [] ==> forall j :: 0 <= j < |h| - 1 ==> h[j] == h[..|h| - 1][j];
  }

  /** So a Range that was never told to stop reports, for every key, what the map held for it at some
      moment between the call and the return. */
  lemma RangeIsWhole(run: seq<State>, a: seq<Answers>, i: nat, n: nat, k: Key)
    requires IsHeardRun(run, a) && i < |run| && n < |run[i].done| && run[i].done[n].op.Range?
    requires forall j :: 0 <= j < |Heard(a[i], run[i].done[n].id)| ==> Heard(a[i], run[i].done[n].id)[j]
    ensures var c := run[i].done[n];
      && c.result.Visited?
      && exists t :: c.inv <= t <= c.res < |run[i].sh.hist| && Lookup(run[i].sh.hist[t], k) == Lookup(c.result.seen, k)
  {
    hide IsHeardRun, IsRun;
    RangeStopsExactly(run, a, i, n);
    HeardIsRun(run, a);
    RangeIsWitnessed(run, i, n, k);
  }
}
