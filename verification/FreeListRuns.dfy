/**
 The free lists under every interleaving of serving loops and workers.  All loops of a server share
 its two lists; a step is one critical section on a list or one decision between two of them.
 */
module FreeListRuns {
  /** Where an object is: in the list, at this height above its end; with a thread; or dropped. */
  datatype Place = Listed(height: nat) | With(thread: nat) | Dropped

  /** A free list, written from its end to its head, with the number of objects ever made; and as history the place of
      each object and how often it was got and given back. */
  datatype Pool = Pool(free: seq<nat>, made: nat, place: map<nat, Place>, gets: map<nat, nat>, frees: map<nat, nat>)

  /** The object the next get returns. */
  function Head(p: Pool): nat {
    if p.free == [] then p.made else p.free[|p.free| - 1]
  }

  function Count(m: map<nat, nat>, o: nat): nat {
    if o in m then m[o] else 0
  }

  /** getRequest, getResponse by thread `t`. */
  function Get(p: Pool, t: nat): Pool {
    var o := Head(p);
    p.(free := if p.free == [] then [] else p.free[..|p.free| - 1], made := if p.free == [] then p.made + 1 else p.made,
       place := p.place[o := With(t)], gets := p.gets[o := Count(p.gets, o) + 1])
  }

  /** freeRequest, freeResponse: the object becomes the head, whatever it is. */
  function Free(p: Pool, o: nat): Pool {
    p.(free := p.free + [o], place := p.place[o := Listed(|p.free|)], frees := p.frees[o := Count(p.frees, o) + 1])
  }

  function Move(p: Pool, o: nat, to: Place): Pool {
    p.(place := p.place[o := to])
  }

  /** A serving loop or a worker, and the objects it holds.  `loop` tells a serving loop, which goes on
      to the next request, from a worker, which ends. */
  datatype Thread =
    | Waiting                                       // a loop between requests
    | Reading(req: nat)                             // a loop reading a header and a body
    | Serving(req: nat)                             // a worker inside the handler
    | Answering(req: nat, loop: bool)               // about to get a response object
    | Sending(req: nat, resp: nat, loop: bool)      // filling and writing the response
    | Releasing(req: nat, loop: bool)               // about to give the request back
    | Ended

  datatype Server = Server(threads: map<nat, Thread>, reqs: Pool, resps: Pool)

  const NoPool := Pool([], 0, map[], map[], map[])

  ghost predicate Init(s: Server) {
    s == Server(map[], NoPool, NoPool)
  }

  datatype Step =
    | Connect(t: nat)                    // a new serving loop
    | GetRequest(t: nat)
    | HeaderFails(t: nat)                // the loop ends and forgets its object
    | TurnDown(t: nat, noResp: bool)     // unknown method, or a body that does not decode
    | Submit(t: nat, worker: nat)
    | Finish(t: nat, noResp: bool)       // the handler returned or panicked
    | GetResponse(t: nat)
    | FreeResponse(t: nat)
    | FreeRequest(t: nat)

  function After(req: nat, noResp: bool, loop: bool): Thread {
    if noResp then Releasing(req, loop) else Answering(req, loop)
  }

  ghost predicate Next(s: Server, s': Server, step: Step) {
    if step.Connect? then step.t !in s.threads && s' == s.(threads := s.threads[step.t := Waiting])
    else
      && step.t in s.threads
      && var at := s.threads[step.t];
         match step
         case GetRequest(t) =>
           at.Waiting? && s' == s.(threads := s.threads[t := Reading(Head(s.reqs))], reqs := Get(s.reqs, t))
         case HeaderFails(t) =>
           at.Reading? && s' == s.(threads := s.threads[t := Ended], reqs := Move(s.reqs, at.req, Dropped))
         case TurnDown(t, noResp) =>
           at.Reading? && s' == s.(threads := s.threads[t := After(at.req, noResp, true)])
         case Submit(t, worker) =>
           && at.Reading? && worker !in s.threads
           && s' == s.(threads := s.threads[t := Waiting][worker := Serving(at.req)],
                       reqs := Move(s.reqs, at.req, With(worker)))
         case Finish(t, noResp) =>
           at.Serving? && s' == s.(threads := s.threads[t := After(at.req, noResp, false)])
         case GetResponse(t) =>
           && at.Answering?
           && s' == s.(threads := s.threads[t := Sending(at.req, Head(s.resps), at.loop)], resps := Get(s.resps, t))
         case FreeResponse(t) =>
           && at.Sending?
           && s' == s.(threads := s.threads[t := Releasing(at.req, at.loop)], resps := Free(s.resps, at.resp))
         case FreeRequest(t) =>
           && at.Releasing?
           && s' == s.(threads := s.threads[t := if at.loop then Waiting else Ended], reqs := Free(s.reqs, at.req))
         case Connect(_) => false
  }

  ghost predicate IsRun(run: seq<Server>, steps: seq<Step>) {
    && |run| == |steps| + 1 && Init(run[0])
    && forall i {:trigger steps[i]} :: 0 <= i < |steps| ==> Next(run[i], run[i + 1], steps[i])
  }

  // ------------------------------------------------------------------------------------
  // One list
  // ------------------------------------------------------------------------------------

  /** Every object is where its place says, and the list and the threads hold only such objects: so no
      object is in two places.  It was got once more than it was given back unless it is in the list. */
  ghost predicate PoolOk(p: Pool, held: map<nat, nat>) {
    PlacesOk(p, held) && CountsOk(p)
  }

  ghost predicate PlacesOk(p: Pool, held: map<nat, nat>) {
    && (forall i :: 0 <= i < |p.free| ==> p.free[i] in p.place && p.place[p.free[i]] == Listed(i))
    && (forall t :: t in held ==> held[t] in p.place && p.place[held[t]] == With(t))
    && (forall o :: o in p.place && p.place[o].With? ==> p.place[o].thread in held && held[p.place[o].thread] == o)
    && (forall o :: o in p.place ==> o < p.made)
    && (forall o :: o in p.place && p.place[o].Listed? ==>
          p.place[o].height < |p.free| && p.free[p.place[o].height] == o)
  }

  ghost predicate CountsOk(p: Pool) {
    && (forall o :: o in p.place ==> Count(p.gets, o) == Count(p.frees, o) + if p.place[o].Listed? then 0 else 1)
    && (forall o :: o >= p.made ==> o !in p.gets && o !in p.frees)
  }

  lemma GetOk(p: Pool, held: map<nat, nat>, t: nat)
    requires PoolOk(p, held) && t !in held
    ensures PoolOk(Get(p, t), held[t := Head(p)])
  {
    if p.free == [] {
      MakeOk(p, held, t);
    } else {
      ReuseOk(p, held, t);
    }
  }

  lemma MakeOk(p: Pool, held: map<nat, nat>, t: nat)
    requires PoolOk(p, held) && t !in held && p.free == []
    ensures PoolOk(Get(p, t), held[t := Head(p)])
  {
    assert p.made !in p.place;
  }

  lemma ReuseOk(p: Pool, held: map<nat, nat>, t: nat)
    requires PoolOk(p, held) && t !in held && p.free != []
    ensures PoolOk(Get(p, t), held[t := Head(p)])
  {
    assert p.place[Head(p)] == Listed(|p.free| - 1);
    ReusePlaces(p, held, t);
  }

  lemma ReusePlaces(p: Pool, held: map<nat, nat>, t: nat)
    requires PlacesOk(p, held) && t !in held && p.free != []
    ensures PlacesOk(Get(p, t), held[t := Head(p)])
  {
    assert p.place[Head(p)] == Listed(|p.free| - 1);
  }

  lemma FreeOk(p: Pool, held: map<nat, nat>, t: nat)
    requires PoolOk(p, held) && t in held
    ensures PoolOk(Free(p, held[t]), held - {t})
  {
  }

  lemma MoveOk(p: Pool, held: map<nat, nat>, t: nat, to: Place, held': map<nat, nat>)
    requires PoolOk(p, held) && t in held
    requires
      || (to == Dropped && held' == held - {t})
      || (to.With? && to.thread !in held && held' == (held - {t})[to.thread := held[t]])
    ensures PoolOk(Move(p, held[t], to), held')
  {
  }

  // ------------------------------------------------------------------------------------
  // The server
  // ------------------------------------------------------------------------------------

  predicate HoldsRequest(x: Thread) {
    !x.Waiting? && !x.Ended?
  }

  function Requests(ts: map<nat, Thread>): map<nat, nat> {
    map t | t in ts && HoldsRequest(ts[t]) :: ts[t].req
  }

  function Responses(ts: map<nat, Thread>): map<nat, nat> {
    map t | t in ts && ts[t].Sending? :: ts[t].resp
  }

  ghost predicate Inv(s: Server) {
    PoolOk(s.reqs, Requests(s.threads)) && PoolOk(s.resps, Responses(s.threads))
  }

  lemma Submitted(s: Server, s': Server, t: nat, worker: nat)
    requires Next(s, s', Submit(t, worker))
    ensures var held := Requests(s.threads);
      && t in held && worker !in held && Requests(s'.threads) == (held - {t})[worker := held[t]]
      && s'.reqs == Move(s.reqs, held[t], With(worker))
  {
  }

  lemma RequestsKept(s: Server, s': Server, step: Step)
    requires PoolOk(s.reqs, Requests(s.threads)) && Next(s, s', step)
    ensures PoolOk(s'.reqs, Requests(s'.threads))
  {
    hide PoolOk, Get, Free, Move;
    var held, held' := Requests(s.threads), Requests(s'.threads);
    match step
    case GetRequest(t) =>
      assert held' == held[t := Head(s.reqs)];
      GetOk(s.reqs, held, t);
    case HeaderFails(t) =>
      assert held' == held - {t};
      MoveOk(s.reqs, held, t, Dropped, held');
    case Submit(t, worker) =>
      Submitted(s, s', t, worker);
      MoveOk(s.reqs, held, t, With(worker), held');
    case FreeRequest(t) =>
      assert held' == held - {t};
      FreeOk(s.reqs, held, t);
    case _ =>
      assert held' == held;
  }

  lemma ResponsesKept(s: Server, s': Server, step: Step)
    requires PoolOk(s.resps, Responses(s.threads)) && Next(s, s', step)
    ensures PoolOk(s'.resps, Responses(s'.threads))
  {
    hide PoolOk, Get, Free, Move;
    var held, held' := Responses(s.threads), Responses(s'.threads);
    match step
    case GetResponse(t) =>
      assert held' == held[t := Head(s.resps)];
      GetOk(s.resps, held, t);
    case FreeResponse(t) =>
      assert held' == held - {t};
      FreeOk(s.resps, held, t);
    case _ =>
      assert held' == held;
  }

  lemma {:induction false} RunInv(run: seq<Server>, steps: seq<Step>, i: nat)
    requires IsRun(run, steps) && i < |run|
    ensures Inv(run[i])
  {
    if i > 0 {
      RunInv(run, steps, i - 1);
      assert Next(run[i - 1], run[i], steps[i - 1]);
      RequestsKept(run[i - 1], run[i], steps[i - 1]);
      ResponsesKept(run[i - 1], run[i], steps[i - 1]);
    }
  }

  /** The only way of a request through the server: a two-way one is answered, and its response given back,
      before it is given back itself; a one-way one is given back unanswered. */
  lemma OneWay(s: Server, s': Server, step: Step, t: nat)
    requires Next(s, s', step) && t in s.threads && s'.threads[t] != s.threads[t]
    ensures s.threads[t].Reading? ==>
      || (s'.threads[t] == Answering(s.threads[t].req, true) && step == TurnDown(t, false))
      || (s'.threads[t] == Releasing(s.threads[t].req, true) && step == TurnDown(t, true))
      || (s'.threads[t] == Ended && step == HeaderFails(t))
      || (s'.threads[t] == Waiting && step.Submit? && step.worker in s'.threads
          && s'.threads[step.worker] == Serving(s.threads[t].req))
    ensures s.threads[t].Serving? ==>
      || (s'.threads[t] == Answering(s.threads[t].req, false) && step == Finish(t, false))
      || (s'.threads[t] == Releasing(s.threads[t].req, false) && step == Finish(t, true))
    ensures s.threads[t].Answering? ==>
      s'.threads[t] == Sending(s.threads[t].req, Head(s.resps), s.threads[t].loop) && step == GetResponse(t)
    ensures s.threads[t].Sending? ==>
      && s'.threads[t] == Releasing(s.threads[t].req, s.threads[t].loop) && step == FreeResponse(t)
      && s'.resps.free == s.resps.free + [s.threads[t].resp]
    ensures s.threads[t].Releasing? ==>
      && s'.threads[t] == (if s.threads[t].loop then Waiting else Ended) && step == FreeRequest(t)
      && s'.reqs.free == s.reqs.free + [s.threads[t].req]
  {
  }

  ghost predicate Apart(p: Pool, held: map<nat, nat>) {
    && (forall i, j :: 0 <= i < j < |p.free| ==> p.free[i] != p.free[j])
    && (forall t :: t in held ==> held[t] !in p.free)
    && (forall t, u :: t in held && u in held && t != u ==> held[t] != held[u])
  }

  lemma PoolApart(p: Pool, held: map<nat, nat>)
    requires PoolOk(p, held)
    ensures Apart(p, held)
  {
  }

  /** In every state of every run neither list holds an object twice, no object in a list is in use, and
      no object is in use by two threads. */
  lemma NeverShared(run: seq<Server>, steps: seq<Step>, i: nat)
    requires IsRun(run, steps) && i < |run|
    ensures Apart(run[i].reqs, Requests(run[i].threads)) && Apart(run[i].resps, Responses(run[i].threads))
  {
    RunInv(run, steps, i);
    PoolApart(run[i].reqs, Requests(run[i].threads));
    PoolApart(run[i].resps, Responses(run[i].threads));
  }

  /** Every object has been given back as often as it was got, or once less while it is out: at most once
      per get on every path.  Only requests whose header failed stay out for good. */
  lemma FreedOncePerGet(run: seq<Server>, steps: seq<Step>, i: nat, o: nat)
    requires IsRun(run, steps) && i < |run|
    ensures Count(run[i].reqs.frees, o) <= Count(run[i].reqs.gets, o) <= Count(run[i].reqs.frees, o) + 1
    ensures Count(run[i].resps.frees, o) <= Count(run[i].resps.gets, o) <= Count(run[i].resps.frees, o) + 1
  {
    RunInv(run, steps, i);
    RunKnown(run, steps, i, o);
  }

  /** A serving loop fails to read a header and forgets the request object `o` it got for it. */
  ghost predicate LostAt(s: Server, step: Step, o: nat) {
    step.HeaderFails? && step.t in s.threads && s.threads[step.t] == Reading(o)
  }

  ghost predicate IsDropped(s: Server, o: nat) {
    o in s.reqs.place && s.reqs.place[o] == Dropped
  }

  lemma DroppedStep(s: Server, s': Server, step: Step, o: nat)
    requires PlacesOk(s.reqs, Requests(s.threads)) && Next(s, s', step)
    ensures IsDropped(s', o) <==> IsDropped(s, o) || LostAt(s, step, o)
  {
    var held := Requests(s.threads);
    assert s.reqs.free != [] ==> s.reqs.place[Head(s.reqs)].Listed?;
    assert step.t in s.threads && HoldsRequest(s.threads[step.t]) ==> s.reqs.place[held[step.t]] == With(step.t);
  }

  /** A request object is lost exactly by a header that could not be read... */
  lemma {:induction false} DroppedExactly(run: seq<Server>, steps: seq<Step>, i: nat, o: nat)
    requires IsRun(run, steps) && i < |run|
    ensures IsDropped(run[i], o) <==> exists k :: 0 <= k < i && LostAt(run[k], steps[k], o)
  {
    hide IsDropped, LostAt, Next;
    if i == 0 {
      assert !IsDropped(run[0], o) by { NothingDropped(run[0], o); }
    } else {
      DroppedExactly(run, steps, i - 1, o);
      RunInv(run, steps, i - 1);
      assert Next(run[i - 1], run[i], steps[i - 1]);
      DroppedStep(run[i - 1], run[i], steps[i - 1], o);
    }
  }

  lemma NothingDropped(s: Server, o: nat)
    requires Init(s)
    ensures !IsDropped(s, o)
  {
  }

  /** ...so when no thread holds anything, a request object that was ever got is out of the list exactly
      if such a header came while it was in use; a response object never is. */
  lemma LostExactly(run: seq<Server>, steps: seq<Step>, i: nat, o: nat)
    requires IsRun(run, steps) && i < |run|
    ensures Requests(run[i].threads) == map[] && o in run[i].reqs.place ==>
      (o !in run[i].reqs.free <==> exists k :: 0 <= k < i && LostAt(run[k], steps[k], o))
    ensures Responses(run[i].threads) == map[] && o in run[i].resps.place ==> o in run[i].resps.free
  {
    hide LostAt;
    RunInv(run, steps, i);
    DroppedExactly(run, steps, i, o);
    NoResponseDropped(run, steps, i, o);
    PoolApart(run[i].reqs, Requests(run[i].threads));
  }

  /** Two loops: the first loses object 0 to a header that cannot be read, so the second is given a new
      object, 1, and gives that back. */
  function LossSteps(): seq<Step> {
    [Connect(0), GetRequest(0), HeaderFails(0), Connect(1), GetRequest(1), TurnDown(1, true), FreeRequest(1)]
  }

  function LossRun(): seq<Server> {
    var p1 := Pool([], 1, map[0 := With(0)], map[0 := 1], map[]);
    var p2 := p1.(place := map[0 := Dropped]);
    var p3 := Pool([], 2, map[0 := Dropped, 1 := With(1)], map[0 := 1, 1 := 1], map[]);
    var p4 := Pool([1], 2, map[0 := Dropped, 1 := Listed(0)], map[0 := 1, 1 := 1], map[1 := 1]);
    [Server(map[], NoPool, NoPool),
     Server(map[0 := Waiting], NoPool, NoPool),
     Server(map[0 := Reading(0)], p1, NoPool),
     Server(map[0 := Ended], p2, NoPool),
     Server(map[0 := Ended, 1 := Waiting], p2, NoPool),
     Server(map[0 := Ended, 1 := Reading(1)], p3, NoPool),
     Server(map[0 := Ended, 1 := Releasing(1, true)], p3, NoPool),
     Server(map[0 := Ended, 1 := Waiting], p4, NoPool)]
  }

  lemma Loss()
    ensures IsRun(LossRun(), LossSteps())
    ensures var s := LossRun()[7]; Requests(s.threads) == map[] && s.reqs.free == [1] && 0 in s.reqs.place
  {
    FirstLoop();
    SecondLoop();
    forall i | 0 <= i < 7 ensures Next(LossRun()[i], LossRun()[i + 1], LossSteps()[i]) {
    }
  }

  lemma FirstLoop()
    ensures forall i :: 0 <= i < 4 ==> Next(LossRun()[i], LossRun()[i + 1], LossSteps()[i])
  {
    var run, steps := LossRun(), LossSteps();
    assert Next(run[0], run[1], steps[0]) && Next(run[1], run[2], steps[1]);
    assert Next(run[2], run[3], steps[2]) && Next(run[3], run[4], steps[3]);
  }

  lemma SecondLoop()
    ensures forall i :: 4 <= i < 7 ==> Next(LossRun()[i], LossRun()[i + 1], LossSteps()[i])
  {
    var run, steps := LossRun(), LossSteps();
    assert Next(run[4], run[5], steps[4]) && Next(run[5], run[6], steps[5]);
    assert [] + [1] == [1];
    assert Next(run[6], run[7], steps[6]);
  }

  lemma {:induction false} NoResponseDropped(run: seq<Server>, steps: seq<Step>, i: nat, o: nat)
    requires IsRun(run, steps) && i < |run|
    ensures o in run[i].resps.place ==> !run[i].resps.place[o].Dropped?
  {
    if i > 0 {
      NoResponseDropped(run, steps, i - 1, o);
      assert Next(run[i - 1], run[i], steps[i - 1]);
    }
  }

  /** Only objects that were got have a count. */
  lemma {:induction false} RunKnown(run: seq<Server>, steps: seq<Step>, i: nat, o: nat)
    requires IsRun(run, steps) && i < |run|
    ensures o !in run[i].reqs.place ==> Count(run[i].reqs.gets, o) == Count(run[i].reqs.frees, o) == 0
    ensures o !in run[i].resps.place ==> Count(run[i].resps.gets, o) == Count(run[i].resps.frees, o) == 0
  {
    if i > 0 {
      RunKnown(run, steps, i - 1, o);
      assert Next(run[i - 1], run[i], steps[i - 1]);
    }
  }
}
