/**
 The client's state as `send`, `input` and `Close` change it, one thread at a time.  Each method is
 one critical section or one loop of the source; its contract gives the whole new state.
 */
module RpcClient {
  import opened Options
  import opened RpcSession

  /** What the codec gives the reader for one response: a header error, or a header and whether its
      body can be read. */
  datatype Event = HeaderError | Message(resp: Response, readable: bool)

  /** A call and how it was completed. */
  datatype Done = Done(call: Call, how: Completion)

  function Without(pending: map<nat, Call>, q: nat): map<nat, Call> {
    pending - {q}
  }

  /** What `input` leaves in the table after these responses. */
  function TableAfter(pending: map<nat, Call>, events: seq<Event>): map<nat, Call> {
    if events == [] || events[0].HeaderError? then pending
    else if !events[0].readable then Without(pending, events[0].resp.seqNo)
    else TableAfter(Without(pending, events[0].resp.seqNo), events[1..])
  }

  function Completing(pending: map<nat, Call>, e: Event): seq<Done>
    requires e.Message?
  {
    if e.resp.seqNo in pending then [Done(pending[e.resp.seqNo], ByResponse(e.resp, e.readable))] else []
  }

  /** The calls `input` completes by these responses, in order. */
  function DoneBy(pending: map<nat, Call>, events: seq<Event>): seq<Done> {
    if events == [] || events[0].HeaderError? then []
    else if !events[0].readable then Completing(pending, events[0])
    else Completing(pending, events[0]) + DoneBy(Without(pending, events[0].resp.seqNo), events[1..])
  }

  /** Every call of the table is ended once, nothing else is. */
  ghost predicate EndsAll(pending: map<nat, Call>, ended: seq<nat>) {
    && (forall q :: q in pending <==> q in ended)
    && (forall i, j :: 0 <= i < j < |ended| ==> ended[i] != ended[j])
  }

  function Ends(pending: map<nat, Call>, ended: seq<nat>): seq<Done>
    requires forall q :: q in ended ==> q in pending
  {
    seq(|ended|, i requires 0 <= i < |ended| => Done(pending[ended[i]], Ended))
  }

  class ClientState {
    var nextSeq: nat
    var pending: map<nat, Call>
    var closing: bool
    var shutdown: bool
    var done: seq<Done>       // what has been put on the calls' channels, in order

    constructor ()
      ensures nextSeq == 0 && pending == map[] && !closing && !shutdown && done == []
    {
      nextSeq, pending, closing, shutdown, done := 0, map[], false, false, [];
    }

    ghost predicate Valid()
      reads this
    {
      forall q :: q in pending ==> q < nextSeq && !pending[q].noResp
    }

    /** `send`, with the write succeeding or failing: a call that is not refused gets the next number;
        it is left pending exactly when it is two-way and was written. */
    method Send(call: Call, written: bool) returns (request: Option<Request>)
      requires Valid()
      modifies this
      ensures Valid() && closing == old(closing) && shutdown == old(shutdown)
      ensures request.Some? <==> !old(shutdown) && !old(closing)
      ensures request.None? ==> nextSeq == old(nextSeq) && pending == old(pending)
      ensures request.None? ==> done == old(done) + [Done(call, Refused)]
      ensures request.Some? ==> request.value == RequestOf(old(nextSeq), call) && nextSeq == old(nextSeq) + 1
      ensures request.Some? ==> request.value.seqNo == old(nextSeq) && request.value.raw == call.raw
      ensures request.Some? ==> request.value.serviceMethod == call.serviceMethod && request.value.args == call.args
      ensures request.Some? ==> (request.value.noResp <==> call.noResp && call.raw == 0)
      ensures request.Some? ==>
        pending == if written && !call.noResp then old(pending)[old(nextSeq) := call] else old(pending)
      ensures request.Some? ==>
        done == if written || call.noResp then old(done) else old(done) + [Done(call, SendFailed)]
    {
      if shutdown || closing {
        done := done + [Done(call, Refused)];
        return None;
      }
      var q := nextSeq;
      nextSeq := nextSeq + 1;
      if !call.noResp {
        pending := pending[q := call];
      }
      request := Some(RequestOf(q, call));
      if call.noResp {
        return;
      }
      if !written {
        var found := TakeBack(q);
        if found.Some? {
          done := done + [Done(found.value, SendFailed)];
        }
        assert pending == old(pending);
      }
    }

    /** Look a call up and remove it. */
    method TakeBack(q: nat) returns (call: Option<Call>)
      modifies `pending
      ensures call.Some? <==> q in old(pending)
      ensures call.Some? ==> call.value == old(pending)[q]
      ensures pending == Without(old(pending), q)
    {
      call := if q in pending then Some(pending[q]) else None;
      pending := pending - {q};
    }

    /** `input` over the responses the codec delivers, ended by the first error. */
    method Input(events: seq<Event>) returns (ghost ended: seq<nat>)
      requires Valid()
      modifies `pending, `shutdown, `done
      ensures Valid() && shutdown && pending == TableAfter(old(pending), events)
      ensures EndsAll(pending, ended)
      ensures done == old(done) + DoneBy(old(pending), events) + Ends(pending, ended)
    {
      var i, failed := 0, false;
      while i < |events| && !failed
        invariant Valid() && i <= |events| && shutdown == old(shutdown)
        invariant TableAfter(old(pending), events) == if failed then pending else TableAfter(pending, events[i..])
        invariant old(done) + DoneBy(old(pending), events)
          == if failed then done else done + DoneBy(pending, events[i..])
        decreases |events| - i, !failed
      {
        if events[i].HeaderError? {
          failed := true;
        } else {
          var call := TakeBack(events[i].resp.seqNo);
          if call.Some? {
            done := done + [Done(call.value, ByResponse(events[i].resp, events[i].readable))];
          }
          failed := !events[i].readable;
          assert events[i..][1..] == events[i + 1..];
          i := i + 1;
        }
      }
      ended := Terminate();
    }

    /** The end of `input`: complete every pending call, in whatever order the table is walked, and
        leave it in the table. */
    method Terminate() returns (ghost ended: seq<nat>)
      modifies `shutdown, `done
      ensures shutdown && EndsAll(pending, ended)
      ensures done == old(done) + Ends(pending, ended)
      ensures forall i :: 0 <= i < |ended| ==> done[|old(done)| + i] == Done(pending[ended[i]], Ended)
    {
      shutdown := true;
      var todo := pending.Keys;
      ended := [];
      while todo != {}
        invariant todo <= pending.Keys && shutdown
        invariant forall q :: q in pending <==> q in todo || q in ended
        invariant forall q :: q in todo ==> q !in ended
        invariant forall i, j :: 0 <= i < j < |ended| ==> ended[i] != ended[j]
        invariant done == old(done) + Ends(pending, ended)
        decreases todo
      {
        var q :| q in todo;
        todo := todo - {q};
        assert Ends(pending, ended + [q]) == Ends(pending, ended) + [Done(pending[q], Ended)];
        done := done + [Done(pending[q], Ended)];
        ended := ended + [q];
      }
    }

    method Close() returns (ok: bool)
      modifies `closing
      ensures closing && ok == !old(closing)
    {
      ok := !closing;
      closing := true;
    }
  }

  /** Over any responses, no pending call is completed by two of them: a number is answered at most
      once and then gone from the table. */
  lemma {:induction false} DoneOnce(pending: map<nat, Call>, events: seq<Event>, q: nat)
    requires q in pending && forall p :: p in pending && p != q ==> pending[p] != pending[q]
    ensures |DoneTo(DoneBy(pending, events), pending[q])| <= 1
    ensures DoneTo(DoneBy(pending, events), pending[q]) == [] <==> q in TableAfter(pending, events)
    ensures forall d :: d in DoneTo(DoneBy(pending, events), pending[q]) ==>
      d.how.ByResponse? && d.how.resp.seqNo == q && Message(d.how.resp, d.how.read) in events
  {
    if events != [] && events[0].Message? {
      var p := events[0].resp.seqNo;
      var rest := Without(pending, p);
      if events[0].readable { DoneToFirst(Completing(pending, events[0]), DoneBy(rest, events[1..]), pending[q]); }
      if p == q {
        if events[0].readable { DoneNone(rest, events[1..], q, pending[q]); }
      } else if events[0].readable {
        DoneOnce(rest, events[1..], q);
      }
    }
  }

  /** The completions of call `c` among `done`. */
  function DoneTo(done: seq<Done>, c: Call): seq<Done> {
    if done == [] then [] else (if done[0].call == c then [done[0]] else []) + DoneTo(done[1..], c)
  }

  lemma DoneToFirst(first: seq<Done>, rest: seq<Done>, c: Call)
    requires |first| <= 1
    ensures DoneTo(first + rest, c) == DoneTo(first, c) + DoneTo(rest, c)
  {
    if first == [] {
      assert first + rest == rest;
    } else {
      assert (first + rest)[1..] == rest;
    }
  }

  lemma {:induction false} DoneNone(pending: map<nat, Call>, events: seq<Event>, q: nat, c: Call)
    requires q !in pending && forall p :: p in pending ==> pending[p] != c
    ensures DoneTo(DoneBy(pending, events), c) == [] && q !in TableAfter(pending, events)
  {
    if events != [] && events[0].Message? && events[0].readable {
      DoneToFirst(Completing(pending, events[0]), DoneBy(Without(pending, events[0].resp.seqNo), events[1..]), c);
      DoneNone(Without(pending, events[0].resp.seqNo), events[1..], q, c);
    }
  }

  /** Event number k is a response to `q` that `input` gets to read: every one before it was read whole. */
  ghost predicate ReadAt(events: seq<Event>, k: nat, q: nat) {
    && k < |events| && events[k].Message? && events[k].resp.seqNo == q
    && forall i :: 0 <= i < k ==> events[i].Message? && events[i].readable
  }

  /** A call leaves the table exactly if a response to it is read; the others stay as they are. */
  lemma {:induction false} LeavesExactly(pending: map<nat, Call>, events: seq<Event>, q: nat)
    requires q in pending
    ensures q !in TableAfter(pending, events) <==> exists k :: ReadAt(events, k, q)
    ensures q in TableAfter(pending, events) ==> TableAfter(pending, events)[q] == pending[q]
  {
    if events != [] && events[0].Message? {
      var p := events[0].resp.seqNo;
      if p == q {
        assert ReadAt(events, 0, q);
        if events[0].readable { GoneStays(Without(pending, q), events[1..], q); }
      } else if events[0].readable {
        LeavesExactly(Without(pending, p), events[1..], q);
        forall k: nat | ReadAt(events, k, q) ensures k > 0 && ReadAt(events[1..], k - 1, q) { ReadLater(events, k, q); }
        forall k: nat | ReadAt(events[1..], k, q) ensures ReadAt(events, k + 1, q) { ReadSooner(events, k, q); }
      } else {
        forall k: nat ensures !ReadAt(events, k, q) { }
      }
    }
  }

  lemma ReadLater(events: seq<Event>, k: nat, q: nat)
    requires ReadAt(events, k, q) && events[0].Message? && events[0].resp.seqNo != q
    ensures k > 0 && ReadAt(events[1..], k - 1, q)
  {
    forall i | 0 <= i < k - 1 ensures events[1..][i].Message? && events[1..][i].readable {
      assert events[1..][i] == events[i + 1];
    }
  }

  lemma ReadSooner(events: seq<Event>, k: nat, q: nat)
    requires events != [] && events[0].Message? && events[0].readable && ReadAt(events[1..], k, q)
    ensures ReadAt(events, k + 1, q)
  {
    forall i | 0 <= i < k + 1 ensures events[i].Message? && events[i].readable {
      if i > 0 { assert events[1..][i - 1] == events[i]; }
    }
  }

  lemma {:induction false} GoneStays(pending: map<nat, Call>, events: seq<Event>, q: nat)
    requires q !in pending
    ensures q !in TableAfter(pending, events)
  {
    if events != [] && events[0].Message? && events[0].readable {
      GoneStays(Without(pending, events[0].resp.seqNo), events[1..], q);
    }
  }

  /** Completion number k is by event number at[k], and the events are in the order they were read. */
  ghost predicate InOrder(done: seq<Done>, events: seq<Event>, at: seq<nat>) {
    && |at| == |done|
    && (forall k :: 0 <= k < |at| ==> at[k] < |events| && events[at[k]].Message?)
    && (forall k :: 0 <= k < |at| ==> done[k].how == ByResponse(events[at[k]].resp, events[at[k]].readable))
    && (forall j, k :: 0 <= j < k < |at| ==> at[j] < at[k])
  }

  /** `input` completes calls in the order of the responses. */
  lemma {:induction false} DoneInOrder(pending: map<nat, Call>, events: seq<Event>) returns (at: seq<nat>)
    ensures InOrder(DoneBy(pending, events), events, at)
  {
    if events == [] || events[0].HeaderError? {
      at := [];
    } else {
      var first := Completing(pending, events[0]);
      var now := if first == [] then [] else [0];
      if !events[0].readable {
        at := now;
      } else {
        var rest := Without(pending, events[0].resp.seqNo);
        var later := DoneInOrder(rest, events[1..]);
        var moved := seq(|later|, k requires 0 <= k < |later| => later[k] + 1);
        Joined(first, DoneBy(rest, events[1..]), events, now, later, moved);
        at := now + moved;
      }
    }
  }

  lemma Joined(first: seq<Done>, rest: seq<Done>, events: seq<Event>, now: seq<nat>, later: seq<nat>, moved: seq<nat>)
    requires events != [] && events[0].Message? && |first| <= 1 && now == (if first == [] then [] else [0])
    requires first == [] || first[0].how == ByResponse(events[0].resp, events[0].readable)
    requires InOrder(rest, events[1..], later)
    requires |moved| == |later| && forall k :: 0 <= k < |later| ==> moved[k] == later[k] + 1
    ensures InOrder(first + rest, events, now + moved)
  {
    forall k | 0 <= k < |moved| ensures events[moved[k]] == events[1..][later[k]] { }
  }
}
