/** What every step of an RPC session keeps, and what follows for every call. */
module RpcSessionProof {
  import opened Options
  import opened RpcSession

  // ------------------------------------------------------------------------------------
  // The client and the completions
  // ------------------------------------------------------------------------------------

  predicate ReaderHolds(cli: Client, q: nat) {
    cli.reader.Holding? && cli.reader.resp.seqNo == q && cli.reader.call.Some?
  }

  predicate SenderHolds(cli: Client, q: nat) {
    q in cli.senders && cli.senders[q].Giving?
  }

  /** The reader has already ended call `q` if it was pending when the reader stopped. */
  predicate Swept(cli: Client, q: nat) {
    cli.reader.Stopped? || (cli.reader.Ending? && q !in cli.reader.todo)
  }

  /** The completions of two-way call `q`, by where the call is.  Together: one place at a time, and
      at most one completion besides the one at the end of the connection. */
  ghost predicate LogOk(cli: Client, q: nat, log: seq<Completion>) {
    if q in cli.pending then log == (if Swept(cli, q) then [Ended] else [])
    else if ReaderHolds(cli, q) then log == []
    else if SenderHolds(cli, q) then log == [] || (cli.reader.Stopped? && log == [Ended])
    else || (|log| == 1 && (log[0].ByResponse? || log[0].SendFailed?))
         || (cli.reader.Stopped? && log == [Ended, SendFailed])
  }

  ghost predicate CallOk(cli: Client, h: History, q: nat) {
    && q in h.sent && var c := h.sent[q];
    && c.id in h.seqOf && h.seqOf[c.id] == q && c.id in h.log
    && (q in cli.pending ==> cli.pending[q] == c && !SenderHolds(cli, q) && !ReaderHolds(cli, q))
    && (SenderHolds(cli, q) ==> cli.senders[q].call == c && !ReaderHolds(cli, q))
    && (ReaderHolds(cli, q) ==> cli.reader.call.value == c)
    && (c.noResp ==> q !in cli.pending && !SenderHolds(cli, q) && !ReaderHolds(cli, q) && h.log[c.id] == []
                     && (q in cli.senders ==> cli.senders[q] == Writing))
    && (!c.noResp ==> LogOk(cli, q, h.log[c.id]))
  }

  ghost predicate CallsOk(cli: Client, h: History) {
    && (forall q: nat {:trigger CallOk(cli, h, q)} {:trigger q in h.sent} :: q < cli.nextSeq ==> CallOk(cli, h, q))
    && (forall q :: q in h.sent ==> q < cli.nextSeq)
    && (forall q :: q in cli.pending ==> q < cli.nextSeq)
    && (forall q :: q in cli.senders ==> q < cli.nextSeq)
    && (cli.reader.Holding? && cli.reader.call.Some? ==> cli.reader.resp.seqNo < cli.nextSeq)
    && (forall id :: id in h.log ==>
          if id in h.seqOf then h.seqOf[id] in h.sent && h.sent[h.seqOf[id]].id == id else h.log[id] == [Refused])
    && (forall id :: id in h.seqOf ==> id in h.log)
    && (cli.shutdown <==> cli.reader.Ending? || cli.reader.Stopped?)
    && (cli.reader.Ending? ==> cli.reader.todo <= cli.pending.Keys)
  }

  lemma RefuseCalls(s: Sys, s': Sys, c: Call)
    requires CallsOk(s.cli, s.h) && Refuse(s, s', c)
    ensures CallsOk(s'.cli, s'.h)
  {
    forall q: nat | q < s'.cli.nextSeq ensures CallOk(s'.cli, s'.h, q) { assert CallOk(s.cli, s.h, q); }
  }

  lemma RegisterCalls(s: Sys, s': Sys, c: Call)
    requires CallsOk(s.cli, s.h) && Register(s, s', c)
    ensures CallsOk(s'.cli, s'.h)
  {
    forall q: nat | q < s'.cli.nextSeq ensures CallOk(s'.cli, s'.h, q) {
      if q < s.cli.nextSeq { assert CallOk(s.cli, s.h, q); }
    }
  }

  lemma WriteCalls(s: Sys, s': Sys, q: nat, delivered: bool, failed: bool)
    requires CallsOk(s.cli, s.h) && Write(s, s', q, delivered, failed)
    ensures CallsOk(s'.cli, s'.h)
  {
    forall p: nat | p < s'.cli.nextSeq ensures CallOk(s'.cli, s'.h, p) { assert CallOk(s.cli, s.h, p); }
  }

  lemma CleanupCalls(s: Sys, s': Sys, q: nat)
    requires CallsOk(s.cli, s.h) && Cleanup(s, s', q)
    ensures CallsOk(s'.cli, s'.h)
  {
    forall p: nat | p < s'.cli.nextSeq ensures CallOk(s'.cli, s'.h, p) { assert CallOk(s.cli, s.h, p); }
  }

  /** Completing call `q`: the client gives it up in one place and keeps everything else. */
  ghost predicate Releases(cli: Client, cli': Client, q: nat) {
    && cli'.nextSeq == cli.nextSeq && cli'.pending == cli.pending && cli'.shutdown == cli.shutdown
    && (cli'.senders == cli.senders || cli'.senders == cli.senders - {q})
    && (|| cli'.reader == cli.reader
        || (cli.reader.Holding? && cli.reader.resp.seqNo == q && (cli'.reader.Reading? || cli'.reader.Failing?))
        || (cli.reader.Ending? && cli'.reader == Ending(cli.reader.todo - {q})))
  }

  lemma CompleteOther(s: Sys, s': Sys, q: nat, how: Completion, p: nat)
    requires CallOk(s.cli, s.h, q) && Complete(s, s', s'.cli, s.h.sent[q], how) && Releases(s.cli, s'.cli, q)
    requires CallOk(s.cli, s.h, p) && p != q
    ensures CallOk(s'.cli, s'.h, p)
  {
    assert SenderHolds(s'.cli, p) == SenderHolds(s.cli, p) && ReaderHolds(s'.cli, p) == ReaderHolds(s.cli, p);
    assert Swept(s'.cli, p) == Swept(s.cli, p);
    assert s'.h.log[s'.h.sent[p].id] == s.h.log[s.h.sent[p].id];
  }

  lemma CompleteCalls(s: Sys, s': Sys, q: nat, how: Completion)
    requires CallsOk(s.cli, s.h) && q < s.cli.nextSeq && CallOk(s.cli, s.h, q)
    requires Complete(s, s', s'.cli, s.h.sent[q], how)
    requires Releases(s.cli, s'.cli, q) && CallOk(s'.cli, s'.h, q)
    ensures CallsOk(s'.cli, s'.h)
  {
    forall p: nat | p < s'.cli.nextSeq ensures CallOk(s'.cli, s'.h, p) {
      if p != q { CompleteOther(s, s', q, how, p); }
    }
    assert s'.h.seqOf == s.h.seqOf && s'.h.sent == s.h.sent && s'.h.log.Keys == s.h.log.Keys;
  }

  lemma GiveBackCalls(s: Sys, s': Sys, q: nat)
    requires CallsOk(s.cli, s.h) && GiveBack(s, s', q)
    ensures CallsOk(s'.cli, s'.h)
  {
    assert CallOk(s.cli, s.h, q);
    CompleteCalls(s, s', q, SendFailed);
  }

  lemma BodyCalls(s: Sys, s': Sys, read: bool)
    requires CallsOk(s.cli, s.h) && Body(s, s', read)
    ensures CallsOk(s'.cli, s'.h)
  {
    var q := s.cli.reader.resp.seqNo;
    if s.cli.reader.call.Some? {
      assert ReaderHolds(s.cli, q);
      assert CallOk(s.cli, s.h, q);
      CompleteCalls(s, s', q, ByResponse(s.cli.reader.resp, read));
    } else {
      forall p: nat | p < s'.cli.nextSeq ensures CallOk(s'.cli, s'.h, p) { assert CallOk(s.cli, s.h, p); }
    }
  }

  lemma EndOneCalls(s: Sys, s': Sys, q: nat)
    requires CallsOk(s.cli, s.h) && EndOne(s, s', q)
    ensures CallsOk(s'.cli, s'.h)
  {
    assert CallOk(s.cli, s.h, q);
    CompleteCalls(s, s', q, Ended);
  }

  /** The reader's steps that complete nothing, and Close. */
  lemma ReaderCalls(s: Sys, s': Sys)
    requires CallsOk(s.cli, s.h)
    requires Close(s, s') || ReadHeader(s, s') || ReadFails(s, s') || BeginEnd(s, s') || EndAll(s, s')
    ensures CallsOk(s'.cli, s'.h)
  {
    forall p: nat | p < s'.cli.nextSeq ensures CallOk(s'.cli, s'.h, p) { assert CallOk(s.cli, s.h, p); }
  }

  lemma TakeCalls(s: Sys, s': Sys)
    requires CallsOk(s.cli, s.h) && Take(s, s')
    ensures CallsOk(s'.cli, s'.h)
  {
    forall p: nat | p < s'.cli.nextSeq ensures CallOk(s'.cli, s'.h, p) { assert CallOk(s.cli, s.h, p); }
  }

  lemma ServerCalls(s: Sys, s': Sys)
    requires CallsOk(s.cli, s.h)
    requires s'.cli == s.cli && s'.h == s.h.(responseAt := s'.h.responseAt)
    ensures CallsOk(s'.cli, s'.h)
  {
    forall p: nat | p < s'.cli.nextSeq ensures CallOk(s'.cli, s'.h, p) { assert CallOk(s.cli, s.h, p); }
  }

  lemma NextCalls(s: Sys, s': Sys, step: Step)
    requires CallsOk(s.cli, s.h) && Next(s, s', step)
    ensures CallsOk(s'.cli, s'.h)
  {
    hide CallsOk, Refuse, Register, Write, Cleanup, GiveBack, Body, EndOne, Take;
    hide Close, ReadHeader, ReadFails, BeginEnd, EndAll;
    match step
    case DoRefuse(c) => RefuseCalls(s, s', c);
    case DoRegister(c) => RegisterCalls(s, s', c);
    case DoWrite(q, delivered, failed) => WriteCalls(s, s', q, delivered, failed);
    case DoCleanup(q) => CleanupCalls(s, s', q);
    case DoGiveBack(q) => GiveBackCalls(s, s', q);
    case DoBody(read) => BodyCalls(s, s', read);
    case DoEndOne(q) => EndOneCalls(s, s', q);
    case DoTake => TakeCalls(s, s');
    case DoClose => ReaderCalls(s, s');
    case DoReadHeader => ReaderCalls(s, s');
    case DoReadFails => ReaderCalls(s, s');
    case DoBeginEnd => ReaderCalls(s, s');
    case DoEndAll => ReaderCalls(s, s');
    case DoAccept => ServerCalls(s, s');
    case DoReject(reason) => ServerCalls(s, s');
    case DoFinish(q, o) => ServerCalls(s, s');
    case DoRespond(q, written) => ServerCalls(s, s');
  }

  // ------------------------------------------------------------------------------------
  // The streams and the server
  // ------------------------------------------------------------------------------------

  /** Every request on the wire is the one its call asked for, each sequence number is written at
      most once and served at most once. */
  ghost predicate RequestsOk(s: Sys) {
    var at, reqs := s.h.requestAt, s.wire.requests;
    && s.wire.taken <= |reqs|
    && (forall i :: 0 <= i < |reqs| ==> reqs[i].seqNo in at && at[reqs[i].seqNo] == i)
    && (forall i :: 0 <= i < |reqs| ==>
          reqs[i].seqNo in s.h.sent && reqs[i] == RequestOf(reqs[i].seqNo, s.h.sent[reqs[i].seqNo]))
    && (forall q :: q in at ==> at[q] < |reqs| && reqs[at[q]].seqNo == q)
    && (forall q :: q in s.cli.senders && s.cli.senders[q] == Writing ==> q in s.h.sent && q !in at)
    && (forall q :: q in s.srv.working ==>
          q in at && at[q] < s.wire.taken && s.srv.working[q] == reqs[at[q]] && q !in s.srv.outcomes)
    && (forall q :: q in s.srv.outcomes ==> q in at && at[q] < s.wire.taken)
    && (forall q :: q in s.srv.outcomes && s.srv.outcomes[q].Rejected? ==> s.srv.outcomes[q].reason != "")
    && (forall q :: q in s.h.sent ==> q < s.cli.nextSeq)
  }

  /** `r` is what the server makes of the outcome of the call that `r` names. */
  ghost predicate Genuine(srv: Server, h: History, r: Response) {
    && r.seqNo in h.sent && r.seqNo in srv.outcomes
    && r == Answer(r.seqNo, srv.outcomes[r.seqNo]) && !RequestOf(r.seqNo, h.sent[r.seqNo]).noResp
  }

  /** Every response anywhere is genuine, and each sequence number is answered at most once. */
  ghost predicate ResponsesOk(s: Sys) {
    var at, resps := s.h.responseAt, s.wire.responses;
    && s.wire.got <= |resps|
    && (forall q :: q in s.srv.answering ==>
          s.srv.answering[q].seqNo == q && Genuine(s.srv, s.h, s.srv.answering[q]) && q !in at)
    && (forall i :: 0 <= i < |resps| ==>
          resps[i].seqNo in at && at[resps[i].seqNo] == i && Genuine(s.srv, s.h, resps[i]))
    && (forall q :: q in at ==> q in s.srv.outcomes)
    && (s.cli.reader.Header? || s.cli.reader.Holding? ==> Genuine(s.srv, s.h, s.cli.reader.resp))
  }

  ghost predicate Replied(srv: Server, h: History, id: nat, how: Completion) {
    how.ByResponse? ==> id in h.seqOf && how.resp.seqNo == h.seqOf[id] && Genuine(srv, h, how.resp)
  }

  /** Every completion by a response is by a genuine response to that very call. */
  ghost predicate RepliesOk(s: Sys) {
    forall id, k :: id in s.h.log && 0 <= k < |s.h.log[id]| ==> Replied(s.srv, s.h, id, s.h.log[id][k])
  }

  // ---- requests

  lemma RegisterRequests(s: Sys, s': Sys, c: Call)
    requires RequestsOk(s) && Register(s, s', c)
    ensures RequestsOk(s')
  {
    assert s.cli.nextSeq !in s.h.requestAt;
  }

  lemma WriteRequests(s: Sys, s': Sys, q: nat, delivered: bool, failed: bool)
    requires RequestsOk(s) && Write(s, s', q, delivered, failed)
    ensures RequestsOk(s')
  {
  }

  lemma ServeRequests(s: Sys, s': Sys, step: Step)
    requires RequestsOk(s) && (step.DoAccept? || step.DoReject? || step.DoFinish?) && Next(s, s', step)
    ensures RequestsOk(s')
  {
  }

  /** Steps that touch neither the requests nor what is served. */
  lemma OtherRequests(s: Sys, s': Sys)
    requires RequestsOk(s)
    requires s'.wire == s.wire.(responses := s'.wire.responses, got := s'.wire.got)
    requires s'.srv == s.srv.(answering := s'.srv.answering)
    requires s'.h == s.h.(log := s'.h.log, responseAt := s'.h.responseAt)
    requires s'.cli.nextSeq == s.cli.nextSeq
    requires forall q :: q in s'.cli.senders && s'.cli.senders[q] == Writing ==>
      q in s.cli.senders && s.cli.senders[q] == Writing
    ensures RequestsOk(s')
  {
  }

  lemma NextRequests(s: Sys, s': Sys, step: Step)
    requires RequestsOk(s) && Next(s, s', step)
    ensures RequestsOk(s')
  {
    hide RequestsOk, Register, Write, Accept, Reject, Finish;
    match step
    case DoRegister(c) => RegisterRequests(s, s', c);
    case DoWrite(q, delivered, failed) => WriteRequests(s, s', q, delivered, failed);
    case DoAccept => ServeRequests(s, s', step);
    case DoReject(reason) => ServeRequests(s, s', step);
    case DoFinish(q, o) => ServeRequests(s, s', step);
    case _ => OtherRequests(s, s');
  }

  // ---- responses

  /** What is known of sent calls and outcomes only grows. */
  ghost predicate Grows(s: Sys, s': Sys) {
    && (forall q :: q in s.h.sent ==> q in s'.h.sent && s'.h.sent[q] == s.h.sent[q])
    && (forall q :: q in s.srv.outcomes ==> q in s'.srv.outcomes && s'.srv.outcomes[q] == s.srv.outcomes[q])
    && (forall id :: id in s.h.seqOf ==> id in s'.h.seqOf && s'.h.seqOf[id] == s.h.seqOf[id])
  }

  lemma NextGrows(s: Sys, s': Sys, step: Step)
    requires RequestsOk(s) && CallsOk(s.cli, s.h) && Next(s, s', step)
    ensures Grows(s, s')
  {
    hide CallsOk, RequestsOk, Next;
    if step.DoRegister? {
      NewCall(s.cli, s.h, step.c);
      Unlogged(s, s', step.c);
      RegisterGrows(s, s', step.c);
    } else if step.DoReject? || step.DoFinish? {
      NewOutcome(s, step);
      SettleGrows(s, s', step);
    } else {
      OtherGrows(s, s', step);
    }
  }

  lemma Unlogged(s: Sys, s': Sys, c: Call)
    requires Next(s, s', DoRegister(c))
    ensures c.id !in s.h.log
  {
  }

  lemma RegisterGrows(s: Sys, s': Sys, c: Call)
    requires Next(s, s', DoRegister(c)) && s.cli.nextSeq !in s.h.sent && c.id !in s.h.seqOf
    ensures Grows(s, s')
  {
  }

  lemma SettleGrows(s: Sys, s': Sys, step: Step)
    requires (step.DoReject? || step.DoFinish?) && Next(s, s', step)
    requires step.DoReject? && s.wire.taken < |s.wire.requests| ==>
      s.wire.requests[s.wire.taken].seqNo !in s.srv.outcomes
    requires step.DoFinish? && step.q in s.srv.working ==> s.srv.working[step.q].seqNo !in s.srv.outcomes
    ensures Grows(s, s')
  {
  }

  lemma OtherGrows(s: Sys, s': Sys, step: Step)
    requires !step.DoRegister? && !step.DoReject? && !step.DoFinish? && Next(s, s', step)
    ensures Grows(s, s')
  {
    hide Grows;
    assert s'.h.sent == s.h.sent && s'.h.seqOf == s.h.seqOf && s'.srv.outcomes == s.srv.outcomes;
    SameGrows(s, s');
  }

  lemma SameGrows(s: Sys, s': Sys)
    requires s'.h.sent == s.h.sent && s'.h.seqOf == s.h.seqOf && s'.srv.outcomes == s.srv.outcomes
    ensures Grows(s, s')
  {
  }

  lemma NewCall(cli: Client, h: History, c: Call)
    requires CallsOk(cli, h)
    ensures c.id !in h.log ==> c.id !in h.seqOf
    ensures cli.nextSeq !in h.sent
  {
  }

  /** The request settled by a step was not settled before. */
  lemma NewOutcome(s: Sys, step: Step)
    requires RequestsOk(s)
    ensures step.DoReject? && s.wire.taken < |s.wire.requests| ==>
      s.wire.requests[s.wire.taken].seqNo !in s.srv.outcomes
    ensures step.DoFinish? && step.q in s.srv.working ==> s.srv.working[step.q].seqNo !in s.srv.outcomes
  {
  }

  lemma SettleOne(s: Sys, s': Sys, srv: Server, r: Request, o: Outcome)
    requires ResponsesOk(s) && s'.cli == s.cli && s'.h == s.h
    requires s'.wire == s.wire.(taken := s'.wire.taken)
    requires srv == s.srv.(working := srv.working) && s'.srv == Settle(srv, r, o)
    requires r.seqNo !in s.srv.outcomes && r.seqNo in s.h.sent && r == RequestOf(r.seqNo, s.h.sent[r.seqNo])
    ensures ResponsesOk(s')
  {
    forall x | Genuine(s.srv, s.h, x) ensures Genuine(s'.srv, s'.h, x) { }
    assert r.seqNo !in s.h.responseAt;
    assert !r.noResp ==> Genuine(s'.srv, s'.h, Answer(r.seqNo, o));
  }

  lemma SettleResponses(s: Sys, s': Sys, step: Step)
    requires RequestsOk(s) && ResponsesOk(s) && (step.DoReject? || step.DoFinish?) && Next(s, s', step)
    ensures ResponsesOk(s')
  {
    hide ResponsesOk, Settle, RequestOf;
    if step.DoReject? {
      SettleOne(s, s', s.srv, s.wire.requests[s.wire.taken], Rejected(step.reason));
    } else {
      SettleOne(s, s', s.srv.(working := s.srv.working - {step.q}), s.srv.working[step.q], step.outcome);
    }
  }

  lemma RespondResponses(s: Sys, s': Sys, q: nat, written: bool)
    requires ResponsesOk(s) && Respond(s, s', q, written)
    ensures ResponsesOk(s')
  {
  }

  lemma OtherResponses(s: Sys, s': Sys)
    requires ResponsesOk(s) && Grows(s, s')
    requires s'.wire.responses == s.wire.responses && s'.srv.answering == s.srv.answering
    requires s'.h.responseAt == s.h.responseAt
    requires s.wire.got <= s'.wire.got <= |s.wire.responses|
    requires s'.cli.reader.Header? || s'.cli.reader.Holding? ==>
      || ((s.cli.reader.Header? || s.cli.reader.Holding?) && s'.cli.reader.resp == s.cli.reader.resp)
      || s'.cli.reader.resp in s.wire.responses
    ensures ResponsesOk(s')
  {
  }

  lemma NextResponses(s: Sys, s': Sys, step: Step)
    requires RequestsOk(s) && ResponsesOk(s) && Grows(s, s') && Next(s, s', step)
    ensures ResponsesOk(s')
  {
    hide RequestsOk, Grows, Reject, Finish, Respond, Genuine;
    match step
    case DoReject(reason) => SettleResponses(s, s', step);
    case DoFinish(q, o) => SettleResponses(s, s', step);
    case DoRespond(q, written) => RespondResponses(s, s', q, written);
    case _ => OtherResponses(s, s');
  }

  // ---- replies

  lemma NextReplies(s: Sys, s': Sys, step: Step)
    requires CallsOk(s.cli, s.h) && ResponsesOk(s) && RepliesOk(s) && Grows(s, s') && Next(s, s', step)
    ensures RepliesOk(s')
  {
    forall id, k | id in s'.h.log && 0 <= k < |s'.h.log[id]| ensures Replied(s'.srv, s'.h, id, s'.h.log[id][k]) {
      LogStep(s, s', step, id, k);
    }
  }

  /** An entry of the log is old, or the one just made. */
  lemma LogStep(s: Sys, s': Sys, step: Step, id: nat, k: nat)
    requires CallsOk(s.cli, s.h) && ResponsesOk(s) && RepliesOk(s) && Grows(s, s') && Next(s, s', step)
    requires id in s'.h.log && k < |s'.h.log[id]|
    ensures Replied(s'.srv, s'.h, id, s'.h.log[id][k])
  {
    hide Genuine, CallsOk, CallOk, ResponsesOk, Grows, Answer;
    if step.DoBody? && s.cli.reader.call.Some? {
      BodyGenuine(s, s', step.read);
    }
    if id in s.h.log && k < |s.h.log[id]| {
      assert s'.h.log[id][k] == s.h.log[id][k];
      assert Replied(s.srv, s.h, id, s.h.log[id][k]);
      StillReplied(s, s', id, s.h.log[id][k]);
    }
  }

  lemma StillReplied(s: Sys, s': Sys, id: nat, how: Completion)
    requires Grows(s, s') && Replied(s.srv, s.h, id, how)
    ensures Replied(s'.srv, s'.h, id, how)
  {
  }

  lemma BodyGenuine(s: Sys, s': Sys, read: bool)
    requires CallsOk(s.cli, s.h) && ResponsesOk(s) && Body(s, s', read) && s.cli.reader.call.Some?
    ensures Replied(s'.srv, s'.h, s.cli.reader.call.value.id, ByResponse(s.cli.reader.resp, read))
  {
    assert CallOk(s.cli, s.h, s.cli.reader.resp.seqNo);
  }

  // ------------------------------------------------------------------------------------
  // Runs
  // ------------------------------------------------------------------------------------

  ghost predicate Inv(s: Sys) {
    CallsOk(s.cli, s.h) && RequestsOk(s) && ResponsesOk(s) && RepliesOk(s)
  }

  lemma NextInv(s: Sys, s': Sys, step: Step)
    requires Inv(s) && Next(s, s', step)
    ensures Inv(s')
  {
    hide CallsOk, RequestsOk, ResponsesOk, RepliesOk, Next;
    NextCalls(s, s', step);
    NextRequests(s, s', step);
    NextGrows(s, s', step);
    NextResponses(s, s', step);
    NextReplies(s, s', step);
  }

  lemma {:induction false} RunInv(run: seq<Sys>, steps: seq<Step>, i: nat)
    requires IsRun(run, steps) && i < |run|
    ensures Inv(run[i])
  {
    if i > 0 {
      RunInv(run, steps, i - 1);
      assert Next(run[i - 1], run[i], steps[i - 1]);
      NextInv(run[i - 1], run[i], steps[i - 1]);
    }
  }

  /** Call `c`, sent with number `q`, is where the table, the reader or its sender has it. */
  ghost predicate HeldOnce(s: Sys, q: nat, c: Call) {
    || (q in s.cli.pending && s.cli.pending[q] == c && !ReaderHolds(s.cli, q) && !SenderHolds(s.cli, q))
    || (q !in s.cli.pending && ReaderHolds(s.cli, q) && s.cli.reader.call == Some(c) && !SenderHolds(s.cli, q))
    || (q !in s.cli.pending && !ReaderHolds(s.cli, q) && SenderHolds(s.cli, q) && s.cli.senders[q].call == c)
  }

  /** No call is forgotten: in every state of every run, an accepted two-way call is pending, or held
      by exactly one thread that is about to complete it, or completed; and once the reader has
      stopped, it is completed or its sender is about to complete it. */
  lemma NothingForgotten(run: seq<Sys>, steps: seq<Step>, i: nat, q: nat)
    requires IsRun(run, steps) && i < |run| && q in run[i].h.sent && !run[i].h.sent[q].noResp
    ensures var s := run[i]; var c := s.h.sent[q];
      && c.id in s.h.log
      && (HeldOnce(s, q, c) || s.h.log[c.id] != [])
      && (s.cli.reader.Stopped? ==> s.h.log[c.id] != [] || SenderHolds(s.cli, q))
  {
    RunInv(run, steps, i);
    assert CallOk(run[i].cli, run[i].h, q);
  }

  /** Completions of an accepted two-way call, exactly: none; one of the three kinds; or one at the end
      of the connection followed by one for a failed send.  A call sent one-way is never completed. */
  lemma Completions(run: seq<Sys>, steps: seq<Step>, i: nat, q: nat)
    requires IsRun(run, steps) && i < |run| && q in run[i].h.sent
    ensures var s := run[i]; var c := s.h.sent[q];
      && c.id in s.h.log
      && (c.noResp ==> s.h.log[c.id] == [])
      && (|| s.h.log[c.id] == [] || s.h.log[c.id] == [SendFailed] || s.h.log[c.id] == [Ended]
          || (|s.h.log[c.id]| == 1 && s.h.log[c.id][0].ByResponse?)
          || s.h.log[c.id] == [Ended, SendFailed])
  {
    RunInv(run, steps, i);
    assert CallOk(run[i].cli, run[i].h, q);
  }

  /** A second completion has been made or is about to be. */
  ghost predicate Repeats(s: Sys, q: nat) {
    && q in s.h.sent && s.h.sent[q].id in s.h.log
    && var log := s.h.log[s.h.sent[q].id];
       log == [Ended, SendFailed] || (log == [Ended] && SenderHolds(s.cli, q))
  }

  /** A sender whose write failed finds its call in the table of a connection that is shut down. */
  ghost predicate LateCleanup(s: Sys, step: Step, q: nat) {
    step == DoCleanup(q) && s.cli.shutdown && q in s.cli.pending
  }

  lemma RepeatsStep(s: Sys, s': Sys, step: Step, q: nat)
    requires CallsOk(s.cli, s.h) && CallsOk(s'.cli, s'.h) && Next(s, s', step)
    ensures Repeats(s', q) <==> Repeats(s, q) || LateCleanup(s, step, q)
  {
    hide CallsOk, CallOk, Repeats;
    if step.DoCleanup? {
      RepeatsCleanup(s, s', step.q, q);
    } else if Completes(s, step) {
      RepeatsCompleted(s, s', step, q);
    } else {
      RepeatsOther(s, s', step, q);
    }
  }

  lemma RepeatsCleanup(s: Sys, s': Sys, p: nat, q: nat)
    requires CallsOk(s.cli, s.h) && Cleanup(s, s', p)
    ensures Repeats(s', q) <==> Repeats(s, q) || LateCleanup(s, DoCleanup(p), q)
  {
    if q in s.h.sent { assert CallOk(s.cli, s.h, q); }
    assert q in s.cli.pending ==> q in s.h.sent by { if q in s.cli.pending { assert CallOk(s.cli, s.h, q); } }
  }

  lemma RepeatsCompleted(s: Sys, s': Sys, step: Step, q: nat)
    requires CallsOk(s.cli, s.h) && CallsOk(s'.cli, s'.h) && Next(s, s', step) && Completes(s, step)
    ensures Repeats(s', q) <==> Repeats(s, q)
  {
    CompletesOne(s, s', step);
    if q in s.h.sent {
      assert CallOk(s.cli, s.h, q) && CallOk(s'.cli, s'.h, q);
      assert q != Completed(s, step) ==> s'.h.log[s.h.sent[q].id] == s.h.log[s.h.sent[q].id];
      assert q != Completed(s, step) ==> SenderHolds(s'.cli, q) == SenderHolds(s.cli, q);
    }
  }

  lemma RepeatsOther(s: Sys, s': Sys, step: Step, q: nat)
    requires CallsOk(s.cli, s.h) && Next(s, s', step) && !step.DoCleanup? && !Completes(s, step)
    ensures Repeats(s', q) <==> Repeats(s, q)
  {
    hide CallOk, RequestOf, Settle, Answer;
    if q in s.h.sent {
      assert CallOk(s.cli, s.h, q);
      SentLogged(s, q);
      assert q in s'.h.sent && s'.h.sent[q] == s.h.sent[q];
      assert s'.h.log[s.h.sent[q].id] == s.h.log[s.h.sent[q].id];
      assert SenderHolds(s'.cli, q) == SenderHolds(s.cli, q);
    } else {
      assert q in s'.h.sent ==> s'.h.log[s'.h.sent[q].id] == [];
    }
  }

  lemma SentLogged(s: Sys, q: nat)
    requires CallOk(s.cli, s.h, q)
    ensures q in s.h.sent && s.h.sent[q].id in s.h.log
  {
  }

  predicate Completes(s: Sys, step: Step) {
    step.DoGiveBack? || step.DoEndOne? || (step.DoBody? && s.cli.reader.Holding? && s.cli.reader.call.Some?)
  }

  /** The number of the call a step completes. */
  function Completed(s: Sys, step: Step): nat {
    if step.DoBody? && s.cli.reader.Holding? then s.cli.reader.resp.seqNo
    else if step.DoGiveBack? || step.DoEndOne? then step.q else 0
  }

  lemma CompletesOne(s: Sys, s': Sys, step: Step)
    requires CallsOk(s.cli, s.h) && Next(s, s', step) && Completes(s, step)
    ensures var q := Completed(s, step);
      && q in s.h.sent && s.h.sent[q].id in s.h.seqOf && s.h.seqOf[s.h.sent[q].id] == q && s.h.sent[q].id in s.h.log
      && exists how :: s'.h == s.h.(log := s.h.log[s.h.sent[q].id := s.h.log[s.h.sent[q].id] + [how]])
  {
    var q := Completed(s, step);
    assert CallOk(s.cli, s.h, q);
    var c := s.h.sent[q];
    var how := if step.DoGiveBack? then SendFailed
               else if step.DoEndOne? then Ended else ByResponse(s.cli.reader.resp, step.read);
    assert Complete(s, s', s'.cli, c, how);
  }

  lemma NothingRepeats(s: Sys, q: nat)
    requires Init(s)
    ensures !Repeats(s, q)
  {
  }

  lemma InvCalls(s: Sys)
    requires Inv(s)
    ensures CallsOk(s.cli, s.h)
  {
  }

  /** A call is completed twice in exactly one way. */
  lemma {:induction false} TwiceExactly(run: seq<Sys>, steps: seq<Step>, i: nat, q: nat)
    requires IsRun(run, steps) && i < |run|
    ensures Repeats(run[i], q) <==> exists j :: 0 <= j < i && LateCleanup(run[j], steps[j], q)
  {
    hide Next, Inv, Repeats, LateCleanup;
    if i == 0 {
      NothingRepeats(run[0], q);
    } else {
      TwiceExactly(run, steps, i - 1, q);
      assert Next(run[i - 1], run[i], steps[i - 1]);
      RunInv(run, steps, i - 1);
      RunInv(run, steps, i);
      InvCalls(run[i - 1]);
      InvCalls(run[i]);
      RepeatsStep(run[i - 1], run[i], steps[i - 1], q);
    }
  }

  /** Since `s0` no number was given out, no call entered the table, and new calls were only refused. */
  ghost predicate Frozen(s0: Sys, s: Sys) {
    && (s.cli.shutdown || s.cli.closing)
    && s.cli.nextSeq == s0.cli.nextSeq && s.h.sent == s0.h.sent && s.h.seqOf == s0.h.seqOf
    && s.cli.pending.Keys <= s0.cli.pending.Keys
    && forall id :: id in s.h.log && id !in s0.h.log ==> s.h.log[id] == [Refused]
  }

  /** Nothing registers once the connection is shutting down or closing: no new number, no new pending
      call, and such a call is refused at once and never completed again. */
  lemma NoLateRegistration(run: seq<Sys>, steps: seq<Step>, i: nat, j: nat)
    requires IsRun(run, steps) && i <= j < |run| && (run[i].cli.shutdown || run[i].cli.closing)
    ensures run[j].cli.shutdown || run[j].cli.closing
    ensures run[j].cli.nextSeq == run[i].cli.nextSeq && run[j].h.sent == run[i].h.sent
    ensures run[j].h.seqOf == run[i].h.seqOf
    ensures run[j].cli.pending.Keys <= run[i].cli.pending.Keys
    ensures forall id :: id in run[j].h.log && id !in run[i].h.log ==> run[j].h.log[id] == [Refused]
  {
    hide IsRun;
    FrozenRun(run, steps, i, j);
  }

  /** Close, and the reader's end, shut the door for good. */
  lemma ClosedForGood(run: seq<Sys>, steps: seq<Step>, i: nat, j: nat)
    requires IsRun(run, steps) && i < j < |run| && (steps[i] == DoClose || steps[i] == DoBeginEnd)
    ensures run[j].cli.shutdown || run[j].cli.closing
    ensures run[j].cli.nextSeq == run[i].cli.nextSeq && run[j].h.sent == run[i].h.sent
    ensures run[j].cli.pending.Keys <= run[i].cli.pending.Keys
  {
    assert Next(run[i], run[i + 1], steps[i]);
    NoLateRegistration(run, steps, i + 1, j);
  }

  /** The reader is past its loop. */
  predicate ReaderDown(r: Reader) {
    r.Failing? || r.Ending? || r.Stopped?
  }

  /** A header or a body that cannot be read ends the reader for good: it reads nothing more and completes
      no call by a response. */
  lemma {:induction false} FirstErrorEnds(run: seq<Sys>, steps: seq<Step>, i: nat, j: nat)
    requires IsRun(run, steps) && i < j < |run| && (steps[i] == DoReadFails || steps[i] == DoBody(false))
    ensures ReaderDown(run[j].cli.reader) && run[j].wire.got == run[i].wire.got
    ensures j < |steps| ==> !steps[j].DoReadHeader? && !steps[j].DoTake? && !steps[j].DoBody?
  {
    assert Next(run[j - 1], run[j], steps[j - 1]);
    if j - 1 > i {
      FirstErrorEnds(run, steps, i, j - 1);
      DownStays(run[j - 1], run[j], steps[j - 1]);
    }
    if j < |steps| { assert Next(run[j], run[j + 1], steps[j]); }
  }

  lemma DownStays(s: Sys, s': Sys, step: Step)
    requires Next(s, s', step) && ReaderDown(s.cli.reader)
    ensures ReaderDown(s'.cli.reader) && s'.wire.got == s.wire.got
  {
    hide RequestOf, Settle, Answer;
  }

  lemma {:induction false} FrozenRun(run: seq<Sys>, steps: seq<Step>, i: nat, j: nat)
    requires IsRun(run, steps) && i <= j < |run| && (run[i].cli.shutdown || run[i].cli.closing)
    ensures Frozen(run[i], run[j])
  {
    hide Next, Inv, Frozen;
    if i < j {
      FrozenRun(run, steps, i, j - 1);
      assert Next(run[j - 1], run[j], steps[j - 1]);
      RunInv(run, steps, i);
      RunInv(run, steps, j - 1);
      InvCalls(run[i]);
      InvCalls(run[j - 1]);
      FrozenStep(run[i], run[j - 1], run[j], steps[j - 1]);
    } else {
      FrozenStart(run[i]);
    }
  }

  lemma FrozenStart(s: Sys)
    requires s.cli.shutdown || s.cli.closing
    ensures Frozen(s, s)
  {
  }

  lemma FrozenStep(s0: Sys, s: Sys, s': Sys, step: Step)
    requires CallsOk(s0.cli, s0.h) && CallsOk(s.cli, s.h) && Next(s, s', step) && Frozen(s0, s)
    ensures Frozen(s0, s')
  {
    hide CallOk;
    if Completes(s, step) { CompletesOne(s, s', step); }
  }

  /** The result a caller finds in its CallInfo. */
  datatype Result = Error(text: string) | BodyError(ret: int) | Reply(ret: int, body: Payload)

  /** Request `r` is what call `c` asked for, under the number `q`: its method, arguments and encoding,
      and marked one-way only for a one-way call that is not raw. */
  ghost predicate Carries(r: Request, q: nat, c: Call) {
    && r.seqNo == q && r.serviceMethod == c.serviceMethod && r.args == c.args && r.raw == c.raw
    && (r.noResp <==> c.noResp && c.raw == 0)
  }

  /** What `input` makes of a response. */
  function ResultOf(resp: Response, read: bool): Option<Result> {
    if resp.error != "" then Some(Error(resp.error))
    else if !read then Some(BodyError(resp.ret))
    else if resp.body.Some? then Some(Reply(resp.ret, resp.body.value))
    else None
  }

  /** The reply given to a call is the one made for it: the server read the very request the call
      asked for, what came of it is settled, and the caller sees exactly that, in whatever order the
      workers finished. */
  lemma RightReply(run: seq<Sys>, steps: seq<Step>, i: nat, id: nat, k: nat)
    requires IsRun(run, steps) && i < |run| && id in run[i].h.log && k < |run[i].h.log[id]|
    requires run[i].h.log[id][k].ByResponse?
    ensures var s := run[i]; var how := s.h.log[id][k];
      && id in s.h.seqOf && var q := s.h.seqOf[id];
      && q in s.h.sent && s.h.sent[q].id == id && q in s.srv.outcomes
      && q in s.h.requestAt && s.h.requestAt[q] < s.wire.taken <= |s.wire.requests|
      && Carries(s.wire.requests[s.h.requestAt[q]], q, s.h.sent[q])
      && match s.srv.outcomes[q] {
           case Rejected(reason) => ResultOf(how.resp, how.read) == Some(Error(reason))
           case Panicked => ResultOf(how.resp, how.read) == Some(Error("server exception"))
           case Returned(ret, message, reply) =>
             ResultOf(how.resp, how.read) == Some(if message != "" then Error(message)
                                                  else if how.read then Reply(ret, reply) else BodyError(ret))
         }
  {
    RunInv(run, steps, i);
    assert Replied(run[i].srv, run[i].h, id, run[i].h.log[id][k]);
  }

  /** Every response on the wire says what came of its request: no reply and the error text after a refusal,
      return value 1 and "server exception" after a panic, and after a return its value and error text,
      with the reply exactly if there is no error text. */
  lemma WireResponse(run: seq<Sys>, steps: seq<Step>, i: nat, k: nat)
    requires IsRun(run, steps) && i < |run| && k < |run[i].wire.responses|
    ensures var x := run[i].wire.responses[k];
      && x.seqNo in run[i].srv.outcomes
      && match run[i].srv.outcomes[x.seqNo] {
           case Rejected(reason) => x.ret == 0 && x.error == reason != "" && x.body == None
           case Panicked => x.ret == 1 && x.error == "server exception" && x.body == None
           case Returned(ret, message, reply) =>
             x.ret == ret && x.error == message && x.body == if message == "" then Some(reply) else None
         }
  {
    RunInv(run, steps, i);
    assert Genuine(run[i].srv, run[i].h, run[i].wire.responses[k]);
  }

  /** No response completes two calls, or one call twice. */
  lemma OneCallPerResponse(run: seq<Sys>, steps: seq<Step>, i: nat, a: nat, j: nat, b: nat, k: nat)
    requires IsRun(run, steps) && i < |run| && a in run[i].h.log && b in run[i].h.log
    requires j < |run[i].h.log[a]| && k < |run[i].h.log[b]|
    requires run[i].h.log[a][j].ByResponse? && run[i].h.log[b][k].ByResponse?
    requires run[i].h.log[a][j].resp.seqNo == run[i].h.log[b][k].resp.seqNo
    ensures a == b && j == k
  {
    RunInv(run, steps, i);
    var s := run[i];
    assert Replied(s.srv, s.h, a, s.h.log[a][j]) && Replied(s.srv, s.h, b, s.h.log[b][k]);
    assert CallOk(s.cli, s.h, s.h.seqOf[a]);
  }

  /** Each request is served at most once, and it is the request that was sent. */
  lemma ServedOnce(run: seq<Sys>, steps: seq<Step>, i: nat, q: nat, o: Outcome)
    requires IsRun(run, steps) && i < |steps| && steps[i] == DoFinish(q, o)
    ensures q !in run[i].srv.outcomes && q in run[i].h.sent && q in run[i].srv.working
    ensures Carries(run[i].srv.working[q], q, run[i].h.sent[q])
  {
    RunInv(run, steps, i);
    assert Next(run[i], run[i + 1], steps[i]);
  }

  /** A response to a raw one-way send, which the server does make, reaches no call: the reader finds
      nothing pending, reads the body and gives it to nobody. */
  lemma OneWayDiscarded(run: seq<Sys>, steps: seq<Step>, i: nat, q: nat)
    requires IsRun(run, steps) && i < |run| && q in run[i].h.sent && run[i].h.sent[q].noResp
    ensures q !in run[i].cli.pending
    ensures run[i].cli.reader.Holding? && run[i].cli.reader.resp.seqNo == q ==> run[i].cli.reader.call.None?
    ensures forall id, k :: id in run[i].h.log && 0 <= k < |run[i].h.log[id]| && run[i].h.log[id][k].ByResponse? ==>
      run[i].h.log[id][k].resp.seqNo != q
  {
    RunInv(run, steps, i);
    var s := run[i];
    assert CallOk(s.cli, s.h, q);
    forall id, k | id in s.h.log && 0 <= k < |s.h.log[id]| && s.h.log[id][k].ByResponse?
      ensures s.h.log[id][k].resp.seqNo != q {
      assert Replied(s.srv, s.h, id, s.h.log[id][k]);
    }
  }

  /** A one-way call that is not raw is never answered. */
  lemma NeverAnswered(run: seq<Sys>, steps: seq<Step>, i: nat, q: nat)
    requires IsRun(run, steps) && i < |run| && q in run[i].h.sent
    requires run[i].h.sent[q].noResp && run[i].h.sent[q].raw == 0
    ensures q !in run[i].srv.answering
    ensures forall k :: 0 <= k < |run[i].wire.responses| ==> run[i].wire.responses[k].seqNo != q
  {
    RunInv(run, steps, i);
  }

  /** A raw one-way call whose handler was run and whose response was written. */
  function AnsweredSteps(c: Call, o: Outcome): seq<Step> {
    [DoRegister(c), DoWrite(0, true, false), DoAccept, DoFinish(0, o), DoRespond(0, true)]
  }

  function AnsweredRun(c: Call, o: Outcome): seq<Sys> {
    var r := RequestOf(0, c);
    var cli := Client(1, map[], false, false, map[], Reading);
    var h := History(map[0 := c], map[c.id := 0], map[c.id := []], map[], map[]);
    var h1 := h.(requestAt := map[0 := 0]);
    var none := Server(map[], map[], map[]);
    var start := Client(0, map[], false, false, map[], Reading);
    [Sys(start, Wire([], 0, [], 0), none, History(map[], map[], map[], map[], map[])),
     Sys(cli.(senders := map[0 := Writing]), Wire([], 0, [], 0), none, h),
     Sys(cli, Wire([r], 0, [], 0), none, h1),
     Sys(cli, Wire([r], 1, [], 0), none.(working := map[0 := r]), h1),
     Sys(cli, Wire([r], 1, [], 0), Server(map[], map[0 := Answer(0, o)], map[0 := o]), h1),
     Sys(cli, Wire([r], 1, [Answer(0, o)], 0), Server(map[], map[], map[0 := o]), h1.(responseAt := map[0 := 0]))]
  }

  lemma RawIsAnswered(c: Call, o: Outcome)
    requires c.noResp && c.raw != 0 && !o.Rejected?
    ensures IsRun(AnsweredRun(c, o), AnsweredSteps(c, o))
    ensures AnsweredRun(c, o)[5].wire.responses == [Answer(0, o)]
  {
    RawIsSent(c, o);
    RawIsServed(c, o);
    forall i | 0 <= i < 5 ensures Next(AnsweredRun(c, o)[i], AnsweredRun(c, o)[i + 1], AnsweredSteps(c, o)[i]) {
    }
  }

  lemma RawIsSent(c: Call, o: Outcome)
    requires c.noResp
    ensures forall i :: 0 <= i < 2 ==> Next(AnsweredRun(c, o)[i], AnsweredRun(c, o)[i + 1], AnsweredSteps(c, o)[i])
  {
    var run, steps := AnsweredRun(c, o), AnsweredSteps(c, o);
    assert Next(run[0], run[1], steps[0]);
    assert [] + [RequestOf(0, c)] == [RequestOf(0, c)];
    assert Write(run[1], run[2], 0, true, false);
  }

  lemma RawIsServed(c: Call, o: Outcome)
    requires c.noResp && c.raw != 0 && !o.Rejected?
    ensures forall i :: 2 <= i < 5 ==> Next(AnsweredRun(c, o)[i], AnsweredRun(c, o)[i + 1], AnsweredSteps(c, o)[i])
  {
    var run, steps := AnsweredRun(c, o), AnsweredSteps(c, o);
    assert Next(run[2], run[3], steps[2]) && Next(run[3], run[4], steps[3]);
    assert [] + [Answer(0, o)] == [Answer(0, o)];
    assert Respond(run[4], run[5], 0, true);
  }

  /** A response to call `c` is on the wire. */
  ghost predicate AnsweredIn(s: Sys, c: Call) {
    exists k :: 0 <= k < |s.wire.responses|
      && s.wire.responses[k].seqNo in s.h.sent && s.h.sent[s.wire.responses[k].seqNo] == c
  }

  ghost predicate CanBeAnswered(c: Call) {
    exists run, steps :: IsRun(run, steps) && AnsweredIn(run[|steps|], c)
  }

  /** A one-way call can be answered exactly if it is raw. */
  lemma AnsweredExactly(c: Call)
    requires c.noResp
    ensures CanBeAnswered(c) <==> c.raw != 0
  {
    if c.raw != 0 {
      RawIsAnswered(c, Panicked);
      var s := AnsweredRun(c, Panicked)[5];
      assert s.h.sent[s.wire.responses[0].seqNo] == c;
      assert AnsweredIn(s, c);
    }
    forall run, steps | IsRun(run, steps) && AnsweredIn(run[|steps|], c) ensures c.raw != 0 {
      RunInv(run, steps, |steps|);
    }
  }

  // ------------------------------------------------------------------------------------
  // A call and its reply: a run
  // ------------------------------------------------------------------------------------

  function ReplySteps(c: Call, o: Outcome): seq<Step> {
    [DoRegister(c), DoWrite(0, true, false), DoAccept, DoFinish(0, o), DoRespond(0, true),
     DoReadHeader, DoTake, DoBody(true)]
  }

  function ReplyRun(c: Call, o: Outcome): seq<Sys> {
    var r, x := RequestOf(0, c), Answer(0, o);
    var none := Server(map[], map[], map[]);
    var done := Server(map[], map[], map[0 := o]);
    var cli := Client(1, map[0 := c], false, false, map[], Reading);
    var h := History(map[0 := c], map[c.id := 0], map[c.id := []], map[], map[]);
    var h1 := h.(requestAt := map[0 := 0]);
    var h2 := h1.(responseAt := map[0 := 0]);
    var start := Client(0, map[], false, false, map[], Reading);
    [Sys(start, Wire([], 0, [], 0), none, History(map[], map[], map[], map[], map[])),
     Sys(cli.(senders := map[0 := Writing]), Wire([], 0, [], 0), none, h),
     Sys(cli, Wire([r], 0, [], 0), none, h1),
     Sys(cli, Wire([r], 1, [], 0), none.(working := map[0 := r]), h1),
     Sys(cli, Wire([r], 1, [], 0), done.(answering := map[0 := x]), h1),
     Sys(cli, Wire([r], 1, [x], 0), done, h2),
     Sys(cli.(reader := Header(x)), Wire([r], 1, [x], 1), done, h2),
     Sys(cli.(pending := map[], reader := Holding(x, Some(c))), Wire([r], 1, [x], 1), done, h2),
     Sys(cli.(pending := map[]), Wire([r], 1, [x], 1), done, h2.(log := map[c.id := [ByResponse(x, true)]]))]
  }

  /** Every two-way call can be answered, with any return value and reply of its handler. */
  lemma TwoWayIsAnswered(c: Call, ret: int, reply: Payload)
    requires !c.noResp
    ensures var run := ReplyRun(c, Returned(ret, "", reply));
      && IsRun(run, ReplySteps(c, Returned(ret, "", reply)))
      && |run[8].h.log[c.id]| == 1 && run[8].h.log[c.id][0].ByResponse?
      && ResultOf(run[8].h.log[c.id][0].resp, run[8].h.log[c.id][0].read) == Some(Reply(ret, reply))
  {
    var o := Returned(ret, "", reply);
    ReplySent(c, o);
    ReplyServed(c, o);
    ReplyRead(c, o);
    forall i | 0 <= i < 8 ensures Next(ReplyRun(c, o)[i], ReplyRun(c, o)[i + 1], ReplySteps(c, o)[i]) {
    }
  }

  lemma ReplySent(c: Call, o: Outcome)
    requires !c.noResp
    ensures forall i :: 0 <= i < 2 ==> Next(ReplyRun(c, o)[i], ReplyRun(c, o)[i + 1], ReplySteps(c, o)[i])
  {
    var run, steps := ReplyRun(c, o), ReplySteps(c, o);
    assert Next(run[0], run[1], steps[0]);
    assert [] + [RequestOf(0, c)] == [RequestOf(0, c)];
    assert Write(run[1], run[2], 0, true, false);
  }

  lemma ReplyServed(c: Call, o: Outcome)
    requires !c.noResp && !o.Rejected?
    ensures forall i :: 2 <= i < 5 ==> Next(ReplyRun(c, o)[i], ReplyRun(c, o)[i + 1], ReplySteps(c, o)[i])
  {
    var run, steps := ReplyRun(c, o), ReplySteps(c, o);
    assert Next(run[2], run[3], steps[2]) && Next(run[3], run[4], steps[3]);
    assert [] + [Answer(0, o)] == [Answer(0, o)];
    assert Respond(run[4], run[5], 0, true);
  }

  lemma ReplyRead(c: Call, o: Outcome)
    requires !c.noResp
    ensures forall i :: 5 <= i < 8 ==> Next(ReplyRun(c, o)[i], ReplyRun(c, o)[i + 1], ReplySteps(c, o)[i])
  {
    var run, steps := ReplyRun(c, o), ReplySteps(c, o);
    assert Answer(0, o).seqNo == 0;
    assert Next(run[5], run[6], steps[5]) && Next(run[6], run[7], steps[6]);
    assert run[7].h.log[c.id] + [ByResponse(Answer(0, o), true)] == [ByResponse(Answer(0, o), true)];
    assert Body(run[7], run[8], true);
  }

  // ------------------------------------------------------------------------------------
  // Completed twice: a run
  // ------------------------------------------------------------------------------------

  function TwiceSteps(c: Call): seq<Step> {
    [DoRegister(c), DoReadFails, DoBeginEnd, DoEndOne(0), DoEndAll, DoWrite(0, false, true), DoCleanup(0),
     DoGiveBack(0)]
  }

  function TwiceRun(c: Call): seq<Sys> {
    var w, v := Wire([], 0, [], 0), Server(map[], map[], map[]);
    var cli := Client(1, map[0 := c], false, false, map[0 := Writing], Reading);
    var h := History(map[0 := c], map[c.id := 0], map[c.id := []], map[], map[]);
    var h1 := h.(log := map[c.id := [Ended]]);
    var down := cli.(shutdown := true, reader := Stopped);
    [Sys(Client(0, map[], false, false, map[], Reading), w, v, History(map[], map[], map[], map[], map[])),
     Sys(cli, w, v, h),
     Sys(cli.(reader := Failing), w, v, h),
     Sys(cli.(shutdown := true, reader := Ending({0})), w, v, h),
     Sys(cli.(shutdown := true, reader := Ending({})), w, v, h1),
     Sys(down, w, v, h1),
     Sys(down.(senders := map[0 := Cleaning]), w, v, h1),
     Sys(down.(senders := map[0 := Giving(c)], pending := map[]), w, v, h1),
     Sys(down.(senders := map[], pending := map[]), w, v, h1.(log := map[c.id := [Ended, SendFailed]]))]
  }

  /** Exactly-once completion fails: a call is registered, the reader ends it, and then its write fails. */
  lemma CompletedTwice(c: Call)
    requires !c.noResp
    ensures IsRun(TwiceRun(c), TwiceSteps(c))
    ensures TwiceRun(c)[8].h.log[c.id] == [Ended, SendFailed]
  {
    TwiceEnds(c);
    TwiceGives(c);
    forall i | 0 <= i < 8 ensures Next(TwiceRun(c)[i], TwiceRun(c)[i + 1], TwiceSteps(c)[i]) {
    }
  }

  lemma TwiceEnds(c: Call)
    requires !c.noResp
    ensures forall i :: 0 <= i < 5 ==> Next(TwiceRun(c)[i], TwiceRun(c)[i + 1], TwiceSteps(c)[i])
  {
    var run, steps := TwiceRun(c), TwiceSteps(c);
    assert Next(run[0], run[1], steps[0]) && Next(run[1], run[2], steps[1]);
    assert run[2].cli.pending.Keys == {0};
    assert run[3].h.log[c.id] + [Ended] == [Ended];
    assert run[3].cli.reader.todo - {0} == {};
    assert EndOne(run[3], run[4], 0);
    assert Next(run[4], run[5], steps[4]);
  }

  lemma TwiceGives(c: Call)
    requires !c.noResp
    ensures forall i :: 5 <= i < 8 ==> Next(TwiceRun(c)[i], TwiceRun(c)[i + 1], TwiceSteps(c)[i])
  {
    var run, steps := TwiceRun(c), TwiceSteps(c);
    assert Next(run[5], run[6], steps[5]) && Next(run[6], run[7], steps[6]);
    assert run[7].h.log[c.id] + [SendFailed] == [Ended, SendFailed];
    assert GiveBack(run[7], run[8], 0);
  }
}
