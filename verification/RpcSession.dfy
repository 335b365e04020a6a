/**
 One RPC connection: the client's senders, reader and Close, the byte streams in both directions as
 sequences of whole messages, and the server's reader and workers.  A step is one critical section
 of the client's mutex, one write, one read, or one completion of a call; steps of different threads
 interleave freely, writes and reads may fail at any time, and a failing write may or may not have
 delivered its request.
 */
module RpcSession {
  import opened Options

  type Payload(==, !new)

  /** A `CallInfo` as handed to `send`; `id` is its identity. */
  datatype Call = Call(id: nat, serviceMethod: string, args: Payload, raw: int, noResp: bool)

  datatype Request = Request(seqNo: nat, serviceMethod: string, args: Payload, raw: int, noResp: bool)

  datatype Response = Response(seqNo: nat, ret: int, error: string, body: Option<Payload>)

  /** WriteRequest copies NoResp to the wire; WriteByteRequest, used for raw and JSON calls, does not. */
  function RequestOf(q: nat, c: Call): Request {
    Request(q, c.serviceMethod, c.args, c.raw, c.noResp && c.raw == 0)
  }

  /** What came of a request at the server: refused with a message, or a handler that panicked or
      returned; an empty message stands for no error. */
  datatype Outcome = Rejected(reason: string) | Panicked | Returned(ret: int, message: string, reply: Payload)

  /** The response sent for an outcome: a reply travels only without an error message. */
  function Answer(q: nat, o: Outcome): Response {
    match o
    case Rejected(reason) => Response(q, 0, reason, None)
    case Panicked => Response(q, 1, "server exception", None)
    case Returned(ret, message, reply) => Response(q, ret, message, if message == "" then Some(reply) else None)
  }

  /** How a call was completed. */
  datatype Completion =
    | Refused                                 // the connection was shut down or closing
    | SendFailed                              // its request could not be written
    | Ended                                   // the reader stopped while it was pending
    | ByResponse(resp: Response, read: bool)  // a response; `read`: its body was read

  /** Where a sender is after registering: about to write, about to clean up after a failed write, or
      about to complete the call it took back. */
  datatype Sender = Writing | Cleaning | Giving(call: Call)

  /** The reader: at a header, past a header, past the pending table with the call it took, past an
      error, or ending the calls in `todo` under the mutex. */
  datatype Reader =
    | Reading
    | Header(resp: Response)
    | Holding(resp: Response, call: Option<Call>)
    | Failing
    | Ending(todo: set<nat>)
    | Stopped

  datatype Client = Client(nextSeq: nat, pending: map<nat, Call>, closing: bool, shutdown: bool,
                           senders: map<nat, Sender>, reader: Reader)

  /** Everything written in each direction, and how much of it has been read. */
  datatype Wire = Wire(requests: seq<Request>, taken: nat, responses: seq<Response>, got: nat)

  /** Requests being served, responses not yet written, and what came of each request. */
  datatype Server = Server(working: map<nat, Request>, answering: map<nat, Response>, outcomes: map<nat, Outcome>)

  /** History: the call given each sequence number and back, the completions of each call, and where
      the request and the response with a sequence number are in their streams. */
  datatype History = History(sent: map<nat, Call>, seqOf: map<nat, nat>, log: map<nat, seq<Completion>>,
                             requestAt: map<nat, nat>, responseAt: map<nat, nat>)

  datatype Sys = Sys(cli: Client, wire: Wire, srv: Server, h: History)

  ghost predicate Init(s: Sys) {
    && s.cli == Client(0, map[], false, false, map[], Reading)
    && s.wire == Wire([], 0, [], 0) && s.srv == Server(map[], map[], map[])
    && s.h == History(map[], map[], map[], map[], map[])
  }

  /** The client's mutex is free: only the reader holds it for more than one step. */
  predicate Unlocked(cli: Client) {
    !cli.reader.Ending?
  }

  // ------------------------------------------------------------------------------------
  // Client: send
  // ------------------------------------------------------------------------------------

  ghost predicate Refuse(s: Sys, s': Sys, c: Call) {
    && Unlocked(s.cli) && c.id !in s.h.log && (s.cli.shutdown || s.cli.closing)
    && s' == s.(h := s.h.(log := s.h.log[c.id := [Refused]]))
  }

  ghost predicate Register(s: Sys, s': Sys, c: Call) {
    && Unlocked(s.cli) && c.id !in s.h.log && !s.cli.shutdown && !s.cli.closing
    && var q := s.cli.nextSeq;
       s' == s.(cli := s.cli.(nextSeq := q + 1, senders := s.cli.senders[q := Writing],
                              pending := if c.noResp then s.cli.pending else s.cli.pending[q := c]),
                h := s.h.(sent := s.h.sent[q := c], seqOf := s.h.seqOf[c.id := q], log := s.h.log[c.id := []]))
  }

  ghost predicate Write(s: Sys, s': Sys, q: nat, delivered: bool, failed: bool) {
    && q in s.cli.senders && s.cli.senders[q] == Writing && q in s.h.sent
    && (failed || delivered)
    && s'.cli == s.cli.(senders := if failed && !s.h.sent[q].noResp then s.cli.senders[q := Cleaning]
                                   else s.cli.senders - {q})
    && s'.srv == s.srv
    && s'.wire == (if delivered then s.wire.(requests := s.wire.requests + [RequestOf(q, s.h.sent[q])]) else s.wire)
    && s'.h == (if delivered then s.h.(requestAt := s.h.requestAt[q := |s.wire.requests|]) else s.h)
  }

  /** After a failed write: take the call back if it is still pending. */
  ghost predicate Cleanup(s: Sys, s': Sys, q: nat) {
    && Unlocked(s.cli) && q in s.cli.senders && s.cli.senders[q] == Cleaning
    && s' == s.(cli := if q in s.cli.pending
                       then s.cli.(senders := s.cli.senders[q := Giving(s.cli.pending[q])],
                                   pending := s.cli.pending - {q})
                       else s.cli.(senders := s.cli.senders - {q}))
  }

  ghost predicate Complete(s: Sys, s': Sys, cli': Client, c: Call, how: Completion) {
    && c.id in s.h.log
    && s' == s.(cli := cli', h := s.h.(log := s.h.log[c.id := s.h.log[c.id] + [how]]))
  }

  ghost predicate GiveBack(s: Sys, s': Sys, q: nat) {
    && q in s.cli.senders && s.cli.senders[q].Giving?
    && Complete(s, s', s.cli.(senders := s.cli.senders - {q}), s.cli.senders[q].call, SendFailed)
  }

  ghost predicate Close(s: Sys, s': Sys) {
    Unlocked(s.cli) && s' == s.(cli := s.cli.(closing := true))
  }

  // ------------------------------------------------------------------------------------
  // Client: input
  // ------------------------------------------------------------------------------------

  ghost predicate ReadHeader(s: Sys, s': Sys) {
    && s.cli.reader.Reading? && s.wire.got < |s.wire.responses|
    && s' == s.(cli := s.cli.(reader := Header(s.wire.responses[s.wire.got])), wire := s.wire.(got := s.wire.got + 1))
  }

  ghost predicate ReadFails(s: Sys, s': Sys) {
    s.cli.reader.Reading? && s' == s.(cli := s.cli.(reader := Failing))
  }

  ghost predicate Take(s: Sys, s': Sys) {
    && s.cli.reader.Header?
    && var q := s.cli.reader.resp.seqNo;
       s' == s.(cli := s.cli.(pending := s.cli.pending - {q},
                              reader := Holding(s.cli.reader.resp,
                                                if q in s.cli.pending then Some(s.cli.pending[q]) else None)))
  }

  /** Read the body, and complete the call if there is one. */
  ghost predicate Body(s: Sys, s': Sys, read: bool) {
    && s.cli.reader.Holding?
    && var cli' := s.cli.(reader := if read then Reading else Failing);
       if s.cli.reader.call.None? then s' == s.(cli := cli')
       else Complete(s, s', cli', s.cli.reader.call.value, ByResponse(s.cli.reader.resp, read))
  }

  ghost predicate BeginEnd(s: Sys, s': Sys) {
    s.cli.reader.Failing? && s' == s.(cli := s.cli.(shutdown := true, reader := Ending(s.cli.pending.Keys)))
  }

  /** End one pending call; it stays in the table. */
  ghost predicate EndOne(s: Sys, s': Sys, q: nat) {
    && s.cli.reader.Ending? && q in s.cli.reader.todo && q in s.cli.pending
    && Complete(s, s', s.cli.(reader := Ending(s.cli.reader.todo - {q})), s.cli.pending[q], Ended)
  }

  ghost predicate EndAll(s: Sys, s': Sys) {
    s.cli.reader == Ending({}) && s' == s.(cli := s.cli.(reader := Stopped))
  }

  // ------------------------------------------------------------------------------------
  // Server
  // ------------------------------------------------------------------------------------

  /** A request is read and submitted to a worker... */
  ghost predicate Accept(s: Sys, s': Sys) {
    && s.wire.taken < |s.wire.requests|
    && var r := s.wire.requests[s.wire.taken];
       s' == s.(wire := s.wire.(taken := s.wire.taken + 1), srv := s.srv.(working := s.srv.working[r.seqNo := r]))
  }

  /** The server's part of settling a request: note what came of it and, if wanted, answer. */
  function Settle(srv: Server, r: Request, o: Outcome): Server {
    srv.(outcomes := srv.outcomes[r.seqNo := o],
         answering := if r.noResp then srv.answering else srv.answering[r.seqNo := Answer(r.seqNo, o)])
  }

  /** ...or is refused: no such service or method, or a body that cannot be decoded. */
  ghost predicate Reject(s: Sys, s': Sys, reason: string) {
    && s.wire.taken < |s.wire.requests| && reason != ""
    && s' == s.(wire := s.wire.(taken := s.wire.taken + 1),
                srv := Settle(s.srv, s.wire.requests[s.wire.taken], Rejected(reason)))
  }

  /** A worker is done, in whatever order. */
  ghost predicate Finish(s: Sys, s': Sys, q: nat, o: Outcome) {
    && q in s.srv.working && !o.Rejected?
    && s' == s.(srv := Settle(s.srv.(working := s.srv.working - {q}), s.srv.working[q], o))
  }

  ghost predicate Respond(s: Sys, s': Sys, q: nat, written: bool) {
    && q in s.srv.answering
    && s'.cli == s.cli && s'.srv == s.srv.(answering := s.srv.answering - {q})
    && s'.wire == (if written then s.wire.(responses := s.wire.responses + [s.srv.answering[q]]) else s.wire)
    && s'.h == (if written then s.h.(responseAt := s.h.responseAt[q := |s.wire.responses|]) else s.h)
  }

  // ------------------------------------------------------------------------------------
  // Runs
  // ------------------------------------------------------------------------------------

  datatype Step =
    | DoRefuse(c: Call) | DoRegister(c: Call) | DoWrite(q: nat, delivered: bool, failed: bool) | DoCleanup(q: nat)
    | DoGiveBack(q: nat) | DoClose | DoReadHeader | DoReadFails | DoTake | DoBody(read: bool) | DoBeginEnd
    | DoEndOne(q: nat) | DoEndAll | DoAccept | DoReject(reason: string) | DoFinish(q: nat, outcome: Outcome)
    | DoRespond(q: nat, written: bool)

  ghost predicate Next(s: Sys, s': Sys, step: Step) {
    match step
    case DoRefuse(c) => Refuse(s, s', c)
    case DoRegister(c) => Register(s, s', c)
    case DoWrite(q, delivered, failed) => Write(s, s', q, delivered, failed)
    case DoCleanup(q) => Cleanup(s, s', q)
    case DoGiveBack(q) => GiveBack(s, s', q)
    case DoClose => Close(s, s')
    case DoReadHeader => ReadHeader(s, s')
    case DoReadFails => ReadFails(s, s')
    case DoTake => Take(s, s')
    case DoBody(read) => Body(s, s', read)
    case DoBeginEnd => BeginEnd(s, s')
    case DoEndOne(q) => EndOne(s, s', q)
    case DoEndAll => EndAll(s, s')
    case DoAccept => Accept(s, s')
    case DoReject(reason) => Reject(s, s', reason)
    case DoFinish(q, o) => Finish(s, s', q, o)
    case DoRespond(q, written) => Respond(s, s', q, written)
  }

  ghost predicate IsRun(run: seq<Sys>, steps: seq<Step>) {
    && |run| == |steps| + 1 && Init(run[0])
    && forall i {:trigger steps[i]} :: 0 <= i < |steps| ==> Next(run[i], run[i + 1], steps[i])
  }
}
