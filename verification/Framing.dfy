/**
 Length-prefixed frames of an RPC connection: writing, reading, truncation, and header/body pairs as
 the server's and the client's loops and the concurrent writers use them.
 */
module Framing {
  import opened Options
  import opened Bits

  type byte = x: int | 0 <= x < 256
  type Bytes = seq<byte>

  const LIMIT: int := 0x4000_0000 // tooBig: 1 << 30

  // ------------------------------------------------------------------------------------
  // One frame
  // ------------------------------------------------------------------------------------

  function Be32(n: int): (r: Bytes)
    requires 0 <= n < 0x1_0000_0000
    ensures |r| == 4
  {
    [n / 0x100_0000, n / 0x1_0000 % 256, n / 256 % 256, n % 256]
  }

  function Uint32(b: Bytes): (r: nat)
    requires |b| == 4
    ensures r < 0x1_0000_0000
  {
    b[0] as int * 0x100_0000 + b[1] as int * 0x1_0000 + b[2] as int * 256 + b[3]
  }

  lemma Be32RoundTrip(n: int)
    requires 0 <= n < 0x1_0000_0000
    ensures Uint32(Be32(n)) == n
  {
    assert n / 256 == n / 0x1_0000 * 256 + n / 256 % 256;
    assert n / 0x1_0000 == n / 0x100_0000 * 256 + n / 0x1_0000 % 256;
  }

  /** A buffer that fits in a frame. */
  predicate Fits(buf: Bytes) {
    |buf| < LIMIT
  }

  function Framed(buf: Bytes): Bytes
    requires Fits(buf)
  {
    Be32(|buf|) + buf
  }

  datatype Read = Frame(bytes: Bytes) | Eof | UnexpectedEof | BadCount

  /** `io.ReadFull` of `n` bytes: the bytes, or the error for a stream that ends before or inside them. */
  function ReadFull(s: Bytes, n: nat): Read {
    if |s| >= n then Frame(s[..n]) else if s == [] then Eof else UnexpectedEof
  }

  /** `readFrame`: the result... */
  function ReadFrame(s: Bytes): Read {
    if ReadFull(s, 4).Frame? then
      var l := Uint32(s[..4]);
      if l >= LIMIT then BadCount else ReadFull(s[4..], l)
    else ReadFull(s, 4)
  }

  /** ...and what it leaves of the stream. */
  function Rest(s: Bytes): Bytes {
    if |s| < 4 then []
    else
      var l := Uint32(s[..4]);
      if l >= LIMIT then s[4..] else if |s| < 4 + l then [] else s[4 + l..]
  }

  class Buffer {
    var data: Bytes

    constructor ()
      ensures data == []
    {
      data := [];
    }

    /** `writeFrame`: a buffer of 2^30 bytes or more is refused and nothing is written. */
    method WriteFrame(buf: Bytes) returns (ok: bool)
      modifies this
      ensures ok == Fits(buf)
      ensures data == if Fits(buf) then old(data) + Framed(buf) else old(data)
    {
      if |buf| >= LIMIT {
        return false;
      }
      data := data + Be32(|buf|);
      data := data + buf;
      return true;
    }

    /** `readFrame` on the bytes still to come. */
    method Take() returns (r: Read)
      modifies this
      ensures r == ReadFrame(old(data)) && data == Rest(old(data))
    {
      if |data| < 4 {
        r := if data == [] then Eof else UnexpectedEof;
        data := [];
        return;
      }
      var l := Uint32(data[..4]);
      data := data[4..];
      if l >= LIMIT {
        return BadCount;
      }
      r := ReadFull(data, l);
      data := if |data| < l then [] else data[l..];
    }
  }

  /** What fits is less than 2^30 bytes. */
  lemma FitsExactly(buf: Bytes)
    ensures Fits(buf) <==> |buf| < Pow2(30)
  {
    assert Pow2(10) == 0x400;
    assert Pow2(20) == 0x10_0000;
    assert Pow2(30) == LIMIT;
  }

  /** A frame is the length in four bytes, most significant first, and then the buffer. */
  lemma FrameLayout(buf: Bytes)
    requires Fits(buf)
    ensures |Framed(buf)| == 4 + |buf| && Framed(buf)[4..] == buf
    ensures |buf| == Framed(buf)[0] as int * Pow2(24) + Framed(buf)[1] as int * Pow2(16)
                     + Framed(buf)[2] as int * Pow2(8) + Framed(buf)[3] as int
  {
    assert Pow2(8) == 0x100;
    assert Pow2(16) == 0x1_0000;
    assert Pow2(24) == 0x100_0000;
    var n := |buf|;
    assert n / 256 == n / 0x1_0000 * 256 + n / 256 % 256;
    assert n / 0x1_0000 == n / 0x100_0000 * 256 + n / 0x1_0000 % 256;
  }

  /** Reading inverts writing, whatever follows. */
  lemma ReadsBack(buf: Bytes, tail: Bytes)
    requires Fits(buf)
    ensures ReadFrame(Framed(buf) + tail) == Frame(buf) && Rest(Framed(buf) + tail) == tail
  {
    Be32RoundTrip(|buf|);
    var s := Framed(buf) + tail;
    assert s[..4] == Be32(|buf|);
    assert s[4..] == buf + tail;
  }

  /** A frame cut short is an error: plain EOF when the cut falls before it or right after its length,
      unexpected EOF anywhere else. */
  lemma CutShort(buf: Bytes, n: nat)
    requires Fits(buf) && n < |Framed(buf)|
    ensures ReadFrame(Framed(buf)[..n]) == (if n == 0 || n == 4 then Eof else UnexpectedEof)
    ensures Rest(Framed(buf)[..n]) == []
  {
    Be32RoundTrip(|buf|);
    var s := Framed(buf)[..n];
    if n >= 4 {
      assert s[..4] == Be32(|buf|);
      assert |s[4..]| == n - 4;
    }
  }

  // ------------------------------------------------------------------------------------
  // Streams of header/body pairs
  // ------------------------------------------------------------------------------------

  datatype Message = Message(header: Bytes, body: Bytes)

  predicate MessageFits(m: Message) {
    Fits(m.header) && Fits(m.body)
  }

  function Pair(m: Message): Bytes
    requires MessageFits(m)
  {
    Framed(m.header) + Framed(m.body)
  }

  ghost predicate AllFit(ms: seq<Message>) {
    forall m :: m in ms ==> MessageFits(m)
  }

  function Stream(ms: seq<Message>): Bytes
    requires AllFit(ms)
  {
    if ms == [] then [] else Pair(ms[0]) + Stream(ms[1..])
  }

  lemma {:induction false} StreamAppend(ms: seq<Message>, m: Message)
    requires AllFit(ms) && MessageFits(m)
    ensures Stream(ms + [m]) == Stream(ms) + Pair(m)
  {
    if ms != [] {
      StreamAppend(ms[1..], m);
      assert (ms + [m])[1..] == ms[1..] + [m];
    }
  }

  /** One turn of a reading loop: the header it read and what came of reading the body after it. */
  datatype Turn = Turn(header: Bytes, body: Read)

  function Turns(ms: seq<Message>): seq<Turn> {
    seq(|ms|, i requires 0 <= i < |ms| => Turn(ms[i].header, Frame(ms[i].body)))
  }

  /** The server's loop: it ends at a header it cannot read or decode; after that header it reads
      exactly one body frame, whether the method is found or not, and goes on whatever came of it. */
  function Serve(s: Bytes, decodes: Bytes -> bool): seq<Turn>
    decreases |s|
  {
    if !ReadFrame(s).Frame? || !decodes(ReadFrame(s).bytes) then []
    else [Turn(ReadFrame(s).bytes, ReadFrame(Rest(s)))] + Serve(Rest(Rest(s)), decodes)
  }

  /** The client's loop: as the server's, but it also ends at a body it cannot read or accept. */
  function Input(s: Bytes, decodes: Bytes -> bool, accepts: (Bytes, Bytes) -> bool): seq<Turn>
    decreases |s|
  {
    if !ReadFrame(s).Frame? || !decodes(ReadFrame(s).bytes) then []
    else
      var h, body := ReadFrame(s).bytes, ReadFrame(Rest(s));
      [Turn(h, body)] + if !body.Frame? || !accepts(h, body.bytes) then [] else Input(Rest(Rest(s)), decodes, accepts)
  }

  /** What the loop of `ServeCodec` hands out, branch by branch: `found` says whether a header names a
      known method, `valid` whether a body decodes as its argument. */
  datatype Served = Dispatch(header: Bytes, body: Bytes) | Refuse(header: Bytes)

  /** A turn is dispatched if its method is known and its body could be read and decoded, and refused
      otherwise. */
  ghost predicate HandledAs(t: Turn, x: Served, found: Bytes -> bool, valid: (Bytes, Bytes) -> bool) {
    match x
    case Dispatch(h, b) => h == t.header && t.body == Frame(b) && found(h) && valid(h, b)
    case Refuse(h) => h == t.header && !(found(h) && t.body.Frame? && valid(h, t.body.bytes))
  }

  /** `readRequest`, and what the loop then does with the result; `None` ends the loop. */
  method ReadRequest(conn: Buffer, decodes: Bytes -> bool, found: Bytes -> bool, valid: (Bytes, Bytes) -> bool)
      returns (out: Option<Served>, ghost turn: Turn)
    modifies conn
    ensures out.None? <==> !ReadFrame(old(conn.data)).Frame? || !decodes(ReadFrame(old(conn.data)).bytes)
    ensures out.None? ==> Serve(old(conn.data), decodes) == []
    ensures out.Some? ==> Serve(old(conn.data), decodes) == [turn] + Serve(conn.data, decodes)
    ensures out.Some? ==> conn.data == Rest(Rest(old(conn.data)))
    ensures out.Some? ==> turn == Turn(ReadFrame(old(conn.data)).bytes, ReadFrame(Rest(old(conn.data))))
    ensures out.Some? && found(turn.header) && turn.body.Frame? && valid(turn.header, turn.body.bytes) ==>
      out.value == Dispatch(turn.header, turn.body.bytes)
    ensures out.Some? && !(found(turn.header) && turn.body.Frame? && valid(turn.header, turn.body.bytes)) ==>
      out.value == Refuse(turn.header)
    ensures out.Some? ==> |conn.data| < |old(conn.data)|
  {
    turn := Turn([], Eof);
    var h := conn.Take();
    if !h.Frame? || !decodes(h.bytes) {
      return None, turn;
    }
    var body;
    if !found(h.bytes) {
      body := conn.Take();
      out := Some(Refuse(h.bytes));
    } else {
      body := conn.Take();
      if body.Frame? && valid(h.bytes, body.bytes) {
        out := Some(Dispatch(h.bytes, body.bytes));
      } else {
        out := Some(Refuse(h.bytes));
      }
    }
    turn := Turn(h.bytes, body);
  }

  method ServeCodec(conn: Buffer, decodes: Bytes -> bool, found: Bytes -> bool, valid: (Bytes, Bytes) -> bool)
      returns (out: seq<Served>)
    modifies conn
    ensures |out| == |Serve(old(conn.data), decodes)|
    ensures forall i :: 0 <= i < |out| ==> HandledAs(Serve(old(conn.data), decodes)[i], out[i], found, valid)
  {
    hide Serve;
    out := [];
    ghost var turns: seq<Turn> := [];
    while true
      invariant Serve(old(conn.data), decodes) == turns + Serve(conn.data, decodes)
      invariant |out| == |turns| && forall i :: 0 <= i < |out| ==> HandledAs(turns[i], out[i], found, valid)
      decreases |conn.data|
    {
      var next, turn := ReadRequest(conn, decodes, found, valid);
      if next.None? {
        return;
      }
      out := out + [next.value];
      turns := turns + [turn];
    }
  }

  /** What the client knows of a response from its header: no call is pending for it, it carries an
      error, or it carries a reply to be decoded or to be kept as bytes. */
  datatype Kind = Unwanted | ErrorReply | Encoded | RawBytes

  function Accepts(kind: Bytes -> Kind, valid: (Bytes, Bytes) -> bool): (Bytes, Bytes) -> bool {
    (h, b) => kind(h) == Encoded ==> valid(h, b)
  }

  /** One turn of the client's `input`: only a reply to be decoded can be refused, and then the loop ends. */
  method ReadResponse(conn: Buffer, decodes: Bytes -> bool, kind: Bytes -> Kind, valid: (Bytes, Bytes) -> bool)
      returns (more: bool, turn: Option<Turn>)
    modifies conn
    ensures turn.None? ==> !more && Input(old(conn.data), decodes, Accepts(kind, valid)) == []
    ensures turn.Some? <==> ReadFrame(old(conn.data)).Frame? && decodes(ReadFrame(old(conn.data)).bytes)
    ensures turn.Some? ==> turn.value == Turn(ReadFrame(old(conn.data)).bytes, ReadFrame(Rest(old(conn.data))))
    ensures turn.Some? ==>
      (more <==> turn.value.body.Frame? && Accepts(kind, valid)(turn.value.header, turn.value.body.bytes))
    ensures forall h, b :: Accepts(kind, valid)(h, b) <==> (kind(h) == Encoded ==> valid(h, b))
    ensures turn.Some? ==> conn.data == Rest(Rest(old(conn.data)))
    ensures turn.Some? ==>
      Input(old(conn.data), decodes, Accepts(kind, valid))
      == [turn.value] + if more then Input(conn.data, decodes, Accepts(kind, valid)) else []
  {
    var h := conn.Take();
    if !h.Frame? || !decodes(h.bytes) {
      return false, None;
    }
    var body := conn.Take();
    turn := Some(Turn(h.bytes, body));
    match kind(h.bytes) {
      case Unwanted => more := body.Frame?;
      case ErrorReply => more := body.Frame?;
      case RawBytes => more := body.Frame?;
      case Encoded => more := body.Frame? && valid(h.bytes, body.bytes);
    }
  }

  lemma StreamFirst(ms: seq<Message>, tail: Bytes)
    requires ms != [] && AllFit(ms)
    ensures Stream(ms) + tail == Pair(ms[0]) + (Stream(ms[1..]) + tail)
  {
    hide Pair;
  }

  lemma ServeOne(m: Message, tail: Bytes, decodes: Bytes -> bool)
    requires MessageFits(m) && decodes(m.header)
    ensures Serve(Pair(m) + tail, decodes) == [Turn(m.header, Frame(m.body))] + Serve(tail, decodes)
  {
    hide Pair, ReadFrame, Rest;
    PairReads(m, tail);
  }

  lemma InputOne(m: Message, tail: Bytes, decodes: Bytes -> bool, accepts: (Bytes, Bytes) -> bool)
    requires MessageFits(m) && decodes(m.header) && accepts(m.header, m.body)
    ensures Input(Pair(m) + tail, decodes, accepts) == [Turn(m.header, Frame(m.body))] + Input(tail, decodes, accepts)
  {
    hide Pair, ReadFrame, Rest;
    PairReads(m, tail);
  }

  /** In step over any stream of whole pairs followed by anything: every header is followed by its own
      body, on every branch. */
  lemma {:induction false} ServeInStep(ms: seq<Message>, tail: Bytes, decodes: Bytes -> bool)
    requires AllFit(ms) && forall m :: m in ms ==> decodes(m.header)
    ensures Serve(Stream(ms) + tail, decodes) == Turns(ms) + Serve(tail, decodes)
  {
    hide Pair, Serve, Input;
    if ms == [] {
      assert Stream(ms) + tail == tail;
    } else {
      var after := Stream(ms[1..]) + tail;
      ServeOne(ms[0], after, decodes);
      StreamFirst(ms, tail);
      ServeInStep(ms[1..], tail, decodes);
      assert Turns(ms) == [Turn(ms[0].header, Frame(ms[0].body))] + Turns(ms[1..]);
    }
  }

  lemma {:induction false} InputInStep(ms: seq<Message>, tail: Bytes, decodes: Bytes -> bool,
                                       accepts: (Bytes, Bytes) -> bool)
    requires AllFit(ms) && forall m :: m in ms ==> decodes(m.header) && accepts(m.header, m.body)
    ensures Input(Stream(ms) + tail, decodes, accepts) == Turns(ms) + Input(tail, decodes, accepts)
  {
    hide Pair, Serve, Input;
    if ms == [] {
      assert Stream(ms) + tail == tail;
    } else {
      var after := Stream(ms[1..]) + tail;
      InputOne(ms[0], after, decodes, accepts);
      StreamFirst(ms, tail);
      InputInStep(ms[1..], tail, decodes, accepts);
      assert Turns(ms) == [Turn(ms[0].header, Frame(ms[0].body))] + Turns(ms[1..]);
    }
  }

  /** Over a stream of whole pairs with decodable headers the loop handles each pair, in order, and hands
      it to a worker exactly if its method is known and its body valid. */
  lemma DispatchedExactly(ms: seq<Message>, out: seq<Served>, decodes: Bytes -> bool, found: Bytes -> bool,
                          valid: (Bytes, Bytes) -> bool, i: nat)
    requires AllFit(ms) && (forall m :: m in ms ==> decodes(m.header)) && i < |ms|
    requires |out| == |Serve(Stream(ms), decodes)|
    requires forall k :: 0 <= k < |out| ==> HandledAs(Serve(Stream(ms), decodes)[k], out[k], found, valid)
    ensures |out| == |ms|
    ensures out[i] == Dispatch(ms[i].header, ms[i].body) <==> found(ms[i].header) && valid(ms[i].header, ms[i].body)
    ensures out[i] == Refuse(ms[i].header) <==> !found(ms[i].header) || !valid(ms[i].header, ms[i].body)
  {
    hide Stream;
    assert ReadFrame([]) == Eof;
    assert Stream(ms) + [] == Stream(ms);
    ServeInStep(ms, [], decodes);
    assert Serve([], decodes) == [];
    assert Turns(ms) + [] == Turns(ms);
    assert HandledAs(Serve(Stream(ms), decodes)[i], out[i], found, valid);
  }

  lemma PairReads(m: Message, tail: Bytes)
    requires MessageFits(m)
    ensures var s := Pair(m) + tail;
      ReadFrame(s) == Frame(m.header) && ReadFrame(Rest(s)) == Frame(m.body) && Rest(Rest(s)) == tail
  {
    ReadsBack(m.header, Framed(m.body) + tail);
    ReadsBack(m.body, tail);
    assert Pair(m) + tail == Framed(m.header) + (Framed(m.body) + tail);
  }

  /** What is read of a pair cut after `n` bytes: nothing, or its header with an error for a body. */
  function CutTurns(m: Message, n: nat): seq<Turn>
    requires MessageFits(m)
  {
    if n < |Framed(m.header)| then []
    else [Turn(m.header, if n == |Framed(m.header)| || n == |Framed(m.header)| + 4 then Eof else UnexpectedEof)]
  }

  lemma CutPair(m: Message, n: nat, decodes: Bytes -> bool, accepts: (Bytes, Bytes) -> bool)
    requires MessageFits(m) && n < |Pair(m)| && decodes(m.header)
    ensures Serve(Pair(m)[..n], decodes) == CutTurns(m, n) && Input(Pair(m)[..n], decodes, accepts) == CutTurns(m, n)
  {
    var s, k := Pair(m)[..n], |Framed(m.header)|;
    assert ReadFrame([]) == Eof && Rest([]) == [];
    if n < k {
      assert s == Framed(m.header)[..n];
      CutShort(m.header, n);
    } else {
      assert s == Framed(m.header) + Framed(m.body)[..n - k];
      ReadsBack(m.header, Framed(m.body)[..n - k]);
      CutShort(m.body, n - k);
    }
  }

  /** A stream cut anywhere gives the whole pairs before the cut and then an error, never a wrong frame. */
  lemma TruncatedStream(ms: seq<Message>, m: Message, n: nat, decodes: Bytes -> bool, accepts: (Bytes, Bytes) -> bool)
    requires AllFit(ms) && MessageFits(m) && n < |Pair(m)|
    requires decodes(m.header) && forall x :: x in ms ==> decodes(x.header) && accepts(x.header, x.body)
    ensures Serve(Stream(ms) + Pair(m)[..n], decodes) == Turns(ms) + CutTurns(m, n)
    ensures Input(Stream(ms) + Pair(m)[..n], decodes, accepts) == Turns(ms) + CutTurns(m, n)
  {
    ServeInStep(ms, Pair(m)[..n], decodes);
    InputInStep(ms, Pair(m)[..n], decodes, accepts);
    CutPair(m, n, decodes, accepts);
  }

  // ------------------------------------------------------------------------------------
  // Concurrent writers
  // ------------------------------------------------------------------------------------

  /** A writer: encoding, waiting for the codec's mutex with its pair encoded, pushing the pair out in
      pieces under the mutex, or finished; `Failed` when the pair did not fit or the connection broke. */
  datatype Writer = Encoding | Ready(m: Message) | Pushing(m: Message, sent: nat) | Written | Failed

  /** `broken`: a write has failed; the buffered writer then refuses every later write. */
  datatype Link = Link(out: Bytes, writers: map<nat, Writer>, lock: Option<nat>, broken: bool, order: seq<Message>)

  datatype Move = Encode(w: nat, m: Message) | Lock(w: nat) | Push(w: nat, n: nat) | Break(w: nat)

  ghost predicate LinkNext(l: Link, l': Link, move: Move) {
    && move.w in l.writers
    && var w := move.w; var at := l.writers[w];
       match move
       case Encode(_, m) =>
         at.Encoding? && l' == l.(writers := l.writers[w := if MessageFits(m) then Ready(m) else Failed])
       case Lock(_) =>
         && at.Ready? && l.lock.None?
         && l' == (if l.broken then l.(writers := l.writers[w := Failed])
                   else l.(writers := l.writers[w := Pushing(at.m, 0)], lock := Some(w)))
       case Push(_, n) =>
         && at.Pushing? && MessageFits(at.m) && at.sent <= n <= |Pair(at.m)|
         && l' == if n == |Pair(at.m)| then
                    l.(out := l.out + Pair(at.m)[at.sent..n], writers := l.writers[w := Written], lock := None,
                       order := l.order + [at.m])
                  else
                    l.(out := l.out + Pair(at.m)[at.sent..n], writers := l.writers[w := Pushing(at.m, n)])
       case Break(_) => at.Pushing? && l' == l.(writers := l.writers[w := Failed], lock := None, broken := true)
  }

  /** The stream so far: whole pairs, then a part of the pair being pushed or of the one that broke. */
  ghost predicate LinkOk(l: Link, m: Message, n: nat) {
    && AllFit(l.order) && MessageFits(m) && n < |Pair(m)|
    && l.out == Stream(l.order) + Pair(m)[..n]
    && (forall w :: w in l.writers && l.writers[w].Ready? ==> MessageFits(l.writers[w].m))
    && (forall w :: w in l.writers && l.writers[w].Pushing? ==> l.lock == Some(w))
    && (l.lock.Some? ==> l.lock.value in l.writers && l.writers[l.lock.value] == Pushing(m, n) && !l.broken)
    && (l.lock.None? && !l.broken ==> n == 0)
  }

  lemma Pushed(order: seq<Message>, m: Message, n: nat, k: nat)
    requires AllFit(order) && MessageFits(m) && n <= k <= |Pair(m)|
    ensures Stream(order) + Pair(m)[..n] + Pair(m)[n..k] == Stream(order) + Pair(m)[..k]
    ensures k == |Pair(m)| ==> Stream(order) + Pair(m)[..k] == Stream(order + [m]) + Pair(m)[..0]
  {
    StreamAppend(order, m);
    hide Pair, Stream;
    assert Pair(m)[..k] == Pair(m)[..n] + Pair(m)[n..k];
    assert k == |Pair(m)| ==> Pair(m)[..k] == Pair(m);
  }

  lemma PushOk(l: Link, l': Link, w: nat, k: nat, m: Message, n: nat)
    requires LinkOk(l, m, n) && LinkNext(l, l', Push(w, k))
    ensures LinkOk(l', m, if k == |Pair(m)| then 0 else k)
  {
    assert l.writers[w] == Pushing(m, n);
    Pushed(l.order, m, n, k);
    assert |Pair(m)| > 0;
    hide Pair, Stream;
  }

  lemma LinkStep(l: Link, l': Link, move: Move, m: Message, n: nat) returns (m': Message, n': nat)
    requires LinkOk(l, m, n) && LinkNext(l, l', move)
    ensures LinkOk(l', m', n')
  {
    m', n' := m, n;
    match move
    case Push(w, k) =>
      PushOk(l, l', w, k, m, n);
      n' := if k == |Pair(m)| then 0 else k;
    case Lock(w) =>
      if !l.broken {
        m', n' := l.writers[w].m, 0;
        assert Pair(m)[..0] == Pair(m')[..0];
      }
    case Encode(w, x) =>
    case Break(w) =>
  }

  ghost predicate IsLinkRun(run: seq<Link>, moves: seq<Move>) {
    && |run| == |moves| + 1 && run[0].out == [] && run[0].order == [] && !run[0].broken && run[0].lock.None?
    && (forall w :: w in run[0].writers ==> run[0].writers[w].Encoding?)
    && forall i {:trigger moves[i]} :: 0 <= i < |moves| ==> LinkNext(run[i], run[i + 1], moves[i])
  }

  /** However writers interleave, and wherever the connection breaks, the stream is a concatenation of
      whole pairs, followed at most by a part of one more. */
  lemma {:induction false} WholePairs(run: seq<Link>, moves: seq<Move>, i: nat) returns (m: Message, n: nat)
    requires IsLinkRun(run, moves) && i < |run|
    ensures LinkOk(run[i], m, n)
  {
    if i == 0 {
      m, n := Message([], []), 0;
    } else {
      m, n := WholePairs(run, moves, i - 1);
      assert LinkNext(run[i - 1], run[i], moves[i - 1]);
      m, n := LinkStep(run[i - 1], run[i], moves[i - 1], m, n);
    }
  }

  /** The messages up to the first whose header does not decode. */
  function Readable(ms: seq<Message>, decodes: Bytes -> bool): seq<Message> {
    if ms == [] || !decodes(ms[0].header) then [] else [ms[0]] + Readable(ms[1..], decodes)
  }

  lemma ServeStops(m: Message, tail: Bytes, decodes: Bytes -> bool)
    requires MessageFits(m) && !decodes(m.header)
    ensures Serve(Pair(m) + tail, decodes) == []
  {
    hide Pair, ReadFrame, Rest;
    PairReads(m, tail);
  }

  /** The server's loop over any pairs and any decoder: it stops at the first header that does not decode. */
  lemma {:induction false} ServeUntil(ms: seq<Message>, tail: Bytes, decodes: Bytes -> bool)
    requires AllFit(ms)
    ensures Readable(ms, decodes) == ms ==> Serve(Stream(ms) + tail, decodes) == Turns(ms) + Serve(tail, decodes)
    ensures Readable(ms, decodes) != ms ==> Serve(Stream(ms) + tail, decodes) == Turns(Readable(ms, decodes))
  {
    hide Pair, Serve;
    if ms == [] {
      assert Stream(ms) + tail == tail;
    } else {
      var m, rest, after := ms[0], ms[1..], Stream(ms[1..]) + tail;
      StreamFirst(ms, tail);
      assert ms == [m] + rest;
      if decodes(m.header) {
        ServeOne(m, after, decodes);
        ServeUntil(rest, tail, decodes);
        TurnsFirst(m, rest);
        TurnsFirst(m, Readable(rest, decodes));
      } else {
        ServeStops(m, after, decodes);
      }
    }
  }

  lemma TurnsFirst(m: Message, ms: seq<Message>)
    ensures Turns([m] + ms) == [Turn(m.header, Frame(m.body))] + Turns(ms)
  {
  }

  lemma CutStops(m: Message, n: nat, decodes: Bytes -> bool)
    requires MessageFits(m) && n < |Pair(m)| && !decodes(m.header)
    ensures Serve(Pair(m)[..n], decodes) == []
  {
    var s, k := Pair(m)[..n], |Framed(m.header)|;
    if n < k {
      assert s == Framed(m.header)[..n];
      CutShort(m.header, n);
    } else {
      assert s == Framed(m.header) + Framed(m.body)[..n - k];
      ReadsBack(m.header, Framed(m.body)[..n - k]);
    }
  }

  /** So the server, with any decoder, reads exactly the pairs written so far, in the order of the mutex,
      up to the first header it cannot decode; after all of them perhaps the header of the pair being
      pushed, or of the one that broke, with an error for its body. */
  lemma ReaderSeesWhatWasWritten(run: seq<Link>, moves: seq<Move>, i: nat, decodes: Bytes -> bool)
      returns (m: Message, n: nat)
    requires IsLinkRun(run, moves) && i < |run|
    ensures LinkOk(run[i], m, n)
    ensures var order := run[i].order;
      Serve(run[i].out, decodes)
      == Turns(Readable(order, decodes))
         + if Readable(order, decodes) == order && decodes(m.header) then CutTurns(m, n) else []
  {
    m, n := WholePairs(run, moves, i);
    var order := run[i].order;
    ServeUntil(order, Pair(m)[..n], decodes);
    if decodes(m.header) {
      CutPair(m, n, decodes, (h, b) => true);
    } else {
      CutStops(m, n, decodes);
    }
  }

  /** The pairs the client's loop reads: up to the first header that does not decode, and up to and
      including the first body it does not accept. */
  function Taken(ms: seq<Message>, decodes: Bytes -> bool, accepts: (Bytes, Bytes) -> bool): seq<Message> {
    if ms == [] || !decodes(ms[0].header) then []
    else [ms[0]] + if accepts(ms[0].header, ms[0].body) then Taken(ms[1..], decodes, accepts) else []
  }

  ghost predicate AllGood(ms: seq<Message>, decodes: Bytes -> bool, accepts: (Bytes, Bytes) -> bool) {
    forall m :: m in ms ==> decodes(m.header) && accepts(m.header, m.body)
  }

  lemma InputStops(m: Message, tail: Bytes, decodes: Bytes -> bool, accepts: (Bytes, Bytes) -> bool)
    requires MessageFits(m) && !(decodes(m.header) && accepts(m.header, m.body))
    ensures Input(Pair(m) + tail, decodes, accepts)
      == if decodes(m.header) then [Turn(m.header, Frame(m.body))] else []
  {
    hide Pair, ReadFrame, Rest;
    PairReads(m, tail);
  }

  lemma GoodFirst(m: Message, ms: seq<Message>, decodes: Bytes -> bool, accepts: (Bytes, Bytes) -> bool)
    ensures AllGood([m] + ms, decodes, accepts) <==>
      decodes(m.header) && accepts(m.header, m.body) && AllGood(ms, decodes, accepts)
  {
    assert m in [m] + ms;
  }

  lemma NoneGood(decodes: Bytes -> bool, accepts: (Bytes, Bytes) -> bool)
    ensures AllGood([], decodes, accepts) && Turns([]) == []
  {
  }

  /** The client's loop over any pairs, any decoder and any verdict on bodies. */
  lemma {:induction false} InputUntil(ms: seq<Message>, tail: Bytes, decodes: Bytes -> bool,
                                      accepts: (Bytes, Bytes) -> bool)
    requires AllFit(ms)
    ensures Input(Stream(ms) + tail, decodes, accepts)
      == Turns(Taken(ms, decodes, accepts))
         + if AllGood(ms, decodes, accepts) then Input(tail, decodes, accepts) else []
  {
    hide Pair, Input, AllGood, Turns;
    NoneGood(decodes, accepts);
    if ms == [] {
      assert Stream(ms) + tail == tail;
    } else {
      var m, rest, after := ms[0], ms[1..], Stream(ms[1..]) + tail;
      StreamFirst(ms, tail);
      assert ms == [m] + rest;
      if decodes(m.header) && accepts(m.header, m.body) {
        InputOne(m, after, decodes, accepts);
        InputUntil(rest, tail, decodes, accepts);
        TurnsFirst(m, Taken(rest, decodes, accepts));
        GoodFirst(m, rest, decodes, accepts);
      } else {
        InputStops(m, after, decodes, accepts);
        TurnsFirst(m, []);
        GoodFirst(m, rest, decodes, accepts);
      }
    }
  }

  /** The client reads what was written in the same way. */
  lemma ClientSeesWhatWasWritten(run: seq<Link>, moves: seq<Move>, i: nat, decodes: Bytes -> bool,
                                 accepts: (Bytes, Bytes) -> bool) returns (m: Message, n: nat)
    requires IsLinkRun(run, moves) && i < |run|
    ensures LinkOk(run[i], m, n)
    ensures var order := run[i].order;
      Input(run[i].out, decodes, accepts)
      == Turns(Taken(order, decodes, accepts))
         + if AllGood(order, decodes, accepts) && decodes(m.header) then CutTurns(m, n) else []
  {
    m, n := WholePairs(run, moves, i);
    InputUntil(run[i].order, Pair(m)[..n], decodes, accepts);
    if decodes(m.header) {
      CutPair(m, n, decodes, accepts);
    } else {
      CutStops(m, n, decodes);
      InputCutStops(m, n, decodes, accepts);
    }
  }

  lemma InputCutStops(m: Message, n: nat, decodes: Bytes -> bool, accepts: (Bytes, Bytes) -> bool)
    requires MessageFits(m) && n < |Pair(m)| && !decodes(m.header) && Serve(Pair(m)[..n], decodes) == []
    ensures Input(Pair(m)[..n], decodes, accepts) == []
  {
  }
}
