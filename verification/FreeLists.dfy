/**
 The server's free lists of request and response objects: intrusive linked lists, and who holds which
 object while requests are read, served and answered.
 */
module FreeLists {
  import opened Options

  /** A pooled object: its fields and the link that chains it while it is free. */
  class Item<T> {
    var value: T
    var next: Item?<T>

    constructor (value: T)
      ensures this.value == value && next == null
    {
      this.value, next := value, null;
    }
  }

  class FreeList<T> {
    var head: Item?<T>
    const zero: T
    ghost var free: seq<Item<T>>
    ghost var used: set<Item<T>>

    constructor (zero: T)
      ensures Valid() && free == [] && used == {} && this.zero == zero
    {
      this.zero := zero;
      head, free, used := null, [], {};
    }

    /** The links run through `free` once and end: no cycle, nothing twice, nothing that is in use. */
    ghost predicate Valid()
      reads this, free
    {
      && head == Link(0)
      && (forall i :: 0 <= i < |free| ==> free[i].next == Link(i + 1))
      && (forall i, j :: 0 <= i < j < |free| ==> free[i] != free[j])
      && (forall i :: 0 <= i < |free| ==> free[i] !in used)
    }

    ghost function Link(i: nat): Item?<T>
      reads this
    {
      if i < |free| then free[i] else null
    }

    /** getRequest, getResponse: the object is nobody else's and carries nothing from an earlier use. */
    method Get() returns (x: Item<T>)
      requires Valid()
      modifies this, free
      ensures Valid() && x !in old(used) && used == old(used) + {x}
      ensures fresh(x) || x in old(free)
      ensures x.value == zero && x.next == null
      ensures free == if old(free) == [] then [] else old(free)[1..]
    {
      if head == null {
        x := new Item(zero);
      } else {
        x := head;
        head := x.next;
        x.value, x.next := zero, null;
        free := free[1..];
      }
      used := used + {x};
    }

    /** freeRequest, freeResponse: only an object in use can be given back, and then it no longer is. */
    method Free(x: Item<T>)
      requires Valid() && x in used
      modifies this, x
      ensures Valid() && used == old(used) - {x} && free == [x] + old(free) && x.value == old(x.value)
    {
      x.next := head;
      head := x;
      free := [x] + free;
      used := used - {x};
    }
  }

  // ------------------------------------------------------------------------------------
  // The server
  // ------------------------------------------------------------------------------------

  type Conn(==, !new)

  datatype Request = Request(serviceMethod: string, seqNo: nat, noResp: bool, raw: int, conn: Option<Conn>)

  datatype Response = Response(serviceMethod: string, seqNo: nat, error: string, ret: int, raw: int)

  const NoRequest := Request("", 0, false, 0, None)
  const NoResponse := Response("", 0, "", 0, 0)

  /** What reading the next request comes to. */
  datatype Incoming =
    | HeaderError                                      // no header: the loop ends
    | Unusable(header: Request, reason: string)        // unknown method, or a body that does not decode
    | Usable(header: Request)

  class Server {
    const requests: FreeList<Request>
    const responses: FreeList<Response>
    var working: set<Item<Request>>      // requests held by submitted workers
    ghost var lost: set<Item<Request>>   // got for a header that never came, and dropped
    var written: seq<Response>

    constructor ()
      ensures Valid() && working == {} && lost == {} && written == []
      ensures fresh(requests) && fresh(responses)
    {
      requests := new FreeList(NoRequest);
      responses := new FreeList(NoResponse);
      working, lost, written := {}, {}, [];
    }

    /** The objects in use are exactly those of the workers and those dropped. */
    ghost predicate Valid()
      reads this, requests, responses, requests.free, responses.free
    {
      && requests.Valid() && responses.Valid() && requests.zero == NoRequest && responses.zero == NoResponse
      && requests.used == working + lost && working !! lost && responses.used == {}
    }

    /** ReadRequestHeader: every field is set from the wire but the context, which may be absent. */
    method Fill(x: Item<Request>, header: Request)
      modifies x
      ensures x.value == header.(conn := if header.conn.Some? then header.conn else old(x.value).conn)
      ensures x.next == old(x.next)
    {
      x.value := x.value.(serviceMethod := header.serviceMethod, seqNo := header.seqNo);
      x.value := x.value.(noResp := header.noResp, raw := header.raw);
      if header.conn.Some? {
        x.value := x.value.(conn := header.conn);
      }
    }

    /** A request object holding exactly the header that was read. */
    method GetFilled(header: Request) returns (x: Item<Request>)
      requires Valid()
      modifies requests, requests.free
      ensures requests.Valid() && x !in old(requests.used) && requests.used == old(requests.used) + {x}
      ensures x.value == header
      ensures x in old(requests.free) || fresh(x)
    {
      x := requests.Get();
      Fill(x, header);
    }

    /** Answer a request unless it is one-way, and give it back. */
    method Settle(x: Item<Request>, ret: int, errmsg: string)
      requires requests.Valid() && responses.Valid() && responses.zero == NoResponse && x in requests.used
      modifies requests, responses, responses.free, x, `written
      ensures requests.Valid() && responses.Valid() && responses.used == old(responses.used)
      ensures requests.used == old(requests.used) - {x} && requests.free == [x] + old(requests.free)
      ensures written == old(written) + if old(x.value).noResp then [] else [Answer(old(x.value), ret, errmsg)]
      ensures x.value == old(x.value)
    {
      if !x.value.noResp {
        SendResponse(x, ret, errmsg);
      }
      requests.Free(x);
    }

    /** A request that cannot be served: answer it unless it is one-way, and give it back at once. */
    method TurnDown(header: Request, reason: string) returns (x: Item<Request>)
      requires Valid()
      modifies requests, responses, requests.free, responses.free, `written
      ensures Valid() && x !in old(working) && x !in old(lost) && x in requests.free
      ensures written == old(written) + if header.noResp then [] else [Answer(header, 0, reason)]
      ensures forall y :: y in working ==> y.value == old(y.value)
    {
      x := GetFilled(header);
      Settle(x, 0, reason);
    }

    /** A request that goes to a worker. */
    method HandOn(header: Request) returns (x: Item<Request>)
      requires Valid()
      modifies requests, requests.free, `working
      ensures Valid() && x !in old(working) && x !in lost && x.value == header && working == old(working) + {x}
      ensures forall y :: y in old(working) ==> y.value == old(y.value)
    {
      x := GetFilled(header);
      working := working + {x};
    }

    /** The header could not be read: the object got for it is forgotten. */
    method Drop() returns (x: Item<Request>)
      requires Valid()
      modifies requests, requests.free, `lost
      ensures Valid() && x !in working && x !in old(lost) && lost == old(lost) + {x}
      ensures forall y :: y in working ==> y.value == old(y.value)
    {
      x := requests.Get();
      lost := lost + {x};
    }

    /** One turn of ServeCodec.  A request handed to a worker is exactly what was on the wire; one that
        is not handed on is given back, after its error response; one whose header failed is dropped. */
    method ServeTurn(incoming: Incoming) returns (more: bool, x: Item<Request>)
      requires Valid()
      modifies this, requests, responses, requests.free, responses.free
      ensures Valid() && more == !incoming.HeaderError?
      ensures x !in old(working) && x !in old(lost)
      ensures incoming.HeaderError? ==> lost == old(lost) + {x} && working == old(working) && written == old(written)
      ensures incoming.Unusable? ==> working == old(working) && lost == old(lost) && x in requests.free
      ensures incoming.Unusable? ==>
        written == old(written) + if incoming.header.noResp then [] else [Answer(incoming.header, 0, incoming.reason)]
      ensures incoming.Usable? ==> x.value == incoming.header && working == old(working) + {x}
      ensures incoming.Usable? ==> lost == old(lost) && written == old(written)
      ensures forall y :: y in old(working) ==> y.value == old(y.value)
    {
      match incoming {
        case HeaderError =>
          x := Drop();
          more := false;
        case Unusable(header, reason) =>
          x := TurnDown(header, reason);
          more := true;
        case Usable(header) =>
          x := HandOn(header);
          more := true;
      }
    }

    /** The end of a worker, after a return or a panic. */
    method Finish(x: Item<Request>, ret: int, errmsg: string)
      requires Valid() && x in working
      modifies this, requests, responses, responses.free, x
      ensures Valid() && working == old(working) - {x} && lost == old(lost) && requests.free == [x] + old(requests.free)
      ensures written == old(written) + if old(x.value).noResp then [] else [Answer(old(x.value), ret, errmsg)]
      ensures forall y :: y in old(working) ==> y.value == old(y.value)
    {
      Settle(x, ret, errmsg);
      working := working - {x};
    }

    method SendResponse(x: Item<Request>, ret: int, errmsg: string)
      requires responses.Valid() && responses.zero == NoResponse
      modifies responses, responses.free, `written
      ensures responses.Valid() && responses.used == old(responses.used)
      ensures written == old(written) + [Answer(x.value, ret, errmsg)]
      ensures var r := written[|old(written)|];
        && r.serviceMethod == x.value.serviceMethod && r.seqNo == x.value.seqNo && r.raw == x.value.raw
        && r.ret == ret && r.error == errmsg
      ensures forall y :: y in responses.free ==> y in old(responses.free) || fresh(y)
    {
      var resp := responses.Get();
      resp.value := resp.value.(ret := ret, serviceMethod := x.value.serviceMethod);
      if errmsg != "" {
        resp.value := resp.value.(error := errmsg);
      }
      resp.value := resp.value.(seqNo := x.value.seqNo, raw := x.value.raw);
      written := written + [resp.value];
      responses.Free(resp);
    }
  }

  /** The response to a request: nothing in it comes from anywhere else. */
  function Answer(r: Request, ret: int, errmsg: string): Response {
    Response(r.serviceMethod, r.seqNo, errmsg, ret, r.raw)
  }
}
