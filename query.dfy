/** One query worker (`doQuery`): send one batch to the remote service and
    push the decoded records into the shared result channel, but only once
    every stage has succeeded. */
module Query {
  import opened Records

  /** The body of an HTTP response, read by `ioutil.ReadAll`. */
  datatype Response = Response(body: seq<byte>)

  /** The four stages of a query, each of which may fail. They stand for
      `json.Marshal`, `http.Post` to the lookup endpoint, `ioutil.ReadAll`
      of the response body and `json.Unmarshal`; their behaviour is left
      open, so every property below holds for any service that answers:
      each stage is a total function, so a call that hangs is not
      represented. */
  datatype Service = Service(
    marshal: seq<QueryItem> -> Result<seq<byte>>,
    post: seq<byte> -> Result<Response>,
    readAll: Response -> Result<seq<byte>>,
    unmarshal: seq<byte> -> Result<seq<IPQueryResult>>)

  /** The records one batch yields, or the error of the first failing stage. */
  function Pipeline(svc: Service, items: seq<QueryItem>): (r: Result<seq<IPQueryResult>>)
    ensures svc.marshal(items).Err? ==> r == Err(svc.marshal(items).error)
    ensures r.Ok? ==> svc.marshal(items).Ok? && svc.post(svc.marshal(items).value).Ok?
    ensures r.Ok? ==>
      var resp := svc.post(svc.marshal(items).value).value;
      svc.readAll(resp).Ok? && r == svc.unmarshal(svc.readAll(resp).value)
    ensures svc.marshal(items).Ok? && svc.post(svc.marshal(items).value).Err? ==>
      r == Err(svc.post(svc.marshal(items).value).error)
    ensures svc.marshal(items).Ok? && svc.post(svc.marshal(items).value).Ok? ==>
      var resp := svc.post(svc.marshal(items).value).value;
      svc.readAll(resp).Err? ==> r == Err(svc.readAll(resp).error)
    ensures r.Ok? <==>
      && svc.marshal(items).Ok?
      && svc.post(svc.marshal(items).value).Ok?
      && svc.readAll(svc.post(svc.marshal(items).value).value).Ok?
      && svc.unmarshal(svc.readAll(svc.post(svc.marshal(items).value).value).value).Ok?
  {
    match svc.marshal(items)
    case Err(e) => Err(e)
    case Ok(buf) =>
      match svc.post(buf)
      case Err(e) => Err(e)
      case Ok(resp) =>
        match svc.readAll(resp)
        case Err(e) => Err(e)
        case Ok(respBuf) => svc.unmarshal(respBuf)
  }

  /** What one batch adds to the results: all decoded records, or nothing. */
  function Contribution(svc: Service, items: seq<QueryItem>): (rs: seq<IPQueryResult>)
    ensures rs != [] ==> Pipeline(svc, items) == Ok(rs)
    ensures Pipeline(svc, items).Ok? ==> rs == Pipeline(svc, items).value
  {
    match Pipeline(svc, items)
    case Ok(rs) => rs
    case Err(_) => []
  }

  /** The buffered channel `chanQueryRet` that all workers send to. A send
      on a full channel blocks; since the channel is drained only after
      every worker has finished, such a sender waits forever. */
  class ResultChannel {
    const capacity: nat
    var buffer: seq<IPQueryResult>
    var closed: bool

    ghost predicate Valid()
      reads this
    {
      |buffer| <= capacity
    }

    /** `make(chan *IPQueryResult, capacity)` */
    constructor (capacity: nat)
      ensures Valid()
      ensures this.capacity == capacity && buffer == [] && !closed
    {
      this.capacity := capacity;
      buffer := [];
      closed := false;
    }

    /** `ch <- x`: buffers `x` when there is room; otherwise reports that
        the sender would block. */
    method TrySend(x: IPQueryResult) returns (sent: bool)
      requires Valid() && !closed
      modifies this`buffer
      ensures Valid()
      ensures sent == (|old(buffer)| < capacity)
      ensures buffer == if sent then old(buffer) + [x] else old(buffer)
    {
      sent := |buffer| < capacity;
      if sent {
        buffer := buffer + [x];
      }
    }

    /** `close(ch)` */
    method Close()
      requires !closed
      modifies this`closed
      ensures closed
    {
      closed := true;
    }

    /** One step of `for ret := range ch` on a closed channel: the oldest
        buffered record, or `None` once the channel is drained. */
    method Receive() returns (x: Option<IPQueryResult>)
      requires Valid() && closed
      modifies this`buffer
      ensures Valid()
      ensures old(buffer) == [] ==> x == None && buffer == []
      ensures old(buffer) != [] ==> x == Some(old(buffer)[0]) && buffer == old(buffer)[1..]
    {
      if buffer == [] {
        x := None;
      } else {
        x := Some(buffer[0]);
        buffer := buffer[1..];
      }
    }

    /** `for ret := range ch { rets = append(rets, ret) }` on a closed
        channel: every buffered record, oldest first. */
    method Drain() returns (rets: seq<IPQueryResult>)
      requires Valid() && closed
      modifies this`buffer
      ensures Valid()
      ensures rets == old(buffer) && buffer == []
    {
      rets := [];
      while true
        invariant Valid()
        invariant rets + buffer == old(buffer)
        decreases |buffer|
      {
        var ret := Receive();
        if ret.None? {
          break;
        }
        rets := rets + [ret.value];
      }
    }
  }

  /** How a worker ends: it returns (with the error `doQuery` reports, which
      the caller discards), or it is parked forever on a full channel. */
  datatype Exit = Returned(err: Option<Error>) | Parked

  /** How one worker leaves the channel (`before` to `after`, capacity
      `cap`): on an error it returns that error and sends nothing; on
      success it sends every decoded record, or, when they do not fit,
      fills the channel and stays blocked. */
  ghost predicate WorkerEffect(svc: Service, items: seq<QueryItem>, cap: nat,
                               before: seq<IPQueryResult>, after: seq<IPQueryResult>, exit: Exit)
    ensures WorkerEffect(svc, items, cap, before, after, exit) && |before| <= cap ==>
      before <= after && after <= before + Contribution(svc, items) && |after| <= cap
    ensures WorkerEffect(svc, items, cap, before, after, exit) && exit.Returned? && exit.err.Some? ==>
      after == before
    ensures WorkerEffect(svc, items, cap, before, after, exit) && exit.Parked? ==> |after| == cap
    ensures WorkerEffect(svc, items, cap, before, after, exit) && exit == Returned(None) ==>
      after == before + Contribution(svc, items)
  {
    match Pipeline(svc, items)
    case Err(e) => exit == Returned(Some(e)) && after == before
    case Ok(rs) =>
      if |before| + |rs| <= cap
      then exit == Returned(None) && after == before + rs
      else exit == Parked && |before + rs| >= cap && after == (before + rs)[..cap]
  }

  /** `doQuery`: the stages run in order and the first error returns before
      anything is sent; only after all of them succeed are the records sent
      one by one. */
  method DoQuery(items: seq<QueryItem>, svc: Service, ch: ResultChannel) returns (exit: Exit)
    requires ch.Valid() && !ch.closed
    modifies ch`buffer
    ensures ch.Valid()
    ensures WorkerEffect(svc, items, ch.capacity, old(ch.buffer), ch.buffer, exit)
  {
    var buf := svc.marshal(items);
    if buf.Err? {
      return Returned(Some(buf.error));
    }
    var resp := svc.post(buf.value);
    if resp.Err? {
      return Returned(Some(resp.error));
    }
    var respBuf := svc.readAll(resp.value);
    if respBuf.Err? {
      return Returned(Some(respBuf.error));
    }
    var queryRets := svc.unmarshal(respBuf.value);
    if queryRets.Err? {
      return Returned(Some(queryRets.error));
    }
    var rs := queryRets.value;
    ghost var before := ch.buffer;
    for i := 0 to |rs|
      invariant ch.Valid()
      invariant ch.buffer == before + rs[..i]
    {
      var sent := ch.TrySend(rs[i]);
      if !sent {
        assert |before| + i == ch.capacity;
        assert (before + rs)[..ch.capacity] == before + rs[..i];
        return Parked;
      }
      assert rs[..i + 1] == rs[..i] + [rs[i]];
    }
    assert rs[..|rs|] == rs;
    return Returned(None);
  }
}
