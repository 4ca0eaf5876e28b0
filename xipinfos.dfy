/** `BatchQuery`: deduplicate, cut into batches of at most 100, run one
    worker per batch against the shared channel, wait for all workers, then
    drain the channel. The workers run concurrently in the source; here
    they run one after another in creation order, and only the multiset of
    results is specified, never their order. */
module XipInfos {
  import opened Records
  import opened Deduplication
  import opened Batching
  import opened Query

  /** The records that the workers for `calls` add together, as a bag:
      the sum of what every successful batch decoded. */
  function ResultsOf(svc: Service, calls: seq<seq<QueryItem>>): (bag: multiset<IPQueryResult>)
    ensures forall k :: 0 <= k < |calls| ==> multiset(Contribution(svc, calls[k])) <= bag
    ensures (forall k :: 0 <= k < |calls| ==> Contribution(svc, calls[k]) == []) ==> bag == multiset{}
  {
    if calls == [] then multiset{}
    else
      assert forall k :: 1 <= k < |calls| ==> calls[k] == calls[1..][k - 1];
      multiset(Contribution(svc, calls[0])) + ResultsOf(svc, calls[1..])
  }

  /** The batches `BatchQuery` dispatches for `ips`, in creation order. */
  function Dispatched(ips: seq<string>): (calls: seq<seq<QueryItem>>)
    ensures Concat(calls) == ItemsOf(Dedup(ips))
    ensures |calls| == if Dedup(ips) == [] then 1 else (|Dedup(ips)| + MaxBatchSize - 1) / MaxBatchSize
    ensures forall k :: 0 <= k < |calls| ==> |calls[k]| <= MaxBatchSize
    ensures forall k :: 0 <= k < |calls| - 1 ==> |calls[k]| == MaxBatchSize
  {
    var items := ItemsOf(Dedup(ips));
    ChunksOfBatches(items);
    BatchesCount(|items|);
    Chunks(items, Batches(|items|))
  }

  /** The bag of records the dispatched batches yield. */
  function ResultBag(svc: Service, ips: seq<string>): (bag: multiset<IPQueryResult>)
    ensures forall k :: 0 <= k < |Dispatched(ips)| ==>
      multiset(Contribution(svc, Dispatched(ips)[k])) <= bag
  {
    ResultsOf(svc, Dispatched(ips))
  }

  lemma {:induction false} ResultsOfAppend(svc: Service, calls: seq<seq<QueryItem>>, c: seq<QueryItem>)
    ensures ResultsOf(svc, calls + [c]) == ResultsOf(svc, calls) + multiset(Contribution(svc, c))
    decreases |calls|
  {
    if calls != [] {
      assert (calls + [c])[1..] == calls[1..] + [c];
      ResultsOfAppend(svc, calls[1..], c);
    } else {
      assert [c][1..] == [];
    }
  }

  /** What the channel and the WaitGroup counter say about the records
      `bag` that the workers so far had to send: no worker is blocked
      exactly when they fit, and then the channel holds all of them; once
      one is blocked, the channel stays full. */
  ghost predicate FanIn(pending: nat, buffer: seq<IPQueryResult>, bag: multiset<IPQueryResult>, cap: nat)
  {
    && (pending == 0 <==> |bag| <= cap)
    && (pending == 0 ==> multiset(buffer) == bag)
    && (pending > 0 ==> |buffer| == cap)
  }

  /** One more worker keeps `FanIn`: its records join the bag, and it
      adds to the blocked workers exactly when they do not fit. */
  lemma FanInStep(svc: Service, batch: seq<QueryItem>, cap: nat,
                  before: seq<IPQueryResult>, after: seq<IPQueryResult>, exit: Exit,
                  pending: nat, bag: multiset<IPQueryResult>)
    requires |before| <= cap
    requires WorkerEffect(svc, batch, cap, before, after, exit)
    requires FanIn(pending, before, bag, cap)
    ensures FanIn(if exit.Returned? then pending else pending + 1, after,
                  bag + multiset(Contribution(svc, batch)), cap)
  {
    match Pipeline(svc, batch)
    case Err(_) =>
    case Ok(rs) =>
      assert |multiset(rs)| == |rs|;
      assert |multiset(before)| == |before|;
  }

  /** The `startIdx`/`endIdx` loop of `BatchQuery`: one worker per batch,
      started in creation order. `pending` is the WaitGroup counter left
      after every worker has either returned or blocked for good. */
  method Dispatch(items: seq<QueryItem>, svc: Service, ch: ResultChannel)
    returns (pending: nat, ghost calls: seq<seq<QueryItem>>)
    requires ch.Valid() && !ch.closed && ch.buffer == [] && ch.capacity == |items|
    modifies ch`buffer
    ensures ch.Valid() && !ch.closed
    ensures calls == Chunks(items, Batches(|items|))
    ensures pending == 0 <==> |ResultsOf(svc, calls)| <= |items|
    ensures pending == 0 ==> multiset(ch.buffer) == ResultsOf(svc, calls)
    ensures pending > 0 ==> |ch.buffer| == ch.capacity
  {
    var n := |items|;
    pending := 0;
    ghost var ranges: seq<Slice> := [];
    ghost var bag: multiset<IPQueryResult> := multiset{};
    calls := [];
    var startIdx := 0;
    while true
      invariant startIdx <= n
      invariant startIdx < n || ranges == []
      invariant ranges + BatchesFrom(startIdx, n) == Batches(n)
      invariant InBounds(ranges, n)
      invariant calls == Chunks(items, ranges)
      invariant bag == ResultsOf(svc, calls)
      invariant ch.Valid() && !ch.closed && ch.capacity == n
      invariant FanIn(pending, ch.buffer, bag, n)
      decreases n - startIdx
    {
      var endIdx := startIdx + MaxBatchSize;
      if endIdx > n {
        endIdx := n;
      }
      assert endIdx == BatchEnd(startIdx, n);

      ghost var before, p0 := ch.buffer, pending;
      pending := pending + 1;
      var exit := DoQuery(items[startIdx..endIdx], svc, ch);
      if exit.Returned? {
        pending := pending - 1;
      }
      FanInStep(svc, items[startIdx..endIdx], n, before, ch.buffer, exit, p0, bag);

      ResultsOfAppend(svc, calls, items[startIdx..endIdx]);
      BatchesFromStep(ranges, startIdx, n);
      ChunksAppend(items, ranges, Slice(startIdx, endIdx));
      ranges := ranges + [Slice(startIdx, endIdx)];
      calls := calls + [items[startIdx..endIdx]];
      bag := bag + multiset(Contribution(svc, items[startIdx..endIdx]));

      startIdx := endIdx;

      if endIdx >= n {
        break;
      }
    }
  }

  /** The orchestrator. `None` stands for a call that never returns: when
      the successful batches decode more records than there are distinct
      addresses, a worker blocks on the full channel, `wg.Wait()` never
      returns and the channel is never drained. Otherwise the result holds
      exactly the records of the successful batches; failed batches drop
      out silently and the call still returns. */
  method BatchQuery(ips: seq<string>, svc: Service) returns (r: Option<seq<IPQueryResult>>, ghost calls: seq<seq<QueryItem>>)
    ensures calls == Dispatched(ips)
    ensures r.Some? <==> |ResultBag(svc, ips)| <= |Dedup(ips)|
    ensures r.Some? ==> multiset(r.value) == ResultBag(svc, ips)
  {
    var items := Deduplicate(ips);
    var ch := new ResultChannel(|items|);
    var pending;
    pending, calls := Dispatch(items, svc, ch);
    if pending > 0 {
      // wg.Wait() blocks forever
      return None, calls;
    }
    ch.Close();
    var rets := ch.Drain();
    return Some(rets), calls;
  }

  /** A service that never decodes more records than it was sent addresses
      cannot make `BatchQuery` block: the bag fits in the channel. */
  lemma WellBehavedServiceNeverBlocks(svc: Service, ips: seq<string>)
    requires forall items :: Pipeline(svc, items).Ok? ==> |Pipeline(svc, items).value| <= |items|
    ensures |ResultBag(svc, ips)| <= |Dedup(ips)|
  {
    var items := ItemsOf(Dedup(ips));
    ChunksOfBatches(items);
    ResultsOfSize(svc, Dispatched(ips));
  }

  lemma {:induction false} ResultsOfSize(svc: Service, calls: seq<seq<QueryItem>>)
    requires forall items :: Pipeline(svc, items).Ok? ==> |Pipeline(svc, items).value| <= |items|
    ensures |ResultsOf(svc, calls)| <= |Concat(calls)|
    decreases |calls|
  {
    if calls != [] {
      ResultsOfSize(svc, calls[1..]);
      assert |Contribution(svc, calls[0])| <= |calls[0]|;
    }
  }

  /** Failed batches contribute nothing: if every batch fails the result
      bag is empty. */
  lemma AllFailedYieldNothing(svc: Service, calls: seq<seq<QueryItem>>)
    requires forall k :: 0 <= k < |calls| ==> Pipeline(svc, calls[k]).Err?
    ensures ResultsOf(svc, calls) == multiset{}
  {
  }

  /** Three addresses with one repeat: one batch of the two distinct
      addresses, and exactly the two records the service returns for it. */
  lemma ExactScenario(svc: Service, r1: IPQueryResult, r2: IPQueryResult)
    requires Pipeline(svc, [QueryItem("1.1.1.1"), QueryItem("8.8.8.8")]) == Ok([r1, r2])
    ensures Dedup(["1.1.1.1", "8.8.8.8", "1.1.1.1"]) == ["1.1.1.1", "8.8.8.8"]
    ensures Dispatched(["1.1.1.1", "8.8.8.8", "1.1.1.1"]) == [[QueryItem("1.1.1.1"), QueryItem("8.8.8.8")]]
    ensures ResultBag(svc, ["1.1.1.1", "8.8.8.8", "1.1.1.1"]) == multiset{r1, r2}
  {
    var ips := ["1.1.1.1", "8.8.8.8", "1.1.1.1"];
    assert ips[..1] == ["1.1.1.1"] && ips[..2] == ["1.1.1.1", "8.8.8.8"];
    assert ["1.1.1.1", "8.8.8.8"][..1] == ["1.1.1.1"];
    assert ["1.1.1.1"][..0] == [];
    var items := ItemsOf(Dedup(ips));
    assert items == [QueryItem("1.1.1.1"), QueryItem("8.8.8.8")];
    assert Batches(2) == [Slice(0, 2)];
    assert items[0..2] == items;
    var calls := Dispatched(ips);
    assert calls == [items];
    OneCall(svc, items);
  }

  lemma OneCall(svc: Service, c: seq<QueryItem>)
    ensures ResultsOf(svc, [c]) == multiset(Contribution(svc, c))
  {
  }

  /** 250 distinct addresses: three batches, holding the first 100, the
      next 100 and the last 50 addresses. */
  lemma BatchBoundaryScenario(ips: seq<string>)
    requires |ips| == 250 && Distinct(ips)
    ensures var items := ItemsOf(ips);
      Dispatched(ips) == [items[..100], items[100..200], items[200..]]
  {
    DedupOfDistinct(ips);
    var items := ItemsOf(ips);
    assert BatchesFrom(200, 250) == [Slice(200, 250)];
    assert BatchesFrom(100, 250) == [Slice(100, 200), Slice(200, 250)];
    assert Batches(250) == [Slice(0, 100), Slice(100, 200), Slice(200, 250)];
    var calls := Dispatched(ips);
    assert |calls| == 3;
    assert calls[0] == items[0..100] == items[..100];
    assert calls[2] == items[200..250] == items[200..];
  }

  /** 150 distinct addresses whose second batch fails: only the first
      batch's records come back. */
  lemma PartialFailureScenario(svc: Service, ips: seq<string>)
    requires |ips| == 150 && Distinct(ips)
    requires Pipeline(svc, ItemsOf(ips)[100..]).Err?
    ensures ResultBag(svc, ips) == multiset(Contribution(svc, ItemsOf(ips)[..100]))
  {
    DedupOfDistinct(ips);
    var items := ItemsOf(ips);
    assert BatchesFrom(100, 150) == [Slice(100, 150)];
    assert Batches(150) == [Slice(0, 100), Slice(100, 150)];
    var calls := Dispatched(ips);
    assert |calls| == 2;
    assert calls[0] == items[0..100] == items[..100];
    assert calls[1] == items[100..150] == items[100..];
    assert calls[1..] == [items[100..]];
    OneCall(svc, items[100..]);
  }

  /** Empty input still dispatches one query, with an empty batch; the
      result is whatever that query decodes. */
  lemma EmptyInputScenario(svc: Service)
    ensures Dispatched([]) == [[]]
    ensures ResultBag(svc, []) == multiset(Contribution(svc, []))
  {
  }
}
