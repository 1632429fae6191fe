/** The generation worker: a bounded priority queue of generation requests served
    one at a time. The queue is a bag (`seq` read through `multiset`): the heap's
    internal order is not modelled, only which request leaves and which stay.
    The engine call is a parameter (`EngineOutcome`); statistics are counters. */
module GenerationWorker {
  import opened Wrappers
  import opened Values

  /** `GenerationRequest`. Ordering between requests compares `priority` only;
      `timestamp` is consulted by eviction alone. */
  datatype Request = Request(
    priority: int,
    id: string,
    prompt: string,
    systemPrompt: Value,
    kind: string,
    parameters: map<string, Value>,
    timestamp: int)

  datatype Worker = Worker(
    queue: seq<Request>,
    maxQueueSize: int,
    processed: nat,
    failed: nat,
    totalTime: int)

  /** The worker's signals. */
  datatype Event =
    | Started(id: string)
    | Completed(id: string, result: string)
    | Failed(id: string, error: string)
    | QueueStatus(size: nat)

  /** What happened when the worker turned to the engine: there was none, it
      returned some text (possibly empty), or it raised with a message. */
  datatype EngineOutcome = NoEngine | Generated(text: string) | Raised(message: string)

  /** The result of `add_request`: the new worker, its boolean answer, the request
      eviction dropped if any, and the signals emitted. */
  datatype Admission = Admission(worker: Worker, accepted: bool, dropped: Option<Request>, events: seq<Event>)

  /** One turn of the `run` loop: the request served, if the queue held one. */
  datatype Turn = Turn(worker: Worker, served: Option<Request>, events: seq<Event>)

  const CompletionMaxTokens: int := 64
  const OtherMaxTokens: int := 512

  function Init(maxQueueSize: int): (w: Worker)
    ensures w.queue == [] && w.processed == 0 && w.failed == 0
    ensures Valid(w)
  {
    Worker([], maxQueueSize, 0, 0, 0)
  }

  /** `queue.PriorityQueue.full()`: a non-positive `maxsize` means unbounded. */
  predicate Full(w: Worker) {
    0 < w.maxQueueSize <= |w.queue|
  }

  /** The queue never holds more than a positive capacity. */
  predicate Valid(w: Worker) {
    w.maxQueueSize > 0 ==> |w.queue| <= w.maxQueueSize
  }

  /** The sort key of eviction, `(priority, timestamp)`, as a lexicographic order. */
  predicate EvictionLe(a: Request, b: Request) {
    a.priority < b.priority || (a.priority == b.priority && a.timestamp <= b.timestamp)
  }

  function Dropped(o: Option<Request>): multiset<Request> {
    if o.Some? then multiset{o.value} else multiset{}
  }

  /** The position of the last element in `(priority, timestamp)` order: what
      `temp_items.pop()` takes after the sort. */
  function WorstIndex(q: seq<Request>): (k: nat)
    requires |q| > 0
    ensures k < |q|
    ensures forall i :: 0 <= i < |q| ==> EvictionLe(q[i], q[k])
  {
    if |q| == 1 then 0
    else
      var k := WorstIndex(q[..|q| - 1]);
      if EvictionLe(q[k], q[|q| - 1]) then |q| - 1 else k
  }

  /** A position holding a minimal priority: what `PriorityQueue.get` may return. */
  function BestIndex(q: seq<Request>): (k: nat)
    requires |q| > 0
    ensures k < |q|
    ensures forall i :: 0 <= i < |q| ==> q[k].priority <= q[i].priority
  {
    if |q| == 1 then 0
    else
      var k := BestIndex(q[..|q| - 1]);
      if q[|q| - 1].priority < q[k].priority then |q| - 1 else k
  }

  function RemoveAt(q: seq<Request>, k: nat): (r: seq<Request>)
    requires k < |q|
    ensures |r| == |q| - 1
    ensures multiset(r) == multiset(q) - multiset{q[k]}
  {
    assert q == q[..k] + [q[k]] + q[k + 1..];
    q[..k] + q[k + 1..]
  }

  /** `_remove_low_priority_request`: drain, sort by `(priority, timestamp)`, drop
      the last element, refill. */
  function RemoveLowPriority(q: seq<Request>): (r: (seq<Request>, Option<Request>))
    ensures r.1.None? <==> q == []
    ensures r.1.None? ==> r.0 == q
    ensures r.1.Some? ==> r.1.value in q && forall x :: x in q ==> EvictionLe(x, r.1.value)
    ensures multiset(r.0) == multiset(q) - Dropped(r.1)
  {
    if q == [] then (q, None)
    else
      var k := WorstIndex(q);
      (RemoveAt(q, k), Some(q[k]))
  }

  /** `add_request`: evict when full, then `put(block=False)`, which raises (and the
      call answers false) only if the queue is still full. */
  function AddRequest(w: Worker, req: Request): (r: Admission)
    ensures r.worker.maxQueueSize == w.maxQueueSize
    ensures r.worker.processed == w.processed && r.worker.failed == w.failed
    ensures r.worker.totalTime == w.totalTime
    ensures r.dropped.Some? <==> Full(w)
    ensures r.dropped.Some? ==> r.dropped.value in w.queue
    ensures r.dropped.Some? ==> forall x :: x in w.queue ==> EvictionLe(x, r.dropped.value)
    ensures r.accepted ==> multiset(r.worker.queue) == multiset(w.queue) - Dropped(r.dropped) + multiset{req}
    ensures r.accepted ==> r.events == [QueueStatus(|r.worker.queue|)]
    ensures !r.accepted ==> multiset(r.worker.queue) == multiset(w.queue) - Dropped(r.dropped) && r.events == []
    ensures Valid(w) ==> r.accepted && Valid(r.worker)
  {
    var evicted := if Full(w) then RemoveLowPriority(w.queue) else (w.queue, None);
    var w1 := w.(queue := evicted.0);
    if Full(w1) then Admission(w1, false, evicted.1, [])
    else
      var w2 := w1.(queue := w1.queue + [req]);
      Admission(w2, true, evicted.1, [QueueStatus(|w2.queue|)])
  }

  /** The queue without the entries carrying `id`. */
  function Without(q: seq<Request>, id: string): seq<Request>
  {
    if q == [] then []
    else (if q[0].id == id then [] else [q[0]]) + Without(q[1..], id)
  }

  /** `Without` removes every entry carrying the id and keeps every other entry
      as often as it occurred. */
  lemma {:induction false} WithoutCounts(q: seq<Request>, id: string)
    ensures forall x :: multiset(Without(q, id))[x] == if x.id == id then 0 else multiset(q)[x]
    decreases |q|
  {
    if q != [] {
      WithoutCounts(q[1..], id);
      assert q == [q[0]] + q[1..];
    }
  }

  lemma {:induction false} WithoutUnknown(q: seq<Request>, id: string)
    requires forall i :: 0 <= i < |q| ==> q[i].id != id
    ensures Without(q, id) == q
    decreases |q|
  {
    if q != [] {
      WithoutUnknown(q[1..], id);
      assert q == [q[0]] + q[1..];
    }
  }

  lemma {:induction false} WithoutAppend(a: seq<Request>, b: seq<Request>, id: string)
    ensures Without(a + b, id) == Without(a, id) + Without(b, id)
    decreases |a|
  {
    if a != [] {
      assert (a + b)[1..] == a[1..] + b;
      WithoutAppend(a[1..], b, id);
    } else {
      assert a + b == b;
    }
  }

  /** `cancel_request`: drain the queue, keep the entries whose id differs, refill;
      answer whether some entry carried the id. */
  method CancelRequest(w: Worker, id: string) returns (r: Worker, found: bool, events: seq<Event>)
    ensures found <==> exists i :: 0 <= i < |w.queue| && w.queue[i].id == id
    ensures r == w.(queue := r.queue)
    ensures forall x :: multiset(r.queue)[x] == if x.id == id then 0 else multiset(w.queue)[x]
    ensures !found ==> r == w && events == []
    ensures found ==> events == [QueueStatus(|r.queue|)]
  {
    var kept: seq<Request> := [];
    found := false;
    var i := 0;
    while i < |w.queue|
      invariant 0 <= i <= |w.queue|
      invariant kept == Without(w.queue[..i], id)
      invariant found <==> exists j :: 0 <= j < i && w.queue[j].id == id
    {
      var item := w.queue[i];
      assert w.queue[..i + 1] == w.queue[..i] + [item];
      WithoutAppend(w.queue[..i], [item], id);
      if item.id == id {
        found := true;
      } else {
        kept := kept + [item];
      }
      i := i + 1;
    }
    assert w.queue[..i] == w.queue;
    WithoutCounts(w.queue, id);
    if !found {
      WithoutUnknown(w.queue, id);
    }
    r := w.(queue := kept);
    events := if found then [QueueStatus(|kept|)] else [];
  }

  /** The keyword arguments passed to the engine: the request's parameters, with
      `max_tokens` filled in (64 for a completion, 512 otherwise) only when absent. */
  function EngineArgs(req: Request): (args: map<string, Value>)
    ensures args.Keys == req.parameters.Keys + {"max_tokens"}
    ensures forall k :: k in req.parameters ==> args[k] == req.parameters[k]
    ensures "max_tokens" !in req.parameters ==>
              args["max_tokens"] == Int(if req.kind == "completion" then CompletionMaxTokens else OtherMaxTokens)
  {
    if "max_tokens" in req.parameters then req.parameters
    else req.parameters["max_tokens" := Int(if req.kind == "completion" then CompletionMaxTokens else OtherMaxTokens)]
  }

  /** `_process_request`: exactly one terminal signal; success only for a non-empty result. */
  function ProcessRequest(req: Request, outcome: EngineOutcome): (r: (bool, Event))
    ensures r.0 <==> outcome.Generated? && outcome.text != []
    ensures r.1.Completed? <==> r.0
    ensures r.1.Completed? || r.1.Failed?
    ensures r.1.id == req.id
    ensures r.1.Completed? ==> r.1.result == outcome.text
    ensures outcome.Raised? ==> r.1 == Failed(req.id, outcome.message)
  {
    match outcome
    case NoEngine => (false, Failed(req.id, "Engine not initialized"))
    case Raised(message) => (false, Failed(req.id, message))
    case Generated(text) =>
      if text != [] then (true, Completed(req.id, text)) else (false, Failed(req.id, "No text generated"))
  }

  /** One turn of `run` once the engine is up: an empty queue leaves everything as
      it is (the thread waits); otherwise a minimal-priority request is taken,
      processed, and counted as processed or failed. */
  function Step(w: Worker, outcome: EngineOutcome, elapsed: nat): (r: Turn)
    ensures w.queue == [] <==> r.served.None?
    ensures r.served.None? ==> r.worker == w && r.events == []
    ensures r.served.Some? ==> r.served.value in w.queue
    ensures r.served.Some? ==> forall x :: x in w.queue ==> r.served.value.priority <= x.priority
    ensures r.served.Some? ==> multiset(r.worker.queue) == multiset(w.queue) - multiset{r.served.value}
    ensures r.served.Some? ==> r.worker.processed + r.worker.failed == w.processed + w.failed + 1
    ensures r.served.Some? ==> r.worker.totalTime == w.totalTime + elapsed
    ensures r.served.Some? ==> |r.events| == 3 && r.events[0] == Started(r.served.value.id)
    ensures r.served.Some? ==> r.events[1] == ProcessRequest(r.served.value, outcome).1
    ensures r.served.Some? ==> (r.worker.processed == w.processed + 1 <==> r.events[1].Completed?)
    ensures r.served.Some? ==> r.events[2] == QueueStatus(|r.worker.queue|)
    ensures r.worker.maxQueueSize == w.maxQueueSize
    ensures Valid(w) ==> Valid(r.worker)
  {
    if w.queue == [] then Turn(w, None, [])
    else
      var k := BestIndex(w.queue);
      var req := w.queue[k];
      var rest := RemoveAt(w.queue, k);
      var done := ProcessRequest(req, outcome);
      var w1 := w.(
        queue := rest,
        processed := if done.0 then w.processed + 1 else w.processed,
        failed := if done.0 then w.failed else w.failed + 1,
        totalTime := w.totalTime + elapsed);
      Turn(w1, Some(req), [Started(req.id), done.1, QueueStatus(|rest|)])
  }

  /** Cancelling an id no queued request carries answers false and changes nothing. */
  method CancelUnknown(w: Worker, id: string) returns (found: bool)
    requires forall i :: 0 <= i < |w.queue| ==> w.queue[i].id != id
    ensures !found
  {
    var r, f, ev := CancelRequest(w, id);
    assert r == w && ev == [];
    found := f;
  }

  /** Eviction at capacity 2 with priorities [2, 2] queued and a priority-1 request
      arriving: the priority-1 request gets in and the NEWER priority-2 request is
      the one dropped, since the sort key places the later timestamp last. */
  lemma EvictionDropsNewest(a: Request, b: Request, c: Request)
    requires a.priority == 2 && b.priority == 2 && c.priority == 1
    requires a.timestamp < b.timestamp < c.timestamp
    ensures AddRequest(Worker([a, b], 2, 0, 0, 0), c).dropped == Some(b)
    ensures multiset(AddRequest(Worker([a, b], 2, 0, 0, 0), c).worker.queue) == multiset{a, c}
  {
    var r := AddRequest(Worker([a, b], 2, 0, 0, 0), c);
    assert r.dropped.Some?;
    assert r.dropped.value == a || r.dropped.value == b;
    assert !EvictionLe(b, a);
  }
}
