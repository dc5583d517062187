// The bridge between sandboxed guest code and the host: the guest's driver (internal/mcpsandbox/
// bootstrap.go) and the host's main loop with its concurrent calls (internal/mcpsandbox/engine.go).
// Each method is one atomic step; workers and guest may step between any two steps of the main loop.

module Sandbox {

  const InFlightLimit := 16
  const ResponseBuffer := 64
  const DrainLimit := 32

  datatype Request = Request(id: nat, name: string, params: string)

  datatype Response = Response(id: nat, json: string, code: string)

  datatype Stage = Draining | Dispatching | Selecting

  datatype Outcome = Going | CallBudget | ConcurrencyLimit | Finished | Cancelled

  // A goroutine of invocation.call: nothing held, or the stream session it looked up.
  datatype Worker = Plain | Holding(stream: nat)

  // ----- what holds between any two steps

  // Where the calls are. Ids are handed out 1, 2, 3, ...; started calls are an initial segment.
  datatype Calls = Calls(queue: seq<Request>, batch: seq<Request>, running: map<nat, Worker>, buffered: seq<Response>,
                         delivered: seq<nat>, started: nat, next: nat)

  ghost predicate InBuffer(buffered: seq<Response>, id: nat) {
    exists k :: 0 <= k < |buffered| && buffered[k].id == id
  }

  ghost predicate Waiting(requests: seq<Request>, id: nat) {
    exists k :: 0 <= k < |requests| && requests[k].id == id
  }

  // The calls not yet started stand in the order the guest made them, none missing.
  ghost predicate InOrder(c: Calls) {
    && c.started + |c.batch| + |c.queue| == c.next
    && (forall k {:trigger c.batch[k]} :: 0 <= k < |c.batch| ==> c.batch[k].id == c.started + 1 + k)
    && (forall k {:trigger c.queue[k]} :: 0 <= k < |c.queue| ==> c.queue[k].id == c.started + |c.batch| + 1 + k)
  }

  ghost predicate Once(c: Calls) {
    && (forall i, j :: 0 <= i < j < |c.buffered| ==> c.buffered[i].id != c.buffered[j].id)
    && (forall i, j :: 0 <= i < j < |c.delivered| ==> c.delivered[i] != c.delivered[j])
    && (forall i {:trigger c.buffered[i]} :: 0 <= i < |c.buffered| ==> c.buffered[i].id !in c.running && c.buffered[i].id !in c.delivered)
    && (forall i {:trigger c.delivered[i]} :: 0 <= i < |c.delivered| ==> c.delivered[i] !in c.running)
  }

  // The started calls are exactly those running, buffered or delivered.
  ghost predicate Accounted(c: Calls) {
    && (forall id :: id in c.running ==> 1 <= id <= c.started)
    && (forall i {:trigger c.buffered[i]} :: 0 <= i < |c.buffered| ==> 1 <= c.buffered[i].id <= c.started)
    && (forall i {:trigger c.delivered[i]} :: 0 <= i < |c.delivered| ==> 1 <= c.delivered[i] <= c.started)
    && (forall id {:trigger InBuffer(c.buffered, id)} :: 1 <= id <= c.started ==>
         id in c.running || InBuffer(c.buffered, id) || id in c.delivered)
    && |c.running| + |c.buffered| + |c.delivered| == c.started
  }

  ghost predicate Sound(c: Calls) {
    InOrder(c) && Once(c) && Accounted(c)
  }

  // What the guest waits for: every call made and not answered.
  ghost predicate Awaits(c: Calls, pending: set<nat>) {
    forall id :: id in pending <==> 1 <= id <= c.next && id !in c.delivered
  }

  // ----- one call moves on

  lemma CallAdded(c: Calls, pending: set<nat>, r: Request)
    requires Sound(c) && Awaits(c, pending) && r.id == c.next + 1
    ensures var d := c.(queue := c.queue + [r], next := c.next + 1); Sound(d) && Awaits(d, pending + {r.id})
  {
  }

  lemma CallsDrained(c: Calls, pending: set<nat>, n: nat)
    requires Sound(c) && Awaits(c, pending) && c.batch == [] && n <= |c.queue|
    ensures var d := c.(queue := c.queue[n..], batch := c.queue[..n]); Sound(d) && Awaits(d, pending)
  {
  }

  lemma CallStarted(c: Calls, pending: set<nat>)
    requires Sound(c) && Awaits(c, pending) && c.batch != []
    ensures c.batch[0].id !in c.running
    ensures var d := c.(batch := c.batch[1..], running := c.running[c.batch[0].id := Plain], started := c.started + 1);
            Sound(d) && Awaits(d, pending)
  {
    var id := c.batch[0].id;
    assert c.running[id := Plain].Keys == c.running.Keys + {id};
  }

  lemma CallAnswered(c: Calls, pending: set<nat>, r: Response)
    requires Sound(c) && Awaits(c, pending) && r.id in c.running
    ensures var d := c.(running := c.running - {r.id}, buffered := c.buffered + [r]); Sound(d) && Awaits(d, pending)
  {
    var d := c.(running := c.running - {r.id}, buffered := c.buffered + [r]);
    assert d.running.Keys == c.running.Keys - {r.id};
    forall id | 1 <= id <= d.started ensures id in d.running || InBuffer(d.buffered, id) || id in d.delivered {
      if InBuffer(c.buffered, id) {
        var k :| 0 <= k < |c.buffered| && c.buffered[k].id == id;
        assert d.buffered[k].id == id;
      } else if id == r.id {
        assert d.buffered[|c.buffered|].id == id;
      }
    }
  }

  function Handed(c: Calls): Calls
    requires c.buffered != []
  {
    c.(buffered := c.buffered[1..], delivered := c.delivered + [c.buffered[0].id])
  }

  lemma HandedOnce(c: Calls)
    requires Once(c) && c.buffered != []
    ensures Once(Handed(c))
  {
    var d, id0 := Handed(c), c.buffered[0].id;
    forall i | 0 <= i < |d.delivered| ensures d.delivered[i] !in d.running {
      assert i < |c.delivered| ==> d.delivered[i] == c.delivered[i];
    }
    forall i | 0 <= i < |d.buffered| ensures d.buffered[i].id !in d.running && d.buffered[i].id !in d.delivered {
      assert d.buffered[i] == c.buffered[i + 1] && c.buffered[i + 1].id != id0;
    }
  }

  lemma HandedAccounted(c: Calls)
    requires Accounted(c) && c.buffered != []
    ensures Accounted(Handed(c))
  {
    var d, id0 := Handed(c), c.buffered[0].id;
    forall id | 1 <= id <= d.started ensures id in d.running || InBuffer(d.buffered, id) || id in d.delivered {
      if id == id0 {
        assert d.delivered[|c.delivered|] == id;
      } else if InBuffer(c.buffered, id) {
        var k :| 0 <= k < |c.buffered| && c.buffered[k].id == id;
        assert d.buffered[k - 1].id == id;
      }
    }
    forall i | 0 <= i < |d.delivered| ensures 1 <= d.delivered[i] <= d.started {
      assert i < |c.delivered| ==> d.delivered[i] == c.delivered[i];
    }
  }

  lemma CallDelivered(c: Calls, pending: set<nat>)
    requires Sound(c) && Awaits(c, pending) && c.buffered != []
    ensures c.buffered[0].id in pending
    ensures Sound(Handed(c)) && Awaits(Handed(c), pending - {c.buffered[0].id})
  {
    HandedOnce(c);
    HandedAccounted(c);
    assert c.buffered[0].id !in c.delivered;
  }

  // ----- what that means

  // The guest's pending calls are queued, drained, running or buffered, each in exactly one place.
  lemma PendingIsPartitioned(c: Calls, pending: set<nat>, id: nat)
    requires Sound(c) && Awaits(c, pending)
    ensures id in pending <==> Waiting(c.queue, id) || Waiting(c.batch, id) || id in c.running || InBuffer(c.buffered, id)
    ensures Waiting(c.queue, id) ==> !Waiting(c.batch, id) && id !in c.running && !InBuffer(c.buffered, id)
    ensures Waiting(c.batch, id) ==> id !in c.running && !InBuffer(c.buffered, id)
    ensures id in c.running ==> !InBuffer(c.buffered, id)
  {
    if c.started < id <= c.started + |c.batch| {
      assert c.batch[id - c.started - 1].id == id;
    }
    if c.started + |c.batch| < id <= c.next {
      assert c.queue[id - c.started - |c.batch| - 1].id == id;
    }
    assert id in pending <==> 1 <= id <= c.next && id !in c.delivered;
  }

  // ----- the guest's driver

  class Driver {
    var queue: seq<Request>
    var pending: set<nat>
    var next: nat
    var done: bool

    constructor ()
      ensures queue == [] && pending == {} && next == 0 && !done
    {
      queue, pending, next, done := [], {}, 0, false;
    }

    method Call(name: string, params: string) returns (id: nat)
      modifies this`queue, this`pending, this`next
      ensures next == old(next) + 1 && id == next
      ensures pending == old(pending) + {id} && queue == old(queue) + [Request(id, name, params)]
    {
      next := next + 1;
      id := next;
      pending := pending + {id};
      queue := queue + [Request(id, name, params)];
    }

    // queue.splice(0, 32)
    method Drain() returns (batch: seq<Request>)
      modifies this`queue
      ensures batch == old(queue)[..if |old(queue)| < DrainLimit then |old(queue)| else DrainLimit]
      ensures queue == old(queue)[|batch|..]
    {
      var n := if |queue| < DrainLimit then |queue| else DrainLimit;
      batch := queue[..n];
      queue := queue[n..];
    }

    method Deliver(id: nat) returns (known: bool)
      modifies this`pending
      ensures known == (id in old(pending)) && pending == old(pending) - {id}
    {
      known := id in pending;
      pending := pending - {id};
    }

    // The script's promise settles.
    method Settle()
      modifies this`done
      ensures done
    {
      done := true;
    }
  }

  // ----- the host

  class Engine {
    const driver: Driver
    const maxCalls: nat
    const maxStreams: nat
    var stage: Stage
    var outcome: Outcome
    var batch: seq<Request>
    var calls: nat
    var inFlight: nat
    var running: map<nat, Worker>
    var response: seq<Response>
    var streams: set<nat>
    var nextStream: nat
    ghost var delivered: seq<nat>
    ghost var started: nat

    ghost function Placed(): Calls
      reads this, driver
    {
      Calls(driver.queue, batch, running, response, delivered, started, driver.next)
    }

    ghost predicate Valid()
      reads this, driver
    {
      && Sound(Placed()) && Awaits(Placed(), driver.pending)
      && inFlight == |running| + |response| <= InFlightLimit
      && calls == started + (if outcome == ConcurrencyLimit then 1 else 0) && calls <= maxCalls
      && (batch != [] ==> stage == Dispatching) && |batch| <= DrainLimit
      && |streams| <= maxStreams && (forall s :: s in streams ==> 1 <= s <= nextStream)
      && (forall id :: id in running && running[id].Holding? ==> running[id].stream <= nextStream)
      && (outcome == CallBudget ==> calls == maxCalls && driver.next > maxCalls)
      && (outcome == ConcurrencyLimit ==> inFlight == InFlightLimit)
      && (outcome == Finished ==> driver.done)
    }

    constructor (maxCalls: nat, maxStreams: nat)
      ensures Valid() && outcome == Going && fresh(driver)
      ensures this.maxCalls == maxCalls && this.maxStreams == maxStreams
    {
      driver := new Driver();
      this.maxCalls, this.maxStreams := maxCalls, maxStreams;
      stage, outcome := Draining, Going;
      batch, calls, inFlight, running, response := [], 0, 0, map[], [];
      streams, nextStream := {}, 0;
      delivered, started := [], 0;
    }

    // --- the guest

    method GuestCall(name: string, params: string)
      requires Valid()
      modifies driver
      ensures Valid() && driver.next == old(driver.next) + 1
      ensures driver.queue == old(driver.queue) + [Request(driver.next, name, params)]
      ensures driver.pending == old(driver.pending) + {driver.next} && driver.done == old(driver.done)
    {
      CallAdded(Placed(), driver.pending, Request(driver.next + 1, name, params));
      var id := driver.Call(name, params);
    }

    method GuestSettles()
      requires Valid()
      modifies driver`done
      ensures Valid() && driver.done
    {
      driver.Settle();
    }

    // --- the main loop

    method Drain()
      requires Valid() && outcome == Going && stage == Draining
      modifies this`batch, this`stage, driver`queue
      ensures Valid() && stage == Dispatching
      ensures batch + driver.queue == old(driver.queue) && (|batch| == DrainLimit || driver.queue == [])
    {
      ghost var before := Placed();
      ghost var n := if |driver.queue| < DrainLimit then |driver.queue| else DrainLimit;
      CallsDrained(before, driver.pending, n);
      batch := driver.Drain();
      stage := Dispatching;
      assert Placed() == before.(queue := before.queue[n..], batch := before.queue[..n]);
    }

    // One round of the loop over the batch. The call budget is looked at before the concurrency limit.
    method Dispatch()
      requires Valid() && outcome == Going && stage == Dispatching && batch != []
      modifies this`batch, this`calls, this`inFlight, this`running, this`outcome, this`started
      ensures Valid()
      ensures outcome == (if old(calls) >= maxCalls then CallBudget else if old(inFlight) >= InFlightLimit then ConcurrencyLimit else Going)
      ensures outcome == Going ==> batch == old(batch)[1..] && running == old(running)[old(batch)[0].id := Plain] && started == old(started) + 1
      ensures outcome != Going ==> batch == old(batch) && running == old(running) && started == old(started)
    {
      if calls >= maxCalls {
        outcome := CallBudget;
        return;
      }
      calls := calls + 1;
      if inFlight >= InFlightLimit {
        outcome := ConcurrencyLimit;
        return;
      }
      Start();
    }

    // go func(req callRequest) { i.call(req) }(req)
    method Start()
      requires Sound(Placed()) && Awaits(Placed(), driver.pending) && batch != []
      modifies this`batch, this`inFlight, this`running, this`started
      ensures Sound(Placed()) && Awaits(Placed(), driver.pending)
      ensures batch == old(batch)[1..] && old(batch)[0].id !in old(running) && running == old(running)[old(batch)[0].id := Plain]
      ensures |running| == |old(running)| + 1
      ensures inFlight == old(inFlight) + 1 && started == old(started) + 1
    {
      CallStarted(Placed(), driver.pending);
      var request := batch[0];
      assert running[request.id := Plain].Keys == running.Keys + {request.id};
      inFlight := inFlight + 1;
      batch := batch[1..];
      running := running[request.id := Plain];
      started := started + 1;
    }

    method CheckStatus()
      requires Valid() && outcome == Going && stage == Dispatching && batch == []
      modifies this`outcome, this`stage
      ensures Valid() && stage == Selecting && outcome == if driver.done then Finished else Going
    {
      if driver.done {
        outcome := Finished;
      }
      stage := Selecting;
    }

    // case res := <-i.response
    method Receive() returns (known: bool)
      requires Valid() && outcome == Going && stage == Selecting && response != []
      modifies this`inFlight, this`response, this`stage, this`delivered, driver`pending
      ensures Valid() && stage == Draining && known
      ensures response == old(response)[1..] && delivered == old(delivered) + [old(response)[0].id]
    {
      CallDelivered(Placed(), driver.pending);
      var res := response[0];
      response := response[1..];
      inFlight := inFlight - 1;
      delivered := delivered + [res.id];
      known := driver.Deliver(res.id);
      stage := Draining;
    }

    // case <-time.After
    method Tick()
      requires Valid() && outcome == Going && stage == Selecting
      modifies this`stage
      ensures Valid() && stage == Draining
    {
      stage := Draining;
    }

    method Cancel()
      requires Valid() && outcome == Going
      modifies this`outcome
      ensures Valid() && outcome == Cancelled
    {
      outcome := Cancelled;
    }

    // invocation.close, once the main loop has ended
    method Close()
      requires Valid() && outcome != Going
      modifies this`streams
      ensures Valid() && streams == {}
    {
      streams := {};
    }

    // --- the workers

    // i.response <- response: there is always room.
    method Send(r: Response)
      requires Valid() && r.id in running
      modifies this`running, this`response
      ensures |old(response)| < ResponseBuffer
      ensures Valid() && response == old(response) + [r] && running == old(running) - {r.id}
    {
      CallAnswered(Placed(), driver.pending, r);
      assert |running| > 0;
      assert (running - {r.id}).Keys == running.Keys - {r.id};
      running := running - {r.id};
      response := response + [r];
    }

    // stream-open
    method OpenStream(id: nat) returns (stream: nat)
      requires Valid() && id in running
      modifies this`streams, this`nextStream
      ensures Valid()
      ensures old(|streams|) >= maxStreams ==> stream == 0 && streams == old(streams) && nextStream == old(nextStream)
      ensures old(|streams|) < maxStreams ==> stream == nextStream == old(nextStream) + 1 && stream !in old(streams) && streams == old(streams) + {stream}
    {
      if |streams| >= maxStreams {
        return 0;
      }
      nextStream := nextStream + 1;
      stream := nextStream;
      streams := streams + {stream};
    }

    // stream-next and stream-return look the session up first
    method FindStream(id: nat, stream: nat) returns (found: bool)
      requires Valid() && id in running
      modifies this`running
      ensures Valid() && found == (stream in streams)
      ensures running == if found then old(running)[id := Holding(stream)] else old(running)
    {
      found := stream in streams;
      if found {
        assert running[id := Holding(stream)].Keys == running.Keys;
        HoldingSound(Placed(), driver.pending, id, stream);
        running := running[id := Holding(stream)];
      }
    }

    // delete(i.streams, id), at stream-return or at the end of the stream
    method DropStream(id: nat)
      requires Valid() && id in running && running[id].Holding?
      modifies this`streams
      ensures Valid() && streams == old(streams) - {running[id].stream}
    {
      streams := streams - {running[id].stream};
    }
  }

  lemma HoldingSound(c: Calls, pending: set<nat>, id: nat, stream: nat)
    requires Sound(c) && Awaits(c, pending) && id in c.running
    ensures var d := c.(running := c.running[id := Holding(stream)]); Sound(d) && Awaits(d, pending)
  {
    assert c.running[id := Holding(stream)].Keys == c.running.Keys;
  }

  // ----- runs

  datatype Step =
    | GuestCalls(name: string, params: string) | GuestSettled
    | MainStep | MainTick | MainCancelled
    | Sends(r: Response) | Opens(id: nat) | Finds(id: nat, stream: nat) | Drops(id: nat)

  method TakeDispatch(e: Engine)
    requires e.Valid() && e.outcome == Going && e.stage == Dispatching
    modifies e
    ensures e.Valid() && e.delivered == old(e.delivered)
  {
    if |e.batch| != 0 {
      e.Dispatch();
    } else {
      e.CheckStatus();
    }
  }

  method TakeMain(e: Engine)
    requires e.Valid()
    modifies e, e.driver
    ensures e.Valid() && old(e.driver.next) <= e.driver.next && old(e.delivered) <= e.delivered
  {
    if e.outcome != Going {
      e.Close();
    } else if e.stage == Draining {
      e.Drain();
    } else if e.stage == Dispatching {
      TakeDispatch(e);
    } else if |e.response| != 0 {
      var known := e.Receive();
    }
  }

  method TakeWorker(e: Engine, step: Step)
    requires e.Valid()
    modifies e
    ensures e.Valid() && e.delivered == old(e.delivered)
  {
    match step {
      case Sends(r) =>
        if r.id in e.running {
          e.Send(r);
        }
      case Opens(id) =>
        if id in e.running {
          var stream := e.OpenStream(id);
        }
      case Finds(id, stream) =>
        if id in e.running {
          var found := e.FindStream(id, stream);
        }
      case Drops(id) =>
        if id in e.running && e.running[id].Holding? {
          e.DropStream(id);
        }
      case _ =>
    }
  }

  // One step of the schedule; a step that is not possible now leaves everything as it is.
  method Take(e: Engine, step: Step)
    requires e.Valid()
    modifies e, e.driver
    ensures e.Valid() && old(e.driver.next) <= e.driver.next && old(e.delivered) <= e.delivered
  {
    match step {
      case GuestCalls(name, params) => e.GuestCall(name, params);
      case GuestSettled => e.GuestSettles();
      case MainStep => TakeMain(e);
      case MainTick =>
        if e.outcome == Going && e.stage == Selecting {
          e.Tick();
        }
      case MainCancelled =>
        if e.outcome == Going {
          e.Cancel();
        }
      case _ => TakeWorker(e, step);
    }
  }

  // Any interleaving whatsoever keeps the books: see Engine.Valid and PendingIsPartitioned.
  method Run(maxCalls: nat, maxStreams: nat, schedule: seq<Step>) returns (e: Engine)
    ensures e.Valid() && e.maxCalls == maxCalls && e.maxStreams == maxStreams
    ensures e.inFlight <= InFlightLimit < ResponseBuffer && e.calls <= maxCalls && |e.streams| <= maxStreams
    ensures forall i, j :: 0 <= i < j < |e.delivered| ==> e.delivered[i] != e.delivered[j]
  {
    e := new Engine(maxCalls, maxStreams);
    var k := 0;
    while k < |schedule|
      invariant 0 <= k <= |schedule| && e.Valid() && e.maxCalls == maxCalls && e.maxStreams == maxStreams && fresh(e) && fresh(e.driver)
    {
      Take(e, schedule[k]);
      k := k + 1;
    }
  }
}
