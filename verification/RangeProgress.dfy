/**
 Deadlock freedom and termination of a run, for any interleaving, any channel capacities of at
 least one and any number of transactions per block.

 StepsLeft counts the channel operations a run has still to make.  Every action but the cancellation
 itself takes away at least one.  Before the error signal, and without a cancellation, it takes away
 exactly one, so all schedules of a request that fetches all its heights have the same length.
 */
module RangeProgress {
  import opened Structs
  import opened RangeProtocol
  import opened RangeInvariant
  import opened RangeResults

  /** Everything has returned. */
  ghost predicate Finished(l: Local) {
    l.consumer.Done? && l.sender.Ended? && l.producer.Stopped? && AllExited(l)
  }

  /** An action of one of the goroutines, as opposed to the request being cancelled or failing. */
  ghost predicate Regular(a: Action) { !a.PSkip? && !a.SCancel? && !a.Cancel? }

  // ---------- some goroutine can always move ----------

  /** The consumer reads the channel of a height, and that channel is nil: nothing can be sent to it. */
  ghost predicate Starved(v: View) {
    v.l.consumer.Reading? && v.l.consumer.ch in v.resp && v.resp[v.l.consumer.ch].cap == 0
  }

  lemma {:induction false} Unused(s: set<nat>) returns (c: nat)
    ensures c !in s && forall x :: x in s ==> x < c
  {
    if s == {} { c := 0; }
    else {
      var x :| x in s;
      var d := Unused(s - {x});
      c := if x < d then d else x + 1;
      forall y | y in s ensures y < c { if y != x { assert y in s - {x}; } }
    }
  }

  /** If the consumer waits on the channel of a height that is still queued, a worker is free to take it. */
  lemma QueuedHeightIsTaken(cfg: Config, v: View) returns (a: Action)
    requires Inv(cfg, v) && v.l.consumer.Reading? && v.l.taken <= v.l.consumer.h && v.work.buf != []
    ensures Enabled(cfg, v, a) && IsWorker(a)
  {
    var l := v.l;
    var k := l.workers[0];
    assert WorkerOk(cfg, l.taken, v.work.closed && v.work.buf == [], k);
    assert WorkerRef(l.owned, k);
    assert forall h :: cfg.start <= h < l.taken ==> cfg.outcome(h).Fetched?;
    a := WTake(0);
  }

  /** If the consumer waits on an empty channel of a taken height, the worker holding it can move. */
  lemma {:induction false} FindHolder(cfg: Config, workers: seq<Worker>, h: nat) returns (w: nat)
    requires Pending(cfg, workers, h) != []
    ensures w < |workers| && Holds(workers[w], h) && Todo(cfg, workers[w]) == Pending(cfg, workers, h)
  {
    if Holds(workers[0], h) { w := 0; } else { var j := FindHolder(cfg, workers[1..], h); w := j + 1; }
  }

  /** The worker that holds the height being read can move while its channel is empty. */
  lemma HolderCanMove(cfg: Config, v: View, w: nat) returns (a: Action)
    requires Owned(cfg, v) && v.l.consumer.Reading? && !Starved(v) && Buffered(v.l.owned, v.resp, v.l.consumer.h) == []
    requires w < |v.l.workers| && Holds(v.l.workers[w], v.l.consumer.h) && Todo(cfg, v.l.workers[w]) != []
    ensures Enabled(cfg, v, a) && IsWorker(a)
  {
    hide ItemsRef, Msgs;
    assert WorkerRef(v.l.owned, v.l.workers[w]) && OpenChannel(v.resp, v.l.owned[v.l.consumer.h]);
    a := if v.l.workers[w].Fetching? then WFetch(w) else WSend(w);
  }

  /** A height that was sent to the work channel reaches its reader without the producer. */
  lemma ReaderIsServed(cfg: Config, v: View) returns (a: Action)
    requires Inv(cfg, v) && v.l.consumer.Reading? && v.l.consumer.h < QueuedTo(cfg, v.l.producer) && !Starved(v)
    ensures Enabled(cfg, v, a) && (IsWorker(a) || a.CRead?)
  {
    var l := v.l;
    var k := l.consumer;
    var buf, rest := Buffered(l.owned, v.resp, k.h), Unwritten(cfg, l.workers, l.taken, k.h);
    assert Split(cfg, k.h, k.got, buf, rest) && k.got < |Msgs(cfg, k.h)|;
    assert l.taken <= k.h ==> v.work.buf != [];
    hide Queues, Output, RoomInv, Reassembly, Dispatch, ItemsRef;
    if buf != [] {
      a := CRead;
    } else if k.h < l.taken {
      assert rest != [];
      var w := FindHolder(cfg, l.workers, k.h);
      a := HolderCanMove(cfg, v, w);
    } else {
      a := QueuedHeightIsTaken(cfg, v);
    }
  }

  lemma ReaderCanMove(cfg: Config, v: View) returns (a: Action)
    requires Inv(cfg, v) && v.l.consumer.Reading? && !Starved(v)
    ensures Enabled(cfg, v, a) && Regular(a) && !IsSender(a)
  {
    if v.l.consumer.h < QueuedTo(cfg, v.l.producer) { a := ReaderIsServed(cfg, v); } else { a := PWork; }
  }

  lemma WaiterCanMove(cfg: Config, v: View) returns (a: Action)
    requires Inv(cfg, v) && v.l.consumer.Waiting?
    ensures Enabled(cfg, v, a) && Regular(a) && !IsSender(a)
  {
    var l := v.l;
    if v.ord.buf != [] { a := CTake; }
    else {
      match l.producer
      case Getting(_) =>
        var c := Unused(l.owned.Values);
        a := PGet(c, Chan([], 1, false));
      case Ordering(_) => a := POrder;
      case Lasting => a := PLast;
      case _ => a := POrder;
    }
  }

  lemma SenderCanMove(cfg: Config, v: View) returns (a: Action)
    requires Inv(cfg, v) && !v.l.cancelled && !v.l.sender.Ended? && (v.l.outBuf != [] || v.l.outClosed)
    ensures Enabled(cfg, v, a) && Regular(a) && (IsSender(a) || a.CForward? || a.CFail?)
  {
    match v.l.sender
    case Receiving => a := SRecv;
    case Have(_) => a := SSend;
    case Ending => a := SEnd;
  }

  lemma ForwarderCanMove(cfg: Config, v: View) returns (a: Action)
    requires Inv(cfg, v) && !v.l.cancelled && (v.l.consumer.Holding? || v.l.consumer.FailForward?)
    ensures Enabled(cfg, v, a) && Regular(a) && (IsSender(a) || a.CForward? || a.CFail?)
  {
    if |v.l.outBuf| >= cfg.outCap { a := SenderCanMove(cfg, v); }
    else if v.l.consumer.Holding? { a := CForward; }
    else { a := CFail; }
  }

  lemma StragglerCanMove(cfg: Config, v: View) returns (a: Action)
    requires Inv(cfg, v) && v.l.consumer.Done? && !(v.l.producer.Stopped? && AllExited(v.l))
    ensures Enabled(cfg, v, a) && Regular(a)
  {
    var l := v.l;
    if l.producer.Stopped? {
      var w :| 0 <= w < |l.workers| && !l.workers[w].Exited?;
      assert WorkerRef(l.owned, l.workers[w]);
      a := WExit(w);
    } else {
      a := PClose;
    }
  }

  lemma AwaiterCanMove(cfg: Config, v: View) returns (a: Action)
    requires Inv(cfg, v) && !v.l.cancelled && v.l.consumer.Awaiting?
    ensures Enabled(cfg, v, a) && Regular(a)
  {
    if v.l.sender.Ended? { a := CFin; } else { a := SenderCanMove(cfg, v); }
  }

  lemma DoneIsEnded(cfg: Config, v: View)
    requires Inv(cfg, v) && !v.l.cancelled && v.l.consumer.Done?
    ensures v.l.sender.Ended?
  {
  }

  /** No deadlock: until the request is finished, or its Error has been forwarded, a goroutine can move, unless the
      consumer waits for a nil channel. */
  lemma NextAction(cfg: Config, v: View) returns (a: Action)
    requires Inv(cfg, v) && !v.l.cancelled && !v.l.consumer.Failing? && !Finished(v.l) && !Starved(v)
    ensures Enabled(cfg, v, a) && Regular(a)
  {
    hide Inv;
    var l := v.l;
    match l.consumer
    case Waiting(_) => a := WaiterCanMove(cfg, v);
    case Reading(_, _, _) => a := ReaderCanMove(cfg, v);
    case Holding(_, _, _, _) => a := ForwarderCanMove(cfg, v);
    case FailForward(_, _) => a := ForwarderCanMove(cfg, v);
    case Putting(_, _) => a := CPut;
    case Signalling(_, _) => a := CSignal;
    case Releasing => a := CRelease;
    case Returned => a := CClose;
    case Awaiting => a := AwaiterCanMove(cfg, v);
    case Done => DoneIsEnded(cfg, v); a := StragglerCanMove(cfg, v);
  }

  // ---------- waiting for the workers after an error ----------

  /** Worker w has more to write to a channel that is full. */
  ghost predicate Stuck(v: View, w: nat) {
    w < |v.l.workers| &&
    var k := v.l.workers[w];
    k.Sending? && k.ch in v.resp && |v.resp[k.ch].buf| >= v.resp[k.ch].cap
  }

  /** The producer is at a full ordering channel and there is no signal to take instead. */
  ghost predicate OrderBlocked(v: View) {
    (v.l.producer.Ordering? || v.l.producer.Lasting?) && |v.ord.buf| >= v.ord.cap && !v.l.token
  }

  lemma BusyWorkerCanMove(cfg: Config, v: View, w: nat) returns (a: Action)
    requires Inv(cfg, v) && w < |v.l.workers| && !v.l.workers[w].Exited? && !v.l.workers[w].Idle? && !Stuck(v, w)
    ensures Enabled(cfg, v, a) && IsWorker(a)
  {
    var l := v.l;
    match l.workers[w]
    case Fetching(_, _) => a := WFetch(w);
    case Returning(_) => a := WExit(w);
    case Sending(h, ch, todo) =>
      assert WorkerRef(l.owned, l.workers[w]) && OpenChannel(v.resp, l.owned[h]);
      assert WorkerOk(cfg, l.taken, v.work.closed && v.work.buf == [], l.workers[w]);
      a := WSend(w);
  }

  /** A worker is stuck only on a height with more messages than its channel holds. */
  lemma StuckIsOversized(cfg: Config, v: View, w: nat)
    requires Inv(cfg, v) && Stuck(v, w)
    ensures var k := v.l.workers[w];
            && Base(cfg, v.l.consumer) <= k.h < v.l.taken && k.h <= LastHeight(cfg)
            && |Msgs(cfg, k.h)| > v.resp[k.ch].cap
  {
    var l := v.l;
    var Sending(h, ch, todo) := l.workers[w];
    assert WorkerRef(l.owned, l.workers[w]) && OpenChannel(v.resp, l.owned[h]);
    assert WorkerOk(cfg, l.taken, v.work.closed && v.work.buf == [], l.workers[w]);
    HeldOnce(l.workers, w, h);
    PendingHeld(cfg, l.workers, w, h);
    assert Fits(cfg, h, Buffered(l.owned, v.resp, h), Unwritten(cfg, l.workers, l.taken, h));
  }

  lemma ProducerCanMove(cfg: Config, v: View) returns (a: Action)
    requires Inv(cfg, v) && v.work.buf == [] && !v.l.producer.Stopped? && !OrderBlocked(v)
    ensures Enabled(cfg, v, a) && IsProducer(a)
  {
    match v.l.producer
    case Getting(_) =>
      var c := Unused(v.l.owned.Values);
      a := PGet(c, Chan([], 1, false));
    case Ordering(_) => a := if v.l.token then PSkip else POrder;
    case Working(_) => a := PWork;
    case Lasting => a := if v.l.token then PSkip else PLast;
    case Closing => a := PClose;
  }

  /** While getRange waits for its workers: unless a worker is stuck, or the producer is blocked with nothing left
      to take, a worker or the producer can move until all workers have returned. */
  lemma ErrorWaitMoves(cfg: Config, v: View) returns (a: Action)
    requires Inv(cfg, v) && !AllExited(v.l)
    requires forall w :: 0 <= w < |v.l.workers| ==> !Stuck(v, w)
    requires forall w :: 0 <= w < |v.l.workers| && v.l.workers[w].Idle? && v.work.buf == [] ==> !OrderBlocked(v)
    ensures Enabled(cfg, v, a) && (IsWorker(a) || IsProducer(a))
  {
    var w :| 0 <= w < |v.l.workers| && !v.l.workers[w].Exited?;
    if !v.l.workers[w].Idle? { a := BusyWorkerCanMove(cfg, v, w); }
    else if v.work.buf != [] { a := WTake(w); }
    else if v.l.producer.Stopped? { a := WExit(w); }
    else { a := ProducerCanMove(cfg, v); }
  }

  // ---------- how many steps are left ----------

  /** The number of messages of the heights a..b-1. */
  ghost function MessageCount(cfg: Config, a: nat, b: nat): nat
    decreases b - a
  {
    if a >= b then 0 else |Msgs(cfg, a)| + MessageCount(cfg, a + 1, b)
  }

  /** Three steps for each height, the Last marker and the close. */
  ghost function ProducerLeft(cfg: Config, p: Producer): int {
    var after := LastHeight(cfg) + 1;
    match p
    case Getting(h) => 3 * (after - h) + 2
    case Ordering(item) => if item.Item? then 3 * (after - item.h) + 1 else 0
    case Working(item) => if item.Item? then 3 * (after - item.h) else 0
    case Lasting => 2
    case Closing => 1
    case Stopped => 0
  }

  ghost function WorkerLeft(cfg: Config, k: Worker): nat {
    match k
    case Idle => 1
    case Fetching(h, _) => 2 + |Msgs(cfg, h)|
    case Sending(_, _, todo) => 1 + |todo|
    case Returning(_) => 1
    case Exited(_) => 0
  }

  ghost function WorkersLeft(cfg: Config, workers: seq<Worker>): nat {
    if workers == [] then 0 else WorkerLeft(cfg, workers[0]) + WorkersLeft(cfg, workers[1..])
  }

  /** Taking, fetching and writing each height no worker has taken. */
  ghost function UntakenLeft(cfg: Config, taken: nat): int {
    2 * (LastHeight(cfg) + 1 - taken) + MessageCount(cfg, taken, LastHeight(cfg) + 1)
  }

  /** For each height: receive it, read each message, forward all but the Partial, give the channel back. */
  ghost function HeightsLeft(cfg: Config, next: nat): int {
    2 * MessageCount(cfg, next, LastHeight(cfg) + 1) + (LastHeight(cfg) + 1 - next) + 4
  }

  ghost function ConsumerLeft(cfg: Config, k: Consumer): int {
    match k
    case Waiting(n) => HeightsLeft(cfg, n)
    case Reading(h, _, got) => 2 * (|Msgs(cfg, h)| - got) + HeightsLeft(cfg, h + 1)
    case Holding(h, _, got, _) => 2 * (|Msgs(cfg, h)| - got) + 1 + HeightsLeft(cfg, h + 1)
    case Putting(h, _) => 1 + HeightsLeft(cfg, h + 1)
    case Signalling(h, _) => 1 + HeightsLeft(cfg, h + 1)
    case FailForward(h, _) => HeightsLeft(cfg, h + 1)
    case Failing(h, _) => HeightsLeft(cfg, h + 1) - 1
    case Releasing => 3
    case Returned => 2
    case Awaiting => 1
    case Done => 0
  }

  ghost function SenderLeft(cfg: Config, s: Sender, sent: nat): int {
    var n := |Listing(cfg, cfg.start)|;
    match s
    case Receiving => 2 * (n - sent) + 2
    case Have(_) => 2 * (n - sent) + 1
    case Ending => 1
    case Ended => 0
  }

  ghost function StepsLeft(cfg: Config, l: Local): int {
    ProducerLeft(cfg, l.producer) + UntakenLeft(cfg, l.taken) + WorkersLeft(cfg, l.workers)
    + ConsumerLeft(cfg, l.consumer) + SenderLeft(cfg, l.sender, |l.calls|)
  }

  lemma {:induction false} WorkersLeftUpdate(cfg: Config, workers: seq<Worker>, w: nat, k: Worker)
    requires w < |workers|
    ensures WorkersLeft(cfg, workers[w := k])
              == WorkersLeft(cfg, workers) - WorkerLeft(cfg, workers[w]) + WorkerLeft(cfg, k)
  {
    if w == 0 {
      assert workers[w := k][1..] == workers[1..];
    } else {
      assert workers[w := k][1..] == workers[1..][w - 1 := k];
      WorkersLeftUpdate(cfg, workers[1..], w - 1, k);
    }
  }

  lemma {:induction false} MessageCountSplit(cfg: Config, a: nat, m: nat, b: nat)
    requires a <= m <= b
    ensures MessageCount(cfg, a, b) == MessageCount(cfg, a, m) + MessageCount(cfg, m, b)
    decreases m - a
  {
    if a < m { MessageCountSplit(cfg, a + 1, m, b); }
  }

  lemma ProducerCounts(cfg: Config, v: View, a: Action)
    requires ValidConfig(cfg) && ProducerOk(cfg, v.l.owned, v.l.producer) && !v.l.fault
    requires IsProducer(a) && ProducerEnabled(v, a)
    requires ChannelsOk(v.l.producer.Stopped?, v.ord, v.work)
    ensures StepsLeft(cfg, ProducerApply(cfg, v, a).l) == StepsLeft(cfg, v.l) - 1
  {
    if v.l.producer.Working? { HeightStep(cfg, v.l.producer.item.h); }
  }

  lemma TakeCounts(cfg: Config, v: View, w: nat)
    requires WorkerEnabled(v, WTake(w)) && v.l.taken <= v.work.buf[0].h <= LastHeight(cfg)
    ensures StepsLeft(cfg, WorkerApply(cfg, v, WTake(w)).l) <= StepsLeft(cfg, v.l) - 1
    ensures v.work.buf[0].h == v.l.taken ==> StepsLeft(cfg, WorkerApply(cfg, v, WTake(w)).l) == StepsLeft(cfg, v.l) - 1
  {
    var h := v.work.buf[0].h;
    WorkersLeftUpdate(cfg, v.l.workers, w, Fetching(h, v.work.buf[0].ch));
    MessageCountSplit(cfg, v.l.taken, h, LastHeight(cfg) + 1);
  }

  lemma WorkerCounts(cfg: Config, v: View, a: Action)
    requires (a.WFetch? || a.WSend? || a.WExit?) && WorkerEnabled(v, a)
    requires a.WSend? ==> !v.resp[v.l.workers[a.w].ch].closed
    ensures StepsLeft(cfg, WorkerApply(cfg, v, a).l) == StepsLeft(cfg, v.l) - 1
  {
    WorkersLeftUpdate(cfg, v.l.workers, a.w, WorkerApply(cfg, v, a).l.workers[a.w]);
  }

  lemma CTakeCounts(cfg: Config, v: View)
    requires Reassembly(cfg, v) && ConsumerEnabled(cfg, v, CTake) && !v.ord.closed
    requires ProducerOk(cfg, v.l.owned, v.l.producer) && v.l.consumer.next <= LastHeight(cfg) + 1
    ensures StepsLeft(cfg, ConsumerApply(cfg, v, CTake).l) == StepsLeft(cfg, v.l) - 1
  {
    hide Contents, LiveHeights, Msgs;
    var l := v.l;
    var n := l.consumer.next;
    TakeConsecutive(n, OrderedTo(cfg, l.producer), LastQueued(l.producer, l.consumer), v.ord.buf);
    assert n <= LastHeight(cfg) ==> HeightsLeft(cfg, n) == 2 * |Msgs(cfg, n)| + 1 + HeightsLeft(cfg, n + 1);
  }

  lemma ConsumerCounts(cfg: Config, v: View, a: Action)
    requires a.CForward? || a.CPut? || a.CSignal? || a.CFail? || a.CRelease? || a.CClose? || a.CFin?
    requires ConsumerEnabled(cfg, v, a)
    ensures StepsLeft(cfg, ConsumerApply(cfg, v, a).l) == StepsLeft(cfg, v.l) - 1
  {
  }

  lemma ReadCounts(cfg: Config, v: View)
    requires Inv(cfg, v) && ConsumerEnabled(cfg, v, CRead)
    ensures StepsLeft(cfg, ConsumerApply(cfg, v, CRead).l) == StepsLeft(cfg, v.l) - 1
  {
    hide Owned, Queues, Output, Contents, Consecutive, RoomInv;
    ReadMoves(cfg, v);
    MessageKind(cfg, v.l.consumer.h, v.l.consumer.got);
  }

  lemma SenderCounts(cfg: Config, v: View, a: Action)
    requires Inv(cfg, v) && (a.SRecv? || a.SSend? || a.SEnd? || a.SCancel?) && SenderEnabled(v, a)
    ensures StepsLeft(cfg, SenderApply(v, a).l) <= StepsLeft(cfg, v.l) - 1
    ensures !v.l.cancelled && !a.SCancel? ==> StepsLeft(cfg, SenderApply(v, a).l) == StepsLeft(cfg, v.l) - 1
  {
    hide Owned, Queues, RoomInv, Reassembly, Delivered;
    CallsAreNumberedPrefix(cfg, v);
    if a.SRecv? && v.l.outBuf == [] {
      SuccessIsComplete(cfg, v);
      assert v.l.written[SentCount(v.l)..] == [];
    }
  }

  lemma AnyConsumerCounts(cfg: Config, v: View, a: Action)
    requires Inv(cfg, v)
    requires IsConsumer(a)
    requires ConsumerEnabled(cfg, v, a)
    ensures StepsLeft(cfg, ConsumerApply(cfg, v, a).l) == StepsLeft(cfg, v.l) - 1
  {
    if a.CRead? { ReadCounts(cfg, v); }
    else if a.CTake? { CTakeCounts(cfg, v); }
    else { ConsumerCounts(cfg, v, a); }
  }

  lemma AnyWorkerCounts(cfg: Config, v: View, a: Action)
    requires Inv(cfg, v) && IsWorker(a) && WorkerEnabled(v, a)
    ensures StepsLeft(cfg, WorkerApply(cfg, v, a).l) <= StepsLeft(cfg, v.l) - 1
    ensures Active(v.l.consumer) ==> StepsLeft(cfg, WorkerApply(cfg, v, a).l) == StepsLeft(cfg, v.l) - 1
  {
    if a.WTake? { TakeCounts(cfg, v, a.w); }
    else {
      assert WorkerRef(v.l.owned, v.l.workers[a.w]);
      assert a.WSend? ==> OpenChannel(v.resp, v.l.owned[v.l.workers[a.w].h]);
      WorkerCounts(cfg, v, a);
    }
  }

  /** Every action but the cancellation itself brings the run closer to its end, whatever fails or is
      cancelled; before the error signal, and without cancellation, by exactly one step. */
  lemma StepCounts(cfg: Config, v: View, a: Action)
    requires Inv(cfg, v) && Enabled(cfg, v, a)
    ensures !a.Cancel? ==> StepsLeft(cfg, Apply(cfg, v, a).l) <= StepsLeft(cfg, v.l) - 1
    ensures Regular(a) && Active(v.l.consumer) && !v.l.cancelled ==>
              StepsLeft(cfg, Apply(cfg, v, a).l) == StepsLeft(cfg, v.l) - 1
    ensures a.Cancel? ==> StepsLeft(cfg, Apply(cfg, v, a).l) == StepsLeft(cfg, v.l)
  {
    hide Queues, Output, RoomInv, Contents, Consecutive, LiveHeights, Ownership, ItemsRef, WorkersRef;
    if IsProducer(a) { ProducerCounts(cfg, v, a); }
    else if IsWorker(a) { AnyWorkerCounts(cfg, v, a); }
    else if a.SRecv? || a.SSend? || a.SEnd? || a.SCancel? { SenderCounts(cfg, v, a); }
    else if !a.Cancel? { AnyConsumerCounts(cfg, v, a); }
  }

  lemma ConsumerLeftSign(cfg: Config, k: Consumer, written: seq<Resp>)
    requires Delivered(cfg, k, written)
    ensures 0 <= ConsumerLeft(cfg, k) && (ConsumerLeft(cfg, k) == 0 <==> k.Done?)
  {
  }

  /** The count is never negative, and zero exactly when the run is finished. */
  lemma StepsLeftSign(cfg: Config, v: View)
    requires Inv(cfg, v)
    ensures 0 <= StepsLeft(cfg, v.l)
    ensures StepsLeft(cfg, v.l) == 0 <==> Finished(v.l)
  {
    CallsAreNumberedPrefix(cfg, v);
    WorkersLeftZero(cfg, v.l.workers);
    ConsumerLeftSign(cfg, v.l.consumer, v.l.written);
    assert ProducerLeft(cfg, v.l.producer) >= 0 && (ProducerLeft(cfg, v.l.producer) == 0 <==> v.l.producer.Stopped?);
  }

  lemma {:induction false} WorkersLeftZero(cfg: Config, workers: seq<Worker>)
    ensures WorkersLeft(cfg, workers) == 0 <==> forall w :: 0 <= w < |workers| ==> workers[w].Exited?
  {
    if workers != [] {
      WorkersLeftZero(cfg, workers[1..]);
      assert forall w :: 1 <= w < |workers| ==> workers[w] == workers[1..][w - 1];
    }
  }
}
