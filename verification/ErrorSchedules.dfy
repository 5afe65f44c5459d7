/**
 Schedules of one request up to and past its first Error, chosen so that the error signal is spent where we want:
 on the send of a height to the ordering channel, on the send of a given height to the work channel, or nowhere.
 */
module ErrorSchedules {
  import opened Structs
  import opened RangeProtocol
  import opened RangeInvariant
  import opened RangeResults
  import opened RangeProgress
  import opened SharedPools
  import opened Executions
  import opened Schedules
  import opened ErrorPath

  // ---------- any schedule of a request with a failing height gets to its Error ----------

  lemma NotFinished(cfg: Config, v: View, h: nat)
    requires Inv(cfg, v) && FirstFailing(cfg, h)
    ensures !Finished(v.l)
    ensures (v.l.consumer.Signalling? || v.l.consumer.FailForward? || v.l.consumer.Failing? ==> v.l.consumer.h == h)
  {
    hide Owned, Queues, RoomInv, Reassembly;
    if v.l.consumer.Done? { SuccessIsComplete(cfg, v); }
    if v.l.consumer.Signalling? || v.l.consumer.FailForward? || v.l.consumer.Failing? {
      assert FirstFailing(cfg, v.l.consumer.h);
      FirstFailingIsUnique(cfg, h, v.l.consumer.h);
    }
  }

  /** From its start a request with a failing height can get to the Error of the first. */
  lemma {:induction false} ReachSignal(lim: Limits, s: System, r: nat, cfg: Config, v: View, h: nat)
    returns (s': System, v': View)
    requires ValidLimits(lim) && At(lim, s, r, cfg, v) && FirstFailing(cfg, h) && !v.l.cancelled && Active(v.l.consumer)
    ensures At(lim, s', r, cfg, v') && !v'.l.cancelled && v'.l.consumer.Signalling? && v'.l.consumer.h == h
    decreases StepsLeft(cfg, v.l)
  {
    hide Inv, Enabled, Apply, StepsLeft;
    AtFacts(lim, s, r, cfg, v);
    NotFinished(cfg, v, h);
    if v.l.consumer.Signalling? {
      s', v' := s, v;
    } else {
      StepsLeftSign(cfg, v);
      var a := NextAction(cfg, v);
      var b, s1, a1, v1 := Drive(lim, s, r, cfg, v, a);
      OnlyCancelCancels(cfg, v, a1);
      SignalNeedsError(cfg, v, a1);
      StaysActive(cfg, v, a1);
      s', v' := ReachSignal(lim, s1, r, cfg, v1, h);
    }
  }

  lemma SignalNeedsError(cfg: Config, v: View, a: Action)
    requires Enabled(cfg, v, a) && !v.l.consumer.Signalling?
    ensures !a.CSignal?
  {
  }

  // ---------- a schedule that reaches the Error with the producer one height ahead ----------

  /** The error has not been signalled and the producer is at most about to order the height after h. */
  ghost predicate Early(cfg: Config, v: View, h: nat) {
    && !v.l.cancelled && Active(v.l.consumer) && Base(cfg, v.l.consumer) <= h
    && OrderedTo(cfg, v.l.producer) <= h + 1
  }

  ghost predicate Ahead(p: Producer, h: nat) { p.Ordering? && p.item.Item? && p.item.h == h + 1 }

  /** The consumer waits for nothing that the producer has not already sent. */
  lemma ConsumerIsServed(cfg: Config, v: View) returns (a: Action)
    requires Inv(cfg, v) && !v.l.cancelled && Active(v.l.consumer) && !v.l.consumer.Signalling? && !Starved(v)
    requires Base(cfg, v.l.consumer) < QueuedTo(cfg, v.l.producer) && !PastLast(v.l.consumer)
    ensures Enabled(cfg, v, a) && Regular(a) && !IsProducer(a) && !a.CSignal?
  {
    hide Inv;
    match v.l.consumer
    case Waiting(_) => WaiterIsServed(cfg, v); a := CTake;
    case Reading(_, _, _) => a := ReaderIsServed(cfg, v);
    case Holding(_, _, _, _) => a := ForwarderCanMove(cfg, v);
    case Putting(_, _) => a := CPut;
  }

  lemma WaiterIsServed(cfg: Config, v: View)
    requires Inv(cfg, v) && v.l.consumer.Waiting? && v.l.consumer.next < QueuedTo(cfg, v.l.producer)
    ensures v.ord.buf != []
  {
  }

  /** Once its Error was read, a height has been taken by a worker, and it is the first that fails. */
  lemma SignalledHeight(cfg: Config, v: View, h: nat)
    requires Inv(cfg, v) && FirstFailing(cfg, h) && v.l.consumer.Signalling? && v.l.consumer.h <= h
    ensures v.l.consumer.h == h && h < v.l.taken
  {
    var k := v.l.consumer;
    assert k.h in v.l.owned;
    assert Split(cfg, k.h, |Msgs(cfg, k.h)|, Buffered(v.l.owned, v.resp, k.h),
                 Unwritten(cfg, v.l.workers, v.l.taken, k.h));
  }

  lemma EarlyAction(cfg: Config, v: View, h: nat) returns (a: Action)
    requires Inv(cfg, v) && FirstFailing(cfg, h) && h < LastHeight(cfg) && Early(cfg, v, h)
    requires !Starved(v)
    requires !(v.l.consumer.Signalling? && Ahead(v.l.producer, h))
    ensures Enabled(cfg, v, a) && Regular(a) && !a.CSignal? && !(a.POrder? && Ahead(v.l.producer, h))
  {
    if v.l.consumer.Signalling? {
      SignalledHeight(cfg, v, h);
      var c := Unused(v.l.owned.Values);
      a := PGet(c, Chan([], 1, false));
    } else if Ahead(v.l.producer, h) {
      a := ConsumerIsServed(cfg, v);
    } else {
      a := NextAction(cfg, v);
    }
  }

  lemma EarlyProducer(cfg: Config, v: View, a: Action, h: nat)
    requires Inv(cfg, v) && h < LastHeight(cfg) && Early(cfg, v, h) && IsProducer(a) && ProducerEnabled(v, a)
    requires Regular(a) && !(a.POrder? && Ahead(v.l.producer, h))
    ensures Early(cfg, ProducerApply(cfg, v, a), h)
  {
    hide Queues, Output, RoomInv, Reassembly;
    if a.PWork? { HeightStep(cfg, v.l.producer.item.h); }
  }

  lemma EarlyConsumer(cfg: Config, v: View, a: Action, h: nat)
    requires Inv(cfg, v) && FirstFailing(cfg, h) && Early(cfg, v, h) && IsConsumer(a) && ConsumerEnabled(cfg, v, a)
    requires !a.CSignal?
    ensures Early(cfg, ConsumerApply(cfg, v, a), h)
  {
    ConsumerStaysActive(cfg, v, a);
    if a.CTake? { CTakeBase(cfg, v); }
    else if a.CRead? { ReadMoves(cfg, v); AfterReadGot(cfg, v.l.consumer, h); }
    else if a.CPut? { assert v.l.consumer.h != h; }
  }

  lemma EarlyKept(cfg: Config, v: View, a: Action, h: nat)
    requires Inv(cfg, v) && FirstFailing(cfg, h) && h < LastHeight(cfg) && Early(cfg, v, h) && Enabled(cfg, v, a)
    requires Regular(a) && !a.CSignal? && !(a.POrder? && Ahead(v.l.producer, h))
    ensures Early(cfg, Apply(cfg, v, a), h)
  {
    hide Inv;
    if IsProducer(a) { EarlyProducer(cfg, v, a, h); }
    else if IsConsumer(a) { EarlyConsumer(cfg, v, a, h); }
    else if IsWorker(a) { WorkerFrame(cfg, v, a); }
  }

  /** From its start a request can get to its first Error with the producer waiting to order the next height. */
  lemma {:induction false} ReachError(lim: Limits, s: System, r: nat, cfg: Config, v: View, h: nat)
    returns (s': System, v': View)
    requires ValidLimits(lim) && At(lim, s, r, cfg, v) && FirstFailing(cfg, h) && h < LastHeight(cfg)
    requires Early(cfg, v, h)
    ensures At(lim, s', r, cfg, v') && Early(cfg, v', h) && v'.l.consumer.Signalling? && Ahead(v'.l.producer, h)
    decreases StepsLeft(cfg, v.l)
  {
    hide Inv, Enabled, Apply, StepsLeft;
    if v.l.consumer.Signalling? && Ahead(v.l.producer, h) {
      s', v' := s, v;
    } else {
      AtFacts(lim, s, r, cfg, v);
      StepsLeftSign(cfg, v);
      var a := EarlyAction(cfg, v, h);
      var b, s1, a1, v1 := Drive(lim, s, r, cfg, v, a);
      EarlyKept(cfg, v, a1, h);
      s', v' := ReachError(lim, s1, r, cfg, v1, h);
    }
  }

  // ---------- spending the signal ----------

  /** The Error of h was read and the producer is at a later height, y at most. */
  ghost predicate Marching(v: View, h: nat, y: nat) {
    && !v.l.cancelled && v.l.consumer.Signalling? && v.l.consumer.h == h
    && match v.l.producer
       case Getting(z) => h < z <= y
       case Ordering(item) => item.Item? && h < item.h <= y
       case Working(item) => item.Item? && h < item.h <= y
       case _ => false
  }

  /** While the consumer has the Error of h, both channels have room for the itemCap heights after h. */
  lemma MarchAction(cfg: Config, v: View, h: nat, y: nat) returns (a: Action)
    requires Inv(cfg, v) && Marching(v, h, y) && y <= h + v.ord.cap && y <= h + v.work.cap
    requires !(v.l.producer.Working? && v.l.producer.item.h == y)
    ensures Enabled(cfg, v, a) && IsProducer(a) && Regular(a)
  {
    hide Contents, WorkersOk, WorkersRef, Output, Dispatch, RoomInv;
    match v.l.producer
    case Getting(_) =>
      var c := Unused(v.l.owned.Values);
      a := PGet(c, Chan([], 1, false));
    case Ordering(_) => a := POrder;
    case Working(_) => SignalledIsTaken(cfg, v); a := PWork;
  }

  lemma MarchKept(cfg: Config, v: View, a: Action, h: nat, y: nat)
    requires Inv(cfg, v) && Marching(v, h, y) && y <= LastHeight(cfg) && Enabled(cfg, v, a) && IsProducer(a)
    requires Regular(a)
    requires !(v.l.producer.Working? && v.l.producer.item.h == y)
    ensures Marching(Apply(cfg, v, a), h, y)
  {
    hide Queues, Output, RoomInv, Reassembly, Ownership, ItemsRef, WorkersRef, AfterHeight;
    ProducerFrame(cfg, v, a);
    if a.PWork? { HeightStep(cfg, v.l.producer.item.h); }
  }

  /** The producer can go on to the point where height y is ordered and about to be sent to the workers. */
  lemma {:induction false} March(lim: Limits, s: System, r: nat, cfg: Config, v: View, h: nat, y: nat)
    returns (s': System, v': View)
    requires ValidLimits(lim) && At(lim, s, r, cfg, v) && Marching(v, h, y) && y <= LastHeight(cfg)
    requires y <= h + lim.itemCap
    ensures At(lim, s', r, cfg, v') && Marching(v', h, y) && v'.l.producer.Working? && v'.l.producer.item.h == y
    decreases StepsLeft(cfg, v.l)
  {
    hide Inv, Enabled, Apply, StepsLeft;
    if v.l.producer.Working? && v.l.producer.item.h == y {
      s', v' := s, v;
    } else {
      AtFacts(lim, s, r, cfg, v);
      StepsLeftSign(cfg, v);
      var a := MarchAction(cfg, v, h, y);
      var b, s1, a1, v1 := Drive(lim, s, r, cfg, v, a);
      MarchKept(cfg, v, a1, h, y);
      s', v' := March(lim, s1, r, cfg, v1, h, y);
    }
  }

  lemma SpendingSteps(cfg: Config, v: View)
    requires Inv(cfg, v) && v.l.consumer.Signalling? && (v.l.producer.Ordering? || v.l.producer.Working?)
    ensures ConsumerEnabled(cfg, v, CSignal)
    ensures var v1 := ConsumerApply(cfg, v, CSignal);
            ProducerEnabled(v1, PSkip) &&
            var v2 := ProducerApply(cfg, v1, PSkip);
            && v2.l.consumer == FailForward(v.l.consumer.h, v.l.consumer.err)
            && v2.l.cancelled == v.l.cancelled && v2.l.spent == SpendOn(v.l.producer)
  {
    hide Queues, Output, RoomInv, Reassembly, Ownership, ItemsRef, WorkersRef, AfterHeight;
  }

  /** The consumer signals its Error and the producer takes the signal instead of its next send. */
  lemma Spend(lim: Limits, s: System, r: nat, cfg: Config, v: View) returns (s': System, v': View)
    requires ValidLimits(lim) && At(lim, s, r, cfg, v)
    requires v.l.consumer.Signalling? && (v.l.producer.Ordering? || v.l.producer.Working?)
    ensures At(lim, s', r, cfg, v') && v'.l.consumer.FailForward? && v'.l.consumer.h == v.l.consumer.h
    ensures v'.l.cancelled == v.l.cancelled && v'.l.spent == SpendOn(v.l.producer)
  {
    hide Inv, At, StepsLeft, ProducerEnabled, ProducerApply, ConsumerEnabled, ConsumerApply;
    AtFacts(lim, s, r, cfg, v);
    SpendingSteps(cfg, v);
    var b1, s1, a1, v1 := Drive(lim, s, r, cfg, v, CSignal);
    var b2, s2, a2, v2 := Drive(lim, s1, r, cfg, v1, PSkip);
    s', v' := s2, v2;
  }

  // ---------- forwarding the Error ----------

  lemma ForwardKeeps(cfg: Config, v: View, a: Action)
    requires Enabled(cfg, v, a) && (IsSender(a) || a.CForward? || a.CFail?) && !a.Cancel? && !Active(v.l.consumer)
    ensures var v' := Apply(cfg, v, a);
            && SamePipeline(v, v') && !Active(v'.l.consumer) && v'.l.cancelled == v.l.cancelled
            && Base(cfg, v'.l.consumer) == Base(cfg, v.l.consumer)
  {
    OutputKeepsPipeline(cfg, v, a);
  }

  /** A request that has signalled its error can forward it without moving the producer or a worker. */
  lemma {:induction false} ReachFailing(lim: Limits, s: System, r: nat, cfg: Config, v: View)
    returns (s': System, v': View)
    requires ValidLimits(lim) && At(lim, s, r, cfg, v) && !v.l.cancelled && !Active(v.l.consumer)
    ensures At(lim, s', r, cfg, v') && v'.l.consumer.Failing? && SamePipeline(v, v')
    ensures Base(cfg, v'.l.consumer) == Base(cfg, v.l.consumer)
    decreases StepsLeft(cfg, v.l)
  {
    hide Inv, StepsLeft, Enabled, Apply;
    if v.l.consumer.Failing? {
      s', v' := s, v;
    } else {
      AtFacts(lim, s, r, cfg, v);
      StepsLeftSign(cfg, v);
      var a := ForwarderCanMove(cfg, v);
      var b, s1, a1, v1 := Drive(lim, s, r, cfg, v, a);
      ForwardKeeps(cfg, v, a1);
      s', v' := ReachFailing(lim, s1, r, cfg, v1);
    }
  }
}
