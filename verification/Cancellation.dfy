/**
 Cancellation of a request's context.  The sender stops receiving and sends END, but getRange goes on
 writing to out, which nobody drains any more.  The result says exactly which requests can block there.
 */
module Cancellation {
  import opened Structs
  import opened RangeProtocol
  import opened RangeInvariant
  import opened RangeResults
  import opened RangeProgress
  import opened SharedPools
  import opened Executions
  import opened Schedules

  /** Before a forward, part of the listing is still to be written. */
  lemma MoreToWrite(cfg: Config, v: View)
    requires Inv(cfg, v) && (v.l.consumer.Holding? || v.l.consumer.FailForward?)
    ensures |v.l.written| < |Listing(cfg, cfg.start)|
  {
    var k, w := v.l.consumer, v.l.written;
    if k.Holding? {
      ForwardDelivered(cfg, k, w);
      DeliveredIsPrefix(cfg, Reading(k.h, k.ch, k.got), w + [k.resp]);
    } else {
      ListingSplit(cfg, cfg.start, k.h);
    }
  }

  /** What a request whose sender has ended may still have to put into out. */
  ghost predicate Fitting(cfg: Config, l: Local) {
    |Listing(cfg, cfg.start)| <= SentCount(l) + cfg.outCap
  }

  lemma RoomInOut(cfg: Config, v: View)
    requires Inv(cfg, v) && v.l.sender.Ended? && Fitting(cfg, v.l)
    requires (v.l.consumer.Holding? || v.l.consumer.FailForward?)
    ensures |v.l.outBuf| < cfg.outCap
  {
    MoreToWrite(cfg, v);
  }

  /** If the rest of the listing fits in out, a goroutine can move without the sender. */
  lemma EndedCanMove(cfg: Config, v: View) returns (a: Action)
    requires Inv(cfg, v) && v.l.sender.Ended? && Fitting(cfg, v.l) && !v.l.consumer.Failing? && !Finished(v.l)
    requires !Starved(v)
    ensures Enabled(cfg, v, a) && Regular(a)
  {
    hide Inv;
    match v.l.consumer
    case Waiting(_) => a := WaiterCanMove(cfg, v);
    case Reading(_, _, _) => a := ReaderCanMove(cfg, v);
    case Holding(_, _, _, _) => RoomInOut(cfg, v); a := CForward;
    case FailForward(_, _) => RoomInOut(cfg, v); a := CFail;
    case Putting(_, _) => a := CPut;
    case Signalling(_, _) => a := CSignal;
    case Releasing => a := CRelease;
    case Returned => a := CClose;
    case Awaiting => a := CFin;
    case Done => a := StragglerCanMove(cfg, v);
  }

  /** Nothing is sent after END. */
  lemma EndedStays(cfg: Config, v: View, a: Action)
    requires Enabled(cfg, v, a) && v.l.sender.Ended?
    ensures Apply(cfg, v, a).l.sender.Ended? && Apply(cfg, v, a).l.calls == v.l.calls
  {
    hide ProducerEnabled, ProducerApply, WorkerEnabled, WorkerApply, ConsumerEnabled, ConsumerApply;
    if IsProducer(a) { ProducerFrame(cfg, v, a); }
    else if IsWorker(a) { WorkerFrame(cfg, v, a); }
    else if IsConsumer(a) { ConsumerKeepsSender(cfg, v, a); }
  }

  // ---------- requests that go on to their end ----------

  /** Whether or not it is cancelled, a request whose listing fits in out can move until it ends or fails. */
  lemma FittingCanMove(cfg: Config, v: View) returns (a: Action)
    requires Inv(cfg, v) && !v.l.consumer.Failing? && !Finished(v.l) && |Listing(cfg, cfg.start)| <= cfg.outCap
    requires !Starved(v)
    ensures Enabled(cfg, v, a) && !a.Cancel?
  {
    hide Inv, Finished;
    CallsAreNumberedPrefix(cfg, v);
    if !v.l.cancelled { a := NextAction(cfg, v); }
    else {
      match v.l.sender
      case Receiving => a := SCancel;
      case Have(_) => a := SSend;
      case Ending => a := SEnd;
      case Ended => a := EndedCanMove(cfg, v);
    }
  }

  /** The request has returned with everything sent, or has forwarded its Error. */
  ghost predicate Over(l: Local) { Finished(l) || l.consumer.Failing? }

  lemma {:induction false} RunsToEnd(lim: Limits, s: System, r: nat, cfg: Config, v: View) returns (s': System)
    requires ValidLimits(lim) && At(lim, s, r, cfg, v) && |Listing(cfg, cfg.start)| <= cfg.outCap
    ensures Leads(lim, s, s') && r < |s'.runs| && Over(s'.runs[r].l)
    decreases StepsLeft(cfg, v.l)
  {
    hide Inv, StepsLeft, Enabled, Apply, Finished;
    AtFacts(lim, s, r, cfg, v);
    if Over(v.l) {
      LeadsSelf(lim, s);
      s' := s;
    } else {
      StepsLeftSign(cfg, v);
      var a := FittingCanMove(cfg, v);
      var b, s1, a1, v1 := Drive(lim, s, r, cfg, v, a);
      s' := RunsToEnd(lim, s1, r, cfg, v1);
      LeadsStep(lim, s, b, s');
    }
  }

  // ---------- requests that block ----------

  /** In no continuation, whatever other requests do, is request r over. */
  ghost predicate NeverOver(lim: Limits, s: System, r: nat) {
    forall s' :: Leads(lim, s, s') ==> r < |s'.runs| && !Over(s'.runs[r].l)
  }

  /** No goroutine of the request can move, and the request is not over. */
  ghost predicate Jammed(cfg: Config, v: View) {
    && (forall a :: !Enabled(cfg, v, a)) && (v.l.consumer.Holding? || v.l.consumer.FailForward?)
  }

  ghost predicate JammedAt(s: System, r: nat, cfg: Config, v: View) {
    && SysInv(s) && r < |s.runs| && HasChannels(s, s.runs[r]) && s.runs[r].cfg == cfg
    && PrivateView(s, s.runs[r]) == v && Jammed(cfg, v)
  }

  lemma JamStays(lim: Limits, s: System, b: SysAction, r: nat, cfg: Config, v: View)
    requires ValidLimits(lim) && SysEnabled(lim, s, b) && JammedAt(s, r, cfg, v)
    ensures JammedAt(SysApply(lim, s, b), r, cfg, v)
  {
    hide SysEnabled, SysApply, Inv, Enabled, Apply;
    StepRefines(lim, s, b);
  }

  lemma {:induction false} JamExecution(lim: Limits, tr: seq<System>, bs: seq<SysAction>, i: nat, r: nat, cfg: Config,
                                        v: View)
    requires ValidLimits(lim) && Execution(lim, tr, bs) && i < |tr| && JammedAt(tr[0], r, cfg, v)
    ensures JammedAt(tr[i], r, cfg, v)
  {
    hide SysEnabled, SysApply, JammedAt;
    if i > 0 {
      JamExecution(lim, tr, bs, i - 1, r, cfg, v);
      JamStays(lim, tr[i - 1], bs[i - 1], r, cfg, v);
    }
  }

  /** Request r has stopped moving for good, and is not over. */
  ghost predicate Frozen(lim: Limits, s: System, r: nat) {
    forall s' :: Leads(lim, s, s') ==>
      r < |s.runs| && r < |s'.runs| && s'.runs[r].l == s.runs[r].l && !Over(s'.runs[r].l)
  }

  lemma JamIsForEver(lim: Limits, s: System, r: nat, cfg: Config, v: View)
    requires ValidLimits(lim) && JammedAt(s, r, cfg, v)
    ensures Frozen(lim, s, r)
  {
    hide Inv;
    forall s' | Leads(lim, s, s') ensures r < |s'.runs| && s'.runs[r].l == s.runs[r].l && !Over(s'.runs[r].l) {
      var tr: seq<System>, bs: seq<SysAction> :| Execution(lim, tr, bs) && tr[0] == s && tr[|bs|] == s';
      JamExecution(lim, tr, bs, |bs|, r, cfg, v);
    }
  }

  // ---------- a request cancelled when out is full ----------

  /** What late records: a height was fetched after the cancellation. */
  lemma LateMeans(cfg: Config, v: View, a: Action)
    requires Enabled(cfg, v, a)
    ensures Apply(cfg, v, a).l.late <==> v.l.late || (a.WFetch? && v.l.cancelled)
  {
    hide ProducerEnabled, ProducerApply, ConsumerEnabled, ConsumerApply;
    if IsProducer(a) { ProducerKeepsLate(cfg, v, a); } else if IsConsumer(a) { ConsumerKeepsSender(cfg, v, a); }
  }

  lemma ProducerKeepsLate(cfg: Config, v: View, a: Action)
    requires IsProducer(a) && ProducerEnabled(v, a)
    ensures ProducerApply(cfg, v, a).l.late == v.l.late
  {
    hide AfterHeight;
  }

  /** The sender has not done anything. */
  ghost predicate Mute(l: Local) {
    !l.cancelled && !l.late && l.sender.Receiving? && l.calls == []
  }

  /** getRange has more to write and out is full. */
  ghost predicate Clogged(cfg: Config, l: Local) {
    (l.consumer.Holding? || l.consumer.FailForward?) && |l.outBuf| >= cfg.outCap
  }

  /** A listing that does not fit in out is not written in full while the sender does nothing. */
  lemma MuteIsUnfinished(cfg: Config, v: View)
    requires Inv(cfg, v) && Mute(v.l) && |Listing(cfg, cfg.start)| > cfg.outCap
    ensures !PastLast(v.l.consumer) && !v.l.consumer.Failing?
  {
    assert v.l.written == v.l.written[0..];
    if PastLast(v.l.consumer) { SuccessIsComplete(cfg, v); }
    if v.l.consumer.Failing? { FailureIsFirst(cfg, v); }
  }

  /** The other goroutines can move until out is full. */
  lemma MuteCanMove(cfg: Config, v: View) returns (a: Action)
    requires Inv(cfg, v) && Mute(v.l) && |Listing(cfg, cfg.start)| > cfg.outCap && !Clogged(cfg, v.l) && !Starved(v)
    ensures Enabled(cfg, v, a) && Regular(a) && !IsSender(a)
  {
    hide Inv;
    MuteIsUnfinished(cfg, v);
    match v.l.consumer
    case Waiting(_) => a := WaiterCanMove(cfg, v);
    case Reading(_, _, _) => a := ReaderCanMove(cfg, v);
    case Holding(_, _, _, _) => a := CForward;
    case FailForward(_, _) => a := CFail;
    case Putting(_, _) => a := CPut;
    case Signalling(_, _) => a := CSignal;
  }

  lemma MuteStays(cfg: Config, v: View, a: Action)
    requires Mute(v.l) && Enabled(cfg, v, a) && !IsSender(a)
    ensures Mute(Apply(cfg, v, a).l)
  {
    hide ProducerEnabled, ProducerApply, WorkerEnabled, WorkerApply, ConsumerEnabled, ConsumerApply;
    if IsConsumer(a) { ConsumerKeepsSender(cfg, v, a); } else { PipelineFrame(cfg, v, a); }
  }

  lemma {:induction false} ReachClog(lim: Limits, s: System, r: nat, cfg: Config, v: View)
    returns (s': System, v': View)
    requires ValidLimits(lim) && At(lim, s, r, cfg, v) && Mute(v.l) && |Listing(cfg, cfg.start)| > cfg.outCap
    ensures At(lim, s', r, cfg, v') && Mute(v'.l) && Clogged(cfg, v'.l)
    decreases StepsLeft(cfg, v.l)
  {
    hide Inv, StepsLeft, Enabled, Apply;
    if Clogged(cfg, v.l) {
      s', v' := s, v;
    } else {
      AtFacts(lim, s, r, cfg, v);
      StepsLeftSign(cfg, v);
      var a := MuteCanMove(cfg, v);
      var b, s1, a1, v1 := Drive(lim, s, r, cfg, v, a);
      MuteStays(cfg, v, a1);
      s', v' := ReachClog(lim, s1, r, cfg, v1);
    }
  }

  lemma JammedByEnd(cfg: Config, v: View)
    requires Settled(cfg, v) && Clogged(cfg, v.l) && v.l.cancelled && v.l.sender.Ended?
    ensures Jammed(cfg, v)
  {
    forall a: Action ensures !Enabled(cfg, v, a) { if IsProducer(a) || IsWorker(a) { hide Enabled; } }
  }

  lemma SenderKeepsSettled(cfg: Config, v: View, v': View)
    requires Settled(cfg, v) && v' == v.(l := v'.l)
    requires v'.l == v.l.(cancelled := v'.l.cancelled, sender := v'.l.sender, calls := v'.l.calls)
    ensures Settled(cfg, v')
  {
    forall a | IsProducer(a) || IsWorker(a) ensures !Enabled(cfg, v', a) { assert !Enabled(cfg, v, a); }
  }

  /** The producer, the workers and getRange run until out is full and nothing but the sender could go on. */
  lemma ReachFull(lim: Limits, cfg: Config) returns (s: System, v: View)
    requires ValidLimits(lim) && ValidConfig(cfg) && |Listing(cfg, cfg.start)| > cfg.outCap
    ensures At(lim, s, 0, cfg, v) && Mute(v.l) && Clogged(cfg, v.l) && Settled(cfg, v)
  {
    hide Inv, StepsLeft, Settled;
    FirstStarts(lim, cfg);
    var s0 := FirstSystem(lim, cfg, InitLocal(cfg));
    var v0 := Locate(lim, s0, 0);
    var s1, v1 := ReachClog(lim, s0, 0, cfg, v0);
    s, v := Settle(lim, s1, 0, cfg, v1);
  }

  /** Then the request is cancelled and the sender ends. */
  lemma ReachJam(lim: Limits, cfg: Config) returns (s: System, v: View)
    requires ValidLimits(lim) && ValidConfig(cfg) && |Listing(cfg, cfg.start)| > cfg.outCap
    ensures At(lim, s, 0, cfg, v) && Jammed(cfg, v) && !v.l.late
  {
    hide At, StepsLeft, Settled, Jammed, Listing;
    var s2, v2 := ReachFull(lim, cfg);
    var s3, v3 := DriveCancel(lim, s2, 0, cfg, v2);
    var b4, s4, a4, v4 := Drive(lim, s3, 0, cfg, v3, SCancel);
    var b5, s5, a5, v5 := Drive(lim, s4, 0, cfg, v4, SEnd);
    SenderKeepsSettled(cfg, v2, v5);
    JammedByEnd(cfg, v5);
    s, v := s5, v5;
  }

  /** Some schedule of the request gets to a point from which it is never over. */
  ghost predicate CanBlock(lim: Limits, cfg: Config) {
    exists s: System, r: nat :: Reachable(lim, s) && r < |s.runs| && s.runs[r].cfg == cfg && NeverOver(lim, s, r)
  }

  /** Some schedule of the request gets to a point where it stops for good before it is over, with no height fetched
      after a cancellation. */
  ghost predicate CanFreeze(lim: Limits, cfg: Config) {
    exists s: System, r: nat ::
      Reachable(lim, s) && r < |s.runs| && s.runs[r].cfg == cfg && !s.runs[r].l.late && Frozen(lim, s, r)
  }

  lemma FrozenIsNeverOver(lim: Limits, s: System, r: nat)
    requires Frozen(lim, s, r)
    ensures NeverOver(lim, s, r)
  {
  }

  /** Deadlock, exactly: a request can block for ever before it is finished or has forwarded its Error if and only if
      its listing is longer than the buffer of out.  It can then stop for good without having fetched anything after
      the cancellation. */
  lemma BlocksExactlyWhenTooLong(lim: Limits, cfg: Config)
    requires ValidLimits(lim) && ValidConfig(cfg)
    ensures CanBlock(lim, cfg) <==> |Listing(cfg, cfg.start)| > cfg.outCap
    ensures CanFreeze(lim, cfg) <==> |Listing(cfg, cfg.start)| > cfg.outCap
  {
    hide Inv, NeverOver, Frozen;
    if |Listing(cfg, cfg.start)| > cfg.outCap {
      var s, v := ReachJam(lim, cfg);
      AtFacts(lim, s, 0, cfg, v);
      JamIsForEver(lim, s, 0, cfg, v);
      FrozenIsNeverOver(lim, s, 0);
    } else {
      if s: System, r: nat :| Reachable(lim, s) && r < |s.runs| && s.runs[r].cfg == cfg && NeverOver(lim, s, r) {
        FittingEnds(lim, s, r);
      }
      if s: System, r: nat :| Reachable(lim, s) && r < |s.runs| && s.runs[r].cfg == cfg && Frozen(lim, s, r) {
        FrozenIsNeverOver(lim, s, r);
        FittingEnds(lim, s, r);
      }
    }
  }

  lemma FittingEnds(lim: Limits, s: System, r: nat)
    requires ValidLimits(lim) && Reachable(lim, s) && r < |s.runs|
    requires var cfg := s.runs[r].cfg; |Listing(cfg, cfg.start)| <= cfg.outCap
    ensures !NeverOver(lim, s, r)
  {
    var v := Locate(lim, s, r);
    var s' := RunsToEnd(lim, s, r, s.runs[r].cfg, v);
  }

  // ---------- the end of a cancelled request ----------

  /** A cancelled request that is past its range returns by itself, whatever its sender is doing. */
  lemma {:induction false} CancelledReturns(lim: Limits, s: System, r: nat, cfg: Config, v: View)
    returns (s': System, v': View)
    requires ValidLimits(lim) && At(lim, s, r, cfg, v) && v.l.cancelled && PastLast(v.l.consumer)
    ensures Leads(lim, s, s') && At(lim, s', r, cfg, v')
    ensures v'.l.consumer.Done? && v'.l.sender == v.l.sender && v'.l.calls == v.l.calls
    decreases StepsLeft(cfg, v.l)
  {
    hide Inv, StepsLeft, Apply, Enabled;
    AtFacts(lim, s, r, cfg, v);
    if v.l.consumer.Done? {
      LeadsSelf(lim, s);
      s', v' := s, v;
    } else {
      StepsLeftSign(cfg, v);
      var a := NextReturn(cfg, v);
      var b, s1, a1, v1 := Drive(lim, s, r, cfg, v, a);
      PastLastStays(cfg, v, a1);
      s', v' := CancelledReturns(lim, s1, r, cfg, v1);
      LeadsStep(lim, s, b, s');
    }
  }

  lemma NextReturn(cfg: Config, v: View) returns (a: Action)
    requires v.l.cancelled && PastLast(v.l.consumer) && !v.l.consumer.Done?
    ensures Enabled(cfg, v, a) && (a.CRelease? || a.CClose? || a.CFin?)
  {
    match v.l.consumer
    case Releasing => a := CRelease;
    case Returned => a := CClose;
    case Awaiting => a := CFin;
  }

  lemma PastLastStays(cfg: Config, v: View, a: Action)
    requires Enabled(cfg, v, a) && (a.CRelease? || a.CClose? || a.CFin?)
    ensures var l := Apply(cfg, v, a).l;
            && PastLast(l.consumer) && l.sender == v.l.sender && l.calls == v.l.calls && l.cancelled == v.l.cancelled
  {
  }
}
