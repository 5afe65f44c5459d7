/**
 What happens to a request after it has signalled its Error.  The Error it forwards is the right one; from the signal
 on the consumer receives nothing any more, and the messages of all later heights that the producer acquires, but for
 one that the signal may keep from the workers, stay in their channels or with their workers.
 */
module ErrorPath {
  import opened Structs
  import opened RangeProtocol
  import opened RangeInvariant
  import opened RangeResults
  import opened RangeProgress
  import opened SharedPools
  import opened Executions
  import opened Schedules

  /** Whatever the schedule, and whatever other requests do, a forwarded Error is that of the smallest
      failing height of the request, after everything below that height and nothing else. */
  lemma EveryErrorIsTheFirst(lim: Limits, s: System, r: nat)
    requires ValidLimits(lim) && Occurs(lim, s) && r < |s.runs| && s.runs[r].l.consumer.Failing?
    ensures var run := s.runs[r];
            var h := run.l.consumer.h;
            && FirstFailing(run.cfg, h) && run.cfg.outcome(h) == Failed(run.l.consumer.err)
            && run.l.written == Bodies(run.cfg, run.cfg.start, h) + [Error(run.l.consumer.err)]
  {
    OccursInv(lim, s);
    assert RunOk(s, s.runs[r]);
    FailureIsFirst(s.runs[r].cfg, PrivateView(s, s.runs[r]));
  }

  // ---------- what the signal leaves alone ----------

  /** After the error signal the consumer forwards the Error and does nothing else. */
  lemma ConsumerAfterSignal(cfg: Config, v: View, a: Action)
    requires IsConsumer(a) && ConsumerEnabled(cfg, v, a) && !Active(v.l.consumer)
    ensures a.CFail?
  {
  }

  lemma WorkerKeepsSignal(cfg: Config, v: View, a: Action)
    requires IsWorker(a) && WorkerEnabled(v, a)
    ensures var v' := WorkerApply(cfg, v, a);
            v'.l.producer == v.l.producer && v'.l.spent == v.l.spent && v'.l.token == v.l.token && v'.ord == v.ord
  {
    match a
    case WTake(_) =>
    case WFetch(_) =>
    case WSend(_) =>
    case WExit(_) =>
  }

  lemma ProducerKeepsCap(cfg: Config, v: View, a: Action)
    requires IsProducer(a) && ProducerEnabled(v, a)
    ensures ProducerApply(cfg, v, a).ord.cap == v.ord.cap
  {
  }

  lemma ProducerKeepsSignal(cfg: Config, v: View, a: Action)
    requires IsProducer(a) && ProducerEnabled(v, a)
    ensures var v' := ProducerApply(cfg, v, a); v.l.token || (v'.l.spent == v.l.spent && !v'.l.token)
  {
  }

  /** What the consumer and the sender do after the error signal is of no concern to the producer and the workers. */
  ghost predicate SamePipeline(v: View, v': View) {
    && v'.l.producer == v.l.producer && v'.l.workers == v.l.workers && v'.l.owned == v.l.owned
        && v'.l.taken == v.l.taken
    && v'.l.spent == v.l.spent && v'.l.token == v.l.token && v'.ord == v.ord && v'.work == v.work && v'.resp == v.resp
  }

  lemma OutputKeepsPipeline(cfg: Config, v: View, a: Action)
    requires Enabled(cfg, v, a) && !Active(v.l.consumer) && !IsProducer(a) && !IsWorker(a)
    ensures SamePipeline(v, Apply(cfg, v, a))
    ensures !Active(Apply(cfg, v, a).l.consumer) && Base(cfg, Apply(cfg, v, a).l.consumer) == Base(cfg, v.l.consumer)
  {
    if IsConsumer(a) { ConsumerAfterSignal(cfg, v, a); }
  }

  /** What the actions after the error signal leave alone. */
  lemma AfterSignal(cfg: Config, v: View, a: Action)
    requires Enabled(cfg, v, a) && !Active(v.l.consumer)
    ensures var v' := Apply(cfg, v, a);
            && !Active(v'.l.consumer) && Base(cfg, v'.l.consumer) == Base(cfg, v.l.consumer) && v'.ord.cap == v.ord.cap
            && (v.l.token || (v'.l.spent == v.l.spent && !v'.l.token))
  {
    hide ProducerEnabled, ProducerApply, WorkerEnabled, WorkerApply, ConsumerEnabled, ConsumerApply, SenderEnabled;
    hide SenderApply;
    if IsProducer(a) { ProducerFrame(cfg, v, a); ProducerKeepsSignal(cfg, v, a); ProducerKeepsCap(cfg, v, a); }
    else if IsWorker(a) { WorkerFrame(cfg, v, a); WorkerKeepsSignal(cfg, v, a); }
    else { OutputKeepsPipeline(cfg, v, a); }
  }

  // ---------- the messages of the later heights ----------

  /** The messages of x are all there, in its channel or still to be written. */
  ghost predicate Whole(cfg: Config, v: View, x: nat) {
    x in v.l.owned && Split(cfg, x, 0, Buffered(v.l.owned, v.resp, x), Unwritten(cfg, v.l.workers, v.l.taken, x))
  }

  /** If x is later than the failing height, was acquired and will reach a worker, none of its messages has been
      lost. */
  ghost predicate Intact(cfg: Config, v: View, x: nat) {
    Base(cfg, v.l.consumer) < x < AcquiredTo(cfg, v.l.producer) && v.l.spent != OnWork(x) ==> Whole(cfg, v, x)
  }

  ghost predicate AllIntact(cfg: Config, v: View) {
    !Active(v.l.consumer) ==> forall x: nat :: Intact(cfg, v, x)
  }

  lemma WholeByHolder(cfg: Config, v: View, a: Action, x: nat)
    requires Owned(cfg, v) && Queues(cfg, v) && (a.WFetch? || a.WSend?) && WorkerEnabled(v, a)
    requires Whole(cfg, v, x) && Holds(v.l.workers[a.w], x)
    ensures Whole(cfg, WorkerApply(cfg, v, a), x)
  {
    hide Dispatch, ItemsRef, WorkQueue, Split, Remainder;
    var l, v' := v.l, WorkerApply(cfg, v, a);
    var k, k' := l.workers[a.w], v'.l.workers[a.w];
    assert WorkerRef(l.owned, k) && WorkerOk(cfg, l.taken, v.work.closed && v.work.buf == [], k);
    HeldOnce(l.workers, a.w, x);
    PendingHeld(cfg, l.workers, a.w, x);
    PendingReplaced(cfg, l.workers, a.w, k', x);
    if a.WSend? {
      assert OpenChannel(v.resp, l.owned[x]);
      SendSplit(cfg, x, 0, Buffered(l.owned, v.resp, x), k.todo);
      assert Buffered(l.owned, v'.resp, x) == Buffered(l.owned, v.resp, x) + [k.todo[0]];
    }
  }

  lemma WholeByOther(cfg: Config, v: View, a: Action, x: nat)
    requires Owned(cfg, v) && (a.WFetch? || a.WSend? || a.WExit?) && WorkerEnabled(v, a)
    requires Whole(cfg, v, x) && !Holds(v.l.workers[a.w], x)
    ensures Whole(cfg, WorkerApply(cfg, v, a), x)
  {
    hide Ownership, ItemsRef, WorkersRef, Split;
    PendingOther(cfg, v.l.workers, a.w, WorkerApply(cfg, v, a).l.workers[a.w], x);
    if a.WSend? { SendElsewhere(cfg, v, a.w, x); }
  }

  /** A worker that does not hold x does not write to the channel of x. */
  lemma SendElsewhere(cfg: Config, v: View, w: nat, x: nat)
    requires Owned(cfg, v) && WorkerEnabled(v, WSend(w)) && v.l.workers[w].h != x && x in v.l.owned
    ensures Buffered(v.l.owned, WorkerApply(cfg, v, WSend(w)).resp, x) == Buffered(v.l.owned, v.resp, x)
  {
    assert WorkerRef(v.l.owned, v.l.workers[w]);
    assert v.l.owned[x] != v.l.workers[w].ch;
  }

  /** Heights are taken in order: those passed over were skipped. */
  lemma TakenInOrder(cfg: Config, v: View, x: nat)
    requires Queues(cfg, v) && v.work.buf != [] && v.l.taken <= x < v.work.buf[0].h && v.work.buf[0].Item?
    ensures v.l.spent == OnWork(x)
  {
    if v.l.spent != OnWork(x) {
      assert v.work.buf[0].h < QueuedTo(cfg, v.l.producer);
      FirstQueued(cfg.start, v.l.taken, QueuedTo(cfg, v.l.producer), v.work.buf, x);
    }
  }

  lemma WholeByTake(cfg: Config, v: View, w: nat, x: nat)
    requires Queues(cfg, v) && WorkerEnabled(v, WTake(w)) && Whole(cfg, v, x) && v.l.spent != OnWork(x)
    ensures Whole(cfg, WorkerApply(cfg, v, WTake(w)), x)
  {
    hide Dispatch, Split, Signal;
    var l, item := v.l, v.work.buf[0];
    var k := Fetching(item.h, item.ch);
    forall j | 0 <= j < |l.workers| && x >= l.taken ensures !Holds(l.workers[j], x) {
      assert WorkerOk(cfg, l.taken, v.work.closed && v.work.buf == [], l.workers[j]);
    }
    if x == item.h { PendingReplaced(cfg, l.workers, w, k, x); }
    else if x < l.taken { PendingOther(cfg, l.workers, w, k, x); }
    else if x < item.h { TakenInOrder(cfg, v, x); }
  }

  /** Get gives a new height an empty channel. */
  lemma IntactByGet(cfg: Config, v: View, a: Action, x: nat)
    requires Inv(cfg, v) && a.PGet? && ProducerEnabled(v, a) && Intact(cfg, v, x)
    ensures Intact(cfg, ProducerApply(cfg, v, a), x)
  {
    hide Dispatch, ItemsRef, WorkersRef, WorkersOk, Output, RoomInv, Signal, Reassembly, Split;
    var l, v' := v.l, ProducerApply(cfg, v, a);
    if l.producer.h == x {
      NothingWritten(cfg, x);
      assert Buffered(v'.l.owned, v'.resp, x) == [];
    } else if x in l.owned {
      assert l.owned[x] in l.owned.Values;
      assert Buffered(v'.l.owned, v'.resp, x) == Buffered(l.owned, v.resp, x);
    }
  }

  lemma AcquiredStays(cfg: Config, v: View, a: Action)
    requires Inv(cfg, v) && IsProducer(a) && !a.PGet? && ProducerEnabled(v, a)
    ensures AcquiredTo(cfg, ProducerApply(cfg, v, a).l.producer) == AcquiredTo(cfg, v.l.producer)
  {
    hide Queues, Output, RoomInv, Reassembly, Ownership, ItemsRef, WorkersRef, AfterHeight, LastHeight, ConsumerRef;
    if v.l.producer.Working? { HeightStep(cfg, v.l.producer.item.h); }
  }

  /** Nothing else the producer does touches a response channel. */
  lemma IntactByProducer(cfg: Config, v: View, a: Action, x: nat)
    requires Inv(cfg, v) && IsProducer(a) && !a.PGet? && ProducerEnabled(v, a) && !Active(v.l.consumer)
    requires Intact(cfg, v, x)
    ensures Intact(cfg, ProducerApply(cfg, v, a), x)
  {
    hide Owned, Output, RoomInv, Reassembly, WorkersOk, WorkQueue, Dispatch, Split, ProducerEnabled, ProducerApply;
    ProducerFrame(cfg, v, a);
    ProducerKeepsSignal(cfg, v, a);
    ProducerLeaves(cfg, v, a);
    ProducerKeepsWorkers(cfg, v, a);
    ProducerTakesNothing(cfg, v, a);
    AcquiredStays(cfg, v, a);
  }

  lemma IntactByWorker(cfg: Config, v: View, a: Action, x: nat)
    requires Inv(cfg, v) && IsWorker(a) && WorkerEnabled(v, a) && Intact(cfg, v, x)
    ensures Intact(cfg, WorkerApply(cfg, v, a), x)
  {
    hide Owned, Queues, Output, RoomInv, Reassembly, Whole, WorkerApply;
    WorkerFrame(cfg, v, a);
    WorkerKeepsSignal(cfg, v, a);
    if Whole(cfg, v, x) && v.l.spent != OnWork(x) {
      if a.WTake? { WholeByTake(cfg, v, a.w, x); }
      else if !a.WExit? && Holds(v.l.workers[a.w], x) { WholeByHolder(cfg, v, a, x); }
      else { WholeByOther(cfg, v, a, x); }
    }
  }

  lemma IntactKept(cfg: Config, v: View, a: Action, x: nat)
    requires Inv(cfg, v) && Enabled(cfg, v, a) && !Active(v.l.consumer) && Intact(cfg, v, x)
    ensures Intact(cfg, Apply(cfg, v, a), x)
  {
    hide Inv, Split, ProducerEnabled, ProducerApply, WorkerEnabled, WorkerApply, ConsumerEnabled, ConsumerApply;
    hide SenderEnabled, SenderApply;
    if a.PGet? { IntactByGet(cfg, v, a, x); }
    else if IsProducer(a) { IntactByProducer(cfg, v, a, x); }
    else if IsWorker(a) { IntactByWorker(cfg, v, a, x); }
    else { OutputKeepsPipeline(cfg, v, a); }
  }

  /** When the signal is raised, nothing of a later height has been lost. */
  lemma IntactAtSignal(cfg: Config, v: View, x: nat)
    requires Inv(cfg, v) && ConsumerEnabled(cfg, v, CSignal)
    ensures Intact(cfg, ConsumerApply(cfg, v, CSignal), x)
  {
    hide Owned, Queues, Output, RoomInv, Consecutive;
    if v.l.consumer.h < x < AcquiredTo(cfg, v.l.producer) {
      assert x in v.l.owned;
      assert Split(cfg, x, 0, Buffered(v.l.owned, v.resp, x), Unwritten(cfg, v.l.workers, v.l.taken, x));
    }
  }

  lemma StepIntact(cfg: Config, v: View, a: Action)
    requires Inv(cfg, v) && Enabled(cfg, v, a) && AllIntact(cfg, v)
    ensures AllIntact(cfg, Apply(cfg, v, a))
  {
    hide Inv, Enabled, Apply, Intact;
    if a.CSignal? { SignalIntact(cfg, v); }
    else if Active(v.l.consumer) { StaysActive(cfg, v, a); }
    else { forall x: nat ensures Intact(cfg, Apply(cfg, v, a), x) { IntactKept(cfg, v, a, x); } }
  }

  lemma SignalIntact(cfg: Config, v: View)
    requires Inv(cfg, v) && Enabled(cfg, v, CSignal)
    ensures AllIntact(cfg, Apply(cfg, v, CSignal))
  {
    hide Inv, Intact;
    forall x: nat ensures Intact(cfg, ConsumerApply(cfg, v, CSignal), x) { IntactAtSignal(cfg, v, x); }
  }

  ghost predicate RunIntact(s: System, run: Run) { HasChannels(s, run) && AllIntact(run.cfg, PrivateView(s, run)) }

  ghost predicate SysIntact(s: System) { forall r :: 0 <= r < |s.runs| ==> RunIntact(s, s.runs[r]) }

  lemma SysStepIntact(lim: Limits, s: System, b: SysAction)
    requires ValidLimits(lim) && SysInv(s) && SysEnabled(lim, s, b) && SysIntact(s)
    ensures SysIntact(SysApply(lim, s, b))
  {
    hide SysEnabled, Inv, Enabled, Apply, AllIntact;
    StepRefines(lim, s, b);
    var s' := SysApply(lim, s, b);
    if b.Start? { StartIntact(lim, s, b); }
    else {
      hide SysApply;
      forall r | 0 <= r < |s'.runs| ensures RunIntact(s', s'.runs[r]) {
        assert RunIntact(s, s.runs[r]) && RunOk(s, s.runs[r]);
        if r == b.r { StepIntact(s.runs[r].cfg, PrivateView(s, s.runs[r]), AsPrivate(lim, s, b)); }
      }
    }
  }

  lemma StartIntact(lim: Limits, s: System, b: SysAction)
    requires SysEnabled(lim, s, b) && b.Start? && SysIntact(s)
    requires SysInv(SysApply(lim, s, b)) && NobodyMoved(s, SysApply(lim, s, b))
    ensures SysIntact(SysApply(lim, s, b))
  {
    hide Inv, SysEnabled, Intact;
    var s' := SysApply(lim, s, b);
    forall r | 0 <= r < |s'.runs| ensures RunIntact(s', s'.runs[r]) {
      assert RunOk(s', s'.runs[r]);
      if r < |s.runs| { assert RunIntact(s, s.runs[r]); }
    }
  }

  lemma {:induction false} ExecutionIntact(lim: Limits, tr: seq<System>, bs: seq<SysAction>, i: nat)
    requires ValidLimits(lim) && Execution(lim, tr, bs) && SysInit(tr[0]) && i < |tr|
    ensures SysInv(tr[i]) && SysIntact(tr[i])
  {
    hide SysEnabled, SysApply, Inv, RunIntact;
    if i > 0 {
      ExecutionIntact(lim, tr, bs, i - 1);
      StepRefines(lim, tr[i - 1], bs[i - 1]);
      SysStepIntact(lim, tr[i - 1], bs[i - 1]);
    }
  }

  /** Nothing of a later height is lost: after its signal, in whatever schedule, all messages of each later height that
      was acquired and not kept from the workers are in its channel or still to be written. */
  lemma NothingIsLost(lim: Limits, s: System, r: nat, cfg: Config, v: View)
    requires ValidLimits(lim) && At(lim, s, r, cfg, v)
    ensures AllIntact(cfg, v)
  {
    hide Inv, AllIntact;
    var tr: seq<System>, bs: seq<SysAction> :| Execution(lim, tr, bs) && SysInit(tr[0]) && tr[|bs|] == s;
    ExecutionIntact(lim, tr, bs, |bs|);
    assert RunIntact(s, s.runs[r]);
  }

  // ---------- after the wait ----------

  /** The request has forwarded its Error, its workers have returned and its producer is done. */
  ghost predicate HasReturned(l: Local) { l.consumer.Failing? && AllExited(l) && l.producer.Stopped? }

  /** From then on only its sender moves, and it touches none of its channels. */
  lemma ReturnedIsQuiet(cfg: Config, v: View, a: Action)
    requires Inv(cfg, v) && HasReturned(v.l) && Enabled(cfg, v, a)
    ensures IsSender(a) && HasReturned(Apply(cfg, v, a).l) && SamePipeline(v, Apply(cfg, v, a))
  {
    hide Inv;
    assert !IsProducer(a) && !IsWorker(a) && !IsConsumer(a);
    OutputKeepsPipeline(cfg, v, a);
  }
}
