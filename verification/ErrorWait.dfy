/**
 The wait of getRange for its workers after an Error, exactly: which requests can wait there for ever, and which must.

 Both answers are about what the error signal is spent on.  A way of spending it hinders the request if it leaves a
 worker, or the producer, with a send that nobody will ever make room for.
 */
module ErrorWait {
  import opened Structs
  import opened RangeProtocol
  import opened RangeInvariant
  import opened RangeResults
  import opened RangeProgress
  import opened SharedPools
  import opened Executions
  import opened Schedules
  import opened ErrorPath
  import opened ErrorSchedules

  // ---------- the conditions, on the request and the limits alone ----------

  /** The ways to spend the signal that make a difference after the Error of height h: on a send to the ordering
      channel, or on the send of one of the next itemCap heights to the workers. */
  ghost predicate Choice(lim: Limits, cfg: Config, h: nat, p: Spent) {
    p.OnOrder? || (p.OnWork? && h < p.h <= h + lim.itemCap && p.h <= LastHeight(cfg))
  }

  /** The last height that gets into the ordering channel or past it. */
  ghost function Reach(lim: Limits, h: nat, p: Spent): nat { h + lim.itemCap + (if p.OnOrder? then 1 else 0) }

  /** The ordering channel cannot take all that is due, and too few of the heights that it takes are failing for all
      workers to die on them. */
  ghost predicate TooLong(lim: Limits, cfg: Config, h: nat, p: Spent) {
    Reach(lim, h, p) <= LastHeight(cfg) && |Deadly(cfg, cfg.start, Reach(lim, h, p) + 1, p)| < cfg.workers
  }

  /** Height x gets to a worker and has more messages than a response channel holds, and too few heights below it are
      failing for all workers to die first. */
  ghost predicate TooBig(lim: Limits, cfg: Config, h: nat, p: Spent, x: nat) {
    && h < x <= Reach(lim, h, p) && x <= LastHeight(cfg) && p != OnWork(x)
    && |Msgs(cfg, x)| > lim.respCap && |Deadly(cfg, cfg.start, x, p)| < cfg.workers
  }

  ghost predicate Hinders(lim: Limits, cfg: Config, h: nat, p: Spent) {
    TooLong(lim, cfg, h, p) || exists x :: TooBig(lim, cfg, h, p, x)
  }

  ghost predicate SomeHinders(lim: Limits, cfg: Config, h: nat) {
    exists p :: Choice(lim, cfg, h, p) && Hinders(lim, cfg, h, p)
  }

  ghost predicate AllHinder(lim: Limits, cfg: Config, h: nat) {
    forall p :: Choice(lim, cfg, h, p) ==> Hinders(lim, cfg, h, p)
  }

  /** One of the itemCap + 1 heights after h has more messages than a response channel holds. */
  ghost predicate Oversized(lim: Limits, cfg: Config, h: nat) {
    exists x: nat :: h < x <= h + lim.itemCap + 1 && x <= LastHeight(cfg) && |Msgs(cfg, x)| > lim.respCap
  }

  lemma FewDie(cfg: Config, b: nat, p: Spent)
    requires FewFailures(cfg) && b <= LastHeight(cfg) + 1
    ensures |Deadly(cfg, cfg.start, b, p)| < cfg.workers
  {
    SubsetSize(Deadly(cfg, cfg.start, b, p), FailingIn(cfg, cfg.start, LastHeight(cfg) + 1));
  }

  /** With fewer failing heights than workers, only the number and the size of the blocks after h count. */
  lemma FewFailuresHinder(lim: Limits, cfg: Config, h: nat)
    requires ValidLimits(lim) && FewFailures(cfg)
    ensures SomeHinders(lim, cfg, h) <==> h + lim.itemCap <= LastHeight(cfg) || Oversized(lim, cfg, h)
    ensures !Oversized(lim, cfg, h) ==> (AllHinder(lim, cfg, h) <==> h + lim.itemCap + 1 <= LastHeight(cfg))
  {
    hide Deadly, FewFailures, Msgs;
    forall b: nat, p | b <= LastHeight(cfg) + 1
      ensures |Deadly(cfg, cfg.start, b, p)| < cfg.workers { FewDie(cfg, b, p); }
    if h + lim.itemCap <= LastHeight(cfg) {
      assert Choice(lim, cfg, h, OnWork(h + 1)) && TooLong(lim, cfg, h, OnWork(h + 1));
    } else if x: nat :| h < x <= h + lim.itemCap + 1 && x <= LastHeight(cfg) && |Msgs(cfg, x)| > lim.respCap {
      assert Choice(lim, cfg, h, OnOrder) && TooBig(lim, cfg, h, OnOrder, x);
    }
    if !Oversized(lim, cfg, h) { assert Choice(lim, cfg, h, OnOrder); }
  }

  // ---------- a signal that is spent badly ----------

  /** The choice that an outcome of the signal amounts to: not spending it, or spending it on the Last marker, leaves as
      much room in the ordering channel as is needed. */
  ghost function ChoiceOf(spent: Spent): Spent { if spent.OnWork? then spent else OnOrder }

  lemma SameDeaths(cfg: Config, b: nat, spent: Spent)
    ensures Deadly(cfg, cfg.start, b, ChoiceOf(spent)) == Deadly(cfg, cfg.start, b, spent)
  {
  }

  /** How far the producer can have got after the error signal. */
  lemma ProducerReach(cfg: Config, v: View)
    requires Inv(cfg, v) && !Active(v.l.consumer)
    ensures var h := Base(cfg, v.l.consumer);
            && h < v.l.taken <= QueuedTo(cfg, v.l.producer)
            && QueuedTo(cfg, v.l.producer) <= h + 1 + v.ord.cap + (if v.l.spent.OnOrder? then 1 else 0)
            && (v.l.producer.Stopped? ==>
                  LastHeight(cfg) < h + v.ord.cap + (if v.l.spent.OnOrder? || v.l.spent.OnLast? then 1 else 0))
            && (OrderBlocked(v) ==>
                  QueuedTo(cfg, v.l.producer) == h + 1 + v.ord.cap + (if v.l.spent.OnOrder? then 1 else 0))
            && (OrderBlocked(v) ==> v.l.spent.OnOrder? || v.l.spent.OnWork?)
  {
    hide Dispatch, Ownership, ItemsRef, WorkersRef, WorkersOk, Output, RoomInv;
  }

  lemma SpentIsChoice(lim: Limits, cfg: Config, v: View)
    requires Inv(cfg, v) && !Active(v.l.consumer) && v.ord.cap == lim.itemCap
    ensures Choice(lim, cfg, Base(cfg, v.l.consumer), ChoiceOf(v.l.spent)) && (v.l.token <==> v.l.spent.Unspent?)
  {
    hide Dispatch, Ownership, ItemsRef, WorkersRef, WorkersOk, Output, RoomInv;
  }

  /** Whatever the signal was spent on hinders; if it is not spent, whatever it can be spent on does. */
  ghost predicate Doomed(lim: Limits, cfg: Config, v: View) {
    var h := Base(cfg, v.l.consumer);
    && !Active(v.l.consumer) && v.ord.cap == lim.itemCap && AllIntact(cfg, v)
    && if v.l.token then AllHinder(lim, cfg, h) else Hinders(lim, cfg, h, ChoiceOf(v.l.spent))
  }

  lemma DoomedKept(lim: Limits, cfg: Config, v: View, a: Action)
    requires Inv(cfg, v) && Enabled(cfg, v, a) && Doomed(lim, cfg, v)
    ensures Doomed(lim, cfg, Apply(cfg, v, a))
  {
    hide Inv, Enabled, Apply, AllIntact, Hinders, Choice;
    AfterSignal(cfg, v, a);
    StepIntact(cfg, v, a);
    StepKeeps(cfg, v, a);
    SpentIsChoice(lim, cfg, Apply(cfg, v, a));
  }

  /** When all workers have returned, no height that was taken has more messages than its channel holds. */
  lemma TakenFits(cfg: Config, v: View, x: nat)
    requires Inv(cfg, v) && AllExited(v.l) && Whole(cfg, v, x) && x < v.l.taken
    ensures v.l.owned[x] in v.resp && |Msgs(cfg, x)| <= v.resp[v.l.owned[x]].cap
  {
    assert x < AcquiredTo(cfg, v.l.producer);
    PendingNone(cfg, v.l.workers, x);
    assert OpenChannel(v.resp, v.l.owned[x]);
  }

  /** When all workers have returned, a height below which too few fail has been taken. */
  lemma TakenBeforeDeath(cfg: Config, v: View, x: nat)
    requires Inv(cfg, v) && AllExited(v.l) && v.l.spent != OnWork(x) && x <= LastHeight(cfg)
    requires |Deadly(cfg, cfg.start, x, v.l.spent)| < cfg.workers
    ensures x < v.l.taken
  {
    if v.work.closed && v.work.buf == [] {
      assert QueuedTo(cfg, v.l.producer) == LastHeight(cfg) + 1;
    } else {
      ExitedWorkersFailed(cfg, v);
      if v.l.taken <= x { FewerBelow(cfg, v.l.taken, x, v.l.spent); }
    }
  }

  /** While what the signal was spent on hinders, a worker has not returned. */
  lemma HinderedWaits(lim: Limits, cfg: Config, v: View)
    requires Inv(cfg, v) && !Active(v.l.consumer) && v.ord.cap == lim.itemCap && AllIntact(cfg, v)
    requires Hinders(lim, cfg, Base(cfg, v.l.consumer), ChoiceOf(v.l.spent))
    requires forall c :: c in v.resp ==> v.resp[c].cap == lim.respCap
    ensures !AllExited(v.l)
  {
    hide Inv, Deadly, Whole, Msgs;
    var h, p := Base(cfg, v.l.consumer), ChoiceOf(v.l.spent);
    if TooLong(lim, cfg, h, p) { LongWaits(lim, cfg, v); }
    else {
      var x :| TooBig(lim, cfg, h, p, x);
      BigWaits(lim, cfg, v, x);
    }
  }

  /** A doomed request still has a worker that has not returned. */
  lemma DoomedWaits(lim: Limits, cfg: Config, v: View)
    requires Inv(cfg, v) && Doomed(lim, cfg, v) && forall c :: c in v.resp ==> v.resp[c].cap == lim.respCap
    ensures !AllExited(v.l)
  {
    hide Inv, Hinders, Choice, AllIntact;
    SpentIsChoice(lim, cfg, v);
    HinderedWaits(lim, cfg, v);
  }

  lemma BigWaits(lim: Limits, cfg: Config, v: View, x: nat)
    requires Inv(cfg, v) && !Active(v.l.consumer) && AllIntact(cfg, v)
    requires forall c :: c in v.resp ==> v.resp[c].cap == lim.respCap
    requires TooBig(lim, cfg, Base(cfg, v.l.consumer), ChoiceOf(v.l.spent), x)
    ensures !AllExited(v.l)
  {
    hide Inv, Deadly, Whole, Msgs;
    if AllExited(v.l) {
      SameDeaths(cfg, x, v.l.spent);
      TakenBeforeDeath(cfg, v, x);
      TakenIsAcquired(cfg, v);
      assert Intact(cfg, v, x);
      TakenFits(cfg, v, x);
    }
  }

  lemma TakenIsAcquired(cfg: Config, v: View)
    requires Inv(cfg, v)
    ensures v.l.taken <= AcquiredTo(cfg, v.l.producer)
  {
    hide Dispatch, Ownership, ItemsRef, WorkersRef, WorkersOk, Output, RoomInv, Reassembly;
  }

  lemma LongWaits(lim: Limits, cfg: Config, v: View)
    requires Inv(cfg, v) && !Active(v.l.consumer) && v.ord.cap == lim.itemCap
    requires TooLong(lim, cfg, Base(cfg, v.l.consumer), ChoiceOf(v.l.spent))
    ensures !AllExited(v.l)
  {
    hide Inv, Deadly;
    ProducerReach(cfg, v);
    if AllExited(v.l) {
      var b := Reach(lim, Base(cfg, v.l.consumer), ChoiceOf(v.l.spent)) + 1;
      SameDeaths(cfg, b, v.l.spent);
      ClosedIsStopped(cfg, v);
      ExitedWorkersFailed(cfg, v);
      FewerBelow(cfg, v.l.taken, b, v.l.spent);
    }
  }

  lemma ClosedIsStopped(cfg: Config, v: View)
    requires Inv(cfg, v)
    ensures v.work.closed <==> v.l.producer.Stopped?
  {
  }

  lemma FewerBelow(cfg: Config, a: nat, b: nat, spent: Spent)
    requires a <= b
    ensures |Deadly(cfg, cfg.start, a, spent)| <= |Deadly(cfg, cfg.start, b, spent)|
  {
    SubsetSize(Deadly(cfg, cfg.start, a, spent), Deadly(cfg, cfg.start, b, spent));
  }

  // ---------- for ever ----------

  /** In no continuation, whatever other requests do, have all workers of request r returned. */
  ghost predicate NeverReturns(lim: Limits, s: System, r: nat) {
    forall s' :: Leads(lim, s, s') ==> r < |s'.runs| && !AllExited(s'.runs[r].l)
  }

  ghost predicate DoomedAt(lim: Limits, s: System, r: nat, cfg: Config) {
    && SysInv(s) && CapsOk(lim, s) && r < |s.runs| && HasChannels(s, s.runs[r]) && s.runs[r].cfg == cfg
    && Doomed(lim, cfg, PrivateView(s, s.runs[r]))
  }

  lemma DoomedStep(lim: Limits, s: System, b: SysAction, r: nat, cfg: Config)
    requires ValidLimits(lim) && SysEnabled(lim, s, b) && DoomedAt(lim, s, r, cfg)
    ensures DoomedAt(lim, SysApply(lim, s, b), r, cfg)
  {
    hide SysEnabled, SysApply, Inv, Enabled, Apply, Doomed, CapsOk;
    StepRefines(lim, s, b);
    StepKeepsCaps(lim, s, b);
    assert RunOk(s, s.runs[r]);
    var s' := SysApply(lim, s, b);
    if !b.Start? && b.r == r { DoomedKept(lim, cfg, PrivateView(s, s.runs[r]), AsPrivate(lim, s, b)); }
    assert r < |s'.runs| && RunOk(s', s'.runs[r]);
  }

  lemma {:induction false} DoomedExecution(lim: Limits, tr: seq<System>, bs: seq<SysAction>, i: nat, r: nat,
                                           cfg: Config)
    requires ValidLimits(lim) && Execution(lim, tr, bs) && i < |tr| && DoomedAt(lim, tr[0], r, cfg)
    ensures DoomedAt(lim, tr[i], r, cfg)
  {
    hide SysEnabled, SysApply, DoomedAt;
    if i > 0 {
      DoomedExecution(lim, tr, bs, i - 1, r, cfg);
      DoomedStep(lim, tr[i - 1], bs[i - 1], r, cfg);
    }
  }

  lemma DoomedNeverReturns(lim: Limits, s: System, r: nat, cfg: Config, v: View)
    requires ValidLimits(lim) && At(lim, s, r, cfg, v) && Doomed(lim, cfg, v)
    ensures NeverReturns(lim, s, r)
  {
    hide Doomed, Inv;
    ReachableCaps(lim, s);
    forall s' | Leads(lim, s, s') ensures r < |s'.runs| && !AllExited(s'.runs[r].l) {
      var tr: seq<System>, bs: seq<SysAction> :| Execution(lim, tr, bs) && tr[0] == s && tr[|bs|] == s';
      DoomedExecution(lim, tr, bs, |bs|, r, cfg);
      DoomedAtWaits(lim, s', r, cfg);
    }
  }

  lemma DoomedAtWaits(lim: Limits, s: System, r: nat, cfg: Config)
    requires DoomedAt(lim, s, r, cfg)
    ensures !AllExited(s.runs[r].l)
  {
    hide Doomed, Inv;
    assert RunOk(s, s.runs[r]);
    DoomedWaits(lim, cfg, PrivateView(s, s.runs[r]));
  }

  /** Request r has configuration cfg and has forwarded its Error. */
  ghost predicate Erred(lim: Limits, s: System, r: nat, cfg: Config) {
    Reachable(lim, s) && r < |s.runs| && s.runs[r].cfg == cfg && s.runs[r].l.consumer.Failing?
  }

  lemma LocateErred(lim: Limits, s: System, r: nat, cfg: Config, h: nat) returns (v: View)
    requires ValidLimits(lim) && FirstFailing(cfg, h) && Erred(lim, s, r, cfg)
    ensures At(lim, s, r, cfg, v) && v.l.consumer.Failing? && v.l.consumer.h == h
  {
    hide Inv, Reachable;
    v := Locate(lim, s, r);
    ReachableOccurs(lim, s);
    EveryErrorIsTheFirst(lim, s, r);
    FirstFailingIsUnique(cfg, h, v.l.consumer.h);
  }

  lemma AllHinderHangs(lim: Limits, s: System, r: nat, cfg: Config, h: nat)
    requires ValidLimits(lim) && FirstFailing(cfg, h) && Erred(lim, s, r, cfg) && AllHinder(lim, cfg, h)
    ensures NeverReturns(lim, s, r)
  {
    hide Inv, NeverReturns, AllIntact, At, Hinders, Choice, Erred, FirstFailing;
    var v := LocateErred(lim, s, r, cfg, h);
    AtFacts(lim, s, r, cfg, v);
    NothingIsLost(lim, s, r, cfg, v);
    SpentIsChoice(lim, cfg, v);
    DoomedNeverReturns(lim, s, r, cfg, v);
  }

  // ---------- a signal that is spent well ----------

  /** What the signal was spent on does not hinder, nor, if it is not spent, anything it can be spent on. */
  ghost predicate Clear(lim: Limits, cfg: Config, l: Local) {
    && l.consumer.Failing? && (l.token ==> !SomeHinders(lim, cfg, l.consumer.h))
    && !Hinders(lim, cfg, l.consumer.h, ChoiceOf(l.spent))
  }

  /** A stuck worker is on a later height, before which too few fail. */
  lemma StuckHinders(lim: Limits, cfg: Config, v: View, w: nat)
    requires ValidLimits(lim) && Inv(cfg, v) && v.l.consumer.Failing? && |Msgs(cfg, v.l.consumer.h)| == 1 && Stuck(v, w)
    requires v.ord.cap == lim.itemCap && forall c :: c in v.resp ==> v.resp[c].cap == lim.respCap
    ensures Hinders(lim, cfg, v.l.consumer.h, ChoiceOf(v.l.spent))
  {
    hide Inv, Msgs;
    var u := v.l.workers[w].h;
    StuckIsOversized(cfg, v, w);
    ProducerReach(cfg, v);
    FreeWorker(cfg, v, u, w);
    SameDeaths(cfg, u, v.l.spent);
    NotSkipped(cfg, v, w);
    assert TooBig(lim, cfg, v.l.consumer.h, ChoiceOf(v.l.spent), u);
  }

  lemma NotSkipped(cfg: Config, v: View, w: nat)
    requires Inv(cfg, v) && w < |v.l.workers| && WorkerHeight(v.l.workers[w]).Some?
    ensures v.l.spent != OnWork(WorkerHeight(v.l.workers[w]).value)
  {
    hide Owned, Output, RoomInv, Reassembly, WorkQueue, WorkersOk;
    OnItself(v.l.workers, w, WorkerHeight(v.l.workers[w]).value);
  }

  /** When the work channel is empty, every height sent to it was taken, so those not taken were skipped. */
  lemma AllTaken(cfg: Config, v: View)
    requires Queues(cfg, v) && v.work.buf == []
    ensures Deadly(cfg, cfg.start, QueuedTo(cfg, v.l.producer), v.l.spent)
              == Deadly(cfg, cfg.start, v.l.taken, v.l.spent)
  {
    forall z | v.l.taken <= z < QueuedTo(cfg, v.l.producer) ensures v.l.spent == OnWork(z) {
      assert !Queued(v.work.buf, z);
    }
  }

  lemma QueuedInRange(cfg: Config, v: View)
    requires Inv(cfg, v)
    ensures QueuedTo(cfg, v.l.producer) <= LastHeight(cfg) + 1
    ensures v.work.buf == [] ==>
              Deadly(cfg, cfg.start, QueuedTo(cfg, v.l.producer), v.l.spent)
                  == Deadly(cfg, cfg.start, v.l.taken, v.l.spent)
  {
    hide Ownership, ItemsRef, WorkersRef, WorkersOk, Output, RoomInv, Reassembly, Deadly;
    if v.work.buf == [] { AllTaken(cfg, v); }
  }

  /** A producer that is blocked while a worker is idle has queued all it can, and too few of these heights fail. */
  lemma BlockedHinders(lim: Limits, cfg: Config, v: View, w: nat)
    requires Inv(cfg, v) && v.l.consumer.Failing? && OrderBlocked(v) && v.ord.cap == lim.itemCap
    requires w < |v.l.workers| && v.l.workers[w].Idle? && v.work.buf == []
    ensures Hinders(lim, cfg, v.l.consumer.h, ChoiceOf(v.l.spent))
  {
    hide Inv, Deadly;
    QueuedInRange(cfg, v);
    ProducerReach(cfg, v);
    FreeWorker(cfg, v, v.l.taken, w);
    SameDeaths(cfg, QueuedTo(cfg, v.l.producer), v.l.spent);
    assert TooLong(lim, cfg, v.l.consumer.h, ChoiceOf(v.l.spent));
  }

  lemma ClearMoves(lim: Limits, s: System, r: nat, cfg: Config, v: View) returns (a: Action)
    requires ValidLimits(lim) && At(lim, s, r, cfg, v) && Clear(lim, cfg, v.l) && !AllExited(v.l)
    ensures Enabled(cfg, v, a) && (IsWorker(a) || IsProducer(a))
  {
    hide Inv, Hinders, SomeHinders, Stuck, OrderBlocked;
    AtFacts(lim, s, r, cfg, v);
    FailureIsFirst(cfg, v);
    assert |Msgs(cfg, v.l.consumer.h)| == 1;
    forall w | 0 <= w < |v.l.workers| ensures !Stuck(v, w) { if Stuck(v, w) { StuckHinders(lim, cfg, v, w); } }
    forall w | 0 <= w < |v.l.workers| && v.l.workers[w].Idle? && v.work.buf == [] ensures !OrderBlocked(v) {
      if OrderBlocked(v) { BlockedHinders(lim, cfg, v, w); }
    }
    a := ErrorWaitMoves(cfg, v);
  }

  /** The signal is spent, or there is no send left to spend it on. */
  ghost predicate KeepsSpent(l: Local) { !l.token || l.producer.Stopped? }

  lemma StoppedStays(cfg: Config, v: View, a: Action)
    requires Enabled(cfg, v, a) && (IsWorker(a) || IsProducer(a)) && v.l.producer.Stopped?
    ensures Apply(cfg, v, a).l.producer.Stopped? && Apply(cfg, v, a).l.spent == v.l.spent
  {
    hide ProducerApply, WorkerApply;
    assert IsWorker(a);
    WorkerKeepsSignal(cfg, v, a);
  }

  lemma ClearKept(lim: Limits, cfg: Config, v: View, a: Action)
    requires Inv(cfg, v) && Clear(lim, cfg, v.l) && Enabled(cfg, v, a) && (IsWorker(a) || IsProducer(a))
    requires v.ord.cap == lim.itemCap
    ensures Clear(lim, cfg, Apply(cfg, v, a).l) && Apply(cfg, v, a).l.consumer == v.l.consumer
    ensures KeepsSpent(v.l) ==> KeepsSpent(Apply(cfg, v, a).l) && Apply(cfg, v, a).l.spent == v.l.spent
    ensures v.l.producer.Stopped? ==> Apply(cfg, v, a).l.producer.Stopped?
  {
    hide Inv, Enabled, Apply, Hinders, Choice;
    if v.l.producer.Stopped? { StoppedStays(cfg, v, a); }
    AfterSignal(cfg, v, a);
    PipelineFrame(cfg, v, a);
    StepKeeps(cfg, v, a);
    SpentIsChoice(lim, cfg, v);
    SpentIsChoice(lim, cfg, Apply(cfg, v, a));
  }

  /** Such a request can be run until all its workers have returned; by ClearMoves and StepCounts every schedule
      that goes on as long as it can does so. */
  lemma {:induction false} RunsToReturn(lim: Limits, s: System, r: nat, cfg: Config, v: View)
    returns (s': System, v': View)
    requires ValidLimits(lim) && At(lim, s, r, cfg, v) && Clear(lim, cfg, v.l)
    ensures Leads(lim, s, s') && At(lim, s', r, cfg, v') && AllExited(v'.l) && v'.l.consumer == v.l.consumer
    ensures KeepsSpent(v.l) ==> KeepsSpent(v'.l) && v'.l.spent == v.l.spent
    ensures v.l.producer.Stopped? ==> v'.l.producer.Stopped?
    decreases StepsLeft(cfg, v.l)
  {
    hide Inv, StepsLeft, Enabled, Apply, Hinders, SomeHinders;
    AtFacts(lim, s, r, cfg, v);
    if AllExited(v.l) {
      LeadsSelf(lim, s);
      s', v' := s, v;
    } else {
      StepsLeftSign(cfg, v);
      var a := ClearMoves(lim, s, r, cfg, v);
      var b, s1, a1, v1 := Drive(lim, s, r, cfg, v, a);
      ClearKept(lim, cfg, v, a1);
      s', v' := RunsToReturn(lim, s1, r, cfg, v1);
      LeadsStep(lim, s, b, s');
    }
  }

  lemma ClearReturns(lim: Limits, s: System, r: nat, cfg: Config, v: View)
    requires ValidLimits(lim) && At(lim, s, r, cfg, v) && Clear(lim, cfg, v.l)
    ensures !NeverReturns(lim, s, r)
  {
    hide Inv, Clear;
    var s', v' := RunsToReturn(lim, s, r, cfg, v);
    AtFacts(lim, s', r, cfg, v');
  }

  // ---------- every choice can be made ----------

  lemma FirstView(lim: Limits, cfg: Config) returns (s: System, v: View)
    requires ValidLimits(lim) && ValidConfig(cfg)
    ensures At(lim, s, 0, cfg, v) && v.l == InitLocal(cfg)
  {
    FirstStarts(lim, cfg);
    s := FirstSystem(lim, cfg, InitLocal(cfg));
    v := Locate(lim, s, 0);
  }

  /** The consumer has the first Error, and the producer is about to order the next height. */
  lemma ReachParked(lim: Limits, cfg: Config, h: nat) returns (s: System, v: View)
    requires ValidLimits(lim) && ValidConfig(cfg) && FirstFailing(cfg, h) && h < LastHeight(cfg)
    ensures At(lim, s, 0, cfg, v) && Marching(v, h, h + 1) && v.l.producer.Ordering?
  {
    hide Inv;
    var s0, v0 := FirstView(lim, cfg);
    assert Early(cfg, v0, h);
    s, v := ReachError(lim, s0, 0, cfg, v0, h);
    AtFacts(lim, s, 0, cfg, v);
    NotFinished(cfg, v, h);
  }

  /** A request can forward the Error of h and have spent the signal on any choice, if a height follows h. */
  lemma ReachChoice(lim: Limits, cfg: Config, h: nat, p: Spent) returns (s: System, v: View)
    requires ValidLimits(lim) && ValidConfig(cfg) && FirstFailing(cfg, h) && h < LastHeight(cfg)
    requires Choice(lim, cfg, h, p)
    ensures At(lim, s, 0, cfg, v) && v.l.consumer.Failing? && v.l.consumer.h == h && v.l.spent == p
  {
    hide Inv, At;
    var s1, v1 := ReachParked(lim, cfg, h);
    if p.OnWork? { s1, v1 := March(lim, s1, 0, cfg, v1, h, p.h); }
    var s2, v2 := Spend(lim, s1, 0, cfg, v1);
    s, v := ReachFailing(lim, s2, 0, cfg, v2);
  }

  /** A request with a failing height has a schedule that forwards the Error of the first. */
  lemma ReachErred(lim: Limits, cfg: Config, h: nat) returns (s: System, v: View)
    requires ValidLimits(lim) && ValidConfig(cfg) && FirstFailing(cfg, h)
    ensures At(lim, s, 0, cfg, v) && v.l.consumer.Failing? && v.l.consumer.h == h
  {
    hide Inv, StepsLeft;
    var s0, v0 := FirstView(lim, cfg);
    var s1, v1 := ReachSignal(lim, s0, 0, cfg, v0, h);
    var b2, s2, a2, v2 := Drive(lim, s1, 0, cfg, v1, CSignal);
    s, v := ReachFailing(lim, s2, 0, cfg, v2);
  }

  /** If it is the last height that fails, the producer can be done before the Error is signalled. */
  lemma ReachErredAtEnd(lim: Limits, cfg: Config, h: nat) returns (s: System, v: View)
    requires ValidLimits(lim) && ValidConfig(cfg) && FirstFailing(cfg, h) && h == LastHeight(cfg)
    ensures At(lim, s, 0, cfg, v) && v.l.consumer.Failing? && v.l.consumer.h == h
    ensures v.l.producer.Stopped? && v.l.spent.Unspent?
  {
    hide Inv, StepsLeft, Settled;
    var s0, v0 := FirstView(lim, cfg);
    var s1, v1 := ReachSignal(lim, s0, 0, cfg, v0, h);
    var s2, v2 := Settle(lim, s1, 0, cfg, v1);
    AtFacts(lim, s2, 0, cfg, v2);
    SettledAtEnd(cfg, v2);
    var b3, s3, a3, v3 := Drive(lim, s2, 0, cfg, v2, CSignal);
    s, v := ReachFailing(lim, s3, 0, cfg, v3);
  }

  lemma SettledAtEnd(cfg: Config, v: View)
    requires Inv(cfg, v) && Settled(cfg, v) && v.l.consumer.Signalling? && v.l.consumer.h == LastHeight(cfg)
    ensures v.l.producer.Stopped? && v.l.spent.Unspent?
  {
    hide Contents, WorkersOk, WorkersRef, Output, Dispatch, RoomInv, LiveHeights;
    SignalledIsTaken(cfg, v);
    assert !Enabled(cfg, v, PLast) && !Enabled(cfg, v, PClose);
  }

  /** After the Error of the last height nothing hinders. */
  lemma NothingFollows(lim: Limits, cfg: Config, h: nat)
    requires ValidLimits(lim) && LastHeight(cfg) <= h
    ensures !SomeHinders(lim, cfg, h) && !AllHinder(lim, cfg, h)
  {
    assert Choice(lim, cfg, h, OnOrder);
  }

  /** A request for which not every choice hinders has a schedule that forwards its Error with a clear wait ahead. */
  lemma ReachClear(lim: Limits, cfg: Config, h: nat) returns (s: System, v: View)
    requires ValidLimits(lim) && ValidConfig(cfg) && FirstFailing(cfg, h) && !AllHinder(lim, cfg, h)
    ensures At(lim, s, 0, cfg, v) && Clear(lim, cfg, v.l) && KeepsSpent(v.l) && v.l.spent != OnLast
  {
    hide Inv, Hinders, At, FirstFailing;
    if h < LastHeight(cfg) {
      var p :| Choice(lim, cfg, h, p) && !Hinders(lim, cfg, h, p);
      s, v := ReachChoice(lim, cfg, h, p);
      AtFacts(lim, s, 0, cfg, v);
      SpentIsChoice(lim, cfg, v);
    } else {
      assert h == LastHeight(cfg) by { FailingInRange(cfg, h); }
      s, v := ReachErredAtEnd(lim, cfg, h);
      NothingFollows(lim, cfg, h);
      assert Choice(lim, cfg, h, OnOrder);
    }
  }

  lemma FailingInRange(cfg: Config, h: nat)
    requires FirstFailing(cfg, h)
    ensures h <= LastHeight(cfg)
  {
  }

  /** Such a request can return, with the signal not spent on the Last marker. */
  lemma ReachReturn(lim: Limits, cfg: Config, h: nat) returns (s: System, s': System, v': View)
    requires ValidLimits(lim) && ValidConfig(cfg) && FirstFailing(cfg, h) && !AllHinder(lim, cfg, h)
    ensures Erred(lim, s, 0, cfg) && Leads(lim, s, s')
    ensures At(lim, s', 0, cfg, v') && v'.l.consumer.Failing? && AllExited(v'.l) && v'.l.spent != OnLast
  {
    hide Inv, Hinders, SomeHinders, AllHinder, FirstFailing;
    var v;
    s, v := ReachClear(lim, cfg, h);
    AtFacts(lim, s, 0, cfg, v);
    s', v' := RunsToReturn(lim, s, 0, cfg, v);
  }

  // ---------- the exact conditions ----------

  /** Some schedule of the request forwards its Error and then waits for ever. */
  ghost predicate CanHang(lim: Limits, cfg: Config) {
    exists s: System, r: nat :: Erred(lim, s, r, cfg) && NeverReturns(lim, s, r)
  }

  /** Every schedule of the request that forwards its Error waits for ever after it. */
  ghost predicate AlwaysHangs(lim: Limits, cfg: Config) {
    forall s: System, r: nat :: Erred(lim, s, r, cfg) ==> NeverReturns(lim, s, r)
  }

  lemma ChoiceHangs(lim: Limits, cfg: Config, h: nat, p: Spent)
    requires ValidLimits(lim) && ValidConfig(cfg) && FirstFailing(cfg, h) && Choice(lim, cfg, h, p)
    requires Hinders(lim, cfg, h, p)
    ensures CanHang(lim, cfg)
  {
    hide Inv, NeverReturns, AllIntact, Hinders;
    if LastHeight(cfg) <= h { NothingFollows(lim, cfg, h); }
    var s, v := ReachChoice(lim, cfg, h, p);
    AtFacts(lim, s, 0, cfg, v);
    NothingIsLost(lim, s, 0, cfg, v);
    SpentIsChoice(lim, cfg, v);
    DoomedNeverReturns(lim, s, 0, cfg, v);
    assert Erred(lim, s, 0, cfg);
  }

  lemma NoneHindersReturns(lim: Limits, s: System, r: nat, cfg: Config, h: nat)
    requires ValidLimits(lim) && FirstFailing(cfg, h) && Erred(lim, s, r, cfg) && !SomeHinders(lim, cfg, h)
    ensures !NeverReturns(lim, s, r)
  {
    hide Inv, NeverReturns, At, Hinders, Choice, Erred, FirstFailing;
    var v := LocateErred(lim, s, r, cfg, h);
    AtFacts(lim, s, r, cfg, v);
    SpentIsChoice(lim, cfg, v);
    ClearReturns(lim, s, r, cfg, v);
  }

  /** The wait after an Error, exactly: a request can wait for ever after the Error of its first failing height h if
      and only if some choice of what the signal is spent on hinders it.  If fewer of its heights fail than it has
      workers, that is: if at least itemCap heights follow h, or one of the next itemCap + 1 blocks has more messages
      than a response channel holds. */
  lemma HangsExactlyWhen(lim: Limits, cfg: Config, h: nat)
    requires ValidLimits(lim) && ValidConfig(cfg) && FirstFailing(cfg, h)
    ensures CanHang(lim, cfg) <==> SomeHinders(lim, cfg, h)
    ensures FewFailures(cfg) ==> (CanHang(lim, cfg) <==> h + lim.itemCap <= LastHeight(cfg) || Oversized(lim, cfg, h))
  {
    hide Hinders, Choice, NeverReturns, FewFailures, Oversized, Erred;
    if SomeHinders(lim, cfg, h) {
      var p :| Choice(lim, cfg, h, p) && Hinders(lim, cfg, h, p);
      ChoiceHangs(lim, cfg, h, p);
    } else if CanHang(lim, cfg) {
      var s: System, r: nat :| Erred(lim, s, r, cfg) && NeverReturns(lim, s, r);
      NoneHindersReturns(lim, s, r, cfg, h);
    }
    if FewFailures(cfg) { FewFailuresHinder(lim, cfg, h); }
  }

  /** When the wait is certain, exactly: every schedule of a request that forwards its Error, and there is one, waits
      for ever after it if and only if every choice of what the signal is spent on hinders it.  If fewer of its heights
      fail than it has workers and none of the next itemCap + 1 blocks is oversized, that is: if more than itemCap
      heights follow the failing one. */
  lemma AlwaysHangsExactlyWhen(lim: Limits, cfg: Config, h: nat)
    requires ValidLimits(lim) && ValidConfig(cfg) && FirstFailing(cfg, h)
    ensures AlwaysHangs(lim, cfg) <==> AllHinder(lim, cfg, h)
    ensures FewFailures(cfg) && !Oversized(lim, cfg, h) ==>
              (AlwaysHangs(lim, cfg) <==> h + lim.itemCap + 1 <= LastHeight(cfg))
    ensures exists s, r :: Erred(lim, s, r, cfg)
  {
    hide Oversized, AllHinder, FewFailures, NeverReturns, Inv;
    var s1, v1 := ReachErred(lim, cfg, h);
    AtFacts(lim, s1, 0, cfg, v1);
    assert Erred(lim, s1, 0, cfg);
    if AllHinder(lim, cfg, h) {
      forall s: System, r: nat | Erred(lim, s, r, cfg)
        ensures NeverReturns(lim, s, r) { AllHinderHangs(lim, s, r, cfg, h); }
    } else {
      var s, s', v' := ReachReturn(lim, cfg, h);
      ReturnsAfterAll(lim, s, s', 0, cfg, v');
    }
    if FewFailures(cfg) { FewFailuresHinder(lim, cfg, h); }
  }

  lemma ReturnsAfterAll(lim: Limits, s: System, s': System, r: nat, cfg: Config, v': View)
    requires Leads(lim, s, s') && At(lim, s', r, cfg, v') && AllExited(v'.l)
    ensures !NeverReturns(lim, s, r)
  {
    hide Inv, Leads, Reachable;
  }

  /** A request from height 1 on, of which only height 1 cannot be fetched and the other blocks are empty. */
  ghost function OneBadHeight(end: nat): Config {
    Config(1, end, (h: nat) => if h == 1 then Failed("down") else Fetched(Block("", h, 0, "", 0), []), 5, 201)
  }

  lemma OneBadHeightShape(end: nat)
    requires 1 <= end < TWO_64 - 1
    ensures var cfg := OneBadHeight(end);
            && ValidConfig(cfg) && LastHeight(cfg) == end && FirstFailing(cfg, 1) && FewFailures(cfg)
            && !Oversized(GO_LIMITS, cfg, 1)
  {
    var cfg := OneBadHeight(end);
    assert cfg.outcome(1) == Failed("down");
    forall x: nat | 1 < x <= end ensures cfg.outcome(x).Fetched? && |Msgs(cfg, x)| == 2 { }
    assert FailingIn(cfg, 1, end + 1) == {1};
  }

  /** A request for heights 1 and 2, of which height 1 cannot be fetched and height 2 has n transactions. */
  ghost function OneBigBlock(n: nat): Config {
    Config(1, 2, (h: nat) => if h == 1 then Failed("down")
                             else Fetched(Block("", h, 0, "", n), seq(n, _ => Transaction(h, "", "", [], "", "", 0))),
                                 5, 201)
  }

  lemma OneBigBlockShape(n: nat)
    ensures var cfg := OneBigBlock(n);
            && ValidConfig(cfg) && LastHeight(cfg) == 2 && FirstFailing(cfg, 1) && FewFailures(cfg)
            && |Msgs(cfg, 2)| == n + 2
  {
    var cfg := OneBigBlock(n);
    assert cfg.outcome(1) == Failed("down");
    assert cfg.outcome(2).Fetched? && |cfg.outcome(2).txs| == n;
    assert FailingIn(cfg, 1, 3) == {1};
  }

  /** With the limits of the source: after an Error, a later block of 999 transactions or more is enough to hang. */
  lemma BigBlockHangs(n: nat)
    ensures CanHang(GO_LIMITS, OneBigBlock(n)) <==> n >= 999
  {
    hide CanHang, OneBigBlock, FirstFailing, FewFailures, SomeHinders, Msgs;
    OneBigBlockShape(n);
    HangsExactlyWhen(GO_LIMITS, OneBigBlock(n), 1);
    assert |Msgs(OneBigBlock(n), 2)| > 1000 <==> n >= 999;
  }

  /** With the limits of the source: ten good heights after the bad one make a hang possible, eleven make it certain. */
  lemma TenMoreHeightsHang(end: nat)
    requires 1 <= end < TWO_64 - 1
    ensures CanHang(GO_LIMITS, OneBadHeight(end)) <==> end >= 11
    ensures AlwaysHangs(GO_LIMITS, OneBadHeight(end)) <==> end >= 12
  {
    hide CanHang, AlwaysHangs, OneBadHeight, FirstFailing, FewFailures, Oversized, SomeHinders, AllHinder;
    OneBadHeightShape(end);
    HangsExactlyWhen(GO_LIMITS, OneBadHeight(end), 1);
    AlwaysHangsExactlyWhen(GO_LIMITS, OneBadHeight(end), 1);
  }
}
