/**
 What a request that has failed does once it gets past the wait for its workers, and what that means for the requests
 that come after it.  Its clean-up puts the channels of all items left in the ordering channel back into the pool; the
 Last marker has none, so nil goes into the pool, or the Put panics.  A request that is given the nil stops there.
 */
module CleanUp {
  import opened Structs
  import opened RangeProtocol
  import opened RangeInvariant
  import opened RangeResults
  import opened RangeProgress
  import opened SharedPools
  import opened Executions
  import opened Schedules
  import opened ErrorPath
  import opened ErrorSchedules
  import opened ErrorWait

  // ---------- what is put ----------

  /** What the clean-up hands to Put: the channel of each item left in the ordering channel, nil for the Last marker. */
  ghost function Purged(items: seq<Item>): seq<Option<ChanId>> {
    seq(|items|, i requires 0 <= i < |items| => match items[i] case Item(_, c) => Some(c) case Last => None)
  }

  /** A pool after some Puts: what it holds, or a panic on closing nil. */
  datatype Filled = Panic | Stores(stor: seq<Option<ChanId>>)

  /** Putting channels one after the other: each is kept while there is room; after that it is closed. */
  ghost function PutAll(stor: seq<Option<ChanId>>, poolCap: nat, cs: seq<Option<ChanId>>): Filled
    decreases |cs|
  {
    if cs == [] then Stores(stor)
    else if |stor| < poolCap then PutAll(stor + [cs[0]], poolCap, cs[1..])
    else if cs[0].None? then Panic
    else PutAll(stor, poolCap, cs[1..])
  }

  lemma {:induction false} PutAllChannels(stor: seq<Option<ChanId>>, poolCap: nat, cs: seq<Option<ChanId>>)
    requires forall i :: 0 <= i < |cs| ==> cs[i].Some?
    ensures PutAll(stor, poolCap, cs).Stores? && stor <= PutAll(stor, poolCap, cs).stor <= stor + cs
    decreases |cs|
  {
    if cs != [] {
      if |stor| < poolCap {
        PutAllChannels(stor + [cs[0]], poolCap, cs[1..]);
        assert stor + cs == (stor + [cs[0]]) + cs[1..];
      } else {
        PutAllChannels(stor, poolCap, cs[1..]);
        PutAllFull(stor, poolCap, cs[1..]);
      }
    }
  }

  lemma {:induction false} PutAllFull(stor: seq<Option<ChanId>>, poolCap: nat, cs: seq<Option<ChanId>>)
    requires |stor| >= poolCap && forall i :: 0 <= i < |cs| ==> cs[i].Some?
    ensures PutAll(stor, poolCap, cs) == Stores(stor)
    decreases |cs|
  {
    if cs != [] { PutAllFull(stor, poolCap, cs[1..]); }
  }

  /** A nil after n channels is kept if there is room for all of them, and panics otherwise. */
  lemma {:induction false} PutAllNil(stor: seq<Option<ChanId>>, poolCap: nat, cs: seq<Option<ChanId>>)
    requires forall i :: 0 <= i < |cs| ==> cs[i].Some?
    ensures PutAll(stor, poolCap, cs + [None]) == if |stor| + |cs| < poolCap then Stores(stor + cs + [None]) else Panic
    decreases |cs|
  {
    if cs != [] {
      assert (cs + [None])[1..] == cs[1..] + [None];
      if |stor| < poolCap {
        PutAllNil(stor + [cs[0]], poolCap, cs[1..]);
        assert stor + cs == (stor + [cs[0]]) + cs[1..];
      } else {
        PutAllNil(stor, poolCap, cs[1..]);
      }
    }
  }

  /** The channels among cs are open channels of the request. */
  ghost predicate OwnOpen(v: View, cs: seq<Option<ChanId>>) {
    forall i :: 0 <= i < |cs| && cs[i].Some? ==> cs[i].value in v.l.owned.Values && OpenChannel(v.resp, cs[i].value)
  }

  lemma PurgedIsOwn(cfg: Config, v: View)
    requires Owned(cfg, v)
    ensures OwnOpen(v, Purged(v.ord.buf))
  {
    var cs := Purged(v.ord.buf);
    forall i | 0 <= i < |cs| && cs[i].Some?
      ensures cs[i].value in v.l.owned.Values && OpenChannel(v.resp, cs[i].value) {
      var item := v.ord.buf[i];
      assert item.Item? && Ref(v.l.owned, item.h, item.ch) && OpenChannel(v.resp, v.l.owned[item.h]);
    }
  }

  /** How many channels the clean-up hands back before the nil. */
  ghost function Later(cfg: Config, l: Local): int
    requires l.consumer.Failing?
  {
    LastHeight(cfg) - l.consumer.h - (if l.spent.OnOrder? then 1 else 0)
  }

  /** Channels, and then nil. */
  ghost predicate NilAtEnd(cs: seq<Option<ChanId>>) {
    |cs| > 0 && cs[|cs| - 1].None? && forall i :: 0 <= i < |cs| - 1 ==> cs[i].Some?
  }

  lemma PutAllEnding(stor: seq<Option<ChanId>>, poolCap: nat, cs: seq<Option<ChanId>>)
    requires NilAtEnd(cs)
    ensures PutAll(stor, poolCap, cs) == if |stor| + |cs| - 1 < poolCap then Stores(stor + cs) else Panic
    ensures None in cs
  {
    var chans := cs[..|cs| - 1];
    assert cs == chans + [None];
    PutAllNil(stor, poolCap, chans);
    assert stor + chans + [None] == stor + cs;
  }

  /** When the producer is done, the ordering channel holds a channel for each later height, but for one whose send the
      signal replaced, and then nil, unless the signal replaced the Last marker. */
  lemma PurgedShape(cfg: Config, v: View)
    requires Inv(cfg, v) && HasReturned(v.l)
    ensures var cs := Purged(v.ord.buf);
            if v.l.spent.OnLast? then forall i :: 0 <= i < |cs| ==> cs[i].Some?
            else NilAtEnd(cs) && |cs| == Later(cfg, v.l) + 1
  {
    hide Owned, Output, RoomInv, Reassembly, WorkQueue, WorkersOk, Dispatch;
  }

  /** With fewer failing heights than workers, a request that gets past the wait has a producer that is done.  Its
      clean-up hands back open channels of its own, and after them nil, unless the error signal was spent on the Last
      marker.  If nobody else uses the pool meanwhile, the nil is then in the pool if there is room for all of them, and
      otherwise the Put of nil panics. */
  lemma NilIsPut(lim: Limits, s: System, r: nat, cfg: Config, v: View, stor: seq<Option<ChanId>>, poolCap: nat)
    requires At(lim, s, r, cfg, v) && v.l.consumer.Failing? && AllExited(v.l) && FewFailures(cfg)
    ensures HasReturned(v.l) && OwnOpen(v, Purged(v.ord.buf)) && (None in Purged(v.ord.buf) <==> v.l.spent != OnLast)
    ensures v.l.spent == OnLast ==> PutAll(stor, poolCap, Purged(v.ord.buf)).Stores?
    ensures v.l.spent != OnLast ==>
              PutAll(stor, poolCap, Purged(v.ord.buf))
                == if |stor| + Later(cfg, v.l) < poolCap then Stores(stor + Purged(v.ord.buf)) else Panic
  {
    hide Owned, Queues, Output, RoomInv, Reassembly, OwnOpen, FewFailures;
    AtFacts(lim, s, r, cfg, v);
    AllExitedMeansDrained(cfg, v);
    PurgedIsOwn(cfg, v);
    PurgedShape(cfg, v);
    var cs := Purged(v.ord.buf);
    hide Purged, PutAll, NilAtEnd;
    if v.l.spent.OnLast? { PutAllChannels(stor, poolCap, cs); } else { PutAllEnding(stor, poolCap, cs); }
  }

  /** With the pool of the source: the Put panics if twenty channels are pooled or handed back before the nil. */
  lemma GoPoolPanics(stor: seq<Option<ChanId>>, cs: seq<Option<ChanId>>)
    requires NilAtEnd(cs)
    ensures PutAll(stor, GO_LIMITS.poolCap, cs) == Panic <==> |stor| + |cs| > 20
  {
    PutAllEnding(stor, GO_LIMITS.poolCap, cs);
  }

  // ---------- which requests can put nil ----------

  /** Some schedule of the request forwards its Error and gets past the wait with the Last marker in the ordering
      channel, so that its clean-up has nil to put from the start. */
  ghost predicate CanPutNil(lim: Limits, cfg: Config) {
    exists s: System, r: nat, v: View ::
      At(lim, s, r, cfg, v) && v.l.consumer.Failing? && AllExited(v.l) && None in Purged(v.ord.buf)
  }

  /** Choice p does not hinder, and leaves room for all that is due in the ordering channel. */
  ghost predicate Completes(lim: Limits, cfg: Config, h: nat, p: Spent) {
    Choice(lim, cfg, h, p) && LastHeight(cfg) < Reach(lim, h, p) && !Hinders(lim, cfg, h, p)
  }

  /** The nil is there exactly if the producer has sent the Last marker. */
  lemma NilIsLast(cfg: Config, v: View)
    requires Inv(cfg, v) && !Active(v.l.consumer)
    ensures None in Purged(v.ord.buf) <==> Ends(v.l.producer) && v.l.spent != OnLast
    ensures Ends(v.l.producer) && v.l.spent != OnLast ==>
              LastHeight(cfg) < Base(cfg, v.l.consumer) + v.ord.cap + (if v.l.spent.OnOrder? then 1 else 0)
  {
    hide Dispatch, Ownership, ItemsRef, WorkersRef, WorkersOk, WorkQueue, Output, RoomInv;
    var out, items := Purged(v.ord.buf), v.ord.buf;
    if None in out { var i :| 0 <= i < |out| && out[i] == None; assert items[i] == Last; }
    if Ends(v.l.producer) && v.l.spent != OnLast { assert items[|items| - 1].Last? && out[|items| - 1] == None; }
  }

  /** Ascending heights between taken and queued are no more than there is room between them. */
  lemma {:induction false} QueueFits(start: nat, taken: nat, queued: nat, items: seq<Item>)
    requires WorkQueue(start, taken, queued, items)
    ensures |items| <= queued - taken
    decreases |items|
  {
    if items != [] {
      var n := |items| - 1;
      assert taken <= items[n].h < queued;
      forall i | 0 <= i < n ensures items[i].h < items[n].h { }
      QueueFits(start, taken, items[n].h, items[..n]);
    }
  }

  /** If all that is due fits in the ordering channel, the producer gets to its end without any worker. */
  lemma LoneProducerMoves(cfg: Config, v: View) returns (a: Action)
    requires Inv(cfg, v) && v.l.consumer.Failing? && !v.l.token && v.l.spent != OnLast && !v.l.producer.Stopped?
    requires LastHeight(cfg) < v.l.consumer.h + v.ord.cap + (if v.l.spent.OnOrder? then 1 else 0)
    requires v.work.cap == v.ord.cap
    ensures Enabled(cfg, v, a) && IsProducer(a) && !a.Cancel?
  {
    hide Dispatch, Ownership, ItemsRef, WorkersRef, WorkersOk, Output, RoomInv;
    match v.l.producer
    case Getting(_) =>
      var c := Unused(v.l.owned.Values);
      a := PGet(c, Chan([], 1, false));
    case Ordering(_) => a := POrder;
    case Working(_) => QueueFits(cfg.start, v.l.taken, QueuedTo(cfg, v.l.producer), v.work.buf); a := PWork;
    case Lasting => a := PLast;
    case Closing => a := PClose;
  }

  lemma {:induction false} RunOut(lim: Limits, s: System, r: nat, cfg: Config, v: View) returns (s': System, v': View)
    requires ValidLimits(lim) && At(lim, s, r, cfg, v) && v.l.consumer.Failing? && AllExited(v.l)
    requires !v.l.token && v.l.spent != OnLast
    requires LastHeight(cfg) < v.l.consumer.h + lim.itemCap + (if v.l.spent.OnOrder? then 1 else 0)
    ensures At(lim, s', r, cfg, v') && v'.l.consumer == v.l.consumer && HasReturned(v'.l) && v'.l.spent == v.l.spent
    decreases StepsLeft(cfg, v.l)
  {
    hide Inv, StepsLeft, Enabled, Apply;
    AtFacts(lim, s, r, cfg, v);
    if v.l.producer.Stopped? {
      s', v' := s, v;
    } else {
      StepsLeftSign(cfg, v);
      var a := LoneProducerMoves(cfg, v);
      var b, s1, a1, v1 := Drive(lim, s, r, cfg, v, a);
      AfterSignal(cfg, v, a1);
      PipelineFrame(cfg, v, a1);
      WorkersStay(cfg, v, a1);
      s', v' := RunOut(lim, s1, r, cfg, v1);
    }
  }

  lemma WorkersStay(cfg: Config, v: View, a: Action)
    requires Enabled(cfg, v, a) && IsProducer(a)
    ensures Apply(cfg, v, a).l.workers == v.l.workers
  {
    ProducerKeepsWorkers(cfg, v, a);
  }

  lemma ReachNil(lim: Limits, cfg: Config, h: nat, p: Spent) returns (s: System, v: View)
    requires ValidLimits(lim) && ValidConfig(cfg) && FirstFailing(cfg, h) && Completes(lim, cfg, h, p)
    ensures At(lim, s, 0, cfg, v) && HasReturned(v.l) && v.l.spent != OnLast
  {
    hide Inv, Hinders, At, FirstFailing;
    if h < LastHeight(cfg) {
      var s1, v1 := ReachChoice(lim, cfg, h, p);
      AtFacts(lim, s1, 0, cfg, v1);
      SpentIsChoice(lim, cfg, v1);
      var s2, v2 := RunsToReturn(lim, s1, 0, cfg, v1);
      AtFacts(lim, s2, 0, cfg, v2);
      SpentIsChoice(lim, cfg, v2);
      s, v := RunOut(lim, s2, 0, cfg, v2);
    } else {
      assert h == LastHeight(cfg) by { FailingInRange(cfg, h); }
      var s1, v1 := ReachErredAtEnd(lim, cfg, h);
      NothingFollows(lim, cfg, h);
      assert Choice(lim, cfg, h, OnOrder);
      s, v := RunsToReturn(lim, s1, 0, cfg, v1);
    }
  }

  /** A request that is past its wait with nil to put has spent its signal on a choice that completes. */
  lemma NilCompletes(lim: Limits, s: System, r: nat, cfg: Config, v: View)
    requires ValidLimits(lim) && At(lim, s, r, cfg, v) && v.l.consumer.Failing? && AllExited(v.l)
    requires None in Purged(v.ord.buf)
    ensures Completes(lim, cfg, v.l.consumer.h, ChoiceOf(v.l.spent))
  {
    hide Inv, Hinders, AllIntact, Purged;
    AtFacts(lim, s, r, cfg, v);
    NothingIsLost(lim, s, r, cfg, v);
    SpentIsChoice(lim, cfg, v);
    NilIsLast(cfg, v);
    if Hinders(lim, cfg, v.l.consumer.h, ChoiceOf(v.l.spent)) { HinderedWaits(lim, cfg, v); }
  }

  /** The nil, exactly: a request can get past its wait with nil to put if and only if some choice of what the signal is
      spent on does not hinder it and leaves room for all that is due.  If fewer of its heights fail than it has
      workers, that is: if it can return at all; and if moreover no block within reach is oversized, if at most itemCap
      heights follow the failing one. */
  lemma NilExactlyWhen(lim: Limits, cfg: Config, h: nat)
    requires ValidLimits(lim) && ValidConfig(cfg) && FirstFailing(cfg, h)
    ensures CanPutNil(lim, cfg) <==> exists p :: Completes(lim, cfg, h, p)
    ensures FewFailures(cfg) ==> (CanPutNil(lim, cfg) <==> !AllHinder(lim, cfg, h))
    ensures FewFailures(cfg) && !Oversized(lim, cfg, h) ==>
              (CanPutNil(lim, cfg) <==> LastHeight(cfg) <= h + lim.itemCap)
  {
    hide Oversized, FewFailures, Inv, Purged, Hinders, Choice;
    if p :| Completes(lim, cfg, h, p) {
      var s, v := ReachNil(lim, cfg, h, p);
      AtFacts(lim, s, 0, cfg, v);
      NilIsLast(cfg, v);
    }
    if s: System, r: nat, v: View :|
      At(lim, s, r, cfg, v) && v.l.consumer.Failing? && AllExited(v.l) && None in Purged(v.ord.buf)
    {
      AtFacts(lim, s, r, cfg, v);
      NotFinished(cfg, v, h);
      NilCompletes(lim, s, r, cfg, v);
    }
    if FewFailures(cfg) {
      FewFailuresHinder(lim, cfg, h);
      FewFailuresComplete(lim, cfg, h);
    }
  }

  lemma FewFailuresComplete(lim: Limits, cfg: Config, h: nat)
    requires FewFailures(cfg)
    ensures (exists p :: Completes(lim, cfg, h, p)) <==> !AllHinder(lim, cfg, h)
  {
    hide Deadly, FewFailures, TooBig;
    if p :| Choice(lim, cfg, h, p) && !Hinders(lim, cfg, h, p) {
      if Reach(lim, h, p) <= LastHeight(cfg) { FewDie(cfg, Reach(lim, h, p) + 1, p); }
      assert Completes(lim, cfg, h, p);
    }
  }

  // ---------- a request that draws the nil ----------

  /** Height h holds a nil channel. */
  ghost predicate HoldsNil(v: View, h: nat) {
    h in v.l.owned && v.l.owned[h] in v.resp && v.resp[v.l.owned[h]].cap == 0
  }

  /** The consumer is below h or at the start of it. */
  ghost predicate NotPast(cfg: Config, k: Consumer, h: nat) {
    Base(cfg, k) < h || k == Waiting(h) || (k.Reading? && k.h == h && k.got == 0)
  }

  /** Height h of the request holds a nil channel, and the consumer has not got past the start of h. */
  ghost predicate NilAhead(cfg: Config, v: View, h: nat) {
    HoldsNil(v, h) && h <= LastHeight(cfg) && NotPast(cfg, v.l.consumer, h)
  }

  lemma OwnedStays(cfg: Config, v: View, a: Action)
    requires Enabled(cfg, v, a) && !OnPool(a)
    ensures Apply(cfg, v, a).l.owned == v.l.owned
  {
    hide ProducerEnabled, ProducerApply, WorkerEnabled, WorkerApply, ConsumerEnabled, ConsumerApply;
    if IsProducer(a) { ProducerLeaves(cfg, v, a); }
    else if IsWorker(a) { WorkerOwns(cfg, v, a); }
    else if IsConsumer(a) { ConsumerOwns(cfg, v, a); }
  }

  lemma ConsumerOwns(cfg: Config, v: View, a: Action)
    requires IsConsumer(a) && ConsumerEnabled(cfg, v, a) && !OnPool(a)
    ensures ConsumerApply(cfg, v, a).l.owned == v.l.owned
  {
    hide AfterRead;
    match a
    case CTake =>
    case CRead =>
    case CForward =>
    case CSignal =>
    case _ =>
  }

  lemma WorkerOwns(cfg: Config, v: View, a: Action)
    requires IsWorker(a) && WorkerEnabled(v, a)
    ensures WorkerApply(cfg, v, a).l.owned == v.l.owned
  {
    match a
    case WTake(_) =>
    case WFetch(_) =>
    case WSend(_) =>
    case WExit(_) =>
  }

  lemma NilAfterGet(cfg: Config, v: View, a: Action, h: nat)
    requires Owned(cfg, v) && HoldsNil(v, h) && a.PGet? && ProducerEnabled(v, a)
    ensures HoldsNil(ProducerApply(cfg, v, a), h)
  {
    hide ItemsRef, WorkersRef;
    assert v.l.owned[h] in v.l.owned.Values;
  }

  lemma NilAfterPut(cfg: Config, v: View, h: nat)
    requires Owned(cfg, v) && HoldsNil(v, h) && ConsumerEnabled(cfg, v, CPut) && v.l.consumer.h != h
    ensures HoldsNil(ConsumerApply(cfg, v, CPut), h)
  {
    hide ItemsRef, WorkersRef;
  }

  /** The channel of h stays nil. */
  lemma NilChannelStays(cfg: Config, v: View, a: Action, h: nat)
    requires Inv(cfg, v) && HoldsNil(v, h) && Enabled(cfg, v, a) && !(a.CPut? && v.l.consumer.h == h)
    ensures HoldsNil(Apply(cfg, v, a), h)
  {
    hide Owned, Queues, Output, RoomInv, Reassembly;
    if a.PGet? { NilAfterGet(cfg, v, a, h); }
    else if a.CPut? { NilAfterPut(cfg, v, h); }
    else if !a.CRelease? {
      hide Enabled, Apply;
      OwnedStays(cfg, v, a);
      ActionKeepsCaps(cfg, v, a);
    }
  }

  /** Nothing comes out of a nil channel. */
  lemma NilIsSilent(cfg: Config, v: View, h: nat)
    requires Owned(cfg, v) && HoldsNil(v, h) && v.l.consumer.Reading? && v.l.consumer.h == h
    ensures !ConsumerEnabled(cfg, v, CRead)
  {
    hide ItemsRef, WorkersRef;
    assert OpenChannel(v.resp, v.l.owned[h]);
  }

  lemma NilTakes(cfg: Config, v: View, a: Action, h: nat)
    requires Inv(cfg, v) && NilAhead(cfg, v, h) && (a.CTake? || a.CRead?) && ConsumerEnabled(cfg, v, a)
    ensures NotPast(cfg, ConsumerApply(cfg, v, a).l.consumer, h)
  {
    hide Queues, Output, RoomInv, Ownership, ItemsRef, WorkersRef, Contents, LiveHeights, Consecutive, HoldsNil;
    if a.CTake? { CTakeBase(cfg, v); }
    else {
      if v.l.consumer.h == h { NilIsSilent(cfg, v, h); }
      ReadMoves(cfg, v);
      AfterReadGot(cfg, v.l.consumer, v.l.consumer.h);
    }
  }

  /** The consumer stays where it is, or moves on below h. */
  lemma NilConsumes(cfg: Config, v: View, a: Action, h: nat)
    requires Inv(cfg, v) && NilAhead(cfg, v, h) && Enabled(cfg, v, a) && IsConsumer(a)
    ensures NotPast(cfg, Apply(cfg, v, a).l.consumer, h)
  {
    hide Inv, HoldsNil;
    if a.CTake? || a.CRead? { hide NilAhead; NilTakes(cfg, v, a, h); }
  }

  lemma NilStays(cfg: Config, v: View, a: Action, h: nat)
    requires Inv(cfg, v) && NilAhead(cfg, v, h) && Enabled(cfg, v, a)
    ensures NilAhead(cfg, Apply(cfg, v, a), h)
  {
    hide Inv, HoldsNil;
    assert !(a.CPut? && v.l.consumer.h == h) by { hide Apply; }
    NilChannelStays(cfg, v, a, h);
    hide Enabled, Apply;
    if IsConsumer(a) { NilConsumes(cfg, v, a, h); } else { OthersKeepConsumer(cfg, v, a); }
  }

  ghost predicate NilAheadIn(s: System, r: nat, h: nat) {
    r < |s.runs| && HasChannels(s, s.runs[r]) && NilAhead(s.runs[r].cfg, PrivateView(s, s.runs[r]), h)
  }

  /** Get hands the nil to the next height that asks for a channel. */
  lemma NilIsDrawn(lim: Limits, s: System, r: nat, spare: ChanId)
    requires ValidLimits(lim) && SysInv(s) && SysEnabled(lim, s, Acquire(r, spare))
    requires s.resp.stor != [] && s.resp.heap[s.resp.stor[0]] == NIL
    ensures NilAheadIn(SysApply(lim, s, Acquire(r, spare)), r, s.runs[r].l.producer.h)
  {
    StepRefines(lim, s, Acquire(r, spare));
    assert RunOk(s, s.runs[r]);
    var c := s.resp.stor[0];
    NilAcquired(s.runs[r].cfg, PrivateView(s, s.runs[r]), PGet(c, NIL));
  }

  lemma NilAcquired(cfg: Config, v: View, a: Action)
    requires Inv(cfg, v) && a.PGet? && a.chan.cap == 0 && ProducerEnabled(v, a)
    ensures NilAhead(cfg, ProducerApply(cfg, v, a), v.l.producer.h)
  {
    hide Dispatch, Ownership, ItemsRef, WorkersRef, WorkersOk, RoomInv, Shipping, Contents, LiveHeights;
  }

  lemma HistoryStep(lim: Limits, s: System, e: Event, r: nat, h: nat)
    requires ValidLimits(lim) && SysInv(s) && CanHappen(lim, s, e) && NilAheadIn(s, r, h)
    ensures SysInv(After(lim, s, e)) && NilAheadIn(After(lim, s, e), r, h)
    ensures After(lim, s, e).runs[r].cfg == s.runs[r].cfg
  {
    hide Inv, Enabled, Apply, SysEnabled, SysApply, CanGive, Give, NilAhead;
    if e.Step? {
      StepRefines(lim, s, e.b);
      assert RunOk(s, s.runs[r]);
      if !e.b.Start? && e.b.r == r {
        NilStays(s.runs[r].cfg, PrivateView(s, s.runs[r]), AsPrivate(lim, s, e.b), h);
      }
    } else {
      GiftKeeps(lim, s, e);
    }
  }

  lemma {:induction false} HistoryNil(lim: Limits, tr: seq<System>, es: seq<Event>, i: nat, r: nat, h: nat)
    requires ValidLimits(lim) && History(lim, tr, es) && SysInv(tr[0]) && NilAheadIn(tr[0], r, h) && i < |tr|
    ensures SysInv(tr[i]) && NilAheadIn(tr[i], r, h) && tr[i].runs[r].cfg == tr[0].runs[r].cfg
  {
    hide SysInv, NilAheadIn, CanHappen, After;
    if i > 0 {
      HistoryNil(lim, tr, es, i - 1, r, h);
      HistoryStep(lim, tr[i - 1], es[i - 1], r, h);
      assert NilAheadIn(tr[i], r, h);
    }
  }

  /** A request whose height h was given the nil never delivers anything of h or of a later height, and never finishes,
      in whatever history follows: what it has written stays within the bodies below h and the Error of a height below
      h. */
  lemma NilStops(lim: Limits, tr: seq<System>, es: seq<Event>, i: nat, r: nat, h: nat)
    requires ValidLimits(lim) && History(lim, tr, es) && SysInv(tr[0]) && NilAheadIn(tr[0], r, h) && i < |tr|
    ensures r < |tr[i].runs|
    ensures var run := tr[i].runs[r];
            && !PastLast(run.l.consumer) && Base(run.cfg, run.l.consumer) <= h
            && (Base(run.cfg, run.l.consumer) == h ==> run.l.written == Bodies(run.cfg, run.cfg.start, h))
  {
    HistoryNil(lim, tr, es, i, r, h);
    assert RunOk(tr[i], tr[i].runs[r]);
    NilDelivers(tr[i].runs[r].cfg, PrivateView(tr[i], tr[i].runs[r]), h);
  }

  lemma NilDelivers(cfg: Config, v: View, h: nat)
    requires Inv(cfg, v) && NilAhead(cfg, v, h)
    ensures !PastLast(v.l.consumer) && Base(cfg, v.l.consumer) <= h
    ensures Base(cfg, v.l.consumer) == h ==> v.l.written == Bodies(cfg, cfg.start, h)
  {
    hide Owned, Queues, RoomInv, Reassembly, Shipping;
    assert v.l.consumer.Reading? ==> Msgs(cfg, v.l.consumer.h)[..0] == [];
  }
}
