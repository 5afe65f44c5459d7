/**
 Whole executions: any number of requests, started at any time, interleaved in any way.

 A request that forwards an Error stays in its wait for its workers here; ErrorWait says when it can leave it.  When
 it does, and its producer is done, it touches none of its channels any more (ErrorPath.ReturnedIsQuiet): its clean-up
 only gives channels to the pools.  These gifts are the other events of a history, and may come at any time.
 */
module Executions {
  import opened Structs
  import opened RangeProtocol
  import opened RangeInvariant
  import opened RangeResults
  import opened RangeProgress
  import opened SharedPools

  /** The states visited by the actions bs, one after the other. */
  ghost predicate Execution(lim: Limits, tr: seq<System>, bs: seq<SysAction>) {
    && |tr| == |bs| + 1
    && (forall i :: 0 <= i < |bs| ==> SysEnabled(lim, tr[i], bs[i]) && tr[i + 1] == SysApply(lim, tr[i], bs[i]))
  }

  ghost predicate Reachable(lim: Limits, s: System) {
    exists tr: seq<System>, bs: seq<SysAction> :: Execution(lim, tr, bs) && SysInit(tr[0]) && tr[|bs|] == s
  }

  lemma {:induction false} ExecutionInv(lim: Limits, tr: seq<System>, bs: seq<SysAction>, i: nat)
    requires ValidLimits(lim) && Execution(lim, tr, bs) && SysInv(tr[0]) && i < |tr|
    ensures SysInv(tr[i])
  {
    hide SysInv, SysEnabled, SysApply;
    if i > 0 {
      ExecutionInv(lim, tr, bs, i - 1);
      StepRefines(lim, tr[i - 1], bs[i - 1]);
    }
  }

  lemma ReachableInv(lim: Limits, s: System)
    requires ValidLimits(lim) && Reachable(lim, s)
    ensures SysInv(s)
  {
    var tr: seq<System>, bs: seq<SysAction> :| Execution(lim, tr, bs) && SysInit(tr[0]) && tr[|bs|] == s;
    assert SysInv(tr[0]);
    ExecutionInv(lim, tr, bs, |bs|);
  }

  // ---------- histories: executions in which failed requests return ----------

  /** What the clean-up of a failed request does to the pools: it gives back a drained response channel, the nil channel
      of the Last marker, or the ordering channel.  A channel that is given back is open and empty and nobody uses it
      any more, so a new one stands for it.  A full pool would close the channel, which concerns nobody, or panic on
      nil. */
  datatype Event = Step(b: SysAction) | GiveBack(c: ChanId) | GiveNil(c: ChanId) | GiveQueue(c: ChanId)

  ghost predicate CanGive<T>(p: Pool<T>, poolCap: nat, c: ChanId) { c !in p.heap && |p.stor| < poolCap }

  ghost function Give<T>(p: Pool<T>, c: ChanId, chan: Chan<T>): Pool<T> { Pool(p.stor + [c], p.heap[c := chan]) }

  ghost predicate CanHappen(lim: Limits, s: System, e: Event) {
    match e
    case Step(b) => SysEnabled(lim, s, b)
    case GiveBack(c) => CanGive(s.resp, lim.poolCap, c)
    case GiveNil(c) => CanGive(s.resp, lim.poolCap, c)
    case GiveQueue(c) => CanGive(s.items, lim.poolCap, c)
  }

  ghost function After(lim: Limits, s: System, e: Event): System
    requires CanHappen(lim, s, e)
  {
    match e
    case Step(b) => SysApply(lim, s, b)
    case GiveBack(c) => s.(resp := Give(s.resp, c, Chan([], lim.respCap, false)))
    case GiveNil(c) => s.(resp := Give(s.resp, c, NIL))
    case GiveQueue(c) => s.(items := Give(s.items, c, Chan([], lim.itemCap, false)))
  }

  /** The states visited by the events es, one after the other. */
  ghost predicate History(lim: Limits, tr: seq<System>, es: seq<Event>) {
    && |tr| == |es| + 1
    && (forall i :: 0 <= i < |es| ==> CanHappen(lim, tr[i], es[i]) && tr[i + 1] == After(lim, tr[i], es[i]))
  }

  /** A state that can be reached if failed requests return, as long as their producers are done by then. */
  ghost predicate Occurs(lim: Limits, s: System) {
    exists tr: seq<System>, es: seq<Event> :: History(lim, tr, es) && SysInit(tr[0]) && tr[|es|] == s
  }

  lemma GivePool<T>(p: Pool<T>, c: ChanId, chan: Chan<T>)
    requires PoolOk(p) && c !in p.heap && chan.buf == [] && !chan.closed
    ensures PoolOk(Give(p, c, chan)) && Elsewhere(p, Give(p, c, chan), {c})
    ensures Roomy(p) && 1 <= chan.cap ==> Roomy(Give(p, c, chan))
  {
  }

  /** A gift disturbs no request. */
  lemma GiftKeeps(lim: Limits, s: System, e: Event)
    requires ValidLimits(lim) && SysInv(s) && CanHappen(lim, s, e) && !e.Step?
    ensures SysInv(After(lim, s, e)) && NobodyMoved(s, After(lim, s, e)) && |After(lim, s, e).runs| == |s.runs|
  {
    hide Inv, PoolOk, Elsewhere, Roomy, Separate;
    var s' := After(lim, s, e);
    var resps, items: set<ChanId> := {}, {};
    if e.GiveQueue? {
      GivePool(s.items, e.c, Chan([], lim.itemCap, false));
      items := {e.c};
    } else {
      GivePool(s.resp, e.c, if e.GiveNil? then NIL else Chan([], lim.respCap, false));
      resps := {e.c};
    }
    Untouched(s.resp);
    Untouched(s.items);
    forall r | 0 <= r < |s.runs|
      ensures RunOk(s', s.runs[r]) && PrivateView(s', s.runs[r]) == PrivateView(s, s.runs[r])
    {
      assert RunOk(s, s.runs[r]);
      RunOwns(s, s.runs[r]);
      OtherRun(s, s', s.runs[r], resps, items);
    }
  }

  lemma Untouched<T>(p: Pool<T>)
    ensures Elsewhere(p, p, {})
  {
  }

  lemma {:induction false} HistoryInv(lim: Limits, tr: seq<System>, es: seq<Event>, i: nat)
    requires ValidLimits(lim) && History(lim, tr, es) && SysInv(tr[0]) && i < |tr|
    ensures SysInv(tr[i])
  {
    hide SysInv, SysEnabled, SysApply, CanGive, Give;
    if i > 0 {
      HistoryInv(lim, tr, es, i - 1);
      if es[i - 1].Step? { StepRefines(lim, tr[i - 1], es[i - 1].b); } else { GiftKeeps(lim, tr[i - 1], es[i - 1]); }
    }
  }

  /** Every state that occurs meets the invariant. */
  lemma OccursInv(lim: Limits, s: System)
    requires ValidLimits(lim) && Occurs(lim, s)
    ensures SysInv(s)
  {
    var tr: seq<System>, es: seq<Event> :| History(lim, tr, es) && SysInit(tr[0]) && tr[|es|] == s;
    assert SysInv(tr[0]);
    HistoryInv(lim, tr, es, |es|);
  }

  /** An execution is a history without gifts. */
  lemma ReachableOccurs(lim: Limits, s: System)
    requires Reachable(lim, s)
    ensures Occurs(lim, s)
  {
    hide SysEnabled, SysApply, SysInit;
    var tr: seq<System>, bs: seq<SysAction> :| Execution(lim, tr, bs) && SysInit(tr[0]) && tr[|bs|] == s;
    var es := seq(|bs|, i requires 0 <= i < |bs| => Step(bs[i]));
    assert History(lim, tr, es) && tr[|es|] == s;
  }

  /** Safety.  Whatever fails, is cancelled or returns, in every state that occurs every request has written a prefix of
      its sequential listing, its Send calls are that listing numbered from 0, with END (if sent) numbered by their
      count, and no goroutine has sent on or closed a closed channel. */
  lemma EveryRequestIsSequential(lim: Limits, s: System, r: nat)
    requires ValidLimits(lim) && Occurs(lim, s) && r < |s.runs|
    ensures var run := s.runs[r];
            var listing := Listing(run.cfg, run.cfg.start);
            var n := SentCount(run.l);
            && run.l.written <= listing && OutputShape(listing)
            && 0 <= n <= |listing|
            && run.l.calls == Numbered(listing[..n]) + (if run.l.sender.Ended? then [End(n % TWO_64)] else [])
            && (run.l.consumer.Done? && !run.l.cancelled ==> n == |listing| && run.l.sender.Ended?)
            && (PastLast(run.l.consumer) || run.l.consumer.Failing? ==> run.l.written == listing)
            && !run.l.fault
  {
    OccursInv(lim, s);
    var run := s.runs[r];
    assert RunOk(s, run);
    var v := PrivateView(s, run);
    WrittenIsPrefix(run.cfg, v);
    ListingShape(run.cfg, run.cfg.start);
    CallsAreNumberedPrefix(run.cfg, v);
    if PastLast(run.l.consumer) { SuccessIsComplete(run.cfg, v); }
    if run.l.consumer.Failing? { FailureIsFirst(run.cfg, v); }
    if run.l.consumer.Done? && !run.l.cancelled { FinishedRequest(run.cfg, v); }
  }

  /** Height h of request r holds response channel c. */
  ghost predicate HeldBy(s: System, r: nat, h: nat, c: ChanId) {
    r < |s.runs| && h in s.runs[r].l.owned && s.runs[r].l.owned[h] == c
  }

  /** Worker w of request r is fetching height h, or writing it, into response channel c. */
  ghost predicate WritesTo(s: System, r: nat, w: nat, h: nat, c: ChanId) {
    r < |s.runs| && w < |s.runs[r].l.workers| && Holds(s.runs[r].l.workers[w], h) && s.runs[r].l.workers[w].ch == c
  }

  /** A response channel is pooled (and then open, empty, pooled once and with nobody about to write to it) or belongs
      to one height of one request (and is then open), never both. */
  lemma OneHolderPerChannel(lim: Limits, s: System, c: ChanId)
    requires ValidLimits(lim) && Occurs(lim, s)
    ensures forall r, r', h, h' :: HeldBy(s, r, h, c) && HeldBy(s, r', h', c) ==> r == r' && h == h'
    ensures forall r, h :: HeldBy(s, r, h, c) ==> c in s.resp.heap && !s.resp.heap[c].closed && c !in s.resp.stor
    ensures forall i, j :: 0 <= i < j < |s.resp.stor| ==> s.resp.stor[i] != s.resp.stor[j]
    ensures c in s.resp.stor ==> c in s.resp.heap && !s.resp.heap[c].closed && s.resp.heap[c].buf == []
    ensures forall r, w, h :: WritesTo(s, r, w, h, c) ==> HeldBy(s, r, h, c)
  {
    OccursInv(lim, s);
    forall r: nat, w: nat, h: nat | WritesTo(s, r, w, h, c) ensures HeldBy(s, r, h, c) { WriterHolds(s, r, w, h, c); }
    forall r: nat, h: nat | HeldBy(s, r, h, c)
      ensures c in s.resp.heap && !s.resp.heap[c].closed && c !in s.resp.stor
    {
      HolderOwns(s, r, h, c);
    }
    forall r: nat, r': nat, h: nat, h': nat | HeldBy(s, r, h, c) && HeldBy(s, r', h', c) ensures r == r' && h == h' {
      HolderOwns(s, r, h, c);
      HolderOwns(s, r', h', c);
    }
  }

  lemma WriterHolds(s: System, r: nat, w: nat, h: nat, c: ChanId)
    requires SysInv(s) && WritesTo(s, r, w, h, c)
    ensures HeldBy(s, r, h, c)
  {
    assert RunOk(s, s.runs[r]);
    assert WorkerRef(s.runs[r].l.owned, s.runs[r].l.workers[w]);
  }

  /** Request r uses c as its work channel, or as its ordering channel until it gives that back. */
  ghost predicate UsedBy(s: System, r: nat, c: ChanId) { r < |s.runs| && c in ItemChannels(s.runs[r]) }

  /** An ordering or work channel is pooled (and then open, empty and pooled once) or used by one request. */
  lemma OneRequestPerQueue(lim: Limits, s: System, c: ChanId)
    requires ValidLimits(lim) && Occurs(lim, s)
    ensures forall r, r' :: UsedBy(s, r, c) && UsedBy(s, r', c) ==> r == r'
    ensures forall r :: UsedBy(s, r, c) ==> c in s.items.heap && c !in s.items.stor
    ensures forall r :: 0 <= r < |s.runs| && !Released(s.runs[r].l) ==> s.runs[r].chIn != s.runs[r].chOut
    ensures forall i, j :: 0 <= i < j < |s.items.stor| ==> s.items.stor[i] != s.items.stor[j]
    ensures c in s.items.stor ==> c in s.items.heap && !s.items.heap[c].closed && s.items.heap[c].buf == []
  {
    OccursInv(lim, s);
    hide Inv;
    forall r: nat | UsedBy(s, r, c) ensures c in s.items.heap && c !in s.items.stor { RunOwns(s, s.runs[r]); }
    assert forall r :: 0 <= r < |s.runs| ==> RunOk(s, s.runs[r]);
  }

  lemma HolderOwns(s: System, r: nat, h: nat, c: ChanId)
    requires SysInv(s) && HeldBy(s, r, h, c)
    ensures c in RespChannels(s.runs[r]) && OwnChannels(s, s.runs[r])
  {
    assert s.runs[r].l.owned[h] in s.runs[r].l.owned.Values;
    RunOwns(s, s.runs[r]);
  }

  // ---------- progress of each request ----------

  /** The same action, except perhaps for the channel that Get hands out. */
  ghost predicate Like(a: Action, a': Action) { a == a' || (a.PGet? && a'.PGet?) }

  /** An action a run could take on private channels is one it can take here. */
  lemma SharedAction(lim: Limits, s: System, r: nat, a: Action) returns (b: SysAction)
    requires SysInv(s) && r < |s.runs| && HasChannels(s, s.runs[r]) && !a.Cancel?
    requires Enabled(s.runs[r].cfg, PrivateView(s, s.runs[r]), a)
    ensures SysEnabled(lim, s, b) && Ordinary(b) && b.r == r && Like(AsPrivate(lim, s, b), a)
  {
    var run := s.runs[r];
    if a.PGet? {
      var c := Unused(s.resp.heap.Keys);
      b := Acquire(r, c);
    } else if a.CPut? {
      assert RunOk(s, run);
      PuttingIsReady(s, run);
      b := Recycle(r);
    } else if a.CRelease? {
      b := Release(r);
    } else {
      SharedEnabled(s, run, a);
      b := Act(r, a);
    }
  }

  /** Request run waits for a nil channel. */
  ghost predicate StarvedIn(s: System, run: Run) { HasChannels(s, run) && Starved(PrivateView(s, run)) }

  /** No request is blocked by the others: while it is unfinished, uncancelled and has not forwarded an Error, one of
      its own goroutines can move, unless it waits for a nil channel that a failed request has left in the pool. */
  lemma EveryRequestCanMove(lim: Limits, s: System, r: nat) returns (b: SysAction)
    requires ValidLimits(lim) && SysInv(s) && r < |s.runs|
    requires !s.runs[r].l.cancelled && !s.runs[r].l.consumer.Failing? && !Finished(s.runs[r].l)
    requires !StarvedIn(s, s.runs[r])
    ensures SysEnabled(lim, s, b) && Ordinary(b) && b.r == r && Regular(AsPrivate(lim, s, b))
  {
    var run := s.runs[r];
    assert RunOk(s, run);
    var a := NextAction(run.cfg, PrivateView(s, run));
    b := SharedAction(lim, s, r, a);
  }

  lemma SharedEnabled(s: System, run: Run, a: Action)
    requires HasChannels(s, run) && !OnPool(a) && Enabled(run.cfg, PrivateView(s, run), a)
    ensures Enabled(run.cfg, SharedView(s, run), a)
  {
  }

  // ---------- channels keep their capacity ----------

  ghost predicate SameCaps(v: View, v': View) {
    && v'.ord.cap == v.ord.cap && v'.work.cap == v.work.cap && v'.resp.Keys == v.resp.Keys
    && (forall c :: c in v.resp ==> v'.resp[c].cap == v.resp[c].cap)
  }

  lemma ConsumerKeepsCaps(cfg: Config, v: View, a: Action)
    requires IsConsumer(a) && ConsumerEnabled(cfg, v, a) && !OnPool(a)
    ensures SameCaps(v, ConsumerApply(cfg, v, a))
  {
  }

  lemma ActionKeepsCaps(cfg: Config, v: View, a: Action)
    requires Enabled(cfg, v, a) && !OnPool(a)
    ensures SameCaps(v, Apply(cfg, v, a))
  {
    if IsConsumer(a) { ConsumerKeepsCaps(cfg, v, a); }
  }

  /** No response channel is nil. */
  ghost predicate NoNil(s: System) { forall c :: c in s.resp.heap ==> 1 <= s.resp.heap[c].cap }

  lemma StepKeepsNoNil(lim: Limits, s: System, b: SysAction)
    requires ValidLimits(lim) && NoNil(s) && SysEnabled(lim, s, b)
    ensures NoNil(SysApply(lim, s, b))
  {
    hide Apply, Enabled;
    if b.Act? { ActionKeepsCaps(s.runs[b.r].cfg, SharedView(s, s.runs[b.r]), b.a); }
  }

  lemma {:induction false} ExecutionNoNil(lim: Limits, tr: seq<System>, bs: seq<SysAction>, i: nat)
    requires ValidLimits(lim) && Execution(lim, tr, bs) && NoNil(tr[0]) && i < |tr|
    ensures NoNil(tr[i])
  {
    hide SysEnabled, SysApply, NoNil;
    if i > 0 {
      ExecutionNoNil(lim, tr, bs, i - 1);
      StepKeepsNoNil(lim, tr[i - 1], bs[i - 1]);
    }
  }

  // ---------- how long an execution takes ----------

  ghost function TotalLeft(runs: seq<Run>): int {
    if runs == [] then 0 else StepsLeft(runs[0].cfg, runs[0].l) + TotalLeft(runs[1..])
  }

  lemma {:induction false} TotalLeftUpdate(runs: seq<Run>, r: nat, run: Run)
    requires r < |runs|
    ensures TotalLeft(runs[r := run]) == TotalLeft(runs) - StepsLeft(runs[r].cfg, runs[r].l) + StepsLeft(run.cfg, run.l)
  {
    if r == 0 {
      assert runs[r := run][1..] == runs[1..];
    } else {
      assert runs[r := run][1..] == runs[1..][r - 1 := run];
      TotalLeftUpdate(runs[1..], r - 1, run);
    }
  }

  lemma {:induction false} TotalLeftSign(s: System, runs: seq<Run>)
    requires forall r :: 0 <= r < |runs| ==> RunOk(s, runs[r])
    ensures 0 <= TotalLeft(runs)
    ensures TotalLeft(runs) == 0 <==> forall r :: 0 <= r < |runs| ==> Finished(runs[r].l)
  {
    hide Inv, StepsLeft;
    if runs != [] {
      assert RunOk(s, runs[0]);
      StepsLeftSign(runs[0].cfg, PrivateView(s, runs[0]));
      assert forall r :: 1 <= r < |runs| ==> runs[r] == runs[1..][r - 1];
      TotalLeftSign(s, runs[1..]);
      assert forall r :: 0 <= r < |runs[1..]| ==> runs[1..][r] == runs[r + 1];
    }
  }

  /** Not a new request and not a cancellation. */
  ghost predicate Ordinary(b: SysAction) { !b.Start? && !(b.Act? && b.a.Cancel?) }

  /** A request that is not cancelled and none of whose heights fails. */
  ghost predicate ErrorFree(run: Run) {
    !run.l.cancelled && AllFetched(run.cfg, run.cfg.start, LastHeight(run.cfg) + 1)
  }

  ghost predicate AllErrorFree(runs: seq<Run>) {
    forall r :: 0 <= r < |runs| ==> ErrorFree(runs[r])
  }

  ghost predicate AllOrdinary(bs: seq<SysAction>) {
    forall i :: 0 <= i < |bs| ==> Ordinary(bs[i])
  }

  lemma ErrorFreeActive(cfg: Config, v: View)
    requires Inv(cfg, v) && AllFetched(cfg, cfg.start, LastHeight(cfg) + 1)
    ensures Active(v.l.consumer) && !v.l.token
  {
  }

  lemma ErrorFreeStep(cfg: Config, v: View, a: Action)
    requires Enabled(cfg, v, a) && !a.Cancel? && !v.l.cancelled && !v.l.token
    ensures Regular(a) && !Apply(cfg, v, a).l.cancelled
  {
    OnlyCancelCancels(cfg, v, a);
  }

  /** The same requests, of which the same are cancelled. */
  ghost predicate SameRequests(runs: seq<Run>, runs': seq<Run>) {
    && |runs'| == |runs|
    && forall r :: 0 <= r < |runs| ==> runs'[r].cfg == runs[r].cfg && runs'[r].l.cancelled == runs[r].l.cancelled
  }

  /** One step of the system, counted. */
  lemma StepTotal(lim: Limits, s: System, b: SysAction)
    requires ValidLimits(lim) && SysInv(s) && SysEnabled(lim, s, b) && Ordinary(b)
    ensures var s' := SysApply(lim, s, b);
            && SysInv(s') && |s'.runs| == |s.runs| && s'.runs == s.runs[b.r := s'.runs[b.r]]
            && TotalLeft(s'.runs) <= TotalLeft(s.runs) - 1
            && SameRequests(s.runs, s'.runs)
            && (ErrorFree(s.runs[b.r]) ==> TotalLeft(s'.runs) == TotalLeft(s.runs) - 1 && ErrorFree(s'.runs[b.r]))
  {
    hide SysEnabled, SysApply, Inv, Enabled, Apply, StepsLeft, TotalLeft, AllFetched;
    StepRefines(lim, s, b);
    var s' := SysApply(lim, s, b);
    var r := b.r;
    var a := AsPrivate(lim, s, b);
    var run := s.runs[r];
    assert RunOk(s, run);
    var v := PrivateView(s, run);
    StepCounts(run.cfg, v, a);
    assert s'.runs == s.runs[r := s'.runs[r]];
    TotalLeftUpdate(s.runs, r, s'.runs[r]);
    OnlyCancelCancels(run.cfg, v, a);
    if ErrorFree(run) {
      ErrorFreeActive(run.cfg, v);
      ErrorFreeStep(run.cfg, v, a);
    }
  }

  lemma ErrorFreeKept(lim: Limits, s: System, b: SysAction)
    requires ValidLimits(lim) && SysInv(s) && SysEnabled(lim, s, b) && Ordinary(b) && AllErrorFree(s.runs)
    ensures var s' := SysApply(lim, s, b);
            SysInv(s') && |s'.runs| == |s.runs| && AllErrorFree(s'.runs) && TotalLeft(s'.runs) == TotalLeft(s.runs) - 1
  {
    hide SysInv, SysApply, TotalLeft, ErrorFree, SameRequests;
    assert b.r < |s.runs| by { hide AllErrorFree; }
    StepTotal(lim, s, b);
    var s' := SysApply(lim, s, b);
    forall i | 0 <= i < |s'.runs| ensures ErrorFree(s'.runs[i]) { if i != b.r { assert s'.runs[i] == s.runs[i]; } }
  }

  lemma ExecutionPrefix(lim: Limits, tr: seq<System>, bs: seq<SysAction>)
    requires Execution(lim, tr, bs) && bs != []
    ensures Execution(lim, tr[..|bs|], bs[..|bs| - 1])
  {
  }

  /** Every execution is finite: without new requests and cancellations it is no longer than the number
      of steps its requests have left, whatever fails. */
  lemma {:induction false} ExecutionsAreBounded(lim: Limits, tr: seq<System>, bs: seq<SysAction>)
    requires ValidLimits(lim) && Execution(lim, tr, bs) && SysInv(tr[0]) && AllOrdinary(bs)
    ensures SysInv(tr[|bs|]) && |bs| <= TotalLeft(tr[0].runs) - TotalLeft(tr[|bs|].runs) <= TotalLeft(tr[0].runs)
    ensures SameRequests(tr[0].runs, tr[|bs|].runs)
  {
    hide SysEnabled, SysApply, SysInv, TotalLeft;
    var n := |bs|;
    if n > 0 {
      ExecutionPrefix(lim, tr, bs);
      ExecutionsAreBounded(lim, tr[..n], bs[..n - 1]);
      StepTotal(lim, tr[n - 1], bs[n - 1]);
    }
    TotalLeftPositive(tr[n]);
  }

  lemma TotalLeftPositive(s: System)
    requires SysInv(s)
    ensures 0 <= TotalLeft(s.runs)
  {
    TotalLeftSign(s, s.runs);
  }

  lemma {:induction false} ErrorFreeExecution(lim: Limits, tr: seq<System>, bs: seq<SysAction>)
    requires ValidLimits(lim) && Execution(lim, tr, bs) && SysInv(tr[0]) && AllOrdinary(bs) && AllErrorFree(tr[0].runs)
    ensures SysInv(tr[|bs|]) && |bs| == TotalLeft(tr[0].runs) - TotalLeft(tr[|bs|].runs)
    ensures |tr[|bs|].runs| == |tr[0].runs| && AllErrorFree(tr[|bs|].runs)
  {
    hide SysInv, SysEnabled, SysApply, AllErrorFree, TotalLeft;
    var n := |bs|;
    if n > 0 {
      ExecutionPrefix(lim, tr, bs);
      ErrorFreeExecution(lim, tr[..n], bs[..n - 1]);
      ErrorFreeKept(lim, tr[n - 1], bs[n - 1]);
    }
  }

  /** Everything of request r was sent: its listing numbered from 0, then END. */
  ghost predicate SentAll(run: Run) {
    var listing := Listing(run.cfg, run.cfg.start);
    Finished(run.l) && run.l.calls == Numbered(listing) + [End(|listing| % TWO_64)]
  }

  /** How a request that is not cancelled ends: with everything sent, or, if some height cannot be fetched, with the
      Error of the smallest such height after everything below it. */
  ghost predicate Concluded(run: Run) {
    var k, listing := run.l.consumer, Listing(run.cfg, run.cfg.start);
    if AllFetched(run.cfg, run.cfg.start, LastHeight(run.cfg) + 1) then SentAll(run)
    else k.Failing? && FirstFailing(run.cfg, k.h) && run.l.written == listing && run.l.calls == Numbered(listing)
  }

  /** After the Error is forwarded, a sender that cannot move has sent everything. */
  lemma SentOut(cfg: Config, v: View)
    requires Inv(cfg, v) && v.l.consumer.Failing? && !v.l.cancelled
    requires !SenderEnabled(v, SRecv) && !SenderEnabled(v, SSend)
    ensures v.l.calls == Numbered(v.l.written)
  {
    hide Owned, Queues, RoomInv, Reassembly, Delivered;
    assert v.l.written[SentCount(v.l)..] == [];
    assert v.l.written[..SentCount(v.l)] == v.l.written;
  }

  /** When nothing in the system can move, every request that is not cancelled has come to its proper end, or waits for
      a nil channel. */
  lemma StuckIsConcluded(lim: Limits, s: System, r: nat)
    requires ValidLimits(lim) && SysInv(s) && r < |s.runs| && !s.runs[r].l.cancelled
    requires forall b :: Ordinary(b) ==> !SysEnabled(lim, s, b)
    ensures Concluded(s.runs[r]) <==> !StarvedIn(s, s.runs[r])
  {
    hide Inv, SysEnabled;
    var run := s.runs[r];
    assert RunOk(s, run);
    var v := PrivateView(s, run);
    if run.l.consumer.Failing? {
      if Enabled(run.cfg, v, SRecv) { var b := SharedAction(lim, s, r, SRecv); }
      if Enabled(run.cfg, v, SSend) { var b := SharedAction(lim, s, r, SSend); }
      FailureIsFirst(run.cfg, v);
      SentOut(run.cfg, v);
    } else if !StarvedIn(s, run) {
      if !Finished(run.l) { var b := EveryRequestCanMove(lim, s, r); }
      SuccessIsComplete(run.cfg, v);
      FinishedRequest(run.cfg, v);
    }
  }

  /** Termination.  Whatever fails, a schedule without new requests and cancellations that goes on as long as it can
      takes no more steps than its requests had left, and at its end every request that is not cancelled and does not
      wait for a nil channel has sent its complete listing, numbered: followed by END, or ending with the Error of its
      smallest failing height.  If there is no nil channel, that is all of them; if in addition no height fails, all
      such schedules take exactly the same number of steps. */
  lemma MaximalExecutionsFinish(lim: Limits, tr: seq<System>, bs: seq<SysAction>)
    requires ValidLimits(lim) && Execution(lim, tr, bs) && SysInv(tr[0]) && AllOrdinary(bs)
    requires forall b :: Ordinary(b) ==> !SysEnabled(lim, tr[|bs|], b)
    ensures SameRequests(tr[0].runs, tr[|bs|].runs)
    ensures forall r :: 0 <= r < |tr[0].runs| && !tr[0].runs[r].l.cancelled ==>
              (Concluded(tr[|bs|].runs[r]) <==> !StarvedIn(tr[|bs|], tr[|bs|].runs[r]))
    ensures NoNil(tr[0]) ==>
              forall r :: 0 <= r < |tr[0].runs| && !tr[0].runs[r].l.cancelled ==> Concluded(tr[|bs|].runs[r])
    ensures |bs| <= TotalLeft(tr[0].runs)
    ensures NoNil(tr[0]) && AllErrorFree(tr[0].runs) ==> |bs| == TotalLeft(tr[0].runs)
  {
    hide SysEnabled, SysApply, Concluded, StarvedIn, NoNil, Inv;
    ExecutionsAreBounded(lim, tr, bs);
    var s := tr[|bs|];
    forall r | 0 <= r < |s.runs| && !s.runs[r].l.cancelled ensures Concluded(s.runs[r]) <==> !StarvedIn(s, s.runs[r]) {
      StuckIsConcluded(lim, s, r);
    }
    if NoNil(tr[0]) {
      ExecutionNoNil(lim, tr, bs, |bs|);
      NobodyStarves(s);
      if AllErrorFree(tr[0].runs) {
        ErrorFreeExecution(lim, tr, bs);
        AllConcluded(s);
      }
    }
  }

  lemma NobodyStarves(s: System)
    requires NoNil(s)
    ensures forall r :: 0 <= r < |s.runs| ==> !StarvedIn(s, s.runs[r])
  {
  }

  lemma AllConcluded(s: System)
    requires SysInv(s) && AllErrorFree(s.runs) && forall r :: 0 <= r < |s.runs| ==> Concluded(s.runs[r])
    ensures TotalLeft(s.runs) == 0
  {
    hide Inv;
    forall r | 0 <= r < |s.runs| ensures Finished(s.runs[r].l) { assert ErrorFree(s.runs[r]) && Concluded(s.runs[r]); }
    TotalLeftSign(s, s.runs);
  }
}
