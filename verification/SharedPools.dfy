/**
 Any number of concurrent getRange runs over the channel pools of client/pool.go.

 All runs share one heap of response channels and one heap of ordering/work channels, and recycle
 them through two bounded pools.  The main result is that the sharing is invisible: every step of
 the system is one step of one run on its private channels, and leaves the other runs' private
 channels as they were.  So all that holds of a run with channels of its own holds here.
 */
module SharedPools {
  import opened Structs
  import opened RangeProtocol
  import opened RangeInvariant
  import opened RangeResults
  import opened RangeProgress

  datatype Limits = Limits(poolCap: nat, respCap: nat, itemCap: nat)

  /** NewOutRespPool(20), NewHBTxPool(20) and the two make calls of pool.go. */
  const GO_LIMITS := Limits(20, 1000, 10)

  ghost predicate ValidLimits(lim: Limits) { 1 <= lim.respCap && 1 <= lim.itemCap }

  // ---------- Get and Put ----------

  datatype Pool<T> = Pool(stor: seq<ChanId>, heap: map<ChanId, Chan<T>>)

  /** The channel Get returns: the oldest in the pool, or a new one. */
  ghost function GetId<T>(p: Pool<T>, spare: ChanId): ChanId {
    if p.stor != [] then p.stor[0] else spare
  }

  ghost predicate CanGet<T>(p: Pool<T>, spare: ChanId) {
    if p.stor != [] then p.stor[0] in p.heap else spare !in p.heap
  }

  /** Get: a recycled channel is drained, a new one is made with the given capacity. */
  ghost function Get<T>(p: Pool<T>, cap: nat, spare: ChanId): Pool<T>
    requires CanGet(p, spare)
  {
    if p.stor != [] then Pool(p.stor[1..], p.heap[p.stor[0] := p.heap[p.stor[0]].(buf := [])])
    else Pool([], p.heap[spare := Chan([], cap, false)])
  }

  /** Put: keep the channel if there is room in the pool, else close it. */
  ghost function Put<T>(p: Pool<T>, poolCap: nat, c: ChanId): Pool<T>
    requires c in p.heap
  {
    if |p.stor| < poolCap then p.(stor := p.stor + [c]) else p.(heap := p.heap[c := p.heap[c].(closed := true)])
  }

  /** Put panics when it closes a closed channel. */
  ghost predicate PutPanics<T>(p: Pool<T>, poolCap: nat, c: ChanId)
    requires c in p.heap
  {
    |p.stor| >= poolCap && p.heap[c].closed
  }

  // ---------- the system ----------

  datatype Run = Run(cfg: Config, l: Local, chIn: ChanId, chOut: ChanId)

  datatype System = System(runs: seq<Run>, resp: Pool<Resp>, items: Pool<Item>)

  /** The run has given its ordering channel back. */
  ghost predicate Released(l: Local) { l.consumer.Returned? || l.consumer.Awaiting? || l.consumer.Done? }

  ghost predicate HasChannels(s: System, run: Run) {
    run.chIn in s.items.heap && (Released(run.l) || run.chOut in s.items.heap)
  }

  /** A run and the shared channels, as its goroutines see them. */
  ghost function SharedView(s: System, run: Run): View
    requires HasChannels(s, run)
  {
    View(run.l, if Released(run.l) then NO_CHANNEL else s.items.heap[run.chOut], s.items.heap[run.chIn], s.resp.heap)
  }

  ghost function Restrict<T>(m: map<ChanId, T>, cs: set<ChanId>): map<ChanId, T> {
    map c | c in cs && c in m :: m[c]
  }

  /** A run and the channels it owns. */
  ghost function PrivateView(s: System, run: Run): View
    requires HasChannels(s, run)
  {
    var v := SharedView(s, run);
    v.(resp := Restrict(v.resp, run.l.owned.Values))
  }

  /** Actions on the pools are separate: they are where the shared system differs from a private run. */
  ghost predicate OnPool(a: Action) { a.PGet? || a.CPut? || a.CRelease? }

  datatype SysAction =
    | Start(cfg: Config, new1: ChanId, new2: ChanId)   // getRange: two Gets, then the goroutines
    | Act(r: nat, a: Action)                               // any action that does not touch a pool
    | Acquire(r: nat, spare: ChanId)                       // the producer calls oRespPool.Get
    | Recycle(r: nat)                                      // the consumer calls oRespPool.Put
    | Release(r: nat)                                      // getRange calls oHBTxPool.Put and returns

  ghost predicate SysEnabled(lim: Limits, s: System, b: SysAction) {
    match b
    case Start(cfg, f1, f2) =>
      ValidConfig(cfg) && CanGet(s.items, f1) && CanGet(Get(s.items, lim.itemCap, f1), f2)
    case Act(r, a) =>
      r < |s.runs| && HasChannels(s, s.runs[r]) && !OnPool(a) && Enabled(s.runs[r].cfg, SharedView(s, s.runs[r]), a)
    case Acquire(r, spare) =>
      r < |s.runs| && s.runs[r].l.producer.Getting? && CanGet(s.resp, spare)
    case Recycle(r) =>
      r < |s.runs| && s.runs[r].l.consumer.Putting? && s.runs[r].l.consumer.ch in s.resp.heap
    case Release(r) =>
      r < |s.runs| && s.runs[r].l.consumer.Releasing? && s.runs[r].chOut in s.items.heap
  }

  ghost function WithLocal(s: System, r: nat, l: Local): seq<Run>
    requires r < |s.runs|
  {
    s.runs[r := s.runs[r].(l := l)]
  }

  /** Stores what run r did to its local state and to the channels it was working on. */
  ghost function WriteBack(s: System, r: nat, v: View): System
    requires r < |s.runs|
  {
    var run := s.runs[r];
    var h := s.items.heap[run.chIn := v.work];
    System(WithLocal(s, r, v.l), s.resp.(heap := v.resp),
           s.items.(heap := if Released(run.l) then h else h[run.chOut := v.ord]))
  }

  ghost function SysApply(lim: Limits, s: System, b: SysAction): System
    requires SysEnabled(lim, s, b)
  {
    match b
    case Start(cfg, f1, f2) =>
      var p := Get(s.items, lim.itemCap, f1);
      s.(runs := s.runs + [Run(cfg, InitLocal(cfg), GetId(s.items, f1), GetId(p, f2))],
         items := Get(p, lim.itemCap, f2))
    case Act(r, a) =>
      WriteBack(s, r, Apply(s.runs[r].cfg, SharedView(s, s.runs[r]), a))
    case Acquire(r, spare) =>
      var l := s.runs[r].l;
      var c := GetId(s.resp, spare);
      s.(runs := WithLocal(s, r, l.(producer := Ordering(Item(l.producer.h, c)), owned := l.owned[l.producer.h := c])),
         resp := Get(s.resp, lim.respCap, spare))
    case Recycle(r) =>
      var l := s.runs[r].l;
      var Putting(h, c) := l.consumer;
      s.(runs := WithLocal(s, r, l.(consumer := Waiting(h + 1), owned := l.owned - {h},
                                    fault := l.fault || PutPanics(s.resp, lim.poolCap, c))),
         resp := Put(s.resp, lim.poolCap, c))
    case Release(r) =>
      var l := s.runs[r].l;
      var panics := PutPanics(s.items, lim.poolCap, s.runs[r].chOut);
      s.(runs := WithLocal(s, r, l.(consumer := Returned, fault := l.fault || panics)),
         items := Put(s.items, lim.poolCap, s.runs[r].chOut))
  }

  // ---------- ownership ----------

  /** A pooled channel exists, is open and empty, and is in the pool once. */
  ghost predicate PoolOk<T>(p: Pool<T>) {
    && (forall i :: 0 <= i < |p.stor| ==>
          p.stor[i] in p.heap && !p.heap[p.stor[i]].closed && p.heap[p.stor[i]].buf == [])
    && (forall i, j :: 0 <= i < j < |p.stor| ==> p.stor[i] != p.stor[j])
  }

  /** Every pooled channel can hold something. */
  ghost predicate Roomy<T>(p: Pool<T>) { forall c :: c in p.stor && c in p.heap ==> 1 <= p.heap[c].cap }

  /** The ordering and work channels a run owns. */
  ghost function ItemChannels(run: Run): set<ChanId> {
    {run.chIn} + (if Released(run.l) then {} else {run.chOut})
  }

  ghost function RespChannels(run: Run): set<ChanId> { run.l.owned.Values }

  ghost predicate RunOk(s: System, run: Run) {
    && HasChannels(s, run)
    && (Released(run.l) || run.chIn != run.chOut)
    && Inv(run.cfg, PrivateView(s, run))
    && (forall i :: 0 <= i < |s.resp.stor| ==> s.resp.stor[i] !in RespChannels(run))
    && (forall i :: 0 <= i < |s.items.stor| ==> s.items.stor[i] !in ItemChannels(run))
  }

  /** Every channel is pooled or owned by at most one run.  Response channels may be nil (of capacity 0 and never
      closed), ordering and work channels may not. */
  ghost predicate SysInv(s: System) {
    && PoolOk(s.resp) && PoolOk(s.items) && Roomy(s.items)
    && (forall r :: 0 <= r < |s.runs| ==> RunOk(s, s.runs[r]))
    && Separate(s.runs)
  }

  /** No two runs own the same channel. */
  ghost predicate Separate(runs: seq<Run>) {
    && (forall r, r' :: 0 <= r < r' < |runs| ==> RespChannels(runs[r]) !! RespChannels(runs[r']))
    && (forall r, r' :: 0 <= r < r' < |runs| ==> ItemChannels(runs[r]) !! ItemChannels(runs[r']))
  }

  ghost predicate SysInit(s: System) { s == System([], Pool([], map[]), Pool([], map[])) }

  // ---------- an action touches only the channels of its run ----------

  lemma WorkerLocality(cfg: Config, v: View, p: View, a: Action)
    requires p == v.(resp := Restrict(v.resp, v.l.owned.Values)) && Owned(cfg, p)
    requires IsWorker(a) && WorkerEnabled(v, a)
    ensures WorkerEnabled(p, a)
    ensures var v' := WorkerApply(cfg, v, a);
            && WorkerApply(cfg, p, a) == v'.(resp := Restrict(v'.resp, v.l.owned.Values))
            && v'.l.owned == v.l.owned && v'.resp.Keys == v.resp.Keys
            && (forall c :: c in v.resp && c !in v.l.owned.Values ==> v'.resp[c] == v.resp[c])
  {
    hide Ownership, ItemsRef, AfterSend, Msgs;
    if a.WSend? { SendLocality(cfg, v, p, a.w); }
  }

  lemma SendLocality(cfg: Config, v: View, p: View, w: nat)
    requires p == v.(resp := Restrict(v.resp, v.l.owned.Values)) && WorkersRef(v.l.owned, v.l.workers)
    requires WorkerEnabled(v, WSend(w))
    ensures WorkerEnabled(p, WSend(w)) && v.l.workers[w].ch in v.l.owned.Values
    ensures WorkerApply(cfg, p, WSend(w)).resp == Restrict(WorkerApply(cfg, v, WSend(w)).resp, v.l.owned.Values)
  {
    hide AfterSend;
    assert WorkerRef(v.l.owned, v.l.workers[w]);
    assert v.l.owned[v.l.workers[w].h] in v.l.owned.Values;
  }

  lemma ConsumerLocality(cfg: Config, v: View, p: View, a: Action)
    requires p == v.(resp := Restrict(v.resp, v.l.owned.Values)) && Owned(cfg, p)
    requires (a.CTake? || a.CRead? || a.CForward? || a.CSignal? || a.CFail? || a.CClose? || a.CFin?)
    requires ConsumerEnabled(cfg, v, a)
    ensures ConsumerEnabled(cfg, p, a)
    ensures var v' := ConsumerApply(cfg, v, a);
            && ConsumerApply(cfg, p, a) == v'.(resp := Restrict(v'.resp, v.l.owned.Values))
            && v'.l.owned == v.l.owned && v'.resp.Keys == v.resp.Keys
            && (forall c :: c in v.resp && c !in v.l.owned.Values ==> v'.resp[c] == v.resp[c])
  {
    if a.CRead? { assert v.l.owned[v.l.consumer.h] in v.l.owned.Values; }
    assert ConsumerApply(cfg, p, a).resp == Restrict(ConsumerApply(cfg, v, a).resp, v.l.owned.Values);
  }

  lemma ProducerLocality(cfg: Config, v: View, p: View, a: Action)
    requires p == v.(resp := Restrict(v.resp, v.l.owned.Values))
    requires IsProducer(a) && !a.PGet? && ProducerEnabled(v, a)
    ensures ProducerEnabled(p, a)
    ensures var v' := ProducerApply(cfg, v, a);
            && ProducerApply(cfg, p, a) == v'.(resp := Restrict(v'.resp, v.l.owned.Values))
            && v'.l.owned == v.l.owned && v'.resp == v.resp
  {
  }

  /** Acting on the shared channels is acting on one's own. */
  lemma Locality(cfg: Config, v: View, p: View, a: Action)
    requires p == v.(resp := Restrict(v.resp, v.l.owned.Values)) && Owned(cfg, p)
    requires !OnPool(a) && Enabled(cfg, v, a)
    ensures Enabled(cfg, p, a)
    ensures var v' := Apply(cfg, v, a);
            && Apply(cfg, p, a) == v'.(resp := Restrict(v'.resp, v.l.owned.Values))
            && v'.l.owned == v.l.owned && v'.resp.Keys == v.resp.Keys
            && (forall c :: c in v.resp && c !in v.l.owned.Values ==> v'.resp[c] == v.resp[c])
  {
    hide Owned, ProducerEnabled, ProducerApply, WorkerEnabled, WorkerApply, ConsumerEnabled, ConsumerApply;
    if IsWorker(a) { WorkerLocality(cfg, v, p, a); }
    else if IsProducer(a) { ProducerLocality(cfg, v, p, a); }
    else if a.CTake? || a.CRead? || a.CForward? || a.CSignal? || a.CFail? || a.CClose? || a.CFin? {
      ConsumerLocality(cfg, v, p, a);
    }
  }

  /** What a run sees depends only on its own state and on the channels it owns. */
  lemma SameView(s: System, s': System, run: Run)
    requires HasChannels(s, run) && HasChannels(s', run)
    requires forall c :: c in RespChannels(run) ==> (c in s'.resp.heap <==> c in s.resp.heap)
    requires forall c :: c in RespChannels(run) && c in s.resp.heap ==> s'.resp.heap[c] == s.resp.heap[c]
    requires forall c :: c in ItemChannels(run) ==> s'.items.heap[c] == s.items.heap[c]
    ensures PrivateView(s', run) == PrivateView(s, run)
  {
    assert run.chIn in ItemChannels(run);
    assert !Released(run.l) ==> run.chOut in ItemChannels(run);
    assert Restrict(s'.resp.heap, run.l.owned.Values) == Restrict(s.resp.heap, run.l.owned.Values);
  }

  // ---------- every step is a private step of one run ----------

  /** Run r made the private action a; every other run sees what it saw. */
  ghost predicate PrivateStep(s: System, s': System, r: nat, a: Action) {
    && |s'.runs| == |s.runs| && r < |s.runs|
    && (forall i :: 0 <= i < |s.runs| ==> HasChannels(s, s.runs[i]) && HasChannels(s', s'.runs[i]))
    && s'.runs[r].cfg == s.runs[r].cfg
    && Enabled(s.runs[r].cfg, PrivateView(s, s.runs[r]), a)
    && PrivateView(s', s'.runs[r]) == Apply(s.runs[r].cfg, PrivateView(s, s.runs[r]), a)
    && (forall i :: 0 <= i < |s.runs| && i != r ==>
          s'.runs[i] == s.runs[i] && PrivateView(s', s.runs[i]) == PrivateView(s, s.runs[i]))
  }

  /** The runs of s are in s' as they were. */
  ghost predicate NobodyMoved(s: System, s': System) {
    && |s.runs| <= |s'.runs|
    && forall i :: 0 <= i < |s.runs| ==>
         && s'.runs[i] == s.runs[i] && HasChannels(s, s.runs[i]) && HasChannels(s', s.runs[i])
         && PrivateView(s', s.runs[i]) == PrivateView(s, s.runs[i])
  }

  /** The heaps differ at most in channels that run r owns or that are pooled. */
  ghost predicate Elsewhere<T>(p: Pool<T>, p': Pool<T>, mine: set<ChanId>) {
    && (forall c :: c in p.heap ==> c in p'.heap)
    && (forall c :: c in p.heap && c !in mine && c !in p.stor ==> p'.heap[c] == p.heap[c])
    && (forall c :: c in p'.stor ==> c in p.stor || c in mine)
  }

  lemma OtherRun(s: System, s': System, run: Run, resps: set<ChanId>, items: set<ChanId>)
    requires RunOk(s, run) && RespChannels(run) !! resps && ItemChannels(run) !! items
    requires Elsewhere(s.resp, s'.resp, resps) && Elsewhere(s.items, s'.items, items)
    ensures HasChannels(s', run) && RunOk(s', run)
    ensures PrivateView(s', run) == PrivateView(s, run)
  {
    RunOwns(s, run);
    assert run.chIn in ItemChannels(run) && (!Released(run.l) ==> run.chOut in ItemChannels(run));
    SameView(s, s', run);
    forall j | 0 <= j < |s'.resp.stor|
      ensures s'.resp.stor[j] !in RespChannels(run) { assert s'.resp.stor[j] in s'.resp.stor; }
    forall j | 0 <= j < |s'.items.stor|
      ensures s'.items.stor[j] !in ItemChannels(run) { assert s'.items.stor[j] in s'.items.stor; }
  }

  /** What a step of run r may do to the pools and to the channels it owns. */
  ghost predicate WellBehaved(s: System, s': System, r: nat)
    requires r < |s.runs| && |s'.runs| == |s.runs|
  {
    && s'.runs == s.runs[r := s'.runs[r]] && s'.runs[r].cfg == s.runs[r].cfg
    && Elsewhere(s.resp, s'.resp, RespChannels(s.runs[r])) && Elsewhere(s.items, s'.items, ItemChannels(s.runs[r]))
    && PoolOk(s'.resp) && PoolOk(s'.items) && Roomy(s'.items)
    && HasChannels(s', s'.runs[r]) && (Released(s'.runs[r].l) || s'.runs[r].chIn != s'.runs[r].chOut)
    && (forall c :: c in RespChannels(s'.runs[r]) ==>
          c !in s'.resp.stor && (c in RespChannels(s.runs[r]) || c in s.resp.stor || c !in s.resp.heap))
    && (forall c :: c in ItemChannels(s'.runs[r]) ==> c !in s'.items.stor && c in ItemChannels(s.runs[r]))
  }

  lemma OthersKept(s: System, s': System, r: nat)
    requires SysInv(s) && r < |s.runs| && |s'.runs| == |s.runs| && WellBehaved(s, s', r)
    ensures forall i :: 0 <= i < |s.runs| && i != r ==>
              && s'.runs[i] == s.runs[i] && RunOk(s', s'.runs[i])
                  && PrivateView(s', s.runs[i]) == PrivateView(s, s.runs[i])
              && RespChannels(s'.runs[i]) !! RespChannels(s'.runs[r])
                  && ItemChannels(s'.runs[i]) !! ItemChannels(s'.runs[r])
  {
    forall i | 0 <= i < |s.runs| && i != r
      ensures s'.runs[i] == s.runs[i] && RunOk(s', s.runs[i]) && PrivateView(s', s.runs[i]) == PrivateView(s, s.runs[i])
      ensures RespChannels(s.runs[i]) !! RespChannels(s'.runs[r]) && ItemChannels(s.runs[i]) !! ItemChannels(s'.runs[r])
    {
      Disjoint(s, r, i);
      OtherRun(s, s', s.runs[i], RespChannels(s.runs[r]), ItemChannels(s.runs[r]));
    }
  }

  /** Assembles the invariant after a step of run r. */
  lemma AfterStep(s: System, s': System, r: nat, a: Action)
    requires SysInv(s) && r < |s.runs| && |s'.runs| == |s.runs| && WellBehaved(s, s', r)
    requires HasChannels(s, s.runs[r]) && Enabled(s.runs[r].cfg, PrivateView(s, s.runs[r]), a)
    requires PrivateView(s', s'.runs[r]) == Apply(s.runs[r].cfg, PrivateView(s, s.runs[r]), a)
    ensures SysInv(s') && PrivateStep(s, s', r, a)
  {
    hide Inv, Enabled, Apply, Separate, Elsewhere, PoolOk;
    assert RunOk(s, s.runs[r]);
    StepKeeps(s.runs[r].cfg, PrivateView(s, s.runs[r]), a);
    assert RunOk(s', s'.runs[r]);
    OthersKept(s, s', r);
    forall i | 0 <= i < |s.runs| ensures HasChannels(s, s.runs[i]) { assert RunOk(s, s.runs[i]); }
    SeparateUpdate(s.runs, r, s'.runs[r]);
  }

  lemma SeparateUpdate(runs: seq<Run>, r: nat, run: Run)
    requires Separate(runs) && r < |runs|
    requires forall i :: 0 <= i < |runs| && i != r ==>
               RespChannels(runs[i]) !! RespChannels(run) && ItemChannels(runs[i]) !! ItemChannels(run)
    ensures Separate(runs[r := run])
  {
  }

  lemma Disjoint(s: System, r: nat, i: nat)
    requires SysInv(s) && r < |s.runs| && i < |s.runs| && i != r
    ensures RunOk(s, s.runs[i]) && OwnChannels(s, s.runs[i])
    ensures RespChannels(s.runs[i]) !! RespChannels(s.runs[r]) && ItemChannels(s.runs[i]) !! ItemChannels(s.runs[r])
  {
    RunOwns(s, s.runs[i]);
  }

  lemma KeepsReleased(cfg: Config, v: View, a: Action)
    requires Inv(cfg, v) && Enabled(cfg, v, a) && !OnPool(a)
    ensures Released(Apply(cfg, v, a).l) <==> Released(v.l)
    ensures Released(v.l) ==> Apply(cfg, v, a).ord == v.ord
  {
    assert Released(v.l) ==> v.l.producer.Closing? || v.l.producer.Stopped?;
    StaysReleased(cfg, v, a);
  }

  lemma StaysReleased(cfg: Config, v: View, a: Action)
    requires Enabled(cfg, v, a) && !OnPool(a)
    ensures Released(Apply(cfg, v, a).l) <==> Released(v.l)
    ensures Released(v.l) && (v.l.producer.Closing? || v.l.producer.Stopped?) ==> Apply(cfg, v, a).ord == v.ord
  {
    if IsConsumer(a) { ConsumerStaysReleased(cfg, v, a); } else { OthersKeepConsumer(cfg, v, a); }
  }

  lemma ConsumerStaysReleased(cfg: Config, v: View, a: Action)
    requires IsConsumer(a) && ConsumerEnabled(cfg, v, a) && !OnPool(a)
    ensures Released(ConsumerApply(cfg, v, a).l) <==> Released(v.l)
    ensures Released(v.l) ==> ConsumerApply(cfg, v, a).ord == v.ord
  {
  }

  lemma WriteBackView(s: System, r: nat, v': View)
    requires r < |s.runs| && HasChannels(s, s.runs[r])
    requires Released(s.runs[r].l) || s.runs[r].chIn != s.runs[r].chOut
    requires Released(v'.l) <==> Released(s.runs[r].l)
    requires Released(v'.l) ==> v'.ord == NO_CHANNEL
    ensures var s' := WriteBack(s, r, v');
            HasChannels(s', s'.runs[r])
                && PrivateView(s', s'.runs[r]) == v'.(resp := Restrict(v'.resp, v'.l.owned.Values))
  {
  }

  lemma WriteBackBehaves(s: System, r: nat, v': View)
    requires PoolOk(s.resp) && PoolOk(s.items) && Roomy(s.items) && r < |s.runs| && OwnChannels(s, s.runs[r])
    requires Released(v'.l) <==> Released(s.runs[r].l)
    requires v'.l.owned == s.runs[r].l.owned && v'.resp.Keys == s.resp.heap.Keys
    requires forall c :: c in s.resp.heap && c !in v'.l.owned.Values ==> v'.resp[c] == s.resp.heap[c]
    ensures WellBehaved(s, WriteBack(s, r, v'), r)
  {
    var run := s.runs[r];
    var s' := WriteBack(s, r, v');
    assert run.chIn in ItemChannels(run);
    forall c | c in s.resp.stor ensures c !in RespChannels(run) && s'.resp.heap[c] == s.resp.heap[c] { }
    forall c | c in s.items.stor ensures c !in ItemChannels(run) && s'.items.heap[c] == s.items.heap[c] { }
  }

  lemma ActRefines(lim: Limits, s: System, r: nat, a: Action)
    requires SysInv(s) && SysEnabled(lim, s, Act(r, a))
    ensures SysInv(SysApply(lim, s, Act(r, a))) && PrivateStep(s, SysApply(lim, s, Act(r, a)), r, a)
  {
    var run := s.runs[r];
    RunOwns(s, run);
    var v, p := SharedView(s, run), PrivateView(s, run);
    Locality(run.cfg, v, p, a);
    KeepsReleased(run.cfg, p, a);
    var v' := Apply(run.cfg, v, a);
    WriteBackView(s, r, v');
    WriteBackBehaves(s, r, v');
    AfterStep(s, WriteBack(s, r, v'), r, a);
  }

  lemma ValuesAdd(m: map<nat, ChanId>, h: nat, c: ChanId)
    requires h !in m
    ensures m[h := c].Values == m.Values + {c}
  {
    var m' := m[h := c];
    assert m'[h] == c;
    forall x | x in m.Values ensures x in m'.Values { var k :| k in m && m[k] == x; assert m'[k] == x; }
  }

  lemma ValuesRemove(m: map<nat, ChanId>, h: nat)
    requires h in m && forall k, k' :: k in m && k' in m && k != k' ==> m[k] != m[k']
    ensures (m - {h}).Values == m.Values - {m[h]}
  {
    var m' := m - {h};
    forall x | x in m.Values && x != m[h] ensures x in m'.Values { var k :| k in m && m[k] == x; assert m'[k] == x; }
  }

  /** The channels of a run are open, in the heap and not in a pool. */
  ghost predicate OwnChannels(s: System, run: Run) {
    && HasChannels(s, run) && (Released(run.l) || run.chIn != run.chOut)
    && (forall k, k' :: k in run.l.owned && k' in run.l.owned && k != k' ==> run.l.owned[k] != run.l.owned[k'])
    && (forall c :: c in RespChannels(run) ==> c in s.resp.heap && c !in s.resp.stor && !s.resp.heap[c].closed)
    && (forall c :: c in ItemChannels(run) ==> c in s.items.heap && c !in s.items.stor)
  }

  lemma RunOwns(s: System, run: Run)
    requires RunOk(s, run)
    ensures OwnChannels(s, run)
    ensures run.l.producer.Getting? ==> run.l.producer.h !in run.l.owned
  {
    hide Queues, Output, RoomInv, Reassembly, ItemsRef, WorkersRef;
    forall c | c in RespChannels(run) ensures c in s.resp.heap && !s.resp.heap[c].closed {
      var h :| h in run.l.owned && run.l.owned[h] == c;
      assert OpenChannel(PrivateView(s, run).resp, c);
    }
  }

  /** Get hands out a channel that is in the heap, open, empty and no longer in the pool; draining it
      discards nothing. */
  lemma GetOk<T>(p: Pool<T>, cap: nat, spare: ChanId)
    requires PoolOk(p) && CanGet(p, spare)
    ensures var p', c := Get(p, cap, spare), GetId(p, spare);
            && PoolOk(p') && c in p'.heap && c !in p'.stor
            && p'.heap[c].buf == [] && !p'.heap[c].closed
            && (Roomy(p) && 1 <= cap ==> Roomy(p') && 1 <= p'.heap[c].cap)
            && (c in p.heap ==> c in p.stor && p'.heap[c] == p.heap[c])
            && Elsewhere(p, p', {}) && p'.heap.Keys == p.heap.Keys + {c}
            && (forall x :: x in p'.stor ==> x in p.stor)
  {
  }

  lemma AcquireBehaves(lim: Limits, s: System, r: nat, spare: ChanId)
    requires ValidLimits(lim) && PoolOk(s.resp) && PoolOk(s.items) && Roomy(s.items)
    requires SysEnabled(lim, s, Acquire(r, spare))
    requires OwnChannels(s, s.runs[r]) && s.runs[r].l.producer.h !in s.runs[r].l.owned
    ensures |SysApply(lim, s, Acquire(r, spare)).runs| == |s.runs|
    ensures WellBehaved(s, SysApply(lim, s, Acquire(r, spare)), r)
  {
    var run := s.runs[r];
    var c := GetId(s.resp, spare);
    var s' := SysApply(lim, s, Acquire(r, spare));
    GetOk(s.resp, lim.respCap, spare);
    ValuesAdd(run.l.owned, run.l.producer.h, c);
    AcquireRun(run, run.l.producer.h, c);
    assert s'.runs[r] == AcquiredRun(run, run.l.producer.h, c);
    assert s'.items == s.items && s'.runs[r].chIn == run.chIn && s'.runs[r].chOut == run.chOut;
  }

  ghost function AcquiredRun(run: Run, h: nat, c: ChanId): Run {
    run.(l := run.l.(producer := Ordering(Item(h, c)), owned := run.l.owned[h := c]))
  }

  lemma AcquireRun(run: Run, h: nat, c: ChanId)
    requires h !in run.l.owned
    ensures var run' := AcquiredRun(run, h, c);
            && RespChannels(run') == RespChannels(run) + {c} && ItemChannels(run') == ItemChannels(run)
            && (Released(run'.l) <==> Released(run.l))
  {
    ValuesAdd(run.l.owned, h, c);
  }

  lemma AcquireView(lim: Limits, s: System, r: nat, spare: ChanId)
    requires ValidLimits(lim) && PoolOk(s.resp) && SysEnabled(lim, s, Acquire(r, spare))
    requires OwnChannels(s, s.runs[r]) && s.runs[r].l.producer.h !in s.runs[r].l.owned
    ensures var s' := SysApply(lim, s, Acquire(r, spare));
            var a := PGet(GetId(s.resp, spare), s'.resp.heap[GetId(s.resp, spare)]);
            && HasChannels(s', s'.runs[r])
            && Enabled(s.runs[r].cfg, PrivateView(s, s.runs[r]), a)
            && PrivateView(s', s'.runs[r]) == Apply(s.runs[r].cfg, PrivateView(s, s.runs[r]), a)
  {
    var run := s.runs[r];
    var s' := SysApply(lim, s, Acquire(r, spare));
    var c := GetId(s.resp, spare);
    ValuesAdd(run.l.owned, run.l.producer.h, c);
    assert c !in RespChannels(run);
    assert Restrict(s'.resp.heap, run.l.owned.Values + {c})
        == Restrict(s.resp.heap, run.l.owned.Values)[c := s'.resp.heap[c]];
  }

  lemma AcquireRefines(lim: Limits, s: System, r: nat, spare: ChanId)
    requires ValidLimits(lim) && SysInv(s) && SysEnabled(lim, s, Acquire(r, spare))
    ensures var s' := SysApply(lim, s, Acquire(r, spare));
            var c := GetId(s.resp, spare);
            SysInv(s') && PrivateStep(s, s', r, PGet(c, s'.resp.heap[c]))
  {
    var s' := SysApply(lim, s, Acquire(r, spare));
    var c := GetId(s.resp, spare);
    RunOwns(s, s.runs[r]);
    AcquireBehaves(lim, s, r, spare);
    AcquireView(lim, s, r, spare);
    AfterStep(s, s', r, PGet(c, s'.resp.heap[c]));
  }

  lemma PutOk<T>(p: Pool<T>, poolCap: nat, c: ChanId)
    requires PoolOk(p) && c in p.heap && c !in p.stor && p.heap[c].buf == [] && !p.heap[c].closed
    ensures PoolOk(Put(p, poolCap, c)) && (Roomy(p) && 1 <= p.heap[c].cap ==> Roomy(Put(p, poolCap, c)))
  {
    forall i | 0 <= i < |p.stor| ensures p.stor[i] != c { assert p.stor[i] in p.stor; }
  }

  /** A height being given back holds its own channel, and that channel is empty. */
  ghost predicate ReadyToRecycle(s: System, run: Run) {
    run.l.consumer.Putting? && Ref(run.l.owned, run.l.consumer.h, run.l.consumer.ch)
    && run.l.consumer.ch in s.resp.heap && s.resp.heap[run.l.consumer.ch].buf == []
  }

  lemma PuttingIsReady(s: System, run: Run)
    requires RunOk(s, run) && run.l.consumer.Putting?
    ensures ReadyToRecycle(s, run)
  {
    DoneWithHeight(run.cfg, PrivateView(s, run));
    assert OpenChannel(PrivateView(s, run).resp, run.l.owned[run.l.consumer.h]);
  }

  lemma RecycleBehaves(lim: Limits, s: System, r: nat)
    requires PoolOk(s.resp) && PoolOk(s.items) && Roomy(s.items) && SysEnabled(lim, s, Recycle(r))
    requires OwnChannels(s, s.runs[r]) && ReadyToRecycle(s, s.runs[r])
    ensures |SysApply(lim, s, Recycle(r)).runs| == |s.runs| && WellBehaved(s, SysApply(lim, s, Recycle(r)), r)
  {
    var run := s.runs[r];
    var Putting(h, c) := run.l.consumer;
    assert c in RespChannels(run);
    ValuesRemove(run.l.owned, h);
    PutOk(s.resp, lim.poolCap, c);
  }

  lemma RecycleView(lim: Limits, s: System, r: nat)
    requires SysEnabled(lim, s, Recycle(r)) && OwnChannels(s, s.runs[r]) && ReadyToRecycle(s, s.runs[r])
    ensures var s' := SysApply(lim, s, Recycle(r));
            && HasChannels(s', s'.runs[r])
            && Enabled(s.runs[r].cfg, PrivateView(s, s.runs[r]), CPut)
            && PrivateView(s', s'.runs[r]) == Apply(s.runs[r].cfg, PrivateView(s, s.runs[r]), CPut)
  {
    hide Inv;
    var run := s.runs[r];
    var s' := SysApply(lim, s, Recycle(r));
    var Putting(h, c) := run.l.consumer;
    assert c in RespChannels(run);
    ValuesRemove(run.l.owned, h);
    assert !PutPanics(s.resp, lim.poolCap, c);
    assert Released(s'.runs[r].l) <==> Released(run.l);
    assert Restrict(s'.resp.heap, run.l.owned.Values - {c}) == Restrict(s.resp.heap, run.l.owned.Values) - {c};
  }

  lemma RecycleRefines(lim: Limits, s: System, r: nat)
    requires SysInv(s) && SysEnabled(lim, s, Recycle(r))
    ensures SysInv(SysApply(lim, s, Recycle(r))) && PrivateStep(s, SysApply(lim, s, Recycle(r)), r, CPut)
  {
    RunOwns(s, s.runs[r]);
    PuttingIsReady(s, s.runs[r]);
    RecycleBehaves(lim, s, r);
    RecycleView(lim, s, r);
    AfterStep(s, SysApply(lim, s, Recycle(r)), r, CPut);
  }

  /** An ordering channel being given back is open and empty. */
  lemma ReleasingIsReady(s: System, run: Run)
    requires RunOk(s, run) && run.l.consumer.Releasing?
    ensures var ch := s.items.heap[run.chOut]; ch.buf == [] && !ch.closed && 1 <= ch.cap
  {
  }

  lemma ReleaseBehaves(lim: Limits, s: System, r: nat)
    requires PoolOk(s.resp) && PoolOk(s.items) && Roomy(s.items) && SysEnabled(lim, s, Release(r))
    requires OwnChannels(s, s.runs[r])
    requires var ch := s.items.heap[s.runs[r].chOut]; ch.buf == [] && !ch.closed && 1 <= ch.cap
    ensures |SysApply(lim, s, Release(r)).runs| == |s.runs| && WellBehaved(s, SysApply(lim, s, Release(r)), r)
  {
    var run := s.runs[r];
    assert run.chOut in ItemChannels(run);
    PutOk(s.items, lim.poolCap, run.chOut);
  }

  lemma ReleaseView(lim: Limits, s: System, r: nat)
    requires SysEnabled(lim, s, Release(r)) && OwnChannels(s, s.runs[r]) && !s.items.heap[s.runs[r].chOut].closed
    ensures var s' := SysApply(lim, s, Release(r));
            && HasChannels(s', s'.runs[r])
            && Enabled(s.runs[r].cfg, PrivateView(s, s.runs[r]), CRelease)
            && PrivateView(s', s'.runs[r]) == Apply(s.runs[r].cfg, PrivateView(s, s.runs[r]), CRelease)
  {
    assert !PutPanics(s.items, lim.poolCap, s.runs[r].chOut);
  }

  lemma ReleaseRefines(lim: Limits, s: System, r: nat)
    requires SysInv(s) && SysEnabled(lim, s, Release(r))
    ensures SysInv(SysApply(lim, s, Release(r))) && PrivateStep(s, SysApply(lim, s, Release(r)), r, CRelease)
  {
    hide Inv, Apply, Enabled;
    RunOwns(s, s.runs[r]);
    ReleasingIsReady(s, s.runs[r]);
    ReleaseBehaves(lim, s, r);
    ReleaseView(lim, s, r);
    AfterStep(s, SysApply(lim, s, Release(r)), r, CRelease);
  }

  // ---------- a new request ----------

  lemma StartItems(lim: Limits, s: System, cfg: Config, f1: ChanId, f2: ChanId)
    requires ValidLimits(lim) && PoolOk(s.items) && Roomy(s.items) && SysEnabled(lim, s, Start(cfg, f1, f2))
    ensures var s' := SysApply(lim, s, Start(cfg, f1, f2));
            var run := s'.runs[|s.runs|];
            && PoolOk(s'.items) && Roomy(s'.items) && Elsewhere(s.items, s'.items, {})
            && run.chIn != run.chOut && HasChannels(s', run) && run.chIn !in s'.items.stor
                && run.chOut !in s'.items.stor
            && (run.chIn in s.items.stor || run.chIn !in s.items.heap)
                && (run.chOut in s.items.stor || run.chOut !in s.items.heap)
            && InitView(cfg, PrivateView(s', run))
  {
    var p := Get(s.items, lim.itemCap, f1);
    GetOk(s.items, lim.itemCap, f1);
    GetOk(p, lim.itemCap, f2);
    var s' := SysApply(lim, s, Start(cfg, f1, f2));
    assert PrivateView(s', s'.runs[|s.runs|]).resp == map[];
  }

  lemma StartOther(lim: Limits, s: System, cfg: Config, f1: ChanId, f2: ChanId, i: nat)
    requires ValidLimits(lim) && PoolOk(s.items) && Roomy(s.items) && SysEnabled(lim, s, Start(cfg, f1, f2))
    requires i < |s.runs| && RunOk(s, s.runs[i])
    ensures var s' := SysApply(lim, s, Start(cfg, f1, f2));
            && s'.runs[i] == s.runs[i] && RunOk(s', s'.runs[i])
                && PrivateView(s', s.runs[i]) == PrivateView(s, s.runs[i])
            && ItemChannels(s'.runs[i]) !! ItemChannels(s'.runs[|s.runs|])
  {
    StartItems(lim, s, cfg, f1, f2);
    RunOwns(s, s.runs[i]);
    OtherRun(s, SysApply(lim, s, Start(cfg, f1, f2)), s.runs[i], {}, {});
  }

  lemma StartNew(lim: Limits, s: System, cfg: Config, f1: ChanId, f2: ChanId)
    requires ValidLimits(lim) && PoolOk(s.items) && Roomy(s.items) && SysEnabled(lim, s, Start(cfg, f1, f2))
    ensures var s' := SysApply(lim, s, Start(cfg, f1, f2));
            PoolOk(s'.items) && Roomy(s'.items) && RunOk(s', s'.runs[|s.runs|]) && RespChannels(s'.runs[|s.runs|]) == {}
  {
    var s' := SysApply(lim, s, Start(cfg, f1, f2));
    var run := s'.runs[|s.runs|];
    StartItems(lim, s, cfg, f1, f2);
    assert run == Run(cfg, InitLocal(cfg), run.chIn, run.chOut);
    InitInv(cfg, PrivateView(s', run));
    NewRunOk(s', run);
  }

  lemma NewRunOk(s: System, run: Run)
    requires HasChannels(s, run) && run.chIn != run.chOut && Inv(run.cfg, PrivateView(s, run)) && run.l.owned == map[]
    requires !Released(run.l) && run.chIn !in s.items.stor && run.chOut !in s.items.stor
    ensures RunOk(s, run) && RespChannels(run) == {}
  {
    assert forall i :: 0 <= i < |s.items.stor| ==> s.items.stor[i] in s.items.stor;
  }

  lemma SeparateAppend(runs: seq<Run>, run: Run)
    requires Separate(runs) && RespChannels(run) == {}
    requires forall i :: 0 <= i < |runs| ==> ItemChannels(runs[i]) !! ItemChannels(run)
    ensures Separate(runs + [run])
  {
  }

  /** Starting a request gives it two empty channels of its own and disturbs nobody. */
  lemma StartKeeps(lim: Limits, s: System, cfg: Config, f1: ChanId, f2: ChanId)
    requires ValidLimits(lim) && SysInv(s) && SysEnabled(lim, s, Start(cfg, f1, f2))
    ensures SysInv(SysApply(lim, s, Start(cfg, f1, f2))) && NobodyMoved(s, SysApply(lim, s, Start(cfg, f1, f2)))
  {
    var s' := SysApply(lim, s, Start(cfg, f1, f2));
    StartNew(lim, s, cfg, f1, f2);
    forall i | 0 <= i < |s'.runs|
      ensures RunOk(s', s'.runs[i])
      ensures i < |s.runs| ==> HasChannels(s, s.runs[i]) && PrivateView(s', s.runs[i]) == PrivateView(s, s.runs[i])
      ensures i < |s.runs| ==> ItemChannels(s.runs[i]) !! ItemChannels(s'.runs[|s.runs|])
    {
      if i < |s.runs| { assert RunOk(s, s.runs[i]); StartOther(lim, s, cfg, f1, f2, i); }
    }
    SeparateAppend(s.runs, s'.runs[|s.runs|]);
  }

  // ---------- the main results ----------

  /** What a system action is for the run that takes it. */
  ghost function AsPrivate(lim: Limits, s: System, b: SysAction): Action
    requires SysEnabled(lim, s, b) && !b.Start?
  {
    match b
    case Act(_, a) => a
    case Acquire(_, spare) => PGet(GetId(s.resp, spare), Get(s.resp, lim.respCap, spare).heap[GetId(s.resp, spare)])
    case Recycle(_) => CPut
    case Release(_) => CRelease
  }

  /** Sharing and recycling channels is invisible: a step of the system is a step of one run on private
      channels, and no other run is affected. */
  lemma StepRefines(lim: Limits, s: System, b: SysAction)
    requires ValidLimits(lim) && SysInv(s) && SysEnabled(lim, s, b)
    ensures SysInv(SysApply(lim, s, b))
    ensures b.Start? ==> NobodyMoved(s, SysApply(lim, s, b))
    ensures !b.Start? ==> PrivateStep(s, SysApply(lim, s, b), b.r, AsPrivate(lim, s, b))
  {
    match b
    case Start(cfg, f1, f2) => StartKeeps(lim, s, cfg, f1, f2);
    case Act(r, a) => ActRefines(lim, s, r, a);
    case Acquire(r, spare) => AcquireRefines(lim, s, r, spare);
    case Recycle(r) => RecycleRefines(lim, s, r);
    case Release(r) => ReleaseRefines(lim, s, r);
  }
}
