/**
 Building executions: one step at a time, from the start of the first request, by choosing at each point an
 action that one request could take on private channels.
 */
module Schedules {
  import opened Structs
  import opened RangeProtocol
  import opened RangeInvariant
  import opened RangeResults
  import opened RangeProgress
  import opened SharedPools
  import opened Executions

  // ---------- extending an execution ----------

  lemma InitReachable(lim: Limits)
    ensures Reachable(lim, System([], Pool([], map[]), Pool([], map[])))
  {
    var s := System([], Pool([], map[]), Pool([], map[]));
    var tr: seq<System>, bs: seq<SysAction> := [s], [];
    assert Execution(lim, tr, bs) && SysInit(tr[0]) && tr[|bs|] == s;
  }

  lemma ExecutionAppend(lim: Limits, tr: seq<System>, bs: seq<SysAction>, b: SysAction, s': System)
    requires Execution(lim, tr, bs) && SysEnabled(lim, tr[|bs|], b) && s' == SysApply(lim, tr[|bs|], b)
    ensures Execution(lim, tr + [s'], bs + [b])
  {
    hide SysEnabled, SysApply;
    var tr', bs' := tr + [s'], bs + [b];
    forall i | 0 <= i < |bs'| ensures SysEnabled(lim, tr'[i], bs'[i]) && tr'[i + 1] == SysApply(lim, tr'[i], bs'[i]) {
      if i < |bs| { assert tr'[i] == tr[i] && tr'[i + 1] == tr[i + 1] && bs'[i] == bs[i]; }
    }
  }

  lemma Extend(lim: Limits, s: System, b: SysAction, s': System)
    requires Reachable(lim, s) && SysEnabled(lim, s, b) && s' == SysApply(lim, s, b)
    ensures Reachable(lim, s')
  {
    var tr: seq<System>, bs: seq<SysAction> :| Execution(lim, tr, bs) && SysInit(tr[0]) && tr[|bs|] == s;
    ExecutionAppend(lim, tr, bs, b, s');
    var tr', bs' := tr + [s'], bs + [b];
    assert Execution(lim, tr', bs') && tr'[0] == tr[0] && tr'[|bs'|] == s';
  }

  /** s' can come after s. */
  ghost predicate Leads(lim: Limits, s: System, s': System) {
    exists tr: seq<System>, bs: seq<SysAction> :: Execution(lim, tr, bs) && tr[0] == s && tr[|bs|] == s'
  }

  lemma LeadsSelf(lim: Limits, s: System)
    ensures Leads(lim, s, s)
  {
    var tr: seq<System>, bs: seq<SysAction> := [s], [];
    assert Execution(lim, tr, bs) && tr[0] == s && tr[|bs|] == s;
  }

  lemma LeadsStep(lim: Limits, s: System, b: SysAction, s': System)
    requires SysEnabled(lim, s, b) && Leads(lim, SysApply(lim, s, b), s')
    ensures Leads(lim, s, s')
  {
    hide SysEnabled, SysApply;
    var next := SysApply(lim, s, b);
    var tr: seq<System>, bs: seq<SysAction> :| Execution(lim, tr, bs) && tr[0] == next && tr[|bs|] == s';
    var tr', bs' := [s] + tr, [b] + bs;
    forall i | 0 <= i < |bs'| ensures SysEnabled(lim, tr'[i], bs'[i]) && tr'[i + 1] == SysApply(lim, tr'[i], bs'[i]) {
      if i > 0 { assert tr'[i] == tr[i - 1] && tr'[i + 1] == tr[i] && bs'[i] == bs[i - 1]; }
    }
    assert Execution(lim, tr', bs') && tr'[0] == s && tr'[|bs'|] == s';
  }

  // ---------- channels keep their capacity ----------

  ghost predicate CapsOk(lim: Limits, s: System) {
    && (forall c :: c in s.resp.heap ==> s.resp.heap[c].cap == lim.respCap)
    && (forall c :: c in s.items.heap ==> s.items.heap[c].cap == lim.itemCap)
  }

  lemma StepKeepsCaps(lim: Limits, s: System, b: SysAction)
    requires CapsOk(lim, s) && SysEnabled(lim, s, b)
    ensures CapsOk(lim, SysApply(lim, s, b))
  {
    hide Apply, Enabled;
    if b.Act? { ActionKeepsCaps(s.runs[b.r].cfg, SharedView(s, s.runs[b.r]), b.a); }
  }

  lemma {:induction false} ExecutionCaps(lim: Limits, tr: seq<System>, bs: seq<SysAction>, i: nat)
    requires Execution(lim, tr, bs) && SysInit(tr[0]) && i < |tr|
    ensures CapsOk(lim, tr[i])
  {
    if i > 0 {
      ExecutionCaps(lim, tr, bs, i - 1);
      StepKeepsCaps(lim, tr[i - 1], bs[i - 1]);
    }
  }

  lemma ReachableCaps(lim: Limits, s: System)
    requires Reachable(lim, s)
    ensures CapsOk(lim, s)
  {
    var tr: seq<System>, bs: seq<SysAction> :| Execution(lim, tr, bs) && SysInit(tr[0]) && tr[|bs|] == s;
    ExecutionCaps(lim, tr, bs, |bs|);
  }

  // ---------- driving one request ----------

  /** In the reachable state s, request r has configuration cfg and the private view v. */
  ghost predicate At(lim: Limits, s: System, r: nat, cfg: Config, v: View) {
    && Reachable(lim, s) && SysInv(s) && r < |s.runs| && HasChannels(s, s.runs[r])
    && s.runs[r].cfg == cfg && PrivateView(s, s.runs[r]) == v
  }

  lemma Locate(lim: Limits, s: System, r: nat) returns (v: View)
    requires ValidLimits(lim) && Reachable(lim, s) && r < |s.runs|
    ensures At(lim, s, r, s.runs[r].cfg, v) && v.l == s.runs[r].l
  {
    ReachableInv(lim, s);
    assert RunOk(s, s.runs[r]);
    v := PrivateView(s, s.runs[r]);
  }

  /** What the invariant and the limits say about the view. */
  lemma AtFacts(lim: Limits, s: System, r: nat, cfg: Config, v: View)
    requires At(lim, s, r, cfg, v)
    ensures Inv(cfg, v) && v.l == s.runs[r].l
    ensures forall c :: c in v.resp ==> v.resp[c].cap == lim.respCap
    ensures v.work.cap == lim.itemCap && (!Released(v.l) ==> v.ord.cap == lim.itemCap)
    ensures 1 <= lim.respCap ==> !Starved(v)
  {
    hide Inv;
    assert RunOk(s, s.runs[r]);
    ReachableCaps(lim, s);
  }

  /** Makes the system take an action that is open to request r. */
  lemma Drive(lim: Limits, s: System, r: nat, cfg: Config, v: View, a: Action)
    returns (b: SysAction, s': System, a': Action, v': View)
    requires ValidLimits(lim) && At(lim, s, r, cfg, v) && Enabled(cfg, v, a) && !a.Cancel?
    ensures SysEnabled(lim, s, b) && s' == SysApply(lim, s, b)
    ensures Like(a', a) && Enabled(cfg, v, a') && v' == Apply(cfg, v, a') && At(lim, s', r, cfg, v')
    ensures 0 <= StepsLeft(cfg, v'.l) < StepsLeft(cfg, v.l)
  {
    hide Inv, Enabled, Apply, StepsLeft;
    assert RunOk(s, s.runs[r]);
    b := SharedAction(lim, s, r, a);
    a' := AsPrivate(lim, s, b);
    s' := SysApply(lim, s, b);
    StepRefines(lim, s, b);
    Extend(lim, s, b, s');
    v' := PrivateView(s', s'.runs[r]);
    StepCounts(cfg, v, a');
    assert RunOk(s', s'.runs[r]);
    StepsLeftSign(cfg, v');
  }

  /** Cancels request r. */
  lemma DriveCancel(lim: Limits, s: System, r: nat, cfg: Config, v: View) returns (s': System, v': View)
    requires ValidLimits(lim) && At(lim, s, r, cfg, v) && !v.l.cancelled
    ensures v' == v.(l := v.l.(cancelled := true)) && At(lim, s', r, cfg, v')
  {
    hide Inv;
    var b := Act(r, Cancel);
    CancelApplies(lim, s, r, cfg, v);
    hide SysEnabled, SysApply, Apply, Enabled;
    s' := SysApply(lim, s, b);
    StepRefines(lim, s, b);
    Extend(lim, s, b, s');
    v' := PrivateView(s', s'.runs[r]);
  }

  lemma CancelApplies(lim: Limits, s: System, r: nat, cfg: Config, v: View)
    requires At(lim, s, r, cfg, v) && !v.l.cancelled
    ensures SysEnabled(lim, s, Act(r, Cancel)) && AsPrivate(lim, s, Act(r, Cancel)) == Cancel
    ensures Enabled(cfg, v, Cancel) && Apply(cfg, v, Cancel) == v.(l := v.l.(cancelled := true))
  {
    hide Inv, Reachable;
  }

  // ---------- letting the producer and the workers run on ----------

  /** Neither the producer nor a worker can move. */
  ghost predicate Settled(cfg: Config, v: View) {
    forall a :: IsProducer(a) || IsWorker(a) ==> !Enabled(cfg, v, a)
  }

  lemma PipelineFrame(cfg: Config, v: View, a: Action)
    requires Enabled(cfg, v, a) && (IsProducer(a) || IsWorker(a))
    ensures SameOutput(v.l, Apply(cfg, v, a).l)
  {
    if IsProducer(a) { ProducerFrame(cfg, v, a); } else { WorkerFrame(cfg, v, a); }
  }

  /** The producer and the workers of a request can run until none of them can move. */
  lemma {:induction false} Settle(lim: Limits, s: System, r: nat, cfg: Config, v: View) returns (s': System, v': View)
    requires ValidLimits(lim) && At(lim, s, r, cfg, v)
    ensures At(lim, s', r, cfg, v') && SameOutput(v.l, v'.l) && Settled(cfg, v')
    decreases StepsLeft(cfg, v.l)
  {
    hide Inv, StepsLeft, Enabled, Apply;
    if Settled(cfg, v) {
      s', v' := s, v;
    } else {
      var a :| (IsProducer(a) || IsWorker(a)) && Enabled(cfg, v, a);
      AtFacts(lim, s, r, cfg, v);
      StepsLeftSign(cfg, v);
      var b, s1, a1, v1 := Drive(lim, s, r, cfg, v, a);
      PipelineFrame(cfg, v, a1);
      s', v' := Settle(lim, s1, r, cfg, v1);
    }
  }

  // ---------- the first request ----------

  ghost function FirstSystem(lim: Limits, cfg: Config, l: Local): System {
    var c := Chan([], lim.itemCap, false);
    System([Run(cfg, l, 0, 1)], Pool([], map[]), Pool([], map[0 := c, 1 := c]))
  }

  lemma FirstStarts(lim: Limits, cfg: Config)
    requires ValidLimits(lim) && ValidConfig(cfg)
    ensures Reachable(lim, FirstSystem(lim, cfg, InitLocal(cfg)))
  {
    InitReachable(lim);
    var s0 := System([], Pool([], map[]), Pool([], map[]));
    var p: Pool<Item> := Pool([], map[0 := Chan([], lim.itemCap, false)]);
    assert Get(s0.items, lim.itemCap, 0) == p;
    Extend(lim, s0, Start(cfg, 0, 1), FirstSystem(lim, cfg, InitLocal(cfg)));
  }

  // ---------- a request that fetches all its heights can finish ----------

  lemma {:induction false} RunToDone(lim: Limits, s: System, r: nat, cfg: Config, v: View) returns (s': System)
    requires ValidLimits(lim) && At(lim, s, r, cfg, v) && !v.l.cancelled
    requires AllFetched(cfg, cfg.start, LastHeight(cfg) + 1)
    ensures Reachable(lim, s') && r < |s'.runs| && s'.runs[r].cfg == cfg
    ensures s'.runs[r].l.consumer.Done? && !s'.runs[r].l.cancelled
    decreases StepsLeft(cfg, v.l)
  {
    hide Inv, Enabled, Apply, StepsLeft;
    AtFacts(lim, s, r, cfg, v);
    if v.l.consumer.Done? {
      s' := s;
    } else {
      StepsLeftSign(cfg, v);
      ErrorFreeActive(cfg, v);
      var a := NextAction(cfg, v);
      var b, s1, a1, v1 := Drive(lim, s, r, cfg, v, a);
      OnlyCancelCancels(cfg, v, a1);
      s' := RunToDone(lim, s1, r, cfg, v1);
    }
  }

  lemma ReachDone(lim: Limits, cfg: Config) returns (s: System)
    requires ValidLimits(lim) && ValidConfig(cfg) && AllFetched(cfg, cfg.start, LastHeight(cfg) + 1)
    ensures Reachable(lim, s) && 0 < |s.runs| && s.runs[0].cfg == cfg
    ensures s.runs[0].l.consumer.Done? && !s.runs[0].l.cancelled
  {
    FirstStarts(lim, cfg);
    var s0 := FirstSystem(lim, cfg, InitLocal(cfg));
    var v0 := Locate(lim, s0, 0);
    s := RunToDone(lim, s0, 0, cfg, v0);
  }
}
