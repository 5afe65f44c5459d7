/**
 No channel is lost: every channel that was ever made is in its pool, was closed, or belongs to a request, and no pool
 holds more than its capacity.
 */
module Conservation {
  import opened Structs
  import opened RangeProtocol
  import opened RangeInvariant
  import opened SharedPools
  import opened Executions

  ghost predicate RespOf(runs: seq<Run>, c: ChanId) { exists r :: 0 <= r < |runs| && c in RespChannels(runs[r]) }

  ghost predicate ItemOf(runs: seq<Run>, c: ChanId) { exists r :: 0 <= r < |runs| && c in ItemChannels(runs[r]) }

  /** Every channel is pooled, closed, or somebody's. */
  ghost predicate Conserved(lim: Limits, s: System) {
    && |s.resp.stor| <= lim.poolCap && |s.items.stor| <= lim.poolCap
    && (forall c :: c in s.resp.heap ==> c in s.resp.stor || s.resp.heap[c].closed || RespOf(s.runs, c))
    && (forall c :: c in s.items.heap ==> c in s.items.stor || s.items.heap[c].closed || ItemOf(s.runs, c))
  }

  /** After a step of the owner of mine, which are then mine', each channel is pooled, closed or its own, or was
      somebody else's open channel before. */
  ghost predicate Accounted<T>(p: Pool<T>, p': Pool<T>, mine: set<ChanId>, mine': set<ChanId>) {
    forall c :: c in p'.heap ==>
      || c in p'.stor || p'.heap[c].closed || c in mine'
      || (c in p.heap && c !in p.stor && !p.heap[c].closed && c !in mine)
  }

  lemma Same<T>(p: Pool<T>, mine: set<ChanId>)
    ensures Accounted(p, p, mine, mine)
  {
  }

  /** Get takes a channel out of the pool for its caller. */
  lemma GetAccounted<T>(p: Pool<T>, cap: nat, spare: ChanId, mine: set<ChanId>)
    requires CanGet(p, spare)
    ensures Accounted(p, Get(p, cap, spare), mine, mine + {GetId(p, spare)}) && |Get(p, cap, spare).stor| <= |p.stor|
  {
  }

  /** Put gives its caller's channel to the pool, or closes it. */
  lemma PutAccounted<T>(p: Pool<T>, poolCap: nat, c: ChanId, mine: set<ChanId>)
    requires c in p.heap && |p.stor| <= poolCap
    ensures Accounted(p, Put(p, poolCap, c), mine, mine - {c}) && |Put(p, poolCap, c).stor| <= poolCap
  {
    var p' := Put(p, poolCap, c);
    assert |p.stor| < poolCap ==> p'.stor[|p.stor|] == c;
    forall x | x in p.stor ensures x in p'.stor { }
  }

  lemma ActAccounted(lim: Limits, s: System, r: nat, a: Action)
    requires SysInv(s) && SysEnabled(lim, s, Act(r, a))
    ensures var s' := SysApply(lim, s, Act(r, a));
            && s'.runs == s.runs[r := s'.runs[r]] && s'.resp.stor == s.resp.stor && s'.items.stor == s.items.stor
            && Accounted(s.resp, s'.resp, RespChannels(s.runs[r]), RespChannels(s'.runs[r]))
            && Accounted(s.items, s'.items, ItemChannels(s.runs[r]), ItemChannels(s'.runs[r]))
  {
    hide Enabled, Apply, Inv, Separate, PoolOk, Roomy;
    var run := s.runs[r];
    assert RunOk(s, run);
    InvOwned(run.cfg, PrivateView(s, run));
    Locality(run.cfg, SharedView(s, run), PrivateView(s, run), a);
    ReleasedStays(run.cfg, SharedView(s, run), a);
  }

  lemma InvOwned(cfg: Config, v: View)
    requires Inv(cfg, v)
    ensures Owned(cfg, v)
  {
  }

  lemma ReleasedStays(cfg: Config, v: View, a: Action)
    requires Enabled(cfg, v, a) && !OnPool(a)
    ensures Released(Apply(cfg, v, a).l) <==> Released(v.l)
  {
    if IsConsumer(a) { ConsumerReleased(cfg, v, a); } else { OthersKeepConsumer(cfg, v, a); }
  }

  lemma ConsumerReleased(cfg: Config, v: View, a: Action)
    requires IsConsumer(a) && ConsumerEnabled(cfg, v, a) && !OnPool(a)
    ensures Released(ConsumerApply(cfg, v, a).l) <==> Released(v.l)
  {
  }

  lemma AcquireAccounted(lim: Limits, s: System, r: nat, spare: ChanId)
    requires SysInv(s) && SysEnabled(lim, s, Acquire(r, spare))
    ensures var s' := SysApply(lim, s, Acquire(r, spare));
            Accounted(s.resp, s'.resp, RespChannels(s.runs[r]), RespChannels(s'.runs[r]))
  {
    hide Inv;
    var l := s.runs[r].l;
    assert RunOk(s, s.runs[r]);
    RunOwns(s, s.runs[r]);
    GetAccounted(s.resp, lim.respCap, spare, RespChannels(s.runs[r]));
    ValuesAdd(l.owned, l.producer.h, GetId(s.resp, spare));
  }

  lemma RecycleAccounted(lim: Limits, s: System, r: nat)
    requires SysInv(s) && SysEnabled(lim, s, Recycle(r)) && |s.resp.stor| <= lim.poolCap
    ensures var s' := SysApply(lim, s, Recycle(r));
            && Accounted(s.resp, s'.resp, RespChannels(s.runs[r]), RespChannels(s'.runs[r]))
            && |s'.resp.stor| <= lim.poolCap
  {
    hide Inv;
    var l := s.runs[r].l;
    assert RunOk(s, s.runs[r]);
    RunOwns(s, s.runs[r]);
    PuttingIsReady(s, s.runs[r]);
    ValuesRemove(l.owned, l.consumer.h);
    PutAccounted(s.resp, lim.poolCap, l.consumer.ch, RespChannels(s.runs[r]));
  }

  lemma ReleaseAccounted(lim: Limits, s: System, r: nat)
    requires SysInv(s) && SysEnabled(lim, s, Release(r)) && |s.items.stor| <= lim.poolCap
    ensures var s' := SysApply(lim, s, Release(r));
            && Accounted(s.items, s'.items, ItemChannels(s.runs[r]), ItemChannels(s'.runs[r]))
            && |s'.items.stor| <= lim.poolCap
  {
    hide Inv;
    assert RunOk(s, s.runs[r]);
    PutAccounted(s.items, lim.poolCap, s.runs[r].chOut, ItemChannels(s.runs[r]));
    assert ItemChannels(SysApply(lim, s, Release(r)).runs[r]) == ItemChannels(s.runs[r]) - {s.runs[r].chOut};
  }

  /** A step of run r that accounts for its channels loses none of anybody's. */
  lemma RunKeeps(lim: Limits, s: System, s': System, r: nat)
    requires Conserved(lim, s) && r < |s.runs| && |s'.runs| == |s.runs| && s'.runs == s.runs[r := s'.runs[r]]
    requires |s'.resp.stor| <= lim.poolCap && |s'.items.stor| <= lim.poolCap
    requires Accounted(s.resp, s'.resp, RespChannels(s.runs[r]), RespChannels(s'.runs[r]))
    requires Accounted(s.items, s'.items, ItemChannels(s.runs[r]), ItemChannels(s'.runs[r]))
    ensures Conserved(lim, s')
  {
    hide RespChannels, ItemChannels;
    forall c | c in s'.resp.heap && c !in s'.resp.stor && !s'.resp.heap[c].closed ensures RespOf(s'.runs, c) {
      if c !in RespChannels(s'.runs[r]) {
        var i :| 0 <= i < |s.runs| && c in RespChannels(s.runs[i]);
        assert s'.runs[i] == s.runs[i];
      }
    }
    forall c | c in s'.items.heap && c !in s'.items.stor && !s'.items.heap[c].closed ensures ItemOf(s'.runs, c) {
      if c !in ItemChannels(s'.runs[r]) {
        var i :| 0 <= i < |s.runs| && c in ItemChannels(s.runs[i]);
        assert s'.runs[i] == s.runs[i];
      }
    }
  }

  /** The runs before a start keep what they had. */
  lemma StillOf(runs: seq<Run>, run: Run, c: ChanId)
    ensures RespOf(runs, c) ==> RespOf(runs + [run], c)
    ensures ItemOf(runs, c) || c in ItemChannels(run) ==> ItemOf(runs + [run], c)
  {
    hide RespChannels, ItemChannels;
    var more := runs + [run];
    assert more[|runs|] == run;
    if RespOf(runs, c) { var i :| 0 <= i < |runs| && c in RespChannels(runs[i]); assert more[i] == runs[i]; }
    if ItemOf(runs, c) { var i :| 0 <= i < |runs| && c in ItemChannels(runs[i]); assert more[i] == runs[i]; }
  }

  lemma TwoGets(p: Pool<Item>, cap: nat, f1: ChanId, f2: ChanId)
    requires CanGet(p, f1) && CanGet(Get(p, cap, f1), f2)
    ensures var p1 := Get(p, cap, f1);
            && Accounted(p, Get(p1, cap, f2), {}, {GetId(p, f1), GetId(p1, f2)})
            && |Get(p1, cap, f2).stor| <= |p.stor|
  {
    var p1 := Get(p, cap, f1);
    GetAccounted(p, cap, f1, {});
    GetAccounted(p1, cap, f2, {GetId(p, f1)});
  }

  lemma StartKeepsAll(lim: Limits, s: System, cfg: Config, f1: ChanId, f2: ChanId)
    requires Conserved(lim, s) && SysEnabled(lim, s, Start(cfg, f1, f2))
    ensures Conserved(lim, SysApply(lim, s, Start(cfg, f1, f2)))
  {
    hide RespOf, ItemOf, Get, GetId, CanGet;
    var s' := SysApply(lim, s, Start(cfg, f1, f2));
    var run := s'.runs[|s.runs|];
    assert s'.runs == s.runs + [run];
    TwoGets(s.items, lim.itemCap, f1, f2);
    assert ItemChannels(run) == {run.chIn, run.chOut};
    forall c ensures RespOf(s.runs, c) ==> RespOf(s'.runs, c)
             ensures ItemOf(s.runs, c) || c in ItemChannels(run) ==> ItemOf(s'.runs, c)
    {
      StillOf(s.runs, run, c);
    }
  }

  lemma ActConserves(lim: Limits, s: System, r: nat, a: Action)
    requires SysInv(s) && SysEnabled(lim, s, Act(r, a)) && Conserved(lim, s)
    ensures Conserved(lim, SysApply(lim, s, Act(r, a)))
  {
    ActAccounted(lim, s, r, a);
    assert r < |s.runs|;
    hide SysApply, SysEnabled, SysInv, Accounted, RespChannels, ItemChannels;
    RunKeeps(lim, s, SysApply(lim, s, Act(r, a)), r);
  }

  lemma AcquireConserves(lim: Limits, s: System, r: nat, spare: ChanId)
    requires SysInv(s) && SysEnabled(lim, s, Acquire(r, spare)) && Conserved(lim, s)
    ensures Conserved(lim, SysApply(lim, s, Acquire(r, spare)))
  {
    hide SysInv, Accounted;
    var s' := SysApply(lim, s, Acquire(r, spare));
    AcquireAccounted(lim, s, r, spare);
    GetAccounted(s.resp, lim.respCap, spare, {});
    Same(s.items, ItemChannels(s.runs[r]));
    assert ItemChannels(s'.runs[r]) == ItemChannels(s.runs[r]);
    RunKeeps(lim, s, s', r);
  }

  lemma RecycleConserves(lim: Limits, s: System, r: nat)
    requires SysInv(s) && SysEnabled(lim, s, Recycle(r)) && Conserved(lim, s)
    ensures Conserved(lim, SysApply(lim, s, Recycle(r)))
  {
    hide SysInv, Accounted;
    var s' := SysApply(lim, s, Recycle(r));
    RecycleAccounted(lim, s, r);
    Same(s.items, ItemChannels(s.runs[r]));
    assert ItemChannels(s'.runs[r]) == ItemChannels(s.runs[r]);
    RunKeeps(lim, s, s', r);
  }

  lemma ReleaseConserves(lim: Limits, s: System, r: nat)
    requires SysInv(s) && SysEnabled(lim, s, Release(r)) && Conserved(lim, s)
    ensures Conserved(lim, SysApply(lim, s, Release(r)))
  {
    hide SysInv, Accounted;
    ReleaseAccounted(lim, s, r);
    Same(s.resp, RespChannels(s.runs[r]));
    RunKeeps(lim, s, SysApply(lim, s, Release(r)), r);
  }

  lemma StepConserves(lim: Limits, s: System, b: SysAction)
    requires SysInv(s) && SysEnabled(lim, s, b) && Conserved(lim, s)
    ensures Conserved(lim, SysApply(lim, s, b))
  {
    hide SysInv, SysEnabled, SysApply, Conserved;
    match b
    case Start(cfg, f1, f2) => StartKeepsAll(lim, s, cfg, f1, f2);
    case Act(r, a) => ActConserves(lim, s, r, a);
    case Acquire(r, spare) => AcquireConserves(lim, s, r, spare);
    case Recycle(r) => RecycleConserves(lim, s, r);
    case Release(r) => ReleaseConserves(lim, s, r);
  }

  lemma GiftConserves(lim: Limits, s: System, e: Event)
    requires CanHappen(lim, s, e) && !e.Step? && Conserved(lim, s)
    ensures Conserved(lim, After(lim, s, e))
  {
    var s' := After(lim, s, e);
    if e.GiveQueue? { assert s'.items.stor[|s.items.stor|] == e.c; } else { assert s'.resp.stor[|s.resp.stor|] == e.c; }
    assert forall x :: x in s.items.stor ==> x in s'.items.stor;
    assert forall x :: x in s.resp.stor ==> x in s'.resp.stor;
  }

  lemma {:induction false} HistoryConserves(lim: Limits, tr: seq<System>, es: seq<Event>, i: nat)
    requires ValidLimits(lim) && History(lim, tr, es) && SysInit(tr[0]) && i < |tr|
    ensures SysInv(tr[i]) && Conserved(lim, tr[i])
  {
    hide SysInv, SysEnabled, SysApply, Conserved, CanGive, Give;
    if i == 0 {
      InitConserved(lim, tr[0]);
    } else {
      HistoryConserves(lim, tr, es, i - 1);
      var e := es[i - 1];
      if e.Step? {
        StepRefines(lim, tr[i - 1], e.b);
        StepConserves(lim, tr[i - 1], e.b);
      } else {
        GiftKeeps(lim, tr[i - 1], e);
        GiftConserves(lim, tr[i - 1], e);
      }
    }
  }

  lemma InitConserved(lim: Limits, s: System)
    requires SysInit(s)
    ensures SysInv(s) && Conserved(lim, s)
  {
  }

  /** No channel is lost and no pool overflows, in every state that occurs. */
  lemma NoChannelIsLost(lim: Limits, s: System)
    requires ValidLimits(lim) && Occurs(lim, s)
    ensures Conserved(lim, s)
  {
    hide Conserved, SysInit;
    var tr: seq<System>, es: seq<Event> :| History(lim, tr, es) && SysInit(tr[0]) && tr[|es|] == s;
    HistoryConserves(lim, tr, es, |es|);
  }
}
