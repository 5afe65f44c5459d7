/**
 What the invariant says about the output of a run: it is always a prefix of the sequential
 listing, a failure is that of the smallest failing height, and a finished request has sent
 the whole listing, numbered, followed by one END.
 */
module RangeResults {
  import opened Structs
  import opened RangeProtocol
  import opened RangeInvariant

  lemma MessagesPrefix(o: Outcome, got: nat)
    requires o.Fetched? && got < |Messages(o)|
    ensures Messages(o)[..got] <= Body(o)
  {
  }

  /** Whatever the interleaving, out holds a prefix of the sequential listing. */
  lemma WrittenIsPrefix(cfg: Config, v: View)
    requires Inv(cfg, v)
    ensures v.l.written <= Listing(cfg, cfg.start)
  {
    DeliveredIsPrefix(cfg, v.l.consumer, v.l.written);
  }

  lemma DeliveredIsPrefix(cfg: Config, k: Consumer, written: seq<Resp>)
    requires Delivered(cfg, k, written)
    ensures written <= Listing(cfg, cfg.start)
  {
    var base := Base(cfg, k);
    ListingSplit(cfg, cfg.start, base);
    match k
    case Reading(h, _, got) =>
      if cfg.outcome(h).Fetched? { MessagesPrefix(cfg.outcome(h), got); }
    case Holding(h, _, got, _) =>
      if cfg.outcome(h).Fetched? { MessagesPrefix(cfg.outcome(h), got - 1); }
    case _ =>
  }

  lemma BodyShape(o: Outcome, i: nat)
    requires i < |Body(o)|
    ensures Body(o)[i].BlockMsg? || Body(o)[i].TxMsg?
  {
    match o
    case Fetched(_, txs) => assert i > 0 ==> Body(o)[i] == TxMsgs(txs)[i - 1];
    case Failed(_) =>
  }

  /** Blocks and transactions, with an Error only at the end. */
  ghost predicate OutputShape(s: seq<Resp>) {
    forall i :: 0 <= i < |s| ==> !s[i].Partial? && (s[i].Error? ==> i == |s| - 1)
  }

  lemma ShapeAppend(o: Outcome, s: seq<Resp>)
    requires OutputShape(s)
    ensures OutputShape(Body(o) + s)
  {
    var t := Body(o) + s;
    forall i | 0 <= i < |t| ensures !t[i].Partial? && (t[i].Error? ==> i == |t| - 1) {
      if i < |Body(o)| { BodyShape(o, i); } else { assert t[i] == s[i - |Body(o)|]; }
    }
  }

  /** Partial and Last markers stay inside: the listing is blocks, transactions and at most one final Error. */
  lemma {:induction false} ListingShape(cfg: Config, h: nat)
    ensures OutputShape(Listing(cfg, h))
    decreases LastHeight(cfg) + 1 - h
  {
    if h <= LastHeight(cfg) && cfg.outcome(h).Fetched? {
      ListingShape(cfg, h + 1);
      ShapeAppend(cfg.outcome(h), Listing(cfg, h + 1));
    }
  }

  /** Every Send call so far carries the next response of the listing under the next number; END, if
      it was sent, carries the number of responses sent. */
  lemma CallsAreNumberedPrefix(cfg: Config, v: View)
    requires Inv(cfg, v)
    ensures var n := SentCount(v.l);
            && 0 <= n <= |Listing(cfg, cfg.start)|
            && v.l.calls == Numbered(Listing(cfg, cfg.start)[..n])
                            + (if v.l.sender.Ended? then [End(n % TWO_64)] else [])
  {
    WrittenIsPrefix(cfg, v);
    assert v.l.written[..SentCount(v.l)] == Listing(cfg, cfg.start)[..SentCount(v.l)];
  }

  /** h is the smallest height of the request that cannot be fetched. */
  ghost predicate FirstFailing(cfg: Config, h: nat) {
    cfg.start <= h <= LastHeight(cfg) && cfg.outcome(h).Failed? && AllFetched(cfg, cfg.start, h)
  }

  lemma FirstFailingIsUnique(cfg: Config, h: nat, h': nat)
    requires FirstFailing(cfg, h) && FirstFailing(cfg, h')
    ensures h == h'
  {
  }

  /** A forwarded Error is that of the smallest failing height, after everything below it and nothing else. */
  lemma FailureIsFirst(cfg: Config, v: View)
    requires Inv(cfg, v) && v.l.consumer.Failing?
    ensures var Failing(h, e) := v.l.consumer;
            && cfg.start <= h <= LastHeight(cfg) && cfg.outcome(h) == Failed(e)
            && AllFetched(cfg, cfg.start, h)
            && v.l.written == Bodies(cfg, cfg.start, h) + [Error(e)] == Listing(cfg, cfg.start)
  {
    ListingSplit(cfg, cfg.start, v.l.consumer.h);
  }

  /** The result does not depend on the schedule: if one schedule forwards an Error, no schedule of the
      same request succeeds, and any other that fails forwards the same Error after the same responses. */
  lemma FailureIsDeterministic(cfg: Config, v: View, v': View)
    requires Inv(cfg, v) && Inv(cfg, v') && v.l.consumer.Failing?
    ensures !PastLast(v'.l.consumer)
    ensures v'.l.consumer.Failing? ==> v'.l.consumer == v.l.consumer && v'.l.written == v.l.written
  {
    hide Owned, Queues, Reassembly, RoomInv, Shipping;
    FailureIsFirst(cfg, v);
    var h, h' := v.l.consumer.h, Base(cfg, v'.l.consumer);
    assert h < h' ==> cfg.outcome(h).Fetched?;
    assert h' < h ==> cfg.outcome(h').Fetched?;
  }

  /** getRange returns nil only when every height was fetched and written in full. */
  lemma SuccessIsComplete(cfg: Config, v: View)
    requires Inv(cfg, v) && PastLast(v.l.consumer)
    ensures AllFetched(cfg, cfg.start, LastHeight(cfg) + 1)
    ensures v.l.written == Bodies(cfg, cfg.start, LastHeight(cfg) + 1) == Listing(cfg, cfg.start)
  {
    hide Owned, Queues, RoomInv, Reassembly, Shipping, Bodies;
    ListingSplit(cfg, cfg.start, LastHeight(cfg) + 1);
  }

  /** A request that ends without cancellation has sent the listing numbered 0, 1, ..., n-1 and then END n. */
  lemma FinishedRequest(cfg: Config, v: View)
    requires Inv(cfg, v) && v.l.consumer.Done? && !v.l.cancelled
    ensures var s := Listing(cfg, cfg.start);
            v.l.calls == Numbered(s) + [End(|s| % TWO_64)]
  {
    SuccessIsComplete(cfg, v);
    assert v.l.written[SentCount(v.l)..] == [];
    assert v.l.written[..SentCount(v.l)] == v.l.written;
  }

  // ---------- the producer's history ----------

  /** Until the error signal, the heights given to workers are those given to the consumer, in order and
      at most one behind; the ordering channel ends with the only Last, and the work channel is then closed. */
  lemma ProducerHistory(cfg: Config, v: View)
    requires Inv(cfg, v) && Active(v.l.consumer)
    ensures var p := v.l.producer;
            && QueuedTo(cfg, p) <= OrderedTo(cfg, p) <= QueuedTo(cfg, p) + 1
            && OrderedTo(cfg, p) <= LastHeight(cfg) + 1
            && (forall i :: 0 <= i < |v.work.buf| ==> v.work.buf[i].Item? && v.work.buf[i].h == v.l.taken + i)
            && v.l.taken + |v.work.buf| == QueuedTo(cfg, p)
            && (forall i :: 0 <= i < |v.ord.buf| ==>
                  if v.ord.buf[i].Item? then v.ord.buf[i].h == ReceivedTo(cfg, v.l.consumer) + i
                  else i == |v.ord.buf| - 1 && OrderedTo(cfg, p) == LastHeight(cfg) + 1)
            && (p.Stopped? ==> v.work.closed && OrderedTo(cfg, p) == QueuedTo(cfg, p) == LastHeight(cfg) + 1)
  {
    hide Ownership, ItemsRef, WorkersRef, WorkersOk, WorkQueue, LiveHeights, Contents, Shipping, RoomInv;
  }

  // ---------- when all workers have returned ----------

  ghost predicate AllExited(l: Local) {
    forall w :: 0 <= w < |l.workers| ==> l.workers[w].Exited?
  }

  /** The heights a..b-1 that cannot be fetched. */
  ghost function FailingIn(cfg: Config, a: nat, b: nat): set<nat> {
    set z: nat | a <= z < b && cfg.outcome(z).Failed?
  }

  /** Those of them on which a worker dies: all but one that the error signal kept from the workers. */
  ghost function Deadly(cfg: Config, a: nat, b: nat, spent: Spent): set<nat> {
    set z: nat | a <= z < b && cfg.outcome(z).Failed? && spent != OnWork(z)
  }

  /** The request has fewer failing heights than workers. */
  ghost predicate FewFailures(cfg: Config) { |FailingIn(cfg, cfg.start, LastHeight(cfg) + 1)| < cfg.workers }

  lemma SubsetSize(x: set<nat>, y: set<nat>)
    requires x <= y
    ensures |x| <= |y|
  {
    assert y == x + (y - x);
  }

  /** Workers that are on different heights of a set are no more than the set has. */
  lemma {:induction false} DistinctFit(workers: seq<Worker>, n: nat, heights: set<nat>)
    requires n <= |workers| && DistinctHeights(workers)
    requires forall w :: 0 <= w < n ==> WorkerHeight(workers[w]).Some? && WorkerHeight(workers[w]).value in heights
    ensures n <= |heights|
  {
    if n > 0 {
      var h := WorkerHeight(workers[n - 1]).value;
      forall w | 0 <= w < n - 1 ensures WorkerHeight(workers[w]).value in heights - {h} {
        assert WorkerHeight(workers[w]) != WorkerHeight(workers[n - 1]);
      }
      DistinctFit(workers, n - 1, heights - {h});
    }
  }

  /** If all workers have returned before the work channel was closed and drained, each died on a height of its own. */
  lemma ExitedWorkersFailed(cfg: Config, v: View)
    requires Inv(cfg, v) && AllExited(v.l) && !(v.work.closed && v.work.buf == [])
    ensures cfg.workers <= |Deadly(cfg, cfg.start, v.l.taken, v.l.spent)|
  {
    var l := v.l;
    var dead := Deadly(cfg, cfg.start, l.taken, l.spent);
    forall w | 0 <= w < |l.workers|
      ensures WorkerHeight(l.workers[w]).Some? && WorkerHeight(l.workers[w]).value in dead {
      assert WorkerOk(cfg, l.taken, false, l.workers[w]);
      OnItself(l.workers, w, WorkerHeight(l.workers[w]).value);
    }
    DistinctFit(l.workers, |l.workers|, dead);
  }

  /** With fewer failing heights than workers, all workers have returned only when the work channel is closed and
      drained. */
  lemma AllExitedMeansDrained(cfg: Config, v: View)
    requires Inv(cfg, v) && AllExited(v.l) && FewFailures(cfg)
    ensures v.work.closed && v.work.buf == [] && v.l.producer.Stopped?
  {
    if !(v.work.closed && v.work.buf == []) {
      ExitedWorkersFailed(cfg, v);
      assert v.l.taken <= QueuedTo(cfg, v.l.producer) <= LastHeight(cfg) + 1;
      SubsetSize(Deadly(cfg, cfg.start, v.l.taken, v.l.spent), FailingIn(cfg, cfg.start, LastHeight(cfg) + 1));
    }
  }

  /** The heights that workers are on. */
  ghost function HeightsOf(workers: seq<Worker>): set<nat> {
    if workers == [] then {}
    else HeightsOf(workers[1..]) + (if WorkerHeight(workers[0]).Some? then {WorkerHeight(workers[0]).value} else {})
  }

  lemma {:induction false} HeightsOfSize(workers: seq<Worker>)
    ensures |HeightsOf(workers)| <= |workers|
  {
    if workers != [] { HeightsOfSize(workers[1..]); }
  }

  lemma {:induction false} HeightsOfHas(workers: seq<Worker>, w: nat)
    requires w < |workers| && WorkerHeight(workers[w]).Some?
    ensures WorkerHeight(workers[w]).value in HeightsOf(workers)
  {
    if w > 0 { HeightsOfHas(workers[1..], w - 1); }
  }

  /** A worker that is on none of the deadly heights taken so far leaves fewer of these than there are workers. */
  lemma FreeWorker(cfg: Config, v: View, b: nat, w: nat)
    requires Inv(cfg, v) && b <= v.l.taken && w < |v.l.workers|
    requires WorkerHeight(v.l.workers[w]).Some? ==>
               WorkerHeight(v.l.workers[w]).value !in Deadly(cfg, cfg.start, b, v.l.spent)
    ensures |Deadly(cfg, cfg.start, b, v.l.spent)| < cfg.workers
  {
    var l := v.l;
    var dead, others := Deadly(cfg, cfg.start, b, l.spent), l.workers[..w] + l.workers[w + 1..];
    forall z | z in dead ensures z in HeightsOf(others) {
      assert OnHeight(l.workers, z);
      var j :| 0 <= j < |l.workers| && WorkerHeight(l.workers[j]) == Some(z);
      var j' := if j < w then j else j - 1;
      assert others[j'] == l.workers[j];
      HeightsOfHas(others, j');
    }
    HeightsOfSize(others);
    SubsetSize(dead, HeightsOf(others));
  }
}
