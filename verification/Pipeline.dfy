/**
 The pieces put together: a worker's fetch of one height (blockAndTx) over the cache and the pager, and
 what a finished request has therefore sent.
 */
module Pipeline {
  import opened Structs
  import opened Text
  import opened BlockCache
  import opened Transactions
  import opened RangeProtocol
  import opened RangeInvariant
  import opened RangeResults
  import opened SharedPools
  import opened Executions
  import opened Schedules
  import opened Placement
  import opened ErrorPath
  import Windows

  const PAGE: nat := 100

  /** All there is to fetch: what the limiter and the node say when the block of a height is asked for, the node's
      transactions for each height and the pages that fail, and the conversion. */
  datatype World = World(limiter: nat -> Option<string>, node: Node, pager: nat -> Pager, dispatch: Routed -> Mapped)

  function Convert(w: World): RawTx -> Result<Transaction> { raw => Converted(w.dispatch, raw) }

  /** What fetching height h gives.  Without a block, because of the limiter or the node, it is the failure of the
      block.  With a block that has no transactions it is that block.  Otherwise it is the block with all its
      transactions if all pages of 100 load and all transactions convert, and the first failure of a page or of a
      conversion if not. */
  ghost predicate Fetches(w: World, h: nat, o: Outcome) {
    var answer :=
      if w.limiter(h).Some? then Err(w.limiter(h).value)
      else if h == 0 then w.node.latest
      else w.node.at(h);
    match answer
    case Err(e) => o == Failed("error fetching block: " + Itoa(h) + " " + e + " ")
    case Ok(b) =>
      if b.numTxs == 0 then o == Fetched(b, [])
      else
        match o
        case Fetched(block, txs) => block == b && SearchMeans(Convert(w), b, w.pager(h), 100, Ok(txs))
        case Failed(e) => SearchMeans(Convert(w), b, w.pager(h), 100, Err(e))
  }

  /** Fetching through the cache and page by page gives the block and the whole transaction list of the node, or the
      first failure of the limiter, of the node, of a page or of a conversion, whatever the cache has seen before. */
  method BlockAndTx(ghost chain: nat -> Block, client: Client, w: World, h: nat) returns (o: Outcome)
    requires client.sbc.Valid() && Honest(chain, w.node) && HoldsChainBlocks(chain, client.sbc.blocks)
    requires |w.pager(h).txs| < TWO_64
    modifies client.sbc
    ensures client.sbc.Valid() && HoldsChainBlocks(chain, client.sbc.blocks)
    ensures Fetches(w, h, o)
  {
    hide SearchMeans;
    ghost var before := client.sbc.blocks;
    var block := client.GetBlock(h, w.limiter(h), w.node);
    if block.Ok? { AddKeepsChainBlocks(chain, before, client.sbc.cap, block.value); }
    if block.Err? { return Failed("error fetching block: " + Itoa(h) + " " + block.error + " "); }
    var txs := Ok([]);
    if block.value.numTxs > 0 {
      var requests;
      txs, requests := SearchTx(Convert(w), block.value, w.pager(h), PAGE);
      if txs.Err? { return Failed(txs.error); }
    }
    o := Fetched(block.value, txs.value);
  }

  /** The block of a height and its transactions are there: no request for them fails, and they convert. */
  ghost predicate Convertible(chain: nat -> Block, w: World, h: nat) {
    && w.limiter(h).None? && w.node.at(h) == Ok(chain(h)) && chain(h).numTxs == |w.pager(h).txs|
    && (forall k: nat :: Needed(w.pager(h), 100, k) ==> w.pager(h).fails(k).None?)
    && (forall i :: 0 <= i < |w.pager(h).txs| ==> Convert(w)(w.pager(h).txs[i]).Ok?)
  }

  /** These are all transactions of the height, converted one by one. */
  ghost predicate ChainTxs(chain: nat -> Block, w: World, h: nat, txs: seq<Transaction>) {
    IsConverted(Convert(w), chain(h), w.pager(h).txs, txs)
  }

  lemma OutcomeIsChain(chain: nat -> Block, w: World, h: nat, o: Outcome)
    requires 1 <= h && Convertible(chain, w, h) && Fetches(w, h, o)
    ensures o.Fetched? && o.block == chain(h) && ChainTxs(chain, w, h, o.txs)
  {
    hide IsConverted, StopsAt;
    if chain(h).numTxs == 0 { NothingToConvert(chain, w, h); }
  }

  lemma NothingToConvert(chain: nat -> Block, w: World, h: nat)
    requires w.pager(h).txs == []
    ensures ChainTxs(chain, w, h, [])
  {
  }

  /** Request cfg fetches what the world answers, and the world has the chain at every height from 1 on.  Height 0 is
      read as "the newest block" by GetBlock. */
  ghost predicate FetchesChain(chain: nat -> Block, w: World, cfg: Config) {
    Honest(chain, w.node) && forall h :: cfg.start <= h <= LastHeight(cfg) ==> FetchesHeight(chain, w, cfg, h)
  }

  ghost predicate FetchesHeight(chain: nat -> Block, w: World, cfg: Config, h: nat) {
    (1 <= h ==> Convertible(chain, w, h)) && Fetches(w, h, cfg.outcome(h))
  }

  // ---------- what a finished request has sent ----------

  /** Request r of s has finished without being cancelled. */
  ghost predicate Succeeded(lim: Limits, s: System, r: nat) {
    Occurs(lim, s) && r < |s.runs| && s.runs[r].l.consumer.Done? && !s.runs[r].l.cancelled
  }

  /** How many responses the heights a..h-1 of the chain are worth. */
  ghost function Place(chain: nat -> Block, a: nat, h: nat): nat
    decreases h
  {
    if h <= a then 0 else Place(chain, a, h - 1) + 1 + chain(h - 1).numTxs
  }

  /** From place k on, the calls carry the block of height h and all its transactions, in order, each under the number
      of its place. */
  ghost predicate HeightSent(chain: nat -> Block, w: World, calls: seq<Call>, k: nat, h: nat) {
    && k + chain(h).numTxs < |calls| && calls[k] == Sent(k % TWO_64, BlockMsg(chain(h)))
    && exists txs :: ChainTxs(chain, w, h, txs) && |txs| == chain(h).numTxs
         && forall i :: 0 <= i < |txs| ==> calls[k + 1 + i] == Sent((k + 1 + i) % TWO_64, TxMsg(txs[i]))
  }

  /** From place k on, the calls carry the heights a..b-1 of the chain, and then END; that is all. */
  ghost predicate SendsChain(chain: nat -> Block, w: World, calls: seq<Call>, k: nat, a: nat, b: nat) {
    var n := k + Place(chain, a, b);
    && |calls| == n + 1 && calls[n] == End(n % TWO_64)
    && forall h :: a <= h < b ==> HeightSent(chain, w, calls, k + Place(chain, a, h), h)
  }

  /** Each height is worth as many responses as its block has transactions, and one. */
  lemma {:induction false} PlaceIsBefore(chain: nat -> Block, w: World, cfg: Config, a: nat, h: nat)
    requires FetchesChain(chain, w, cfg) && cfg.start <= a <= h <= LastHeight(cfg) + 1 && 1 <= a
    ensures Before(cfg, h) == Before(cfg, a) + Place(chain, a, h)
    decreases h
  {
    hide Fetches, Convertible, ChainTxs;
    if a < h {
      PlaceIsBefore(chain, w, cfg, a, h - 1);
      assert FetchesHeight(chain, w, cfg, h - 1);
      HeightOutcome(chain, w, cfg, h - 1);
    }
  }

  lemma HeightOutcome(chain: nat -> Block, w: World, cfg: Config, h: nat)
    requires FetchesHeight(chain, w, cfg, h) && 1 <= h
    ensures var o := cfg.outcome(h);
            o.Fetched? && o.block == chain(h) && ChainTxs(chain, w, h, o.txs) && |o.txs| == chain(h).numTxs
  {
    OutcomeIsChain(chain, w, h, cfg.outcome(h));
  }

  /** From height 1 on, a finished request has sent the chain. */
  lemma SentFromOne(chain: nat -> Block, w: World, lim: Limits, s: System, r: nat, a: nat)
    requires ValidLimits(lim) && Succeeded(lim, s, r) && FetchesChain(chain, w, s.runs[r].cfg)
    requires s.runs[r].cfg.start <= a <= LastHeight(s.runs[r].cfg) + 1 && 1 <= a
    ensures var cfg := s.runs[r].cfg;
            SendsChain(chain, w, s.runs[r].l.calls, Before(cfg, a), a, LastHeight(cfg) + 1)
  {
    hide Fetches, Convertible, ChainTxs, Occurs, Carried, FetchesChain, HeightSent, Before, Place;
    var cfg, calls := s.runs[r].cfg, s.runs[r].l.calls;
    DoneCallsAreInPlace(lim, s, r);
    var n := Before(cfg, LastHeight(cfg) + 1);
    PlaceIsBefore(chain, w, cfg, a, LastHeight(cfg) + 1);
    forall h | a <= h < LastHeight(cfg) + 1
      ensures HeightSent(chain, w, calls, Before(cfg, a) + Place(chain, a, h), h)
    {
      PlaceIsBefore(chain, w, cfg, a, h);
      HeightIsSent(chain, w, cfg, calls, n, h);
    }
  }

  lemma HeightIsSent(chain: nat -> Block, w: World, cfg: Config, calls: seq<Call>, n: nat, h: nat)
    requires FetchesChain(chain, w, cfg) && 1 <= h && cfg.start <= h <= LastHeight(cfg)
    requires n <= |calls| && n == Before(cfg, LastHeight(cfg) + 1) && Carried(cfg.outcome(h), calls, n, Before(cfg, h))
    ensures HeightSent(chain, w, calls, Before(cfg, h), h)
  {
    hide Fetches, Convertible, ChainTxs;
    assert FetchesHeight(chain, w, cfg, h);
    HeightOutcome(chain, w, cfg, h);
    BeforeGrows(cfg, h + 1, LastHeight(cfg) + 1);
  }

  lemma {:induction false} BeforeGrows(cfg: Config, a: nat, b: nat)
    requires cfg.start <= a <= b
    ensures Before(cfg, a) <= Before(cfg, b)
    decreases b
  {
    if a < b { BeforeGrows(cfg, a, b - 1); }
  }

  /** A range from height 0 sends the newest block and its transactions first, in place of a block of height 0, and then
      the chain from height 1 on. */
  lemma NewestBlockFirst(chain: nat -> Block, w: World, lim: Limits, s: System, r: nat)
    requires ValidLimits(lim) && Succeeded(lim, s, r) && FetchesChain(chain, w, s.runs[r].cfg)
    requires s.runs[r].cfg.start == 0
    ensures var run := s.runs[r];
            && run.cfg.outcome(0).Fetched?
            && var Fetched(newest, txs) := run.cfg.outcome(0);
               && Fetches(w, 0, Fetched(newest, txs)) && w.node.latest == Ok(newest) && newest.height >= 1
               && |run.l.calls| > |txs| && run.l.calls[0] == Sent(0, BlockMsg(newest))
               && (forall i :: 0 <= i < |txs| ==> run.l.calls[1 + i] == Sent((1 + i) % TWO_64, TxMsg(txs[i])))
               && SendsChain(chain, w, run.l.calls, 1 + |txs|, 1, LastHeight(run.cfg) + 1)
  {
    hide Convertible, ChainTxs, Occurs, SearchMeans, SendsChain;
    var cfg := s.runs[r].cfg;
    DoneCallsAreInPlace(lim, s, r);
    DoneHasAll(lim, s, r);
    assert FetchesHeight(chain, w, cfg, 0);
    assert Carried(cfg.outcome(0), s.runs[r].l.calls, Before(cfg, LastHeight(cfg) + 1), Before(cfg, 0));
    BeforeGrows(cfg, 1, LastHeight(cfg) + 1);
    SentFromOne(chain, w, lim, s, r, 1);
  }

  /** What is not there first was not sent. */
  lemma OtherFirst(chain: nat -> Block, w: World, calls: seq<Call>, b: Block, a: nat, end: nat)
    requires calls != [] && calls[0] == Sent(0, BlockMsg(b)) && b.height != a && chain(a).height == a && a < end
    ensures !SendsChain(chain, w, calls, 0, a, end)
  {
    if SendsChain(chain, w, calls, 0, a, end) { SendsFirst(chain, w, calls, a, end); }
  }

  lemma SendsFirst(chain: nat -> Block, w: World, calls: seq<Call>, a: nat, end: nat)
    requires SendsChain(chain, w, calls, 0, a, end) && a < end
    ensures calls != [] && calls[0] == Sent(0, BlockMsg(chain(a)))
  {
    assert HeightSent(chain, w, calls, 0 + Place(chain, a, a), a);
  }

  /** End to end: whatever else the system is doing, an uncancelled request that has finished has sent the chain's
      blocks and transactions for its range, in order, numbered 0, 1, 2, ..., and one END, if and only if its range does
      not start at height 0. */
  lemma FinishedRequestSentTheChain(chain: nat -> Block, w: World, lim: Limits, s: System, r: nat)
    requires ValidLimits(lim) && Succeeded(lim, s, r) && FetchesChain(chain, w, s.runs[r].cfg)
    ensures var cfg := s.runs[r].cfg;
            SendsChain(chain, w, s.runs[r].l.calls, 0, cfg.start, LastHeight(cfg) + 1) <==> 1 <= cfg.start
  {
    hide SendsChain, Convertible, Fetches, Occurs;
    var run := s.runs[r];
    if 1 <= run.cfg.start {
      SentFromOne(chain, w, lim, s, r, run.cfg.start);
    } else {
      NewestBlockFirst(chain, w, lim, s, r);
      OtherFirst(chain, w, run.l.calls, run.cfg.outcome(0).block, 0, LastHeight(run.cfg) + 1);
    }
  }

  /** A forwarded Error is what fetching the first height that cannot be fetched gives. */
  lemma ForwardedErrorIsTheFailure(w: World, lim: Limits, s: System, r: nat)
    requires ValidLimits(lim) && Occurs(lim, s) && r < |s.runs| && s.runs[r].l.consumer.Failing?
    requires var cfg := s.runs[r].cfg; forall h :: cfg.start <= h <= LastHeight(cfg) ==> Fetches(w, h, cfg.outcome(h))
    ensures var Failing(h, e) := s.runs[r].l.consumer;
            && FirstFailing(s.runs[r].cfg, h) && Fetches(w, h, Failed(e))
            && s.runs[r].l.written != [] && s.runs[r].l.written[|s.runs[r].l.written| - 1] == Error(e)
            && |s.runs[r].l.written| == Before(s.runs[r].cfg, h) + 1
  {
    hide Fetches, Occurs, Bodies;
    var run := s.runs[r];
    EveryErrorIsTheFirst(lim, s, r);
    BodiesSize(run.cfg, run.l.consumer.h);
  }

  // ---------- polls ----------

  /** Request r of s is a poll. */
  ghost predicate IsPoll(s: System, r: nat, known: nat, max: nat, latest: nat) {
    r < |s.runs| &&
    var hr := Windows.GetLastHeightRange(known, max, latest);
    s.runs[r].cfg.start == hr.start && s.runs[r].cfg.end == hr.end
  }

  /** GetLatest, end to end: a poll that has finished has sent, in order and numbered, the chain from the known height,
      or the newest max + 1 blocks if that is less, up to the newest block, if and only if a height was known or the
      chain is longer than max. */
  lemma FinishedPollSentTheWindow(chain: nat -> Block, w: World, lim: Limits, s: System, r: nat,
                                  known: nat, max: nat, latest: nat)
    requires ValidLimits(lim) && Succeeded(lim, s, r) && FetchesChain(chain, w, s.runs[r].cfg)
    requires IsPoll(s, r, known, max, latest) && latest < TWO_64 && max < TWO_64 && known <= latest
    ensures SendsChain(chain, w, s.runs[r].l.calls, 0, Windows.WindowStart(known, max, latest), latest + 1)
            <==> known >= 1 || max < latest
  {
    hide SendsChain, FetchesHeight, Occurs;
    var run := s.runs[r];
    Windows.WindowIsExact(known, max, latest);
    FinishedRequestSentTheChain(chain, w, lim, s, r);
    if known == 0 && latest < max {
      ShortPoll(chain, w, lim, s, r, max, latest);
      OtherFirst(chain, w, run.l.calls, chain(run.cfg.start), 0, latest + 1);
    }
  }

  /** On a chain shorter than max a first poll starts with a block beyond the chain. */
  lemma ShortPoll(chain: nat -> Block, w: World, lim: Limits, s: System, r: nat, max: nat, latest: nat)
    requires ValidLimits(lim) && Succeeded(lim, s, r) && FetchesChain(chain, w, s.runs[r].cfg)
    requires IsPoll(s, r, 0, max, latest) && latest < max < TWO_64
    ensures s.runs[r].cfg.start > latest
    ensures s.runs[r].l.calls != [] && s.runs[r].l.calls[0] == Sent(0, BlockMsg(chain(s.runs[r].cfg.start)))
  {
    hide FetchesHeight, Occurs;
    var run := s.runs[r];
    Windows.Sub64Exact(latest, max);
    FinishedRequestSentTheChain(chain, w, lim, s, r);
    SendsFirst(chain, w, run.l.calls, run.cfg.start, LastHeight(run.cfg) + 1);
  }

  /** A chain of empty blocks, with its node. */
  ghost function EmptyChain(h: nat): Block { Block("", h, 0, "", 0) }

  ghost function EmptyWorld(latest: nat): World {
    World((h: nat) => None, Node(Ok(EmptyChain(latest)), (h: nat) => Ok(EmptyChain(h))),
          (h: nat) => Pager([], (k: nat) => None), (x: Routed) => Mapped(SubEvent([], "", None), None))
  }

  ghost function PollOfAll(latest: nat): Config {
    Config(0, latest, (h: nat) => Fetched(EmptyChain(if h == 0 then latest else h), []), 5, 201)
  }

  lemma PollOfAllFetches(latest: nat)
    requires 1 <= latest < TWO_64 - 1
    ensures FetchesChain(EmptyChain, EmptyWorld(latest), PollOfAll(latest)) && ValidConfig(PollOfAll(latest))
    ensures AllFetched(PollOfAll(latest), 0, LastHeight(PollOfAll(latest)) + 1)
  {
  }

  /** The failing poll: on a chain of exactly max blocks a first poll gets the range from 0 and has a schedule in which
      it finishes; it has then sent the newest block first. */
  lemma FirstPollOfAllFails(lim: Limits, latest: nat)
    requires ValidLimits(lim) && 1 <= latest < TWO_64 - 1
    ensures exists s, r: nat :: Succeeded(lim, s, r) && s.runs[r].cfg == PollOfAll(latest)
              && IsPoll(s, r, 0, latest, latest) && [Sent(0, BlockMsg(EmptyChain(latest)))] <= s.runs[r].l.calls
  {
    hide Occurs, FetchesChain;
    var cfg := PollOfAll(latest);
    PollOfAllFetches(latest);
    var s := ReachDone(lim, cfg);
    ReachableOccurs(lim, s);
    assert Succeeded(lim, s, 0);
    NewestBlockFirst(EmptyChain, EmptyWorld(latest), lim, s, 0);
    assert [Sent(0, BlockMsg(EmptyChain(latest)))] <= s.runs[0].l.calls;
    Windows.Sub64Exact(latest, latest);
    Windows.Sub64Exact(latest, 0);
    assert IsPoll(s, 0, 0, latest, latest);
  }
}
