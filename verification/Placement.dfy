/**
 Where each response of a request stands, place by place: the block of a height, then its transactions in their own
 order, height after height, up to the first that cannot be fetched, whose Error stands alone.
 */
module Placement {
  import opened Structs
  import opened RangeProtocol
  import opened RangeInvariant
  import opened RangeResults
  import opened SharedPools
  import opened Executions

  /** How many responses a height is worth: its block and one for each transaction. */
  ghost function Size(o: Outcome): nat { match o case Fetched(_, txs) => 1 + |txs| case Failed(_) => 0 }

  /** How many responses come before height h. */
  ghost function Before(cfg: Config, h: nat): nat
    decreases h
  {
    if h <= cfg.start then 0 else Before(cfg, h - 1) + Size(cfg.outcome(h - 1))
  }

  /** The responses of a height with outcome o stand in s from place k on. */
  ghost predicate Stands(o: Outcome, s: seq<Resp>, k: nat) {
    match o
    case Fetched(b, txs) =>
      k + |txs| < |s| && s[k] == BlockMsg(b) && forall i :: 0 <= i < |txs| ==> s[k + 1 + i] == TxMsg(txs[i])
    case Failed(e) => k < |s| && s[k] == Error(e)
  }

  lemma BodyStands(o: Outcome)
    requires o.Fetched?
    ensures |Body(o)| == Size(o) && Stands(o, Body(o), 0)
  {
  }

  lemma StandsAfter(o: Outcome, s: seq<Resp>, t: seq<Resp>, k: nat)
    requires Stands(o, t, k)
    ensures Stands(o, s + t, |s| + k)
  {
    match o
    case Fetched(b, txs) =>
      assert (s + t)[|s| + k] == t[k];
      forall i | 0 <= i < |txs| ensures (s + t)[|s| + k + 1 + i] == TxMsg(txs[i]) {
        assert (s + t)[|s| + k + 1 + i] == t[k + 1 + i];
      }
    case Failed(_) => assert (s + t)[|s| + k] == t[k];
  }

  lemma StandsBefore(o: Outcome, s: seq<Resp>, t: seq<Resp>, k: nat)
    requires Stands(o, s, k)
    ensures Stands(o, s + t, k)
  {
    match o
    case Fetched(b, txs) =>
      forall i | 0 <= i < |txs|
        ensures (s + t)[k + 1 + i] == TxMsg(txs[i]) { assert (s + t)[k + 1 + i] == s[k + 1 + i]; }
    case Failed(_) =>
  }

  /** The bodies of the heights below h stand one after the other. */
  lemma {:induction false} BodiesStand(cfg: Config, h: nat, x: nat)
    requires cfg.start <= x < h && AllFetched(cfg, cfg.start, h)
    ensures |Bodies(cfg, cfg.start, h)| == Before(cfg, h)
    ensures Stands(cfg.outcome(x), Bodies(cfg, cfg.start, h), Before(cfg, x))
    decreases h
  {
    hide Stands, Body;
    var init, last := Bodies(cfg, cfg.start, h - 1), cfg.outcome(h - 1);
    BodiesSize(cfg, h - 1);
    BodyStands(last);
    if x < h - 1 {
      BodiesStand(cfg, h - 1, x);
      StandsBefore(cfg.outcome(x), init, Body(last), Before(cfg, x));
    } else {
      StandsAfter(last, init, Body(last), 0);
    }
  }

  lemma {:induction false} BodiesSize(cfg: Config, h: nat)
    requires AllFetched(cfg, cfg.start, h)
    ensures |Bodies(cfg, cfg.start, h)| == Before(cfg, h)
    decreases h
  {
    if h > cfg.start {
      BodiesSize(cfg, h - 1);
      BodyStands(cfg.outcome(h - 1));
    }
  }

  /** In the listing of a request, every height up to the first that cannot be fetched stands in its place. */
  lemma ListingStands(cfg: Config, h: nat)
    requires cfg.start <= h <= LastHeight(cfg) && AllFetched(cfg, cfg.start, h)
    ensures Stands(cfg.outcome(h), Listing(cfg, cfg.start), Before(cfg, h))
    ensures cfg.outcome(h).Failed? ==> |Listing(cfg, cfg.start)| == Before(cfg, h) + 1
  {
    hide Stands, Bodies, Body;
    var done := Bodies(cfg, cfg.start, h);
    ListingSplit(cfg, cfg.start, h);
    BodiesSize(cfg, h);
    match cfg.outcome(h)
    case Failed(e) => ErrorStands(e); StandsAfter(cfg.outcome(h), done, [Error(e)], 0);
    case Fetched(_, _) =>
      BodyStands(cfg.outcome(h));
      StandsBefore(cfg.outcome(h), Body(cfg.outcome(h)), Listing(cfg, h + 1), 0);
      StandsAfter(cfg.outcome(h), done, Listing(cfg, h), 0);
  }

  lemma ErrorStands(e: string)
    ensures Stands(Failed(e), [Error(e)], 0)
  {
  }

  /** A request whose heights can all be fetched has nothing else in its listing. */
  lemma ListingSize(cfg: Config)
    requires AllFetched(cfg, cfg.start, LastHeight(cfg) + 1)
    ensures |Listing(cfg, cfg.start)| == Before(cfg, LastHeight(cfg) + 1)
  {
    ListingSplit(cfg, cfg.start, LastHeight(cfg) + 1);
    BodiesSize(cfg, LastHeight(cfg) + 1);
  }

  // ---------- the calls of a request ----------

  /** Of the first n calls, those at the places of a height with outcome o, from place k on, carry its responses in
      order, each under the number of its place. */
  ghost predicate Carried(o: Outcome, calls: seq<Call>, n: nat, k: nat)
    requires n <= |calls|
  {
    match o
    case Fetched(b, txs) =>
      && (k < n ==> calls[k] == Sent(k % TWO_64, BlockMsg(b)))
      && (forall i :: 0 <= i < |txs| && k + 1 + i < n ==> calls[k + 1 + i] == Sent((k + 1 + i) % TWO_64, TxMsg(txs[i])))
    case Failed(e) => k < n ==> calls[k] == Sent(k % TWO_64, Error(e))
  }

  lemma NumberedCarries(o: Outcome, s: seq<Resp>, calls: seq<Call>, n: nat, k: nat)
    requires n <= |s| && n <= |calls| && Stands(o, s, k) && calls[..n] == Numbered(s[..n])
    ensures Carried(o, calls, n, k)
  {
    forall i | 0 <= i < n ensures calls[i] == Sent(i % TWO_64, s[i]) {
      assert calls[i] == calls[..n][i] == Numbered(s[..n])[i];
    }
  }

  /** The request has made n numbered calls, and END after them if its sender has ended. */
  ghost predicate Made(l: Local, n: nat) {
    if l.sender.Ended? then |l.calls| == n + 1 && l.calls[n] == End(n % TWO_64) else |l.calls| == n
  }

  /** Every call in its place: in every state that occurs, a request has made some number of calls, and END if its
      sender has ended.  Each carries the response that belongs to its place: for each height, up to the first that
      cannot be fetched, the block and then the transactions in their order, or the Error, which is the last.  An
      uncancelled request that is done has made all of them. */
  lemma EveryCallIsInPlace(lim: Limits, s: System, r: nat) returns (n: nat)
    requires ValidLimits(lim) && Occurs(lim, s) && r < |s.runs|
    ensures var run := s.runs[r];
            && Made(run.l, n)
            && (forall h :: run.cfg.start <= h <= LastHeight(run.cfg) && AllFetched(run.cfg, run.cfg.start, h) ==>
                  Carried(run.cfg.outcome(h), run.l.calls, n, Before(run.cfg, h)))
            && (forall h :: FirstFailing(run.cfg, h) ==> n <= Before(run.cfg, h) + 1)
            && (AllFetched(run.cfg, run.cfg.start, LastHeight(run.cfg) + 1)
                ==> n <= Before(run.cfg, LastHeight(run.cfg) + 1))
            && (run.l.consumer.Done? && !run.l.cancelled ==>
                  && AllFetched(run.cfg, run.cfg.start, LastHeight(run.cfg) + 1)
                  && n == Before(run.cfg, LastHeight(run.cfg) + 1) && run.l.sender.Ended?)
  {
    hide Occurs, Carried, Stands, AllFetched;
    EveryRequestIsSequential(lim, s, r);
    var cfg, l := s.runs[r].cfg, s.runs[r].l;
    var listing := Listing(cfg, cfg.start);
    n := SentCount(l);
    assert l.calls[..n] == Numbered(listing[..n]);
    forall h | cfg.start <= h <= LastHeight(cfg) && AllFetched(cfg, cfg.start, h)
      ensures Carried(cfg.outcome(h), l.calls, n, Before(cfg, h))
    {
      ListingStands(cfg, h);
      NumberedCarries(cfg.outcome(h), listing, l.calls, n, Before(cfg, h));
    }
    forall h | FirstFailing(cfg, h) ensures n <= Before(cfg, h) + 1 { ListingStands(cfg, h); }
    if AllFetched(cfg, cfg.start, LastHeight(cfg) + 1) { ListingSize(cfg); }
    if l.consumer.Done? && !l.cancelled {
      DoneHasAll(lim, s, r);
      ListingSize(cfg);
    }
  }

  lemma DoneHasAll(lim: Limits, s: System, r: nat)
    requires ValidLimits(lim) && Occurs(lim, s) && r < |s.runs| && s.runs[r].l.consumer.Done?
    ensures AllFetched(s.runs[r].cfg, s.runs[r].cfg.start, LastHeight(s.runs[r].cfg) + 1)
  {
    OccursInv(lim, s);
    assert RunOk(s, s.runs[r]);
    SuccessIsComplete(s.runs[r].cfg, PrivateView(s, s.runs[r]));
  }

  /** The calls of a request that is done and was not cancelled: all heights, each in its place, and END. */
  lemma DoneCallsAreInPlace(lim: Limits, s: System, r: nat)
    requires ValidLimits(lim) && Occurs(lim, s) && r < |s.runs|
    requires s.runs[r].l.consumer.Done? && !s.runs[r].l.cancelled
    ensures var cfg, calls := s.runs[r].cfg, s.runs[r].l.calls;
            var n := Before(cfg, LastHeight(cfg) + 1);
            && |calls| == n + 1 && calls[n] == End(n % TWO_64)
            && forall h :: cfg.start <= h <= LastHeight(cfg) ==> Carried(cfg.outcome(h), calls, n, Before(cfg, h))
  {
    hide Occurs, Carried, Before;
    var n := EveryCallIsInPlace(lim, s, r);
    var cfg := s.runs[r].cfg;
    forall h | cfg.start <= h <= LastHeight(cfg) ensures AllFetched(cfg, cfg.start, h) { }
  }

  /** What is written to out stands in the same places. */
  lemma EveryResponseIsInPlace(lim: Limits, s: System, r: nat, h: nat)
    requires ValidLimits(lim) && Occurs(lim, s) && r < |s.runs|
    requires s.runs[r].cfg.start <= h <= LastHeight(s.runs[r].cfg) && AllFetched(s.runs[r].cfg, s.runs[r].cfg.start, h)
    ensures var o, w, k := s.runs[r].cfg.outcome(h), s.runs[r].l.written, Before(s.runs[r].cfg, h);
            match o
            case Fetched(b, txs) =>
              && (k < |w| ==> w[k] == BlockMsg(b))
              && (forall i :: 0 <= i < |txs| && k + 1 + i < |w| ==> w[k + 1 + i] == TxMsg(txs[i]))
            case Failed(e) => (k < |w| ==> w[k] == Error(e)) && |w| <= k + 1
  {
    EveryRequestIsSequential(lim, s, r);
    ListingStands(s.runs[r].cfg, h);
  }
}
