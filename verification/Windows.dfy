/**
 The uint64 arithmetic that turns a poll into a range of heights (getLastHeightRange), the heights the
 producer then emits (populateRange), and what a series of polls covers.
 */
module Windows {
  import opened Structs
  import RangeProtocol
  import RangeInvariant

  datatype HeightRange = HeightRange(start: nat, end: nat)

  /** Subtraction in uint64. */
  function Sub64(a: nat, b: nat): nat { (a - b) % TWO_64 }

  function GetLastHeightRange(known: nat, max: nat, latest: nat): HeightRange {
    if known == 0 && Sub64(latest, max) > 0 then HeightRange(Sub64(latest, max), latest)
    else if max < Sub64(latest, known) then HeightRange(Sub64(latest, max), latest)
    else HeightRange(known, latest)
  }

  function Larger(a: nat, b: nat): nat { if a < b then b else a }

  lemma Sub64Exact(a: nat, b: nat)
    requires a < TWO_64 && b < TWO_64
    ensures Sub64(a, b) == if b <= a then a - b else TWO_64 + a - b
  {
  }

  /** The first height of the window that is meant: the known height, or the first of the newest max + 1. */
  function WindowStart(known: nat, max: nat, latest: nat): nat {
    Larger(known, if max <= latest then latest - max else 0)
  }

  /** The window is the one that is meant exactly unless nothing is known on a chain shorter than max. */
  lemma WindowIsExact(known: nat, max: nat, latest: nat)
    requires latest < TWO_64 && max < TWO_64 && known <= latest
    ensures GetLastHeightRange(known, max, latest) == HeightRange(WindowStart(known, max, latest), latest)
            <==> known >= 1 || max <= latest
  {
    Sub64Exact(latest, max);
    Sub64Exact(latest, known);
  }

  /** The window for all inputs, over the integers. */
  lemma WindowValue(known: nat, max: nat, latest: nat)
    requires known < TWO_64 && max < TWO_64 && latest < TWO_64
    ensures var w := GetLastHeightRange(known, max, latest);
            var first := if max <= latest then latest - max else TWO_64 - (max - latest);
            && w.end == latest
            && w.start == if known == 0 then first
                          else if known <= latest then (if max < latest - known then first else known)
                          else if max < TWO_64 - (known - latest) then first
                          else known
  {
    Sub64Exact(latest, max);
    Sub64Exact(latest, known);
  }

  /** For all inputs: the window is a range exactly when nothing was known and the chain is long enough,
      or the known height is not ahead of the chain, or it is so far ahead that the difference wraps above max
      while max itself fits. */
  lemma WindowIsRange(known: nat, max: nat, latest: nat)
    requires known < TWO_64 && max < TWO_64 && latest < TWO_64
    ensures var w := GetLastHeightRange(known, max, latest);
            w.start <= w.end <==>
              || (known == 0 && max <= latest)
              || (0 < known <= latest)
              || (latest < known && max <= latest && max < TWO_64 + latest - known)
  {
    Sub64Exact(latest, max);
    Sub64Exact(latest, known);
  }

  // ---------- the heights the producer emits ----------

  /** The heights a, a+1, ..., b. */
  function Heights(a: nat, b: nat): seq<nat>
  {
    if b < a then [] else seq(b - a + 1, i => a + i)
  }

  /** The heights of a range in the order of the producer: the start height is always there, even when it is beyond the
      end, and a start at the largest uint64 wraps and goes on from 0. */
  function Emitted(hr: HeightRange): seq<nat> {
    if hr.start == TWO_64 - 1 then [hr.start] + Heights(0, hr.end) else Heights(hr.start, Larger(hr.start, hr.end))
  }

  lemma EmittedFirst(hr: HeightRange)
    requires hr.start < TWO_64
    ensures |Emitted(hr)| > 0 && Emitted(hr)[0] == hr.start
  {
  }

  /** The height after one that is sent is the next to be sent, until it is beyond the end. */
  lemma EmittedNext(hr: HeightRange, n: nat)
    requires hr.start < TWO_64 && hr.end < TWO_64 - 1 && n < |Emitted(hr)|
    ensures var next := (Emitted(hr)[n] + 1) % TWO_64;
            if next > hr.end then n + 1 == |Emitted(hr)| else n + 1 < |Emitted(hr)| && Emitted(hr)[n + 1] == next
  {
    if hr.start == TWO_64 - 1 && n > 0 { assert Emitted(hr)[n] == Heights(0, hr.end)[n - 1] == n - 1; }
  }

  /** populateRange without an error signal: what it sends to the ordering channel and to the work channel. */
  method PopulateRange(hr: HeightRange) returns (ordering: seq<nat>, work: seq<nat>)
    requires hr.start < TWO_64 && hr.end < TWO_64 - 1
    ensures ordering == work == Emitted(hr)
  {
    var height := hr.start;
    ordering, work := [], [];
    ghost var all := Emitted(hr);
    EmittedFirst(hr);
    hide Emitted;
    while true
      invariant |ordering| < |all| && ordering == work == all[..|ordering|] && height == all[|ordering|]
      decreases |all| - |ordering|
    {
      EmittedNext(hr, |ordering|);
      assert all[..|ordering| + 1] == all[..|ordering|] + [height];
      ordering := ordering + [height];
      work := work + [height];
      height := (height + 1) % TWO_64;
      if height > hr.end { break; }
    }
  }

  /** What the producer of the step system sends from height h on when it is left alone. */
  ghost function SentFrom(cfg: RangeProtocol.Config, h: nat): seq<nat>
    requires RangeProtocol.ValidConfig(cfg) && h <= RangeProtocol.LastHeight(cfg)
    decreases RangeProtocol.LastHeight(cfg) - h
  {
    var next := RangeProtocol.AfterHeight(cfg, h);
    [h] + if next.Getting? then SentFrom(cfg, next.h) else []
  }

  lemma HeightsCons(a: nat, b: nat)
    requires a <= b
    ensures Heights(a, b) == [a] + Heights(a + 1, b) && Heights(b + 1, b) == []
  {
  }

  lemma {:induction false} SentFromIs(cfg: RangeProtocol.Config, h: nat)
    requires RangeProtocol.ValidConfig(cfg) && cfg.start <= h <= RangeProtocol.LastHeight(cfg)
    ensures SentFrom(cfg, h) == Heights(h, RangeProtocol.LastHeight(cfg))
    decreases RangeProtocol.LastHeight(cfg) - h
  {
    hide Heights, RangeProtocol.AfterHeight;
    RangeInvariant.HeightStep(cfg, h);
    HeightsCons(h, RangeProtocol.LastHeight(cfg));
    if h < RangeProtocol.LastHeight(cfg) { SentFromIs(cfg, h + 1); }
  }

  /** The loop and the producer of the step system, which also takes the error signal, send the same heights. */
  lemma SameProducer(cfg: RangeProtocol.Config)
    requires RangeProtocol.ValidConfig(cfg)
    ensures SentFrom(cfg, cfg.start) == Emitted(HeightRange(cfg.start, cfg.end))
  {
    SentFromIs(cfg, cfg.start);
  }

  /** The height after n rounds of the producer's loop, if it has not stopped. */
  function After(start: nat, n: nat): nat { (start + n) % TWO_64 }

  /** The loop stops at some round exactly when the end is below the largest uint64. */
  lemma ProducerStopsIff(start: nat, end: nat)
    requires start < TWO_64 && end < TWO_64
    ensures (exists n: nat :: n >= 1 && After(start, n) > end) <==> end < TWO_64 - 1
  {
    if end < TWO_64 - 1 {
      var n := if start < TWO_64 - 1 then TWO_64 - 1 - start else TWO_64;
      assert start + n == TWO_64 - 1 || start + n == 2 * TWO_64 - 1;
      assert After(start, n) == TWO_64 - 1;
    }
  }

  /** A poll enqueues at most max + 1 heights, the last of them the newest block. */
  method PollHeights(known: nat, max: nat, latest: nat) returns (ordering: seq<nat>)
    requires latest < TWO_64 - 1 && max < TWO_64 && known <= latest && (known >= 1 || max <= latest)
    ensures 1 <= |ordering| <= max + 1
    ensures ordering[|ordering| - 1] == latest
    ensures forall i :: 0 <= i < |ordering| ==> ordering[i] == latest + 1 - |ordering| + i && known <= ordering[i]
    ensures ordering[0] == known || |ordering| == max + 1
  {
    WindowIsExact(known, max, latest);
    var work;
    ordering, work := PopulateRange(GetLastHeightRange(known, max, latest));
  }

  /** On a chain shorter than max a first poll asks for one height, and that height does not exist; if max is just one
      more than the newest height, the poll then wraps and asks for height 0 and the whole chain. */
  method ShortChainPoll(max: nat, latest: nat) returns (ordering: seq<nat>)
    requires latest < max < TWO_64
    ensures latest + 1 < max ==> |ordering| == 1 && ordering[0] == TWO_64 + latest - max > latest
    ensures latest + 1 == max ==> ordering == [TWO_64 - 1] + Heights(0, latest)
  {
    Sub64Exact(latest, max);
    Sub64Exact(latest, 0);
    var work;
    ordering, work := PopulateRange(GetLastHeightRange(0, max, latest));
  }

  // ---------- a series of polls ----------

  /** Poll i, in which the known height is the newest height of poll i-1. */
  function Window(max: nat, latest: seq<nat>, i: nat): HeightRange
    requires i < |latest|
  {
    GetLastHeightRange(if i == 0 then 0 else latest[i - 1], max, latest[i])
  }

  ghost predicate Requested(max: nat, latest: seq<nat>, h: nat) {
    exists i: nat :: i < |latest| && InWindow(max, latest, i, h)
  }

  predicate InWindow(max: nat, latest: seq<nat>, i: nat, h: nat)
    requires i < |latest|
  {
    Window(max, latest, i).start <= h <= Window(max, latest, i).end
  }

  /** The chain only grows, and reached max before the first poll. */
  ghost predicate GrowingChain(max: nat, latest: seq<nat>) {
    && latest != [] && max <= latest[0]
    && (forall i :: 0 <= i < |latest| ==> latest[i] < TWO_64)
    && (forall i, j :: 0 <= i < j < |latest| ==> latest[i] <= latest[j])
  }

  lemma WindowOf(max: nat, latest: seq<nat>, i: nat)
    requires GrowingChain(max, latest) && i < |latest|
    ensures Window(max, latest, i).end == latest[i]
    ensures Window(max, latest, i).start == Larger(if i == 0 then 0 else latest[i - 1], latest[i] - max)
  {
    WindowIsExact(if i == 0 then 0 else latest[i - 1], max, latest[i]);
  }

  ghost predicate SmallSteps(max: nat, latest: seq<nat>) {
    forall i :: 1 <= i < |latest| ==> latest[i] - latest[i - 1] <= max + 1
  }

  lemma {:induction false} CoveredUpTo(max: nat, latest: seq<nat>, n: nat, h: nat)
    requires GrowingChain(max, latest) && SmallSteps(max, latest) && n < |latest|
    requires latest[0] - max <= h <= latest[n]
    ensures Requested(max, latest, h)
  {
    WindowOf(max, latest, n);
    if InWindow(max, latest, n, h) {
    } else {
      assert n > 0;
      CoveredUpTo(max, latest, n - 1, h);
    }
  }

  lemma GapIsMissed(max: nat, latest: seq<nat>, i: nat)
    requires GrowingChain(max, latest) && 1 <= i < |latest| && latest[i] - latest[i - 1] > max + 1
    ensures latest[0] - max <= latest[i - 1] + 1 <= latest[|latest| - 1]
    ensures !Requested(max, latest, latest[i - 1] + 1)
  {
    var h := latest[i - 1] + 1;
    forall j: nat | j < |latest| ensures !InWindow(max, latest, j, h) { WindowOf(max, latest, j); }
  }

  /** Gap-free polling: the polls together ask for every height from the first window to the newest block,
      and for nothing else, exactly when the chain never grows by more than max + 1 between two polls. */
  lemma PollingIsGapFree(max: nat, latest: seq<nat>)
    requires GrowingChain(max, latest)
    ensures forall h :: Requested(max, latest, h) ==> latest[0] - max <= h <= latest[|latest| - 1]
    ensures (forall h: nat :: latest[0] - max <= h <= latest[|latest| - 1] ==> Requested(max, latest, h))
            <==> SmallSteps(max, latest)
  {
    hide Requested;
    forall h: nat | Requested(max, latest, h) ensures latest[0] - max <= h <= latest[|latest| - 1] {
      RequestedInRange(max, latest, h);
    }
    if SmallSteps(max, latest) {
      forall h: nat | latest[0] - max <= h <= latest[|latest| - 1] ensures Requested(max, latest, h) {
        CoveredUpTo(max, latest, |latest| - 1, h);
      }
    } else {
      var i :| 1 <= i < |latest| && latest[i] - latest[i - 1] > max + 1;
      GapIsMissed(max, latest, i);
    }
  }

  lemma RequestedInRange(max: nat, latest: seq<nat>, h: nat)
    requires GrowingChain(max, latest) && Requested(max, latest, h)
    ensures latest[0] - max <= h <= latest[|latest| - 1]
  {
    hide Window, GetLastHeightRange;
    var i: nat :| i < |latest| && InWindow(max, latest, i, h);
    WindowOf(max, latest, i);
    assert latest[0] <= latest[i] <= latest[|latest| - 1];
  }
}
