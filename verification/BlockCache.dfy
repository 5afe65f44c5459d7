/**
 The block cache of api/block_cache.go and the read-through path of Client.GetBlock in api/block.go.

 Get is modelled as it is written: it looks up height 0 whatever height it is asked for
 (api/block_cache.go:52).
 */
module BlockCache {
  import opened Structs

  // ---------- a bounded FIFO list of blocks ----------

  ghost predicate HasHeight(q: seq<Block>, h: nat) { exists i :: 0 <= i < |q| && q[i].height == h }

  /** Adding to the bounded list: nothing if the height is there, else append and drop the oldest. */
  ghost function FifoAdd(q: seq<Block>, cap: nat, b: Block): seq<Block>
    requires 1 <= cap
  {
    if HasHeight(q, b.height) then q
    else if |q| < cap then q + [b]
    else q[1..] + [b]
  }

  ghost predicate DistinctHeights(q: seq<Block>) {
    forall i, j :: 0 <= i < j < |q| ==> q[i].height != q[j].height
  }

  /** The map and the queue hold the same blocks, each under its height. */
  ghost predicate Agree(space: map<nat, Block>, q: seq<Block>) {
    && DistinctHeights(q)
    && (forall i :: 0 <= i < |q| ==> q[i].height in space && space[q[i].height] == q[i])
    && (forall h :: h in space ==> HasHeight(q, h))
  }

  lemma AddKeepsDistinct(q: seq<Block>, cap: nat, b: Block)
    requires 1 <= cap && DistinctHeights(q) && |q| <= cap
    ensures DistinctHeights(FifoAdd(q, cap, b)) && |FifoAdd(q, cap, b)| <= cap
  {
  }

  lemma AppendAgrees(space: map<nat, Block>, q: seq<Block>, b: Block)
    requires Agree(space, q) && b.height !in space
    ensures Agree(space[b.height := b], q + [b])
  {
    var q' := q + [b];
    assert q'[|q|] == b;
    forall h | h in space[b.height := b] ensures HasHeight(q', h) {
      if h != b.height {
        var i :| 0 <= i < |q| && q[i].height == h;
        assert q'[i].height == h;
      }
    }
  }

  lemma DropAgrees(space: map<nat, Block>, q: seq<Block>)
    requires Agree(space, q) && q != []
    ensures Agree(space - {q[0].height}, q[1..])
  {
    forall h | h in space && h != q[0].height ensures HasHeight(q[1..], h) {
      var i :| 0 <= i < |q| && q[i].height == h;
      assert q[1..][i - 1].height == h;
    }
  }

  /** The zero value Go returns for a missing key. */
  const NO_BLOCK := Block("", 0, 0, "", 0)

  class SimpleBlockCache {
    var space: map<nat, Block>
    var blocks: seq<Block>
    const cap: nat

    ghost predicate Valid() reads this {
      1 <= cap && |blocks| <= cap && Agree(space, blocks)
    }

    constructor (cap: nat)
      requires 1 <= cap
      ensures Valid() && blocks == [] && this.cap == cap
    {
      this.cap := cap;
      space, blocks := map[], [];
    }

    /** The map and the channel of blocks stay in step with the bounded FIFO list. */
    method Add(bl: Block)
      requires Valid()
      modifies this
      ensures Valid() && blocks == FifoAdd(old(blocks), cap, bl)
    {
      if bl.height in space { return; }
      assert !HasHeight(blocks, bl.height);
      AppendAgrees(space, blocks, bl);
      space := space[bl.height := bl];
      if |blocks| < cap {
        blocks := blocks + [bl];
      } else {
        assert (old(blocks) + [bl])[1..] == old(blocks)[1..] + [bl];
        DropAgrees(space, old(blocks) + [bl]);
        var oldBlock := blocks[0];
        blocks := blocks[1..];
        space := space - {oldBlock.height};
        blocks := blocks + [bl];
      }
    }

    /** Looks up the height of the zero block, not the height it is given. */
    method Get(height: nat) returns (bl: Block, ok: bool)
      requires Valid()
      ensures ok <==> HasHeight(blocks, 0)
      ensures ok ==> bl in blocks && bl.height == 0
      ensures !ok ==> bl == NO_BLOCK
    {
      bl := NO_BLOCK;
      ok := bl.height in space;
      if ok { bl := space[bl.height]; }
    }
  }

  // ---------- the cache over a whole history of Adds ----------

  ghost function AddAll(q: seq<Block>, cap: nat, bs: seq<Block>): seq<Block>
    requires 1 <= cap
  {
    if bs == [] then q else FifoAdd(AddAll(q, cap, bs[..|bs| - 1]), cap, bs[|bs| - 1])
  }

  ghost function LastOf(s: seq<Block>, n: nat): seq<Block> {
    if |s| <= n then s else s[|s| - n..]
  }

  /** Every block that was ever let in, oldest first: those whose height was not among the last cap let in. */
  ghost function Admitted(cap: nat, bs: seq<Block>): seq<Block> {
    if bs == [] then []
    else
      var before := Admitted(cap, bs[..|bs| - 1]);
      if HasHeight(LastOf(before, cap), bs[|bs| - 1].height) then before else before + [bs[|bs| - 1]]
  }

  /** After any sequence of Adds the cache holds the last cap blocks that were let in, in that order. */
  lemma {:induction false} CacheIsLastAdmitted(cap: nat, bs: seq<Block>)
    requires 1 <= cap
    ensures AddAll([], cap, bs) == LastOf(Admitted(cap, bs), cap)
    ensures DistinctHeights(AddAll([], cap, bs)) && |AddAll([], cap, bs)| <= cap
  {
    if bs != [] {
      var init, b := bs[..|bs| - 1], bs[|bs| - 1];
      CacheIsLastAdmitted(cap, init);
      AddKeepsDistinct(AddAll([], cap, init), cap, b);
      if !HasHeight(LastOf(Admitted(cap, init), cap), b.height) { LastOfAppend(Admitted(cap, init), cap, b); }
    }
  }

  /** Adding to the last cap elements is taking the last cap elements after adding. */
  lemma LastOfAppend(s: seq<Block>, cap: nat, b: Block)
    requires 1 <= cap && !HasHeight(LastOf(s, cap), b.height)
    ensures FifoAdd(LastOf(s, cap), cap, b) == LastOf(s + [b], cap)
  {
  }

  // ---------- GetBlock ----------

  /** What the node answers: its latest block, and its block at each height. */
  datatype Node = Node(latest: Result<Block>, at: nat -> Result<Block>)

  /** The chain does not change and has no block at height 0; the node answers with blocks of the chain. */
  ghost predicate Honest(chain: nat -> Block, node: Node) {
    && (forall h: nat :: chain(h).height == h)
    && (node.latest.Ok? ==> node.latest.value.height >= 1 && node.latest.value == chain(node.latest.value.height))
    && (forall h: nat :: h >= 1 && node.at(h).Ok? ==> node.at(h).value == chain(h))
  }

  ghost predicate HoldsChainBlocks(chain: nat -> Block, q: seq<Block>) {
    forall i :: 0 <= i < |q| ==> q[i].height >= 1 && q[i] == chain(q[i].height)
  }

  class Client {
    const sbc: SimpleBlockCache

    constructor (sbc: SimpleBlockCache)
      ensures this.sbc == sbc
    {
      this.sbc := sbc;
    }

    /** The block comes from the cache only if a block of height 0 is cached; otherwise it is the node's
        answer, and a successful answer is added to the cache.  limiter is the rate limiter's error, if any. */
    method GetBlock(height: nat, limiter: Option<string>, node: Node) returns (r: Result<Block>)
      requires sbc.Valid()
      modifies sbc
      ensures sbc.Valid()
      ensures var hit := height != 0 && HasHeight(old(sbc.blocks), 0);
              && (hit ==> r.Ok? && r.value.height == 0 && r.value in old(sbc.blocks) && sbc.blocks == old(sbc.blocks))
              && (!hit && limiter.Some? ==> r == Err(limiter.value))
              && (!hit && limiter.None? ==> r == if height == 0 then node.latest else node.at(height))
              && (!hit ==> sbc.blocks == if r.Ok? then FifoAdd(old(sbc.blocks), sbc.cap, r.value) else old(sbc.blocks))
    {
      if height != 0 {
        var block, ok := sbc.Get(height);
        if ok { return Ok(block); }
      }
      if limiter.Some? { return Err(limiter.value); }
      if height == 0 {
        r := node.latest;
      } else {
        r := node.at(height);
      }
      if r.Ok? { sbc.Add(r.value); }
    }
  }

  lemma AddKeepsChainBlocks(chain: nat -> Block, q: seq<Block>, cap: nat, b: Block)
    requires 1 <= cap && HoldsChainBlocks(chain, q) && b.height >= 1 && b == chain(b.height)
    ensures HoldsChainBlocks(chain, FifoAdd(q, cap, b)) && !HasHeight(FifoAdd(q, cap, b), 0)
  {
  }

  /** Whatever blocks of the chain concurrent calls add, and in whatever order, every entry is the chain's
      block at its height and no lookup hits, so GetBlock always returns the node's answer. */
  lemma {:induction false} HistoryIsTransparent(chain: nat -> Block, cap: nat, bs: seq<Block>)
    requires 1 <= cap && forall i :: 0 <= i < |bs| ==> bs[i].height >= 1 && bs[i] == chain(bs[i].height)
    ensures HoldsChainBlocks(chain, AddAll([], cap, bs)) && !HasHeight(AddAll([], cap, bs), 0)
  {
    if bs != [] {
      HistoryIsTransparent(chain, cap, bs[..|bs| - 1]);
      AddKeepsChainBlocks(chain, AddAll([], cap, bs[..|bs| - 1]), cap, bs[|bs| - 1]);
    }
  }

  lemma NothingAtZero(chain: nat -> Block, q: seq<Block>)
    requires HoldsChainBlocks(chain, q)
    ensures !HasHeight(q, 0)
  {
  }

  lemma NodeIsChain(chain: nat -> Block, height: nat, node: Node, r: Result<Block>)
    requires Honest(chain, node) && r.Ok? && r == if height == 0 then node.latest else node.at(height)
    ensures r.value.height >= 1 && r.value == chain(r.value.height) && (height >= 1 ==> r.value == chain(height))
  {
  }

  /** Read-through transparency: over any history of calls, latest or by height, in which the node may answer
      differently each time (the chain grows, blocks appear, requests and the limiter fail), each call returns the
      limiter's error or the node's present answer, and for each height h >= 1 a success is the chain's block at h. */
  method GetBlocks(ghost chain: nat -> Block, client: Client, heights: seq<nat>, limiter: seq<Option<string>>,
                   nodes: seq<Node>)
    returns (rs: seq<Result<Block>>)
    requires |nodes| == |limiter| == |heights| && client.sbc.Valid() && HoldsChainBlocks(chain, client.sbc.blocks)
    requires forall i :: 0 <= i < |nodes| ==> Honest(chain, nodes[i])
    modifies client.sbc
    ensures client.sbc.Valid() && HoldsChainBlocks(chain, client.sbc.blocks)
    ensures |rs| == |heights|
    ensures forall i :: 0 <= i < |heights| && limiter[i].Some? ==> rs[i] == Err(limiter[i].value)
    ensures forall i :: 0 <= i < |heights| && limiter[i].None? ==>
              rs[i] == if heights[i] == 0 then nodes[i].latest else nodes[i].at(heights[i])
    ensures forall i :: 0 <= i < |heights| && heights[i] >= 1 && rs[i].Ok? ==> rs[i].value == chain(heights[i])
    ensures forall i :: 0 <= i < |heights| && rs[i].Ok? ==> rs[i].value == chain(rs[i].value.height)
  {
    hide HasHeight, FifoAdd, HoldsChainBlocks, Honest, Agree;
    rs := [];
    var i := 0;
    while i < |heights|
      invariant 0 <= i <= |heights| && |rs| == i
      invariant client.sbc.Valid() && HoldsChainBlocks(chain, client.sbc.blocks)
      invariant forall j :: 0 <= j < i && limiter[j].Some? ==> rs[j] == Err(limiter[j].value)
      invariant forall j :: 0 <= j < i && limiter[j].None? ==>
                  rs[j] == if heights[j] == 0 then nodes[j].latest else nodes[j].at(heights[j])
      invariant forall j :: 0 <= j < i && heights[j] >= 1 && rs[j].Ok? ==> rs[j].value == chain(heights[j])
      invariant forall j :: 0 <= j < i && rs[j].Ok? ==> rs[j].value == chain(rs[j].value.height)
    {
      ghost var before := client.sbc.blocks;
      NothingAtZero(chain, before);
      var r := client.GetBlock(heights[i], limiter[i], nodes[i]);
      if r.Ok? {
        NodeIsChain(chain, heights[i], nodes[i], r);
        AddKeepsChainBlocks(chain, before, client.sbc.cap, r.value);
      }
      rs := rs + [r];
      i := i + 1;
    }
  }

  /** The lookup the comment on Get describes. */
  ghost predicate Finds(q: seq<Block>, height: nat, bl: Block, ok: bool) {
    (ok <==> HasHeight(q, height)) && (ok ==> bl in q && bl.height == height)
  }

  /** Get answers as its comment says exactly when it is asked for height 0, or when neither that height
      nor height 0 is cached. */
  lemma GetIsLookup(q: seq<Block>, height: nat, bl: Block, ok: bool)
    requires DistinctHeights(q) && Finds(q, 0, bl, ok)
    ensures Finds(q, height, bl, ok) <==> height == 0 || (!HasHeight(q, height) && !HasHeight(q, 0))
  {
  }

  /** Caching a block of height 0 would make every later request by height return a block of height 0, whatever the
      cache holds and whatever the limiter and the node say. */
  method WrongBlock(client: Client, zero: Block, height: nat, limiter: Option<string>, node: Node)
    returns (r: Result<Block>)
    requires client.sbc.Valid() && zero.height == 0 && height >= 1
    modifies client.sbc
    ensures r.Ok? && r.value.height == 0 && (!HasHeight(old(client.sbc.blocks), 0) ==> r.value == zero)
  {
    ghost var before := client.sbc.blocks;
    client.sbc.Add(zero);
    AddedIsThere(before, client.sbc.cap, zero);
    r := client.GetBlock(height, limiter, node);
    OnlyOneAtZero(before, client.sbc.cap, zero, r.value);
  }

  lemma AddedOrOld(q: seq<Block>, cap: nat, b: Block, found: Block)
    requires 1 <= cap && found in FifoAdd(q, cap, b)
    ensures found == b || found in q
  {
  }

  lemma OnlyOneAtZero(q: seq<Block>, cap: nat, b: Block, found: Block)
    requires 1 <= cap && found in FifoAdd(q, cap, b) && found.height == b.height
    ensures !HasHeight(q, b.height) ==> found == b
  {
    AddedOrOld(q, cap, b, found);
  }

  /** On any cache of chain blocks Get misses a block that was just added, and that the cache holds. */
  method CachedBlockIsMissed(ghost chain: nat -> Block, sbc: SimpleBlockCache, b: Block) returns (bl: Block, ok: bool)
    requires sbc.Valid() && HoldsChainBlocks(chain, sbc.blocks) && b.height >= 1 && b == chain(b.height)
    modifies sbc
    ensures HasHeight(sbc.blocks, b.height) && !ok && !Finds(sbc.blocks, b.height, bl, ok)
  {
    ghost var before := sbc.blocks;
    sbc.Add(b);
    AddKeepsChainBlocks(chain, before, sbc.cap, b);
    AddedIsThere(before, sbc.cap, b);
    bl, ok := sbc.Get(b.height);
  }

  lemma AddedIsThere(q: seq<Block>, cap: nat, b: Block)
    requires 1 <= cap
    ensures HasHeight(FifoAdd(q, cap, b), b.height)
  {
    var q' := FifoAdd(q, cap, b);
    if !HasHeight(q, b.height) { assert q'[|q'| - 1] == b; }
  }

  // ---------- GetBlock over the lookup that the comment describes ----------

  /** One call: what was asked, what the limiter and the node said, the result, and the cache before and after. */
  datatype Lookup = Lookup(height: nat, limiter: Option<string>, node: Node, r: Result<Block>, before: seq<Block>,
                           after: seq<Block>)

  /** The limiter's error if it has one, else the answer of the node. */
  function Asked(c: Lookup): Result<Block> {
    if c.limiter.Some? then Err(c.limiter.value) else if c.height == 0 then c.node.latest else c.node.at(c.height)
  }

  /** GetBlock with a Get that finds the height it is given. */
  ghost predicate ReadThrough(cap: nat, c: Lookup)
    requires 1 <= cap
  {
    if c.height != 0 && HasHeight(c.before, c.height) then
      c.r.Ok? && Finds(c.before, c.height, c.r.value, true) && c.after == c.before
    else
      && c.r == Asked(c)
      && c.after == if c.r.Ok? then FifoAdd(c.before, cap, c.r.value) else c.before
  }

  /** A history of such calls on one cache, which starts empty. */
  ghost predicate ReadThroughs(cap: nat, cs: seq<Lookup>)
    requires 1 <= cap
  {
    && (forall i :: 0 <= i < |cs| ==> ReadThrough(cap, cs[i]))
    && (cs != [] ==> cs[0].before == []) && (forall i :: 1 <= i < |cs| ==> cs[i].before == cs[i - 1].after)
  }

  lemma ReadThroughKeeps(chain: nat -> Block, cap: nat, c: Lookup)
    requires 1 <= cap && ReadThrough(cap, c) && Honest(chain, c.node) && HoldsChainBlocks(chain, c.before)
    ensures HoldsChainBlocks(chain, c.after)
    ensures c.r.Ok? ==> c.r.value == chain(c.r.value.height) && (c.height >= 1 ==> c.r.value == chain(c.height))
  {
    if c.height != 0 && HasHeight(c.before, c.height) {
      var i :| 0 <= i < |c.before| && c.before[i] == c.r.value;
      assert c.before[i] == chain(c.before[i].height);
    } else if c.r.Ok? {
      AddKeepsChainBlocks(chain, c.before, cap, c.r.value);
    }
  }

  /** Transparency of the lookup as described, where hits do occur: over any history of calls on honest nodes of one
      chain, the cache holds chain blocks only, a call whose height is cached succeeds whatever the limiter and the
      node say, and every success by height is the chain's block at that height. */
  lemma {:induction false} ReadThroughIsTransparent(chain: nat -> Block, cap: nat, cs: seq<Lookup>, n: nat)
    requires 1 <= cap && ReadThroughs(cap, cs) && n < |cs| && forall i :: 0 <= i < |cs| ==> Honest(chain, cs[i].node)
    ensures HoldsChainBlocks(chain, cs[n].before) && HoldsChainBlocks(chain, cs[n].after)
    ensures cs[n].height >= 1 && HasHeight(cs[n].before, cs[n].height) ==> cs[n].r == Ok(chain(cs[n].height))
    ensures cs[n].r.Ok? && cs[n].height >= 1 ==> cs[n].r.value == chain(cs[n].height)
    ensures !HasHeight(cs[n].before, cs[n].height) ==> cs[n].r == Asked(cs[n])
  {
    hide Honest, HoldsChainBlocks, HasHeight, FifoAdd;
    if n > 0 { ReadThroughIsTransparent(chain, cap, cs, n - 1); } else { EmptyHolds(chain); assert cs[n].before == []; }
    assert Honest(chain, cs[n].node) && ReadThrough(cap, cs[n]);
    ReadThroughKeeps(chain, cap, cs[n]);
  }

  lemma EmptyHolds(chain: nat -> Block)
    ensures HoldsChainBlocks(chain, [])
  {
  }
}
