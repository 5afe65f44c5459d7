/**
 What every reachable state of a run satisfies, and that every action keeps it.

 The invariant has four parts: Ownership (each live height holds its own open channel),
 Queues (the order in which workers take heights), Delivery (what the sender has been given
 and has sent) and, until the error signal is raised, Reassembly (where every message of
 every height is).
 */
module RangeInvariant {
  import opened Structs
  import opened RangeProtocol

  // ---------- positions of the goroutines ----------

  /** Heights below this were sent to the ordering channel. */
  ghost function OrderedTo(cfg: Config, p: Producer): nat {
    match p
    case Getting(h) => h
    case Ordering(item) => if item.Item? then item.h else 0
    case Working(item) => if item.Item? then item.h + 1 else 0
    case _ => LastHeight(cfg) + 1
  }

  /** Heights below this were sent to the work channel. */
  ghost function QueuedTo(cfg: Config, p: Producer): nat {
    match p
    case Getting(h) => h
    case Ordering(item) => if item.Item? then item.h else 0
    case Working(item) => if item.Item? then item.h else 0
    case _ => LastHeight(cfg) + 1
  }

  /** Heights below this have been given a response channel. */
  ghost function AcquiredTo(cfg: Config, p: Producer): nat {
    match p
    case Getting(h) => h
    case Ordering(item) => if item.Item? then item.h + 1 else 0
    case Working(item) => if item.Item? then item.h + 1 else 0
    case _ => LastHeight(cfg) + 1
  }

  ghost predicate PastLast(k: Consumer) {
    k.Releasing? || k.Returned? || k.Awaiting? || k.Done?
  }

  /** Heights below this are delivered in full and have given their channel back. */
  ghost function Base(cfg: Config, k: Consumer): nat {
    match k
    case Waiting(n) => n
    case Reading(h, _, _) => h
    case Holding(h, _, _, _) => h
    case Putting(h, _) => h
    case Signalling(h, _) => h
    case FailForward(h, _) => h
    case Failing(h, _) => h
    case _ => LastHeight(cfg) + 1
  }

  /** Heights below this were received from the ordering channel. */
  ghost function ReceivedTo(cfg: Config, k: Consumer): nat {
    if k.Waiting? || PastLast(k) then Base(cfg, k) else Base(cfg, k) + 1
  }

  /** How many messages of height h the consumer has read. */
  ghost function Got(cfg: Config, k: Consumer, h: nat): nat {
    match k
    case Reading(h', _, got) => if h == h' then got else 0
    case Holding(h', _, got, _) => if h == h' then got else 0
    case Putting(h', _) => if h == h' then |Msgs(cfg, h)| else 0
    case Signalling(h', _) => if h == h' then |Msgs(cfg, h)| else 0
    case _ => 0
  }

  /** The error signal has not been raised. */
  ghost predicate Active(k: Consumer) { !k.FailForward? && !k.Failing? }

  // ---------- the invariant, piece by piece ----------

  ghost predicate OpenChannel(m: map<ChanId, Chan<Resp>>, c: ChanId) {
    c in m && !m[c].closed && |m[c].buf| <= m[c].cap
  }

  /** Every live height, from the one being consumed on, holds an open channel of its own. */
  ghost predicate Ownership(base: nat, acquired: nat, owned: map<nat, ChanId>, resp: map<ChanId, Chan<Resp>>) {
    && (forall h :: h in owned ==> base <= h < acquired && OpenChannel(resp, owned[h]))
    && (forall h, h' :: h in owned && h' in owned && h != h' ==> owned[h] != owned[h'])
  }

  ghost predicate Ref(owned: map<nat, ChanId>, h: nat, ch: ChanId) {
    h in owned && owned[h] == ch
  }

  ghost predicate ItemsRef(owned: map<nat, ChanId>, items: seq<Item>) {
    forall i :: 0 <= i < |items| ==> items[i].Last? || Ref(owned, items[i].h, items[i].ch)
  }

  ghost predicate WorkerRef(owned: map<nat, ChanId>, k: Worker) {
    && (k.Fetching? ==> Ref(owned, k.h, k.ch))
    && (k.Sending? ==> Ref(owned, k.h, k.ch))
  }

  ghost predicate WorkersRef(owned: map<nat, ChanId>, workers: seq<Worker>) {
    forall w :: 0 <= w < |workers| ==> WorkerRef(owned, workers[w])
  }

  ghost predicate ConsumerRef(owned: map<nat, ChanId>, k: Consumer) {
    && (k.Reading? ==> Ref(owned, k.h, k.ch))
    && (k.Holding? ==> Ref(owned, k.h, k.ch))
    && (k.Putting? ==> Ref(owned, k.h, k.ch))
  }

  ghost predicate ProducerOk(cfg: Config, owned: map<nat, ChanId>, p: Producer) {
    match p
    case Getting(h) => cfg.start <= h <= LastHeight(cfg)
    case Ordering(item) => item.Item? && Ref(owned, item.h, item.ch) && cfg.start <= item.h <= LastHeight(cfg)
    case Working(item) => item.Item? && Ref(owned, item.h, item.ch) && cfg.start <= item.h <= LastHeight(cfg)
    case _ => true
  }

  ghost predicate ChannelsOk(stopped: bool, ord: Chan<Item>, work: Chan<Item>) {
    && !ord.closed && 1 <= ord.cap && |ord.buf| <= ord.cap
    && (work.closed <==> stopped) && 1 <= work.cap
  }

  /** The work channel holds ascending heights that no worker has taken. */
  ghost predicate WorkQueue(start: nat, taken: nat, queued: nat, items: seq<Item>) {
    && start <= taken <= queued
    && (forall i :: 0 <= i < |items| ==> items[i].Item? && taken <= items[i].h < queued)
    && (forall i, j :: 0 <= i < j < |items| ==> items[i].Item? && items[j].Item? && items[i].h < items[j].h)
  }

  /** Every height sent to the work channel and not taken is in it. */
  ghost predicate Covers(taken: nat, queued: nat, spent: Spent, items: seq<Item>) {
    forall z :: taken <= z < queued && spent != OnWork(z) ==> Queued(items, z)
  }

  ghost predicate Queued(items: seq<Item>, z: nat) {
    exists i :: 0 <= i < |items| && items[i].Item? && items[i].h == z
  }

  /** The height a worker is on, or died on. */
  ghost function WorkerHeight(k: Worker): Option<nat> {
    match k
    case Idle => None
    case Fetching(h, _) => Some(h)
    case Sending(h, _, _) => Some(h)
    case Returning(h) => Some(h)
    case Exited(cause) => cause
  }

  ghost predicate OnHeight(workers: seq<Worker>, z: nat) {
    exists w :: 0 <= w < |workers| && WorkerHeight(workers[w]) == Some(z)
  }

  /** A height that the signal kept from the work channel is in no worker's hands. */
  ghost predicate Skipped(spent: Spent, items: seq<Item>, workers: seq<Worker>) {
    spent.OnWork? ==> !Queued(items, spent.h) && !OnHeight(workers, spent.h)
  }

  /** A worker that takes a failing height never leaves it. */
  ghost predicate FailuresHeld(cfg: Config, taken: nat, spent: Spent, workers: seq<Worker>) {
    forall z :: cfg.start <= z < taken && cfg.outcome(z).Failed? && spent != OnWork(z) ==> OnHeight(workers, z)
  }

  /** What became of the heights sent to the work channel. */
  ghost predicate Dispatch(cfg: Config, taken: nat, queued: nat, spent: Spent, items: seq<Item>, workers: seq<Worker>) {
    Covers(taken, queued, spent, items) && Skipped(spent, items, workers) && FailuresHeld(cfg, taken, spent, workers)
  }

  ghost predicate Remainder(all: seq<Resp>, rest: seq<Resp>) {
    |rest| <= |all| && rest == all[|all| - |rest|..]
  }

  ghost predicate WorkerOk(cfg: Config, taken: nat, drained: bool, k: Worker) {
    && (WorkerHeight(k).Some? ==> cfg.start <= WorkerHeight(k).value < taken)
    && (k.Sending? ==> k.todo != [] && Remainder(Msgs(cfg, k.h), k.todo))
    && (k.Returning? ==> cfg.outcome(k.h).Failed?)
    && (k.Exited? && k.cause.Some? ==> cfg.outcome(k.cause.value).Failed?)
    && (k.Exited? && k.cause.None? ==> drained)
  }

  ghost predicate DistinctHeights(workers: seq<Worker>) {
    forall w, w' :: 0 <= w < w' < |workers| && WorkerHeight(workers[w]).Some?
      ==> WorkerHeight(workers[w]) != WorkerHeight(workers[w'])
  }

  /** No height is taken twice, and a worker that returned early did so on a failing height of its own. */
  ghost predicate WorkersOk(cfg: Config, taken: nat, drained: bool, workers: seq<Worker>) {
    && |workers| == cfg.workers
    && (forall w :: 0 <= w < |workers| ==> WorkerOk(cfg, taken, drained, workers[w]))
    && DistinctHeights(workers)
  }

  /** What has been written to out, read off the consumer's position. */
  ghost predicate Delivered(cfg: Config, k: Consumer, written: seq<Resp>) {
    var done := Bodies(cfg, cfg.start, Base(cfg, k));
    && cfg.start <= Base(cfg, k) && ReceivedTo(cfg, k) <= LastHeight(cfg) + 1
    && AllFetched(cfg, cfg.start, Base(cfg, k))
    && match k
       case Reading(h, _, got) => got < |Msgs(cfg, h)| && written == done + Msgs(cfg, h)[..got]
       case Holding(h, _, got, resp) =>
         && 1 <= got < |Msgs(cfg, h)| && resp == Msgs(cfg, h)[got - 1]
         && written == done + Msgs(cfg, h)[..got - 1]
       case Putting(h, _) => cfg.outcome(h).Fetched? && written == done + Body(cfg.outcome(h))
       case Signalling(h, e) => cfg.outcome(h) == Failed(e) && written == done
       case FailForward(h, e) => cfg.outcome(h) == Failed(e) && written == done
       case Failing(h, e) => cfg.outcome(h) == Failed(e) && written == done + [Error(e)]
       case _ => written == done
  }

  /** The number of responses the sender has sent on. */
  ghost function CountSent(sender: Sender, calls: seq<Call>): int { if sender.Ended? then |calls| - 1 else |calls| }

  ghost function SentCount(l: Local): int { CountSent(l.sender, l.calls) }

  ghost function Wrap(n: nat): nat { n % TWO_64 }

  /** Everything written is sent in order and numbered, held by the sender, or buffered in out. */
  ghost predicate Shipping(cfg: Config, sender: Sender, calls: seq<Call>, order: nat, written: seq<Resp>,
                           outBuf: seq<Resp>) {
    var n := CountSent(sender, calls);
    && 0 <= n <= |written|
    && order == Wrap(n)
    && calls == Numbered(written[..n]) + (if sender.Ended? then [End(Wrap(n))] else [])
    && written[n..] == (if sender.Have? then [sender.resp] else []) + outBuf
    && |outBuf| <= cfg.outCap
  }

  ghost predicate Ships(cfg: Config, l: Local) { Shipping(cfg, l.sender, l.calls, l.order, l.written, l.outBuf) }

  ghost predicate Closed(l: Local) {
    && (l.outClosed <==> l.consumer.Awaiting? || l.consumer.Done?)
    && (!l.cancelled && (l.sender.Ending? || l.sender.Ended?) ==> l.outClosed && l.outBuf == [])
    && (!l.cancelled && l.consumer.Done? ==> l.sender.Ended?)
  }

  /** Last is there exactly if it is due, and then at the end. */
  ghost predicate EndsWithLast(items: seq<Item>, due: bool) {
    (due ==> items != []) && forall i :: 0 <= i < |items| ==> (items[i].Last? <==> due && i == |items| - 1)
  }

  ghost predicate Ends(p: Producer) { p.Closing? || p.Stopped? }

  /** After the error signal: the consumer's height was taken, and the ordering channel holds every later height
      that was due and the Last marker, but for the one send that the signal replaced. */
  ghost predicate Aftermath(spent: Spent, token: bool, ordered: nat, queued: nat, base: nat, taken: nat, ends: bool,
                            ord: seq<Item>) {
    && (token <==> spent.Unspent?)
    && base < taken
    && ordered + (if ends && !spent.OnLast? then 1 else 0) == base + 1 + |ord| + (if spent.OnOrder? then 1 else 0)
    && EndsWithLast(ord, ends && !spent.OnLast?)
    && (spent.OnWork? ==> base < spent.h < queued) && (spent.OnLast? ==> ends)
  }

  ghost predicate Signal(cfg: Config, l: Local, ord: seq<Item>) {
    if Active(l.consumer) then !l.token && l.spent.Unspent?
    else Aftermath(l.spent, l.token, OrderedTo(cfg, l.producer), QueuedTo(cfg, l.producer), Base(cfg, l.consumer),
                   l.taken, Ends(l.producer), ord)
  }

  ghost predicate Holds(k: Worker, h: nat) {
    (k.Fetching? || k.Sending?) && k.h == h
  }

  ghost function Todo(cfg: Config, k: Worker): seq<Resp> {
    match k
    case Fetching(h, _) => Msgs(cfg, h)
    case Sending(_, _, todo) => todo
    case _ => []
  }

  /** The messages of height h that a worker holding it has still to write. */
  ghost function Pending(cfg: Config, workers: seq<Worker>, h: nat): seq<Resp> {
    if workers == [] then []
    else if Holds(workers[0], h) then Todo(cfg, workers[0])
    else Pending(cfg, workers[1..], h)
  }

  /** The messages of height h that have still to be written to its channel. */
  ghost function Unwritten(cfg: Config, workers: seq<Worker>, taken: nat, h: nat): seq<Resp> {
    if h >= taken then Msgs(cfg, h) else Pending(cfg, workers, h)
  }

  ghost predicate LastQueued(p: Producer, k: Consumer) {
    (p.Closing? || p.Stopped?) && !PastLast(k)
  }

  /** The consumer is behind the workers and behind the producer. */
  ghost predicate Positions(cfg: Config, p: Producer, k: Consumer, taken: nat) {
    && Base(cfg, k) <= taken
    && (PastLast(k) ==> p.Closing? || p.Stopped?)
    && ReceivedTo(cfg, k) <= OrderedTo(cfg, p)
  }

  /** The live heights are exactly those between the consumer and the producer. */
  ghost predicate LiveHeights(base: nat, acquired: nat, owned: map<nat, ChanId>) {
    forall h :: base <= h < acquired ==> h in owned
  }

  /** The items are the consecutive heights from..to-1, then Last if it is queued. */
  ghost predicate Consecutive(from: nat, to: nat, last: bool, items: seq<Item>) {
    && from <= to
    && |items| == to - from + (if last then 1 else 0)
    && (forall i :: 0 <= i < to - from ==> items[i].Item? && items[i].h == from + i)
    && (last ==> items[to - from] == Last)
  }

  /** The messages of height h from number got on are those buffered followed by those unwritten. */
  ghost predicate Split(cfg: Config, h: nat, got: nat, buf: seq<Resp>, unwritten: seq<Resp>) {
    got <= |Msgs(cfg, h)| && Msgs(cfg, h)[got..] == buf + unwritten
  }

  ghost function Buffered(owned: map<nat, ChanId>, resp: map<ChanId, Chan<Resp>>, h: nat): seq<Resp> {
    if h in owned && owned[h] in resp then resp[owned[h]].buf else []
  }

  /** Each message of each live height is read, buffered in that height's channel, or still to be written. */
  ghost predicate Contents(cfg: Config, k: Consumer, workers: seq<Worker>, taken: nat,
                           owned: map<nat, ChanId>, resp: map<ChanId, Chan<Resp>>) {
    forall h :: h in owned ==>
      Split(cfg, h, Got(cfg, k, h), Buffered(owned, resp, h), Unwritten(cfg, workers, taken, h))
  }

  ghost predicate Owned(cfg: Config, v: View) {
    var l := v.l;
    && Ownership(Base(cfg, l.consumer), AcquiredTo(cfg, l.producer), l.owned, v.resp)
    && ProducerOk(cfg, l.owned, l.producer)
    && ItemsRef(l.owned, v.ord.buf)
    && ItemsRef(l.owned, v.work.buf)
    && WorkersRef(l.owned, l.workers)
    && ConsumerRef(l.owned, l.consumer)
    && ChannelsOk(l.producer.Stopped?, v.ord, v.work)
    && !l.fault
  }

  ghost predicate Queues(cfg: Config, v: View) {
    var l := v.l;
    && WorkQueue(cfg.start, l.taken, QueuedTo(cfg, l.producer), v.work.buf)
    && WorkersOk(cfg, l.taken, v.work.closed && v.work.buf == [], l.workers)
    && Signal(cfg, l, v.ord.buf)
    && Dispatch(cfg, l.taken, QueuedTo(cfg, l.producer), l.spent, v.work.buf, l.workers)
  }

  ghost predicate Output(cfg: Config, l: Local) {
    && Delivered(cfg, l.consumer, l.written)
    && Ships(cfg, l)
    && Closed(l)
  }

  ghost predicate Reassembly(cfg: Config, v: View) {
    var l := v.l;
    && Positions(cfg, l.producer, l.consumer, l.taken)
    && LiveHeights(Base(cfg, l.consumer), AcquiredTo(cfg, l.producer), l.owned)
    && Consecutive(l.taken, QueuedTo(cfg, l.producer), false, v.work.buf)
    && Consecutive(ReceivedTo(cfg, l.consumer), OrderedTo(cfg, l.producer), LastQueued(l.producer, l.consumer),
                   v.ord.buf)
    && Contents(cfg, l.consumer, l.workers, l.taken, l.owned, v.resp)
  }

  ghost predicate BaseInv(cfg: Config, v: View) {
    && ValidConfig(cfg)
    && Owned(cfg, v)
    && Queues(cfg, v)
    && Output(cfg, v.l)
    && (Active(v.l.consumer) ==> Reassembly(cfg, v))
  }

  lemma InitBase(cfg: Config, v: View)
    requires ValidConfig(cfg) && InitView(cfg, v)
    ensures BaseInv(cfg, v)
  {
    assert Queues(cfg, v) by { hide Owned, Output, Reassembly; }
    assert Output(cfg, v.l) by { hide Owned, Queues, Reassembly; }
    assert Reassembly(cfg, v) by { hide Owned, Queues, Output; }
    hide Queues, Output, Reassembly;
  }

  // ---------- the sender's actions keep it ----------

  lemma NumberedAppend(xs: seq<Resp>, r: Resp)
    ensures Numbered(xs + [r]) == Numbered(xs) + [Sent(Wrap(|xs|), r)]
    ensures Wrap(|xs| + 1) == (Wrap(|xs|) + 1) % TWO_64
  {
  }

  lemma SendShips(cfg: Config, v: View)
    requires Ships(cfg, v.l) && SenderEnabled(v, SSend)
    ensures Ships(cfg, SenderApply(v, SSend).l)
  {
    var l := v.l;
    var n := SentCount(l);
    var r := l.sender.resp;
    assert l.written[n] == l.written[n..][0] == r;
    assert l.written[..n + 1] == l.written[..n] + [r];
    assert l.written[n + 1..] == l.written[n..][1..] == l.outBuf;
    NumberedAppend(l.written[..n], r);
  }

  lemma SenderKeeps(cfg: Config, v: View, a: Action)
    requires BaseInv(cfg, v) && IsSender(a) && SenderEnabled(v, a)
    ensures BaseInv(cfg, SenderApply(v, a))
  {
    hide Dispatch, Ownership, ItemsRef, WorkersRef, WorkersOk, WorkQueue, Delivered, Consecutive, LiveHeights, Contents;
    if a.SSend? { SendShips(cfg, v); }
  }

  // ---------- the producer's actions keep it ----------

  lemma HeightStep(cfg: Config, h: nat)
    requires ValidConfig(cfg) && cfg.start <= h <= LastHeight(cfg)
    ensures AfterHeight(cfg, h) == if h == LastHeight(cfg) then Lasting else Getting(h + 1)
  {
  }

  lemma GetContents(cfg: Config, k: Consumer, workers: seq<Worker>, taken: nat, h: nat,
                    owned: map<nat, ChanId>, resp: map<ChanId, Chan<Resp>>, c: ChanId, chan: Chan<Resp>)
    requires Contents(cfg, k, workers, taken, owned, resp)
    requires taken <= h && h !in owned && c !in owned.Values && chan.buf == [] && Got(cfg, k, h) == 0
    ensures Contents(cfg, k, workers, taken, owned[h := c], resp[c := chan])
  {
    hide Split;
    var owned', resp' := owned[h := c], resp[c := chan];
    forall x | x in owned'
      ensures Split(cfg, x, Got(cfg, k, x), Buffered(owned', resp', x), Unwritten(cfg, workers, taken, x))
    {
      if x != h {
        assert x in owned && owned[x] in owned.Values;
        assert Buffered(owned', resp', x) == Buffered(owned, resp, x);
      } else {
        NothingWritten(cfg, x);
      }
    }
  }

  lemma NothingWritten(cfg: Config, h: nat)
    ensures Split(cfg, h, 0, [], Msgs(cfg, h))
  {
  }

  lemma PGetOwned(cfg: Config, v: View, a: Action)
    requires ValidConfig(cfg) && Owned(cfg, v) && a.PGet? && ProducerEnabled(v, a)
    requires Base(cfg, v.l.consumer) <= v.l.producer.h
    ensures Owned(cfg, ProducerApply(cfg, v, a))
  {
    var l := v.l;
    assert l.producer.h !in l.owned;
    assert forall x :: x in l.owned ==> l.owned[x] in l.owned.Values;
  }

  lemma PGetReassembly(cfg: Config, v: View, a: Action)
    requires Owned(cfg, v) && Queues(cfg, v) && Reassembly(cfg, v) && a.PGet? && ProducerEnabled(v, a)
    requires Active(v.l.consumer)
    ensures Reassembly(cfg, ProducerApply(cfg, v, a))
  {
    var l := v.l;
    GetContents(cfg, l.consumer, l.workers, l.taken, l.producer.h, l.owned, v.resp, a.c, a.chan);
  }

  lemma PGetKeeps(cfg: Config, v: View, a: Action)
    requires BaseInv(cfg, v) && a.PGet? && ProducerEnabled(v, a)
    ensures BaseInv(cfg, ProducerApply(cfg, v, a))
  {
    hide Dispatch, Ownership, ItemsRef, WorkersRef, WorkersOk, WorkQueue, Delivered, Shipping, Consecutive;
    hide LiveHeights, Contents;
    PGetOwned(cfg, v, a);
    if Active(v.l.consumer) { PGetReassembly(cfg, v, a); }
  }

  lemma POrderOwned(cfg: Config, v: View, a: Action)
    requires Owned(cfg, v) && (a.POrder? || a.PLast?) && ProducerEnabled(v, a)
    ensures Owned(cfg, ProducerApply(cfg, v, a))
  {
  }

  lemma POrderReassembly(cfg: Config, v: View, a: Action)
    requires Owned(cfg, v) && Reassembly(cfg, v) && (a.POrder? || a.PLast?) && ProducerEnabled(v, a)
    ensures Reassembly(cfg, ProducerApply(cfg, v, a))
  {
    hide Contents, LiveHeights, Consecutive, Ownership, ItemsRef, WorkersRef;
    var from, to := ReceivedTo(cfg, v.l.consumer), OrderedTo(cfg, v.l.producer);
    if a.POrder? { PushConsecutive(from, to, v.ord.buf, v.l.producer.item); } else { PushLast(from, to, v.ord.buf); }
  }

  lemma PushLast(from: nat, to: nat, items: seq<Item>)
    requires Consecutive(from, to, false, items)
    ensures Consecutive(from, to, true, items + [Last])
  {
  }

  lemma LastAppend(items: seq<Item>, item: Item)
    requires EndsWithLast(items, false)
    ensures EndsWithLast(items + [item], item.Last?)
  {
  }

  lemma POrderKeeps(cfg: Config, v: View, a: Action)
    requires BaseInv(cfg, v) && (a.POrder? || a.PLast?) && ProducerEnabled(v, a)
    ensures BaseInv(cfg, ProducerApply(cfg, v, a))
  {
    hide Dispatch, Ownership, ItemsRef, WorkersRef, WorkersOk, WorkQueue, Delivered, Shipping, Consecutive;
    hide LiveHeights, Contents;
    POrderOwned(cfg, v, a);
    if Active(v.l.consumer) { POrderReassembly(cfg, v, a); }
    else { LastAppend(v.ord.buf, if a.POrder? then v.l.producer.item else Last); }
  }

  lemma PWorkOwned(cfg: Config, v: View)
    requires ValidConfig(cfg) && Owned(cfg, v) && ProducerEnabled(v, PWork)
    ensures Owned(cfg, ProducerApply(cfg, v, PWork))
  {
    HeightStep(cfg, v.l.producer.item.h);
  }

  lemma PWorkQueues(cfg: Config, v: View)
    requires ValidConfig(cfg) && Owned(cfg, v) && Queues(cfg, v) && ProducerEnabled(v, PWork)
    ensures Queues(cfg, ProducerApply(cfg, v, PWork))
  {
    hide Dispatch, Ownership, ItemsRef, WorkersRef, WorkersOk, WorkQueue, Aftermath, AfterHeight;
    var l, item := v.l, v.l.producer.item;
    HeightStep(cfg, item.h);
    if !Active(l.consumer) {
      WorkAftermath(l.spent, l.token, item.h + 1, item.h, Base(cfg, l.consumer), l.taken, false, v.ord.buf);
    }
    WorkDispatch(cfg, l.taken, item.h, l.spent, v.work.buf, l.workers, item);
    WorkAppend(cfg.start, l.taken, item.h, v.work.buf, item);
    WorkersUndrained(cfg, l.taken, v.work.buf == [], l.workers);
  }

  lemma WorkAppend(start: nat, taken: nat, queued: nat, items: seq<Item>, item: Item)
    requires WorkQueue(start, taken, queued, items) && item.Item? && item.h == queued
    ensures WorkQueue(start, taken, queued + 1, items + [item])
  {
  }

  /** While the work channel is open no worker has returned on finding it drained. */
  lemma WorkersUndrained(cfg: Config, taken: nat, empty: bool, workers: seq<Worker>)
    requires WorkersOk(cfg, taken, false && empty, workers)
    ensures WorkersOk(cfg, taken, false, workers)
  {
  }

  lemma WorkAftermath(spent: Spent, token: bool, ordered: nat, queued: nat, base: nat, taken: nat, ends: bool,
                      ord: seq<Item>)
    requires Aftermath(spent, token, ordered, queued, base, taken, ends, ord)
    ensures Aftermath(spent, token, ordered, queued + 1, base, taken, ends, ord) && spent != OnWork(queued)
  {
  }

  lemma QueuedAppend(items: seq<Item>, item: Item, z: nat)
    ensures Queued(items + [item], z) <==> Queued(items, z) || (item.Item? && item.h == z)
  {
    var more := items + [item];
    if Queued(items, z) {
      var i :| 0 <= i < |items| && items[i].Item? && items[i].h == z;
      assert more[i] == items[i];
    }
    assert more[|items|] == item;
  }

  lemma WorkDispatch(cfg: Config, taken: nat, queued: nat, spent: Spent, items: seq<Item>, workers: seq<Worker>,
                     item: Item)
    requires Dispatch(cfg, taken, queued, spent, items, workers) && item.Item? && item.h == queued
    requires spent != OnWork(queued)
    ensures Dispatch(cfg, taken, queued + 1, spent, items + [item], workers)
  {
    hide Queued, OnHeight;
    forall z: nat ensures Queued(items + [item], z) <==> Queued(items, z) || item.h == z {
      QueuedAppend(items, item, z);
    }
  }

  /** The height the signal keeps from the work channel is neither queued nor taken. */
  lemma SkipDispatch(cfg: Config, taken: nat, queued: nat, items: seq<Item>, workers: seq<Worker>, drained: bool)
    requires Dispatch(cfg, taken, queued, Unspent, items, workers)
    requires WorkQueue(cfg.start, taken, queued, items) && WorkersOk(cfg, taken, drained, workers)
    ensures Dispatch(cfg, taken, queued + 1, OnWork(queued), items, workers)
  {
    hide DistinctHeights;
    forall w | 0 <= w < |workers| ensures WorkerHeight(workers[w]) != Some(queued) {
      assert WorkerOk(cfg, taken, drained, workers[w]);
    }
  }

  lemma SignalDispatch(cfg: Config, taken: nat, queued: nat, items: seq<Item>, workers: seq<Worker>)
    requires Dispatch(cfg, taken, queued, Unspent, items, workers)
    ensures Dispatch(cfg, taken, queued, OnOrder, items, workers)
    ensures Dispatch(cfg, taken, queued, OnLast, items, workers)
  {
  }

  lemma PushConsecutive(from: nat, to: nat, items: seq<Item>, item: Item)
    requires Consecutive(from, to, false, items) && item.Item? && item.h == to
    ensures Consecutive(from, to + 1, false, items + [item])
  {
  }

  lemma PWorkReassembly(cfg: Config, v: View)
    requires ValidConfig(cfg) && Owned(cfg, v) && Reassembly(cfg, v) && ProducerEnabled(v, PWork)
    ensures Reassembly(cfg, ProducerApply(cfg, v, PWork))
  {
    hide Contents, Consecutive, LiveHeights, Ownership, ItemsRef, WorkersRef;
    HeightStep(cfg, v.l.producer.item.h);
    PushConsecutive(v.l.taken, v.l.producer.item.h, v.work.buf, v.l.producer.item);
  }

  lemma PWorkKeeps(cfg: Config, v: View)
    requires BaseInv(cfg, v) && ProducerEnabled(v, PWork)
    ensures BaseInv(cfg, ProducerApply(cfg, v, PWork))
  {
    hide Dispatch, Ownership, ItemsRef, WorkersRef, WorkersOk, WorkQueue, Delivered, Shipping, Consecutive;
    hide LiveHeights, Contents;
    PWorkOwned(cfg, v);
    PWorkQueues(cfg, v);
    if Active(v.l.consumer) { PWorkReassembly(cfg, v); }
  }

  lemma PCloseKeeps(cfg: Config, v: View)
    requires BaseInv(cfg, v) && ProducerEnabled(v, PClose)
    ensures BaseInv(cfg, ProducerApply(cfg, v, PClose))
  {
    hide Dispatch, Ownership, ItemsRef, WorkersRef, WorkQueue, Delivered, Shipping, Consecutive, LiveHeights, Contents;
  }

  lemma PSkipKeeps(cfg: Config, v: View)
    requires BaseInv(cfg, v) && ProducerEnabled(v, PSkip)
    ensures BaseInv(cfg, ProducerApply(cfg, v, PSkip))
  {
    hide Delivered, Shipping, Consecutive, LiveHeights, Contents, ItemsRef, WorkersRef, WorkersOk, Dispatch;
    if v.l.producer.Working? {
      HeightStep(cfg, v.l.producer.item.h);
      SkipDispatch(cfg, v.l.taken, v.l.producer.item.h, v.work.buf, v.l.workers, v.work.closed && v.work.buf == []);
    } else {
      SignalDispatch(cfg, v.l.taken, QueuedTo(cfg, v.l.producer), v.work.buf, v.l.workers);
    }
  }

  // ---------- the workers' actions keep it ----------

  /** Replacing a worker does not change what is pending of a height neither version holds. */
  lemma {:induction false} PendingOther(cfg: Config, workers: seq<Worker>, w: nat, k: Worker, h: nat)
    requires w < |workers| && !Holds(workers[w], h) && !Holds(k, h)
    ensures Pending(cfg, workers[w := k], h) == Pending(cfg, workers, h)
  {
    if w == 0 {
      assert workers[w := k][1..] == workers[1..];
    } else {
      assert workers[w := k][1..] == workers[1..][w - 1 := k];
      PendingOther(cfg, workers[1..], w - 1, k, h);
    }
  }

  lemma {:induction false} PendingNone(cfg: Config, workers: seq<Worker>, h: nat)
    requires forall w :: 0 <= w < |workers| ==> !Holds(workers[w], h)
    ensures Pending(cfg, workers, h) == []
  {
    if workers != [] { PendingNone(cfg, workers[1..], h); }
  }

  /** Only one worker can hold a height, so what is pending of it is that worker's. */
  lemma {:induction false} PendingHeld(cfg: Config, workers: seq<Worker>, w: nat, h: nat)
    requires w < |workers| && Holds(workers[w], h)
    requires forall j :: 0 <= j < w ==> !Holds(workers[j], h)
    ensures Pending(cfg, workers, h) == Todo(cfg, workers[w])
  {
    if w > 0 { PendingHeld(cfg, workers[1..], w - 1, h); }
  }

  lemma HeldOnce(workers: seq<Worker>, w: nat, h: nat)
    requires w < |workers| && Holds(workers[w], h) && DistinctHeights(workers)
    ensures forall j :: 0 <= j < |workers| && j != w ==> !Holds(workers[j], h)
  {
  }

  /** Replacing the worker that holds height h, if any, replaces what is pending of h. */
  lemma PendingReplaced(cfg: Config, workers: seq<Worker>, w: nat, k: Worker, h: nat)
    requires w < |workers| && (forall j :: 0 <= j < |workers| && j != w ==> !Holds(workers[j], h))
    ensures Pending(cfg, workers[w := k], h) == if Holds(k, h) then Todo(cfg, k) else []
  {
    var workers' := workers[w := k];
    if Holds(k, h) { PendingHeld(cfg, workers', w, h); } else { PendingNone(cfg, workers', h); }
  }

  lemma OnHeightUpdate(workers: seq<Worker>, w: nat, k: Worker, z: nat)
    requires w < |workers| && OnHeight(workers, z) && WorkerHeight(workers[w]) != Some(z)
    ensures OnHeight(workers[w := k], z)
  {
    var j :| 0 <= j < |workers| && WorkerHeight(workers[j]) == Some(z);
    assert workers[w := k][j] == workers[j];
  }

  lemma OnHeightOnly(workers: seq<Worker>, w: nat, k: Worker, z: nat)
    requires w < |workers|
    ensures OnHeight(workers[w := k], z) ==> OnHeight(workers, z) || WorkerHeight(k) == Some(z)
    ensures WorkerHeight(k) == Some(z) ==> OnHeight(workers[w := k], z)
  {
    var workers' := workers[w := k];
    if OnHeight(workers', z) {
      var j :| 0 <= j < |workers'| && WorkerHeight(workers'[j]) == Some(z);
      assert j != w ==> workers'[j] == workers[j];
    }
    assert workers'[w] == k;
  }

  /** A worker that stays on its height, or leaves a height that was fetched, holds all that it must. */
  lemma MoveDispatch(cfg: Config, taken: nat, queued: nat, spent: Spent, items: seq<Item>, workers: seq<Worker>,
                     w: nat, k: Worker)
    requires Dispatch(cfg, taken, queued, spent, items, workers) && w < |workers|
    requires var was := WorkerHeight(workers[w]);
             WorkerHeight(k) == was || (WorkerHeight(k).None? && was.Some? && cfg.outcome(was.value).Fetched?)
    ensures Dispatch(cfg, taken, queued, spent, items, workers[w := k])
  {
    hide Queued, OnHeight;
    forall z: nat | OnHeight(workers, z) && (cfg.outcome(z).Failed? || WorkerHeight(k) == WorkerHeight(workers[w]))
      ensures OnHeight(workers[w := k], z)
    {
      if WorkerHeight(workers[w]) == Some(z) { OnHeightOnly(workers, w, k, z); }
      else { OnHeightUpdate(workers, w, k, z); }
    }
    forall z: nat ensures OnHeight(workers[w := k], z) ==> OnHeight(workers, z) {
      OnHeightOnly(workers, w, k, z);
      if WorkerHeight(k) == Some(z) { OnItself(workers, w, z); }
    }
  }

  lemma OnItself(workers: seq<Worker>, w: nat, z: nat)
    requires w < |workers| && WorkerHeight(workers[w]) == Some(z)
    ensures OnHeight(workers, z)
  {
  }

  lemma QueuedFirst(items: seq<Item>, z: nat)
    requires items != [] && items[0].Item? && items[0].h != z
    ensures Queued(items[1..], z) <==> Queued(items, z)
  {
    if Queued(items, z) {
      var i :| 0 <= i < |items| && items[i].Item? && items[i].h == z;
      assert items[1..][i - 1] == items[i];
    }
  }

  /** The first height of the work channel is the smallest that was sent and not taken. */
  lemma FirstQueued(start: nat, taken: nat, queued: nat, items: seq<Item>, z: nat)
    requires WorkQueue(start, taken, queued, items) && Queued(items, z)
    ensures items != [] && items[0].Item? && items[0].h <= z
  {
  }

  lemma TakeDispatch(cfg: Config, taken: nat, queued: nat, spent: Spent, items: seq<Item>, workers: seq<Worker>, w: nat)
    requires Dispatch(cfg, taken, queued, spent, items, workers) && WorkQueue(cfg.start, taken, queued, items)
    requires items != [] && items[0].Item? && w < |workers| && workers[w].Idle?
    ensures Dispatch(cfg, items[0].h + 1, queued, spent, items[1..], workers[w := Fetching(items[0].h, items[0].ch)])
  {
    hide Queued, OnHeight;
    var item := items[0];
    var k := Fetching(item.h, item.ch);
    var taken', workers' := item.h + 1, workers[w := k];
    assert taken <= item.h < queued;
    forall z | taken' <= z < queued && spent != OnWork(z) ensures Queued(items[1..], z) {
      assert Queued(items, z);
      QueuedFirst(items, z);
    }
    forall z | cfg.start <= z < taken' && cfg.outcome(z).Failed? && spent != OnWork(z) ensures OnHeight(workers', z) {
      OnHeightOnly(workers, w, k, z);
      if z < taken { OnHeightUpdate(workers, w, k, z); }
      else if z < item.h { FirstQueued(cfg.start, taken, queued, items, z); }
    }
    if spent.OnWork? {
      FirstIsQueued(items);
      QueuedFirst(items, spent.h);
      OnHeightOnly(workers, w, k, spent.h);
    }
  }

  lemma FirstIsQueued(items: seq<Item>)
    requires items != [] && items[0].Item?
    ensures Queued(items, items[0].h)
  {
  }

  lemma TakeContents(cfg: Config, k: Consumer, workers: seq<Worker>, taken: nat,
                     owned: map<nat, ChanId>, resp: map<ChanId, Chan<Resp>>, w: nat, ch: ChanId)
    requires Contents(cfg, k, workers, taken, owned, resp)
    requires w < |workers| && workers[w].Idle?
    requires forall j :: 0 <= j < |workers| ==> !Holds(workers[j], taken)
    ensures Contents(cfg, k, workers[w := Fetching(taken, ch)], taken + 1, owned, resp)
  {
    hide Split;
    var wk := Fetching(taken, ch);
    forall h | h in owned
      ensures Split(cfg, h, Got(cfg, k, h), Buffered(owned, resp, h), Unwritten(cfg, workers[w := wk], taken + 1, h))
    {
      if h == taken { PendingReplaced(cfg, workers, w, wk, h); } else { PendingOther(cfg, workers, w, wk, h); }
    }
  }

  lemma WTakeReassembly(cfg: Config, v: View, w: nat)
    requires Owned(cfg, v) && Queues(cfg, v) && Reassembly(cfg, v) && WorkerEnabled(v, WTake(w))
    ensures Reassembly(cfg, WorkerApply(cfg, v, WTake(w)))
  {
    hide Contents, Consecutive, LiveHeights, Dispatch, Signal, Ownership, ItemsRef, WorkersRef, WorkQueue;
    var l := v.l;
    TakeConsecutive(l.taken, QueuedTo(cfg, l.producer), false, v.work.buf);
    forall j | 0 <= j < |l.workers| ensures !Holds(l.workers[j], l.taken) {
      assert WorkerOk(cfg, l.taken, v.work.closed && v.work.buf == [], l.workers[j]);
    }
    TakeContents(cfg, l.consumer, l.workers, l.taken, l.owned, v.resp, w, v.work.buf[0].ch);
  }

  lemma TakeRefs(owned: map<nat, ChanId>, items: seq<Item>, workers: seq<Worker>, w: nat)
    requires ItemsRef(owned, items) && WorkersRef(owned, workers)
    requires items != [] && items[0].Item? && w < |workers|
    ensures ItemsRef(owned, items[1..]) && WorkersRef(owned, workers[w := Fetching(items[0].h, items[0].ch)])
  {
    assert Ref(owned, items[0].h, items[0].ch);
  }

  lemma TakeWorkers(cfg: Config, taken: nat, queued: nat, items: seq<Item>, workers: seq<Worker>, w: nat, closed: bool)
    requires WorkQueue(cfg.start, taken, queued, items) && WorkersOk(cfg, taken, closed && items == [], workers)
    requires items != [] && items[0].Item? && w < |workers| && workers[w].Idle?
    ensures taken <= items[0].h && WorkQueue(cfg.start, items[0].h + 1, queued, items[1..])
    ensures WorkersOk(cfg, items[0].h + 1, closed && items[1..] == [], workers[w := Fetching(items[0].h, items[0].ch)])
  {
    hide Remainder, Msgs;
    var taken', k := items[0].h + 1, Fetching(items[0].h, items[0].ch);
    forall j | 0 <= j < |workers|
      ensures WorkerOk(cfg, taken', closed && items[1..] == [], workers[w := k][j])
      ensures j != w ==> WorkerHeight(workers[j]) != WorkerHeight(k)
    {
      assert WorkerOk(cfg, taken, false, workers[j]);
    }
  }

  lemma WTakeKeeps(cfg: Config, v: View, w: nat)
    requires BaseInv(cfg, v) && WorkerEnabled(v, WTake(w))
    ensures BaseInv(cfg, WorkerApply(cfg, v, WTake(w)))
  {
    hide Delivered, Shipping, Consecutive, LiveHeights, Contents, Ownership, Dispatch, WorkersOk, WorkQueue, ItemsRef;
    hide WorkersRef;
    TakeRefs(v.l.owned, v.work.buf, v.l.workers, w);
    TakeWorkers(cfg, v.l.taken, QueuedTo(cfg, v.l.producer), v.work.buf, v.l.workers, w, v.work.closed);
    TakeDispatch(cfg, v.l.taken, QueuedTo(cfg, v.l.producer), v.l.spent, v.work.buf, v.l.workers, w);
    if Active(v.l.consumer) { WTakeReassembly(cfg, v, w); }
  }

  lemma FetchContents(cfg: Config, k: Consumer, workers: seq<Worker>, taken: nat,
                      owned: map<nat, ChanId>, resp: map<ChanId, Chan<Resp>>, w: nat)
    requires Contents(cfg, k, workers, taken, owned, resp) && DistinctHeights(workers)
    requires w < |workers| && workers[w].Fetching?
    ensures Contents(cfg, k, workers[w := Sending(workers[w].h, workers[w].ch, Msgs(cfg, workers[w].h))], taken, owned,
                     resp)
  {
    hide Split;
    var wk := Sending(workers[w].h, workers[w].ch, Msgs(cfg, workers[w].h));
    HeldOnce(workers, w, wk.h);
    forall h | h in owned
      ensures Split(cfg, h, Got(cfg, k, h), Buffered(owned, resp, h), Unwritten(cfg, workers[w := wk], taken, h))
    {
      if h == wk.h {
        PendingReplaced(cfg, workers, w, wk, h);
        PendingHeld(cfg, workers, w, h);
      } else { PendingOther(cfg, workers, w, wk, h); }
    }
  }

  lemma WFetchKeeps(cfg: Config, v: View, w: nat)
    requires BaseInv(cfg, v) && WorkerEnabled(v, WFetch(w))
    ensures BaseInv(cfg, WorkerApply(cfg, v, WFetch(w)))
  {
    hide Delivered, Shipping, Consecutive, LiveHeights, Contents, Ownership, ItemsRef, WorkQueue, Dispatch;
    MoveDispatch(cfg, v.l.taken, QueuedTo(cfg, v.l.producer), v.l.spent, v.work.buf, v.l.workers, w,
                 WorkerApply(cfg, v, WFetch(w)).l.workers[w]);
    if Active(v.l.consumer) { FetchContents(cfg, v.l.consumer, v.l.workers, v.l.taken, v.l.owned, v.resp, w); }
  }

  lemma SendSplit(cfg: Config, h: nat, got: nat, buf: seq<Resp>, todo: seq<Resp>)
    requires todo != [] && Split(cfg, h, got, buf, todo)
    ensures Split(cfg, h, got, buf + [todo[0]], todo[1..])
  {
    assert buf + todo == (buf + [todo[0]]) + todo[1..];
  }

  lemma SendContents(cfg: Config, k: Consumer, workers: seq<Worker>, taken: nat,
                     owned: map<nat, ChanId>, resp: map<ChanId, Chan<Resp>>, w: nat)
    requires Contents(cfg, k, workers, taken, owned, resp) && DistinctHeights(workers)
    requires forall h, h' :: h in owned && h' in owned && h != h' ==> owned[h] != owned[h']
    requires w < |workers| && workers[w].Sending? && workers[w].todo != [] && workers[w].h < taken
    requires Ref(owned, workers[w].h, workers[w].ch) && workers[w].ch in resp
    ensures var wk := workers[w];
            Contents(cfg, k, workers[w := AfterSend(wk.h, wk.ch, wk.todo)], taken, owned,
                     resp[wk.ch := resp[wk.ch].Push(wk.todo[0])])
  {
    hide Split;
    var Sending(h, ch, todo) := workers[w];
    var wk := AfterSend(h, ch, todo);
    var resp' := resp[ch := resp[ch].Push(todo[0])];
    HeldOnce(workers, w, h);
    forall x | x in owned
      ensures Split(cfg, x, Got(cfg, k, x), Buffered(owned, resp', x), Unwritten(cfg, workers[w := wk], taken, x))
    {
      if x == h {
        PendingHeld(cfg, workers, w, h);
        PendingReplaced(cfg, workers, w, wk, h);
        SendSplit(cfg, h, Got(cfg, k, h), Buffered(owned, resp, h), todo);
        assert Buffered(owned, resp', h) == Buffered(owned, resp, h) + [todo[0]];
      } else {
        PendingOther(cfg, workers, w, wk, x);
        assert Buffered(owned, resp', x) == Buffered(owned, resp, x);
      }
    }
  }

  lemma WSendReassembly(cfg: Config, v: View, w: nat)
    requires Owned(cfg, v) && Queues(cfg, v) && Reassembly(cfg, v) && WorkerEnabled(v, WSend(w))
    ensures Reassembly(cfg, WorkerApply(cfg, v, WSend(w)))
  {
    hide Contents, Consecutive, LiveHeights, Dispatch, Signal, WorkQueue, ItemsRef;
    assert WorkerRef(v.l.owned, v.l.workers[w])
        && WorkerOk(cfg, v.l.taken, v.work.closed && v.work.buf == [], v.l.workers[w]);
    SendContents(cfg, v.l.consumer, v.l.workers, v.l.taken, v.l.owned, v.resp, w);
  }

  /** A worker that has written one more message is idle again, has more to write, or returns on its error. */
  lemma SendWorker(cfg: Config, taken: nat, drained: bool, h: nat, ch: ChanId, todo: seq<Resp>)
    requires WorkerOk(cfg, taken, drained, Sending(h, ch, todo))
    ensures WorkerOk(cfg, taken, drained, AfterSend(h, ch, todo))
  {
    hide Msgs, Body, Messages;
    var all := Msgs(cfg, h);
    assert todo[0] == all[|all| - |todo|] && todo[1..] == all[|all| - |todo| + 1..];
    MessageKind(cfg, h, |all| - |todo|);
  }

  lemma SendWorkers(cfg: Config, taken: nat, drained: bool, workers: seq<Worker>, w: nat)
    requires WorkersOk(cfg, taken, drained, workers) && w < |workers| && workers[w].Sending?
    ensures var wk := workers[w]; WorkersOk(cfg, taken, drained, workers[w := AfterSend(wk.h, wk.ch, wk.todo)])
  {
    hide Msgs, Remainder;
    var Sending(h, ch, todo) := workers[w];
    assert WorkerOk(cfg, taken, drained, workers[w]);
    SendWorker(cfg, taken, drained, h, ch, todo);
  }

  lemma WSendOwned(cfg: Config, v: View, w: nat)
    requires Owned(cfg, v) && WorkerEnabled(v, WSend(w))
    ensures !v.resp[v.l.workers[w].ch].closed && Owned(cfg, WorkerApply(cfg, v, WSend(w)))
  {
    assert WorkerRef(v.l.owned, v.l.workers[w]) && OpenChannel(v.resp, v.l.owned[v.l.workers[w].h]);
  }

  /** A worker that has written its last message leaves the height only if that was fetched. */
  lemma SendDispatch(cfg: Config, v: View, w: nat)
    requires Queues(cfg, v) && WorkerEnabled(v, WSend(w))
    ensures var wk := v.l.workers[w];
            Dispatch(cfg, v.l.taken, QueuedTo(cfg, v.l.producer), v.l.spent, v.work.buf,
                     v.l.workers[w := AfterSend(wk.h, wk.ch, wk.todo)])
  {
    hide Dispatch, WorkQueue;
    var l := v.l;
    var wk := l.workers[w];
    assert WorkerOk(cfg, l.taken, v.work.closed && v.work.buf == [], wk);
    var all := Msgs(cfg, wk.h);
    assert wk.todo[0] == all[|all| - |wk.todo|];
    MessageKind(cfg, wk.h, |all| - |wk.todo|);
    MoveDispatch(cfg, l.taken, QueuedTo(cfg, l.producer), l.spent, v.work.buf, l.workers, w,
                 AfterSend(wk.h, wk.ch, wk.todo));
  }

  lemma WSendKeeps(cfg: Config, v: View, w: nat)
    requires BaseInv(cfg, v) && WorkerEnabled(v, WSend(w))
    ensures BaseInv(cfg, WorkerApply(cfg, v, WSend(w)))
  {
    hide Delivered, Shipping, Consecutive, LiveHeights, Contents, Ownership, ItemsRef, WorkersRef, WorkQueue;
    hide WorkersOk, Dispatch;
    WSendOwned(cfg, v, w);
    SendDispatch(cfg, v, w);
    SendWorkers(cfg, v.l.taken, v.work.closed && v.work.buf == [], v.l.workers, w);
    if Active(v.l.consumer) { WSendReassembly(cfg, v, w); }
  }

  lemma ExitContents(cfg: Config, k: Consumer, workers: seq<Worker>, taken: nat,
                     owned: map<nat, ChanId>, resp: map<ChanId, Chan<Resp>>, w: nat, cause: Option<nat>)
    requires Contents(cfg, k, workers, taken, owned, resp)
    requires w < |workers| && (workers[w].Returning? || workers[w].Idle?)
    ensures Contents(cfg, k, workers[w := Exited(cause)], taken, owned, resp)
  {
    hide Split;
    forall h | h in owned
      ensures Split(cfg, h, Got(cfg, k, h), Buffered(owned, resp, h),
                    Unwritten(cfg, workers[w := Exited(cause)], taken, h))
    {
      PendingOther(cfg, workers, w, Exited(cause), h);
    }
  }

  lemma WExitKeeps(cfg: Config, v: View, w: nat)
    requires BaseInv(cfg, v) && WorkerEnabled(v, WExit(w))
    ensures BaseInv(cfg, WorkerApply(cfg, v, WExit(w)))
  {
    hide Delivered, Shipping, Consecutive, LiveHeights, Contents, Ownership, ItemsRef, WorkQueue, Dispatch;
    MoveDispatch(cfg, v.l.taken, QueuedTo(cfg, v.l.producer), v.l.spent, v.work.buf, v.l.workers, w,
                 WorkerApply(cfg, v, WExit(w)).l.workers[w]);
    if Active(v.l.consumer) {
      ExitContents(cfg, v.l.consumer, v.l.workers, v.l.taken, v.l.owned, v.resp, w,
                   WorkerApply(cfg, v, WExit(w)).l.workers[w].cause);
    }
  }

  // ---------- the consumer's actions keep it ----------

  lemma SameContents(cfg: Config, k: Consumer, k': Consumer, workers: seq<Worker>, taken: nat,
                     owned: map<nat, ChanId>, resp: map<ChanId, Chan<Resp>>)
    requires Contents(cfg, k, workers, taken, owned, resp)
    requires forall h :: h in owned ==> Got(cfg, k', h) == Got(cfg, k, h)
    ensures Contents(cfg, k', workers, taken, owned, resp)
  {
    hide Split;
  }

  lemma TakeConsecutive(from: nat, to: nat, last: bool, items: seq<Item>)
    requires Consecutive(from, to, last, items) && items != []
    ensures items[0].Item? ==> from < to && items[0].h == from && Consecutive(from + 1, to, last, items[1..])
    ensures items[0].Last? ==> from == to && last && Consecutive(from, to, false, items[1..])
  {
  }

  lemma CTakeBase(cfg: Config, v: View)
    requires Reassembly(cfg, v) && ConsumerEnabled(cfg, v, CTake) && !v.ord.closed
    ensures var k := ConsumerApply(cfg, v, CTake).l.consumer;
            && Base(cfg, k) == Base(cfg, v.l.consumer)
            && (k.Releasing? ==> v.l.producer.Closing? || v.l.producer.Stopped?)
  {
    hide Contents, LiveHeights;
    TakeConsecutive(v.l.consumer.next, OrderedTo(cfg, v.l.producer), LastQueued(v.l.producer, v.l.consumer), v.ord.buf);
  }

  lemma CTakeOwned(cfg: Config, v: View)
    requires Owned(cfg, v) && ConsumerEnabled(cfg, v, CTake)
    requires Base(cfg, ConsumerApply(cfg, v, CTake).l.consumer) == Base(cfg, v.l.consumer)
    ensures Owned(cfg, ConsumerApply(cfg, v, CTake))
  {
    assert v.ord.buf[0].Last? || Ref(v.l.owned, v.ord.buf[0].h, v.ord.buf[0].ch);
  }

  lemma CTakeItem(cfg: Config, v: View)
    requires Reassembly(cfg, v) && ConsumerEnabled(cfg, v, CTake) && v.ord.buf != [] && v.ord.buf[0].Item?
    ensures Reassembly(cfg, ConsumerApply(cfg, v, CTake))
  {
    var l := v.l;
    TakeConsecutive(l.consumer.next, OrderedTo(cfg, l.producer), LastQueued(l.producer, l.consumer), v.ord.buf);
    SameContents(cfg, l.consumer, Reading(v.ord.buf[0].h, v.ord.buf[0].ch, 0), l.workers, l.taken, l.owned, v.resp);
  }

  lemma CTakeLast(cfg: Config, v: View)
    requires Reassembly(cfg, v) && ConsumerEnabled(cfg, v, CTake) && v.ord.buf != [] && v.ord.buf[0].Last?
    ensures Reassembly(cfg, ConsumerApply(cfg, v, CTake))
  {
    var l := v.l;
    TakeConsecutive(l.consumer.next, OrderedTo(cfg, l.producer), LastQueued(l.producer, l.consumer), v.ord.buf);
    SameContents(cfg, l.consumer, Releasing, l.workers, l.taken, l.owned, v.resp);
  }

  lemma SomeMessage(cfg: Config, h: nat)
    ensures |Msgs(cfg, h)| > 0
  {
  }

  lemma CTakeOutput(cfg: Config, v: View)
    requires Owned(cfg, v) && Reassembly(cfg, v) && Output(cfg, v.l) && ConsumerEnabled(cfg, v, CTake)
    ensures Output(cfg, ConsumerApply(cfg, v, CTake).l)
  {
    hide Ownership, ItemsRef, WorkersRef, Contents, LiveHeights, Shipping, Bodies, AllFetched, Msgs;
    var l := v.l;
    TakeConsecutive(l.consumer.next, OrderedTo(cfg, l.producer), LastQueued(l.producer, l.consumer), v.ord.buf);
    assert OrderedTo(cfg, l.producer) <= LastHeight(cfg) + 1;
    assert v.ord.buf[0].Item? ==> |Msgs(cfg, l.consumer.next)| > 0 by { SomeMessage(cfg, l.consumer.next); }
  }

  lemma CTakeKeeps(cfg: Config, v: View)
    requires BaseInv(cfg, v) && ConsumerEnabled(cfg, v, CTake)
    ensures BaseInv(cfg, ConsumerApply(cfg, v, CTake))
  {
    hide Dispatch, Ownership, ItemsRef, WorkersRef, WorkersOk, WorkQueue, Delivered, Shipping, Consecutive;
    hide LiveHeights, Contents;
    CTakeBase(cfg, v);
    CTakeOwned(cfg, v);
    CTakeOutput(cfg, v);
    if v.ord.buf[0].Item? { CTakeItem(cfg, v); } else { CTakeLast(cfg, v); }
  }

  /** The next message in the channel being read is the next message of that height. */
  lemma NextMessage(cfg: Config, v: View)
    requires Reassembly(cfg, v) && v.l.consumer.Reading? && Ref(v.l.owned, v.l.consumer.h, v.l.consumer.ch)
    requires Buffered(v.l.owned, v.resp, v.l.consumer.h) != []
    ensures var k := v.l.consumer;
            k.got < |Msgs(cfg, k.h)| && Buffered(v.l.owned, v.resp, k.h)[0] == Msgs(cfg, k.h)[k.got]
  {
    var k := v.l.consumer;
    var buf, rest := Buffered(v.l.owned, v.resp, k.h), Unwritten(cfg, v.l.workers, v.l.taken, k.h);
    assert Split(cfg, k.h, k.got, buf, rest);
    assert Msgs(cfg, k.h)[k.got..][0] == (buf + rest)[0];
  }

  lemma ReadSplit(cfg: Config, h: nat, got: nat, buf: seq<Resp>, rest: seq<Resp>)
    requires Split(cfg, h, got, buf, rest) && buf != []
    ensures Split(cfg, h, got + 1, buf[1..], rest)
  {
    assert Msgs(cfg, h)[got + 1..] == Msgs(cfg, h)[got..][1..];
    assert (buf + rest)[1..] == buf[1..] + rest;
  }

  lemma ReadContents(cfg: Config, k: Consumer, k': Consumer, workers: seq<Worker>, taken: nat,
                     owned: map<nat, ChanId>, resp: map<ChanId, Chan<Resp>>)
    requires Contents(cfg, k, workers, taken, owned, resp)
    requires forall h, h' :: h in owned && h' in owned && h != h' ==> owned[h] != owned[h']
    requires k.Reading? && Ref(owned, k.h, k.ch) && k.ch in resp && resp[k.ch].buf != []
    requires forall h :: h in owned ==> Got(cfg, k', h) == Got(cfg, k, h) + (if h == k.h then 1 else 0)
    ensures Contents(cfg, k', workers, taken, owned, resp[k.ch := resp[k.ch].Pop()])
  {
    hide Split;
    var resp' := resp[k.ch := resp[k.ch].Pop()];
    forall x | x in owned
      ensures Split(cfg, x, Got(cfg, k', x), Buffered(owned, resp', x), Unwritten(cfg, workers, taken, x))
    {
      if x == k.h {
        ReadSplit(cfg, x, k.got, Buffered(owned, resp, x), Unwritten(cfg, workers, taken, x));
        assert Buffered(owned, resp', x) == Buffered(owned, resp, x)[1..];
      } else {
        assert Buffered(owned, resp', x) == Buffered(owned, resp, x);
      }
    }
  }

  /** A Partial is the last message of a fetched height, an Error the only message of a failed one. */
  lemma MessageKind(cfg: Config, h: nat, got: nat)
    requires got < |Msgs(cfg, h)|
    ensures var r := Msgs(cfg, h)[got];
            match r
            case Partial => got + 1 == |Msgs(cfg, h)| && cfg.outcome(h).Fetched?
                && Msgs(cfg, h)[..got] == Body(cfg.outcome(h))
            case Error(e) => got == 0 && |Msgs(cfg, h)| == 1 && cfg.outcome(h) == Failed(e)
            case _ => got + 1 < |Msgs(cfg, h)|
  {
  }

  /** Reading a message moves the consumer to the position that its kind calls for. */
  lemma ReadMoves(cfg: Config, v: View)
    requires Owned(cfg, v) && Reassembly(cfg, v) && ConsumerEnabled(cfg, v, CRead)
    ensures var k := v.l.consumer;
            && v.resp[k.ch].buf != [] && k.got < |Msgs(cfg, k.h)|
            && ConsumerApply(cfg, v, CRead).l.consumer == AfterRead(k.h, k.ch, k.got, Msgs(cfg, k.h)[k.got])
  {
    var k := v.l.consumer;
    assert v.resp[k.ch].buf == Buffered(v.l.owned, v.resp, k.h);
    NextMessage(cfg, v);
  }

  lemma AfterReadGot(cfg: Config, k: Consumer, h: nat)
    requires k.Reading? && k.got < |Msgs(cfg, k.h)|
    ensures var k' := AfterRead(k.h, k.ch, k.got, Msgs(cfg, k.h)[k.got]);
            && Got(cfg, k', h) == Got(cfg, k, h) + (if h == k.h then 1 else 0)
            && Base(cfg, k') == Base(cfg, k) && ReceivedTo(cfg, k') == ReceivedTo(cfg, k)
            && !PastLast(k') && Active(k')
  {
    MessageKind(cfg, k.h, k.got);
  }

  lemma CReadReassembly(cfg: Config, v: View)
    requires Owned(cfg, v) && Reassembly(cfg, v) && ConsumerEnabled(cfg, v, CRead)
    ensures Reassembly(cfg, ConsumerApply(cfg, v, CRead))
  {
    var l := v.l;
    var k := l.consumer;
    ReadMoves(cfg, v);
    var k' := AfterRead(k.h, k.ch, k.got, Msgs(cfg, k.h)[k.got]);
    forall h ensures Got(cfg, k', h) == Got(cfg, k, h) + (if h == k.h then 1 else 0) { AfterReadGot(cfg, k, h); }
    AfterReadGot(cfg, k, k.h);
    ReadContents(cfg, k, k', l.workers, l.taken, l.owned, v.resp);
  }

  lemma ReadDelivered(cfg: Config, k: Consumer, written: seq<Resp>)
    requires Delivered(cfg, k, written) && k.Reading?
    ensures Delivered(cfg, AfterRead(k.h, k.ch, k.got, Msgs(cfg, k.h)[k.got]), written)
  {
    MessageKind(cfg, k.h, k.got);
  }

  lemma CReadOutput(cfg: Config, v: View)
    requires Owned(cfg, v) && Reassembly(cfg, v) && Output(cfg, v.l) && ConsumerEnabled(cfg, v, CRead)
    ensures Output(cfg, ConsumerApply(cfg, v, CRead).l)
  {
    ReadMoves(cfg, v);
    ReadDelivered(cfg, v.l.consumer, v.l.written);
  }

  lemma CReadOwned(cfg: Config, v: View)
    requires Owned(cfg, v) && Reassembly(cfg, v) && ConsumerEnabled(cfg, v, CRead)
    ensures Owned(cfg, ConsumerApply(cfg, v, CRead))
  {
    ReadMoves(cfg, v);
  }

  lemma CReadKeeps(cfg: Config, v: View)
    requires BaseInv(cfg, v) && ConsumerEnabled(cfg, v, CRead)
    ensures BaseInv(cfg, ConsumerApply(cfg, v, CRead))
  {
    hide Dispatch, Ownership, ItemsRef, WorkersRef, WorkersOk, WorkQueue, Delivered, Shipping, Consecutive;
    hide LiveHeights, Contents;
    ReadMoves(cfg, v);
    AfterReadGot(cfg, v.l.consumer, v.l.consumer.h);
    CReadOwned(cfg, v);
    CReadOutput(cfg, v);
    CReadReassembly(cfg, v);
  }

  lemma CForwardReassembly(cfg: Config, v: View)
    requires Reassembly(cfg, v) && ConsumerEnabled(cfg, v, CForward)
    ensures Reassembly(cfg, ConsumerApply(cfg, v, CForward))
  {
    var l := v.l;
    var k := l.consumer;
    SameContents(cfg, k, Reading(k.h, k.ch, k.got), l.workers, l.taken, l.owned, v.resp);
  }

  /** Writing one more response to out adds it to what the sender will ship. */
  lemma ForwardShips(cfg: Config, sender: Sender, calls: seq<Call>, order: nat, written: seq<Resp>, outBuf: seq<Resp>,
                     r: Resp)
    requires Shipping(cfg, sender, calls, order, written, outBuf) && |outBuf| < cfg.outCap
    ensures Shipping(cfg, sender, calls, order, written + [r], outBuf + [r])
  {
    var n := CountSent(sender, calls);
    assert (written + [r])[..n] == written[..n];
    assert (written + [r])[n..] == written[n..] + [r];
  }

  lemma ForwardDelivered(cfg: Config, k: Consumer, written: seq<Resp>)
    requires Delivered(cfg, k, written) && k.Holding?
    ensures Delivered(cfg, Reading(k.h, k.ch, k.got), written + [k.resp])
  {
    hide Msgs, Bodies, AllFetched;
    assert Msgs(cfg, k.h)[..k.got] == Msgs(cfg, k.h)[..k.got - 1] + [k.resp];
  }

  lemma CForwardOutput(cfg: Config, v: View)
    requires Output(cfg, v.l) && ConsumerEnabled(cfg, v, CForward)
    ensures Output(cfg, ConsumerApply(cfg, v, CForward).l)
  {
    hide Delivered, Shipping;
    var l := v.l;
    ForwardShips(cfg, l.sender, l.calls, l.order, l.written, l.outBuf, l.consumer.resp);
    ForwardDelivered(cfg, l.consumer, l.written);
  }

  lemma CForwardKeeps(cfg: Config, v: View)
    requires BaseInv(cfg, v) && ConsumerEnabled(cfg, v, CForward)
    ensures BaseInv(cfg, ConsumerApply(cfg, v, CForward))
  {
    hide Dispatch, Ownership, ItemsRef, WorkersRef, WorkersOk, WorkQueue, Delivered, Shipping, Consecutive;
    hide LiveHeights, Contents;
    CForwardOutput(cfg, v);
    CForwardReassembly(cfg, v);
  }

  /** When a height is done, a worker has taken it, no worker holds it and nothing is left in its channel. */
  lemma DoneWithHeight(cfg: Config, v: View)
    requires Owned(cfg, v) && Queues(cfg, v) && Reassembly(cfg, v) && v.l.consumer.Putting?
    ensures v.l.consumer.h < v.l.taken
    ensures forall w :: 0 <= w < |v.l.workers| ==> !Holds(v.l.workers[w], v.l.consumer.h)
    ensures Buffered(v.l.owned, v.resp, v.l.consumer.h) == []
  {
    var l := v.l;
    var h := l.consumer.h;
    assert Split(cfg, h, |Msgs(cfg, h)|, Buffered(l.owned, v.resp, h), Unwritten(cfg, l.workers, l.taken, h));
    forall w | 0 <= w < |l.workers| ensures !Holds(l.workers[w], h) {
      assert WorkerOk(cfg, l.taken, v.work.closed && v.work.buf == [], l.workers[w]);
      if Holds(l.workers[w], h) {
        HeldOnce(l.workers, w, h);
        PendingHeld(cfg, l.workers, w, h);
      }
    }
  }

  lemma PutContents(cfg: Config, k: Consumer, workers: seq<Worker>, taken: nat,
                    owned: map<nat, ChanId>, resp: map<ChanId, Chan<Resp>>)
    requires Contents(cfg, k, workers, taken, owned, resp)
    requires forall h, h' :: h in owned && h' in owned && h != h' ==> owned[h] != owned[h']
    requires k.Putting? && Ref(owned, k.h, k.ch)
    ensures Contents(cfg, Waiting(k.h + 1), workers, taken, owned - {k.h}, resp - {k.ch})
  {
    hide Split;
    var owned', resp' := owned - {k.h}, resp - {k.ch};
    forall x | x in owned'
      ensures Split(cfg, x, Got(cfg, Waiting(k.h + 1), x), Buffered(owned', resp', x),
                    Unwritten(cfg, workers, taken, x))
    {
      assert Buffered(owned', resp', x) == Buffered(owned, resp, x);
    }
  }

  lemma CPutReassembly(cfg: Config, v: View)
    requires Owned(cfg, v) && Queues(cfg, v) && Reassembly(cfg, v) && ConsumerEnabled(cfg, v, CPut)
    ensures Reassembly(cfg, ConsumerApply(cfg, v, CPut))
  {
    hide Contents, Split, Consecutive, WorkersOk, WorkQueue, ItemsRef, WorkersRef;
    DoneWithHeight(cfg, v);
    PutContents(cfg, v.l.consumer, v.l.workers, v.l.taken, v.l.owned, v.resp);
  }

  lemma PutItems(owned: map<nat, ChanId>, h: nat, from: nat, to: nat, last: bool, items: seq<Item>)
    requires ItemsRef(owned, items) && Consecutive(from, to, last, items) && h < from
    ensures ItemsRef(owned - {h}, items)
  {
    forall i | 0 <= i < |items| ensures items[i].Last? || Ref(owned - {h}, items[i].h, items[i].ch) {
      assert i < to - from || items[i].Last?;
    }
  }

  lemma PutOwnership(acquired: nat, owned: map<nat, ChanId>, resp: map<ChanId, Chan<Resp>>, h: nat)
    requires Ownership(h, acquired, owned, resp) && h in owned
    ensures Ownership(h + 1, acquired, owned - {h}, resp - {owned[h]})
  {
    forall x | x in owned && x != h
      ensures OpenChannel(resp - {owned[h]}, owned[x]) { assert OpenChannel(resp, owned[x]); }
  }

  lemma PutWorkers(owned: map<nat, ChanId>, workers: seq<Worker>, h: nat)
    requires WorkersRef(owned, workers) && forall w :: 0 <= w < |workers| ==> !Holds(workers[w], h)
    ensures WorkersRef(owned - {h}, workers)
  {
    forall w | 0 <= w < |workers| ensures WorkerRef(owned - {h}, workers[w]) {
      assert WorkerRef(owned, workers[w]) && !Holds(workers[w], h);
    }
  }

  lemma CPutOwned(cfg: Config, v: View)
    requires Owned(cfg, v) && Queues(cfg, v) && Reassembly(cfg, v) && ConsumerEnabled(cfg, v, CPut)
    ensures Owned(cfg, ConsumerApply(cfg, v, CPut))
  {
    DoneWithHeight(cfg, v);
    var l := v.l;
    var h := l.consumer.h;
    PutOwnership(AcquiredTo(cfg, l.producer), l.owned, v.resp, h);
    PutItems(l.owned, h, l.taken, QueuedTo(cfg, l.producer), false, v.work.buf);
    PutItems(l.owned, h, ReceivedTo(cfg, l.consumer), OrderedTo(cfg, l.producer), LastQueued(l.producer, l.consumer),
             v.ord.buf);
    PutWorkers(l.owned, l.workers, h);
  }

  lemma PutDelivered(cfg: Config, k: Consumer, written: seq<Resp>)
    requires Delivered(cfg, k, written) && k.Putting?
    ensures Delivered(cfg, Waiting(k.h + 1), written)
  {
    hide Msgs, Body, LastHeight;
    assert Bodies(cfg, cfg.start, k.h + 1) == Bodies(cfg, cfg.start, k.h) + Body(cfg.outcome(k.h));
  }

  lemma CPutKeeps(cfg: Config, v: View)
    requires BaseInv(cfg, v) && ConsumerEnabled(cfg, v, CPut)
    ensures BaseInv(cfg, ConsumerApply(cfg, v, CPut))
  {
    hide Dispatch, Ownership, ItemsRef, WorkersRef, WorkersOk, WorkQueue, Delivered, Shipping, Consecutive;
    hide LiveHeights, Contents;
    CPutOwned(cfg, v);
    PutDelivered(cfg, v.l.consumer, v.l.written);
    CPutReassembly(cfg, v);
  }

  /** A height whose Error was read has been taken by a worker. */
  lemma SignalledIsTaken(cfg: Config, v: View)
    requires Reassembly(cfg, v) && v.l.consumer.Signalling? && Base(cfg, v.l.consumer) < AcquiredTo(cfg, v.l.producer)
    ensures v.l.consumer.h < v.l.taken
  {
    var k := v.l.consumer;
    assert k.h in v.l.owned;
    assert Split(cfg, k.h, |Msgs(cfg, k.h)|, Buffered(v.l.owned, v.resp, k.h),
                 Unwritten(cfg, v.l.workers, v.l.taken, k.h));
  }

  lemma LastOfConsecutive(cfg: Config, v: View)
    requires Reassembly(cfg, v) && !PastLast(v.l.consumer)
    ensures EndsWithLast(v.ord.buf, Ends(v.l.producer))
  {
    hide Contents, LiveHeights;
  }

  lemma CFailKeeps(cfg: Config, v: View, a: Action)
    requires BaseInv(cfg, v) && (a.CSignal? || a.CFail?) && ConsumerEnabled(cfg, v, a)
    ensures BaseInv(cfg, ConsumerApply(cfg, v, a))
  {
    hide Dispatch, Ownership, ItemsRef, WorkersRef, WorkersOk, WorkQueue, Contents, LiveHeights, Shipping;
    if a.CSignal? { SignalledIsTaken(cfg, v); LastOfConsecutive(cfg, v); }
    else { ForwardShips(cfg, v.l.sender, v.l.calls, v.l.order, v.l.written, v.l.outBuf, Error(v.l.consumer.err)); }
  }

  lemma CFinishKeeps(cfg: Config, v: View, a: Action)
    requires BaseInv(cfg, v) && (a.CRelease? || a.CClose? || a.CFin?) && ConsumerEnabled(cfg, v, a)
    ensures BaseInv(cfg, ConsumerApply(cfg, v, a))
  {
    hide Dispatch, Ownership, ItemsRef, WorkersRef, WorkersOk, WorkQueue, Shipping, LiveHeights, Contents;
    var l := v.l;
    SameContents(cfg, l.consumer, ConsumerApply(cfg, v, a).l.consumer, l.workers, l.taken, l.owned, v.resp);
  }

  // ---------- all actions ----------

  lemma ProducerKeeps(cfg: Config, v: View, a: Action)
    requires BaseInv(cfg, v) && IsProducer(a) && ProducerEnabled(v, a)
    ensures BaseInv(cfg, ProducerApply(cfg, v, a))
  {
    hide BaseInv;
    match a
    case PGet(_, _) => PGetKeeps(cfg, v, a);
    case PWork => PWorkKeeps(cfg, v);
    case PClose => PCloseKeeps(cfg, v);
    case PSkip => PSkipKeeps(cfg, v);
    case _ => POrderKeeps(cfg, v, a);
  }

  lemma WorkerKeeps(cfg: Config, v: View, a: Action)
    requires BaseInv(cfg, v) && IsWorker(a) && WorkerEnabled(v, a)
    ensures BaseInv(cfg, WorkerApply(cfg, v, a))
  {
    hide BaseInv;
    match a
    case WTake(w) => WTakeKeeps(cfg, v, w);
    case WFetch(w) => WFetchKeeps(cfg, v, w);
    case WSend(w) => WSendKeeps(cfg, v, w);
    case WExit(w) => WExitKeeps(cfg, v, w);
  }

  lemma ConsumerKeeps(cfg: Config, v: View, a: Action)
    requires BaseInv(cfg, v)
    requires IsConsumer(a)
    requires ConsumerEnabled(cfg, v, a)
    ensures BaseInv(cfg, ConsumerApply(cfg, v, a))
  {
    hide BaseInv;
    match a
    case CTake => CTakeKeeps(cfg, v);
    case CRead => CReadKeeps(cfg, v);
    case CForward => CForwardKeeps(cfg, v);
    case CPut => CPutKeeps(cfg, v);
    case CSignal => CFailKeeps(cfg, v, a);
    case CFail => CFailKeeps(cfg, v, a);
    case _ => CFinishKeeps(cfg, v, a);
  }

  lemma StepKeepsBase(cfg: Config, v: View, a: Action)
    requires BaseInv(cfg, v) && Enabled(cfg, v, a)
    ensures BaseInv(cfg, Apply(cfg, v, a))
  {
    hide BaseInv;
    if IsProducer(a) { ProducerKeeps(cfg, v, a); }
    else if IsWorker(a) { WorkerKeeps(cfg, v, a); }
    else if IsSender(a) { SenderKeeps(cfg, v, a); }
    else { ConsumerKeeps(cfg, v, a); }
  }

  // ---------- what is in a channel and still to come is never more than the height's messages ----------

  ghost predicate Room(cfg: Config, workers: seq<Worker>, taken: nat, owned: map<nat, ChanId>,
                       resp: map<ChanId, Chan<Resp>>) {
    forall h :: h in owned ==> Fits(cfg, h, Buffered(owned, resp, h), Unwritten(cfg, workers, taken, h))
  }

  ghost predicate Fits(cfg: Config, h: nat, buf: seq<Resp>, rest: seq<Resp>) {
    |buf| + |rest| <= |Msgs(cfg, h)|
  }

  ghost predicate RoomInv(cfg: Config, v: View) { Room(cfg, v.l.workers, v.l.taken, v.l.owned, v.resp) }

  /** The invariant of a run. */
  ghost predicate Inv(cfg: Config, v: View) { BaseInv(cfg, v) && RoomInv(cfg, v) }

  lemma ActiveRoom(cfg: Config, v: View)
    requires Reassembly(cfg, v)
    ensures RoomInv(cfg, v)
  {
    var l := v.l;
    forall h | h in l.owned ensures Fits(cfg, h, Buffered(l.owned, v.resp, h), Unwritten(cfg, l.workers, l.taken, h)) {
      assert Split(cfg, h, Got(cfg, l.consumer, h), Buffered(l.owned, v.resp, h),
                   Unwritten(cfg, l.workers, l.taken, h));
    }
  }

  lemma PGetRoom(cfg: Config, v: View, a: Action)
    requires BaseInv(cfg, v) && RoomInv(cfg, v) && a.PGet? && ProducerEnabled(v, a)
    ensures RoomInv(cfg, ProducerApply(cfg, v, a))
  {
    var l, l' := v.l, ProducerApply(cfg, v, a).l;
    var resp' := ProducerApply(cfg, v, a).resp;
    forall h | h in l'.owned ensures Fits(cfg, h, Buffered(l'.owned, resp', h), Unwritten(cfg, l.workers, l.taken, h)) {
      if h != l.producer.h {
        assert h in l.owned && l.owned[h] in l.owned.Values;
        assert Buffered(l'.owned, resp', h) == Buffered(l.owned, v.resp, h);
      }
    }
  }

  lemma WTakeRoom(cfg: Config, v: View, w: nat)
    requires Queues(cfg, v) && RoomInv(cfg, v) && WorkerEnabled(v, WTake(w))
    ensures RoomInv(cfg, WorkerApply(cfg, v, WTake(w)))
  {
    var l := v.l;
    var item := v.work.buf[0];
    var wk := Fetching(item.h, item.ch);
    forall j, h | 0 <= j < |l.workers| && l.taken <= h ensures !Holds(l.workers[j], h) {
      assert WorkerOk(cfg, l.taken, v.work.closed && v.work.buf == [], l.workers[j]);
    }
    forall h | h in l.owned
      ensures Fits(cfg, h, Buffered(l.owned, v.resp, h), Unwritten(cfg, l.workers[w := wk], item.h + 1, h))
    {
      if h < l.taken { PendingOther(cfg, l.workers, w, wk, h); }
      else if h <= item.h { PendingReplaced(cfg, l.workers, w, wk, h); }
    }
  }

  lemma WFetchRoom(cfg: Config, v: View, w: nat)
    requires Queues(cfg, v) && RoomInv(cfg, v) && WorkerEnabled(v, WFetch(w))
    ensures RoomInv(cfg, WorkerApply(cfg, v, WFetch(w)))
  {
    var l := v.l;
    var Fetching(x, ch) := l.workers[w];
    var wk := Sending(x, ch, Msgs(cfg, x));
    HeldOnce(l.workers, w, x);
    forall h | h in l.owned
      ensures Fits(cfg, h, Buffered(l.owned, v.resp, h), Unwritten(cfg, l.workers[w := wk], l.taken, h)) {
      if h == x {
        PendingReplaced(cfg, l.workers, w, wk, h);
        PendingHeld(cfg, l.workers, w, h);
      } else { PendingOther(cfg, l.workers, w, wk, h); }
    }
  }

  lemma SendRoom(cfg: Config, workers: seq<Worker>, taken: nat, owned: map<nat, ChanId>, resp: map<ChanId, Chan<Resp>>,
                 w: nat)
    requires Room(cfg, workers, taken, owned, resp) && DistinctHeights(workers)
    requires forall h, h' :: h in owned && h' in owned && h != h' ==> owned[h] != owned[h']
    requires w < |workers| && workers[w].Sending? && workers[w].todo != [] && workers[w].h < taken
    requires Ref(owned, workers[w].h, workers[w].ch) && workers[w].ch in resp
    ensures var wk := workers[w];
            Room(cfg, workers[w := AfterSend(wk.h, wk.ch, wk.todo)], taken, owned,
                 resp[wk.ch := resp[wk.ch].Push(wk.todo[0])])
  {
    hide Fits;
    var Sending(x, ch, todo) := workers[w];
    var wk := AfterSend(x, ch, todo);
    var resp' := resp[ch := resp[ch].Push(todo[0])];
    HeldOnce(workers, w, x);
    forall h | h in owned ensures Fits(cfg, h, Buffered(owned, resp', h), Unwritten(cfg, workers[w := wk], taken, h)) {
      if h == x {
        PendingHeld(cfg, workers, w, h);
        PendingReplaced(cfg, workers, w, wk, h);
        assert Buffered(owned, resp', h) == Buffered(owned, resp, h) + [todo[0]];
        SendFits(cfg, h, Buffered(owned, resp, h), todo);
      } else {
        PendingOther(cfg, workers, w, wk, h);
        assert Buffered(owned, resp', h) == Buffered(owned, resp, h);
      }
    }
  }

  lemma SendFits(cfg: Config, h: nat, buf: seq<Resp>, todo: seq<Resp>)
    requires todo != [] && Fits(cfg, h, buf, todo)
    ensures Fits(cfg, h, buf + [todo[0]], todo[1..])
  {
  }

  lemma WSendRoom(cfg: Config, v: View, w: nat)
    requires Owned(cfg, v) && Queues(cfg, v) && RoomInv(cfg, v) && WorkerEnabled(v, WSend(w))
    ensures RoomInv(cfg, WorkerApply(cfg, v, WSend(w)))
  {
    hide Room, Dispatch, Signal, WorkQueue, ItemsRef;
    var l := v.l;
    assert WorkerRef(l.owned, l.workers[w]) && OpenChannel(v.resp, l.owned[l.workers[w].h]);
    assert WorkerOk(cfg, l.taken, v.work.closed && v.work.buf == [], l.workers[w]);
    SendRoom(cfg, l.workers, l.taken, l.owned, v.resp, w);
  }

  lemma WExitRoom(cfg: Config, v: View, w: nat)
    requires RoomInv(cfg, v) && WorkerEnabled(v, WExit(w))
    ensures RoomInv(cfg, WorkerApply(cfg, v, WExit(w)))
  {
    var l := v.l;
    var wk := WorkerApply(cfg, v, WExit(w)).l.workers[w];
    forall h | h in l.owned
      ensures Fits(cfg, h, Buffered(l.owned, v.resp, h), Unwritten(cfg, l.workers[w := wk], l.taken, h)) {
      PendingOther(cfg, l.workers, w, wk, h);
    }
  }

  lemma StepRoom(cfg: Config, v: View, a: Action)
    requires BaseInv(cfg, v) && RoomInv(cfg, v) && Enabled(cfg, v, a) && !Active(v.l.consumer)
    ensures RoomInv(cfg, Apply(cfg, v, a))
  {
    hide Owned, Queues, Output, Reassembly, Room, ProducerApply, WorkerApply, ProducerEnabled, WorkerEnabled;
    if IsProducer(a) { ProducerRoom(cfg, v, a); }
    else if IsWorker(a) { WorkerRoom(cfg, v, a); }
    else if IsConsumer(a) { assert a.CFail?; }
  }

  lemma ProducerLeaves(cfg: Config, v: View, a: Action)
    requires IsProducer(a) && !a.PGet? && ProducerEnabled(v, a)
    ensures var v' := ProducerApply(cfg, v, a); v'.resp == v.resp && v'.l.owned == v.l.owned
  {
    hide AfterHeight, AfterSkip, SpendOn;
    match a
    case POrder =>
    case PWork =>
    case PLast =>
    case PClose =>
    case PSkip =>
  }

  lemma ProducerKeepsWorkers(cfg: Config, v: View, a: Action)
    requires IsProducer(a) && ProducerEnabled(v, a)
    ensures ProducerApply(cfg, v, a).l.workers == v.l.workers
  {
    hide AfterHeight;
  }

  lemma ProducerTakesNothing(cfg: Config, v: View, a: Action)
    requires IsProducer(a) && ProducerEnabled(v, a)
    ensures ProducerApply(cfg, v, a).l.taken == v.l.taken
  {
    hide AfterHeight;
  }

  lemma ProducerRoom(cfg: Config, v: View, a: Action)
    requires BaseInv(cfg, v) && RoomInv(cfg, v) && IsProducer(a) && ProducerEnabled(v, a)
    ensures RoomInv(cfg, ProducerApply(cfg, v, a))
  {
    hide Owned, Queues, Output, Reassembly, Room, ProducerApply, ProducerEnabled;
    if a.PGet? { PGetRoom(cfg, v, a); }
    else {
      ProducerLeaves(cfg, v, a);
      ProducerKeepsWorkers(cfg, v, a);
      ProducerTakesNothing(cfg, v, a);
    }
  }

  lemma WorkerRoom(cfg: Config, v: View, a: Action)
    requires BaseInv(cfg, v) && RoomInv(cfg, v) && IsWorker(a) && WorkerEnabled(v, a)
    ensures RoomInv(cfg, WorkerApply(cfg, v, a))
  {
    hide Owned, Queues, Output, Reassembly, RoomInv, WorkerApply, WorkerEnabled;
    match a
    case WTake(w) => WTakeRoom(cfg, v, w);
    case WFetch(w) => WFetchRoom(cfg, v, w);
    case WSend(w) => WSendRoom(cfg, v, w);
    case WExit(w) => WExitRoom(cfg, v, w);
  }

  lemma InitInv(cfg: Config, v: View)
    requires ValidConfig(cfg) && InitView(cfg, v)
    ensures Inv(cfg, v)
  {
    InitBase(cfg, v);
  }

  /** Every action of every goroutine keeps the invariant. */
  lemma StepKeeps(cfg: Config, v: View, a: Action)
    requires Inv(cfg, v) && Enabled(cfg, v, a)
    ensures Inv(cfg, Apply(cfg, v, a))
  {
    StepKeepsBase(cfg, v, a);
    if a.CSignal? { ActiveRoom(cfg, v); }
    else if Active(v.l.consumer) { StaysActive(cfg, v, a); ActiveRoom(cfg, Apply(cfg, v, a)); }
    else { StepRoom(cfg, v, a); }
  }

  lemma ConsumerStaysActive(cfg: Config, v: View, a: Action)
    requires IsConsumer(a) && ConsumerEnabled(cfg, v, a) && Active(v.l.consumer) && !a.CSignal?
    ensures Active(ConsumerApply(cfg, v, a).l.consumer)
  {
    match a
    case CTake =>
    case CRead =>
    case CForward =>
    case _ =>
  }

  /** What the producer and the workers leave alone. */
  ghost predicate SameOutput(l: Local, l': Local) {
    && l'.consumer == l.consumer && l'.sender == l.sender && l'.calls == l.calls && l'.cancelled == l.cancelled
    && l'.outBuf == l.outBuf && (!l.cancelled ==> l'.late == l.late)
  }

  lemma ProducerFrame(cfg: Config, v: View, a: Action)
    requires IsProducer(a) && ProducerEnabled(v, a)
    ensures SameOutput(v.l, ProducerApply(cfg, v, a).l)
  {
    hide AfterHeight;
    if a.PSkip? { SkipFrame(cfg, v); }
  }

  lemma SkipFrame(cfg: Config, v: View)
    requires ProducerEnabled(v, PSkip)
    ensures SameOutput(v.l, ProducerApply(cfg, v, PSkip).l)
  {
  }

  lemma WorkerFrame(cfg: Config, v: View, a: Action)
    requires IsWorker(a) && WorkerEnabled(v, a)
    ensures SameOutput(v.l, WorkerApply(cfg, v, a).l)
  {
    hide Msgs, AfterSend;
  }

  lemma ConsumerKeepsSender(cfg: Config, v: View, a: Action)
    requires IsConsumer(a) && ConsumerEnabled(cfg, v, a)
    ensures var l := ConsumerApply(cfg, v, a).l;
            l.sender == v.l.sender && l.calls == v.l.calls && l.cancelled == v.l.cancelled && l.late == v.l.late
  {
    hide AfterRead;
    match a
    case CTake =>
    case CRead =>
    case CForward =>
    case _ =>
  }

  lemma OnlyCancelCancels(cfg: Config, v: View, a: Action)
    requires Enabled(cfg, v, a) && !a.Cancel?
    ensures Apply(cfg, v, a).l.cancelled == v.l.cancelled
  {
    hide ProducerApply, WorkerApply, ProducerEnabled, WorkerEnabled, ConsumerEnabled, ConsumerApply;
    if IsProducer(a) { ProducerFrame(cfg, v, a); }
    else if IsWorker(a) { WorkerFrame(cfg, v, a); }
    else if IsConsumer(a) { ConsumerKeepsSender(cfg, v, a); }
  }

  /** Only the consumer's own actions move the consumer. */
  lemma OthersKeepConsumer(cfg: Config, v: View, a: Action)
    requires Enabled(cfg, v, a) && !IsConsumer(a)
    ensures Apply(cfg, v, a).l.consumer == v.l.consumer
  {
    hide ProducerEnabled, ProducerApply, WorkerEnabled, WorkerApply;
    if IsProducer(a) { ProducerFrame(cfg, v, a); } else if IsWorker(a) { WorkerFrame(cfg, v, a); }
  }

  /** Only the error signal ends the active phase. */
  lemma StaysActive(cfg: Config, v: View, a: Action)
    requires Enabled(cfg, v, a) && Active(v.l.consumer) && !a.CSignal?
    ensures Active(Apply(cfg, v, a).l.consumer)
  {
    if IsConsumer(a) { ConsumerStaysActive(cfg, v, a); } else { OthersKeepConsumer(cfg, v, a); }
  }
}
