/**
 The concurrent range fetcher of client/client.go as a step system.

 One run of getRange is a producer (populateRange), a fixed number of workers
 (asyncBlockAndTx), the consumer loop of getRange itself followed by the tail of
 GetTransactions, and the sender (sendResp).  They communicate over bounded FIFO
 channels.  Every channel operation of the source is one action here, so an
 execution is any interleaving of actions.
 */
module RangeProtocol {
  import opened Structs

  // ---------- what travels over the channels ----------

  datatype Outcome = Fetched(block: Block, txs: seq<Transaction>) | Failed(err: string)

  datatype Resp = BlockMsg(block: Block) | TxMsg(tx: Transaction) | Partial | Error(err: string)

  function TxMsgs(txs: seq<Transaction>): seq<Resp> {
    seq(|txs|, i requires 0 <= i < |txs| => TxMsg(txs[i]))
  }

  /** What a height contributes to the output when it is fetched without error. */
  function Body(o: Outcome): seq<Resp> {
    match o
    case Fetched(b, txs) => [BlockMsg(b)] + TxMsgs(txs)
    case Failed(_) => []
  }

  /** Everything a worker writes to the private channel of a height. */
  function Messages(o: Outcome): seq<Resp> {
    match o
    case Fetched(_, _) => Body(o) + [Partial]
    case Failed(e) => [Error(e)]
  }

  type ChanId = nat

  /** A Go channel: its buffered values, its capacity, and whether it was closed. */
  datatype Chan<T> = Chan(buf: seq<T>, cap: nat, closed: bool) {
    predicate Ready() { closed || |buf| < cap }
    function Push(x: T): Chan<T> { this.(buf := buf + [x]) }
    function Pop(): Chan<T> requires buf != [] { this.(buf := buf[1..]) }
  }

  /** A nil channel: nothing can be sent to it or received from it. */
  const NIL: Chan<Resp> := Chan([], 0, false)

  /** hBTx: a height with its private response channel, or the Last marker. */
  datatype Item = Item(h: nat, ch: ChanId) | Last

  datatype Call = Sent(order: nat, resp: Resp) | End(order: nat)

  // ---------- one run ----------

  /** A request: its range, the outcome of fetching each height, the number of workers
      and the capacity of the channel to the sender. */
  datatype Config = Config(start: nat, end: nat, outcome: nat -> Outcome, workers: nat, outCap: nat)

  ghost predicate ValidConfig(cfg: Config) {
    && cfg.start < TWO_64 - 1 && cfg.end < TWO_64 - 1
    && 1 <= cfg.workers && 1 <= cfg.outCap
  }

  /** populateRange is a do-while loop: it always emits the start height. */
  function LastHeight(cfg: Config): nat {
    if cfg.start <= cfg.end then cfg.end else cfg.start
  }

  function Msgs(cfg: Config, h: nat): seq<Resp> { Messages(cfg.outcome(h)) }

  datatype Producer =
    | Getting(h: nat)        // about to call oRespPool.Get
    | Ordering(item: Item)   // about to send to the ordering channel
    | Working(item: Item)    // about to send to the work channel
    | Lasting                // about to send the Last marker
    | Closing                // about to close the work channel
    | Stopped

  datatype Worker =
    | Idle
    | Fetching(h: nat, ch: ChanId)
    | Sending(h: nat, ch: ChanId, todo: seq<Resp>)
    | Returning(h: nat)               // wrote an Error, about to return
    | Exited(cause: Option<nat>)      // the failing height, if it returned on an error

  /** The goroutine of getRange, then of GetTransactions.  The number of messages read from the
      current channel (got) and the next expected height (next) are history, not program state. */
  datatype Consumer =
    | Waiting(next: nat)
    | Reading(h: nat, ch: ChanId, got: nat)
    | Holding(h: nat, ch: ChanId, got: nat, resp: Resp)
    | Putting(h: nat, ch: ChanId)
    | Signalling(h: nat, err: string)
    | FailForward(h: nat, err: string)
    | Failing(h: nat, err: string)    // the Error was forwarded
    | Releasing                       // saw Last, about to return the ordering channel
    | Returned                        // getRange returned nil, about to close out
    | Awaiting                        // waiting for fin or for the context
    | Done

  datatype Sender = Receiving | Have(resp: Resp) | Ending | Ended

  /** What the producer's select took the error signal instead of: a send of a height to the ordering or to the
      work channel, or of the Last marker. */
  datatype Spent = Unspent | OnOrder | OnWork(h: nat) | OnLast

  /** owned, taken, written, spent and late are history: which channel each height holds, the height after the
      last one taken by a worker, all that was ever sent to out, what became of the error signal, and whether
      a height was fetched after the cancellation. */
  datatype Local = Local(
    producer: Producer, workers: seq<Worker>, consumer: Consumer, sender: Sender,
    token: bool, cancelled: bool, fault: bool,
    outBuf: seq<Resp>, outClosed: bool, order: nat, calls: seq<Call>,
    owned: map<nat, ChanId>, taken: nat, written: seq<Resp>, spent: Spent, late: bool)

  /** A run together with the channels it works on. */
  datatype View = View(l: Local, ord: Chan<Item>, work: Chan<Item>, resp: map<ChanId, Chan<Resp>>)

  datatype Action =
    | PGet(c: ChanId, chan: Chan<Resp>) | POrder | PWork | PLast | PClose | PSkip
    | WTake(w: nat) | WFetch(w: nat) | WSend(w: nat) | WExit(w: nat)
    | CTake | CRead | CForward | CPut | CSignal | CFail | CRelease | CClose | CFin
    | SRecv | SSend | SEnd | SCancel | Cancel

  predicate IsProducer(a: Action) { a.PGet? || a.POrder? || a.PWork? || a.PLast? || a.PClose? || a.PSkip? }

  predicate IsWorker(a: Action) { a.WTake? || a.WFetch? || a.WSend? || a.WExit? }

  predicate IsSender(a: Action) { a.SRecv? || a.SSend? || a.SEnd? || a.SCancel? || a.Cancel? }

  predicate IsConsumer(a: Action) {
    a.CTake? || a.CRead? || a.CForward? || a.CPut? || a.CSignal? || a.CFail? || a.CRelease? || a.CClose? || a.CFin?
  }

  // ---------- the producer ----------

  /** height++ in uint64, then the loop test. */
  function AfterHeight(cfg: Config, h: nat): Producer {
    var next := (h + 1) % TWO_64;
    if next > cfg.end then Lasting else Getting(next)
  }

  function AfterSkip(cfg: Config, p: Producer): Producer {
    match p
    case Ordering(item) => Working(item)
    case Working(item) => if item.Item? then AfterHeight(cfg, item.h) else Closing
    case _ => Closing
  }

  /** What the producer spends the signal on if it takes it now. */
  function SpendOn(p: Producer): Spent {
    match p
    case Ordering(_) => OnOrder
    case Working(item) => if item.Item? then OnWork(item.h) else OnLast
    case _ => OnLast
  }

  ghost predicate ProducerEnabled(v: View, a: Action)
    requires IsProducer(a)
  {
    var p := v.l.producer;
    match a
    case PGet(c, chan) => p.Getting? && c !in v.l.owned.Values && chan.buf == [] && !chan.closed
    case POrder => p.Ordering? && v.ord.Ready()
    case PWork => p.Working? && p.item.Item? && v.work.Ready()
    case PLast => p.Lasting? && v.ord.Ready()
    case PClose => p.Closing?
    case PSkip => v.l.token && (p.Ordering? || (p.Working? && p.item.Item?) || p.Lasting?)
  }

  ghost function ProducerApply(cfg: Config, v: View, a: Action): View
    requires IsProducer(a)
    requires ProducerEnabled(v, a)
  {
    var l := v.l;
    match a
    case PGet(c, chan) =>
      var h := l.producer.h;
      v.(l := l.(producer := Ordering(Item(h, c)), owned := l.owned[h := c]), resp := v.resp[c := chan])
    case POrder =>
      if v.ord.closed then v.(l := l.(fault := true)) else
      v.(l := l.(producer := Working(l.producer.item)), ord := v.ord.Push(l.producer.item))
    case PWork =>
      if v.work.closed then v.(l := l.(fault := true)) else
      v.(l := l.(producer := AfterHeight(cfg, l.producer.item.h)), work := v.work.Push(l.producer.item))
    case PLast =>
      if v.ord.closed then v.(l := l.(fault := true)) else
      v.(l := l.(producer := Closing), ord := v.ord.Push(Last))
    case PClose =>
      if v.work.closed then v.(l := l.(fault := true)) else
      v.(l := l.(producer := Stopped), work := v.work.(closed := true))
    case PSkip =>
      // the other select branch: the error signal is consumed and the send is skipped
      v.(l := l.(producer := AfterSkip(cfg, l.producer), token := false, spent := SpendOn(l.producer)))
  }

  // ---------- the workers ----------

  ghost predicate WorkerEnabled(v: View, a: Action)
    requires IsWorker(a)
  {
    a.w < |v.l.workers| &&
    var k := v.l.workers[a.w];
    match a
    case WTake(_) => k.Idle? && v.work.buf != [] && v.work.buf[0].Item?
    case WFetch(_) => k.Fetching?
    case WSend(_) => k.Sending? && k.todo != [] && k.ch in v.resp && v.resp[k.ch].Ready()
    case WExit(_) => k.Returning? || (k.Idle? && v.work.buf == [] && v.work.closed)
  }

  ghost function WithWorker(l: Local, w: nat, k: Worker): Local
    requires w < |l.workers|
  {
    l.(workers := l.workers[w := k])
  }

  function AfterSend(h: nat, ch: ChanId, todo: seq<Resp>): Worker
    requires todo != []
  {
    if |todo| > 1 then Sending(h, ch, todo[1..])
    else if todo[0].Error? then Returning(h) else Idle
  }

  ghost function WorkerApply(cfg: Config, v: View, a: Action): View
    requires IsWorker(a)
    requires WorkerEnabled(v, a)
  {
    var l := v.l;
    var k := l.workers[a.w];
    match a
    case WTake(w) =>
      var item := v.work.buf[0];
      v.(l := WithWorker(l, w, Fetching(item.h, item.ch)).(taken := item.h + 1), work := v.work.Pop())
    case WFetch(w) => v.(l := WithWorker(l, w, Sending(k.h, k.ch, Msgs(cfg, k.h))).(late := l.late || l.cancelled))
    case WSend(w) =>
      if v.resp[k.ch].closed then v.(l := l.(fault := true)) else
      v.(l := WithWorker(l, w, AfterSend(k.h, k.ch, k.todo)),
         resp := v.resp[k.ch := v.resp[k.ch].Push(k.todo[0])])
    case WExit(w) => v.(l := WithWorker(l, w, Exited(if k.Returning? then Some(k.h) else None)))
  }

  // ---------- the consumer ----------

  ghost predicate ConsumerEnabled(cfg: Config, v: View, a: Action)
    requires IsConsumer(a)
  {
    var k := v.l.consumer;
    match a
    case CTake => k.Waiting? && (v.ord.buf != [] || v.ord.closed)
    case CRead => k.Reading? && k.ch in v.resp && (v.resp[k.ch].buf != [] || v.resp[k.ch].closed)
    case CForward => k.Holding? && |v.l.outBuf| < cfg.outCap
    case CPut => k.Putting?
    case CSignal => k.Signalling?
    case CFail => k.FailForward? && |v.l.outBuf| < cfg.outCap
    case CRelease => k.Releasing?
    case CClose => k.Returned?
    case CFin => k.Awaiting? && (v.l.sender.Ended? || v.l.cancelled)
  }

  /** The switch on the type of a response read in the inner loop. */
  function AfterRead(h: nat, ch: ChanId, got: nat, r: Resp): Consumer {
    match r
    case Partial => Putting(h, ch)
    case Error(e) => Signalling(h, e)
    case _ => Holding(h, ch, got + 1, r)
  }

  ghost function ConsumerApply(cfg: Config, v: View, a: Action): View
    requires IsConsumer(a)
    requires ConsumerEnabled(cfg, v, a)
  {
    var l := v.l;
    var k := l.consumer;
    match a
    case CTake =>
      if v.ord.buf == [] then v.(l := l.(fault := true)) else
      var next := match v.ord.buf[0] case Last => Releasing case Item(h, ch) => Reading(h, ch, 0);
      v.(l := l.(consumer := next), ord := v.ord.Pop())
    case CRead =>
      if v.resp[k.ch].buf == [] then v.(l := l.(consumer := Putting(k.h, k.ch))) else
      v.(l := l.(consumer := AfterRead(k.h, k.ch, k.got, v.resp[k.ch].buf[0])),
         resp := v.resp[k.ch := v.resp[k.ch].Pop()])
    case CForward =>
      v.(l := l.(consumer := Reading(k.h, k.ch, k.got), outBuf := l.outBuf + [k.resp], written := l.written + [k.resp]))
    case CPut =>
      v.(l := l.(consumer := Waiting(k.h + 1), owned := l.owned - {k.h}), resp := v.resp - {k.ch})
    case CSignal => v.(l := l.(consumer := FailForward(k.h, k.err), token := true))
    case CFail =>
      v.(l := l.(consumer := Failing(k.h, k.err),
                 outBuf := l.outBuf + [Error(k.err)], written := l.written + [Error(k.err)]))
    case CRelease => v.(l := l.(consumer := Returned), ord := NO_CHANNEL)
    case CClose => v.(l := l.(consumer := Awaiting, outClosed := true))
    case CFin => v.(l := l.(consumer := Done))
  }

  /** Stands for the ordering channel of a run that has given it back. */
  const NO_CHANNEL: Chan<Item> := Chan([], 1, false)

  // ---------- the sender, and cancellation of the request's context ----------

  ghost predicate SenderEnabled(v: View, a: Action)
    requires IsSender(a)
  {
    match a
    case SRecv => v.l.sender.Receiving? && (v.l.outBuf != [] || v.l.outClosed)
    case SSend => v.l.sender.Have?
    case SEnd => v.l.sender.Ending?
    case SCancel => v.l.sender.Receiving? && v.l.cancelled
    case Cancel => !v.l.cancelled
  }

  ghost function SenderApply(v: View, a: Action): View
    requires IsSender(a)
    requires SenderEnabled(v, a)
  {
    var l := v.l;
    match a
    case SRecv =>
      if l.outBuf == [] then v.(l := l.(sender := Ending)) else
      v.(l := l.(sender := Have(l.outBuf[0]), outBuf := l.outBuf[1..]))
    case SSend =>
      v.(l := l.(sender := Receiving, calls := l.calls + [Sent(l.order, l.sender.resp)],
                 order := (l.order + 1) % TWO_64))
    case SEnd => v.(l := l.(sender := Ended, calls := l.calls + [End(l.order)]))
    case SCancel => v.(l := l.(sender := Ending))
    case Cancel => v.(l := l.(cancelled := true))
  }

  // ---------- the step system ----------

  ghost predicate Enabled(cfg: Config, v: View, a: Action) {
    if IsProducer(a) then ProducerEnabled(v, a)
    else if IsWorker(a) then WorkerEnabled(v, a)
    else if IsSender(a) then SenderEnabled(v, a)
    else ConsumerEnabled(cfg, v, a)
  }

  ghost function Apply(cfg: Config, v: View, a: Action): View
    requires Enabled(cfg, v, a)
  {
    if IsProducer(a) then ProducerApply(cfg, v, a)
    else if IsWorker(a) then WorkerApply(cfg, v, a)
    else if IsSender(a) then SenderApply(v, a)
    else ConsumerApply(cfg, v, a)
  }

  ghost function InitLocal(cfg: Config): Local {
    Local(Getting(cfg.start), seq(cfg.workers, _ => Idle), Waiting(cfg.start), Receiving,
          false, false, false, [], false, 0, [], map[], cfg.start, [], Unspent, false)
  }

  /** A run just after getRange obtained two empty, open channels and started its goroutines. */
  ghost predicate InitView(cfg: Config, v: View) {
    && v.l == InitLocal(cfg)
    && v.ord.buf == [] && !v.ord.closed && 1 <= v.ord.cap
    && v.work.buf == [] && !v.work.closed && 1 <= v.work.cap
    && v.resp == map[]
  }

  // ---------- the sequential program the protocol stands for ----------

  /** for h in start..end emit Block(h) then Txs(h), stopping with one Error at the first failing height. */
  ghost function Listing(cfg: Config, h: nat): seq<Resp>
    decreases LastHeight(cfg) + 1 - h
  {
    if h > LastHeight(cfg) then []
    else match cfg.outcome(h)
      case Failed(e) => [Error(e)]
      case Fetched(_, _) => Body(cfg.outcome(h)) + Listing(cfg, h + 1)
  }

  /** The bodies of the heights a, a+1, ..., b-1 in order. */
  ghost function Bodies(cfg: Config, a: nat, b: nat): seq<Resp>
    decreases b
  {
    if b <= a then [] else Bodies(cfg, a, b - 1) + Body(cfg.outcome(b - 1))
  }

  ghost predicate AllFetched(cfg: Config, a: nat, b: nat) {
    forall h :: a <= h < b ==> cfg.outcome(h).Fetched?
  }

  lemma Regroup(x: seq<Resp>, y: seq<Resp>, z: seq<Resp>)
    ensures x + (y + z) == (x + y) + z
  {
  }

  lemma {:induction false} ListingSplit(cfg: Config, a: nat, b: nat)
    requires a <= b <= LastHeight(cfg) + 1 && AllFetched(cfg, a, b)
    ensures Listing(cfg, a) == Bodies(cfg, a, b) + Listing(cfg, b)
    decreases b
  {
    if a < b {
      ListingSplit(cfg, a, b - 1);
      Regroup(Bodies(cfg, a, b - 1), Body(cfg.outcome(b - 1)), Listing(cfg, b));
    }
  }

  /** Responses numbered 0, 1, 2, ... in uint64. */
  function Numbered(xs: seq<Resp>): seq<Call> {
    seq(|xs|, i requires 0 <= i < |xs| => Sent(i % TWO_64, xs[i]))
  }
}
