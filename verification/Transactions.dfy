/**
 api/transaction.go: the pagination loop of SearchTx, the matching of messages to logs, and the
 conversion of a raw transaction.  The add*SubEvent dispatchers are a parameter: a function from a
 message with its log to a sub-event and an optional error.
 */
module Transactions {
  import opened Structs
  import opened Text
  import opened Transfers

  datatype Log = Log(msgIndex: nat, events: seq<Event>)

  /** types.ABCIMessageLog{} */
  const NO_LOG := Log(0, [])

  function Uint32(n: nat): nat { n % 0x1_0000_0000 }

  // ---------- findLog ----------

  /** The first log from position i on that carries the index. */
  function FirstLog(logs: seq<Log>, index: nat, i: nat): Log
    requires i <= |logs|
    decreases |logs| - i
  {
    if i == |logs| then NO_LOG
    else if logs[i].msgIndex == Uint32(index) then logs[i]
    else FirstLog(logs, index, i + 1)
  }

  function LogFor(logs: seq<Log>, index: nat): Log {
    if |logs| <= index then NO_LOG
    else if logs[index].msgIndex == Uint32(index) then logs[index]
    else FirstLog(logs, index, 0)
  }

  method FindLog(logs: seq<Log>, index: nat) returns (lg: Log)
    ensures lg == LogFor(logs, index) && RightLog(logs, index, lg)
  {
    LogForIsRight(logs, index);
    hide RightLog;
    if |logs| <= index { return NO_LOG; }
    if logs[index].msgIndex == Uint32(index) { return logs[index]; }
    var i := 0;
    while i < |logs|
      invariant 0 <= i <= |logs|
      invariant FirstLog(logs, index, 0) == FirstLog(logs, index, i)
    {
      if logs[i].msgIndex == Uint32(index) { return logs[i]; }
      i := i + 1;
    }
    lg := NO_LOG;
  }

  ghost predicate Carries(logs: seq<Log>, index: nat) {
    exists i :: 0 <= i < |logs| && logs[i].msgIndex == Uint32(index)
  }

  lemma {:induction false} FirstLogFound(logs: seq<Log>, index: nat, i: nat)
    requires i <= |logs|
    ensures (exists j :: i <= j < |logs| && logs[j].msgIndex == Uint32(index))
            ==> FirstLog(logs, index, i) in logs && FirstLog(logs, index, i).msgIndex == Uint32(index)
    ensures !(exists j :: i <= j < |logs| && logs[j].msgIndex == Uint32(index)) ==> FirstLog(logs, index, i) == NO_LOG
    decreases |logs| - i
  {
    if i < |logs| { FirstLogFound(logs, index, i + 1); }
  }

  lemma {:induction false} FirstLogIsFirst(logs: seq<Log>, index: nat, i: nat, j: nat)
    requires i <= j < |logs| && logs[j].msgIndex == Uint32(index)
    requires forall k :: i <= k < j ==> logs[k].msgIndex != Uint32(index)
    ensures FirstLog(logs, index, i) == logs[j]
    decreases j - i
  {
    if i < j { FirstLogIsFirst(logs, index, i + 1, j); }
  }

  /** The first position that carries the index. */
  lemma FirstCarrier(logs: seq<Log>, index: nat) returns (j: nat)
    requires Carries(logs, index)
    ensures j < |logs| && logs[j].msgIndex == Uint32(index)
    ensures forall k :: 0 <= k < j ==> logs[k].msgIndex != Uint32(index)
  {
    j := 0;
    while logs[j].msgIndex != Uint32(index)
      invariant j < |logs| && forall k :: 0 <= k < j ==> logs[k].msgIndex != Uint32(index)
      decreases |logs| - j
    {
      assert exists i :: 0 <= i < |logs| && logs[i].msgIndex == Uint32(index);
      j := j + 1;
    }
  }

  /** The log that message i is to be mapped with.  If there are more logs than i: the log at position i if that carries
      the message's index (as a uint32), otherwise the first that does.  In all other cases the empty log. */
  ghost predicate RightLog(logs: seq<Log>, i: nat, lg: Log) {
    if exists j: nat :: LogPlace(logs, i, j) then exists j: nat :: LogPlace(logs, i, j) && lg == logs[j]
    else lg == Log(0, [])
  }

  ghost predicate LogPlace(logs: seq<Log>, i: nat, j: nat) {
    && i < |logs| && j < |logs| && logs[j].msgIndex == i % 0x1_0000_0000
    && (i == j || (logs[i].msgIndex != i % 0x1_0000_0000
                   && forall k :: 0 <= k < j ==> logs[k].msgIndex != i % 0x1_0000_0000))
  }

  lemma RightLogIsUnique(logs: seq<Log>, i: nat, lg: Log, lg': Log)
    requires RightLog(logs, i, lg) && RightLog(logs, i, lg')
    ensures lg == lg'
  {
    if exists j: nat :: LogPlace(logs, i, j) {
      var j: nat :| LogPlace(logs, i, j) && lg == logs[j];
      var j': nat :| LogPlace(logs, i, j') && lg' == logs[j'];
      assert j == j';
    }
  }

  /** findLog finds the right log. */
  lemma LogForIsRight(logs: seq<Log>, i: nat)
    ensures RightLog(logs, i, LogFor(logs, i))
  {
    if i < |logs| && Carries(logs, i) {
      if logs[i].msgIndex == Uint32(i) {
        assert LogPlace(logs, i, i);
      } else {
        var j := FirstCarrier(logs, i);
        FirstLogIsFirst(logs, i, 0, j);
        assert LogPlace(logs, i, j);
      }
    } else {
      LogForFinds(logs, i);
    }
  }

  /** A message gets a log of its own index whenever there is one and there are more logs than its position;
      otherwise it gets the empty log. */
  lemma LogForFinds(logs: seq<Log>, index: nat)
    ensures index < |logs| && Carries(logs, index) ==>
              LogFor(logs, index) in logs && LogFor(logs, index).msgIndex == Uint32(index)
    ensures !(index < |logs| && Carries(logs, index)) ==> LogFor(logs, index) == NO_LOG
  {
    FirstLogFound(logs, index, 0);
  }

  /** The logs carry each of the indexes 0..n-1 once, in some order. */
  ghost predicate IsPermutation(logs: seq<Log>) {
    && |logs| <= 0x1_0000_0000
    && (forall i :: 0 <= i < |logs| ==> logs[i].msgIndex < |logs|)
    && (forall i, j :: 0 <= i < j < |logs| ==> logs[i].msgIndex != logs[j].msgIndex)
  }

  ghost function IndexSet(logs: seq<Log>, n: nat): set<nat>
    requires n <= |logs|
  {
    set i | 0 <= i < n :: logs[i].msgIndex
  }

  lemma {:induction false} IndexSetSize(logs: seq<Log>, n: nat)
    requires IsPermutation(logs) && n <= |logs|
    ensures |IndexSet(logs, n)| == n
  {
    if n > 0 {
      IndexSetSize(logs, n - 1);
      assert IndexSet(logs, n) == IndexSet(logs, n - 1) + {logs[n - 1].msgIndex};
      assert logs[n - 1].msgIndex !in IndexSet(logs, n - 1);
    }
  }

  lemma {:induction false} FullSet(s: set<nat>, n: nat)
    requires |s| == n && forall x :: x in s ==> x < n
    ensures forall x: nat :: x < n ==> x in s
    decreases n
  {
    if n > 0 {
      if n - 1 !in s { BoundedSize(s, n - 1); }
      FullSet(s - {n - 1}, n - 1);
      forall x: nat | x < n ensures x in s { assert x < n - 1 ==> x in s - {n - 1}; }
    }
  }

  lemma {:induction false} BoundedSize(s: set<nat>, n: nat)
    requires forall x :: x in s ==> x < n
    ensures |s| <= n
    decreases n
  {
    if n > 0 {
      BoundedSize(s - {n - 1}, n - 1);
    } else {
      assert s == {};
    }
  }

  /** On logs in any order every message is given the one log that carries its index. */
  lemma EveryMessageGetsItsLog(logs: seq<Log>, index: nat)
    requires IsPermutation(logs) && index < |logs|
    ensures LogFor(logs, index) in logs && LogFor(logs, index).msgIndex == index
  {
    IndexSetSize(logs, |logs|);
    FullSet(IndexSet(logs, |logs|), |logs|);
    assert index in IndexSet(logs, |logs|);
    var i :| 0 <= i < |logs| && logs[i].msgIndex == index;
    assert Carries(logs, index);
    LogForFinds(logs, index);
  }

  // ---------- rawToTransaction ----------

  datatype Message = Message(typeUrl: string, value: string)

  datatype Family = Ibc | Cosmos | Tendermint

  datatype Routed = Routed(family: Family, route: string, msgType: string, value: string, log: Log)

  datatype Mapped = Mapped(event: SubEvent, err: Option<string>)

  /** A transaction and its response, as the node returns them; body is None when the node sent none. */
  datatype RawTx = RawTx(
    marshals: bool, body: Option<seq<Message>>, memo: string,
    height: nat, hash: string, code: nat, codespace: string, rawLog: string, logs: seq<Log>)

  function WrongFormat(url: string): string { "TypeURL is in wrong format: " + url }

  /** The route taken from the parts of a type URL. */
  function RouteOf(m: Message, lg: Log): Option<Routed> {
    var p := Split(m.typeUrl, '.');
    if |p| == 5 && p[0] == "/ibc" then Some(Routed(Ibc, p[2], p[4], m.value, lg))
    else if |p| == 4 && p[0] == "/cosmos" then Some(Routed(Cosmos, p[1], p[3], m.value, lg))
    else if |p| == 4 && p[0] == "/tendermint" then Some(Routed(Tendermint, p[1], p[3], m.value, lg))
    else None
  }

  /** The type URL of a message: a package path of the given parts, then the message type. */
  function TypeUrl(parts: seq<string>): string { Join(parts, '.') }

  /** Module and message type are taken from the right places of a type URL of each family; any URL of another
      family or another length is refused. */
  lemma RouteOfUrl(parts: seq<string>, value: string, lg: Log)
    requires parts != [] && Without(parts, '.')
    ensures var r := RouteOf(Message(TypeUrl(parts), value), lg);
            && (r.Some? <==>
                  (|parts| == 5 && parts[0] == "/ibc") || (|parts| == 4 && parts[0] in {"/cosmos", "/tendermint"}))
            && (r.Some? ==>
                  && r.value.msgType == parts[|parts| - 1] && r.value.route == parts[|parts| - 3]
                  && r.value.value == value && r.value.log == lg
                  && (r.value.family == Ibc <==> parts[0] == "/ibc")
                      && (r.value.family == Cosmos <==> parts[0] == "/cosmos"))
  {
    SplitJoin(parts, '.');
  }

  /** What the end of each dispatcher does with the mapped sub-event. */
  function WithSub(tev: TransactionEvent, ev: SubEvent): TransactionEvent {
    if |ev.types| > 0 then tev.(sub := tev.sub + [ev], kind := ev.types[0]) else tev
  }

  /** The event of the message at a position, given its log. */
  function EventFor(dispatch: Routed -> Mapped, m: Message, index: nat, lg: Log): Result<TransactionEvent> {
    match RouteOf(m, lg)
    case None => Err(WrongFormat(m.typeUrl))
    case Some(r) =>
      if dispatch(r).err.Some? then Err(dispatch(r).err.value)
      else Ok(WithSub(TransactionEvent(Itoa(index), "", []), dispatch(r).event))
  }

  function ErrorEvent(raw: RawTx): TransactionEvent {
    TransactionEvent("", "error", [SubEvent(["error"], raw.codespace, Some(raw.rawLog))])
  }

  function MessagesOf(raw: RawTx): seq<Message> { if raw.body.Some? then raw.body.value else [] }

  /** The events of the first n messages, or the error of the first that cannot be mapped. */
  function EventsOf(dispatch: Routed -> Mapped, raw: RawTx, n: nat): Result<seq<TransactionEvent>>
    requires n <= |MessagesOf(raw)|
  {
    if n == 0 then Ok([])
    else match EventsOf(dispatch, raw, n - 1)
      case Err(e) => Err(e)
      case Ok(es) =>
        match EventFor(dispatch, MessagesOf(raw)[n - 1], n - 1, LogFor(raw.logs, n - 1))
        case Err(e) => Err(e)
        case Ok(ev) => Ok(es + [ev])
  }

  function Converted(dispatch: Routed -> Mapped, raw: RawTx): Result<Transaction> {
    if !raw.marshals then Err("Error marshaling tx to raw")
    else match EventsOf(dispatch, raw, |MessagesOf(raw)|)
      case Err(e) => Err(e)
      case Ok(es) =>
        Ok(Transaction(raw.height, raw.hash, if raw.body.Some? then raw.memo else "",
                       es + (if raw.code > 0 then [ErrorEvent(raw)] else []), "", "", 0))
  }

  lemma {:induction false} EventsError(dispatch: Routed -> Mapped, raw: RawTx, i: nat, n: nat)
    requires i <= n <= |MessagesOf(raw)| && EventsOf(dispatch, raw, i).Err?
    ensures EventsOf(dispatch, raw, n) == EventsOf(dispatch, raw, i)
    decreases n
  {
    if i < n { EventsError(dispatch, raw, i, n - 1); }
  }

  lemma {:induction false} EventsShape(dispatch: Routed -> Mapped, raw: RawTx, n: nat)
    requires n <= |MessagesOf(raw)| && EventsOf(dispatch, raw, n).Ok?
    ensures var es := EventsOf(dispatch, raw, n).value;
            && |es| == n
            && forall i :: 0 <= i < n ==> EventFor(dispatch, MessagesOf(raw)[i], i, LogFor(raw.logs, i)) == Ok(es[i])
  {
    hide EventFor, LogFor, MessagesOf;
    if n > 0 { EventsShape(dispatch, raw, n - 1); }
  }

  /** Success is one event for each message, in order, and one trailing error event exactly when the code
      says so. */
  lemma ConvertedShape(dispatch: Routed -> Mapped, raw: RawTx)
    requires Converted(dispatch, raw).Ok?
    ensures var es := Converted(dispatch, raw).value.events;
            var n := |MessagesOf(raw)|;
            && |es| == n + (if raw.code > 0 then 1 else 0)
            && (forall i :: 0 <= i < n ==> EventFor(dispatch, MessagesOf(raw)[i], i, LogFor(raw.logs, i)) == Ok(es[i]))
            && (raw.code > 0 ==> es[n] == ErrorEvent(raw))
  {
    EventsShape(dispatch, raw, |MessagesOf(raw)|);
  }

  /** Event e holds what the message with that log is mapped to: the sub-event, under the first of its types, or
      nothing if it has no type. */
  ghost predicate MappedFrom(dispatch: Routed -> Mapped, m: Message, lg: Log, e: TransactionEvent) {
    RouteOf(m, lg).Some? &&
    var mapped := dispatch(RouteOf(m, lg).value);
    && mapped.err.None?
    && if mapped.event.types == [] then e.sub == [] && e.kind == ""
       else e.sub == [mapped.event] && e.kind == mapped.event.types[0]
  }

  /** Event e is numbered i and is mapped from message i and its log. */
  ghost predicate Aligned(dispatch: Routed -> Mapped, raw: RawTx, i: nat, e: TransactionEvent)
    requires i < |MessagesOf(raw)|
  {
    && AllDigits(e.id) && NatValue(e.id) == i && (|e.id| > 1 ==> e.id[0] != '0')
    && exists lg :: RightLog(raw.logs, i, lg) && MappedFrom(dispatch, MessagesOf(raw)[i], lg, e)
  }

  lemma EventIsAligned(dispatch: Routed -> Mapped, raw: RawTx, i: nat, e: TransactionEvent)
    requires i < |MessagesOf(raw)| && EventFor(dispatch, MessagesOf(raw)[i], i, LogFor(raw.logs, i)) == Ok(e)
    ensures Aligned(dispatch, raw, i, e)
  {
    ItoaValue(i);
    ItoaLeads(i);
    LogForIsRight(raw.logs, i);
    assert MappedFrom(dispatch, MessagesOf(raw)[i], LogFor(raw.logs, i), e);
  }

  /** On one log per message, in any order, the right log is the one that carries the index. */
  lemma RightLogIsOwn(logs: seq<Log>, i: nat, lg: Log)
    requires IsPermutation(logs) && i < |logs| && RightLog(logs, i, lg)
    ensures lg in logs && lg.msgIndex == i
  {
    EveryMessageGetsItsLog(logs, i);
    LogForIsRight(logs, i);
    RightLogIsUnique(logs, i, lg, LogFor(logs, i));
  }

  /** Message-to-event alignment: whatever logs it has, a converted transaction has one aligned event for each message,
      in order, and one trailing error event exactly when its code says so; with one log per message, in any order,
      each event is mapped from the log that carries its message's index.  Everything else is copied. */
  lemma EventsAreAligned(dispatch: Routed -> Mapped, raw: RawTx)
    requires Converted(dispatch, raw).Ok?
    ensures var es, n := Converted(dispatch, raw).value.events, |MessagesOf(raw)|;
            && |es| == n + (if raw.code > 0 then 1 else 0)
            && (forall i :: 0 <= i < n ==> Aligned(dispatch, raw, i, es[i]))
            && (raw.code > 0 ==>
                  es[n] == TransactionEvent("", "error", [SubEvent(["error"], raw.codespace, Some(raw.rawLog))]))
    ensures IsPermutation(raw.logs) ==>
              forall i, lg :: 0 <= i < |raw.logs| && RightLog(raw.logs, i, lg) ==> lg in raw.logs && lg.msgIndex == i
    ensures var t := Converted(dispatch, raw).value;
            t == Transaction(raw.height, raw.hash, if raw.body.Some? then raw.memo else "", t.events, "", "", 0)
  {
    hide EventFor, LogFor, MappedFrom, RightLog, Aligned;
    ConvertedShape(dispatch, raw);
    var es := Converted(dispatch, raw).value.events;
    forall i | 0 <= i < |MessagesOf(raw)|
      ensures Aligned(dispatch, raw, i, es[i]) { EventIsAligned(dispatch, raw, i, es[i]); }
    if IsPermutation(raw.logs) {
      forall i, lg | 0 <= i < |raw.logs| && RightLog(raw.logs, i, lg) ensures lg in raw.logs && lg.msgIndex == i {
        RightLogIsOwn(raw.logs, i, lg);
      }
    }
  }

  // ---------- when a transaction converts ----------

  /** What dispatching message i with its right log gives: nothing if its URL cannot be routed. */
  ghost predicate Dispatched(dispatch: Routed -> Mapped, raw: RawTx, i: nat, result: Option<Mapped>)
    requires i < |MessagesOf(raw)|
  {
    exists lg :: RightLog(raw.logs, i, lg) &&
      match RouteOf(MessagesOf(raw)[i], lg) case None => result == None case Some(r) => result == Some(dispatch(r))
  }

  /** Message i has a type URL that can be routed, and its mapper reports no error. */
  ghost predicate Maps(dispatch: Routed -> Mapped, raw: RawTx, i: nat)
    requires i < |MessagesOf(raw)|
  {
    exists m :: Dispatched(dispatch, raw, i, Some(m)) && m.err.None?
  }

  /** Message i cannot be routed, or its mapper reports the error e. */
  ghost predicate FailsWith(dispatch: Routed -> Mapped, raw: RawTx, i: nat, e: string)
    requires i < |MessagesOf(raw)|
  {
    || (Dispatched(dispatch, raw, i, None) && e == "TypeURL is in wrong format: " + MessagesOf(raw)[i].typeUrl)
    || exists m :: Dispatched(dispatch, raw, i, Some(m)) && m.err == Some(e)
  }

  lemma EventForIs(dispatch: Routed -> Mapped, raw: RawTx, i: nat)
    requires i < |MessagesOf(raw)|
    ensures var r := EventFor(dispatch, MessagesOf(raw)[i], i, LogFor(raw.logs, i));
            && (r.Ok? <==> Maps(dispatch, raw, i))
            && (r.Err? ==> FailsWith(dispatch, raw, i, r.error))
  {
    hide LogFor, RightLog, MessagesOf;
    var m, lg := MessagesOf(raw)[i], LogFor(raw.logs, i);
    LogForIsRight(raw.logs, i);
    var result := match RouteOf(m, lg) case None => None case Some(r) => Some(dispatch(r));
    assert Dispatched(dispatch, raw, i, result);
    if Maps(dispatch, raw, i) {
      var mapped :| Dispatched(dispatch, raw, i, Some(mapped)) && mapped.err.None?;
      var lg' :| RightLog(raw.logs, i, lg') && RouteOf(m, lg').Some? && mapped == dispatch(RouteOf(m, lg').value);
      RightLogIsUnique(raw.logs, i, lg, lg');
    }
  }

  /** Message i is the first of the first n that does not map. */
  ghost predicate FirstUnmapped(dispatch: Routed -> Mapped, raw: RawTx, n: nat, i: nat)
    requires n <= |MessagesOf(raw)|
  {
    i < n && !Maps(dispatch, raw, i) && forall j :: 0 <= j < i ==> Maps(dispatch, raw, j)
  }

  lemma {:induction false} EventsOfIs(dispatch: Routed -> Mapped, raw: RawTx, n: nat)
    requires n <= |MessagesOf(raw)|
    ensures var r := EventsOf(dispatch, raw, n);
            && (r.Ok? <==> forall i :: 0 <= i < n ==> Maps(dispatch, raw, i))
            && (r.Err? ==> exists i: nat :: FirstUnmapped(dispatch, raw, n, i) && FailsWith(dispatch, raw, i, r.error))
  {
    hide EventFor, LogFor, MessagesOf, Maps, FailsWith;
    if n > 0 {
      EventsOfIs(dispatch, raw, n - 1);
      EventForIs(dispatch, raw, n - 1);
      var before, r := EventsOf(dispatch, raw, n - 1), EventsOf(dispatch, raw, n);
      if before.Err? {
        var i: nat :| FirstUnmapped(dispatch, raw, n - 1, i) && FailsWith(dispatch, raw, i, before.error);
        assert FirstUnmapped(dispatch, raw, n, i);
      } else if r.Err? {
        assert FirstUnmapped(dispatch, raw, n, n - 1) && FailsWith(dispatch, raw, n - 1, r.error);
      }
    }
  }

  /** Conversion succeeds if and only if the transaction marshals and each of its messages, with its right log, is
      routed and mapped without error, whatever logs there are.  Otherwise the error is that of the marshalling or of
      the first message that fails. */
  lemma ConvertedExactlyWhen(dispatch: Routed -> Mapped, raw: RawTx)
    ensures var r, n := Converted(dispatch, raw), |MessagesOf(raw)|;
            && (r.Ok? <==> raw.marshals && forall i :: 0 <= i < n ==> Maps(dispatch, raw, i))
            && (!raw.marshals ==> r == Err("Error marshaling tx to raw"))
            && (r.Err? && raw.marshals ==>
                  exists i: nat :: FirstUnmapped(dispatch, raw, n, i) && FailsWith(dispatch, raw, i, r.error))
  {
    hide EventsOf, Maps, FailsWith, FirstUnmapped;
    EventsOfIs(dispatch, raw, |MessagesOf(raw)|);
  }

  /** What converting a transaction gives, in terms of its messages, its logs and the mappers. */
  ghost predicate ConversionMeans(dispatch: Routed -> Mapped, raw: RawTx, r: Result<Transaction>) {
    var n := |MessagesOf(raw)|;
    && (r.Ok? <==> raw.marshals && forall i :: 0 <= i < n ==> Maps(dispatch, raw, i))
    && match r
       case Ok(t) =>
         && t == Transaction(raw.height, raw.hash, if raw.body.Some? then raw.memo else "", t.events, "", "", 0)
         && |t.events| == n + (if raw.code > 0 then 1 else 0)
         && (forall i :: 0 <= i < n ==> Aligned(dispatch, raw, i, t.events[i]))
         && (raw.code > 0 ==>
               t.events[n] == TransactionEvent("", "error", [SubEvent(["error"], raw.codespace, Some(raw.rawLog))]))
       case Err(e) =>
         if !raw.marshals then e == "Error marshaling tx to raw"
         else exists i: nat :: FirstUnmapped(dispatch, raw, n, i) && FailsWith(dispatch, raw, i, e)
  }

  lemma ConversionIs(dispatch: Routed -> Mapped, raw: RawTx)
    ensures ConversionMeans(dispatch, raw, Converted(dispatch, raw))
  {
    hide Converted, Maps, FirstUnmapped, FailsWith, Aligned;
    ConvertedExactlyWhen(dispatch, raw);
    if Converted(dispatch, raw).Ok? { EventsAreAligned(dispatch, raw); }
  }

  /** The code: the loop over the messages. */
  method RawToTransaction(dispatch: Routed -> Mapped, raw: RawTx) returns (r: Result<Transaction>)
    ensures r == Converted(dispatch, raw) && ConversionMeans(dispatch, raw, r)
  {
    ConversionIs(dispatch, raw);
    hide ConversionMeans;
    var trans := Transaction(raw.height, raw.hash, "", [], "", "", 0);
    if !raw.marshals { return Err("Error marshaling tx to raw"); }
    if raw.body.Some? {
      trans := trans.(memo := raw.memo);
      var messages := raw.body.value;
      var index := 0;
      while index < |messages|
        invariant 0 <= index <= |messages|
        invariant trans == Transaction(raw.height, raw.hash, raw.memo, trans.events, "", "", 0)
        invariant EventsOf(dispatch, raw, index) == Ok(trans.events)
      {
        var m := messages[index];
        var tev := TransactionEvent(Itoa(index), "", []);
        var lg := FindLog(raw.logs, index);
        index := index + 1;
        var route := RouteOf(m, lg);
        if route.None? {
          EventsError(dispatch, raw, index, |messages|);
          return Err(WrongFormat(m.typeUrl));
        }
        var mapped := dispatch(route.value);
        tev := WithSub(tev, mapped.event);
        if mapped.err.Some? {
          EventsError(dispatch, raw, index, |messages|);
          return Err(mapped.err.value);
        }
        trans := trans.(events := trans.events + [tev]);
      }
    }
    assert trans.events + [] == trans.events;
    if raw.code > 0 { trans := trans.(events := trans.events + [ErrorEvent(raw)]); }
    r := Ok(trans);
  }

  // ---------- SearchTx ----------

  /** A node with a fixed list of transactions for a height that honours offset and limit.  fails(k) is the
      error of request number k, if it has one. */
  datatype Pager = Pager(txs: seq<RawTx>, fails: nat -> Option<string>)

  function Least(a: nat, b: nat): nat { if a < b then a else b }

  function PageAt(txs: seq<RawTx>, offset: nat, limit: nat): seq<RawTx> {
    txs[Least(offset, |txs|)..Least(offset + limit, |txs|)]
  }

  /** What SearchTx copies from the block into each transaction. */
  function Stamp(t: Transaction, b: Block): Transaction {
    t.(blockHash := b.hash, chainId := b.chainId, time := b.time)
  }

  /** Converting a list in order, up to the first failure. */
  function ConvertAll(convert: RawTx -> Result<Transaction>, b: Block, raws: seq<RawTx>): Result<seq<Transaction>> {
    if raws == [] then Ok([])
    else match ConvertAll(convert, b, raws[..|raws| - 1])
      case Err(e) => Err(e)
      case Ok(ts) =>
        match convert(raws[|raws| - 1])
        case Err(e) => Err(e)
        case Ok(t) => Ok(ts + [Stamp(t, b)])
  }

  lemma {:induction false} ConvertError(convert: RawTx -> Result<Transaction>, b: Block, raws: seq<RawTx>, n: nat)
    requires n <= |raws| && ConvertAll(convert, b, raws[..n]).Err?
    ensures ConvertAll(convert, b, raws) == ConvertAll(convert, b, raws[..n])
    decreases |raws|
  {
    if n == |raws| { assert raws[..n] == raws; }
    else {
      var init := raws[..|raws| - 1];
      assert init[..n] == raws[..n];
      ConvertError(convert, b, init, n);
    }
  }

  lemma {:induction false} ConvertLength(convert: RawTx -> Result<Transaction>, b: Block, raws: seq<RawTx>)
    ensures ConvertAll(convert, b, raws).Ok? ==> |ConvertAll(convert, b, raws).value| == |raws|
    ensures ConvertAll(convert, b, raws).Ok? ==> forall i :: 0 <= i < |raws| ==>
              convert(raws[i]).Ok? && ConvertAll(convert, b, raws).value[i]
                == convert(raws[i]).value.(blockHash := b.hash, chainId := b.chainId, time := b.time)
  {
    if raws != [] { ConvertLength(convert, b, raws[..|raws| - 1]); }
  }

  /** Transaction i is the first that does not convert. */
  ghost predicate FirstBad(convert: RawTx -> Result<Transaction>, raws: seq<RawTx>, i: nat) {
    i < |raws| && convert(raws[i]).Err? && forall j :: 0 <= j < i ==> convert(raws[j]).Ok?
  }

  /** Each transaction converted, in order, and stamped with the block's hash, chain id and time. */
  ghost predicate IsConverted(convert: RawTx -> Result<Transaction>, b: Block, raws: seq<RawTx>, ts: seq<Transaction>) {
    |ts| == |raws| && forall i :: 0 <= i < |raws| ==>
      convert(raws[i]).Ok?
      && ts[i] == convert(raws[i]).value.(blockHash := b.hash, chainId := b.chainId, time := b.time)
  }

  /** A list converts if and only if each of its transactions does; otherwise its error is that of the first that does
      not. */
  lemma {:induction false} ConvertAllExactlyWhen(convert: RawTx -> Result<Transaction>, b: Block, raws: seq<RawTx>)
    ensures var r := ConvertAll(convert, b, raws);
            && (r.Ok? <==> forall i :: 0 <= i < |raws| ==> convert(raws[i]).Ok?)
            && (r.Ok? ==> IsConverted(convert, b, raws, r.value))
            && (r.Err? ==> exists i: nat :: FirstBad(convert, raws, i) && convert(raws[i]).error == r.error)
  {
    ConvertLength(convert, b, raws);
    if raws != [] {
      var n := |raws| - 1;
      var init, r := raws[..n], ConvertAll(convert, b, raws);
      ConvertAllExactlyWhen(convert, b, init);
      assert forall i :: 0 <= i < n ==> init[i] == raws[i];
      if ConvertAll(convert, b, init).Err? {
        var i: nat :| FirstBad(convert, init, i) && convert(init[i]).error == r.error;
        assert FirstBad(convert, raws, i);
      } else if r.Err? {
        assert FirstBad(convert, raws, n);
      }
    }
  }

  /** Multiplication in uint64. */
  function Mul64(a: nat, b: nat): nat { (a * b) % TWO_64 }

  /** The offset computed for page number page >= 1 is right even when the product wraps, as long as the
      offset itself fits. */
  lemma OffsetIsExact(perPage: nat, page: nat)
    requires 1 <= page && perPage < TWO_64 && perPage * (page - 1) < TWO_64
    ensures (Mul64(perPage, page) - perPage) % TWO_64 == perPage * (page - 1)
  {
    var x := perPage * (page - 1);
    assert perPage * page == x + perPage;
    assert (x + perPage) % TWO_64 == x + perPage || (x + perPage) % TWO_64 == x + perPage - TWO_64;
  }

  /** The pages a list of n transactions takes: one at least. */
  function Pages(n: nat, perPage: nat): nat
    requires perPage > 0
  {
    if n == 0 then 1 else (n + perPage - 1) / perPage
  }

  lemma PagesIs(n: nat, perPage: nat, page: nat)
    requires perPage > 0 && page >= 1 && n <= perPage * page && (page > 1 ==> perPage * (page - 1) < n)
    ensures Pages(n, perPage) == page
  {
    if n > 0 {
      var q := (n + perPage - 1) / perPage;
      assert perPage * q <= n + perPage - 1 < perPage * q + perPage;
      if q < page {
        Monotone(perPage, q, page - 1);
      } else if q > page {
        Monotone(perPage, page + 1, q);
      }
    } else if page > 1 {
      Monotone(perPage, 0, page - 1);
    }
  }

  lemma Monotone(p: nat, a: nat, b: nat)
    requires a <= b
    ensures p * a <= p * b
  {
  }

  /** The inner loop: convert one page after what is already converted. */
  method ConvertPage(convert: RawTx -> Result<Transaction>, b: Block, ghost before: seq<RawTx>, page: seq<RawTx>,
                     done: seq<Transaction>)
    returns (r: Result<seq<Transaction>>)
    requires ConvertAll(convert, b, before) == Ok(done)
    ensures r == ConvertAll(convert, b, before + page)
  {
    var txs := done;
    var i := 0;
    assert before + page[..0] == before;
    while i < |page|
      invariant 0 <= i <= |page| && ConvertAll(convert, b, before + page[..i]) == Ok(txs)
    {
      var t := convert(page[i]);
      ghost var next := before + page[..i + 1];
      assert next[..|next| - 1] == before + page[..i] && next[|next| - 1] == page[i];
      if t.Err? {
        assert (before + page)[..|next|] == next;
        ConvertError(convert, b, before + page, |next|);
        return Err(t.error);
      }
      txs := txs + [Stamp(t.value, b)];
      i := i + 1;
    }
    assert before + page[..i] == before + page;
    r := Ok(txs);
  }

  /** The number of transactions that k pages cover. */
  function Covered(perPage: nat, k: nat, total: nat): nat { Least(perPage * k, total) }

  /** What k pages give: everything they cover, converted in order, or the failure of the first page that cannot be
      loaded or converted. */
  ghost function Searched(convert: RawTx -> Result<Transaction>, b: Block, pager: Pager, perPage: nat,
                          k: nat): Result<seq<Transaction>> {
    if k == 0 then Ok([])
    else match Searched(convert, b, pager, perPage, k - 1)
      case Err(e) => Err(e)
      case Ok(_) =>
        if pager.fails(k - 1).Some? then Err(pager.fails(k - 1).value)
        else ConvertAll(convert, b, pager.txs[..Covered(perPage, k, |pager.txs|)])
  }

  lemma {:induction false} SearchedError(convert: RawTx -> Result<Transaction>, b: Block, pager: Pager, perPage: nat,
                                         k: nat, n: nat)
    requires k <= n && Searched(convert, b, pager, perPage, k).Err?
    ensures Searched(convert, b, pager, perPage, n) == Searched(convert, b, pager, perPage, k)
    decreases n
  {
    if k < n { SearchedError(convert, b, pager, perPage, k, n - 1); }
  }

  /** Pages succeed exactly when each can be loaded and all they cover can be converted, and then they give that. */
  lemma {:induction false} SearchedIsConverted(convert: RawTx -> Result<Transaction>, b: Block, pager: Pager,
                                               perPage: nat, k: nat)
    ensures var all := ConvertAll(convert, b, pager.txs[..Covered(perPage, k, |pager.txs|)]);
            && (Searched(convert, b, pager, perPage, k).Ok? <==>
                  all.Ok? && forall j :: 0 <= j < k ==> pager.fails(j).None?)
            && (Searched(convert, b, pager, perPage, k).Ok? ==> Searched(convert, b, pager, perPage, k) == all)
  {
    var txs := pager.txs[..Covered(perPage, k, |pager.txs|)];
    if k > 0 {
      SearchedIsConverted(convert, b, pager, perPage, k - 1);
      var c := Covered(perPage, k - 1, |pager.txs|);
      Monotone(perPage, k - 1, k);
      assert txs[..c] == pager.txs[..c];
      if ConvertAll(convert, b, pager.txs[..c]).Err? { ConvertError(convert, b, txs, c); }
    } else {
      assert txs == [];
    }
  }

  /** Request k (from 0) is needed to read the whole list: the first always is. */
  predicate Needed(pager: Pager, perPage: nat, k: nat) { k == 0 || perPage * k < |pager.txs| }

  /** The search stops at its q-th request with error e: all before it loaded and converted, and it fails to load with
      e, or loads a page in which the first transaction that does not convert gives e. */
  ghost predicate StopsAt(convert: RawTx -> Result<Transaction>, pager: Pager, perPage: nat, q: nat, e: string) {
    && 1 <= q && Needed(pager, perPage, q - 1) && (forall k :: 0 <= k < q - 1 ==> pager.fails(k).None?)
    && (forall i :: 0 <= i < |pager.txs| && i < perPage * (q - 1) ==> convert(pager.txs[i]).Ok?)
    && match pager.fails(q - 1)
       case Some(err) => e == err
       case None =>
         exists i: nat :: FirstBad(convert, pager.txs, i) && i < perPage * q && convert(pager.txs[i]).error == e
  }

  /** What searching all transactions of a height gives: every one of them, converted and stamped, if and only if each
      needed request loads and each transaction converts; otherwise the first failure. */
  ghost predicate SearchMeans(convert: RawTx -> Result<Transaction>, b: Block, pager: Pager, perPage: nat,
                              r: Result<seq<Transaction>>) {
    && (r.Ok? <==> && (forall k: nat :: Needed(pager, perPage, k) ==> pager.fails(k).None?)
                   && (forall i :: 0 <= i < |pager.txs| ==> convert(pager.txs[i]).Ok?))
    && (r.Ok? ==> IsConverted(convert, b, pager.txs, r.value))
    && (r.Err? ==> exists q: nat :: StopsAt(convert, pager, perPage, q, r.error))
  }

  /** The pages are the needed requests. */
  lemma PagesAreNeeded(pager: Pager, perPage: nat, k: nat)
    requires perPage > 0
    ensures k < Pages(|pager.txs|, perPage) <==> Needed(pager, perPage, k)
    ensures Covered(perPage, Pages(|pager.txs|, perPage), |pager.txs|) == |pager.txs|
  {
    var n, p := |pager.txs|, Pages(|pager.txs|, perPage);
    if n > 0 {
      assert perPage * p <= n + perPage - 1 < perPage * p + perPage;
      if k < p { Monotone(perPage, k, p - 1); assert perPage * (p - 1) == perPage * p - perPage; }
      else { Monotone(perPage, p, k); }
    }
  }

  lemma StopsWhereItFails(convert: RawTx -> Result<Transaction>, b: Block, pager: Pager, perPage: nat, q: nat)
    requires perPage > 0 && 1 <= q <= Pages(|pager.txs|, perPage)
    requires Searched(convert, b, pager, perPage, q - 1).Ok? && Searched(convert, b, pager, perPage, q).Err?
    ensures StopsAt(convert, pager, perPage, q, Searched(convert, b, pager, perPage, q).error)
  {
    hide ConvertAll, Pages;
    var e := Searched(convert, b, pager, perPage, q).error;
    var before, upto := pager.txs[..Covered(perPage, q - 1, |pager.txs|)],
        pager.txs[..Covered(perPage, q, |pager.txs|)];
    SearchedIsConverted(convert, b, pager, perPage, q - 1);
    ConvertAllExactlyWhen(convert, b, before);
    ConvertAllExactlyWhen(convert, b, upto);
    PagesAreNeeded(pager, perPage, q - 1);
    forall i | 0 <= i < |pager.txs| && i < perPage * (q - 1) ensures convert(pager.txs[i]).Ok? {
      assert before[i] == pager.txs[i];
    }
    if pager.fails(q - 1).None? {
      var i: nat :| FirstBad(convert, upto, i) && convert(upto[i]).error == e;
      assert FirstBad(convert, pager.txs, i);
    }
  }

  lemma {:induction false} FirstFailure(convert: RawTx -> Result<Transaction>, b: Block, pager: Pager, perPage: nat,
                                        k: nat)
    returns (q: nat)
    requires Searched(convert, b, pager, perPage, k).Err?
    ensures 1 <= q <= k && Searched(convert, b, pager, perPage, q - 1).Ok?
    ensures Searched(convert, b, pager, perPage, q) == Searched(convert, b, pager, perPage, k)
  {
    q := k;
    if Searched(convert, b, pager, perPage, k - 1).Err? { q := FirstFailure(convert, b, pager, perPage, k - 1); }
  }

  lemma SearchedMeans(convert: RawTx -> Result<Transaction>, b: Block, pager: Pager, perPage: nat)
    requires perPage > 0
    ensures SearchMeans(convert, b, pager, perPage, Searched(convert, b, pager, perPage, Pages(|pager.txs|, perPage)))
  {
    hide ConvertAll, Pages, Searched, StopsAt, IsConverted;
    var last := Pages(|pager.txs|, perPage);
    PagesAreNeeded(pager, perPage, 0);
    SearchedIsConverted(convert, b, pager, perPage, last);
    assert pager.txs[..Covered(perPage, last, |pager.txs|)] == pager.txs;
    ConvertAllExactlyWhen(convert, b, pager.txs);
    forall k: nat ensures k < last <==> Needed(pager, perPage, k) { PagesAreNeeded(pager, perPage, k); }
    if Searched(convert, b, pager, perPage, last).Err? {
      var q := FirstFailure(convert, b, pager, perPage, last);
      StopsWhereItFails(convert, b, pager, perPage, q);
    }
  }

  /** Pagination: the result is that of all the pages of the list, in order.  If no request fails that is the whole
      list, converted in order, with no gap and no duplicate, using exactly the pages it takes; if a conversion fails,
      it is the first failure.  On an error every earlier request and page succeeded, and the last page failed to load
      or to convert. */
  method SearchTx(convert: RawTx -> Result<Transaction>, b: Block, pager: Pager, perPage: nat)
    returns (r: Result<seq<Transaction>>, requests: nat)
    requires 0 < perPage < TWO_64 && |pager.txs| < TWO_64
    ensures r == Searched(convert, b, pager, perPage, Pages(|pager.txs|, perPage))
    ensures SearchMeans(convert, b, pager, perPage, r)
    ensures r.Ok? ==> requests >= 1 && forall k: nat :: (k < requests <==> Needed(pager, perPage, k))
    ensures r.Err? ==> StopsAt(convert, pager, perPage, requests, r.error)
  {
    hide ConvertAll, Pages, SearchMeans, StopsAt;
    ghost var last := Pages(|pager.txs|, perPage);
    SearchedMeans(convert, b, pager, perPage);
    var total := |pager.txs|;
    var txs: seq<Transaction> := [];
    var page := 1;
    requests := 0;
    ConvertNone(convert, b, pager.txs);
    while true
      invariant 1 <= page && requests == page - 1
      invariant |txs| == perPage * (page - 1) <= total && (page > 1 ==> |txs| < total)
      invariant ConvertAll(convert, b, pager.txs[..|txs|]) == Ok(txs)
      invariant Searched(convert, b, pager, perPage, requests) == Ok(txs)
      invariant forall k :: 0 <= k < requests ==> pager.fails(k).None?
      decreases total - |txs|
    {
      OffsetIsExact(perPage, page);
      var offset := (Mul64(perPage, page) - perPage) % TWO_64;
      ghost var to := Least(offset + perPage, total);
      PageNumber(total, perPage, page);
      assert perPage * page == offset + perPage;
      requests := requests + 1;
      var e := pager.fails(requests - 1);
      if e.Some? {
        SearchedError(convert, b, pager, perPage, requests, last);
        StopsWhereItFails(convert, b, pager, perPage, requests);
        return Err(e.value), requests;
      }
      var grpcRes := PageAt(pager.txs, offset, perPage);
      assert pager.txs[..to] == pager.txs[..|txs|] + grpcRes;
      var more := ConvertPage(convert, b, pager.txs[..|txs|], grpcRes, txs);
      if more.Err? {
        ConvertError(convert, b, pager.txs, to);
        SearchedError(convert, b, pager, perPage, requests, last);
        StopsWhereItFails(convert, b, pager, perPage, requests);
        return Err(more.error), requests;
      }
      ConvertLength(convert, b, pager.txs[..to]);
      txs := more.value;
      if total <= |txs| {
        assert pager.txs[..to] == pager.txs;
        PagesIs(total, perPage, page);
        forall k: nat ensures k < requests <==> Needed(pager, perPage, k) { PagesAreNeeded(pager, perPage, k); }
        return Ok(txs), requests;
      }
      page := page + 1;
    }
  }

  lemma ConvertNone(convert: RawTx -> Result<Transaction>, b: Block, raws: seq<RawTx>)
    ensures ConvertAll(convert, b, raws[..0]) == Ok([])
  {
  }

  /** A page that is asked for is one of the pages the list takes. */
  lemma PageNumber(total: nat, perPage: nat, page: nat)
    requires perPage > 0 && page >= 1 && (page > 1 ==> perPage * (page - 1) < total)
    ensures page <= Pages(total, perPage)
  {
    if page > 1 {
      var q := (total + perPage - 1) / perPage;
      assert total + perPage - 1 < perPage * q + perPage;
      if q < page { Monotone(perPage, q, page - 1); }
    }
  }
}
