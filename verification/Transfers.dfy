/**
 produceTransfers of api/mapper/transfers.go: a nested scan over the events of a message log that
 pairs each amount with the recipient last seen in the same event and skips one address.
 */
module Transfers {
  import opened Structs
  import opened Text
  import opened Currency

  datatype Attribute = Attribute(key: string, value: string)

  datatype Event = Event(kind: string, attrs: seq<Attribute>)

  datatype EventTransfer = EventTransfer(account: string, amounts: seq<Amount>)

  // ---------- what the scan means ----------

  /** The value of the last recipient among the first n attributes, or the empty string. */
  function LatestRecipient(attrs: seq<Attribute>, n: nat): string
    requires n <= |attrs|
  {
    if n == 0 then ""
    else if attrs[n - 1].key == "recipient" then attrs[n - 1].value
    else LatestRecipient(attrs, n - 1)
  }

  /** Attribute i is an amount whose recipient is not to be skipped. */
  predicate Counts(attrs: seq<Attribute>, i: nat, skip: string)
    requires i < |attrs|
  {
    attrs[i].key == "amount" && LatestRecipient(attrs, i + 1) != skip
  }

  function TransferAt(attrs: seq<Attribute>, i: nat): Result<EventTransfer>
    requires i < |attrs|
  {
    match ParseCoins(attrs[i].value)
    case Err(e) => Err(e)
    case Ok(amounts) => Ok(EventTransfer(LatestRecipient(attrs, i + 1), amounts))
  }

  /** One transfer for each counting attribute among the first n, in order, or the first parse error. */
  function FromAttributes(attrs: seq<Attribute>, n: nat, skip: string): Result<seq<EventTransfer>>
    requires n <= |attrs|
  {
    if n == 0 then Ok([])
    else match FromAttributes(attrs, n - 1, skip)
      case Err(e) => Err(e)
      case Ok(ts) =>
        if !Counts(attrs, n - 1, skip) then Ok(ts)
        else match TransferAt(attrs, n - 1)
          case Err(e) => Err(e)
          case Ok(t) => Ok(ts + [t])
  }

  /** The transfers of the first n events; only events of type "transfer" contribute. */
  function FromEvents(events: seq<Event>, n: nat, skip: string): Result<seq<EventTransfer>>
    requires n <= |events|
  {
    if n == 0 then Ok([])
    else match FromEvents(events, n - 1, skip)
      case Err(e) => Err(e)
      case Ok(ts) =>
        if events[n - 1].kind != "transfer" then Ok(ts)
        else match FromAttributes(events[n - 1].attrs, |events[n - 1].attrs|, skip)
          case Err(e) => Err(e)
          case Ok(more) => Ok(ts + more)
  }

  // ---------- the code ----------

  function Prepend(amts: seq<Amount>, r: Result<seq<Amount>>): Result<seq<Amount>> {
    match r case Err(e) => Err(e) case Ok(rest) => Ok(amts + rest)
  }

  lemma PrependParsed(amts: seq<Amount>, pieces: seq<string>, i: nat)
    requires i < |pieces| && ParseAmount(pieces[i]).Ok?
    ensures Prepend(amts, ParseAll(pieces[i..]))
              == Prepend(amts + [ParseAmount(pieces[i]).value], ParseAll(pieces[i + 1..]))
  {
    hide ParseAmount;
    var a, rest := ParseAmount(pieces[i]).value, ParseAll(pieces[i + 1..]);
    assert pieces[i..][1..] == pieces[i + 1..];
    assert rest.Ok? ==> amts + ([a] + rest.value) == (amts + [a]) + rest.value;
  }

  lemma PrependNone(r: Result<seq<Amount>>)
    ensures Prepend([], r) == r
  {
    assert r.Ok? ==> [] + r.value == r.value;
  }

  /** The loop over the pieces of one amount attribute. */
  method ReadAmounts(value: string) returns (r: Result<seq<Amount>>)
    ensures r == ParseCoins(value) && AmountsMean(value, r)
  {
    hide ParseAmount, Split, AmountsMean;
    ParseCoinsIs(value);
    var pieces := Split(value, ',');
    var amts := [];
    var i := 0;
    PrependNone(ParseAll(pieces));
    assert pieces[0..] == pieces;
    while i < |pieces|
      invariant 0 <= i <= |pieces|
      invariant ParseAll(pieces) == Prepend(amts, ParseAll(pieces[i..]))
    {
      var a := ParseAmount(pieces[i]);
      if a.Err? { return Err(a.error); }
      PrependParsed(amts, pieces, i);
      amts := amts + [a.value];
      i := i + 1;
    }
    assert ParseAll(pieces[i..]) == Ok([]) && amts + [] == amts;
    r := Ok(amts);
  }

  /** The loop over the attributes of one event, with its running recipient. */
  method ScanAttributes(attrs: seq<Attribute>, skip: string) returns (r: Result<seq<EventTransfer>>)
    ensures r == FromAttributes(attrs, |attrs|, skip)
  {
    var evts := [];
    var latestRecipient := "";
    var i := 0;
    while i < |attrs|
      invariant 0 <= i <= |attrs|
      invariant latestRecipient == LatestRecipient(attrs, i)
      invariant FromAttributes(attrs, i, skip) == Ok(evts)
    {
      if attrs[i].key == "recipient" { latestRecipient := attrs[i].value; }
      i := i + 1;
      if latestRecipient == skip { continue; }
      if attrs[i - 1].key == "amount" {
        var amts := ReadAmounts(attrs[i - 1].value);
        match amts {
          case Err(e) =>
            ErrorStays(attrs, i, |attrs|, skip);
            return Err(e);
          case Ok(amounts) => evts := evts + [EventTransfer(latestRecipient, amounts)];
        }
      }
    }
    r := Ok(evts);
  }

  lemma {:induction false} ErrorStays(attrs: seq<Attribute>, i: nat, n: nat, skip: string)
    requires i <= n <= |attrs| && FromAttributes(attrs, i, skip).Err?
    ensures FromAttributes(attrs, n, skip) == FromAttributes(attrs, i, skip)
    decreases n
  {
    if i < n { ErrorStays(attrs, i, n - 1, skip); }
  }

  lemma {:induction false} EventErrorStays(events: seq<Event>, i: nat, n: nat, skip: string)
    requires i <= n <= |events| && FromEvents(events, i, skip).Err?
    ensures FromEvents(events, n, skip) == FromEvents(events, i, skip)
    decreases n
  {
    if i < n { EventErrorStays(events, i, n - 1, skip); }
  }

  /** The part of structs.SubsetEvent that produceTransfers writes. */
  class SubsetEvent {
    var transfers: map<string, seq<EventTransfer>>

    /** On a parse error, or when nothing counts, nothing changes.  Otherwise the transfers are stored
        under transferType; the other entries survive exactly when that type had an entry already. */
    method ProduceTransfers(transferType: string, skip: string, events: seq<Event>) returns (err: Option<string>)
      modifies this
      ensures var found := FromEvents(events, |events|, skip);
              match found
              case Err(e) => err == Some(e) && transfers == old(transfers)
              case Ok(evts) =>
                && err == None
                && (evts == [] ==> transfers == old(transfers))
                && (evts != [] ==> transferType in transfers && transfers[transferType] == evts)
                && (evts != [] && transferType in old(transfers) ==> transfers == old(transfers)[transferType := evts])
                && (evts != [] && transferType !in old(transfers) ==> transfers.Keys == {transferType})
    {
      var evts := [];
      var i := 0;
      while i < |events|
        invariant 0 <= i <= |events|
        invariant FromEvents(events, i, skip) == Ok(evts)
        invariant transfers == old(transfers)
      {
        i := i + 1;
        if events[i - 1].kind != "transfer" { continue; }
        var more := ScanAttributes(events[i - 1].attrs, skip);
        match more {
          case Err(e) =>
            EventErrorStays(events, i, |events|, skip);
            return Some(e);
          case Ok(ts) => evts := evts + ts;
        }
      }
      err := None;
      if |evts| <= 0 { return; }
      if transferType !in transfers { transfers := map[]; }
      transfers := transfers[transferType := evts];
    }
  }

  // ---------- what is extracted from any log ----------

  /** name is the value of the nearest recipient at or before attribute i, or empty if there is none. */
  ghost predicate Nearest(attrs: seq<Attribute>, i: nat, name: string)
    requires i < |attrs|
  {
    || (name == "" && forall j :: 0 <= j <= i ==> attrs[j].key != "recipient")
    || (exists j :: 0 <= j <= i && attrs[j] == Attribute("recipient", name)
                    && forall k :: j < k <= i ==> attrs[k].key != "recipient")
  }

  lemma {:induction false} LatestIsNearest(attrs: seq<Attribute>, i: nat)
    requires i < |attrs|
    ensures Nearest(attrs, i, LatestRecipient(attrs, i + 1))
  {
    if attrs[i].key == "recipient" {
      assert attrs[i] == Attribute("recipient", LatestRecipient(attrs, i + 1));
    } else if i > 0 {
      LatestIsNearest(attrs, i - 1);
    }
  }

  /** An attribute of a log. */
  datatype Place = Place(event: nat, attr: nat)

  predicate IsPlace(events: seq<Event>, p: Place) { p.event < |events| && p.attr < |events[p.event].attrs| }

  ghost predicate Precedes(p: Place, q: Place) { p.event < q.event || (p.event == q.event && p.attr < q.attr) }

  /** An amount in a transfer event whose nearest recipient is not the skipped address. */
  ghost predicate Relevant(events: seq<Event>, skip: string, p: Place) {
    && IsPlace(events, p) && events[p.event].kind == "transfer"
    && var attrs := events[p.event].attrs;
       attrs[p.attr].key == "amount" && !Nearest(attrs, p.attr, skip)
  }

  /** Transfer t is what place p says: the nearest recipient and the coins of the amount. */
  ghost predicate Describes(events: seq<Event>, p: Place, t: EventTransfer) {
    && IsPlace(events, p)
    && var attrs := events[p.event].attrs;
       Nearest(attrs, p.attr, t.account) && ParseCoins(attrs[p.attr].value) == Ok(t.amounts)
  }

  /** The places, in order, of all relevant amounts before the given one. */
  ghost predicate Places(events: seq<Event>, skip: string, end: Place, at: seq<Place>) {
    && (forall k :: 0 <= k < |at| ==> Relevant(events, skip, at[k]) && Precedes(at[k], end))
    && (forall k, m :: 0 <= k < m < |at| ==> Precedes(at[k], at[m]))
    && (forall p :: Relevant(events, skip, p) && Precedes(p, end) ==> p in at)
  }

  ghost predicate DescribesAll(events: seq<Event>, at: seq<Place>, ts: seq<EventTransfer>) {
    |ts| == |at| && forall k :: 0 <= k < |at| ==> Describes(events, at[k], ts[k])
  }

  ghost predicate AllParse(events: seq<Event>, at: seq<Place>) {
    forall k :: 0 <= k < |at| ==> IsPlace(events, at[k]) && ParseCoins(events[at[k].event].attrs[at[k].attr].value).Ok?
  }

  /** Place at[k] is the first whose amount does not parse, and e is its error. */
  ghost predicate FirstUnparsed(events: seq<Event>, at: seq<Place>, k: nat, e: string) {
    && k < |at| && (forall j :: 0 <= j <= k ==> IsPlace(events, at[j]))
    && ParseCoins(events[at[k].event].attrs[at[k].attr].value) == Err(e)
    && forall j :: 0 <= j < k ==> ParseCoins(events[at[j].event].attrs[at[j].attr].value).Ok?
  }

  ghost predicate FailsAt(events: seq<Event>, at: seq<Place>, e: string) {
    exists k: nat :: FirstUnparsed(events, at, k, e)
  }

  lemma FailsLonger(events: seq<Event>, xs: seq<Place>, ys: seq<Place>, e: string)
    ensures FailsAt(events, xs, e) ==> FailsAt(events, xs + ys, e)
    ensures AllParse(events, xs) && FailsAt(events, ys, e) ==> FailsAt(events, xs + ys, e)
  {
    hide ParseCoins;
    var all := xs + ys;
    assert forall j :: 0 <= j < |xs| ==> all[j] == xs[j];
    assert forall j :: 0 <= j < |ys| ==> all[|xs| + j] == ys[j];
    if k: nat :| FirstUnparsed(events, xs, k, e) { assert FirstUnparsed(events, all, k, e); }
    if AllParse(events, xs) {
      if k: nat :| FirstUnparsed(events, ys, k, e) {
        forall j | 0 <= j <= |xs| + k
          ensures IsPlace(events, all[j]) { if j >= |xs| { assert all[j] == ys[j - |xs|]; } }
        forall j | 0 <= j < |xs| + k ensures ParseCoins(events[all[j].event].attrs[all[j].attr].value).Ok? {
          if j >= |xs| { assert all[j] == ys[j - |xs|]; }
        }
        assert FirstUnparsed(events, all, |xs| + k, e);
      }
    }
  }

  lemma FailsHere(events: seq<Event>, p: Place, e: string)
    requires IsPlace(events, p) && ParseCoins(events[p.event].attrs[p.attr].value) == Err(e)
    ensures FailsAt(events, [p], e)
  {
    hide ParseCoins;
    assert FirstUnparsed(events, [p], 0, e);
  }

  lemma NearestIsUnique(attrs: seq<Attribute>, i: nat, x: string, y: string)
    requires i < |attrs| && Nearest(attrs, i, x) && Nearest(attrs, i, y)
    ensures x == y
  {
  }

  lemma CountsIsRelevant(events: seq<Event>, skip: string, p: Place)
    requires IsPlace(events, p) && events[p.event].kind == "transfer"
    ensures Counts(events[p.event].attrs, p.attr, skip) <==> Relevant(events, skip, p)
  {
    var attrs := events[p.event].attrs;
    LatestIsNearest(attrs, p.attr);
    if Nearest(attrs, p.attr, skip) { NearestIsUnique(attrs, p.attr, skip, LatestRecipient(attrs, p.attr + 1)); }
  }

  lemma PlacesExtend(events: seq<Event>, skip: string, e: nat, n: nat, at: seq<Place>)
    requires Places(events, skip, Place(e, n), at)
    ensures Relevant(events, skip, Place(e, n)) ==> Places(events, skip, Place(e, n + 1), at + [Place(e, n)])
    ensures !Relevant(events, skip, Place(e, n)) ==> Places(events, skip, Place(e, n + 1), at)
  {
    var more := at + [Place(e, n)];
    forall p | Relevant(events, skip, p) && Precedes(p, Place(e, n + 1)) ensures p in at || p == Place(e, n) {
      assert Precedes(p, Place(e, n)) || p == Place(e, n);
    }
    assert more[|at|] == Place(e, n);
    forall p | p in at ensures p in more { }
  }

  /** Scanning on in event e continues the places and the transfers of the events before it. */
  lemma {:induction false} AttributePlaces(events: seq<Event>, skip: string, e: nat, n: nat, before: seq<Place>)
    returns (at: seq<Place>)
    requires e < |events| && events[e].kind == "transfer" && n <= |events[e].attrs|
    requires Places(events, skip, Place(e, 0), before)
    ensures before <= at && Places(events, skip, Place(e, n), at)
    ensures var r := FromAttributes(events[e].attrs, n, skip);
            && (r.Ok? <==> AllParse(events, at[|before|..]))
                && (r.Ok? ==> DescribesAll(events, at[|before|..], r.value))
            && (r.Err? ==> FailsAt(events, at[|before|..], r.error))
  {
    hide Places, ParseCoins, Relevant, FailsAt;
    var attrs := events[e].attrs;
    at := before;
    if n > 0 {
      at := AttributePlaces(events, skip, e, n - 1, before);
      var p, done, r := Place(e, n - 1), at[|before|..], FromAttributes(attrs, n - 1, skip);
      PlacesExtend(events, skip, e, n - 1, at);
      CountsIsRelevant(events, skip, p);
      if Counts(attrs, n - 1, skip) {
        LatestIsNearest(attrs, n - 1);
        at := at + [p];
        assert at[|before|..] == done + [p];
        ParseExtend(events, done, p);
        var now := FromAttributes(attrs, n, skip);
        if now.Err? {
          if r.Ok? { FailsHere(events, p, now.error); }
          FailsLonger(events, done, [p], now.error);
        }
      }
    }
  }

  lemma ParseExtend(events: seq<Event>, at: seq<Place>, p: Place)
    requires IsPlace(events, p)
    ensures AllParse(events, at + [p]) <==> AllParse(events, at) && ParseCoins(events[p.event].attrs[p.attr].value).Ok?
  {
    hide ParseCoins;
    var more := at + [p];
    assert more[|at|] == p;
    if AllParse(events, more) {
      forall k | 0 <= k < |at|
        ensures IsPlace(events, at[k]) && ParseCoins(events[at[k].event].attrs[at[k].attr].value).Ok?
      {
        assert more[k] == at[k];
      }
    }
  }

  lemma EventEnd(events: seq<Event>, skip: string, e: nat, at: seq<Place>)
    requires e < |events|
    requires Places(events, skip, Place(e, if events[e].kind == "transfer" then |events[e].attrs| else 0), at)
    ensures Places(events, skip, Place(e + 1, 0), at)
  {
  }

  lemma ParseConcat(events: seq<Event>, xs: seq<Place>, ys: seq<Place>)
    ensures AllParse(events, xs + ys) <==> AllParse(events, xs) && AllParse(events, ys)
  {
    hide ParseCoins;
    var all := xs + ys;
    if AllParse(events, all) {
      forall k | 0 <= k < |xs|
        ensures IsPlace(events, xs[k]) && ParseCoins(events[xs[k].event].attrs[xs[k].attr].value).Ok? {
        assert all[k] == xs[k];
      }
      forall k | 0 <= k < |ys|
        ensures IsPlace(events, ys[k]) && ParseCoins(events[ys[k].event].attrs[ys[k].attr].value).Ok? {
        assert all[|xs| + k] == ys[k];
      }
    }
  }

  lemma DescribeConcat(events: seq<Event>, xs: seq<Place>, ts: seq<EventTransfer>, ys: seq<Place>,
                       us: seq<EventTransfer>)
    requires DescribesAll(events, xs, ts) && DescribesAll(events, ys, us)
    ensures DescribesAll(events, xs + ys, ts + us)
  {
    hide Describes;
  }

  lemma NoPlaces(events: seq<Event>, skip: string)
    ensures Places(events, skip, Place(0, 0), []) && AllParse(events, []) && DescribesAll(events, [], [])
  {
  }

  lemma {:induction false} EventPlaces(events: seq<Event>, skip: string, n: nat) returns (at: seq<Place>)
    requires n <= |events|
    ensures Places(events, skip, Place(n, 0), at)
    ensures var r := FromEvents(events, n, skip);
            && (r.Ok? <==> AllParse(events, at)) && (r.Ok? ==> DescribesAll(events, at, r.value))
            && (r.Err? ==> FailsAt(events, at, r.error))
  {
    hide Places, AllParse, DescribesAll, FromAttributes, FailsAt;
    at := [];
    if n == 0 {
      NoPlaces(events, skip);
    } else {
      var before := EventPlaces(events, skip, n - 1);
      at := before;
      if events[n - 1].kind == "transfer" {
        at := AttributePlaces(events, skip, n - 1, |events[n - 1].attrs|, before);
        assert at == before + at[|before|..];
        ParseConcat(events, before, at[|before|..]);
        var r, r' := FromEvents(events, n - 1, skip), FromAttributes(events[n - 1].attrs, |events[n - 1].attrs|, skip);
        if r.Err? { FailsLonger(events, before, at[|before|..], r.error); }
        else if r'.Err? { FailsLonger(events, before, at[|before|..], r'.error); }
        if r.Ok? && r'.Ok? { DescribeConcat(events, before, r.value, at[|before|..], r'.value); }
      }
      EventEnd(events, skip, n - 1, at);
    }
  }

  /** Extraction, for any log: it succeeds exactly when every relevant amount parses, and then gives one transfer for
      each relevant amount, in the order of the log, with the nearest recipient and the parsed coins; otherwise its
      error is that of the first relevant amount that does not parse. */
  lemma ExtractionIsExact(events: seq<Event>, skip: string) returns (at: seq<Place>)
    ensures forall p :: Relevant(events, skip, p) <==> p in at
    ensures forall k, m :: 0 <= k < m < |at| ==> Precedes(at[k], at[m])
    ensures var r := FromEvents(events, |events|, skip);
            && (r.Ok? <==> AllParse(events, at)) && (r.Ok? ==> DescribesAll(events, at, r.value))
            && (r.Err? ==> FailsAt(events, at, r.error))
  {
    at := EventPlaces(events, skip, |events|);
    assert forall p :: Relevant(events, skip, p) ==> Precedes(p, Place(|events|, 0));
  }

  // ---------- extraction undoes emission ----------

  /** A payment as the bank module reports it. */
  datatype Payment = Payment(recipient: string, sender: string, coins: seq<SdkCoin>)

  function PaymentAttributes(p: Payment): seq<Attribute> {
    [Attribute("recipient", p.recipient), Attribute("sender", p.sender), Attribute("amount", PrintCoins(p.coins))]
  }

  /** Payments of one message are merged into one "transfer" event. */
  function MergedAttributes(ps: seq<Payment>): seq<Attribute> {
    if ps == [] then [] else MergedAttributes(ps[..|ps| - 1]) + PaymentAttributes(ps[|ps| - 1])
  }

  /** A log entry: a transfer event made of payments, or an event of another type. */
  datatype Entry = Paid(payments: seq<Payment>) | Other(event: Event)

  function Emit(e: Entry): Event {
    match e
    case Paid(ps) => Event("transfer", MergedAttributes(ps))
    case Other(ev) => ev
  }

  function EmitAll(entries: seq<Entry>): seq<Event> {
    seq(|entries|, i requires 0 <= i < |entries| => Emit(entries[i]))
  }

  /** The payments that are not to the skipped address, in order. */
  function Kept(ps: seq<Payment>, skip: string): seq<Payment> {
    if ps == [] then []
    else Kept(ps[..|ps| - 1], skip) + (if ps[|ps| - 1].recipient == skip then [] else [ps[|ps| - 1]])
  }

  function KeptAll(entries: seq<Entry>, skip: string): seq<Payment> {
    if entries == [] then []
    else KeptAll(entries[..|entries| - 1], skip)
         + (match entries[|entries| - 1] case Paid(ps) => Kept(ps, skip) case Other(_) => [])
  }

  ghost predicate ReadableCoins(cs: seq<SdkCoin>) {
    cs != [] && AllReadable(cs) && forall i :: 0 <= i < |cs| ==> ',' !in cs[i].denom
  }

  ghost predicate ReadablePayments(ps: seq<Payment>) {
    forall i :: 0 <= i < |ps| ==> ReadableCoins(ps[i].coins)
  }

  ghost predicate ReadableEntries(entries: seq<Entry>) {
    forall i :: 0 <= i < |entries| ==>
      match entries[i] case Paid(ps) => ReadablePayments(ps) case Other(ev) => ev.kind != "transfer"
  }

  /** The transfers are the payments: same accounts, same coins, same order. */
  ghost predicate Reports(ts: seq<EventTransfer>, ps: seq<Payment>) {
    |ts| == |ps| && forall i :: 0 <= i < |ps| ==>
      ts[i].account == ps[i].recipient && AllSame(ts[i].amounts, ps[i].coins)
  }

  /** Scanning a prefix of the attributes does not depend on what follows. */
  lemma {:induction false} PrefixScan(attrs: seq<Attribute>, more: seq<Attribute>, n: nat, skip: string)
    requires n <= |attrs|
    ensures LatestRecipient(attrs + more, n) == LatestRecipient(attrs, n)
    ensures FromAttributes(attrs + more, n, skip) == FromAttributes(attrs, n, skip)
  {
    if n > 0 {
      PrefixScan(attrs, more, n - 1, skip);
      assert (attrs + more)[n - 1] == attrs[n - 1];
    }
  }

  lemma LastPayment(attrs: seq<Attribute>, p: Payment, skip: string)
    requires FromAttributes(attrs, |attrs|, skip).Ok? && ReadableCoins(p.coins)
    ensures var all := attrs + PaymentAttributes(p);
            var r := FromAttributes(all, |all|, skip);
            && r.Ok?
            && (p.recipient == skip ==> r.value == FromAttributes(attrs, |attrs|, skip).value)
            && ParseCoins(PrintCoins(p.coins)).Ok?
            && (p.recipient != skip ==>
                  r.value == FromAttributes(attrs, |attrs|, skip).value
                             + [EventTransfer(p.recipient, ParseCoins(PrintCoins(p.coins)).value)])
  {
    var all := attrs + PaymentAttributes(p);
    var n := |attrs|;
    PrefixScan(attrs, PaymentAttributes(p), n, skip);
    CoinListRoundTrip(p.coins);
    assert all[n] == Attribute("recipient", p.recipient);
    assert all[n + 1] == Attribute("sender", p.sender);
    assert all[n + 2] == Attribute("amount", PrintCoins(p.coins));
    assert LatestRecipient(all, n + 1) == p.recipient;
    assert LatestRecipient(all, n + 2) == p.recipient;
    assert LatestRecipient(all, n + 3) == p.recipient;
    assert FromAttributes(all, n + 1, skip) == FromAttributes(all, n, skip);
    assert FromAttributes(all, n + 2, skip) == FromAttributes(all, n, skip);
  }

  lemma ReportsExtend(ts: seq<EventTransfer>, ps: seq<Payment>, t: EventTransfer, p: Payment)
    requires Reports(ts, ps) && t.account == p.recipient && AllSame(t.amounts, p.coins)
    ensures Reports(ts + [t], ps + [p])
  {
    hide AllSame;
  }

  lemma {:induction false} EventRoundTrip(ps: seq<Payment>, skip: string)
    requires ReadablePayments(ps)
    ensures var attrs := MergedAttributes(ps);
            var r := FromAttributes(attrs, |attrs|, skip);
            r.Ok? && Reports(r.value, Kept(ps, skip))
  {
    if ps != [] {
      hide ParseCoins, PrintCoins, AllSame, FromAttributes, Reports, PaymentAttributes;
      var init, p := ps[..|ps| - 1], ps[|ps| - 1];
      EventRoundTrip(init, skip);
      var attrs := MergedAttributes(init);
      LastPayment(attrs, p, skip);
      CoinListRoundTrip(p.coins);
      if p.recipient == skip {
        assert Kept(ps, skip) == Kept(init, skip);
      } else {
        var t := EventTransfer(p.recipient, ParseCoins(PrintCoins(p.coins)).value);
        ReportsExtend(FromAttributes(attrs, |attrs|, skip).value, Kept(init, skip), t, p);
      }
    }
  }

  lemma {:induction false} EventsPrefix(events: seq<Event>, more: seq<Event>, n: nat, skip: string)
    requires n <= |events|
    ensures FromEvents(events + more, n, skip) == FromEvents(events, n, skip)
  {
    if n > 0 {
      EventsPrefix(events, more, n - 1, skip);
      assert (events + more)[n - 1] == events[n - 1];
    }
  }

  /** Extracting the transfers of an emitted log gives back, in order, exactly the payments that do not go
      to the skipped address, with the same coins; events of other types are ignored. */
  lemma {:induction false} ExtractionRoundTrip(entries: seq<Entry>, skip: string)
    requires ReadableEntries(entries)
    ensures var r := FromEvents(EmitAll(entries), |entries|, skip);
            r.Ok? && Reports(r.value, KeptAll(entries, skip))
  {
    if entries != [] {
      var n := |entries| - 1;
      var init, e := entries[..n], entries[n];
      ExtractionRoundTrip(init, skip);
      assert EmitAll(entries) == EmitAll(init) + [Emit(e)];
      EventsPrefix(EmitAll(init), [Emit(e)], n, skip);
      match e
      case Paid(ps) => EventRoundTrip(ps, skip);
      case Other(ev) =>
    }
  }

  // ---------- conservation ----------

  function CoinTotal(cs: seq<SdkCoin>, denom: string): nat {
    if cs == [] then 0 else (if cs[0].denom == denom then cs[0].amount else 0) + CoinTotal(cs[1..], denom)
  }

  function PaidTotal(ps: seq<Payment>, denom: string): nat {
    if ps == [] then 0 else CoinTotal(ps[0].coins, denom) + PaidTotal(ps[1..], denom)
  }

  function AmountTotal(amounts: seq<Amount>, denom: string): int {
    if amounts == [] then 0
    else
      var a := amounts[0];
      (if a.currency == denom && a.numeric.Some? then a.numeric.value else 0) + AmountTotal(amounts[1..], denom)
  }

  function TransferTotal(ts: seq<EventTransfer>, denom: string): int {
    if ts == [] then 0 else AmountTotal(ts[0].amounts, denom) + TransferTotal(ts[1..], denom)
  }

  lemma {:induction false} SameTotal(amounts: seq<Amount>, cs: seq<SdkCoin>, denom: string)
    requires AllSame(amounts, cs)
    ensures AmountTotal(amounts, denom) == CoinTotal(cs, denom)
  {
    if cs != [] {
      assert Same(amounts[0], cs[0]);
      forall i | 0 <= i < |cs[1..]|
        ensures Same(amounts[1..][i], cs[1..][i]) { assert Same(amounts[i + 1], cs[i + 1]); }
      SameTotal(amounts[1..], cs[1..], denom);
    }
  }

  /** Transfers that report payments add up to what was paid, per denomination. */
  lemma {:induction false} TotalsAreConserved(ts: seq<EventTransfer>, ps: seq<Payment>, denom: string)
    requires Reports(ts, ps)
    ensures TransferTotal(ts, denom) == PaidTotal(ps, denom)
  {
    if ps != [] {
      SameTotal(ts[0].amounts, ps[0].coins, denom);
      TotalsAreConserved(ts[1..], ps[1..], denom);
    }
  }

  /** Conservation: per denomination, the stored transfers add up to what the log paid to addresses that are
      not skipped. */
  lemma ExtractionConserves(entries: seq<Entry>, skip: string, denom: string)
    requires ReadableEntries(entries)
    ensures var r := FromEvents(EmitAll(entries), |entries|, skip);
            r.Ok? && TransferTotal(r.value, denom) == PaidTotal(KeptAll(entries, skip), denom)
  {
    ExtractionRoundTrip(entries, skip);
    TotalsAreConserved(FromEvents(EmitAll(entries), |entries|, skip).value, KeptAll(entries, skip), denom);
  }
}
