/** The in-memory FIFO position ledger (`maais/compliance/fifo_ledger.py`).

    Decimals are exact reals: the 28-digit rounding of Python's context is not modelled.
    Clocks and generated identifiers are parameters. */
module FifoLedger {
  import opened Results
  import opened Sorting

  datatype Lot = Lot(
    tradeId: string, asset: string, side: string, entryPrice: real,
    originalSize: real, remainingSize: real, entryFees: real, strategyId: string, openedAt: int)

  datatype TradeRecord = TradeRecord(
    timestamp: int, asset: string, entryPrice: real, exitPrice: real, positionSize: real,
    fees: real, funding: real, profitLoss: real, exchangeRate: real, strategyId: string,
    positionSide: string, entryLotId: string)

  datatype CloseOrder = CloseOrder(
    asset: string, side: string, size: real, exitPrice: real, exitFees: real, funding: real,
    exchangeRate: real, closedAt: int)

  type Key = (string, string)
  type Lots = map<Key, seq<Lot>>

  /** Persisted lots are restored only while they still have size, and every lot was opened with
      a positive size. */
  predicate Sized(lot: Lot) { 0.0 < lot.remainingSize && 0.0 < lot.originalSize }

  predicate AllSized(queue: seq<Lot>) { forall i :: 0 <= i < |queue| ==> Sized(queue[i]) }

  predicate Earlier(a: Lot, b: Lot) { a.openedAt <= b.openedAt }

  function Queue(lots: Lots, key: Key): seq<Lot> { if key in lots then lots[key] else [] }

  function OfKey(key: Key): Lot -> bool { (l: Lot) => (l.asset, l.side) == key }

  function ForKey(key: Key, lots: seq<Lot>): seq<Lot> { Filter(OfKey(key), lots) }

  function Available(queue: seq<Lot>): real {
    if queue == [] then 0.0 else queue[0].remainingSize + Available(queue[1..])
  }

  function Pnl(side: string, entry: real, exit: real, size: real, fees: real, funding: real): real {
    (if side == "long" then (exit - entry) * size else (entry - exit) * size) - fees + funding
  }

  function Match(o: CloseOrder, lot: Lot, matched: real): TradeRecord
    requires o.size != 0.0 && lot.originalSize != 0.0
  {
    var ratio := matched / o.size;
    var fees := lot.entryFees * (matched / lot.originalSize) + o.exitFees * ratio;
    var funding := o.funding * ratio;
    TradeRecord(o.closedAt, o.asset, lot.entryPrice, o.exitPrice, matched, fees, funding,
                Pnl(o.side, lot.entryPrice, o.exitPrice, matched, fees, funding),
                o.exchangeRate, lot.strategyId, o.side, lot.tradeId)
  }

  /** What a price difference in favour of the exit is worth to a position. */
  function Sign(side: string): real { if side == "long" then 1.0 else -1.0 }

  /** The record documents a match of the order with the lot: when, what and on which side it was closed, where
      it came from and at which prices, its share of the fees and of the funding, and what it earned. */
  predicate Documents(r: TradeRecord, o: CloseOrder, lot: Lot) {
    && r.timestamp == o.closedAt && r.asset == o.asset && r.positionSide == o.side
    && r.exitPrice == o.exitPrice && r.exchangeRate == o.exchangeRate
    && r.entryLotId == lot.tradeId && r.entryPrice == lot.entryPrice && r.strategyId == lot.strategyId
    && o.size != 0.0 && lot.originalSize != 0.0 && r.funding == o.funding * (r.positionSize / o.size)
    && r.fees == lot.entryFees * (r.positionSize / lot.originalSize) + o.exitFees * (r.positionSize / o.size)
    && r.profitLoss == Sign(r.positionSide) * (r.exitPrice - r.entryPrice) * r.positionSize - r.fees + r.funding
  }

  /** One record per lot from the front of the queue, in order. */
  predicate DocumentsFront(records: seq<TradeRecord>, o: CloseOrder, queue: seq<Lot>) {
    |records| <= |queue| && forall i :: 0 <= i < |records| ==> Documents(records[i], o, queue[i])
  }

  /** The queue left after `need` has been taken from its front. */
  function Consume(queue: seq<Lot>, need: real): seq<Lot> {
    if need <= 0.0 || queue == [] then queue
    else if queue[0].remainingSize <= need then Consume(queue[1..], need - queue[0].remainingSize)
    else [queue[0].(remainingSize := queue[0].remainingSize - need)] + queue[1..]
  }

  /** The part of a lot that one match takes. */
  datatype Take = Take(lot: Lot, size: real)

  /** What is taken from each lot while `need` is taken from the front of the queue. */
  function Taken(queue: seq<Lot>, need: real): seq<Take> {
    if need <= 0.0 || queue == [] then []
    else if queue[0].remainingSize <= need then
      [Take(queue[0], queue[0].remainingSize)] + Taken(queue[1..], need - queue[0].remainingSize)
    else [Take(queue[0], need)]
  }

  predicate Bookable(o: CloseOrder, takes: seq<Take>) {
    forall i :: 0 <= i < |takes| ==> takes[i].lot.originalSize != 0.0 && o.size != 0.0
  }

  /** One trade record per match. */
  function Booked(o: CloseOrder, takes: seq<Take>): seq<TradeRecord>
    requires Bookable(o, takes)
  {
    if takes == [] then []
    else [Match(o, takes[0].lot, takes[0].size)] + Booked(o, takes[1..])
  }

  lemma {:induction false} TakenSized(queue: seq<Lot>, need: real)
    requires AllSized(queue)
    ensures forall i :: 0 <= i < |Taken(queue, need)| ==>
              Sized(Taken(queue, need)[i].lot) && 0.0 < need
  {
    if 0.0 < need && queue != [] {
      assert Sized(queue[0]);
      if queue[0].remainingSize <= need {
        var rest := need - queue[0].remainingSize;
        TakenSized(queue[1..], rest);
        var takes := Taken(queue, need);
        assert takes == [Take(queue[0], queue[0].remainingSize)] + Taken(queue[1..], rest);
        forall i | 0 <= i < |takes| ensures Sized(takes[i].lot) {
          assert 0 < i ==> takes[i] == Taken(queue[1..], rest)[i - 1];
        }
      }
    }
  }

  /** The trade records written while `need` is taken from the front of the queue. */
  function Matches(o: CloseOrder, queue: seq<Lot>, need: real): (r: seq<TradeRecord>)
    requires AllSized(queue) && (0.0 < need ==> 0.0 < o.size)
  {
    TakenSized(queue, need);
    Booked(o, Taken(queue, need))
  }

  lemma {:induction false} BookedSnoc(o: CloseOrder, takes: seq<Take>, last: Take)
    requires Bookable(o, takes) && o.size != 0.0 && last.lot.originalSize != 0.0
    ensures Booked(o, takes + [last]) == Booked(o, takes) + [Match(o, last.lot, last.size)]
  {
    if takes == [] {
      assert takes + [last] == [last];
    } else {
      BookedSnoc(o, takes[1..], last);
      assert (takes + [last])[1..] == takes[1..] + [last];
    }
  }

  lemma {:induction false} MatchDocuments(o: CloseOrder, lot: Lot, matched: real)
    requires o.size != 0.0 && lot.originalSize != 0.0
    ensures Documents(Match(o, lot, matched), o, lot) && Match(o, lot, matched).positionSize == matched
  {
  }

  /** The records of a close document its matches with the lots from the front of the queue, in order. */
  lemma {:induction false} BookedDocuments(o: CloseOrder, queue: seq<Lot>, need: real)
    requires Bookable(o, Taken(queue, need))
    ensures DocumentsFront(Booked(o, Taken(queue, need)), o, queue)
  {
    if 0.0 < need && queue != [] {
      var takes, rest := Taken(queue, need), need - queue[0].remainingSize;
      MatchDocuments(o, takes[0].lot, takes[0].size);
      if queue[0].remainingSize <= need {
        assert takes[1..] == Taken(queue[1..], rest);
        assert forall j :: 0 <= j < |takes| - 1 ==> takes[1..][j] == takes[j + 1];
        BookedDocuments(o, queue[1..], rest);
      } else {
        assert takes[1..] == [];
      }
    }
  }

  function Loaded(lots: Lots, ordered: seq<Lot>): Lots {
    if ordered == [] then lots
    else
      var lot := ordered[|ordered| - 1];
      var before := Loaded(lots, ordered[..|ordered| - 1]);
      before[(lot.asset, lot.side) := Queue(before, (lot.asset, lot.side)) + [lot]]
  }

  /** Registering a lot: it goes to the left end and the queue is sorted again by opening time. */
  function Opened(queue: seq<Lot>, lot: Lot): seq<Lot> { Sort(Earlier, [lot] + queue) }

  // ---------------------------------------------------------------- the stateful ledger

  datatype Op =
    | Open(tradeId: string, asset: string, side: string, size: real, price: real, fees: real,
           strategyId: string, at: int)
    | Close(order: CloseOrder)

  datatype Outcome = Outcome(lots: Lots, records: seq<TradeRecord>)

  predicate Accepts(lots: Lots, op: Op) {
    match op
    case Open(_, _, side, size, _, _, _, _) => side in ["long", "short"] && 0.0 < size
    case Close(o) =>
      var queue := Queue(lots, (o.asset, o.side));
      queue != [] && o.size <= Available(queue)
  }

  function NewLot(op: Op): Lot
    requires op.Open?
  {
    Lot(op.tradeId, op.asset, op.side, op.price, op.size, op.size, op.fees, op.strategyId, op.at)
  }

  /** Every lot has size left and lies in the queue of its own asset and side. */
  ghost predicate ValidQueue(key: Key, queue: seq<Lot>) {
    AllSized(queue) && forall i :: 0 <= i < |queue| ==> (queue[i].asset, queue[i].side) == key
  }

  ghost predicate ValidLots(lots: Lots) { forall k :: k in lots ==> ValidQueue(k, lots[k]) }

  function Apply(lots: Lots, op: Op): Outcome
    requires ValidLots(lots)
  {
    if !Accepts(lots, op) then Outcome(lots, [])
    else match op
      case Open(_, asset, side, _, _, _, _, _) =>
        Outcome(lots[(asset, side) := Opened(Queue(lots, (asset, side)), NewLot(op))], [])
      case Close(o) =>
        var queue := Queue(lots, (o.asset, o.side));
        Outcome(lots[(o.asset, o.side) := Consume(queue, o.size)], Matches(o, queue, o.size))
  }

  /** The queue after one match against its front lot, which leaves once nothing of it remains. */
  function AfterMatch(queue: seq<Lot>, matched: real): seq<Lot>
    requires queue != []
  {
    var left := queue[0].(remainingSize := queue[0].remainingSize - matched);
    if left.remainingSize == 0.0 then queue[1..] else [left] + queue[1..]
  }

  /** The queue from its first lot that was opened without size. */
  function FromUnsized(queue: seq<Lot>): seq<Lot> {
    if queue == [] || queue[0].originalSize == 0.0 then queue else FromUnsized(queue[1..])
  }

  lemma {:induction false} MatchStep(queue: seq<Lot>, remaining: real, matched: real)
    requires queue != [] && 0.0 < remaining
    requires matched == if queue[0].remainingSize <= remaining then queue[0].remainingSize else remaining
    ensures Consume(queue, remaining) == Consume(AfterMatch(queue, matched), remaining - matched)
    ensures Taken(queue, remaining)
            == [Take(queue[0], matched)] + Taken(AfterMatch(queue, matched), remaining - matched)
  {
  }

  /** The matching loop after it took `takes` from `start` and wrote `records`. */
  ghost predicate Matching(
      o: CloseOrder, start: seq<Lot>, queue: seq<Lot>, remaining: real, takes: seq<Take>, records: seq<TradeRecord>)
  {
    && (0.0 < remaining ==> 0.0 < o.size && FromUnsized(queue) == FromUnsized(start))
    && Consume(start, o.size) == Consume(queue, remaining)
    && Taken(start, o.size) == takes + Taken(queue, remaining)
    && Bookable(o, takes) && records == Booked(o, takes)
  }

  lemma {:induction false} MatchingStep(
      o: CloseOrder, start: seq<Lot>, queue: seq<Lot>, remaining: real, takes: seq<Take>, records: seq<TradeRecord>,
      matched: real)
    requires Matching(o, start, queue, remaining, takes, records) && queue != [] && 0.0 < remaining
    requires matched == if queue[0].remainingSize <= remaining then queue[0].remainingSize else remaining
    requires queue[0].originalSize != 0.0
    ensures Matching(o, start, AfterMatch(queue, matched), remaining - matched,
                     takes + [Take(queue[0], matched)], records + [Match(o, queue[0], matched)])
  {
    var take, rest := Take(queue[0], matched), Taken(AfterMatch(queue, matched), remaining - matched);
    MatchStep(queue, remaining, matched);
    BookedSnoc(o, takes, take);
    ShiftOne(takes, take, rest);
  }

  lemma {:induction false} MatchingStuck(
      o: CloseOrder, start: seq<Lot>, queue: seq<Lot>, remaining: real, takes: seq<Take>, records: seq<TradeRecord>)
    requires Matching(o, start, queue, remaining, takes, records) && queue != [] && 0.0 < remaining
    requires queue[0].originalSize == 0.0
    ensures queue == FromUnsized(start) && !Bookable(o, Taken(start, o.size))
  {
    assert Taken(start, o.size)[|takes|] == Taken(queue, remaining)[0];
  }

  lemma {:induction false} MatchingDone(
      o: CloseOrder, start: seq<Lot>, queue: seq<Lot>, remaining: real, takes: seq<Take>, records: seq<TradeRecord>)
    requires Matching(o, start, queue, remaining, takes, records) && (remaining <= 0.0 || queue == [])
    ensures queue == Consume(start, o.size)
    ensures Bookable(o, Taken(start, o.size)) && records == Booked(o, Taken(start, o.size))
  {
    assert takes + [] == takes;
  }

  /** The matching loop of `close_position`: oldest lots first, one record per match.  It raises when it
      reaches a lot that was opened without size, whose fee share is undefined; the lots before it are gone
      then. */
  method MatchOldest(o: CloseOrder, start: seq<Lot>) returns (ok: bool, queue: seq<Lot>, records: seq<TradeRecord>)
    ensures ok <==> Bookable(o, Taken(start, o.size))
    ensures queue == if ok then Consume(start, o.size) else FromUnsized(start)
    ensures ok ==> records == Booked(o, Taken(start, o.size))
    ensures ok ==> DocumentsFront(records, o, start)
  {
    queue, records := start, [];
    ghost var takes: seq<Take> := [];
    var remainingClose := o.size;
    while 0.0 < remainingClose && queue != []
      invariant Matching(o, start, queue, remainingClose, takes, records)
      decreases |queue|, remainingClose > 0.0
    {
      var lot := queue[0];
      var matched := if lot.remainingSize <= remainingClose then lot.remainingSize else remainingClose;
      if lot.originalSize == 0.0 {
        MatchingStuck(o, start, queue, remainingClose, takes, records);
        return false, queue, records;
      }
      MatchingStep(o, start, queue, remainingClose, takes, records, matched);
      takes := takes + [Take(lot, matched)];
      records := records + [Match(o, lot, matched)];
      queue, remainingClose := AfterMatch(queue, matched), remainingClose - matched;
    }
    MatchingDone(o, start, queue, remainingClose, takes, records);
    BookedDocuments(o, start, o.size);
    ok := true;
  }

  class Ledger {
    var lots: Lots

    ghost predicate Valid() reads this { ValidLots(lots) }

    constructor ()
      ensures Valid() && lots == map[]
    {
      lots := map[];
    }

    /** Restores persisted lots: each queue receives its own lots, oldest first, at its right end.  A
        valid ledger stays so exactly when the restored lots have size. */
    method LoadLots(restored: seq<Lot>)
      modifies this
      ensures lots == Loaded(old(lots), Sort(Earlier, restored))
      ensures old(Valid()) ==> (Valid() <==> AllSized(restored))
    {
      var ordered := Sort(Earlier, restored);
      var i := 0;
      while i < |ordered|
        invariant 0 <= i <= |ordered|
        invariant lots == Loaded(old(lots), ordered[..i])
      {
        var lot := ordered[i];
        assert ordered[..i + 1][..i] == ordered[..i];
        lots := lots[(lot.asset, lot.side) := Queue(lots, (lot.asset, lot.side)) + [lot]];
        i := i + 1;
      }
      assert ordered[..i] == ordered;
      SortKeepsSized(restored);
      if old(Valid()) { LoadedValidIff(old(lots), ordered); }
    }

    method OpenLot(op: Op) returns (r: Result<Lot, string>)
      requires op.Open?
      modifies this
      ensures var key := (op.asset, op.side);
              lots == if r.Ok? then old(lots)[key := Opened(Queue(old(lots), key), NewLot(op))] else old(lots)
      ensures old(Valid()) ==> Valid() && lots == Apply(old(lots), op).lots
      ensures r.Ok? <==> op.side in ["long", "short"] && 0.0 < op.size
      ensures r.Ok? ==> r.value == NewLot(op) && r.value in lots[(op.asset, op.side)]
    {
      if op.side != "long" && op.side != "short" {
        return Err("side must be 'long' or 'short'");
      }
      if op.size <= 0.0 {
        return Err("size must be positive");
      }
      var lot := NewLot(op);
      var key := (op.asset, op.side);
      OpenedHolds(Queue(lots, key), lot);
      if Valid() { OpenedValid(key, Queue(lots, key), lot); }
      var queue := [lot] + Queue(lots, key);
      lots := lots[key := Sort(Earlier, queue)];
      r := Ok(lot);
    }

    /** FIFO matching of one close order against the queue of its asset and side.  An order that finds no
        lots or asks for more than is available changes nothing. */
    method ClosePosition(o: CloseOrder) returns (r: Result<seq<TradeRecord>, string>)
      modifies this
      ensures var key := (o.asset, o.side);
              var queue := Queue(old(lots), key);
              && (r.Ok? <==> Accepts(old(lots), Close(o)) && Bookable(o, Taken(queue, o.size)))
              && (r.Ok? ==> r.value == Booked(o, Taken(queue, o.size)))
              && (r.Ok? ==> DocumentsFront(r.value, o, queue))
              && lots == if !Accepts(old(lots), Close(o)) then old(lots)
                         else old(lots)[key := if r.Ok? then Consume(queue, o.size) else FromUnsized(queue)]
      ensures old(Valid()) ==>
                && Valid() && lots == Apply(old(lots), Close(o)).lots && (r.Ok? <==> Accepts(old(lots), Close(o)))
                && (r.Ok? ==> r.value == Apply(old(lots), Close(o)).records)
    {
      var key := (o.asset, o.side);
      var queue := Queue(lots, key);
      if queue == [] {
        return Err("no open lots");
      }
      if Available(queue) < o.size {
        return Err("cannot close more than is available");
      }
      var ok, left, records := MatchOldest(o, queue);
      if Valid() {
        TakenSized(queue, o.size);
        ConsumedValid(key, queue, o.size);
      }
      lots := lots[key := left];
      r := if ok then Ok(records) else Err("division undefined");
    }

    method GetOpenSize(asset: string, side: string) returns (size: real)
      ensures size == Available(Queue(lots, (asset, side)))
    {
      var queue := Queue(lots, (asset, side));
      size := 0.0;
      var i := |queue|;
      while 0 < i
        invariant 0 <= i <= |queue| && size == Available(queue[i..])
      {
        i := i - 1;
        assert queue[i..][1..] == queue[i + 1..];
        size := size + queue[i].remainingSize;
      }
      assert queue[0..] == queue;
    }
  }

  /** Restoring gives each queue its own lots, oldest first, after those it already held. */
  lemma {:induction false} LoadedQueue(lots: Lots, ordered: seq<Lot>, key: Key)
    ensures Queue(Loaded(lots, ordered), key) == Queue(lots, key) + ForKey(key, ordered)
  {
    if ordered != [] {
      var n := |ordered| - 1;
      LoadedQueue(lots, ordered[..n], key);
      assert ordered == ordered[..n] + [ordered[n]];
      FilterConcat(OfKey(key), ordered[..n], [ordered[n]]);
      Associate(Queue(lots, key), ForKey(key, ordered[..n]), ForKey(key, [ordered[n]]));
    }
  }

  lemma {:induction false} SortKeepsSized(queue: seq<Lot>)
    ensures AllSized(Sort(Earlier, queue)) <==> AllSized(queue)
  {
    SortKeepsElements(Earlier, queue);
    var sorted := Sort(Earlier, queue);
    if AllSized(queue) {
      forall i | 0 <= i < |sorted| ensures Sized(sorted[i]) {
        assert sorted[i] in queue;
      }
    }
    if AllSized(sorted) {
      forall i | 0 <= i < |queue| ensures Sized(queue[i]) {
        assert queue[i] in sorted;
      }
    }
  }

  /** A loaded lot lies in the queue of its own asset and side. */
  lemma {:induction false} LoadedLotFound(lots: Lots, ordered: seq<Lot>, i: nat)
    requires i < |ordered|
    ensures ordered[i] in Queue(Loaded(lots, ordered), (ordered[i].asset, ordered[i].side))
  {
    var key := (ordered[i].asset, ordered[i].side);
    LoadedQueue(lots, ordered, key);
    assert OfKey(key)(ordered[i]);
    assert ordered[i] in ForKey(key, ordered);
  }

  lemma {:induction false} LoadedQueueValid(lots: Lots, ordered: seq<Lot>, key: Key)
    requires ValidLots(lots) && AllSized(ordered)
    ensures ValidQueue(key, Queue(Loaded(lots, ordered), key))
  {
    LoadedQueue(lots, ordered, key);
    var queue := Queue(Loaded(lots, ordered), key);
    forall i | 0 <= i < |queue| ensures Sized(queue[i]) && (queue[i].asset, queue[i].side) == key {
      if |Queue(lots, key)| <= i {
        assert queue[i] in ForKey(key, ordered);
        assert OfKey(key)(queue[i]);
      }
    }
  }

  /** Loading keeps the ledger valid exactly when every loaded lot has size. */
  lemma {:induction false} LoadedValidIff(lots: Lots, ordered: seq<Lot>)
    requires ValidLots(lots)
    ensures ValidLots(Loaded(lots, ordered)) <==> AllSized(ordered)
  {
    if AllSized(ordered) {
      forall k | k in Loaded(lots, ordered) ensures ValidQueue(k, Loaded(lots, ordered)[k]) {
        LoadedQueueValid(lots, ordered, k);
      }
    }
    if ValidLots(Loaded(lots, ordered)) {
      forall i | 0 <= i < |ordered| ensures Sized(ordered[i]) {
        LoadedLotFound(lots, ordered, i);
      }
    }
  }

  lemma {:induction false} OpenedHolds(queue: seq<Lot>, lot: Lot)
    ensures lot in Opened(queue, lot)
  {
    SortKeepsElements(Earlier, [lot] + queue);
    assert lot == ([lot] + queue)[0];
  }

  lemma {:induction false} OpenedValid(key: Key, queue: seq<Lot>, lot: Lot)
    requires ValidQueue(key, queue) && Sized(lot) && (lot.asset, lot.side) == key
    ensures ValidQueue(key, Opened(queue, lot))
  {
    var before, after := [lot] + queue, Opened(queue, lot);
    SortKeepsElements(Earlier, before);
    forall i | 0 <= i < |after| ensures Sized(after[i]) && (after[i].asset, after[i].side) == key {
      assert after[i] in before;
    }
  }

  lemma {:induction false} ConsumedValid(key: Key, queue: seq<Lot>, need: real)
    requires ValidQueue(key, queue)
    ensures ValidQueue(key, Consume(queue, need))
  {
    if 0.0 < need && queue != [] && queue[0].remainingSize <= need {
      ConsumedValid(key, queue[1..], need - queue[0].remainingSize);
    }
  }

  lemma {:induction false} ApplyKeepsValid(lots: Lots, op: Op)
    requires ValidLots(lots)
    ensures ValidLots(Apply(lots, op).lots)
  {
    if Accepts(lots, op) {
      match op
      case Open(_, asset, side, _, _, _, _, _) =>
        OpenedValid((asset, side), Queue(lots, (asset, side)), NewLot(op));
      case Close(o) =>
        ConsumedValid((o.asset, o.side), Queue(lots, (o.asset, o.side)), o.size);
    }
  }
}
