/** What the FIFO ledger guarantees about money: conservation over whole histories, independence
    of how a close is split, and strict first-in-first-out consumption. */
module FifoAccounting {
  import opened Sorting
  import opened Sums
  import opened FifoLedger

  function SizeOf(r: TradeRecord): real { r.positionSize }
  function FeesOf(r: TradeRecord): real { r.fees }
  function FundingOf(r: TradeRecord): real { r.funding }
  function PnlOf(r: TradeRecord): real { r.profitLoss }

  /** Signed notional: what a position of size `m` is worth to its holder at `price`. */
  function Value(side: string, price: real): real -> real { (m: real) => Sign(side) * price * m }

  /** The part of `total` that falls on a match of size `m` out of `whole`. */
  function Share(total: real, whole: real): real -> real
    requires whole != 0.0
  {
    (m: real) => total * (m / whole)
  }

  /** P&L before fees and funding. */
  function GrossOf(r: TradeRecord): real { r.profitLoss + r.fees - r.funding }

  /** The signed entry notional a lot still carries, as it would be credited on exit. */
  function OpenCost(l: Lot): real { -Value(l.side, l.entryPrice)(l.remainingSize) }

  /** The entry fees a lot has not yet handed to a trade record. */
  function OpenFee(l: Lot): real {
    if l.originalSize == 0.0 then 0.0 else Share(l.entryFees, l.originalSize)(l.remainingSize)
  }

  function Nothing(l: Lot): real { 0.0 }

  lemma {:induction false} Distribute(k: real, a: real, b: real)
    ensures k * (a - b) == k * a - k * b
  {
  }

  predicate OfSide(side: string, queue: seq<Lot>) {
    forall i :: 0 <= i < |queue| ==> queue[i].side == side
  }

  function Reduced(lot: Lot, m: real): Lot { lot.(remainingSize := lot.remainingSize - m) }

  function TakeSize(t: Take): real { t.size }

  /** What a match moves out of its lot. */
  function Lost(held: Lot -> real): Take -> real {
    (t: Take) => held(t.lot) - held(Reduced(t.lot, t.size))
  }

  ghost predicate Empties(held: Lot -> real) {
    forall lot: Lot :: lot.remainingSize == 0.0 ==> held(lot) == 0.0
  }

  /** The matches take exactly the size that was asked for, and the queue loses it. */
  lemma {:induction false} TakenSize(queue: seq<Lot>, need: real)
    requires 0.0 <= need <= Available(queue)
    ensures SumBy(TakeSize, Taken(queue, need)) == need
    ensures Available(Consume(queue, need)) == Available(queue) - need
  {
    if 0.0 < need && queue != [] && queue[0].remainingSize <= need {
      TakenSize(queue[1..], need - queue[0].remainingSize);
    }
  }

  /** Whatever the lots hold, the matches take exactly what the queue no longer holds. */
  lemma {:induction false} TakenLoses(queue: seq<Lot>, need: real, held: Lot -> real)
    requires 0.0 <= need <= Available(queue) && Empties(held)
    ensures SumBy(Lost(held), Taken(queue, need))
            == SumBy(held, queue) - SumBy(held, Consume(queue, need))
  {
    if 0.0 < need && queue != [] {
      var lot := queue[0];
      if lot.remainingSize <= need {
        var rest := need - lot.remainingSize;
        TakenLoses(queue[1..], rest, held);
        assert held(Reduced(lot, lot.remainingSize)) == 0.0;
        assert Taken(queue, need)[1..] == Taken(queue[1..], rest);
      }
    }
  }

  predicate SplitsAt(per: real -> real, a: real, b: real) { per(a) - per(b) == per(a - b) }

  /** `per` is proportional enough to be split: it is additive in the size. */
  ghost predicate Additive(per: real -> real) { forall a, b :: SplitsAt(per, a, b) }

  /** What a match charges: what it takes out of its lot, plus its part of a proportional amount. */
  function Charged(held: Lot -> real, per: real -> real): Take -> real {
    (t: Take) => per(t.size) + (held(t.lot) - held(Reduced(t.lot, t.size)))
  }

  lemma {:induction false} ChargedSum(takes: seq<Take>, held: Lot -> real, per: real -> real)
    requires Additive(per)
    ensures SumBy(Charged(held, per), takes)
            == per(SumBy(TakeSize, takes)) + SumBy(Lost(held), takes)
  {
    if takes == [] {
      assert SplitsAt(per, 0.0, 0.0);
    } else {
      ChargedSum(takes[1..], held, per);
      assert SplitsAt(per, SumBy(TakeSize, takes), takes[0].size);
    }
  }

  /** The charges of one close, in total. */
  lemma {:induction false} ChargedTotal(queue: seq<Lot>, need: real, held: Lot -> real, per: real -> real)
    requires 0.0 <= need <= Available(queue) && Empties(held) && Additive(per)
    ensures SumBy(Charged(held, per), Taken(queue, need))
            == per(need) + (SumBy(held, queue) - SumBy(held, Consume(queue, need)))
  {
    TakenSize(queue, need);
    ChargedSum(Taken(queue, need), held, per);
    TakenLoses(queue, need, held);
  }

  /** Every record books what its match charges. */
  ghost predicate Books(o: CloseOrder, booked: TradeRecord -> real, charge: Take -> real)
    requires o.size != 0.0
  {
    forall lot: Lot, m: real {:trigger Match(o, lot, m)} ::
      lot.originalSize != 0.0 && lot.side == o.side ==> booked(Match(o, lot, m)) == charge(Take(lot, m))
  }

  lemma {:induction false} BookedSum(
      o: CloseOrder, takes: seq<Take>, booked: TradeRecord -> real, charge: Take -> real)
    requires o.size != 0.0 && Bookable(o, takes) && Books(o, booked, charge)
    requires forall i :: 0 <= i < |takes| ==> takes[i].lot.side == o.side
    ensures SumBy(booked, Booked(o, takes)) == SumBy(charge, takes)
  {
    if takes != [] { BookedSum(o, takes[1..], booked, charge); }
  }

  lemma {:induction false} TakenOfSide(side: string, queue: seq<Lot>, need: real)
    requires OfSide(side, queue)
    ensures forall i :: 0 <= i < |Taken(queue, need)| ==> Taken(queue, need)[i].lot.side == side
  {
    if 0.0 < need && queue != [] && queue[0].remainingSize <= need {
      TakenOfSide(side, queue[1..], need - queue[0].remainingSize);
    }
  }

  /** What the records of a close book is what its matches charge. */
  lemma {:induction false} CloseBooks(o: CloseOrder, queue: seq<Lot>, booked: TradeRecord -> real, charge: Take -> real)
    requires AllSized(queue) && OfSide(o.side, queue) && 0.0 < o.size
    requires Books(o, booked, charge)
    ensures SumBy(booked, Matches(o, queue, o.size)) == SumBy(charge, Taken(queue, o.size))
  {
    TakenSized(queue, o.size);
    TakenOfSide(o.side, queue, o.size);
    BookedSum(o, Taken(queue, o.size), booked, charge);
  }

  lemma {:induction false} SizeBooks(o: CloseOrder)
    requires o.size != 0.0
    ensures Books(o, SizeOf, TakeSize)
  {
  }

  lemma {:induction false} ShareAdditive(total: real, whole: real)
    requires whole != 0.0
    ensures Additive(Share(total, whole)) && Share(total, whole)(whole) == total
  {
    forall a, b ensures SplitsAt(Share(total, whole), a, b) {
      assert (a - b) / whole == a / whole - b / whole;
      Distribute(total, a / whole, b / whole);
    }
    assert whole / whole == 1.0;
  }

  lemma {:induction false} ValueAdditive(side: string, price: real)
    ensures Additive(Value(side, price))
  {
    forall a, b ensures SplitsAt(Value(side, price), a, b) { Distribute(Sign(side) * price, a, b); }
  }

  lemma {:induction false} FundingBooks(o: CloseOrder)
    requires o.size != 0.0
    ensures Books(o, FundingOf, Charged(Nothing, Share(o.funding, o.size)))
  {
  }

  lemma {:induction false} FeeLeaves(lot: Lot, m: real)
    requires lot.originalSize != 0.0
    ensures OpenFee(lot) - OpenFee(Reduced(lot, m)) == Share(lot.entryFees, lot.originalSize)(m)
  {
    ShareAdditive(lot.entryFees, lot.originalSize);
    assert SplitsAt(Share(lot.entryFees, lot.originalSize), lot.remainingSize, m);
  }

  lemma {:induction false} CostLeaves(lot: Lot, m: real)
    ensures OpenCost(lot) - OpenCost(Reduced(lot, m)) == -Value(lot.side, lot.entryPrice)(m)
  {
    ValueAdditive(lot.side, lot.entryPrice);
    assert SplitsAt(Value(lot.side, lot.entryPrice), lot.remainingSize, m);
  }

  lemma {:induction false} MatchGross(o: CloseOrder, lot: Lot, m: real)
    requires o.size != 0.0 && lot.originalSize != 0.0
    ensures GrossOf(Match(o, lot, m)) == Value(o.side, o.exitPrice)(m) - Value(o.side, lot.entryPrice)(m)
  {
    Distribute(m, o.exitPrice, lot.entryPrice);
  }

  lemma {:induction false} FeeBooks(o: CloseOrder)
    requires o.size != 0.0
    ensures Books(o, FeesOf, Charged(OpenFee, Share(o.exitFees, o.size)))
  {
    forall lot: Lot, m: real | lot.originalSize != 0.0
      ensures FeesOf(Match(o, lot, m)) == Charged(OpenFee, Share(o.exitFees, o.size))(Take(lot, m))
    {
      FeeLeaves(lot, m);
    }
  }

  lemma {:induction false} GrossBooks(o: CloseOrder)
    requires o.size != 0.0
    ensures Books(o, GrossOf, Charged(OpenCost, Value(o.side, o.exitPrice)))
  {
    forall lot: Lot, m: real | lot.originalSize != 0.0 && lot.side == o.side
      ensures GrossOf(Match(o, lot, m)) == Charged(OpenCost, Value(o.side, o.exitPrice))(Take(lot, m))
    {
      MatchGross(o, lot, m);
      CostLeaves(lot, m);
    }
  }

  lemma {:induction false} CloseSize(o: CloseOrder, queue: seq<Lot>)
    requires AllSized(queue) && OfSide(o.side, queue) && 0.0 < o.size <= Available(queue)
    ensures SumBy(SizeOf, Matches(o, queue, o.size)) == o.size
  {
    SizeBooks(o);
    CloseBooks(o, queue, SizeOf, TakeSize);
    TakenSize(queue, o.size);
  }

  lemma {:induction false} CloseFunding(o: CloseOrder, queue: seq<Lot>)
    requires AllSized(queue) && OfSide(o.side, queue) && 0.0 < o.size <= Available(queue)
    ensures SumBy(FundingOf, Matches(o, queue, o.size)) == o.funding
  {
    var per := Share(o.funding, o.size);
    ShareAdditive(o.funding, o.size);
    FundingBooks(o);
    CloseBooks(o, queue, FundingOf, Charged(Nothing, per));
    ChargedTotal(queue, o.size, Nothing, per);
    SumOfNothing(queue);
    SumOfNothing(Consume(queue, o.size));
  }

  lemma {:induction false} CloseFees(o: CloseOrder, queue: seq<Lot>)
    requires AllSized(queue) && OfSide(o.side, queue) && 0.0 < o.size <= Available(queue)
    ensures SumBy(FeesOf, Matches(o, queue, o.size))
            == o.exitFees + (SumBy(OpenFee, queue) - SumBy(OpenFee, Consume(queue, o.size)))
  {
    var per := Share(o.exitFees, o.size);
    ShareAdditive(o.exitFees, o.size);
    FeeBooks(o);
    CloseBooks(o, queue, FeesOf, Charged(OpenFee, per));
    ChargedTotal(queue, o.size, OpenFee, per);
  }

  lemma {:induction false} CloseGross(o: CloseOrder, queue: seq<Lot>)
    requires AllSized(queue) && OfSide(o.side, queue) && 0.0 < o.size <= Available(queue)
    ensures SumBy(GrossOf, Matches(o, queue, o.size))
            == Value(o.side, o.exitPrice)(o.size)
               + (SumBy(OpenCost, queue) - SumBy(OpenCost, Consume(queue, o.size)))
  {
    var per := Value(o.side, o.exitPrice);
    ValueAdditive(o.side, o.exitPrice);
    GrossBooks(o);
    CloseBooks(o, queue, GrossOf, Charged(OpenCost, per));
    ChargedTotal(queue, o.size, OpenCost, per);
  }

  lemma {:induction false} SumOfNothing(queue: seq<Lot>)
    ensures SumBy(Nothing, queue) == 0.0
  {
    if queue != [] { SumOfNothing(queue[1..]); }
  }

  lemma {:induction false} NetFromGross(records: seq<TradeRecord>)
    ensures SumBy(PnlOf, records)
            == SumBy(GrossOf, records) - SumBy(FeesOf, records) + SumBy(FundingOf, records)
  {
    if records != [] { NetFromGross(records[1..]); }
  }

  // ------------------------------------------------------------------ whole histories

  /** P&L still to be realised from a queue: entry notional and entry fees not yet in a record. */
  function Carried(queue: seq<Lot>): real { SumBy(OpenCost, queue) - SumBy(OpenFee, queue) }

  /** A close realises its exit value less its exit fees, plus funding, and what the queue stops
      carrying. */
  lemma {:induction false} ClosePnl(o: CloseOrder, queue: seq<Lot>)
    requires AllSized(queue) && OfSide(o.side, queue) && 0.0 < o.size <= Available(queue)
    ensures SumBy(PnlOf, Matches(o, queue, o.size))
            == CloseCash(o) + Carried(queue) - Carried(Consume(queue, o.size))
  {
    NetFromGross(Matches(o, queue, o.size));
    CloseFunding(o, queue);
    CloseFees(o, queue);
    CloseGross(o, queue);
  }

  /** Cash flow of one accepted operation on `key`: entry notional and fees go out when a lot is
      opened; exit notional and funding come in, and exit fees go out, when a position is closed. */
  function Cash(lots: Lots, op: Op, key: Key): real {
    if !Accepts(lots, op) then 0.0
    else match op
      case Open(_, asset, side, size, price, fees, _, _) =>
        if (asset, side) == key then -Value(side, price)(size) - fees else 0.0
      case Close(o) =>
        if (o.asset, o.side) == key then CloseCash(o) else 0.0
  }

  function CloseCash(o: CloseOrder): real { Value(o.side, o.exitPrice)(o.size) - o.exitFees + o.funding }

  /** The cash of an accepted close that no record books: the ledger accepts a close of size zero or less
      and matches nothing. */
  function Unbooked(lots: Lots, op: Op, key: Key): real {
    if op.Close? && Accepts(lots, op) && (op.order.asset, op.order.side) == key && op.order.size <= 0.0
    then CloseCash(op.order) else 0.0
  }

  /** The result of a whole history of operations. */
  ghost function Run(lots: Lots, ops: seq<Op>): (r: Outcome)
    requires ValidLots(lots)
    ensures ValidLots(r.lots)
  {
    if ops == [] then Outcome(lots, [])
    else
      var before := Run(lots, ops[..|ops| - 1]);
      var last := Apply(before.lots, ops[|ops| - 1]);
      ApplyKeepsValid(before.lots, ops[|ops| - 1]);
      Outcome(last.lots, before.records + last.records)
  }

  ghost function TotalCash(lots: Lots, ops: seq<Op>, key: Key): real
    requires ValidLots(lots)
  {
    if ops == [] then 0.0
    else
      var n := |ops| - 1;
      TotalCash(lots, ops[..n], key) + Cash(Run(lots, ops[..n]).lots, ops[n], key)
  }

  ghost function TotalUnbooked(lots: Lots, ops: seq<Op>, key: Key): real
    requires ValidLots(lots)
  {
    if ops == [] then 0.0
    else
      var n := |ops| - 1;
      TotalUnbooked(lots, ops[..n], key) + Unbooked(Run(lots, ops[..n]).lots, ops[n], key)
  }

  /** A record's P&L, counted only for one asset and side. */
  function PnlAt(key: Key): TradeRecord -> real {
    (r: TradeRecord) => if (r.asset, r.positionSide) == key then r.profitLoss else 0.0
  }

  lemma {:induction false} BookedKey(o: CloseOrder, takes: seq<Take>, key: Key)
    requires Bookable(o, takes)
    ensures SumBy(PnlAt(key), Booked(o, takes))
            == if (o.asset, o.side) == key then SumBy(PnlOf, Booked(o, takes)) else 0.0
  {
    var rows, own := Booked(o, takes), (o.asset, o.side) == key;
    if takes != [] { BookedAt(o, takes, 0); }
    forall i | 0 <= i < |rows| ensures PnlAt(key)(rows[i]) == if own then PnlOf(rows[i]) else 0.0 {
      BookedAt(o, takes, i);
    }
    if own { SumAlike(PnlAt(key), PnlOf, rows); } else { SumZero(PnlAt(key), rows); }
  }

  lemma {:induction false} MatchesKey(o: CloseOrder, queue: seq<Lot>, key: Key)
    requires AllSized(queue)
    ensures SumBy(PnlAt(key), Matches(o, queue, o.size))
            == if (o.asset, o.side) == key then SumBy(PnlOf, Matches(o, queue, o.size)) else 0.0
  {
    TakenSized(queue, o.size);
    BookedKey(o, Taken(queue, o.size), key);
  }

  lemma {:induction false} OpenedCarries(queue: seq<Lot>, lot: Lot)
    requires lot.originalSize != 0.0 && lot.remainingSize == lot.originalSize
    ensures Carried(Opened(queue, lot))
            == Carried(queue) - Value(lot.side, lot.entryPrice)(lot.originalSize) - lot.entryFees
  {
    SumSort(OpenCost, Earlier, [lot] + queue);
    SumSort(OpenFee, Earlier, [lot] + queue);
    assert ([lot] + queue)[1..] == queue;
    ShareAdditive(lot.entryFees, lot.originalSize);
  }

  /** One operation: what it records and what it leaves open balance its cash flow, less what it loses. */
  lemma {:induction false} StepBalances(lots: Lots, op: Op, key: Key)
    requires ValidLots(lots)
    ensures SumBy(PnlAt(key), Apply(lots, op).records)
            == Cash(lots, op, key) - Unbooked(lots, op, key)
               + Carried(Queue(lots, key)) - Carried(Queue(Apply(lots, op).lots, key))
  {
    if Accepts(lots, op) {
      match op
      case Open(_, asset, side, _, _, _, _, _) =>
        if (asset, side) == key { OpenedCarries(Queue(lots, key), NewLot(op)); }
      case Close(o) =>
        var queue := Queue(lots, (o.asset, o.side));
        MatchesKey(o, queue, key);
        if (o.asset, o.side) == key && 0.0 < o.size {
          assert OfSide(o.side, queue);
          ClosePnl(o, queue);
        }
    }
  }

  /** Whole-history accounting: after any sequence of opens and closes, total recorded P&L is the
      total cash flow, less what closes without size lose, plus what was carried in, less what is still
      carried. */
  lemma {:induction false} HistoryBalances(lots: Lots, ops: seq<Op>, key: Key)
    requires ValidLots(lots)
    ensures SumBy(PnlAt(key), Run(lots, ops).records)
            == TotalCash(lots, ops, key) - TotalUnbooked(lots, ops, key)
               + Carried(Queue(lots, key)) - Carried(Queue(Run(lots, ops).lots, key))
  {
    if ops != [] {
      var n := |ops| - 1;
      var before := Run(lots, ops[..n]);
      HistoryBalances(lots, ops[..n], key);
      StepBalances(before.lots, ops[n], key);
      SumConcat(PnlAt(key), before.records, Apply(before.lots, ops[n]).records);
    }
  }

  /** A history that starts empty and ends flat has recorded its cash flow less what closes without size
      lose, however the closes were split: exactly its cash flow if and only if they lose nothing. */
  lemma {:induction false} FlatHistory(ops: seq<Op>, key: Key)
    requires Queue(Run(map[], ops).lots, key) == []
    ensures SumBy(PnlAt(key), Run(map[], ops).records) == TotalCash(map[], ops, key) - TotalUnbooked(map[], ops, key)
    ensures SumBy(PnlAt(key), Run(map[], ops).records) == TotalCash(map[], ops, key) <==>
            TotalUnbooked(map[], ops, key) == 0.0
  {
    HistoryBalances(map[], ops, key);
  }

  /** Every close of the history on `key` asks for a positive size. */
  predicate PositiveCloses(ops: seq<Op>, key: Key) {
    forall i :: 0 <= i < |ops| ==>
      ops[i].Close? && (ops[i].order.asset, ops[i].order.side) == key ==> 0.0 < ops[i].order.size
  }

  /** Nothing is lost while every close asks for a positive size. */
  lemma {:induction false} PositiveClosesLoseNothing(lots: Lots, ops: seq<Op>, key: Key)
    requires ValidLots(lots) && PositiveCloses(ops, key)
    ensures TotalUnbooked(lots, ops, key) == 0.0
  {
    if ops != [] {
      PositiveClosesLoseNothing(lots, ops[..|ops| - 1], key);
    }
  }

  /** What an accepted close books of its exit value, its exit fees and its funding: all of it if its size
      is positive, and otherwise each exactly when it is zero. */
  lemma {:induction false} CloseBookedIff(o: CloseOrder, queue: seq<Lot>)
    requires AllSized(queue) && OfSide(o.side, queue) && o.size <= Available(queue)
    ensures SumBy(GrossOf, Matches(o, queue, o.size))
              == Value(o.side, o.exitPrice)(o.size) + (SumBy(OpenCost, queue) - SumBy(OpenCost, Consume(queue, o.size)))
            <==> 0.0 < o.size || Value(o.side, o.exitPrice)(o.size) == 0.0
    ensures SumBy(FeesOf, Matches(o, queue, o.size))
              == o.exitFees + (SumBy(OpenFee, queue) - SumBy(OpenFee, Consume(queue, o.size)))
            <==> 0.0 < o.size || o.exitFees == 0.0
    ensures SumBy(FundingOf, Matches(o, queue, o.size)) == o.funding <==> 0.0 < o.size || o.funding == 0.0
  {
    if 0.0 < o.size {
      CloseGross(o, queue);
      CloseFees(o, queue);
      CloseFunding(o, queue);
    }
  }

  /** A position of one unit, a close of size zero that reports funding, and the closing of the unit. */
  function FundedNothing(price: real, amount: real): seq<Op> {
    [Open("lot", "BTCUSDT", "long", 1.0, price, 0.0, "strategy", 0),
     Close(CloseOrder("BTCUSDT", "long", 0.0, price, 0.0, amount, 1.0, 1)),
     Close(CloseOrder("BTCUSDT", "long", 1.0, price, 0.0, 0.0, 1.0, 2))]
  }

  /** A flat history that loses whatever funding it reports with a close of size zero. */
  lemma {:induction false} FundingLost(price: real, amount: real)
    ensures var ops, key := FundedNothing(price, amount), ("BTCUSDT", "long");
            && Queue(Run(map[], ops).lots, key) == [] && TotalUnbooked(map[], ops, key) == amount
            && SumBy(PnlAt(key), Run(map[], ops).records) == TotalCash(map[], ops, key) - amount
  {
    var ops, key := FundedNothing(price, amount), ("BTCUSDT", "long");
    var lot := NewLot(ops[0]);
    var open: Lots := map[key := [lot]];
    FirstOpen(ops[0], key);
    RunSnoc(map[], [], ops[0]);
    RunSnoc(map[], [ops[0]], ops[1]);
    RunSnoc(map[], [ops[0], ops[1]], ops[2]);
    assert [] + [ops[0]] == [ops[0]] && [ops[0]] + [ops[1]] == [ops[0], ops[1]] && [ops[0], ops[1]] + [ops[2]] == ops;
    OneLot(lot);
    assert Apply(open, ops[1]).lots == open && Apply(open, ops[2]).lots == open[key := []];
    assert Value("long", price)(0.0) == 0.0;
    assert Unbooked(map[], ops[0], key) == 0.0 && Unbooked(open, ops[1], key) == amount;
    assert Unbooked(open, ops[2], key) == 0.0;
    FlatHistory(ops, key);
  }

  lemma {:induction false} OneLot(lot: Lot)
    ensures Available([lot]) == lot.remainingSize
    ensures 0.0 < lot.remainingSize ==> Consume([lot], lot.remainingSize) == []
  {
    assert [lot][1..] == [] && Available([]) == 0.0;
    assert Consume([], 0.0) == [];
  }

  lemma {:induction false} FirstOpen(op: Op, key: Key)
    requires op.Open? && (op.asset, op.side) == key && Accepts(map[], op)
    ensures Apply(map[], op) == Outcome(map[key := [NewLot(op)]], [])
  {
    assert [NewLot(op)] + [] == [NewLot(op)];
    assert Opened([], NewLot(op)) == [NewLot(op)];
  }

  lemma {:induction false} RunSnoc(lots: Lots, ops: seq<Op>, op: Op)
    requires ValidLots(lots)
    ensures var before := Run(lots, ops);
            && Run(lots, ops + [op])
               == Outcome(Apply(before.lots, op).lots, before.records + Apply(before.lots, op).records)
            && forall key :: TotalUnbooked(lots, ops + [op], key)
                             == TotalUnbooked(lots, ops, key) + Unbooked(before.lots, op, key)
  {
    assert (ops + [op])[..|ops|] == ops;
  }

  // ------------------------------------------------------------------ where every record comes from

  /** The two describe one lot, whatever is left of it. */
  predicate SameLot(a: Lot, b: Lot) { a == b.(remainingSize := a.remainingSize) }

  /** The lot is what this call opened. */
  predicate OpenedBy(lot: Lot, op: Op) {
    && op.Open? && lot.tradeId == op.tradeId && lot.asset == op.asset && lot.side == op.side
    && lot.entryPrice == op.price && lot.originalSize == op.size && lot.entryFees == op.fees
    && lot.strategyId == op.strategyId && lot.openedAt == op.at
  }

  /** The lot was there from the start, or one of the calls opened it. */
  ghost predicate HasOrigin(lots: Lots, ops: seq<Op>, lot: Lot) {
    || (exists held :: held in Queue(lots, (lot.asset, lot.side)) && SameLot(lot, held))
    || (exists j :: 0 <= j < |ops| && OpenedBy(lot, ops[j]))
  }

  lemma {:induction false} OriginLater(lots: Lots, ops: seq<Op>, op: Op, lot: Lot)
    requires HasOrigin(lots, ops, lot)
    ensures HasOrigin(lots, ops + [op], lot)
  {
    if exists j :: 0 <= j < |ops| && OpenedBy(lot, ops[j]) {
      var j :| 0 <= j < |ops| && OpenedBy(lot, ops[j]);
      assert (ops + [op])[j] == ops[j];
    }
  }

  lemma {:induction false} ConsumedFrom(queue: seq<Lot>, need: real, lot: Lot)
    requires lot in Consume(queue, need)
    ensures exists held :: held in queue && SameLot(lot, held)
  {
    if 0.0 < need && queue != [] {
      if queue[0].remainingSize <= need {
        ConsumedFrom(queue[1..], need - queue[0].remainingSize, lot);
        var held :| held in queue[1..] && SameLot(lot, held);
        assert held in queue;
      } else {
        assert queue[0] in queue;
        assert lot in queue[1..] || SameLot(lot, queue[0]);
        assert lot in queue[1..] ==> lot in queue && SameLot(lot, lot);
      }
    } else {
      assert SameLot(lot, lot);
    }
  }

  /** After one call, a lot of a queue is one that was in it, or the one the call opened. */
  lemma {:induction false} AppliedFrom(lots: Lots, op: Op, key: Key, lot: Lot)
    requires ValidLots(lots) && lot in Queue(Apply(lots, op).lots, key)
    ensures (exists held :: held in Queue(lots, key) && SameLot(lot, held)) || OpenedBy(lot, op)
  {
    assert SameLot(lot, lot);
    if Accepts(lots, op) {
      match op
      case Open(_, asset, side, _, _, _, _, _) =>
        SortKeepsElements(Earlier, [NewLot(op)] + Queue(lots, (asset, side)));
        assert key == (asset, side) ==> lot in [NewLot(op)] + Queue(lots, (asset, side));
      case Close(o) =>
        if key == (o.asset, o.side) { ConsumedFrom(Queue(lots, key), o.size, lot); }
    }
  }

  lemma {:induction false} OpenLotsHaveOrigin(lots: Lots, ops: seq<Op>, key: Key, lot: Lot)
    requires ValidLots(lots) && lot in Queue(Run(lots, ops).lots, key)
    ensures (lot.asset, lot.side) == key && HasOrigin(lots, ops, lot)
  {
    assert ValidQueue(key, Queue(Run(lots, ops).lots, key));
    if ops == [] {
      assert SameLot(lot, lot);
    } else {
      var n := |ops| - 1;
      var before := Run(lots, ops[..n]).lots;
      AppliedFrom(before, ops[n], key, lot);
      if OpenedBy(lot, ops[n]) {
      } else {
        var held :| held in Queue(before, key) && SameLot(lot, held);
        OpenLotsHaveOrigin(lots, ops[..n], key, held);
        OriginOfSame(lots, ops[..n], held, lot);
        OriginLater(lots, ops[..n], ops[n], lot);
        assert ops[..n] + [ops[n]] == ops;
      }
    }
  }

  lemma {:induction false} OriginOfSame(lots: Lots, ops: seq<Op>, held: Lot, lot: Lot)
    requires HasOrigin(lots, ops, held) && SameLot(lot, held)
    ensures HasOrigin(lots, ops, lot)
  {
    if exists first :: first in Queue(lots, (held.asset, held.side)) && SameLot(held, first) {
      var first :| first in Queue(lots, (held.asset, held.side)) && SameLot(held, first);
      assert SameLot(lot, first);
    } else {
      var j :| 0 <= j < |ops| && OpenedBy(held, ops[j]);
      assert OpenedBy(lot, ops[j]);
    }
  }

  /** The record documents a match of the `k`-th call with a lot of its asset and side that was there from the
      start or was opened by an earlier call. */
  ghost predicate Explained(lots: Lots, ops: seq<Op>, k: nat, r: TradeRecord) {
    && k < |ops| && ops[k].Close?
    && exists lot :: Documents(r, ops[k].order, lot) && (lot.asset, lot.side) == (r.asset, r.positionSide)
                     && HasOrigin(lots, ops[..k], lot)
  }

  lemma {:induction false} StepExplained(lots: Lots, ops: seq<Op>, r: TradeRecord)
    requires ValidLots(lots) && ops != []
    requires r in Apply(Run(lots, ops[..|ops| - 1]).lots, ops[|ops| - 1]).records
    ensures Explained(lots, ops, |ops| - 1, r)
  {
    var n := |ops| - 1;
    var before, o := Run(lots, ops[..n]).lots, ops[n].order;
    var queue := Queue(before, (o.asset, o.side));
    assert AllSized(queue);
    TakenSized(queue, o.size);
    var i :| 0 <= i < |Booked(o, Taken(queue, o.size))| && Booked(o, Taken(queue, o.size))[i] == r;
    BookedDocuments(o, queue, o.size);
    assert queue[i] in queue;
    OpenLotsHaveOrigin(lots, ops[..n], (o.asset, o.side), queue[i]);
  }

  /** Every trade record of every history documents a match of one of its closes with a lot of that asset and
      side, which was there from the start or was opened by an earlier call. */
  lemma {:induction false} RecordsExplained(lots: Lots, ops: seq<Op>, r: TradeRecord)
    requires ValidLots(lots) && r in Run(lots, ops).records
    ensures exists k: nat :: Explained(lots, ops, k, r)
  {
    var n := |ops| - 1;
    if r in Run(lots, ops[..n]).records {
      RecordsExplained(lots, ops[..n], r);
      var k: nat :| Explained(lots, ops[..n], k, r);
      assert ops[..n][..k] == ops[..k] && ops[..n][k] == ops[k];
      assert Explained(lots, ops, k, r);
    } else {
      StepExplained(lots, ops, r);
    }
  }

  // ------------------------------------------------------------------ splitting and order

  lemma {:induction false} ConsumeCompose(queue: seq<Lot>, a: real, b: real)
    requires AllSized(queue) && 0.0 <= a && 0.0 <= b && a + b <= Available(queue)
    ensures Consume(Consume(queue, a), b) == Consume(queue, a + b)
  {
    if 0.0 < a && queue != [] {
      var lot := queue[0];
      if lot.remainingSize <= a {
        ConsumeCompose(queue[1..], a - lot.remainingSize, b);
        assert a - lot.remainingSize + b == a + b - lot.remainingSize;
      } else if b <= 0.0 {
        assert a + b == a;
      } else {
        var left := Reduced(lot, a);
        assert ([left] + queue[1..])[1..] == queue[1..];
        assert b - left.remainingSize == a + b - lot.remainingSize;
      }
    } else if queue != [] {
      assert a + b == b;
    }
  }

  /** `whole` is `first` and `second` placed as one order at the same price. */
  predicate Splits(whole: CloseOrder, first: CloseOrder, second: CloseOrder) {
    && first.side == second.side == whole.side
    && first.exitPrice == second.exitPrice == whole.exitPrice
    && 0.0 < first.size && 0.0 < second.size && first.size + second.size == whole.size
    && first.exitFees + second.exitFees == whole.exitFees
    && first.funding + second.funding == whole.funding
  }

  /** Closing in two parts leaves the same lots and the same total size, fees, funding and P&L as
      closing at once. */
  lemma {:induction false} SplitClose(whole: CloseOrder, first: CloseOrder, second: CloseOrder, queue: seq<Lot>)
    requires AllSized(queue) && OfSide(whole.side, queue) && whole.size <= Available(queue)
    requires Splits(whole, first, second)
    ensures var middle := Consume(queue, first.size);
            && AllSized(middle) && second.size <= Available(middle)
            && Consume(middle, second.size) == Consume(queue, whole.size)
            && var once, twice := Matches(whole, queue, whole.size),
                                  Matches(first, queue, first.size) + Matches(second, middle, second.size);
               && SumBy(SizeOf, twice) == SumBy(SizeOf, once)
               && SumBy(FeesOf, twice) == SumBy(FeesOf, once)
               && SumBy(FundingOf, twice) == SumBy(FundingOf, once)
               && SumBy(PnlOf, twice) == SumBy(PnlOf, once)
  {
    var middle := Consume(queue, first.size);
    ConsumedSide(whole.side, queue, first.size);
    TakenSize(queue, first.size);
    ConsumeCompose(queue, first.size, second.size);
    var a, b := Matches(first, queue, first.size), Matches(second, middle, second.size);
    SumConcat(SizeOf, a, b);
    SumConcat(FeesOf, a, b);
    SumConcat(FundingOf, a, b);
    SumConcat(PnlOf, a, b);
    CloseSize(first, queue);
    CloseSize(second, middle);
    CloseSize(whole, queue);
    CloseFees(first, queue);
    CloseFees(second, middle);
    CloseFees(whole, queue);
    CloseFunding(first, queue);
    CloseFunding(second, middle);
    CloseFunding(whole, queue);
    ClosePnl(first, queue);
    ClosePnl(second, middle);
    ClosePnl(whole, queue);
    ValueAdditive(whole.side, whole.exitPrice);
    assert SplitsAt(Value(whole.side, whole.exitPrice), whole.size, first.size);
  }

  lemma {:induction false} ConsumedSide(side: string, queue: seq<Lot>, need: real)
    requires AllSized(queue) && OfSide(side, queue)
    ensures AllSized(Consume(queue, need)) && OfSide(side, Consume(queue, need))
  {
    if 0.0 < need && queue != [] && queue[0].remainingSize <= need {
      ConsumedSide(side, queue[1..], need - queue[0].remainingSize);
    }
  }

  /** How many lots a close uses up entirely. */
  ghost function Exhausted(queue: seq<Lot>, need: real): (k: nat)
    ensures k <= |queue|
  {
    if need <= 0.0 || queue == [] || need < queue[0].remainingSize then 0
    else 1 + Exhausted(queue[1..], need - queue[0].remainingSize)
  }

  /** What is still needed once those lots are gone. */
  ghost function Shortfall(queue: seq<Lot>, need: real): real {
    need - Available(queue[..Exhausted(queue, need)])
  }

  lemma {:induction false} ShortfallStep(queue: seq<Lot>, need: real)
    requires AllSized(queue) && 0.0 <= need <= Available(queue)
    ensures var k, short := Exhausted(queue, need), Shortfall(queue, need);
            0.0 <= short && (k < |queue| ==> short < queue[k].remainingSize) && (k == |queue| ==> short == 0.0)
  {
    if need <= 0.0 || queue == [] || need < queue[0].remainingSize {
      assert queue[..0] == [];
    } else {
      ShortfallStep(queue[1..], need - queue[0].remainingSize);
      ShortfallTail(queue, need);
    }
  }

  lemma {:induction false} ShortfallTail(queue: seq<Lot>, need: real)
    requires 0.0 < need && queue != [] && queue[0].remainingSize <= need
    ensures Shortfall(queue, need) == Shortfall(queue[1..], need - queue[0].remainingSize)
  {
    var j := Exhausted(queue[1..], need - queue[0].remainingSize);
    assert queue[..j + 1][1..] == queue[1..][..j];
  }

  lemma {:induction false} TakenShape(queue: seq<Lot>, need: real)
    requires AllSized(queue) && 0.0 <= need <= Available(queue)
    ensures var k, short, takes := Exhausted(queue, need), Shortfall(queue, need), Taken(queue, need);
            && |takes| == (if 0.0 < short then k + 1 else k)
            && (0.0 < short ==> k < |queue| && takes[k] == Take(queue[k], short))
            && forall i :: 0 <= i < k ==> takes[i] == Take(queue[i], queue[i].remainingSize)
  {
    ShortfallStep(queue, need);
    if 0.0 < need && queue != [] && queue[0].remainingSize <= need {
      var rest := need - queue[0].remainingSize;
      TakenShape(queue[1..], rest);
      ShortfallTail(queue, need);
    } else {
      assert queue[..0] == [];
    }
  }

  lemma {:induction false} ConsumeShape(queue: seq<Lot>, need: real)
    requires AllSized(queue) && 0.0 <= need <= Available(queue)
    ensures var k, short := Exhausted(queue, need), Shortfall(queue, need);
            && (0.0 < short ==> k < |queue|)
            && Consume(queue, need) ==
               if 0.0 < short then [Reduced(queue[k], short)] + queue[k + 1..] else queue[k..]
  {
    ShortfallStep(queue, need);
    if 0.0 < need && queue != [] && queue[0].remainingSize <= need {
      ConsumeShape(queue[1..], need - queue[0].remainingSize);
      ShortfallTail(queue, need);
    } else {
      assert queue[..0] == [];
    }
  }

  lemma {:induction false} BookedAt(o: CloseOrder, takes: seq<Take>, i: nat)
    requires Bookable(o, takes) && i < |takes|
    ensures |Booked(o, takes)| == |takes| && Booked(o, takes)[i] == Match(o, takes[i].lot, takes[i].size)
  {
    if |takes| > 1 { BookedAt(o, takes[1..], if i == 0 then 0 else i - 1); }
  }

  /** First in, first out: a close uses up the first `k` lots, takes the rest of what it needs from
      the next lot, and leaves every later lot alone.  Each touched lot has one record, in queue
      order, for exactly the size taken from it. */
  lemma {:induction false} OldestFirst(o: CloseOrder, queue: seq<Lot>, i: nat)
    requires AllSized(queue) && 0.0 < o.size <= Available(queue)
    requires i < |Matches(o, queue, o.size)|
    ensures var k, short := Exhausted(queue, o.size), Shortfall(queue, o.size);
            && |Matches(o, queue, o.size)| == (if 0.0 < short then k + 1 else k)
            && (0.0 < short ==> k < |queue| && short < queue[k].remainingSize)
            && Consume(queue, o.size) ==
               (if 0.0 < short then [Reduced(queue[k], short)] + queue[k + 1..] else queue[k..])
            && Matches(o, queue, o.size)[i] == Match(o, queue[i], if i < k then queue[i].remainingSize else short)
  {
    TakenSized(queue, o.size);
    TakenShape(queue, o.size);
    ConsumeShape(queue, o.size);
    ShortfallStep(queue, o.size);
    var takes := Taken(queue, o.size);
    assert takes != [];
    BookedAt(o, takes, 0);
    BookedAt(o, takes, i);
  }

  /** How many lots at the front are strictly older than `lot`. */
  ghost function Older(queue: seq<Lot>, lot: Lot): (k: nat)
    ensures k <= |queue|
    ensures forall i :: 0 <= i < k ==> queue[i].openedAt < lot.openedAt
    ensures k < |queue| ==> lot.openedAt <= queue[k].openedAt
  {
    if queue == [] || lot.openedAt <= queue[0].openedAt then 0 else 1 + Older(queue[1..], lot)
  }

  lemma {:induction false} InsertedAt(queue: seq<Lot>, lot: Lot)
    ensures var k := Older(queue, lot); Insert(Earlier, lot, queue) == queue[..k] + [lot] + queue[k..]
  {
    if queue != [] && queue[0].openedAt < lot.openedAt {
      InsertedAt(queue[1..], lot);
      var j := Older(queue[1..], lot);
      assert queue[..j + 1] == [queue[0]] + queue[1..][..j];
      assert queue[j + 1..] == queue[1..][j..];
    }
  }

  /** Opening keeps a queue in time order.  The new lot goes after every strictly older lot and
      before every other, so lots opened at the same time are closed newest first. */
  lemma {:induction false} OpenedOrder(queue: seq<Lot>, lot: Lot)
    requires Sorted(Earlier, queue)
    ensures var k := Older(queue, lot);
            && Opened(queue, lot) == queue[..k] + [lot] + queue[k..]
            && forall i :: k <= i < |queue| ==> lot.openedAt <= queue[i].openedAt
    ensures Sorted(Earlier, Opened(queue, lot))
  {
    assert ([lot] + queue)[1..] == queue;
    SortOfSorted(Earlier, queue);
    InsertedAt(queue, lot);
    SortSorts(Earlier, [lot] + queue);
    var k := Older(queue, lot);
    forall i | k <= i < |queue| ensures lot.openedAt <= queue[i].openedAt {
      if k < i { assert Earlier(queue[k], queue[i]); }
    }
  }

  /** A lot newer than every other goes to the end. */
  lemma {:induction false} OpenedLast(queue: seq<Lot>, lot: Lot)
    requires Sorted(Earlier, queue) && forall i :: 0 <= i < |queue| ==> queue[i].openedAt < lot.openedAt
    ensures Opened(queue, lot) == queue + [lot]
  {
    OpenedOrder(queue, lot);
    var k := Older(queue, lot);
    assert queue[..|queue|] == queue;
  }

  lemma {:induction false} ConsumedOrder(queue: seq<Lot>, need: real)
    requires Sorted(Earlier, queue)
    ensures Sorted(Earlier, Consume(queue, need))
  {
    if 0.0 < need && queue != [] && queue[0].remainingSize <= need {
      ConsumedOrder(queue[1..], need - queue[0].remainingSize);
    }
  }

  ghost predicate Ordered(lots: Lots) { forall k :: k in lots ==> Sorted(Earlier, lots[k]) }

  /** Opens and closes keep every queue in opening order, so "oldest" always means the front. */
  lemma {:induction false} RunKeepsOrder(lots: Lots, ops: seq<Op>)
    requires ValidLots(lots) && Ordered(lots)
    ensures Ordered(Run(lots, ops).lots)
  {
    if ops != [] {
      var n := |ops| - 1;
      var before := Run(lots, ops[..n]).lots;
      RunKeepsOrder(lots, ops[..n]);
      if Accepts(before, ops[n]) {
        match ops[n]
        case Open(_, asset, side, _, _, _, _, _) =>
          SortSorts(Earlier, [NewLot(ops[n])] + Queue(before, (asset, side)));
        case Close(o) =>
          ConsumedOrder(Queue(before, (o.asset, o.side)), o.size);
      }
    }
  }

  // ------------------------------------------------------------------ restored lots

  lemma {:induction false} LoadedPartSorted(restored: seq<Lot>, key: Key)
    ensures Sorted(Earlier, ForKey(key, Sort(Earlier, restored)))
  {
    FilterSort(Earlier, OfKey(key), restored);
    SortSorts(Earlier, Filter(OfKey(key), restored));
  }

  lemma {:induction false} JoinedOrderIff(a: seq<Lot>, b: seq<Lot>)
    requires Sorted(Earlier, b)
    ensures Sorted(Earlier, a + b) <==> Sorted(Earlier, a) && (a == [] || b == [] || Earlier(a[|a| - 1], b[0]))
  {
    var s, n := a + b, |a|;
    if Sorted(Earlier, s) {
      forall i, j | 0 <= i < j < n ensures Earlier(a[i], a[j]) {
        assert Earlier(s[i], s[j]);
      }
      if a != [] && b != [] { assert Earlier(s[n - 1], s[n]); }
    }
    if Sorted(Earlier, a) && (a == [] || b == [] || Earlier(a[n - 1], b[0])) {
      forall i, j | 0 <= i < j < |s| ensures Earlier(s[i], s[j]) {
        if i < n <= j {
          assert i < n - 1 ==> Earlier(a[i], a[n - 1]);
          assert n < j ==> Earlier(b[0], b[j - n]);
        }
      }
    }
  }

  /** Loading appends without sorting again: a queue is in opening order afterwards exactly when it was
      before and its last lot is no later than the first one loaded into it. */
  lemma {:induction false} LoadedOrderIff(lots: Lots, restored: seq<Lot>, key: Key)
    ensures var held, loaded := Queue(lots, key), ForKey(key, Sort(Earlier, restored));
            Sorted(Earlier, Queue(Loaded(lots, Sort(Earlier, restored)), key)) <==>
            && Sorted(Earlier, held)
            && (held == [] || loaded == [] || held[|held| - 1].openedAt <= loaded[0].openedAt)
  {
    LoadedQueue(lots, Sort(Earlier, restored), key);
    LoadedPartSorted(restored, key);
    JoinedOrderIff(Queue(lots, key), ForKey(key, Sort(Earlier, restored)));
  }

  /** A lot loaded behind a newer one is closed after it. */
  lemma {:induction false} LateLoadClosesLast(held: Lot, late: Lot, o: CloseOrder)
    requires Sized(held) && Sized(late) && late.openedAt < held.openedAt
    requires (held.asset, held.side) == (late.asset, late.side) == (o.asset, o.side) && 0.0 < o.size
    ensures var lots := Loaded(map[(held.asset, held.side) := [held]], Sort(Earlier, [late]));
            var queue := Queue(lots, (o.asset, o.side));
            && queue == [held, late] && !Sorted(Earlier, queue)
            && AllSized(queue) && |Matches(o, queue, o.size)| > 0
            && Matches(o, queue, o.size)[0].entryLotId == held.tradeId
  {
    var lots := map[(held.asset, held.side) := [held]];
    assert Sort(Earlier, [late]) == [late];
    LoadedQueue(lots, [late], (o.asset, o.side));
    assert ForKey((o.asset, o.side), [late]) == [late];
    var queue := [held, late];
    assert !Earlier(queue[0], queue[1]);
    TakenSized(queue, o.size);
    assert Taken(queue, o.size)[0].lot == held;
  }

  /** The ledger after a start that restores persisted lots. */
  function Restored(restored: seq<Lot>): Lots { Loaded(map[], Sort(Earlier, restored)) }

  lemma {:induction false} RestoredReady(restored: seq<Lot>)
    requires AllSized(restored)
    ensures ValidLots(Restored(restored)) && Ordered(Restored(restored))
  {
    SortKeepsSized(restored);
    LoadedValidIff(map[], Sort(Earlier, restored));
    forall k | k in Restored(restored) ensures Sorted(Earlier, Restored(restored)[k]) {
      LoadedOrderIff(map[], restored, k);
    }
  }

  lemma {:induction false} RestoredCarries(restored: seq<Lot>, key: Key)
    ensures Carried(Queue(Restored(restored), key)) == Carried(ForKey(key, restored))
  {
    LoadedQueue(map[], Sort(Earlier, restored), key);
    FilterSort(Earlier, OfKey(key), restored);
    SumSort(OpenCost, Earlier, Filter(OfKey(key), restored));
    SumSort(OpenFee, Earlier, Filter(OfKey(key), restored));
    assert [] + ForKey(key, Sort(Earlier, restored)) == ForKey(key, Sort(Earlier, restored));
  }

  /** A history that begins with a restart: every queue stays in opening order, and what it records is its
      cash flow less what closes without size lose, plus what the restored lots carry, less what is still
      carried. */
  lemma {:induction false} RestoredHistory(restored: seq<Lot>, ops: seq<Op>, key: Key)
    requires AllSized(restored)
    ensures ValidLots(Restored(restored)) && Ordered(Run(Restored(restored), ops).lots)
    ensures SumBy(PnlAt(key), Run(Restored(restored), ops).records)
            == TotalCash(Restored(restored), ops, key) - TotalUnbooked(Restored(restored), ops, key)
               + Carried(ForKey(key, restored)) - Carried(Queue(Run(Restored(restored), ops).lots, key))
  {
    RestoredReady(restored);
    RunKeepsOrder(Restored(restored), ops);
    HistoryBalances(Restored(restored), ops, key);
    RestoredCarries(restored, key);
  }
}
