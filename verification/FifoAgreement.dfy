/** The two FIFO engines agree: the compliance ledger and the research engine produce the same
    matches, gross P&L and fees from the same fills. */
module FifoAgreement {
  import opened Sorting
  import opened FifoLedger
  import A = FifoAccounting
  import R = Research

  /** A research lot as the ledger would hold it. */
  function Lift(l: R.OpenLot): Lot {
    Lot(l.fill.id, l.fill.symbol, l.fill.direction, l.fill.price, l.fill.quantity,
        l.remainingQuantity, l.fill.fee, l.fill.strategy, l.fill.at)
  }

  function LiftAll(queue: seq<R.OpenLot>): (r: seq<Lot>)
    ensures |r| == |queue| && forall i :: 0 <= i < |r| ==> r[i] == Lift(queue[i])
  {
    if queue == [] then [] else [Lift(queue[0])] + LiftAll(queue[1..])
  }

  // ------------------------------------------------------------------ one match

  /** The fee left on a lot is the same share of its fee as the quantity left is of its quantity. */
  predicate FeeKept(l: R.OpenLot) {
    && 0.0 < l.fill.quantity
    && l.remainingFee * l.fill.quantity == l.fill.fee * l.remainingQuantity
  }

  predicate AllKept(queue: seq<R.OpenLot>) { forall i :: 0 <= i < |queue| ==> FeeKept(queue[i]) }

  /** Both engines charge the same opening fee, and the research lot keeps its invariant. */
  lemma {:induction false} ShrunkKeepsFee(l: R.OpenLot, m: real)
    requires FeeKept(l) && 0.0 < l.remainingQuantity
    ensures R.OpeningFee(l, m) == l.fill.fee * (m / l.fill.quantity)
    ensures FeeKept(R.Shrunk(l, m))
  {
    R.ShareOfRemaining(l.fill.fee, l.remainingFee, l.fill.quantity, l.remainingQuantity, m);
    var fee := R.OpeningFee(l, m);
    assert fee * l.fill.quantity == l.fill.fee * m by {
      assert m / l.fill.quantity * l.fill.quantity == m;
      assert fee * l.fill.quantity == l.fill.fee * (m / l.fill.quantity * l.fill.quantity);
    }
    A.Distribute(l.fill.quantity, l.remainingFee, fee);
    A.Distribute(l.fill.fee, l.remainingQuantity, m);
  }

  /** A trade record and an allocation describe the same match. */
  predicate SameMatch(r: TradeRecord, a: R.Allocation) {
    && r.entryLotId == a.lotId && r.positionSize == a.quantity
    && r.asset == a.symbol && r.positionSide == a.direction && r.strategyId == a.strategy
    && A.GrossOf(r) == a.gross && r.fees == a.fees && r.profitLoss - r.funding == a.net
  }

  function OrderFor(f: R.Fill, side: string, funding: real): CloseOrder {
    CloseOrder(f.symbol, side, f.quantity, f.price, f.fee, funding, 1.0, f.at)
  }

  lemma {:induction false} MatchAgrees(l: R.OpenLot, f: R.Fill, m: real, funding: real)
    requires FeeKept(l) && 0.0 < l.remainingQuantity && 0.0 < f.quantity
    ensures SameMatch(Match(OrderFor(f, l.fill.direction, funding), Lift(l), m), R.Allocate(l, f, m))
  {
    ShrunkKeepsFee(l, m);
    assert f.fee * m / f.quantity == f.fee * (m / f.quantity);
  }

  // ------------------------------------------------------------------ one queue

  lemma {:induction false} RemainingAgrees(queue: seq<R.OpenLot>)
    ensures Available(LiftAll(queue)) == R.Remaining(queue)
  {
    if queue != [] { RemainingAgrees(queue[1..]); }
  }

  lemma {:induction false} ReduceAgrees(queue: seq<R.OpenLot>, need: real)
    requires R.HasQuantity(queue) && AllKept(queue)
    ensures Consume(LiftAll(queue), need) == LiftAll(R.Reduce(queue, need))
    ensures AllKept(R.Reduce(queue, need))
  {
    if 0.0 < need && queue != [] {
      if queue[0].remainingQuantity <= need {
        ReduceAgrees(queue[1..], need - queue[0].remainingQuantity);
      } else {
        ShrunkKeepsFee(queue[0], need);
      }
    }
  }

  predicate SamePart(t: Take, p: R.Part) { t.lot == Lift(p.lot) && t.size == p.closing }

  lemma {:induction false} PartsAgree(queue: seq<R.OpenLot>, need: real, side: string)
    requires R.HasQuantity(queue) && AllKept(queue)
    requires forall i :: 0 <= i < |queue| ==> queue[i].fill.direction == side
    ensures var takes, parts := Taken(LiftAll(queue), need), R.Parts(queue, need);
            && |takes| == |parts|
            && forall i :: 0 <= i < |parts| ==>
                 SamePart(takes[i], parts[i]) && FeeKept(parts[i].lot) && parts[i].lot.fill.direction == side
  {
    if 0.0 < need && queue != [] && queue[0].remainingQuantity <= need {
      PartsAgree(queue[1..], need - queue[0].remainingQuantity, side);
    }
  }

  ghost predicate SameMatches(records: seq<TradeRecord>, rows: seq<R.Allocation>) {
    |records| == |rows| && forall i :: 0 <= i < |rows| ==> SameMatch(records[i], rows[i])
  }

  lemma {:induction false} RowAt(f: R.Fill, parts: seq<R.Part>, i: nat)
    requires f.quantity != 0.0 && forall j :: 0 <= j < |parts| ==> 0.0 < parts[j].lot.remainingQuantity
    requires i < |parts|
    ensures |R.Rows(f, parts)| == |parts|
    ensures R.Rows(f, parts)[i] == R.Allocate(parts[i].lot, f, parts[i].closing)
  {
    var n := |parts| - 1;
    if 0 < n { RowAt(f, parts[..n], if i < n then i else 0); }
  }

  /** The records and rows of one reducing fill agree match by match. */
  lemma {:induction false} ClosingAgrees(queue: seq<R.OpenLot>, f: R.Fill, side: string, funding: real)
    requires R.HasQuantity(queue) && AllKept(queue) && 0.0 < f.quantity
    requires forall i :: 0 <= i < |queue| ==> queue[i].fill.direction == side
    ensures AllSized(LiftAll(queue))
    ensures SameMatches(Matches(OrderFor(f, side, funding), LiftAll(queue), f.quantity),
                        R.Rows(f, R.Parts(queue, f.quantity)))
  {
    var o, takes, parts := OrderFor(f, side, funding), Taken(LiftAll(queue), f.quantity), R.Parts(queue, f.quantity);
    assert AllSized(LiftAll(queue)) by {
      forall i | 0 <= i < |queue| ensures Sized(LiftAll(queue)[i]) { assert FeeKept(queue[i]); }
    }
    TakenSized(LiftAll(queue), f.quantity);
    PartsAgree(queue, f.quantity, side);
    RowsMatch(o, f, takes, parts, side, funding);
  }

  lemma {:induction false} RowsMatch(
      o: CloseOrder, f: R.Fill, takes: seq<Take>, parts: seq<R.Part>, side: string, funding: real)
    requires o == OrderFor(f, side, funding) && 0.0 < f.quantity && Bookable(o, takes) && |takes| == |parts|
    requires forall i :: 0 <= i < |parts| ==> 0.0 < parts[i].lot.remainingQuantity
    requires forall i :: 0 <= i < |parts| ==>
      SamePart(takes[i], parts[i]) && FeeKept(parts[i].lot) && parts[i].lot.fill.direction == side
    ensures SameMatches(Booked(o, takes), R.Rows(f, parts))
  {
    if parts != [] {
      A.BookedAt(o, takes, 0);
      RowAt(f, parts, 0);
      forall i | 0 <= i < |parts| ensures SameMatch(Booked(o, takes)[i], R.Rows(f, parts)[i]) {
        A.BookedAt(o, takes, i);
        RowAt(f, parts, i);
        MatchAgrees(parts[i].lot, f, parts[i].closing, funding);
      }
    }
  }

  // ------------------------------------------------------------------ whole histories

  /** The direction in which a symbol is open, if it is. */
  function Direction(queue: seq<R.OpenLot>): string { if queue == [] then "" else queue[0].fill.direction }

  /** Lots of one direction that kept their fee shares. */
  ghost predicate OneSided(queue: seq<R.OpenLot>) {
    && R.HasQuantity(queue) && AllKept(queue)
    && (forall i :: 0 <= i < |queue| ==> queue[i].fill.direction == Direction(queue))
  }

  /** The ledger holds exactly the research lots of a symbol, on their one side. */
  ghost predicate AgreeAt(books: R.Books, lots: Lots, symbol: string) {
    var queue := R.LotsOf(books, symbol);
    && OneSided(queue)
    && forall side: string :: Queue(lots, (symbol, side)) == if side == Direction(queue) then LiftAll(queue) else []
  }

  ghost predicate Agree(books: R.Books, lots: Lots) { forall s: string :: AgreeAt(books, lots, s) }

  /** One open direction per symbol, later than every open lot, and no more reduced than is open. */
  predicate Replayable(books: R.Books, f: R.Fill) {
    var queue := R.LotsOf(books, f.symbol);
    && R.ValidFill(f)
    && if f.opens
       then f.direction in ["long", "short"]
            && forall i :: 0 <= i < |queue| ==> queue[i].fill.direction == f.direction && queue[i].fill.at < f.at
       else f.quantity <= R.Remaining(queue)
  }

  /** The ledger call for a fill; a reduction closes the side its symbol is open on. */
  function OpFor(books: R.Books, f: R.Fill, funding: real): Op {
    if f.opens then Open(f.id, f.symbol, f.direction, f.quantity, f.price, f.fee, f.strategy, f.at)
    else Close(OrderFor(f, Direction(R.LotsOf(books, f.symbol)), funding))
  }

  lemma {:induction false} OpenAgrees(queue: seq<R.OpenLot>, f: R.Fill)
    requires Sorted(Earlier, LiftAll(queue)) && forall i :: 0 <= i < |queue| ==> queue[i].fill.at < f.at
    ensures Opened(LiftAll(queue), Lift(R.OpenLot(f, f.quantity, f.fee)))
            == LiftAll(queue + [R.OpenLot(f, f.quantity, f.fee)])
  {
    var lot := R.OpenLot(f, f.quantity, f.fee);
    A.OpenedLast(LiftAll(queue), Lift(lot));
    assert LiftAll(queue + [lot]) == LiftAll(queue) + [Lift(lot)];
  }

  lemma {:induction false} ReduceKeepsDirection(queue: seq<R.OpenLot>, need: real)
    requires R.HasQuantity(queue)
    requires forall i :: 0 <= i < |queue| ==> queue[i].fill.direction == Direction(queue)
    ensures var after := R.Reduce(queue, need);
            && (after != [] ==> Direction(after) == Direction(queue))
            && forall i :: 0 <= i < |after| ==> after[i].fill.direction == Direction(after)
  {
    if 0.0 < need && queue != [] && queue[0].remainingQuantity <= need {
      ReduceKeepsDirection(queue[1..], need - queue[0].remainingQuantity);
    }
  }

  /** Replacing a symbol's lots on both sides by agreeing ones keeps the engines in agreement. */
  lemma {:induction false} UpdateAgrees(
      books: R.Books, lots: Lots, symbol: string, side: string, queue: seq<R.OpenLot>)
    requires Agree(books, lots) && OneSided(queue) && (queue != [] ==> Direction(queue) == side)
    requires R.LotsOf(books, symbol) != [] ==> Direction(R.LotsOf(books, symbol)) == side
    ensures Agree(books[symbol := queue], lots[(symbol, side) := LiftAll(queue)])
  {
    var books', lots' := books[symbol := queue], lots[(symbol, side) := LiftAll(queue)];
    forall s: string ensures AgreeAt(books', lots', s) {
      assert AgreeAt(books, lots, s);
      if s == symbol {
        forall other: string
          ensures Queue(lots', (s, other)) == if other == Direction(queue) then LiftAll(queue) else []
        {
          assert other != side ==> Queue(lots, (s, other)) == [];
        }
      }
    }
  }

  lemma {:induction false} OpenStepAgrees(books: R.Books, lots: Lots, f: R.Fill)
    requires R.ValidBooks(books) && ValidLots(lots) && A.Ordered(lots)
    requires Agree(books, lots) && Replayable(books, f) && f.opens
    ensures Agree(R.Book(books, f).books, Apply(lots, OpFor(books, f, 0.0)).lots)
  {
    var queue, lot := R.LotsOf(books, f.symbol), R.OpenLot(f, f.quantity, f.fee);
    assert AgreeAt(books, lots, f.symbol);
    assert Queue(lots, (f.symbol, f.direction)) == LiftAll(queue);
    OpenAgrees(queue, f);
    assert FeeKept(lot);
    UpdateAgrees(books, lots, f.symbol, f.direction, queue + [lot]);
  }

  lemma {:induction false} CloseStepAgrees(books: R.Books, lots: Lots, f: R.Fill, funding: real)
    requires R.ValidBooks(books) && ValidLots(lots)
    requires Agree(books, lots) && Replayable(books, f) && !f.opens
    ensures Agree(R.Book(books, f).books, Apply(lots, OpFor(books, f, funding)).lots)
    ensures SameMatches(Apply(lots, OpFor(books, f, funding)).records, R.Book(books, f).allocations)
  {
    var queue, op := R.LotsOf(books, f.symbol), OpFor(books, f, funding);
    assert AgreeAt(books, lots, f.symbol);
    RemainingAgrees(queue);
    assert queue != [] && Accepts(lots, op);
    ReduceAgrees(queue, f.quantity);
    ClosingAgrees(queue, f, Direction(queue), funding);
    ReduceKeepsDirection(queue, f.quantity);
    R.ReduceKeepsQuantity(queue, f.quantity);
    UpdateAgrees(books, lots, f.symbol, Direction(queue), R.Reduce(queue, f.quantity));
  }

  /** One fill takes agreeing states to agreeing states and yields the same matches. */
  lemma {:induction false} StepAgrees(books: R.Books, lots: Lots, f: R.Fill, funding: real)
    requires R.ValidBooks(books) && ValidLots(lots) && A.Ordered(lots)
    requires Agree(books, lots) && Replayable(books, f)
    ensures Agree(R.Book(books, f).books, Apply(lots, OpFor(books, f, funding)).lots)
    ensures SameMatches(Apply(lots, OpFor(books, f, funding)).records, R.Book(books, f).allocations)
  {
    if f.opens {
      OpenStepAgrees(books, lots, f);
    } else {
      CloseStepAgrees(books, lots, f, funding);
    }
  }

  /** The ledger calls that replay a sequence of fills. */
  ghost function Replay(fills: seq<R.Fill>, funding: R.Fill -> real): seq<Op>
    requires forall i :: 0 <= i < |fills| ==> R.ValidFill(fills[i])
  {
    if fills == [] then []
    else
      var n := |fills| - 1;
      Replay(fills[..n], funding)
      + [OpFor(R.BookAll(map[], fills[..n]).books, fills[n], funding(fills[n]))]
  }

  ghost predicate ReplayableAll(fills: seq<R.Fill>)
    requires forall i :: 0 <= i < |fills| ==> R.ValidFill(fills[i])
  {
    forall i :: 0 <= i < |fills| ==> Replayable(R.BookAll(map[], fills[..i]).books, fills[i])
  }

  /** Both engines hold the same lots and report the same matches after these fills. */
  ghost predicate AgreeAfter(fills: seq<R.Fill>, funding: R.Fill -> real)
    requires forall i :: 0 <= i < |fills| ==> R.ValidFill(fills[i])
  {
    var ledger, research := A.Run(map[], Replay(fills, funding)), R.BookAll(map[], fills);
    Agree(research.books, ledger.lots) && SameMatches(ledger.records, research.allocations)
  }

  /** Over every replayable history, whatever funding the ledger is told about, both engines hold the
      same lots and report the same matches, gross P&L, fees and P&L net of funding. */
  lemma {:induction false} EnginesAgree(fills: seq<R.Fill>, funding: R.Fill -> real)
    requires forall i :: 0 <= i < |fills| ==> R.ValidFill(fills[i])
    requires ReplayableAll(fills)
    ensures AgreeAfter(fills, funding)
  {
    if fills != [] {
      var n := |fills| - 1;
      var f, ops := fills[n], Replay(fills[..n], funding);
      var books, lots := R.BookAll(map[], fills[..n]).books, A.Run(map[], ops).lots;
      ReplayablePrefix(fills, n);
      EnginesAgree(fills[..n], funding);
      A.RunKeepsOrder(map[], ops);
      StepAgrees(books, lots, f, funding(f));
      A.RunSnoc(map[], ops, OpFor(books, f, funding(f)));
      MatchesConcat(A.Run(map[], ops).records, R.BookAll(map[], fills[..n]).allocations,
                    Apply(lots, OpFor(books, f, funding(f))).records, R.Book(books, f).allocations);
    }
  }

  lemma {:induction false} MatchesConcat(
      a: seq<TradeRecord>, b: seq<R.Allocation>, c: seq<TradeRecord>, e: seq<R.Allocation>)
    requires SameMatches(a, b) && SameMatches(c, e)
    ensures SameMatches(a + c, b + e)
  {
  }

  lemma {:induction false} ReplayablePrefix(fills: seq<R.Fill>, n: nat)
    requires n <= |fills| && (forall i :: 0 <= i < |fills| ==> R.ValidFill(fills[i])) && ReplayableAll(fills)
    ensures ReplayableAll(fills[..n])
  {
    forall i | 0 <= i < n ensures Replayable(R.BookAll(map[], fills[..n][..i]).books, fills[..n][i]) {
      assert fills[..n][..i] == fills[..i];
    }
  }

  /** A reduction keeps the engines in agreement exactly when it does not ask for more than is open,
      or nothing is open: beyond that the ledger refuses the close while the research engine
      allocates everything that was open. */
  lemma {:induction false} ReductionAgreesIff(books: R.Books, lots: Lots, f: R.Fill, funding: real)
    requires R.ValidBooks(books) && ValidLots(lots) && A.Ordered(lots) && Agree(books, lots)
    requires R.ValidFill(f) && !f.opens
    ensures var queue, op := R.LotsOf(books, f.symbol), OpFor(books, f, funding);
            (SameMatches(Apply(lots, op).records, R.Book(books, f).allocations)
             && Agree(R.Book(books, f).books, Apply(lots, op).lots))
            <==> f.quantity <= R.Remaining(queue) || queue == []
  {
    var queue, op := R.LotsOf(books, f.symbol), OpFor(books, f, funding);
    assert AgreeAt(books, lots, f.symbol);
    RemainingAgrees(queue);
    if f.quantity <= R.Remaining(queue) {
      StepAgrees(books, lots, f, funding);
    } else if queue == [] {
      assert !Accepts(lots, op);
      assert R.Book(books, f).allocations == [];
      forall s: string ensures AgreeAt(R.Book(books, f).books, lots, s) {
        assert AgreeAt(books, lots, s);
      }
    } else {
      assert !Accepts(lots, op);
      var parts := R.Parts(queue, f.quantity);
      assert parts != [];
      RowAt(f, parts, 0);
      assert !SameMatches(Apply(lots, op).records, R.Book(books, f).allocations);
    }
  }

  /** A fill that opens a lot the engines can both place: a known side, the one direction its symbol is
      open in, and strictly later than every open lot of it. */
  predicate Placeable(queue: seq<R.OpenLot>, f: R.Fill) {
    && f.direction in ["long", "short"]
    && forall i :: 0 <= i < |queue| ==> queue[i].fill.direction == f.direction && queue[i].fill.at < f.at
  }

  /** No open lot carries the fill's identifier. */
  predicate FreshId(queue: seq<R.OpenLot>, f: R.Fill) {
    forall i :: 0 <= i < |queue| ==> queue[i].fill.id != f.id
  }

  /** A lot that is not newer than all others, and differs from them, is not placed last. */
  lemma {:induction false} NotPlacedLast(queue: seq<R.OpenLot>, f: R.Fill)
    requires Sorted(Earlier, LiftAll(queue)) && FreshId(queue, f)
    requires Opened(LiftAll(queue), Lift(R.OpenLot(f, f.quantity, f.fee)))
             == LiftAll(queue + [R.OpenLot(f, f.quantity, f.fee)])
    ensures forall i :: 0 <= i < |queue| ==> queue[i].fill.at < f.at
  {
    var lifted, lot := LiftAll(queue), R.OpenLot(f, f.quantity, f.fee);
    A.OpenedOrder(lifted, Lift(lot));
    var k := A.Older(lifted, Lift(lot));
    var placed := lifted[..k] + [Lift(lot)] + lifted[k..];
    assert placed[k] == Lift(lot);
    assert LiftAll(queue + [lot])[k] == Lift((queue + [lot])[k]);
    assert k == |queue|;
    forall i | 0 <= i < |queue| ensures queue[i].fill.at < f.at {
      assert lifted[i] == Lift(queue[i]);
    }
  }

  /** Lots of one direction plus one more stay of one direction only if it is theirs. */
  lemma {:induction false} OneSidedLast(queue: seq<R.OpenLot>, lot: R.OpenLot)
    requires OneSided(queue + [lot])
    ensures Direction(queue + [lot]) == lot.fill.direction
    ensures forall i :: 0 <= i < |queue| ==> queue[i].fill.direction == lot.fill.direction
  {
    var longer := queue + [lot];
    assert longer[|queue|] == lot;
    forall i | 0 <= i < |queue| ensures queue[i].fill.direction == lot.fill.direction {
      assert longer[i] == queue[i];
    }
  }

  lemma {:induction false} AgreeOpened(books: R.Books, lots: Lots, f: R.Fill)
    requires R.ValidBooks(books) && ValidLots(lots) && A.Ordered(lots) && Agree(books, lots)
    requires R.ValidFill(f) && f.opens && FreshId(R.LotsOf(books, f.symbol), f)
    requires Agree(R.Book(books, f).books, Apply(lots, OpFor(books, f, 0.0)).lots)
    ensures Placeable(R.LotsOf(books, f.symbol), f)
  {
    var queue, lot := R.LotsOf(books, f.symbol), R.OpenLot(f, f.quantity, f.fee);
    assert AgreeAt(books, lots, f.symbol);
    assert AgreeAt(R.Book(books, f).books, Apply(lots, OpFor(books, f, 0.0)).lots, f.symbol);
    assert R.LotsOf(R.Book(books, f).books, f.symbol) == queue + [lot];
    OneSidedLast(queue, lot);
    PlacedAsListed(lots, OpFor(books, f, 0.0), queue, f);
    NotPlacedLast(queue, f);
  }

  /** A ledger that holds the lifted lots before and after an opening accepted it, and placed it as listed. */
  lemma {:induction false} PlacedAsListed(lots: Lots, op: Op, queue: seq<R.OpenLot>, f: R.Fill)
    requires ValidLots(lots) && A.Ordered(lots)
    requires op == Open(f.id, f.symbol, f.direction, f.quantity, f.price, f.fee, f.strategy, f.at)
    requires Queue(lots, (f.symbol, f.direction)) == LiftAll(queue)
    requires Queue(Apply(lots, op).lots, (f.symbol, f.direction)) == LiftAll(queue + [R.OpenLot(f, f.quantity, f.fee)])
    ensures f.direction in ["long", "short"] && Sorted(Earlier, LiftAll(queue))
    ensures Opened(LiftAll(queue), Lift(R.OpenLot(f, f.quantity, f.fee)))
            == LiftAll(queue + [R.OpenLot(f, f.quantity, f.fee)])
  {
    assert |LiftAll(queue + [R.OpenLot(f, f.quantity, f.fee)])| == |LiftAll(queue)| + 1;
    assert NewLot(op) == Lift(R.OpenLot(f, f.quantity, f.fee));
    if queue != [] { assert (f.symbol, f.direction) in lots; }
  }

  /** An opening keeps the engines in agreement exactly when its lot is placeable: lots of one time go
      newest first in the ledger and oldest first in the research engine, and a second direction shares
      one queue in the research engine only. */
  lemma {:induction false} OpeningAgreesIff(books: R.Books, lots: Lots, f: R.Fill)
    requires R.ValidBooks(books) && ValidLots(lots) && A.Ordered(lots) && Agree(books, lots)
    requires R.ValidFill(f) && f.opens && FreshId(R.LotsOf(books, f.symbol), f)
    ensures Agree(R.Book(books, f).books, Apply(lots, OpFor(books, f, 0.0)).lots) <==>
            Placeable(R.LotsOf(books, f.symbol), f)
  {
    if Placeable(R.LotsOf(books, f.symbol), f) {
      OpenStepAgrees(books, lots, f);
    }
    if Agree(R.Book(books, f).books, Apply(lots, OpFor(books, f, 0.0)).lots) {
      AgreeOpened(books, lots, f);
    }
  }

  /** What a fill may ask for without parting the engines. */
  predicate Harmonious(books: R.Books, f: R.Fill) {
    var queue := R.LotsOf(books, f.symbol);
    if f.opens then Placeable(queue, f) else f.quantity <= R.Remaining(queue) || queue == []
  }

  /** Any fill keeps the engines in agreement, on lots and on matches, exactly when it is harmonious. */
  lemma {:induction false} StepAgreesIff(books: R.Books, lots: Lots, f: R.Fill, funding: real)
    requires R.ValidBooks(books) && ValidLots(lots) && A.Ordered(lots) && Agree(books, lots)
    requires R.ValidFill(f) && (f.opens ==> FreshId(R.LotsOf(books, f.symbol), f))
    ensures SameMatches(Apply(lots, OpFor(books, f, funding)).records, R.Book(books, f).allocations)
            && Agree(R.Book(books, f).books, Apply(lots, OpFor(books, f, funding)).lots)
            <==> Harmonious(books, f)
  {
    if f.opens {
      OpeningAgreesIff(books, lots, f);
    } else {
      ReductionAgreesIff(books, lots, f, funding);
    }
  }

  // ------------------------------------------------------------------ a condition on the fills alone

  predicate BothOpen(a: R.Fill, b: R.Fill) { a.opens && b.opens && a.symbol == b.symbol }

  /** Strictly later and later fills; every symbol is only ever opened in one direction. */
  predicate OneWay(fills: seq<R.Fill>) {
    && (forall i, j :: 0 <= i < j < |fills| ==> fills[i].at < fills[j].at)
    && (forall i :: 0 <= i < |fills| && fills[i].opens ==> fills[i].direction in ["long", "short"])
    && (forall i, j :: 0 <= i < j < |fills| && BothOpen(fills[i], fills[j]) ==>
          fills[i].direction == fills[j].direction)
  }

  /** No reduction asks for more than is open at that point. */
  ghost predicate NoOverClose(fills: seq<R.Fill>)
    requires forall i :: 0 <= i < |fills| ==> R.ValidFill(fills[i])
  {
    forall i :: 0 <= i < |fills| && !fills[i].opens ==>
      fills[i].quantity <= R.Remaining(R.LotsOf(R.BookAll(map[], fills[..i]).books, fills[i].symbol))
  }

  function FillsOf(queue: seq<R.OpenLot>): set<R.Fill> { set l | l in queue :: l.fill }

  lemma {:induction false} ReducedFrom(queue: seq<R.OpenLot>, need: real)
    requires R.HasQuantity(queue)
    ensures FillsOf(R.Reduce(queue, need)) <= FillsOf(queue)
  {
    if 0.0 < need && queue != [] {
      if queue[0].remainingQuantity <= need {
        ReducedFrom(queue[1..], need - queue[0].remainingQuantity);
      } else {
        assert queue[0] in queue;
        assert R.Reduce(queue, need)[0].fill == queue[0].fill;
      }
    }
  }

  /** Every open lot was opened by one of the fills, for its own symbol. */
  lemma {:induction false} LotsComeFromFills(fills: seq<R.Fill>, symbol: string)
    requires forall i :: 0 <= i < |fills| ==> R.ValidFill(fills[i])
    ensures forall l :: l in R.LotsOf(R.BookAll(map[], fills).books, symbol) ==>
              l.fill in fills && l.fill.opens && l.fill.symbol == symbol
  {
    if fills != [] {
      var n := |fills| - 1;
      var before, f := R.BookAll(map[], fills[..n]).books, fills[n];
      LotsComeFromFills(fills[..n], symbol);
      forall l | l in R.LotsOf(R.BookAll(map[], fills).books, symbol)
        ensures l.fill in fills && l.fill.opens && l.fill.symbol == symbol
      {
        var queue := R.LotsOf(before, symbol);
        if f.symbol == symbol && !f.opens {
          ReducedFrom(queue, f.quantity);
          assert l.fill in FillsOf(R.Reduce(queue, f.quantity));
          assert l.fill in FillsOf(queue);
        }
      }
    }
  }

  lemma {:induction false} OneWayReplayable(fills: seq<R.Fill>)
    requires forall i :: 0 <= i < |fills| ==> R.ValidFill(fills[i])
    requires OneWay(fills) && NoOverClose(fills)
    ensures ReplayableAll(fills)
  {
    forall i | 0 <= i < |fills| ensures Replayable(R.BookAll(map[], fills[..i]).books, fills[i]) {
      var queue := R.LotsOf(R.BookAll(map[], fills[..i]).books, fills[i].symbol);
      LotsComeFromFills(fills[..i], fills[i].symbol);
      if fills[i].opens {
        forall k | 0 <= k < |queue|
          ensures queue[k].fill.direction == fills[i].direction && queue[k].fill.at < fills[i].at
        {
          assert queue[k] in queue;
          var j :| 0 <= j < i && fills[..i][j] == queue[k].fill;
          assert fills[j] == queue[k].fill;
        }
      }
    }
  }

  // ------------------------------------------------------------------ the exact condition on histories

  /** Opening fills have their own identifiers. */
  predicate DistinctOpenings(fills: seq<R.Fill>) {
    forall i, j :: 0 <= i < j < |fills| && fills[i].opens && fills[j].opens ==> fills[i].id != fills[j].id
  }

  lemma {:induction false} FreshOpening(fills: seq<R.Fill>, n: nat)
    requires n < |fills| && (forall i :: 0 <= i < |fills| ==> R.ValidFill(fills[i]))
    requires DistinctOpenings(fills) && fills[n].opens
    ensures FreshId(R.LotsOf(R.BookAll(map[], fills[..n]).books, fills[n].symbol), fills[n])
  {
    var queue := R.LotsOf(R.BookAll(map[], fills[..n]).books, fills[n].symbol);
    LotsComeFromFills(fills[..n], fills[n].symbol);
    forall k | 0 <= k < |queue| ensures queue[k].fill.id != fills[n].id {
      assert queue[k] in queue;
      var j :| 0 <= j < n && fills[..n][j] == queue[k].fill;
      assert fills[j] == queue[k].fill;
    }
  }

  lemma {:induction false} MatchesCancel(
      a: seq<TradeRecord>, b: seq<R.Allocation>, c: seq<TradeRecord>, e: seq<R.Allocation>)
    requires SameMatches(a, b) && SameMatches(a + c, b + e)
    ensures SameMatches(c, e)
  {
    forall i | 0 <= i < |e| ensures SameMatch(c[i], e[i]) {
      assert (a + c)[|a| + i] == c[i] && (b + e)[|b| + i] == e[i];
    }
  }

  /** After a prefix on which the engines agree, the next fill keeps them so exactly when it is harmonious. */
  lemma {:induction false} NextFillAgreesIff(fills: seq<R.Fill>, funding: R.Fill -> real, n: nat)
    requires n < |fills| && (forall i :: 0 <= i < |fills| ==> R.ValidFill(fills[i])) && DistinctOpenings(fills)
    requires AgreeAfter(fills[..n], funding)
    ensures AgreeAfter(fills[..n + 1], funding) <==> Harmonious(R.BookAll(map[], fills[..n]).books, fills[n])
  {
    var f, ops, before := fills[n], Replay(fills[..n], funding), R.BookAll(map[], fills[..n]);
    var ledger, op := A.Run(map[], ops), OpFor(before.books, f, funding(f));
    assert fills[..n + 1][..n] == fills[..n];
    A.RunKeepsOrder(map[], ops);
    if f.opens { FreshOpening(fills, n); }
    StepAgreesIff(before.books, ledger.lots, f, funding(f));
    A.RunSnoc(map[], ops, op);
    var records, rows := Apply(ledger.lots, op).records, R.Book(before.books, f).allocations;
    if SameMatches(records, rows) {
      MatchesConcat(ledger.records, before.allocations, records, rows);
    }
    if SameMatches(ledger.records + records, before.allocations + rows) {
      MatchesCancel(ledger.records, before.allocations, records, rows);
    }
  }

  ghost predicate HarmoniousAll(fills: seq<R.Fill>)
    requires forall i :: 0 <= i < |fills| ==> R.ValidFill(fills[i])
  {
    forall i :: 0 <= i < |fills| ==> Harmonious(R.BookAll(map[], fills[..i]).books, fills[i])
  }

  lemma {:induction false} HarmoniousPrefixAgrees(fills: seq<R.Fill>, funding: R.Fill -> real, n: nat)
    requires n <= |fills| && (forall i :: 0 <= i < |fills| ==> R.ValidFill(fills[i])) && DistinctOpenings(fills)
    requires HarmoniousAll(fills)
    ensures AgreeAfter(fills[..n], funding)
  {
    if n != 0 {
      HarmoniousPrefixAgrees(fills, funding, n - 1);
      NextFillAgreesIff(fills, funding, n - 1);
    }
  }

  /** The engines agree after every prefix of a history exactly when each of its fills is harmonious. */
  lemma {:induction false} HistoryAgreesIff(fills: seq<R.Fill>, funding: R.Fill -> real)
    requires (forall i :: 0 <= i < |fills| ==> R.ValidFill(fills[i])) && DistinctOpenings(fills)
    ensures (forall n :: 0 <= n <= |fills| ==> AgreeAfter(fills[..n], funding)) <==> HarmoniousAll(fills)
  {
    if HarmoniousAll(fills) {
      forall n | 0 <= n <= |fills| ensures AgreeAfter(fills[..n], funding) {
        HarmoniousPrefixAgrees(fills, funding, n);
      }
    }
    if forall n :: 0 <= n <= |fills| ==> AgreeAfter(fills[..n], funding) {
      forall i | 0 <= i < |fills| ensures Harmonious(R.BookAll(map[], fills[..i]).books, fills[i]) {
        assert AgreeAfter(fills[..i], funding) && AgreeAfter(fills[..i + 1], funding);
        NextFillAgreesIff(fills, funding, i);
      }
    }
  }

  // ------------------------------------------------------------------ the report against the ledger

  /** No opening fill of the sequence carries the identifier of `x`, itself an opening. */
  predicate NoTwin(x: R.Fill, s: seq<R.Fill>) { forall f :: f in s && f.opens && x.opens ==> f.id != x.id }

  lemma {:induction false} DistinctCons(x: R.Fill, s: seq<R.Fill>)
    ensures DistinctOpenings([x] + s) <==> NoTwin(x, s) && DistinctOpenings(s)
  {
    var all := [x] + s;
    if DistinctOpenings(all) {
      forall f | f in s && f.opens && x.opens ensures f.id != x.id {
        var i :| 0 <= i < |s| && s[i] == f;
        assert all[0] == x && all[i + 1] == f;
      }
      forall i, j | 0 <= i < j < |s| && s[i].opens && s[j].opens ensures s[i].id != s[j].id {
        assert all[i + 1] == s[i] && all[j + 1] == s[j];
      }
    }
    if NoTwin(x, s) && DistinctOpenings(s) {
      forall i, j | 0 <= i < j < |all| && all[i].opens && all[j].opens ensures all[i].id != all[j].id {
        assert all[j] == s[j - 1] && all[j] in s;
        assert 0 < i ==> all[i] == s[i - 1];
      }
    }
  }

  lemma {:induction false} InsertDistinct(x: R.Fill, s: seq<R.Fill>)
    requires NoTwin(x, s) && DistinctOpenings(s)
    ensures DistinctOpenings(Insert(R.FillOrder, x, s))
    ensures forall f :: f in Insert(R.FillOrder, x, s) ==> f == x || f in s
  {
    if s == [] || R.FillOrder(x, s[0]) {
      DistinctCons(x, s);
    } else {
      var rest := s[1..];
      assert s == [s[0]] + rest;
      DistinctCons(s[0], rest);
      InsertDistinct(x, rest);
      DistinctCons(s[0], Insert(R.FillOrder, x, rest));
    }
  }

  lemma {:induction false} InOrderDistinct(fills: seq<R.Fill>)
    requires DistinctOpenings(fills)
    ensures DistinctOpenings(R.InOrder(fills)) && forall f :: f in R.InOrder(fills) ==> f in fills
  {
    if fills != [] {
      var x, rest := fills[0], fills[1..];
      assert fills == [x] + rest;
      DistinctCons(x, rest);
      InOrderDistinct(rest);
      InsertDistinct(x, R.InOrder(rest));
    }
  }

  /** The research report against the ledger: replaying the stored fills in the order the report books them, the
      two agree all along exactly when every fill is harmonious, and then what `ClosedAllocations` returns are
      the ledger's matches. */
  lemma {:induction false} ReportAgreesIff(fills: seq<R.Fill>, funding: R.Fill -> real)
    requires R.ValidFills(fills) && DistinctOpenings(fills)
    ensures R.ValidFills(R.InOrder(fills))
    ensures var ordered := R.InOrder(fills);
            (forall n :: 0 <= n <= |ordered| ==> AgreeAfter(ordered[..n], funding)) <==> HarmoniousAll(ordered)
    ensures var ordered := R.InOrder(fills);
            HarmoniousAll(ordered) ==>
              var report := R.AllocationsOf(R.TryBookAll(map[], ordered));
              report.Ok? && SameMatches(A.Run(map[], Replay(ordered, funding)).records, report.value)
  {
    var ordered := R.InOrder(fills);
    R.InOrderKeeps(fills);
    InOrderDistinct(fills);
    HistoryAgreesIff(ordered, funding);
    R.TryBookAllOfValid(map[], ordered);
    assert ordered[..|ordered|] == ordered;
  }
}
