/** The research engine's own FIFO matching of fills (`maais/analytics/research.py`).

    It is keyed by symbol, takes opening fees out of what is left of them, and silently drops the
    part of a reducing fill that exceeds the open quantity.  Excursions and R-multiples are not
    modelled; decimals are exact reals. */
module Research {
  import opened Results
  import opened Sorting
  import opened Sums

  datatype Fill = Fill(
    id: string, symbol: string, opens: bool, quantity: real, price: real, fee: real, at: int,
    direction: string, strategy: string, regime: string, coalition: string, entryHour: string,
    exitReason: string, consensus: Option<real>, agents: map<string, real>)

  datatype OpenLot = OpenLot(fill: Fill, remainingQuantity: real, remainingFee: real)

  /** One reported allocation.  `lotId` and `quantity` are not in the reported row; they identify the
      match the row was computed from. */
  datatype Allocation = Allocation(
    lotId: string, quantity: real, symbol: string, direction: string, strategy: string, regime: string,
    coalition: string, entryHour: string, exitReason: string, gross: real, fees: real, net: real,
    consensus: Option<real>, agents: map<string, real>)

  type Books = map<string, seq<OpenLot>>

  datatype Step = Step(books: Books, allocations: seq<Allocation>)

  /** Stored fills have a positive quantity. */
  predicate ValidFill(f: Fill) { 0.0 < f.quantity }

  predicate FillOrder(a: Fill, b: Fill) { a.at < b.at || (a.at == b.at && !Less(b.id, a.id)) }

  function LotsOf(books: Books, symbol: string): seq<OpenLot> {
    if symbol in books then books[symbol] else []
  }

  predicate HasQuantity(queue: seq<OpenLot>) {
    forall i :: 0 <= i < |queue| ==> 0.0 < queue[i].remainingQuantity
  }

  ghost predicate ValidBooks(books: Books) { forall s :: s in books ==> HasQuantity(books[s]) }

  function Remaining(queue: seq<OpenLot>): real {
    if queue == [] then 0.0 else queue[0].remainingQuantity + Remaining(queue[1..])
  }

  function OpeningFee(lot: OpenLot, closing: real): real
    requires lot.remainingQuantity != 0.0
  {
    lot.remainingFee * closing / lot.remainingQuantity
  }

  function Gross(lot: OpenLot, f: Fill, closing: real): real {
    if lot.fill.direction == "long" then (f.price - lot.fill.price) * closing
    else (lot.fill.price - f.price) * closing
  }

  function Allocate(lot: OpenLot, f: Fill, closing: real): Allocation
    requires lot.remainingQuantity != 0.0 && f.quantity != 0.0
  {
    var openingFee := OpeningFee(lot, closing);
    var closingFee := f.fee * closing / f.quantity;
    var gross := Gross(lot, f, closing);
    Allocation(lot.fill.id, closing, f.symbol, lot.fill.direction, lot.fill.strategy, lot.fill.regime,
               lot.fill.coalition, lot.fill.entryHour,
               if f.exitReason == "" then "unclassified" else f.exitReason,
               gross, openingFee + closingFee, gross - openingFee - closingFee,
               lot.fill.consensus, lot.fill.agents)
  }

  function Shrunk(lot: OpenLot, closing: real): OpenLot
    requires lot.remainingQuantity != 0.0
  {
    OpenLot(lot.fill, lot.remainingQuantity - closing, lot.remainingFee - OpeningFee(lot, closing))
  }

  /** The lots left after `need` has been taken from the front; an excess need is dropped. */
  function Reduce(queue: seq<OpenLot>, need: real): seq<OpenLot> {
    if need <= 0.0 || queue == [] then queue
    else if queue[0].remainingQuantity <= need then Reduce(queue[1..], need - queue[0].remainingQuantity)
    else [Shrunk(queue[0], need)] + queue[1..]
  }

  /** The part of a lot that one reducing fill closes. */
  datatype Part = Part(lot: OpenLot, closing: real)

  function Parts(queue: seq<OpenLot>, need: real): (r: seq<Part>)
    ensures r != [] ==> 0.0 < need
    ensures HasQuantity(queue) ==> forall i :: 0 <= i < |r| ==> 0.0 < r[i].lot.remainingQuantity
  {
    if need <= 0.0 || queue == [] then []
    else if queue[0].remainingQuantity <= need then
      [Part(queue[0], queue[0].remainingQuantity)] + Parts(queue[1..], need - queue[0].remainingQuantity)
    else [Part(queue[0], need)]
  }

  /** No part closes an empty lot, whose fee share is undefined. */
  predicate NonEmpty(parts: seq<Part>) { forall i :: 0 <= i < |parts| ==> parts[i].lot.remainingQuantity != 0.0 }

  /** One reported row per part. */
  function Rows(f: Fill, parts: seq<Part>): seq<Allocation>
    requires NonEmpty(parts) && (parts != [] ==> f.quantity != 0.0)
  {
    if parts == [] then []
    else Rows(f, parts[..|parts| - 1])
         + [Allocate(parts[|parts| - 1].lot, f, parts[|parts| - 1].closing)]
  }

  function Book(books: Books, f: Fill): Step
    requires ValidBooks(books) && ValidFill(f)
  {
    var queue := LotsOf(books, f.symbol);
    if f.opens then Step(books[f.symbol := queue + [OpenLot(f, f.quantity, f.fee)]], [])
    else Step(books[f.symbol := Reduce(queue, f.quantity)], Rows(f, Parts(queue, f.quantity)))
  }

  lemma {:induction false} ReduceKeepsQuantity(queue: seq<OpenLot>, need: real)
    requires HasQuantity(queue)
    ensures HasQuantity(Reduce(queue, need))
  {
    if 0.0 < need && queue != [] && queue[0].remainingQuantity <= need {
      ReduceKeepsQuantity(queue[1..], need - queue[0].remainingQuantity);
    }
  }

  lemma {:induction false} BookKeepsValid(books: Books, f: Fill)
    requires ValidBooks(books) && ValidFill(f)
    ensures ValidBooks(Book(books, f).books)
  {
    ReduceKeepsQuantity(LotsOf(books, f.symbol), f.quantity);
  }

  /** All fills in the given order. */
  ghost function BookAll(books: Books, fills: seq<Fill>): (r: Step)
    requires ValidBooks(books) && forall i :: 0 <= i < |fills| ==> ValidFill(fills[i])
    ensures ValidBooks(r.books)
  {
    if fills == [] then Step(books, [])
    else
      var before := BookAll(books, fills[..|fills| - 1]);
      var last := Book(before.books, fills[|fills| - 1]);
      BookKeepsValid(before.books, fills[|fills| - 1]);
      Step(last.books, before.allocations + last.allocations)
  }

  /** The queue after one match against its front lot, which leaves once nothing of it remains. */
  function AfterMatch(queue: seq<OpenLot>, closing: real): seq<OpenLot>
    requires queue != [] && queue[0].remainingQuantity != 0.0
  {
    var left := Shrunk(queue[0], closing);
    if left.remainingQuantity == 0.0 then queue[1..] else [left] + queue[1..]
  }

  lemma {:induction false} MatchStep(queue: seq<OpenLot>, remaining: real, closing: real)
    requires queue != [] && 0.0 < remaining && queue[0].remainingQuantity != 0.0
    requires closing == if remaining <= queue[0].remainingQuantity then remaining else queue[0].remainingQuantity
    ensures Reduce(queue, remaining) == Reduce(AfterMatch(queue, closing), remaining - closing)
    ensures Parts(queue, remaining)
            == [Part(queue[0], closing)] + Parts(AfterMatch(queue, closing), remaining - closing)
  {
  }

  lemma {:induction false} RowsSnoc(f: Fill, parts: seq<Part>, last: Part)
    requires f.quantity != 0.0 && last.lot.remainingQuantity != 0.0 && NonEmpty(parts)
    ensures Rows(f, parts + [last]) == Rows(f, parts) + [Allocate(last.lot, f, last.closing)]
  {
    assert (parts + [last])[..|parts|] == parts;
  }

  /** The matching loop after it closed `parts` of `start`. */
  ghost predicate Closing(
      start: seq<OpenLot>, f: Fill, queue: seq<OpenLot>, remaining: real, parts: seq<Part>, rows: seq<Allocation>)
  {
    && (0.0 < remaining || parts != [] ==> 0.0 < f.quantity)
    && Reduce(start, f.quantity) == Reduce(queue, remaining)
    && Parts(start, f.quantity) == parts + Parts(queue, remaining)
    && NonEmpty(parts) && rows == Rows(f, parts)
  }

  lemma {:induction false} ClosingStep(
      start: seq<OpenLot>, f: Fill, queue: seq<OpenLot>, remaining: real, parts: seq<Part>, rows: seq<Allocation>,
      closing: real)
    requires Closing(start, f, queue, remaining, parts, rows)
    requires queue != [] && 0.0 < remaining && queue[0].remainingQuantity != 0.0
    requires closing == if remaining <= queue[0].remainingQuantity then remaining else queue[0].remainingQuantity
    ensures Closing(start, f, AfterMatch(queue, closing), remaining - closing,
                    parts + [Part(queue[0], closing)], rows + [Allocate(queue[0], f, closing)])
  {
    var part := Part(queue[0], closing);
    MatchStep(queue, remaining, closing);
    RowsSnoc(f, parts, part);
    ShiftOne(parts, part, Parts(AfterMatch(queue, closing), remaining - closing));
  }

  lemma {:induction false} ClosingStuck(
      start: seq<OpenLot>, f: Fill, queue: seq<OpenLot>, remaining: real, parts: seq<Part>, rows: seq<Allocation>)
    requires Closing(start, f, queue, remaining, parts, rows)
    requires queue != [] && 0.0 < remaining && queue[0].remainingQuantity == 0.0
    ensures !NonEmpty(Parts(start, f.quantity))
  {
    assert Parts(start, f.quantity)[|parts|] == Parts(queue, remaining)[0];
  }

  lemma {:induction false} ClosingDone(
      start: seq<OpenLot>, f: Fill, queue: seq<OpenLot>, remaining: real, parts: seq<Part>, rows: seq<Allocation>)
    requires Closing(start, f, queue, remaining, parts, rows) && (remaining <= 0.0 || queue == [])
    ensures NonEmpty(Parts(start, f.quantity))
    ensures queue == Reduce(start, f.quantity) && rows == Rows(f, Parts(start, f.quantity))
  {
    assert parts + [] == parts;
  }

  /** No lot is empty: the share of its fee is defined. */
  predicate NoneEmpty(queue: seq<OpenLot>) {
    forall i :: 0 <= i < |queue| ==> queue[i].remainingQuantity != 0.0
  }

  lemma {:induction false} PartsOfNoneEmpty(queue: seq<OpenLot>, need: real)
    requires NoneEmpty(queue)
    ensures NonEmpty(Parts(queue, need)) && NoneEmpty(Reduce(queue, need))
  {
    if 0.0 < need && queue != [] && queue[0].remainingQuantity <= need {
      PartsOfNoneEmpty(queue[1..], need - queue[0].remainingQuantity);
    }
  }

  /** The matching loop for one reducing fill, of any quantity.  It raises exactly when it reaches an empty
      lot. */
  method CloseAgainst(start: seq<OpenLot>, f: Fill) returns (r: Result<(seq<OpenLot>, seq<Allocation>), string>)
    ensures r.Ok? <==> NonEmpty(Parts(start, f.quantity))
    ensures r.Ok? ==> r.value == (Reduce(start, f.quantity), Rows(f, Parts(start, f.quantity)))
    ensures r.Err? ==> r.error == DIVISION_UNDEFINED
  {
    var queue, rows: seq<Allocation> := start, [];
    ghost var parts: seq<Part> := [];
    var remaining := f.quantity;
    while 0.0 < remaining && queue != []
      invariant Closing(start, f, queue, remaining, parts, rows)
      decreases |queue|, remaining > 0.0
    {
      var lot := queue[0];
      if lot.remainingQuantity == 0.0 {
        ClosingStuck(start, f, queue, remaining, parts, rows);
        return Err(DIVISION_UNDEFINED);
      }
      var closing := if remaining <= lot.remainingQuantity then remaining else lot.remainingQuantity;
      ClosingStep(start, f, queue, remaining, parts, rows, closing);
      parts := parts + [Part(lot, closing)];
      rows := rows + [Allocate(lot, f, closing)];
      queue, remaining := AfterMatch(queue, closing), remaining - closing;
    }
    ClosingDone(start, f, queue, remaining, parts, rows);
    return Ok((queue, rows));
  }

  const DIVISION_UNDEFINED := "division undefined"

  /** One fill of any quantity, or the failure of its fee shares. */
  function TryBook(books: Books, f: Fill): Result<Step, string> {
    var queue := LotsOf(books, f.symbol);
    if f.opens then Ok(Step(books[f.symbol := queue + [OpenLot(f, f.quantity, f.fee)]], []))
    else if !NonEmpty(Parts(queue, f.quantity)) then Err(DIVISION_UNDEFINED)
    else Ok(Step(books[f.symbol := Reduce(queue, f.quantity)], Rows(f, Parts(queue, f.quantity))))
  }

  /** All fills in the given order, of any quantities. */
  ghost function TryBookAll(books: Books, fills: seq<Fill>): Result<Step, string> {
    if fills == [] then Ok(Step(books, []))
    else
      var before := TryBookAll(books, fills[..|fills| - 1]);
      if before.Err? then before
      else
        var last := TryBook(before.value.books, fills[|fills| - 1]);
        if last.Err? then last
        else Ok(Step(last.value.books, before.value.allocations + last.value.allocations))
  }

  ghost predicate NoEmptyLots(books: Books) { forall s :: s in books ==> NoneEmpty(books[s]) }

  lemma {:induction false} TryBookKeeps(books: Books, f: Fill)
    requires NoEmptyLots(books) && (f.opens ==> f.quantity != 0.0)
    ensures TryBook(books, f).Ok? && NoEmptyLots(TryBook(books, f).value.books)
  {
    if !f.opens { PartsOfNoneEmpty(LotsOf(books, f.symbol), f.quantity); }
  }

  /** One turn of the loop over the fills. */
  method BookFill(books: Books, f: Fill) returns (r: Result<Step, string>)
    ensures r == TryBook(books, f)
    ensures ValidBooks(books) && ValidFill(f) ==> r == Ok(Book(books, f)) && ValidBooks(r.value.books)
  {
    if ValidBooks(books) && ValidFill(f) { BookKeepsValid(books, f); }
    var queue := LotsOf(books, f.symbol);
    if f.opens {
      return Ok(Step(books[f.symbol := queue + [OpenLot(f, f.quantity, f.fee)]], []));
    }
    var closed := CloseAgainst(queue, f);
    if closed.Err? {
      return Err(closed.error);
    }
    return Ok(Step(books[f.symbol := closed.value.0], closed.value.1));
  }

  predicate ValidFills(fills: seq<Fill>) { forall i :: 0 <= i < |fills| ==> ValidFill(fills[i]) }

  predicate NoEmptyOpening(fills: seq<Fill>) {
    forall i :: 0 <= i < |fills| ==> fills[i].opens ==> fills[i].quantity != 0.0
  }

  /** The fills in the order they are booked: by time, then by identifier. */
  function InOrder(fills: seq<Fill>): seq<Fill> { Sort(FillOrder, fills) }

  lemma {:induction false} InOrderKeeps(fills: seq<Fill>)
    ensures ValidFills(fills) ==> ValidFills(InOrder(fills))
    ensures NoEmptyOpening(fills) ==> NoEmptyOpening(InOrder(fills))
  {
    SortKeepsElements(FillOrder, fills);
    var ordered := InOrder(fills);
    forall i | 0 <= i < |ordered| ensures ordered[i] in fills {
    }
  }

  /** By time, and at one time by identifier. */
  ghost predicate Chronological(fills: seq<Fill>) {
    forall i, j :: 0 <= i < j < |fills| ==>
      fills[i].at < fills[j].at || (fills[i].at == fills[j].at && !Less(fills[j].id, fills[i].id))
  }

  /** No two fills share time and identifier. */
  ghost predicate DistinctMoments(fills: seq<Fill>) {
    forall i, j :: 0 <= i < j < |fills| ==> fills[i].at != fills[j].at || fills[i].id != fills[j].id
  }

  lemma {:induction false} FillOrderOrders()
    ensures TotalPreorder(FillOrder)
  {
    forall a: Fill, b: Fill ensures FillOrder(a, b) || FillOrder(b, a) {
      LessTotal(a.id, b.id);
    }
    forall a: Fill, b: Fill, c: Fill | FillOrder(a, b) && FillOrder(b, c) ensures FillOrder(a, c) {
      LessTotal(a.id, b.id);
      LessTotal(b.id, c.id);
      if Less(a.id, b.id) && Less(b.id, c.id) { LessTransitive(a.id, b.id, c.id); }
      LessTotal(a.id, c.id);
    }
  }

  /** The fills are booked in chronological order, each once. */
  lemma {:induction false} InOrderExact(fills: seq<Fill>)
    ensures multiset(InOrder(fills)) == multiset(fills) && Chronological(InOrder(fills))
  {
    SortPermutes(FillOrder, fills);
    FillOrderOrders();
    SortSorts(FillOrder, fills);
    var s := InOrder(fills);
    forall i, j | 0 <= i < j < |s|
      ensures s[i].at < s[j].at || (s[i].at == s[j].at && !Less(s[j].id, s[i].id))
    {
      assert FillOrder(s[i], s[j]);
    }
  }

  /** Fills that are in chronological order are booked as they are given. */
  lemma {:induction false} ChronologicalAsGiven(fills: seq<Fill>)
    requires Chronological(fills)
    ensures InOrder(fills) == fills
  {
    FillOrderOrders();
    assert Sorted(FillOrder, fills);
    SortOfSorted(FillOrder, fills);
  }

  lemma {:induction false} StrictlyInOrder(fills: seq<Fill>, s: seq<Fill>)
    requires DistinctMoments(fills) && s == InOrder(fills)
    ensures Strict(FillOrder, s)
  {
    InOrderExact(fills);
    forall i, j | 0 <= i < j < |s| ensures FillOrder(s[i], s[j]) && !FillOrder(s[j], s[i]) {
      LessTotal(s[i].id, s[j].id);
      MomentsStayDistinct(fills, s, i, j);
    }
  }

  lemma {:induction false} MomentsStayDistinct(fills: seq<Fill>, s: seq<Fill>, i: nat, j: nat)
    requires DistinctMoments(fills) && multiset(s) == multiset(fills) && i < j < |s|
    ensures s[i].at != s[j].at || s[i].id != s[j].id
  {
    var x, y := s[i], s[j];
    assert x in multiset(s) && y in multiset(s);
    var m :| 0 <= m < |fills| && fills[m] == x;
    var n :| 0 <= n < |fills| && fills[n] == y;
    if m == n {
      TwiceCounted(s, i, j);
      CountedAtMostOnce(fills, x, m);
    }
  }

  lemma {:induction false} TwiceCounted(s: seq<Fill>, i: nat, j: nat)
    requires i < j < |s| && s[i] == s[j]
    ensures 2 <= multiset(s)[s[i]]
  {
    var x := s[i];
    assert s == s[..j] + s[j..];
    assert x in s[..j] && x in s[j..];
    assert multiset(s) == multiset(s[..j]) + multiset(s[j..]);
  }

  lemma {:induction false} CountedAtMostOnce(fills: seq<Fill>, x: Fill, m: nat)
    requires DistinctMoments(fills) && m < |fills| && fills[m] == x
    ensures multiset(fills)[x] == 1
  {
    assert fills == fills[..m] + [x] + fills[m + 1..];
    assert multiset(fills) == multiset(fills[..m]) + multiset{x} + multiset(fills[m + 1..]);
    assert x !in fills[..m] && x !in fills[m + 1..];
  }

  /** The report does not depend on the order in which the fills are given. */
  lemma {:induction false} ReportIgnoresOrder(fills: seq<Fill>, other: seq<Fill>)
    requires DistinctMoments(fills) && multiset(other) == multiset(fills)
    ensures InOrder(other) == InOrder(fills)
    ensures AllocationsOf(TryBookAll(map[], InOrder(other))) == AllocationsOf(TryBookAll(map[], InOrder(fills)))
  {
    forall i, j | 0 <= i < j < |other| ensures other[i].at != other[j].at || other[i].id != other[j].id {
      MomentsStayDistinct(fills, other, i, j);
    }
    InOrderExact(fills);
    InOrderExact(other);
    StrictlyInOrder(fills, InOrder(fills));
    StrictlyInOrder(other, InOrder(other));
    StrictUnique(FillOrder, InOrder(other), InOrder(fills));
  }

  lemma {:induction false} TryBookAllOfValid(books: Books, fills: seq<Fill>)
    requires ValidBooks(books) && ValidFills(fills)
    ensures TryBookAll(books, fills) == Ok(BookAll(books, fills))
  {
    if fills != [] { TryBookAllOfValid(books, fills[..|fills| - 1]); }
  }

  /** The loop raises only if some fill opens a lot without quantity. */
  lemma {:induction false} NeverRaises(fills: seq<Fill>)
    requires NoEmptyOpening(fills)
    ensures TryBookAll(map[], fills).Ok? && NoEmptyLots(TryBookAll(map[], fills).value.books)
  {
    if fills != [] {
      var n := |fills| - 1;
      NeverRaises(fills[..n]);
      TryBookKeeps(TryBookAll(map[], fills[..n]).value.books, fills[n]);
    }
  }

  /** A failure at any fill is the outcome of the whole loop. */
  lemma {:induction false} FailureStays(fills: seq<Fill>, i: nat)
    requires i <= |fills| && TryBookAll(map[], fills[..i]).Err?
    ensures TryBookAll(map[], fills) == TryBookAll(map[], fills[..i])
  {
    if i < |fills| {
      assert fills[..|fills| - 1][..i] == fills[..i];
      FailureStays(fills[..|fills| - 1], i);
    } else {
      assert fills[..i] == fills;
    }
  }

  function AllocationsOf(r: Result<Step, string>): Result<seq<Allocation>, string> {
    if r.Ok? then Ok(r.value.allocations) else Err(r.error)
  }

  /** The loop over the fills in their order. */
  method BookEach(ordered: seq<Fill>) returns (r: Result<seq<Allocation>, string>)
    ensures r == AllocationsOf(TryBookAll(map[], ordered))
  {
    var books: Books := map[];
    var allocations: seq<Allocation> := [];
    var i := 0;
    while i < |ordered|
      invariant 0 <= i <= |ordered|
      invariant TryBookAll(map[], ordered[..i]) == Ok(Step(books, allocations))
    {
      assert ordered[..i + 1][..i] == ordered[..i];
      var booked := BookFill(books, ordered[i]);
      if booked.Err? {
        FailureStays(ordered, i + 1);
        return Err(booked.error);
      }
      books, allocations, i := booked.value.books, allocations + booked.value.allocations, i + 1;
    }
    assert ordered[..i] == ordered;
    return Ok(allocations);
  }

  /** `_closed_allocations`: fills of any quantities in (time, id) order, matched per symbol. */
  method ClosedAllocations(fills: seq<Fill>) returns (r: Result<seq<Allocation>, string>)
    ensures multiset(InOrder(fills)) == multiset(fills) && Chronological(InOrder(fills))
    ensures r == AllocationsOf(TryBookAll(map[], InOrder(fills)))
    ensures ValidFills(fills) ==>
              ValidFills(InOrder(fills)) && r == Ok(BookAll(map[], InOrder(fills)).allocations)
    ensures NoEmptyOpening(fills) ==> r.Ok?
  {
    var ordered := InOrder(fills);
    r := BookEach(ordered);
    InOrderKeeps(fills);
    InOrderExact(fills);
    if ValidFills(fills) { TryBookAllOfValid(map[], ordered); }
    if NoEmptyOpening(fills) { NeverRaises(ordered); }
  }

  // ------------------------------------------------------------------ conservation of quantity

  function OpenedIn(symbol: string): Fill -> real {
    (f: Fill) => if f.opens && f.symbol == symbol then f.quantity else 0.0
  }

  function AllocatedIn(symbol: string): Allocation -> real {
    (a: Allocation) => if a.symbol == symbol then a.quantity else 0.0
  }

  function ClosingOf(p: Part): real { p.closing }

  lemma {:induction false} RowsQuantity(f: Fill, parts: seq<Part>, symbol: string)
    requires NonEmpty(parts) && (parts != [] ==> f.quantity != 0.0)
    ensures SumBy(AllocatedIn(symbol), Rows(f, parts))
            == if f.symbol == symbol then SumBy(ClosingOf, parts) else 0.0
  {
    if parts != [] {
      var n := |parts| - 1;
      RowsQuantity(f, parts[..n], symbol);
      SumConcat(AllocatedIn(symbol), Rows(f, parts[..n]), [Allocate(parts[n].lot, f, parts[n].closing)]);
      assert parts == parts[..n] + [parts[n]];
      SumConcat(ClosingOf, parts[..n], [parts[n]]);
    }
  }

  lemma {:induction false} PartsQuantity(queue: seq<OpenLot>, need: real)
    ensures SumBy(ClosingOf, Parts(queue, need)) == Remaining(queue) - Remaining(Reduce(queue, need))
  {
    if 0.0 < need && queue != [] && queue[0].remainingQuantity <= need {
      PartsQuantity(queue[1..], need - queue[0].remainingQuantity);
    }
  }

  lemma {:induction false} RemainingSnoc(queue: seq<OpenLot>, lot: OpenLot)
    ensures Remaining(queue + [lot]) == Remaining(queue) + lot.remainingQuantity
  {
    if queue == [] {
      assert queue + [lot] == [lot];
    } else {
      assert (queue + [lot])[1..] == queue[1..] + [lot];
      RemainingSnoc(queue[1..], lot);
    }
  }

  lemma {:induction false} StepQuantity(books: Books, f: Fill, symbol: string)
    requires TryBook(books, f).Ok?
    ensures var after := TryBook(books, f).value;
            Remaining(LotsOf(books, symbol)) + OpenedIn(symbol)(f)
            == SumBy(AllocatedIn(symbol), after.allocations) + Remaining(LotsOf(after.books, symbol))
  {
    var queue := LotsOf(books, f.symbol);
    if f.opens {
      RemainingSnoc(queue, OpenLot(f, f.quantity, f.fee));
    } else {
      RowsQuantity(f, Parts(queue, f.quantity), symbol);
      PartsQuantity(queue, f.quantity);
    }
  }

  /** Per symbol, opened quantity is allocated quantity plus remaining quantity over any history of fills of
      any quantities that does not raise, also when a reducing fill asks for more than is open. */
  lemma {:induction false} QuantityConserved(books: Books, fills: seq<Fill>, symbol: string)
    requires TryBookAll(books, fills).Ok?
    ensures var after := TryBookAll(books, fills).value;
            Remaining(LotsOf(books, symbol)) + SumBy(OpenedIn(symbol), fills)
            == SumBy(AllocatedIn(symbol), after.allocations) + Remaining(LotsOf(after.books, symbol))
  {
    if fills != [] {
      var n := |fills| - 1;
      var before := TryBookAll(books, fills[..n]).value;
      QuantityConserved(books, fills[..n], symbol);
      SumSnoc(OpenedIn(symbol), fills);
      StepQuantity(before.books, fills[n], symbol);
      SumConcat(AllocatedIn(symbol), before.allocations, TryBook(before.books, fills[n]).value.allocations);
    }
  }

  // ------------------------------------------------------------------ where every row comes from

  /** The row reports a part of the opening fill closed by the reducing fill: the opening's attributes and the
      closing's reason, the price difference, and the shares of both fees. */
  predicate Reports(a: Allocation, opening: Fill, f: Fill) {
    && opening.opens && !f.opens && opening.symbol == f.symbol && a.symbol == f.symbol && a.lotId == opening.id
    && a.direction == opening.direction && a.strategy == opening.strategy && a.regime == opening.regime
    && a.coalition == opening.coalition && a.entryHour == opening.entryHour
    && a.consensus == opening.consensus && a.agents == opening.agents
    && a.exitReason == (if f.exitReason == "" then "unclassified" else f.exitReason)
    && a.gross == (if opening.direction == "long" then 1.0 else -1.0) * (f.price - opening.price) * a.quantity
    && opening.quantity != 0.0 && f.quantity != 0.0
    && a.fees == opening.fee * (a.quantity / opening.quantity) + f.fee * (a.quantity / f.quantity)
    && a.net == a.gross - a.fees
  }

  /** The fee left on a lot is the same share of its fee as the quantity left is of its quantity. */
  predicate FeeInStep(l: OpenLot) {
    && l.remainingFee * l.fill.quantity == l.fill.fee * l.remainingQuantity
    && (l.remainingQuantity != 0.0 ==> l.fill.quantity != 0.0)
  }

  lemma {:induction false} ShareOfRemaining(fee: real, left: real, quantity: real, remaining: real, m: real)
    requires quantity != 0.0 && remaining != 0.0 && left * quantity == fee * remaining
    ensures left * m / remaining == fee * (m / quantity)
  {
    var share := m / quantity;
    assert m == share * quantity;
    calc {
      left * m;
      left * (share * quantity);
      (left * quantity) * share;
      (fee * remaining) * share;
      (fee * share) * remaining;
    }
  }

  lemma {:induction false} ShrunkInStep(l: OpenLot, m: real)
    requires FeeInStep(l) && l.remainingQuantity != 0.0
    ensures OpeningFee(l, m) == l.fill.fee * (m / l.fill.quantity) && FeeInStep(Shrunk(l, m))
  {
    ShareOfRemaining(l.fill.fee, l.remainingFee, l.fill.quantity, l.remainingQuantity, m);
    var fee, quantity := OpeningFee(l, m), l.fill.quantity;
    ShareTimes(l.fill.fee, m, quantity);
    assert (l.remainingFee - fee) * quantity == l.remainingFee * quantity - fee * quantity;
    assert l.fill.fee * (l.remainingQuantity - m) == l.fill.fee * l.remainingQuantity - l.fill.fee * m;
  }

  lemma {:induction false} ShareTimes(fee: real, m: real, quantity: real)
    requires quantity != 0.0
    ensures fee * (m / quantity) * quantity == fee * m
  {
    assert m / quantity * quantity == m;
    assert fee * (m / quantity) * quantity == fee * (m / quantity * quantity);
  }

  /** The lot was opened by one of the fills, for this symbol, and its fee is in step. */
  predicate Sourced(fills: seq<Fill>, symbol: string, l: OpenLot) {
    l.fill in fills && l.fill.opens && l.fill.symbol == symbol && FeeInStep(l)
  }

  predicate QueueSourced(fills: seq<Fill>, symbol: string, queue: seq<OpenLot>) {
    forall i :: 0 <= i < |queue| ==> Sourced(fills, symbol, queue[i])
  }

  lemma {:induction false} ReduceSourced(fills: seq<Fill>, symbol: string, queue: seq<OpenLot>, need: real)
    requires QueueSourced(fills, symbol, queue)
    ensures QueueSourced(fills, symbol, Reduce(queue, need))
    ensures forall i :: 0 <= i < |Parts(queue, need)| ==> Sourced(fills, symbol, Parts(queue, need)[i].lot)
  {
    if 0.0 < need && queue != [] {
      assert Sourced(fills, symbol, queue[0]);
      if queue[0].remainingQuantity <= need {
        ReduceSourced(fills, symbol, queue[1..], need - queue[0].remainingQuantity);
      } else {
        ShrunkInStep(queue[0], need);
      }
    }
  }

  lemma {:induction false} AllocateReports(l: OpenLot, f: Fill, closing: real)
    requires FeeInStep(l) && l.remainingQuantity != 0.0 && f.quantity != 0.0
    requires l.fill.opens && !f.opens && l.fill.symbol == f.symbol
    ensures Reports(Allocate(l, f, closing), l.fill, f)
  {
    ShrunkInStep(l, closing);
    assert f.fee * closing / f.quantity == f.fee * (closing / f.quantity);
  }

  lemma {:induction false} RowsReport(fills: seq<Fill>, f: Fill, parts: seq<Part>, a: Allocation)
    requires NonEmpty(parts) && (parts != [] ==> f.quantity != 0.0) && !f.opens && a in Rows(f, parts)
    requires forall i :: 0 <= i < |parts| ==> Sourced(fills, f.symbol, parts[i].lot)
    ensures exists opening :: opening in fills && Reports(a, opening, f)
  {
    var n := |parts| - 1;
    if a in Rows(f, parts[..n]) {
      RowsReport(fills, f, parts[..n], a);
    } else {
      AllocateReports(parts[n].lot, f, parts[n].closing);
    }
  }

  lemma {:induction false} SourcedMore(fills: seq<Fill>, n: nat, symbol: string, queue: seq<OpenLot>)
    requires n <= |fills| && QueueSourced(fills[..n], symbol, queue)
    ensures QueueSourced(fills, symbol, queue)
  {
    forall i | 0 <= i < |queue| ensures Sourced(fills, symbol, queue[i]) {
      assert Sourced(fills[..n], symbol, queue[i]);
    }
  }

  lemma {:induction false} BookSourced(fills: seq<Fill>, books: Books, f: Fill, symbol: string)
    requires TryBook(books, f).Ok? && f in fills && QueueSourced(fills, symbol, LotsOf(books, symbol))
    ensures QueueSourced(fills, symbol, LotsOf(TryBook(books, f).value.books, symbol))
  {
    if f.symbol == symbol && !f.opens { ReduceSourced(fills, symbol, LotsOf(books, symbol), f.quantity); }
    if f.symbol == symbol && f.opens { assert Sourced(fills, symbol, OpenLot(f, f.quantity, f.fee)); }
  }

  lemma {:induction false} LotsSourced(fills: seq<Fill>, symbol: string)
    requires TryBookAll(map[], fills).Ok?
    ensures QueueSourced(fills, symbol, LotsOf(TryBookAll(map[], fills).value.books, symbol))
  {
    if fills != [] {
      var n := |fills| - 1;
      var before := TryBookAll(map[], fills[..n]).value.books;
      LotsSourced(fills[..n], symbol);
      SourcedMore(fills, n, symbol, LotsOf(before, symbol));
      BookSourced(fills, before, fills[n], symbol);
    }
  }

  /** Every reported row explains itself: it reports a part of an opening fill closed by a later reducing fill of
      the same symbol. */
  lemma {:induction false} RowsExplained(fills: seq<Fill>, a: Allocation)
    requires TryBookAll(map[], fills).Ok? && a in TryBookAll(map[], fills).value.allocations
    ensures exists i, j :: 0 <= i < j < |fills| && Reports(a, fills[i], fills[j])
  {
    var n := |fills| - 1;
    var before, f := TryBookAll(map[], fills[..n]).value, fills[n];
    if a in before.allocations {
      RowsExplained(fills[..n], a);
      var i, j :| 0 <= i < j < n && Reports(a, fills[..n][i], fills[..n][j]);
      assert Reports(a, fills[i], fills[j]);
    } else {
      var queue := LotsOf(before.books, f.symbol);
      LotsSourced(fills[..n], f.symbol);
      ReduceSourced(fills[..n], f.symbol, queue, f.quantity);
      RowsReport(fills[..n], f, Parts(queue, f.quantity), a);
      var opening :| opening in fills[..n] && Reports(a, opening, f);
      var i :| 0 <= i < n && fills[..n][i] == opening;
      assert Reports(a, fills[i], fills[n]);
    }
  }
}
