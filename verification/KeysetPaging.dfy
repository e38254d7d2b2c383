/** Keyset pagination and the export loops that follow it (`maais/api/queries.py`,
    `maais/api/cloud_queries.py`, `maais/api/app.py`), over the rows a query's joins produce. */
module KeysetPaging {
  import opened Results
  import Sorting

  /** A row's place in the listing: its time and its identifier.  Artifact pages, which go by sequence
      alone, use one constant identifier. */
  datatype Key = Key(at: int, id: int)

  datatype Row<T> = Row(key: Key, body: T)

  predicate Less(a: Key, b: Key) { a.at < b.at || (a.at == b.at && a.id < b.id) }

  /** The listing order: newest first. */
  predicate Newer<T>(a: Row<T>, b: Row<T>) { !Less(a.key, b.key) }

  predicate Precedes<T>(cursor: Option<Key>, r: Row<T>) { cursor.Some? ==> Less(r.key, cursor.value) }

  function BeforeCursor<T>(cursor: Option<Key>): Row<T> -> bool { r => Precedes(cursor, r) }

  /** A query's conditions together with the cursor's. */
  function Both<T>(keep: Row<T> -> bool, cursor: Option<Key>): Row<T> -> bool {
    r => keep(r) && Precedes(cursor, r)
  }

  datatype Page<T> = Page(items: seq<Row<T>>, hasMore: bool, next: Option<Key>)

  function Take<T>(s: seq<T>, n: nat): seq<T> { if n < |s| then s[..n] else s }

  /** The page cut from rows already limited to one more than the page size. */
  function Cut<T>(rows: seq<Row<T>>, limit: nat): Page<T> {
    var items := Take(rows, limit);
    var more := limit < |rows|;
    Page(items, more, if more && items != [] then Some(items[|items| - 1].key) else None)
  }

  /** The database's way: filter by conditions and cursor, order, limit. */
  function QueryPage<T(!new)>(table: seq<Row<T>>, keep: Row<T> -> bool, cursor: Option<Key>, limit: nat): Page<T> {
    Cut(Take(Sorting.Sort(Newer, Sorting.Filter(Both(keep, cursor), table)), limit + 1), limit)
  }

  /** The in-memory way: order everything, drop what the cursor has passed, slice. */
  function MemoryPage<T(!new)>(rows: seq<Row<T>>, cursor: Option<Key>, limit: nat): Page<T> {
    Cut(Take(Sorting.Filter(BeforeCursor(cursor), Sorting.Sort(Newer, rows)), limit + 1), limit)
  }

  /** The whole listing, unpaged. */
  function Listing<T(!new)>(table: seq<Row<T>>, keep: Row<T> -> bool): seq<Row<T>> {
    Sorting.Sort(Newer, Sorting.Filter(keep, table))
  }

  ghost predicate UniqueKeys<T>(rows: seq<Row<T>>) {
    forall i, j :: 0 <= i < j < |rows| ==> rows[i].key != rows[j].key
  }

  // ------------------------------------------------------------------ the order

  ghost predicate Descending<T>(s: seq<Row<T>>) {
    forall i, j :: 0 <= i < j < |s| ==> Less(s[j].key, s[i].key)
  }

  lemma {:induction false} NewerOrders<T(!new)>()
    ensures Sorting.TotalPreorder<Row<T>>(Newer)
  {
  }

  function KeysOf<T>(s: seq<Row<T>>): multiset<Key> {
    if s == [] then multiset{} else multiset{s[0].key} + KeysOf(s[1..])
  }

  lemma {:induction false} KeysContain<T>(s: seq<Row<T>>, i: nat)
    requires i < |s|
    ensures s[i].key in KeysOf(s)
  {
    if 0 < i { KeysContain(s[1..], i - 1); }
  }

  lemma {:induction false} KeyFound<T>(s: seq<Row<T>>, k: Key)
    requires k in KeysOf(s)
    ensures exists i :: 0 <= i < |s| && s[i].key == k
  {
    if s[0].key != k {
      KeyFound(s[1..], k);
      var i :| 0 <= i < |s[1..]| && s[1..][i].key == k;
      assert s[i + 1].key == k;
    } else {
      assert s[0].key == k;
    }
  }

  ghost predicate Single<T>(s: seq<Row<T>>) { forall k :: KeysOf(s)[k] <= 1 }

  lemma {:induction false} UniqueSingle<T>(s: seq<Row<T>>)
    requires UniqueKeys(s)
    ensures Single(s)
  {
    if s != [] {
      UniqueSingle(s[1..]);
      forall k ensures KeysOf(s)[k] <= 1 {
        if k == s[0].key && k in KeysOf(s[1..]) {
          KeyFound(s[1..], k);
        }
      }
    }
  }

  lemma {:induction false} SingleUnique<T>(s: seq<Row<T>>)
    requires Single(s)
    ensures UniqueKeys(s)
  {
    if s != [] {
      assert Single(s[1..]) by {
        forall k ensures KeysOf(s[1..])[k] <= 1 { assert KeysOf(s)[k] <= 1; }
      }
      SingleUnique(s[1..]);
      forall i, j | 0 <= i < j < |s| ensures s[i].key != s[j].key {
        KeysContain(s[1..], j - 1);
        assert KeysOf(s)[s[0].key] <= 1;
        assert s[j] == s[1..][j - 1];
        if 0 < i { assert s[i] == s[1..][i - 1]; }
      }
    }
  }

  lemma {:induction false} InsertKeys<T>(x: Row<T>, s: seq<Row<T>>)
    ensures KeysOf(Sorting.Insert(Newer, x, s)) == multiset{x.key} + KeysOf(s)
  {
    if s != [] && !Newer(x, s[0]) {
      InsertKeys(x, s[1..]);
    }
  }

  lemma {:induction false} SortKeys<T>(s: seq<Row<T>>)
    ensures KeysOf(Sorting.Sort(Newer, s)) == KeysOf(s)
  {
    if s != [] {
      SortKeys(s[1..]);
      InsertKeys(s[0], Sorting.Sort(Newer, s[1..]));
    }
  }

  lemma {:induction false} FilterUnique<T(!new)>(p: Row<T> -> bool, s: seq<Row<T>>)
    requires UniqueKeys(s)
    ensures UniqueKeys(Sorting.Filter(p, s))
  {
    if s != [] {
      var rest := s[1..];
      assert forall i :: 0 <= i < |rest| ==> rest[i] == s[i + 1];
      FilterUnique(p, rest);
      var f := Sorting.Filter(p, rest);
      forall i | 0 <= i < |f| ensures f[i].key != s[0].key {
        assert f[i] in rest;
        var j :| 0 <= j < |rest| && rest[j] == f[i];
      }
    }
  }

  /** A listing runs strictly downwards. */
  lemma {:induction false} ListingDescends<T(!new)>(table: seq<Row<T>>, keep: Row<T> -> bool)
    requires UniqueKeys(table)
    ensures Descending(Listing(table, keep))
  {
    var kept := Sorting.Filter(keep, table);
    var s := Listing(table, keep);
    FilterUnique(keep, table);
    UniqueSingle(kept);
    SortKeys(kept);
    SingleUnique(s);
    NewerOrders<T>();
    Sorting.SortSorts(Newer, kept);
    forall i, j | 0 <= i < j < |s| ensures Less(s[j].key, s[i].key) {
      assert Newer(s[i], s[j]);
    }
  }

  /** And holds each matching row, as often as the table does, and no other. */
  lemma {:induction false} ListingComplete<T(!new)>(table: seq<Row<T>>, keep: Row<T> -> bool)
    ensures multiset(Listing(table, keep)) == multiset(Sorting.Filter(keep, table))
  {
    Sorting.SortPermutes(Newer, Sorting.Filter(keep, table));
  }

  // ------------------------------------------------------------------ one page

  lemma {:induction false} FilterTwice<T(!new)>(keep: Row<T> -> bool, cursor: Option<Key>, s: seq<Row<T>>)
    ensures Sorting.Filter(Both(keep, cursor), s) == Sorting.Filter(BeforeCursor(cursor), Sorting.Filter(keep, s))
  {
    if s != [] {
      FilterTwice(keep, cursor, s[1..]);
    }
  }

  /** Filtering by the cursor in the database or after ordering gives the same page. */
  lemma {:induction false} QueryIsMemory<T(!new)>(
      table: seq<Row<T>>, keep: Row<T> -> bool, cursor: Option<Key>, limit: nat)
    ensures QueryPage(table, keep, cursor, limit) == MemoryPage(Sorting.Filter(keep, table), cursor, limit)
  {
    FilterTwice(keep, cursor, table);
    NewerOrders<T>();
    Sorting.FilterSort(Newer, BeforeCursor(cursor), Sorting.Filter(keep, table));
  }

  lemma {:induction false} FilterNone<T(!new)>(p: T -> bool, s: seq<T>)
    requires forall i :: 0 <= i < |s| ==> !p(s[i])
    ensures Sorting.Filter(p, s) == []
  {
    if s != [] { FilterNone(p, s[1..]); }
  }

  /** What is left of a listing after its first `k` rows. */
  lemma {:induction false} RestOfListing<T(!new)>(s: seq<Row<T>>, cursor: Option<Key>, k: nat)
    requires Descending(s) && k <= |s|
    requires cursor == if k == 0 then None else Some(s[k - 1].key)
    ensures Sorting.Filter(BeforeCursor(cursor), s) == s[k..]
  {
    var p := BeforeCursor<T>(cursor);
    var seen, left := s[..k], s[k..];
    assert s == seen + left;
    forall i | 0 <= i < |seen| ensures !p(seen[i]) {
      assert i < k - 1 ==> Less(s[k - 1].key, s[i].key);
    }
    forall i | 0 <= i < |left| ensures p(left[i]) {
      assert left[i] == s[k + i];
      assert 0 < k ==> Less(s[k + i].key, s[k - 1].key);
    }
    Sorting.FilterConcat(p, seen, left);
    FilterNone(p, seen);
    Sorting.FilterAll(p, left);
  }

  /** The page at the cursor of the `k`-th row holds the next rows of the listing, and its own cursor is
      that of the last of them. */
  lemma {:induction false} PageOfListing<T(!new)>(
      table: seq<Row<T>>, keep: Row<T> -> bool, cursor: Option<Key>, limit: nat, k: nat)
    requires UniqueKeys(table) && 1 <= limit && k <= |Listing(table, keep)|
    requires cursor == if k == 0 then None else Some(Listing(table, keep)[k - 1].key)
    ensures var page, s := QueryPage(table, keep, cursor, limit), Listing(table, keep);
            && page.items == Take(s[k..], limit) && (page.hasMore <==> k + limit < |s|)
            && page.next == if k + limit < |s| then Some(s[k + limit - 1].key) else None
  {
    QueryIsMemory(table, keep, cursor, limit);
    ListingDescends(table, keep);
    RestOfListing(Listing(table, keep), cursor, k);
    CutOfRest(Listing(table, keep), limit, k);
  }

  lemma {:induction false} CutOfRest<T>(s: seq<Row<T>>, limit: nat, k: nat)
    requires 1 <= limit && k <= |s|
    ensures var page := Cut(Take(s[k..], limit + 1), limit);
            && page.items == Take(s[k..], limit) && (page.hasMore <==> k + limit < |s|)
            && page.next == if k + limit < |s| then Some(s[k + limit - 1].key) else None
  {
    var rest := s[k..];
    if limit < |rest| {
      assert rest[..limit + 1][..limit] == rest[..limit];
      assert rest[..limit][limit - 1] == s[k + limit - 1];
    }
  }

  /** The export loop: following next cursors terminates for every page size and yields the listing. */
  method Export<T(!new)>(table: seq<Row<T>>, keep: Row<T> -> bool, limit: nat) returns (rows: seq<Row<T>>)
    requires UniqueKeys(table) && 1 <= limit
    ensures rows == Listing(table, keep)
  {
    rows := [];
    var cursor := None;
    ghost var s := Listing(table, keep);
    while true
      invariant |rows| <= |s| && rows == s[..|rows|]
      invariant cursor == if rows == [] then None else Some(s[|rows| - 1].key)
      decreases |s| - |rows|
    {
      var page := QueryPage(table, keep, cursor, limit);
      PageOfListing(table, keep, cursor, limit, |rows|);
      Continues(s, |rows|, limit);
      rows := rows + page.items;
      if !page.hasMore {
        break;
      }
      cursor := page.next;
    }
  }

  lemma {:induction false} Continues<T>(s: seq<T>, k: nat, limit: nat)
    requires k <= |s|
    ensures s[..k] + Take(s[k..], limit) == if k + limit < |s| then s[..k + limit] else s
  {
  }

  // ------------------------------------------------------------------ parameters

  datatype Query = Query(
    fromAt: Option<int>, toAt: Option<int>, outcome: Option<string>,
    beforeAt: Option<int>, beforeId: Option<int>, limit: int)

  predicate Within(q: Query, k: Key) {
    (q.fromAt.Some? ==> q.fromAt.value <= k.at) && (q.toAt.Some? ==> k.at <= q.toAt.value)
  }

  predicate Acceptable(q: Query, outcomes: seq<string>) {
    && 1 <= q.limit <= 500
    && (q.fromAt.Some? && q.toAt.Some? ==> q.fromAt.value <= q.toAt.value)
    && (q.outcome.Some? ==> q.outcome.value in outcomes)
    && (q.beforeAt.Some? <==> q.beforeId.Some?)
  }

  function CursorOf(q: Query): Option<Key> {
    if q.beforeAt.Some? && q.beforeId.Some? then Some(Key(q.beforeAt.value, q.beforeId.value)) else None
  }

  /** The conditions of a query: its own time range and outcome, and whatever else it filters by. */
  function Conditions<T>(q: Query, labelled: (string, T) -> bool, other: Row<T> -> bool): Row<T> -> bool {
    (r: Row<T>) => Within(q, r.key) && (q.outcome.Some? ==> labelled(q.outcome.value, r.body)) && other(r)
  }

  /** What is left of a listing at a cursor. */
  function After<T(!new)>(listing: seq<Row<T>>, cursor: Option<Key>): seq<Row<T>> {
    Sorting.Filter(BeforeCursor(cursor), listing)
  }

  /** A page is the first rows of what is left of the listing at its cursor. */
  lemma {:induction false} PageAtCursor<T(!new)>(
      table: seq<Row<T>>, keep: Row<T> -> bool, cursor: Option<Key>, limit: nat)
    ensures var page, left := QueryPage(table, keep, cursor, limit), After(Listing(table, keep), cursor);
            && page.items == Take(left, limit) && (page.hasMore <==> limit < |left|)
            && page.next == if 0 < limit < |left| then Some(left[limit - 1].key) else None
  {
    QueryIsMemory(table, keep, cursor, limit);
  }

  /** The row is one the query asks for: not before its start nor after its end, before its cursor by time and
      at the cursor's time by identifier, with its outcome, and meeting its other conditions. */
  predicate Asked<T>(q: Query, labelled: (string, T) -> bool, other: Row<T> -> bool, r: Row<T>) {
    && (q.fromAt.Some? ==> q.fromAt.value <= r.key.at) && (q.toAt.Some? ==> r.key.at <= q.toAt.value)
    && (q.beforeAt.Some? && q.beforeId.Some? ==>
          r.key.at < q.beforeAt.value || (r.key.at == q.beforeAt.value && r.key.id < q.beforeId.value))
    && (q.outcome.Some? ==> labelled(q.outcome.value, r.body)) && other(r)
  }

  /** The page holds asked-for rows of the table, as many as the limit allows, newest first; whatever else is
      asked for is no newer than its last row and means that there are more. */
  ghost predicate Answers<T(!new)>(
      table: seq<Row<T>>, q: Query, labelled: (string, T) -> bool, other: Row<T> -> bool, page: Page<T>)
  {
    && |page.items| <= q.limit && (page.hasMore ==> |page.items| == q.limit)
    && (forall r :: r in page.items ==> r in table && Asked(q, labelled, other, r))
    && (forall i, j :: 0 <= i < j < |page.items| ==>
          var a, b := page.items[i].key, page.items[j].key; b.at < a.at || (b.at == a.at && b.id <= a.id))
    && (forall r :: r in table && Asked(q, labelled, other, r) && r !in page.items ==>
          && page.hasMore && page.items != []
          && var last := page.items[|page.items| - 1].key;
             r.key.at < last.at || (r.key.at == last.at && r.key.id <= last.id))
    && (page.hasMore ==> page.items != [] && page.next == Some(page.items[|page.items| - 1].key))
    && (!page.hasMore ==> page.next.None?)
  }

  lemma {:induction false} LeftIsAsked<T(!new)>(
      table: seq<Row<T>>, q: Query, labelled: (string, T) -> bool, other: Row<T> -> bool, r: Row<T>)
    ensures r in After(Listing(table, Conditions(q, labelled, other)), CursorOf(q)) <==>
            r in table && Asked(q, labelled, other, r)
  {
    var keep := Conditions(q, labelled, other);
    Sorting.SortKeepsElements(Newer, Sorting.Filter(keep, table));
  }

  lemma {:induction false} LeftDescends<T(!new)>(table: seq<Row<T>>, keep: Row<T> -> bool, cursor: Option<Key>)
    ensures Sorting.Sorted(Newer, After(Listing(table, keep), cursor))
  {
    NewerOrders<T>();
    var kept := Sorting.Filter(keep, table);
    Sorting.FilterSort(Newer, BeforeCursor(cursor), kept);
    Sorting.SortSorts(Newer, Sorting.Filter(BeforeCursor(cursor), kept));
  }

  lemma {:induction false} PageAnswers<T(!new)>(
      table: seq<Row<T>>, q: Query, labelled: (string, T) -> bool, other: Row<T> -> bool, page: Page<T>)
    requires 1 <= q.limit && page == QueryPage(table, Conditions(q, labelled, other), CursorOf(q), q.limit)
    ensures Answers(table, q, labelled, other, page)
  {
    var keep, cursor := Conditions(q, labelled, other), CursorOf(q);
    var left := After(Listing(table, keep), cursor);
    PageAtCursor(table, keep, cursor, q.limit);
    LeftDescends(table, keep, cursor);
    forall r: Row<T> ensures r in left <==> r in table && Asked(q, labelled, other, r) {
      LeftIsAsked(table, q, labelled, other, r);
    }
    FrontAnswers(left, page.items, q.limit);
  }

  /** The front of a descending sequence: what is not in it is no newer than its last row. */
  lemma {:induction false} FrontAnswers<T(!new)>(left: seq<Row<T>>, items: seq<Row<T>>, limit: nat)
    requires 1 <= limit && items == Take(left, limit) && Sorting.Sorted(Newer, left)
    ensures forall r :: r in items ==> r in left
    ensures forall i, j :: 0 <= i < j < |items| ==> Newer(items[i], items[j])
    ensures forall r :: r in left && r !in items ==> limit < |left| && Newer(items[|items| - 1], r)
  {
    assert forall k :: 0 <= k < |items| ==> items[k] == left[k];
    forall r | r in left && r !in items ensures limit < |left| && Newer(items[|items| - 1], r) {
      var k :| 0 <= k < |left| && left[k] == r;
    }
  }

  /** `list_decisions` and `list_trades`, in the order of their checks: the first rows of the listing that
      lie before the cursor, whether there are more, and the cursor at which they continue. */
  method List<T(!new)>(
      table: seq<Row<T>>, q: Query, outcomes: seq<string>, labelled: (string, T) -> bool, other: Row<T> -> bool)
    returns (r: Result<Page<T>, string>)
    ensures r.Ok? <==> Acceptable(q, outcomes)
    ensures r.Ok? ==>
              var left := After(Listing(table, Conditions(q, labelled, other)), CursorOf(q));
              && r.value.items == Take(left, q.limit) && (r.value.hasMore <==> q.limit < |left|)
              && r.value.next == if q.limit < |left| then Some(left[q.limit - 1].key) else None
    ensures r.Ok? ==> Answers(table, q, labelled, other, r.value)
  {
    if !(1 <= q.limit <= 500) { return Err("limit must be between 1 and 500"); }
    if q.fromAt.Some? && q.toAt.Some? && q.toAt.value < q.fromAt.value {
      return Err("from_at must not be after to_at");
    }
    if q.outcome.Some? && q.outcome.value !in outcomes { return Err("outcome must be a known outcome"); }
    if q.beforeAt.Some? != q.beforeId.Some? { return Err("cursor requires both before_at and before_id"); }
    PageAtCursor(table, Conditions(q, labelled, other), CursorOf(q), q.limit);
    PageAnswers(table, q, labelled, other, QueryPage(table, Conditions(q, labelled, other), CursorOf(q), q.limit));
    return Ok(QueryPage(table, Conditions(q, labelled, other), CursorOf(q), q.limit));
  }

  // ------------------------------------------------------------------ outcomes

  datatype Decision = Decision(disposition: string, hasFill: bool, counterfactual: Option<string>)

  datatype Trade = Trade(status: string, fills: nat, counterfactual: Option<string>)

  const DECISION_OUTCOMES := ["neutral", "rejected", "counterfactual", "approved", "filled"]

  const TRADE_OUTCOMES := ["rejected", "counterfactual", "approved", "filled", "expired"]

  function DecisionOutcome(d: Decision): string {
    if d.hasFill then "filled"
    else if d.counterfactual.Some? then "counterfactual"
    else if d.disposition == "approved" then "approved"
    else if d.disposition == "rejected" then "rejected"
    else "neutral"
  }

  function TradeOutcome(t: Trade): string {
    if 0 < t.fills then "filled" else if t.counterfactual.Some? then "counterfactual" else t.status
  }

  /** The condition a decision query adds for an outcome. */
  predicate DecisionFilter(outcome: string, d: Decision) {
    if outcome == "filled" then d.hasFill
    else if outcome == "counterfactual" then !d.hasFill && d.counterfactual.Some?
    else if outcome in {"approved", "rejected", "neutral"}
    then !d.hasFill && d.counterfactual.None? && d.disposition == outcome
    else true
  }

  predicate TradeFilter(outcome: string, t: Trade) {
    if outcome == "filled" then 0 < t.fills
    else if outcome == "counterfactual" then t.fills == 0 && t.counterfactual.Some?
    else if outcome in {"approved", "rejected", "expired"}
    then t.fills == 0 && t.counterfactual.None? && t.status == outcome
    else true
  }

  /** The outcome filters select a decision under exactly its own label if and only if it was filled, has
      a counterfactual, or has one of the three dispositions its table allows. */
  lemma {:induction false} DecisionFilterExactIff(d: Decision)
    ensures (forall o :: o in DECISION_OUTCOMES ==> (DecisionFilter(o, d) <==> DecisionOutcome(d) == o)) <==>
            d.hasFill || d.counterfactual.Some? || d.disposition in {"neutral", "rejected", "approved"}
  {
    if !d.hasFill && d.counterfactual.None? && d.disposition !in {"neutral", "rejected", "approved"} {
      assert "neutral" in DECISION_OUTCOMES && DecisionOutcome(d) == "neutral" && !DecisionFilter("neutral", d);
    } else {
      forall o | o in DECISION_OUTCOMES ensures DecisionFilter(o, d) <==> DecisionOutcome(d) == o {
        Spelling(o);
      }
    }
  }

  lemma {:induction false} Spelling(o: string)
    ensures o == "filled" ==> o[0] == 'f'
    ensures o == "counterfactual" ==> o[0] == 'c'
    ensures o == "approved" ==> o[0] == 'a'
    ensures o == "rejected" ==> o[0] == 'r'
    ensures o == "neutral" ==> o[0] == 'n'
    ensures o == "expired" ==> o[0] == 'e'
  {
  }

  /** For trades the same holds unless a proposal without fill or counterfactual carries the status
      "filled" or "counterfactual", which its table does not allow. */
  lemma {:induction false} TradeFilterExactIff(t: Trade)
    ensures (forall o :: o in TRADE_OUTCOMES ==> (TradeFilter(o, t) <==> TradeOutcome(t) == o)) <==>
            0 < t.fills || t.counterfactual.Some? || t.status !in {"filled", "counterfactual"}
  {
    if t.fills == 0 && t.counterfactual.None? && t.status in {"filled", "counterfactual"} {
      assert t.status in TRADE_OUTCOMES && TradeOutcome(t) == t.status && !TradeFilter(t.status, t);
    } else {
      forall o | o in TRADE_OUTCOMES ensures TradeFilter(o, t) <==> TradeOutcome(t) == o {
        Spelling(o);
      }
    }
  }

  /** Rows as the tables' own constraints allow them. */
  predicate ValidDecision(d: Decision) { d.disposition in {"neutral", "rejected", "approved"} }

  predicate ValidTrade(t: Trade) { t.status in {"rejected", "approved", "expired"} }

  function Labelled<T>(labelled: (string, T) -> bool, outcome: string, keep: Row<T> -> bool): Row<T> -> bool {
    (r: Row<T>) => keep(r) && labelled(outcome, r.body)
  }

  /** How many rows the listings of the outcomes hold together. */
  function CountAll<T(!new)>(
      table: seq<Row<T>>, keep: Row<T> -> bool, labelled: (string, T) -> bool, outcomes: seq<string>): nat
  {
    if outcomes == [] then 0
    else |Sorting.Filter(Labelled(labelled, outcomes[0], keep), table)| + CountAll(table, keep, labelled, outcomes[1..])
  }

  /** How many of the outcomes a body carries. */
  function Labels<T>(labelled: (string, T) -> bool, body: T, outcomes: seq<string>): nat {
    if outcomes == [] then 0
    else (if labelled(outcomes[0], body) then 1 else 0) + Labels(labelled, body, outcomes[1..])
  }

  lemma {:induction false} CountCons<T(!new)>(
      table: seq<Row<T>>, keep: Row<T> -> bool, labelled: (string, T) -> bool, outcomes: seq<string>)
    requires table != []
    ensures CountAll(table, keep, labelled, outcomes)
            == CountAll(table[1..], keep, labelled, outcomes)
               + if keep(table[0]) then Labels(labelled, table[0].body, outcomes) else 0
  {
    if outcomes != [] { CountCons(table, keep, labelled, outcomes[1..]); }
  }

  lemma {:induction false} CountNone<T(!new)>(
      keep: Row<T> -> bool, labelled: (string, T) -> bool, outcomes: seq<string>)
    ensures CountAll([], keep, labelled, outcomes) == 0
  {
    if outcomes != [] { CountNone(keep, labelled, outcomes[1..]); }
  }

  /** Where every body carries exactly one of the outcomes, their listings partition the listing. */
  lemma {:induction false} LabelsPartition<T(!new)>(
      table: seq<Row<T>>, keep: Row<T> -> bool, labelled: (string, T) -> bool, outcomes: seq<string>)
    requires forall i :: 0 <= i < |table| ==> Labels(labelled, table[i].body, outcomes) == 1
    ensures CountAll(table, keep, labelled, outcomes) == |Sorting.Filter(keep, table)|
  {
    if table == [] {
      CountNone(keep, labelled, outcomes);
    } else {
      CountCons(table, keep, labelled, outcomes);
      LabelsPartition(table[1..], keep, labelled, outcomes);
    }
  }

  lemma {:induction false} LabelsOfFive<T(!new)>(
      labelled: (string, T) -> bool, body: T, a: string, b: string, c: string, d: string, e: string)
    ensures Labels(labelled, body, [a, b, c, d, e])
            == (if labelled(a, body) then 1 else 0) + (if labelled(b, body) then 1 else 0)
               + (if labelled(c, body) then 1 else 0) + (if labelled(d, body) then 1 else 0)
               + (if labelled(e, body) then 1 else 0)
  {
    LabelsCons(labelled, body, e, []);
    LabelsCons(labelled, body, d, [e]);
    LabelsCons(labelled, body, c, [d, e]);
    LabelsCons(labelled, body, b, [c, d, e]);
    LabelsCons(labelled, body, a, [b, c, d, e]);
    assert [e] + [] == [e] && [d] + [e] == [d, e] && [c] + [d, e] == [c, d, e] && [b] + [c, d, e] == [b, c, d, e];
    assert [a] + [b, c, d, e] == [a, b, c, d, e];
  }

  lemma {:induction false} LabelsCons<T(!new)>(
      labelled: (string, T) -> bool, body: T, outcome: string, outcomes: seq<string>)
    ensures Labels(labelled, body, [outcome] + outcomes)
            == (if labelled(outcome, body) then 1 else 0) + Labels(labelled, body, outcomes)
  {
    assert ([outcome] + outcomes)[1..] == outcomes;
  }

  lemma {:induction false} DecisionLabelled(d: Decision)
    requires ValidDecision(d)
    ensures Labels(DecisionFilter, d, DECISION_OUTCOMES) == 1
  {
    LabelsOfFive(DecisionFilter, d, "neutral", "rejected", "counterfactual", "approved", "filled");
  }

  lemma {:induction false} TradeLabelled(t: Trade)
    requires ValidTrade(t)
    ensures Labels(TradeFilter, t, TRADE_OUTCOMES) == 1
  {
    LabelsOfFive(TradeFilter, t, "rejected", "counterfactual", "approved", "filled", "expired");
  }

  /** The five outcome listings partition the listing: no row is in two of them or in none. */
  lemma {:induction false} DecisionOutcomesPartition(table: seq<Row<Decision>>, keep: Row<Decision> -> bool)
    requires forall i :: 0 <= i < |table| ==> ValidDecision(table[i].body)
    ensures CountAll(table, keep, DecisionFilter, DECISION_OUTCOMES) == |Listing(table, keep)|
    ensures forall i :: 0 <= i < |table| ==> Labels(DecisionFilter, table[i].body, DECISION_OUTCOMES) == 1
  {
    forall i | 0 <= i < |table| ensures Labels(DecisionFilter, table[i].body, DECISION_OUTCOMES) == 1 {
      DecisionLabelled(table[i].body);
    }
    LabelsPartition(table, keep, DecisionFilter, DECISION_OUTCOMES);
  }

  lemma {:induction false} TradeOutcomesPartition(table: seq<Row<Trade>>, keep: Row<Trade> -> bool)
    requires forall i :: 0 <= i < |table| ==> ValidTrade(table[i].body)
    ensures CountAll(table, keep, TradeFilter, TRADE_OUTCOMES) == |Listing(table, keep)|
    ensures forall i :: 0 <= i < |table| ==> Labels(TradeFilter, table[i].body, TRADE_OUTCOMES) == 1
  {
    forall i | 0 <= i < |table| ensures Labels(TradeFilter, table[i].body, TRADE_OUTCOMES) == 1 {
      TradeLabelled(table[i].body);
    }
    LabelsPartition(table, keep, TradeFilter, TRADE_OUTCOMES);
  }
}
