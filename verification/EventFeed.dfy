/** The resumable event feed: the server's cursor pages and socket loop (`maais/api/app.py`) and the
    browser client that catches up, goes live, drops and resumes (`dashboard/src/api.ts`).  An event is
    its cursor.  Events become visible in increasing cursor order: that is an assumption about the
    outbox, expressed by what `Append` allows. */
module EventFeed {
  import Sorting

  // ------------------------------------------------------------------ the outbox

  ghost predicate Increasing(log: seq<nat>) {
    && (forall i :: 0 <= i < |log| ==> 1 <= log[i])
    && (forall i, j :: 0 <= i < j < |log| ==> log[i] < log[j])
  }

  function High(log: seq<nat>): nat { if log == [] then 0 else log[|log| - 1] }

  function Min(a: nat, b: nat): nat { if a <= b then a else b }

  /** How many events of an increasing log have a cursor of at most `c`. */
  function Position(log: seq<nat>, c: nat): (n: nat)
    ensures n <= |log|
  {
    if log == [] then 0 else if log[|log| - 1] <= c then |log| else Position(log[..|log| - 1], c)
  }

  datatype Page = Page(items: seq<nat>, hasMore: bool, nextCursor: nat)

  /** `_outbox_cursor_page`. */
  function OutboxPage(log: seq<nat>, after: nat, limit: nat): Page {
    var effective := Min(after, High(log));
    var rows := log[Position(log, effective)..];
    var items := if limit < |rows| then rows[..limit] else rows;
    Page(items, limit < |rows|, if items == [] then effective else items[|items| - 1])
  }

  /** The events with a cursor above `a` and up to `b`, in order. */
  function Between(log: seq<nat>, a: nat, b: nat): seq<nat> {
    var i, j := Position(log, a), Position(log, b);
    if i <= j then log[i..j] else []
  }

  lemma {:induction false} PositionSplits(log: seq<nat>, c: nat)
    requires Increasing(log)
    ensures forall i :: 0 <= i < Position(log, c) ==> log[i] <= c
    ensures forall i :: Position(log, c) <= i < |log| ==> c < log[i]
  {
    if log != [] && c < log[|log| - 1] {
      var front := log[..|log| - 1];
      PositionSplits(front, c);
      assert forall i :: 0 <= i < |front| ==> front[i] == log[i];
    }
  }

  lemma {:induction false} PositionUnique(log: seq<nat>, c: nat, n: nat)
    requires Increasing(log) && n <= |log|
    requires forall i :: 0 <= i < n ==> log[i] <= c
    requires forall i :: n <= i < |log| ==> c < log[i]
    ensures Position(log, c) == n
  {
    PositionSplits(log, c);
    var i := Min(Position(log, c), n);
    if i < |log| { assert log[i] <= c <==> i < n; }
  }

  lemma {:induction false} PositionMonotone(log: seq<nat>, a: nat, b: nat)
    requires Increasing(log) && a <= b
    ensures Position(log, a) <= Position(log, b)
  {
    PositionSplits(log, a);
    PositionSplits(log, b);
    var i := Min(Position(log, a), Position(log, b));
    if i < |log| { assert log[i] <= a <==> i < Position(log, a); }
  }

  /** Positions up to the high watermark do not move when the log grows. */
  lemma {:induction false} PositionStable(log: seq<nat>, more: seq<nat>, c: nat)
    requires Increasing(more) && log <= more && c <= High(log)
    ensures Increasing(log) && Position(more, c) == Position(log, c)
  {
    assert forall i :: 0 <= i < |log| ==> log[i] == more[i];
    PositionSplits(log, c);
    forall i | Position(log, c) <= i < |more| ensures c < more[i] {
      if |log| <= i && log != [] { assert more[|log| - 1] < more[i]; }
    }
    PositionUnique(more, c, Position(log, c));
  }

  lemma {:induction false} BetweenStable(log: seq<nat>, more: seq<nat>, a: nat, b: nat)
    requires Increasing(more) && log <= more && a <= b <= High(log)
    ensures Between(more, a, b) == Between(log, a, b)
  {
    PositionStable(log, more, a);
    PositionStable(log, more, b);
  }

  lemma {:induction false} BetweenConcat(log: seq<nat>, a: nat, b: nat, c: nat)
    requires Increasing(log) && a <= b <= c
    ensures Between(log, a, b) + Between(log, b, c) == Between(log, a, c)
  {
    PositionMonotone(log, a, b);
    PositionMonotone(log, b, c);
  }

  /** `Between` is what it says: each event above `a` and up to `b` once, and no other. */
  lemma {:induction false} BetweenExact(log: seq<nat>, a: nat, b: nat)
    requires Increasing(log)
    ensures Increasing(Between(log, a, b))
    ensures forall x :: x in Between(log, a, b) <==> x in log && a < x <= b
  {
    PositionSplits(log, a);
    PositionSplits(log, b);
    forall x ensures x in Between(log, a, b) <==> x in log && a < x <= b {
      if x in log && a < x <= b {
        var i :| 0 <= i < |log| && log[i] == x;
        InsideBetween(log, a, b, i);
      }
    }
  }

  lemma {:induction false} InsideBetween(log: seq<nat>, a: nat, b: nat, i: nat)
    requires Increasing(log) && i < |log| && a < log[i] <= b
    ensures log[i] in Between(log, a, b)
  {
    PositionSplits(log, a);
    PositionSplits(log, b);
    assert Position(log, a) <= i < Position(log, b);
    assert Between(log, a, b)[i - Position(log, a)] == log[i];
  }

  /** A page read at or below the high watermark holds the next events exactly, up to its next cursor. */
  lemma {:induction false} PageExact(log: seq<nat>, c: nat, limit: nat)
    requires Increasing(log) && 1 <= limit && c <= High(log)
    ensures var page := OutboxPage(log, c, limit);
            && c <= page.nextCursor <= High(log) && page.items == Between(log, c, page.nextCursor)
            && (page.hasMore <==> page.nextCursor < High(log))
            && (page.items == [] <==> c == High(log)) && (page.items != [] ==> c < page.nextCursor)
  {
    PositionSplits(log, c);
    var page, p := OutboxPage(log, c, limit), Position(log, c);
    if page.items != [] {
      var q := p + |page.items|;
      assert page.nextCursor == log[q - 1];
      PositionUnique(log, page.nextCursor, q);
    }
  }

  /** A cursor beyond the log is answered with the head and nothing else. */
  lemma {:induction false} PageBeyond(log: seq<nat>, c: nat, limit: nat)
    requires Increasing(log) && High(log) < c
    ensures OutboxPage(log, c, limit) == Page([], false, High(log))
  {
    PositionUnique(log, High(log), |log|);
  }

  // ------------------------------------------------------------------ accepting a page

  function Beyond(c: nat): nat -> bool { x => c < x }

  predicate AtMost(a: nat, b: nat) { a <= b }

  function Unseen(cursor: nat, items: seq<nat>): seq<nat> {
    Sorting.Sort(AtMost, Sorting.Filter(Beyond(cursor), items))
  }

  predicate Rewinds(cursor: nat, page: Page) { page.items == [] && page.nextCursor < cursor }

  function Max(a: nat, b: nat): nat { if a <= b then b else a }

  /** The client's cursor after a page. */
  function Advanced(cursor: nat, page: Page): nat {
    if Rewinds(cursor, page) then page.nextCursor
    else
      var unseen := Unseen(cursor, page.items);
      Max(Max(cursor, page.nextCursor), if unseen == [] then cursor else unseen[|unseen| - 1])
  }

  /** Whether the page makes the client's snapshot stale. */
  predicate Invalidates(cursor: nat, page: Page) { Rewinds(cursor, page) || Unseen(cursor, page.items) != [] }

  /** Of any page at all, in whatever order and however often its events come, exactly those above the cursor are
      unseen, and they come in ascending order. */
  lemma {:induction false} UnseenExact(cursor: nat, items: seq<nat>)
    ensures forall x :: x in Unseen(cursor, items) <==> x in items && cursor < x
    ensures forall i, j :: 0 <= i < j < |Unseen(cursor, items)| ==> Unseen(cursor, items)[i] <= Unseen(cursor, items)[j]
  {
    var kept := Sorting.Filter(Beyond(cursor), items);
    Sorting.SortKeepsElements(AtMost, kept);
    Sorting.SortSorts(AtMost, kept);
    var s := Unseen(cursor, items);
    forall i, j | 0 <= i < j < |s| ensures s[i] <= s[j] { assert AtMost(s[i], s[j]); }
  }

  /** Whatever a page holds, delivering it again brings nothing new. */
  lemma {:induction false} RedeliveryIgnored(cursor: nat, page: Page)
    requires !Rewinds(cursor, page)
    ensures Unseen(Advanced(cursor, page), page.items) == [] && cursor <= Advanced(cursor, page)
  {
    var s, next := Unseen(cursor, page.items), Advanced(cursor, page);
    UnseenExact(cursor, page.items);
    UnseenExact(next, page.items);
    var again := Unseen(next, page.items);
    if again != [] {
      assert again[0] in again;
      var i :| 0 <= i < |s| && s[i] == again[0];
    }
  }

  /** A page that continues the cursor is accepted whole. */
  lemma {:induction false} AcceptsNext(log: seq<nat>, cursor: nat, page: Page)
    requires Increasing(log) && cursor <= page.nextCursor && page.items == Between(log, cursor, page.nextCursor)
    ensures Unseen(cursor, page.items) == page.items && Advanced(cursor, page) == page.nextCursor
    ensures Invalidates(cursor, page) <==> page.items != []
  {
    BetweenExact(log, cursor, page.nextCursor);
    var items := page.items;
    forall i | 0 <= i < |items| ensures Beyond(cursor)(items[i]) && items[i] <= page.nextCursor {
      assert items[i] in items;
    }
    Sorting.FilterAll(Beyond(cursor), items);
    Sorting.SortOfSorted(AtMost, items);
  }

  /** The closure of the feed: its cursor, and for the proof the unseen events it has accepted. */
  class Feed {
    var cursor: nat
    ghost var accepted: seq<nat>

    constructor (initialCursor: int)
      ensures cursor == (if initialCursor < 0 then 0 else initialCursor) && accepted == []
    {
      cursor := if initialCursor < 0 then 0 else initialCursor;
      accepted := [];
    }

    method AcceptPage(page: Page) returns (invalidated: bool)
      modifies this
      ensures cursor == Advanced(old(cursor), page)
      ensures invalidated == Invalidates(old(cursor), page)
      ensures accepted == old(accepted) + if Rewinds(old(cursor), page) then [] else Unseen(old(cursor), page.items)
    {
      if page.items == [] && page.nextCursor < cursor {
        cursor := page.nextCursor;
        return true;
      }
      var unseen := Unseen(cursor, page.items);
      var next := Max(Max(cursor, page.nextCursor), if unseen == [] then cursor else unseen[|unseen| - 1]);
      if cursor < next {
        cursor := next;
      }
      accepted := accepted + unseen;
      return unseen != [];
    }

    /** The catch-up loop on a log that does not change: it ends with the cursor at the head, having
        accepted exactly the events in between, each once. */
    method CatchUp(log: seq<nat>, limit: nat) returns (invalidated: bool)
      requires Increasing(log) && 1 <= limit
      modifies this
      ensures cursor == High(log)
      ensures accepted == old(accepted) + Between(log, Min(old(cursor), High(log)), High(log))
      ensures invalidated <==> old(cursor) != High(log)
    {
      ghost var from := Min(cursor, High(log));
      var page := OutboxPage(log, cursor, limit);
      if cursor <= High(log) {
        PageExact(log, cursor, limit);
        AcceptsNext(log, cursor, page);
      } else {
        PageBeyond(log, cursor, limit);
      }
      BetweenConcat(log, from, from, from);
      invalidated := AcceptPage(page);
      while page.hasMore
        invariant from <= cursor <= High(log) && (page.hasMore <==> cursor < High(log))
        invariant accepted == old(accepted) + Between(log, from, cursor)
        invariant invalidated <==> old(cursor) != cursor
        invariant old(cursor) <= High(log) ==> from == old(cursor)
        invariant High(log) < old(cursor) ==> cursor == High(log)
        decreases High(log) - cursor
      {
        page := OutboxPage(log, cursor, limit);
        PageExact(log, cursor, limit);
        AcceptsNext(log, cursor, page);
        BetweenConcat(log, from, cursor, page.nextCursor);
        Sorting.Associate(old(accepted), Between(log, from, cursor), page.items);
        var more := AcceptPage(page);
        invalidated := more || invalidated;
      }
    }
  }
}
