/** The feed over whole runs: appends, page reads, deliveries, failures, socket pages, drops, resumes
    and refreshes in any order. */
module EventFeedRuns {
  import opened Results
  import opened EventFeed

  datatype Phase =
    | Fetching                                      // a page is requested with the client's cursor
    | Delivering(page: Page, seen: nat)             // the server answered from the first `seen` events
    | Live(serverCursor: nat, inFlight: seq<Page>)  // socket open, pages sent but not yet received
    | Waiting                                       // reconnect timer pending
    | Stopped

  /** `start` is set by the first page; `stale` is the catch-up loop's flag, `timer` the pending refresh
      timer, and `owed` says that something was accepted since the last refresh. */
  datatype State = State(
    log: seq<nat>, cursor: nat, accepted: seq<nat>, start: Option<nat>, phase: Phase,
    stale: bool, timer: bool, owed: bool)

  /** `Expire` is the end of the session, seen by a request or by the socket; `Stop` is the caller's. */
  datatype Event =
    | Append(cursor: nat)
    | Read
    | Deliver
    | FetchFails
    | Push
    | Receive
    | Drop
    | Reconnect
    | Refresh
    | Expire
    | Stop

  function Initial(cursor: nat): State { State([], cursor, [], None, Fetching, false, false, false) }

  predicate Enabled(s: State, e: Event) {
    match e
    case Append(c) => High(s.log) < c
    case Read => s.phase.Fetching?
    case Deliver => s.phase.Delivering?
    case FetchFails => s.phase.Fetching? || s.phase.Delivering?
    case Push => s.phase.Live?
    case Receive => s.phase.Live? && s.phase.inFlight != []
    case Drop => s.phase.Live?
    case Reconnect => s.phase.Waiting?
    case Refresh => s.timer
    case Expire => s.phase.Fetching? || s.phase.Delivering? || s.phase.Live?
    case Stop => !s.phase.Stopped?
  }

  /** The client takes a page in. */
  function Accepting(s: State, page: Page): State {
    s.(cursor := Advanced(s.cursor, page),
       accepted := s.accepted + if Rewinds(s.cursor, page) then [] else Unseen(s.cursor, page.items),
       start := if s.start.None? then Some(Min(s.cursor, Advanced(s.cursor, page))) else s.start,
       owed := s.owed || Invalidates(s.cursor, page))
  }

  /** After a catch-up page is taken in: on to the next page, or refresh if need be and open the socket. */
  function Delivered(s: State, hasMore: bool, stale: bool): State {
    if hasMore then s.(phase := Fetching, stale := stale)
    else if stale then s.(phase := Live(s.cursor, []), stale := false, timer := false, owed := false)
    else s.(phase := Live(s.cursor, []))
  }

  function Next(limit: nat, s: State, e: Event): State
    requires Enabled(s, e)
  {
    match e
    case Append(c) => s.(log := s.log + [c])
    case Read => s.(phase := Delivering(OutboxPage(s.log, s.cursor, limit), |s.log|))
    case Deliver =>
      var page := s.phase.page;
      Delivered(Accepting(s, page), page.hasMore, Invalidates(s.cursor, page) || s.stale)
    case FetchFails => s.(phase := Waiting, stale := false)
    case Push =>
      var page := OutboxPage(s.log, s.phase.serverCursor, limit);
      if page.items == [] then s else s.(phase := Live(page.nextCursor, s.phase.inFlight + [page]))
    case Receive =>
      var page := s.phase.inFlight[0];
      Accepting(s, page).(phase := s.phase.(inFlight := s.phase.inFlight[1..]),
                          timer := s.timer || Invalidates(s.cursor, page))
    case Drop => s.(phase := Waiting)
    case Reconnect => s.(phase := Fetching, stale := false)
    case Refresh => s.(timer := false, owed := false)
    case Expire => s.(phase := Stopped, stale := false)
    case Stop => s.(phase := Stopped, timer := false)
  }

  // ------------------------------------------------------------------ the invariant

  /** The pages continue `from` without gap or overlap up to `to`. */
  ghost predicate PagesCover(log: seq<nat>, from: nat, pages: seq<Page>, to: nat)
    decreases pages
  {
    if pages == [] then from == to
    else
      && from <= pages[0].nextCursor <= High(log) && pages[0].items == Between(log, from, pages[0].nextCursor)
      && PagesCover(log, pages[0].nextCursor, pages[1..], to)
  }

  /** Everything visible between the start and the cursor was accepted, once and in order. */
  ghost predicate GapFree(s: State) {
    match s.start
    case None => s.accepted == []
    case Some(start) =>
      start <= s.cursor <= High(s.log) && s.accepted == Between(s.log, start, s.cursor)
  }

  /** The start is the initial cursor, or the head of the log at the first page if that is lower. */
  ghost predicate HeadSynchronised(initial: nat, s: State) {
    match s.start
    case None => s.cursor == initial
    case Some(start) => exists n :: 0 <= n <= |s.log| && start == Min(initial, High(s.log[..n]))
  }

  ghost predicate PhaseFits(limit: nat, s: State) {
    match s.phase
    case Delivering(page, seen) =>
      && seen <= |s.log| && page == OutboxPage(s.log[..seen], s.cursor, limit)
      && (s.start.Some? ==> s.cursor <= High(s.log[..seen]))
    case Live(serverCursor, pages) =>
      s.start.Some? && s.cursor <= serverCursor <= High(s.log) && PagesCover(s.log, s.cursor, pages, serverCursor)
    case _ => true
  }

  /** A refresh that is owed is on its way: its timer is pending, or the catch-up is not over and the log
      holds events whose acceptance will call for it again. */
  ghost predicate RefreshComing(s: State) {
    s.owed && !s.timer ==>
      match s.phase
      case Live(_, _) => false
      case Delivering(_, seen) => seen <= |s.log| && s.cursor < High(s.log[..seen])
      case Fetching => s.cursor < High(s.log)
      case Waiting => s.cursor < High(s.log)
      case Stopped => true
  }

  ghost predicate Safe(initial: nat, limit: nat, s: State) {
    Increasing(s.log) && GapFree(s) && HeadSynchronised(initial, s) && PhaseFits(limit, s) && RefreshComing(s)
  }

  lemma {:induction false} CoverGrows(log: seq<nat>, more: seq<nat>, from: nat, pages: seq<Page>, to: nat)
    requires Increasing(more) && log <= more && PagesCover(log, from, pages, to)
    ensures PagesCover(more, from, pages, to)
    decreases pages
  {
    if pages != [] {
      PositionStable(log, more, 0);
      HighGrows(log, more);
      BetweenStable(log, more, from, pages[0].nextCursor);
      CoverGrows(log, more, pages[0].nextCursor, pages[1..], to);
    }
  }

  lemma {:induction false} HighGrows(log: seq<nat>, more: seq<nat>)
    requires Increasing(more) && log <= more
    ensures High(log) <= High(more)
  {
    if log != [] { assert log[|log| - 1] == more[|log| - 1]; }
  }

  lemma {:induction false} CoverSnoc(log: seq<nat>, from: nat, pages: seq<Page>, to: nat, page: Page)
    requires PagesCover(log, from, pages, to)
    requires to <= page.nextCursor <= High(log) && page.items == Between(log, to, page.nextCursor)
    ensures PagesCover(log, from, pages + [page], page.nextCursor)
    decreases pages
  {
    if pages == [] {
      assert (pages + [page])[1..] == [];
    } else {
      CoverSnoc(log, pages[0].nextCursor, pages[1..], to, page);
      assert (pages + [page])[1..] == pages[1..] + [page];
    }
  }

  lemma {:induction false} CoverEnd(log: seq<nat>, from: nat, pages: seq<Page>, to: nat)
    requires PagesCover(log, from, pages, to)
    ensures from <= to
    decreases pages
  {
    if pages != [] { CoverEnd(log, pages[0].nextCursor, pages[1..], to); }
  }

  lemma {:induction false} InitialSafe(initial: nat, limit: nat)
    ensures Safe(initial, limit, Initial(initial))
  {
  }

  lemma {:induction false} AppendIncreasing(log: seq<nat>, c: nat)
    requires Increasing(log) && High(log) < c
    ensures Increasing(log + [c])
  {
    assert forall i :: 0 <= i < |log| ==> log[i] <= High(log);
  }

  lemma {:induction false} AppendPhase(limit: nat, s: State, s': State)
    requires PhaseFits(limit, s) && RefreshComing(s) && Increasing(s'.log) && s.log <= s'.log
    requires s' == s.(log := s'.log)
    ensures PhaseFits(limit, s') && RefreshComing(s')
  {
    HighGrows(s.log, s'.log);
    match s.phase {
      case Delivering(_, seen) => assert s'.log[..seen] == s.log[..seen];
      case Live(serverCursor, pages) => CoverGrows(s.log, s'.log, s.cursor, pages, serverCursor);
      case _ =>
    }
  }

  lemma {:induction false} AppendStart(initial: nat, s: State, s': State)
    requires GapFree(s) && HeadSynchronised(initial, s) && Increasing(s'.log) && s.log <= s'.log
    requires s' == s.(log := s'.log)
    ensures GapFree(s') && HeadSynchronised(initial, s')
  {
    if s.start.Some? {
      HighGrows(s.log, s'.log);
      BetweenStable(s.log, s'.log, s.start.value, s.cursor);
      var n :| 0 <= n <= |s.log| && s.start.value == Min(initial, High(s.log[..n]));
      assert s'.log[..n] == s.log[..n];
    }
  }

  lemma {:induction false} AppendSafe(initial: nat, limit: nat, s: State, c: nat)
    requires Safe(initial, limit, s) && Enabled(s, Append(c))
    ensures Safe(initial, limit, Next(limit, s, Append(c)))
  {
    var s' := Next(limit, s, Append(c));
    AppendIncreasing(s.log, c);
    AppendPhase(limit, s, s');
    AppendStart(initial, s, s');
  }

  lemma {:induction false} ReadSafe(initial: nat, limit: nat, s: State)
    requires Safe(initial, limit, s) && Enabled(s, Read)
    ensures Safe(initial, limit, Next(limit, s, Read))
  {
    assert s.log[..|s.log|] == s.log;
  }

  /** Taking in a page that continues the cursor keeps the feed gap-free. */
  lemma {:induction false} AcceptNextSafe(s: State, page: Page)
    requires Increasing(s.log) && GapFree(s) && s.start.Some?
    requires s.cursor <= page.nextCursor <= High(s.log) && page.items == Between(s.log, s.cursor, page.nextCursor)
    ensures GapFree(Accepting(s, page)) && Accepting(s, page).cursor == page.nextCursor
    ensures Accepting(s, page).start == s.start && (Invalidates(s.cursor, page) <==> page.items != [])
  {
    AcceptsNext(s.log, s.cursor, page);
    BetweenConcat(s.log, s.start.value, s.cursor, page.nextCursor);
  }

  /** The first page, read at or below the head, fixes the start at the cursor. */
  lemma {:induction false} FirstWithin(s: State, log: seq<nat>, limit: nat)
    requires Increasing(s.log) && log <= s.log && 1 <= limit && s.start.None? && s.accepted == []
    requires s.cursor <= High(log)
    ensures var page := OutboxPage(log, s.cursor, limit);
            var s' := Accepting(s, page);
            && GapFree(s') && s'.start == Some(s.cursor) && (page.hasMore <==> s'.cursor < High(log))
            && (s.cursor < High(log) ==> Invalidates(s.cursor, page))
  {
    PositionStable(log, s.log, 0);
    HighGrows(log, s.log);
    var page := OutboxPage(log, s.cursor, limit);
    PageExact(log, s.cursor, limit);
    AcceptsNext(log, s.cursor, page);
    BetweenStable(log, s.log, s.cursor, page.nextCursor);
  }

  /** The first page, read beyond the head, rewinds the cursor to the head. */
  lemma {:induction false} FirstBeyond(s: State, log: seq<nat>, limit: nat)
    requires Increasing(s.log) && log <= s.log && 1 <= limit && s.start.None? && s.accepted == []
    requires High(log) < s.cursor
    ensures var page := OutboxPage(log, s.cursor, limit);
            var s' := Accepting(s, page);
            && GapFree(s') && s'.start == Some(High(log)) && !page.hasMore && s'.cursor == High(log)
            && Invalidates(s.cursor, page)
  {
    PositionStable(log, s.log, 0);
    HighGrows(log, s.log);
    PageBeyond(log, s.cursor, limit);
  }

  /** What taking in a catch-up page achieves: `s` becomes `s'`, the server having seen the log up to
      `head`. */
  ghost predicate TakenIn(initial: nat, s: State, s': State, head: nat, hasMore: bool, invalidated: bool) {
    && GapFree(s') && HeadSynchronised(initial, s') && s'.start.Some? && s'.log == s.log && s'.timer == s.timer
    && (hasMore <==> s'.cursor < head) && (s.cursor < head ==> invalidated) && s'.owed == (s.owed || invalidated)
    && (s.start.Some? ==> s.cursor <= s'.cursor && s'.start == s.start)
  }

  lemma {:induction false} AcceptFirst(initial: nat, limit: nat, s: State, seen: nat)
    requires Increasing(s.log) && GapFree(s) && HeadSynchronised(initial, s) && s.start.None? && 1 <= limit
    requires seen <= |s.log|
    ensures var page := OutboxPage(s.log[..seen], s.cursor, limit);
            TakenIn(initial, s, Accepting(s, page), High(s.log[..seen]), page.hasMore, Invalidates(s.cursor, page))
  {
    var log := s.log[..seen];
    if s.cursor <= High(log) {
      FirstWithin(s, log, limit);
    } else {
      FirstBeyond(s, log, limit);
    }
  }

  lemma {:induction false} AcceptLater(initial: nat, limit: nat, s: State, seen: nat)
    requires Increasing(s.log) && GapFree(s) && HeadSynchronised(initial, s) && s.start.Some? && 1 <= limit
    requires seen <= |s.log| && s.cursor <= High(s.log[..seen])
    ensures var page := OutboxPage(s.log[..seen], s.cursor, limit);
            TakenIn(initial, s, Accepting(s, page), High(s.log[..seen]), page.hasMore, Invalidates(s.cursor, page))
  {
    var log := s.log[..seen];
    var page := OutboxPage(log, s.cursor, limit);
    PositionStable(log, s.log, 0);
    HighGrows(log, s.log);
    PageExact(log, s.cursor, limit);
    BetweenStable(log, s.log, s.cursor, page.nextCursor);
    AcceptNextSafe(s, page);
  }

  lemma {:induction false} DeliveredSafe(
      initial: nat, limit: nat, s: State, a: State, head: nat, hasMore: bool, invalidated: bool)
    requires Increasing(s.log) && head <= High(s.log) && TakenIn(initial, s, a, head, hasMore, invalidated)
    requires s.owed && !s.timer ==> s.cursor < head
    ensures Safe(initial, limit, Delivered(a, hasMore, invalidated || s.stale))
  {
  }

  lemma {:induction false} DeliverSafe(initial: nat, limit: nat, s: State)
    requires Safe(initial, limit, s) && 1 <= limit && Enabled(s, Deliver)
    ensures Safe(initial, limit, Next(limit, s, Deliver))
  {
    var seen, page := s.phase.seen, s.phase.page;
    HighGrows(s.log[..seen], s.log);
    if s.start.None? {
      AcceptFirst(initial, limit, s, seen);
    } else {
      AcceptLater(initial, limit, s, seen);
    }
    DeliveredSafe(initial, limit, s, Accepting(s, page), High(s.log[..seen]), page.hasMore,
                  Invalidates(s.cursor, page));
  }

  lemma {:induction false} PushSafe(initial: nat, limit: nat, s: State)
    requires Safe(initial, limit, s) && 1 <= limit && Enabled(s, Push)
    ensures Safe(initial, limit, Next(limit, s, Push))
  {
    var page := OutboxPage(s.log, s.phase.serverCursor, limit);
    PageExact(s.log, s.phase.serverCursor, limit);
    CoverSnoc(s.log, s.cursor, s.phase.inFlight, s.phase.serverCursor, page);
  }

  lemma {:induction false} ReceiveSafe(initial: nat, limit: nat, s: State)
    requires Safe(initial, limit, s) && Enabled(s, Receive)
    ensures Safe(initial, limit, Next(limit, s, Receive))
  {
    var page := s.phase.inFlight[0];
    AcceptNextSafe(s, page);
    CoverEnd(s.log, page.nextCursor, s.phase.inFlight[1..], s.phase.serverCursor);
  }

  lemma {:induction false} StepSafe(initial: nat, limit: nat, s: State, e: Event)
    requires Safe(initial, limit, s) && 1 <= limit && Enabled(s, e)
    ensures Safe(initial, limit, Next(limit, s, e))
  {
    match e {
      case Append(c) => AppendSafe(initial, limit, s, c);
      case Read => ReadSafe(initial, limit, s);
      case Deliver => DeliverSafe(initial, limit, s);
      case Push => PushSafe(initial, limit, s);
      case Receive => ReceiveSafe(initial, limit, s);
      case FetchFails =>
        if s.phase.Delivering? { HighGrows(s.log[..s.phase.seen], s.log); }
      case _ =>
    }
  }

  // ------------------------------------------------------------------ every run

  ghost predicate StepAt(limit: nat, ss: seq<State>, es: seq<Event>, i: nat)
    requires i < |es| && |ss| == |es| + 1
  {
    Enabled(ss[i], es[i]) && ss[i + 1] == Next(limit, ss[i], es[i])
  }

  ghost predicate Run(initial: nat, limit: nat, ss: seq<State>, es: seq<Event>) {
    && |ss| == |es| + 1 && ss[0] == Initial(initial)
    && forall i :: 0 <= i < |es| ==> StepAt(limit, ss, es, i)
  }

  lemma {:induction false} RunSafe(initial: nat, limit: nat, ss: seq<State>, es: seq<Event>, i: nat)
    requires Run(initial, limit, ss, es) && 1 <= limit && i <= |es|
    ensures Safe(initial, limit, ss[i])
  {
    if i == 0 {
      InitialSafe(initial, limit);
    } else {
      RunSafe(initial, limit, ss, es, i - 1);
      assert StepAt(limit, ss, es, i - 1);
      StepSafe(initial, limit, ss[i - 1], es[i - 1]);
    }
  }

  /** In every state of every run, once the first page is in: each visible event above the
      head-synchronised start and up to the cursor has been accepted exactly once, no other event has,
      and the cursor does not pass the head. */
  lemma {:induction false} EveryEventOnce(initial: nat, limit: nat, ss: seq<State>, es: seq<Event>, i: nat)
    requires Run(initial, limit, ss, es) && 1 <= limit && i <= |es| && ss[i].start.Some?
    ensures var s := ss[i];
            && HeadSynchronised(initial, s) && s.start.value <= s.cursor <= High(s.log)
            && forall x :: multiset(s.accepted)[x] == if x in s.log && s.start.value < x <= s.cursor then 1 else 0
  {
    RunSafe(initial, limit, ss, es, i);
    var s := ss[i];
    BetweenExact(s.log, s.start.value, s.cursor);
    forall x ensures multiset(s.accepted)[x] == if x in s.accepted then 1 else 0 {
      CountedOnce(s.accepted, x);
    }
  }

  lemma {:induction false} CountedOnce(s: seq<nat>, x: nat)
    requires Increasing(s)
    ensures multiset(s)[x] == if x in s then 1 else 0
  {
    if s != [] {
      var front := s[..|s| - 1];
      CountedOnce(front, x);
      assert s == front + [s[|s| - 1]];
      assert multiset(s) == multiset(front) + multiset{s[|s| - 1]};
      assert forall i :: 0 <= i < |front| ==> front[i] < s[|s| - 1];
    }
  }

  /** While the feed is live, whatever was accepted since the last refresh has a refresh pending. */
  lemma {:induction false} LiveRefreshPending(initial: nat, limit: nat, ss: seq<State>, es: seq<Event>, i: nat)
    requires Run(initial, limit, ss, es) && 1 <= limit && i <= |es| && ss[i].phase.Live?
    ensures ss[i].owed ==> ss[i].timer
  {
    RunSafe(initial, limit, ss, es, i);
  }

  /** What a step may do to the start, the cursor and the accepted events once the first page is in. */
  ghost predicate Onwards(s: State, s': State) {
    s'.start == s.start && s.cursor <= s'.cursor && s.accepted <= s'.accepted
  }

  lemma {:induction false} StepOnwards(initial: nat, limit: nat, s: State, e: Event)
    requires Safe(initial, limit, s) && 1 <= limit && Enabled(s, e) && s.start.Some?
    ensures Onwards(s, Next(limit, s, e))
  {
    match e {
      case Deliver => AcceptLater(initial, limit, s, s.phase.seen);
      case Receive => AcceptNextSafe(s, s.phase.inFlight[0]);
      case _ =>
    }
  }

  /** The start never moves and the cursor never goes back after the first page. */
  lemma {:induction false} CursorAdvances(initial: nat, limit: nat, ss: seq<State>, es: seq<Event>, i: nat, j: nat)
    requires Run(initial, limit, ss, es) && 1 <= limit && i <= j <= |es| && ss[i].start.Some?
    ensures Onwards(ss[i], ss[j])
    decreases j
  {
    if i < j {
      CursorAdvances(initial, limit, ss, es, i, j - 1);
      RunSafe(initial, limit, ss, es, j - 1);
      assert StepAt(limit, ss, es, j - 1);
      StepOnwards(initial, limit, ss[j - 1], es[j - 1]);
    }
  }

  // ------------------------------------------------------------------ progress

  /** While the server has not sent everything, a push sends one more page: exactly the events above its cursor
      up to a strictly larger one. */
  lemma {:induction false} PushSends(initial: nat, limit: nat, s: State)
    requires Safe(initial, limit, s) && 1 <= limit && s.phase.Live? && s.phase.serverCursor < High(s.log)
    ensures var s', from, sent := Next(limit, s, Push), s.phase.serverCursor, |s.phase.inFlight|;
            && s'.phase.Live? && s' == s.(phase := s'.phase)
            && |s'.phase.inFlight| == sent + 1 && s'.phase.inFlight[..sent] == s.phase.inFlight
            && from < s'.phase.serverCursor <= High(s.log)
            && var items := s'.phase.inFlight[sent].items;
               && Increasing(items) && |items| <= limit
               && forall x :: x in items <==> x in s.log && from < x <= s'.phase.serverCursor
  {
    PageExact(s.log, s.phase.serverCursor, limit);
    BetweenExact(s.log, s.phase.serverCursor, OutboxPage(s.log, s.phase.serverCursor, limit).nextCursor);
  }

  /** Receiving takes the first page in flight: the cursor moves to its end and its events are accepted. */
  lemma {:induction false} ReceiveTakes(initial: nat, limit: nat, s: State)
    requires Safe(initial, limit, s) && s.phase.Live? && s.phase.inFlight != []
    ensures var s', page := Next(limit, s, Receive), s.phase.inFlight[0];
            && s'.phase == Live(s.phase.serverCursor, s.phase.inFlight[1..]) && s'.log == s.log
            && s'.cursor == page.nextCursor && s'.accepted == s.accepted + page.items && s'.start == s.start
  {
    AcceptsNext(s.log, s.cursor, s.phase.inFlight[0]);
  }

  /** The events are enabled one after the other and end in `s'`. */
  ghost predicate Leads(limit: nat, s: State, es: seq<Event>, s': State)
    decreases |es|
  {
    if es == [] then s' == s else Enabled(s, es[0]) && Leads(limit, Next(limit, s, es[0]), es[1..], s')
  }

  lemma {:induction false} LeadsStep(limit: nat, s: State, e: Event, es: seq<Event>, s': State)
    requires Enabled(s, e) && Leads(limit, Next(limit, s, e), es, s')
    ensures Leads(limit, s, [e] + es, s')
  {
    assert ([e] + es)[1..] == es;
  }

  /** The socket at work. */
  predicate Pushed(es: seq<Event>) { forall e :: e in es ==> e.Push? || e.Receive? }

  /** Nothing fails and nothing is appended. */
  predicate Smooth(es: seq<Event>) {
    forall e :: e in es ==> e.Push? || e.Receive? || e.Reconnect? || e.Read? || e.Deliver?
  }

  /** The client is live and up to date, and has accepted everything from its start on. */
  ghost predicate UpToDate(initial: nat, limit: nat, log: seq<nat>, s: State) {
    && Safe(initial, limit, s) && s.phase.Live? && s.log == log && s.cursor == High(log)
    && s.start.Some? && s.accepted == Between(log, s.start.value, High(log))
  }

  /** On a log that does not change, pushing and receiving brings a live client up to date. */
  lemma {:induction false} LiveCatchesUp(initial: nat, limit: nat, s: State) returns (es: seq<Event>, s': State)
    requires Safe(initial, limit, s) && 1 <= limit && s.phase.Live?
    ensures Pushed(es) && Leads(limit, s, es, s') && UpToDate(initial, limit, s.log, s') && s'.start == s.start
    decreases High(s.log) - s.phase.serverCursor, |s.phase.inFlight|
  {
    if s.phase.inFlight != [] {
      StepSafe(initial, limit, s, Receive);
      ReceiveTakes(initial, limit, s);
      var rest;
      rest, s' := LiveCatchesUp(initial, limit, Next(limit, s, Receive));
      es := [Receive] + rest;
      LeadsStep(limit, s, Receive, rest, s');
    } else if s.phase.serverCursor < High(s.log) {
      StepSafe(initial, limit, s, Push);
      PushSends(initial, limit, s);
      var rest;
      rest, s' := LiveCatchesUp(initial, limit, Next(limit, s, Push));
      es := [Push] + rest;
      LeadsStep(limit, s, Push, rest, s');
    } else {
      es, s' := [], s;
    }
  }

  /** How far the client is behind. */
  function Behind(s: State): nat { if s.cursor <= High(s.log) then High(s.log) - s.cursor else 0 }

  function Rank(f: Phase): nat {
    match f
    case Waiting => 3
    case Fetching => 2
    case Delivering(_, _) => 1
    case _ => 0
  }

  /** A page after which more follow moves the cursor on. */
  lemma {:induction false} MoreMeansOn(log: seq<nat>, cursor: nat, limit: nat)
    requires Increasing(log) && 1 <= limit
    ensures var page := OutboxPage(log, cursor, limit);
            page.hasMore ==> cursor < Advanced(cursor, page) <= High(log)
  {
    if cursor <= High(log) {
      PageExact(log, cursor, limit);
      AcceptsNext(log, cursor, OutboxPage(log, cursor, limit));
    } else {
      PageBeyond(log, cursor, limit);
    }
  }

  lemma {:induction false} DeliverTakesIn(initial: nat, limit: nat, s: State)
    requires Safe(initial, limit, s) && 1 <= limit && s.phase.Delivering?
    ensures TakenIn(initial, s, Accepting(s, s.phase.page), High(s.log[..s.phase.seen]), s.phase.page.hasMore,
                    Invalidates(s.cursor, s.phase.page))
  {
    if s.start.None? {
      AcceptFirst(initial, limit, s, s.phase.seen);
    } else {
      AcceptLater(initial, limit, s, s.phase.seen);
    }
  }

  /** What a catch-up page brings: the client comes closer and asks again, or goes live. */
  lemma {:induction false} DeliverProgress(initial: nat, limit: nat, s: State)
    requires Safe(initial, limit, s) && 1 <= limit && s.phase.Delivering?
    ensures var s' := Next(limit, s, Deliver);
            && s'.log == s.log && s'.start.Some? && s'.start.value <= s.cursor
            && (s.start.Some? ==> s'.start == s.start)
            && (s'.phase.Live? || (s'.phase.Fetching? && Behind(s') < Behind(s)))
  {
    var log := s.log[..s.phase.seen];
    HighGrows(log, s.log);
    PositionStable(log, s.log, 0);
    DeliverTakesIn(initial, limit, s);
    MoreMeansOn(log, s.cursor, limit);
  }

  /** What a client that is not live does next. */
  function Move(f: Phase): Event { if f.Waiting? then Reconnect else if f.Fetching? then Read else Deliver }

  /** The later state starts where the earlier one does, or no later than its cursor. */
  predicate StartsBy(s: State, s': State) {
    if s.start.Some? then s'.start == s.start
    else s'.start.Some? ==> s'.start.value <= s.cursor
  }

  lemma {:induction false} Nears(initial: nat, limit: nat, s: State, s': State)
    requires Safe(initial, limit, s) && 1 <= limit && !s.phase.Stopped? && !s.phase.Live?
    requires s' == Next(limit, s, Move(s.phase))
    ensures Safe(initial, limit, s') && s'.log == s.log && !s'.phase.Stopped? && StartsBy(s, s')
    ensures s'.start.None? ==> s'.cursor == s.cursor
    ensures s'.phase.Live? || Behind(s') < Behind(s) || (Behind(s') == Behind(s) && Rank(s'.phase) < Rank(s.phase))
  {
    StepSafe(initial, limit, s, Move(s.phase));
    if s.phase.Delivering? { DeliverProgress(initial, limit, s); }
  }

  lemma {:induction false} SmoothCons(e: Event, es: seq<Event>)
    requires Smooth(es) && (e.Push? || e.Receive? || e.Reconnect? || e.Read? || e.Deliver?)
    ensures Smooth([e] + es)
  {
  }

  /** From every state of a feed that has not stopped, on a log that does not change, some steps without failure
      bring the client live and up to date: every event above its cursor is accepted. */
  lemma {:induction false} CatchesUp(initial: nat, limit: nat, s: State) returns (es: seq<Event>, s': State)
    requires Safe(initial, limit, s) && 1 <= limit && !s.phase.Stopped?
    ensures Smooth(es) && Leads(limit, s, es, s') && UpToDate(initial, limit, s.log, s') && StartsBy(s, s')
    decreases !s.phase.Live?, Behind(s), Rank(s.phase)
  {
    if s.phase.Live? {
      es, s' := LiveCatchesUp(initial, limit, s);
    } else {
      var e := Move(s.phase);
      var next := Next(limit, s, e);
      Nears(initial, limit, s, next);
      var rest;
      rest, s' := CatchesUp(initial, limit, next);
      es := [e] + rest;
      SmoothCons(e, rest);
      LeadsStep(limit, s, e, rest, s');
    }
  }

  /** In every run, from every state in which the feed has not stopped, the client can still come up to date
      without missing or repeating an event. */
  lemma {:induction false} AlwaysCatchesUp(initial: nat, limit: nat, ss: seq<State>, es: seq<Event>, i: nat)
    requires Run(initial, limit, ss, es) && 1 <= limit && i <= |es| && !ss[i].phase.Stopped?
    ensures exists more: seq<Event>, s': State ::
              && Smooth(more) && Leads(limit, ss[i], more, s') && UpToDate(initial, limit, ss[i].log, s')
              && StartsBy(ss[i], s')
  {
    RunSafe(initial, limit, ss, es, i);
    var more, s' := CatchesUp(initial, limit, ss[i]);
  }

  // ------------------------------------------------------------------ refreshes

  /** The step calls the snapshot's refresh: the timer fires, or a catch-up ends that saw something new. */
  predicate Refreshes(s: State, e: Event)
    requires Enabled(s, e)
  {
    || e.Refresh?
    || (e.Deliver? && !s.phase.page.hasMore && (s.stale || Invalidates(s.cursor, s.phase.page)))
  }

  lemma {:induction false} StepOwes(limit: nat, s: State, e: Event)
    requires Enabled(s, e) && !Refreshes(s, e)
    ensures s.owed || Next(limit, s, e).accepted != s.accepted ==> Next(limit, s, e).owed
  {
  }

  /** No step from `i` up to `j` refreshes. */
  ghost predicate NoRefresh(ss: seq<State>, es: seq<Event>, i: nat, j: nat)
    requires i <= j <= |es| && |ss| == |es| + 1
  {
    forall k :: i <= k < j ==> Enabled(ss[k], es[k]) && !Refreshes(ss[k], es[k])
  }

  lemma {:induction false} OwedSince(limit: nat, ss: seq<State>, es: seq<Event>, i: nat, j: nat)
    requires |ss| == |es| + 1 && i <= j <= |es| && (forall k :: i <= k < j ==> StepAt(limit, ss, es, k))
    requires NoRefresh(ss, es, i, j) && ss[i].accepted != ss[j].accepted
    ensures ss[j].owed
    decreases j
  {
    var k := j - 1;
    assert StepAt(limit, ss, es, k);
    StepOwes(limit, ss[k], es[k]);
    if ss[i].accepted != ss[k].accepted { OwedSince(limit, ss, es, i, k); }
  }

  /** While the feed is live, a client that accepted anything since some moment has a refresh pending, unless one
      was made in between. */
  lemma {:induction false} AcceptedThenRefreshed(
      initial: nat, limit: nat, ss: seq<State>, es: seq<Event>, i: nat, j: nat)
    requires Run(initial, limit, ss, es) && 1 <= limit && i <= j <= |es| && NoRefresh(ss, es, i, j)
    requires ss[i].accepted != ss[j].accepted && ss[j].phase.Live?
    ensures ss[j].timer
  {
    OwedSince(limit, ss, es, i, j);
    LiveRefreshPending(initial, limit, ss, es, j);
  }

  /** A pending timer is owed, and nothing is owed before the first page. */
  predicate Due(s: State) { (s.timer ==> s.owed) && (s.owed ==> s.start.Some?) }

  lemma {:induction false} RunDue(initial: nat, limit: nat, ss: seq<State>, es: seq<Event>, i: nat)
    requires Run(initial, limit, ss, es) && i <= |es|
    ensures Due(ss[i])
  {
    if 0 < i {
      RunDue(initial, limit, ss, es, i - 1);
      assert StepAt(limit, ss, es, i - 1);
    }
  }

  /** A debt comes from something accepted. */
  lemma {:induction false} DebtFromAccepting(initial: nat, limit: nat, s: State, e: Event)
    requires Safe(initial, limit, s) && 1 <= limit && Enabled(s, e) && s.start.Some? && !s.owed
    ensures Next(limit, s, e).owed ==> Next(limit, s, e).accepted != s.accepted
  {
    match e {
      case Deliver => AcceptLater(initial, limit, s, s.phase.seen); DeliveredNext(limit, s);
      case Receive => ReceiveTakes(initial, limit, s); AcceptsNext(s.log, s.cursor, s.phase.inFlight[0]);
      case _ =>
    }
  }

  lemma {:induction false} DeliveredNext(limit: nat, s: State)
    requires PhaseFits(limit, s) && Increasing(s.log) && 1 <= limit && s.phase.Delivering? && s.start.Some?
    ensures Invalidates(s.cursor, s.phase.page) ==> Accepting(s, s.phase.page).accepted != s.accepted
  {
    var log := s.log[..s.phase.seen];
    PositionStable(log, s.log, 0);
    PageExact(log, s.cursor, limit);
    AcceptsNext(log, s.cursor, s.phase.page);
  }

  lemma {:induction false} DebtSince(initial: nat, limit: nat, ss: seq<State>, es: seq<Event>, i: nat, j: nat)
    requires Run(initial, limit, ss, es) && 1 <= limit && i <= j <= |es| && ss[i].start.Some?
    requires !ss[i].owed && ss[j].owed
    ensures ss[i].accepted != ss[j].accepted
    decreases j
  {
    var k := j - 1;
    assert StepAt(limit, ss, es, k);
    CursorAdvances(initial, limit, ss, es, i, k);
    RunSafe(initial, limit, ss, es, k);
    StepOnwards(initial, limit, ss[k], es[k]);
    if ss[k].owed {
      DebtSince(initial, limit, ss, es, i, k);
    } else {
      DebtFromAccepting(initial, limit, ss[k], es[k]);
    }
  }

  /** The snapshot is not refreshed twice for one thing: between a refresh and the next one by the timer, something
      was accepted. */
  lemma {:induction false} NoIdleRefresh(
      initial: nat, limit: nat, ss: seq<State>, es: seq<Event>, i: nat, j: nat)
    requires Run(initial, limit, ss, es) && 1 <= limit && i < j < |es| && StepAt(limit, ss, es, i)
    requires Refreshes(ss[i], es[i]) && es[j].Refresh?
    ensures ss[i + 1].accepted != ss[j].accepted
  {
    assert StepAt(limit, ss, es, j);
    RunDue(initial, limit, ss, es, i);
    RunDue(initial, limit, ss, es, j);
    DebtSince(initial, limit, ss, es, i + 1, j);
  }

  // ------------------------------------------------------------------ stopping and dropping

  /** In every run the feed has stopped exactly when it was stopped or its session ended at some point. */
  lemma {:induction false} StoppedIff(initial: nat, limit: nat, ss: seq<State>, es: seq<Event>, i: nat)
    requires Run(initial, limit, ss, es) && i <= |es|
    ensures ss[i].phase.Stopped? <==> exists k :: 0 <= k < i && (es[k].Stop? || es[k].Expire?)
  {
    if 0 < i {
      StoppedIff(initial, limit, ss, es, i - 1);
      assert StepAt(limit, ss, es, i - 1);
    }
  }

  /** A feed that its caller stopped does nothing any more: it accepts nothing and refreshes nothing. */
  lemma {:induction false} StopIsSilent(initial: nat, limit: nat, ss: seq<State>, es: seq<Event>, i: nat, j: nat)
    requires Run(initial, limit, ss, es) && i < j <= |es| && es[i].Stop?
    ensures ss[j].accepted == ss[i].accepted && ss[j].phase.Stopped? && !ss[j].timer
    ensures j < |es| ==> es[j].Append?
    decreases j
  {
    assert StepAt(limit, ss, es, j - 1);
    if j < |es| { assert StepAt(limit, ss, es, j); }
    if i < j - 1 { StopIsSilent(initial, limit, ss, es, i, j - 1); }
  }

  /** Without a connection and until the next page is read: a failed request or a dropped socket came last. */
  ghost predicate Offline(es: seq<Event>, i: nat, j: nat)
    requires i < j <= |es|
  {
    (es[i].Drop? || es[i].FetchFails?) && forall k :: i < k < j ==> !es[k].Read?
  }

  lemma {:induction false} OfflinePhase(initial: nat, limit: nat, ss: seq<State>, es: seq<Event>, i: nat, j: nat)
    requires Run(initial, limit, ss, es) && i < j <= |es| && Offline(es, i, j)
    ensures !ss[j].phase.Live? && !ss[j].phase.Delivering?
    ensures ss[j].accepted == ss[i].accepted && ss[j].cursor == ss[i].cursor
    decreases j
  {
    assert StepAt(limit, ss, es, j - 1);
    if i < j - 1 {
      assert !es[j - 1].Read?;
      OfflinePhase(initial, limit, ss, es, i, j - 1);
    }
  }

  /** What is in flight when the connection is lost is never received: nothing is accepted until the client reads a
      page again, from the cursor it had. */
  lemma {:induction false} LostInFlight(initial: nat, limit: nat, ss: seq<State>, es: seq<Event>, i: nat, j: nat)
    requires Run(initial, limit, ss, es) && i < j < |es| && Offline(es, i, j) && es[j].Read?
    ensures ss[j + 1].accepted == ss[i].accepted
    ensures ss[j + 1].phase == Delivering(OutboxPage(ss[j].log, ss[i].cursor, limit), |ss[j].log|)
  {
    OfflinePhase(initial, limit, ss, es, i, j);
    assert StepAt(limit, ss, es, j);
  }
}
