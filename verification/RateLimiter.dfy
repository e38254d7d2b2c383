/** The bounded per-client fixed-window limiter (`maais/api/health.py`). */
module RateLimiter {
  import opened Results

  datatype Window = Window(startedAt: real, count: nat, lastSeen: real)

  datatype Policy = Policy(maximumRequests: nat, windowSeconds: real, maximumClients: nat)

  type Table = map<string, Window>

  /** What one call decides: whether the request is admitted, and which client it pushed out. */
  datatype Verdict = Verdict(admitted: bool, evicted: Option<string>)

  predicate ValidPolicy(p: Policy) {
    0 < p.maximumRequests && 0.0 < p.windowSeconds && 0 < p.maximumClients
  }

  function ClientOf(key: string): string { if key == "" || |key| > 255 then "unknown" else key }

  predicate LeastRecent(t: Table, k: string) {
    k in t && forall other :: other in t ==> t[k].lastSeen <= t[other].lastSeen
  }

  predicate Expired(p: Policy, w: Window, now: real) {
    now < w.startedAt || now - w.startedAt >= p.windowSeconds
  }

  /** The effect of one call.  Among equally old clients the victim depends on insertion order, which
      the relation leaves open. */
  ghost predicate Allows(p: Policy, t: Table, client: string, now: real, t': Table, v: Verdict) {
    if client !in t then
      && v.admitted
      && if |t| < p.maximumClients
         then v.evicted.None? && t' == t[client := Window(now, 1, now)]
         else v.evicted.Some? && LeastRecent(t, v.evicted.value)
              && t' == (t - {v.evicted.value})[client := Window(now, 1, now)]
    else
      var w := t[client];
      && v.evicted.None?
      && if Expired(p, w, now) then v.admitted && t' == t[client := Window(now, 1, now)]
         else if p.maximumRequests <= w.count then !v.admitted && t' == t[client := w.(lastSeen := now)]
         else v.admitted && t' == t[client := Window(w.startedAt, w.count + 1, now)]
  }

  class InMemoryMonitorRateLimiter {
    const policy: Policy
    var windows: Table

    constructor (p: Policy)
      requires ValidPolicy(p)
      ensures policy == p && windows == map[]
    {
      policy, windows := p, map[];
    }

    /** A limiter is refused exactly when one of its settings is not positive. */
    static method Create(maximumRequests: int, windowSeconds: real, maximumClients: int)
        returns (r: Result<InMemoryMonitorRateLimiter, string>)
      ensures r.Ok? <==> 0 < maximumRequests && 0.0 < windowSeconds && 0 < maximumClients
      ensures r.Ok? ==> fresh(r.value) && r.value.windows == map[] && ValidPolicy(r.value.policy)
      ensures r.Ok? ==> r.value.policy == Policy(maximumRequests, windowSeconds, maximumClients)
    {
      if maximumRequests <= 0 {
        return Err("monitor rate-limit maximum requests must be positive");
      }
      if windowSeconds <= 0.0 {
        return Err("monitor rate-limit window must be positive");
      }
      if maximumClients <= 0 {
        return Err("monitor rate-limit maximum clients must be positive");
      }
      var limiter := new InMemoryMonitorRateLimiter(Policy(maximumRequests, windowSeconds, maximumClients));
      return Ok(limiter);
    }

    method FindLeastRecent() returns (oldest: string)
      requires windows != map[]
      ensures LeastRecent(windows, oldest)
    {
      var left := windows.Keys;
      oldest :| oldest in left;
      left := left - {oldest};
      while left != {}
        invariant left <= windows.Keys && oldest in windows
        invariant forall k :: k in windows.Keys - left ==> windows[oldest].lastSeen <= windows[k].lastSeen
        decreases left
      {
        var k :| k in left;
        if windows[k].lastSeen < windows[oldest].lastSeen {
          oldest := k;
        }
        left := left - {k};
      }
    }

    /** `allow`, with the clock reading as an argument. */
    method Allow(clientKey: string, now: real) returns (v: Verdict)
      requires ValidPolicy(policy)
      modifies this
      ensures var client := if 1 <= |clientKey| <= 255 then clientKey else "unknown";
              && Allows(policy, old(windows), client, now, windows, v)
              && (v.admitted <==>
                    || client !in old(windows) || now < old(windows)[client].startedAt
                    || old(windows)[client].startedAt + policy.windowSeconds <= now
                    || old(windows)[client].count < policy.maximumRequests)
              && client in windows && windows[client].lastSeen == now
    {
      var client := ClientOf(clientKey);
      if client !in windows || Expired(policy, windows[client], now) {
        var evicted := None;
        if client !in windows && policy.maximumClients <= |windows| {
          var oldest := FindLeastRecent();
          windows := windows - {oldest};
          evicted := Some(oldest);
        }
        windows := windows[client := Window(now, 1, now)];
        return Verdict(true, evicted);
      }
      var current := windows[client];
      if policy.maximumRequests <= current.count {
        windows := windows[client := Window(current.startedAt, current.count, now)];
        return Verdict(false, None);
      }
      windows := windows[client := Window(current.startedAt, current.count + 1, now)];
      return Verdict(true, None);
    }
  }

  // ------------------------------------------------------------------ request traces

  datatype Event = Event(client: string, now: real, verdict: Verdict)

  /** `tables[i]` is the table before event `i`; the limiter starts empty and the clock never runs
      backwards. */
  ghost predicate Trace(p: Policy, tables: seq<Table>, events: seq<Event>) {
    && |tables| == |events| + 1 && tables[0] == map[]
    && (forall i :: 0 <= i < |events| ==>
          Allows(p, tables[i], events[i].client, events[i].now, tables[i + 1], events[i].verdict))
    && (forall i, j :: 0 <= i < j < |events| ==> events[i].now <= events[j].now)
  }

  predicate CountsIn(e: Event, client: string, lo: real, hi: real) {
    e.client == client && e.verdict.admitted && lo <= e.now < hi
  }

  /** Requests of `client` admitted at times in the half-open interval [lo, hi). */
  function Admitted(events: seq<Event>, client: string, lo: real, hi: real): nat {
    if events == [] then 0
    else Admitted(events[..|events| - 1], client, lo, hi)
         + if CountsIn(events[|events| - 1], client, lo, hi) then 1 else 0
  }

  lemma {:induction false} AdmittedSplit(events: seq<Event>, client: string, lo: real, mid: real, hi: real)
    requires lo <= mid <= hi
    ensures Admitted(events, client, lo, hi) == Admitted(events, client, lo, mid) + Admitted(events, client, mid, hi)
  {
    if events != [] { AdmittedSplit(events[..|events| - 1], client, lo, mid, hi); }
  }

  lemma {:induction false} NoneInEmpty(events: seq<Event>, client: string, lo: real, hi: real)
    requires hi <= lo
    ensures Admitted(events, client, lo, hi) == 0
  {
    if events != [] { NoneInEmpty(events[..|events| - 1], client, lo, hi); }
  }

  /** Every stored window is within budget and was not started after `clock`. */
  ghost predicate WithinBudget(p: Policy, t: Table, clock: real) {
    forall k :: k in t ==> 1 <= t[k].count <= p.maximumRequests && t[k].startedAt <= clock
  }

  lemma {:induction false} TraceWithinBudget(p: Policy, tables: seq<Table>, events: seq<Event>, i: nat, clock: real)
    requires ValidPolicy(p) && Trace(p, tables, events) && i <= |events|
    requires forall j :: 0 <= j < i ==> events[j].now <= clock
    ensures WithinBudget(p, tables[i], clock)
  {
    if 0 < i { TraceWithinBudget(p, tables, events, i - 1, clock); }
  }

  lemma {:induction false} UpdatedSize(t: Table, client: string, w: Window)
    ensures |t[client := w]| == if client in t then |t| else |t| + 1
  {
    assert t[client := w].Keys == t.Keys + {client};
  }

  lemma {:induction false} RemovedSize(t: Table, client: string)
    requires client in t
    ensures |t - {client}| == |t| - 1
  {
    assert (t - {client}).Keys == t.Keys - {client};
  }

  lemma {:induction false} StepBounded(p: Policy, t: Table, client: string, now: real, t': Table, v: Verdict)
    requires ValidPolicy(p) && |t| <= p.maximumClients && Allows(p, t, client, now, t', v)
    ensures |t'| <= p.maximumClients
  {
    if client in t {
      UpdatedSize(t, client, t'[client]);
    } else if v.evicted.Some? {
      RemovedSize(t, v.evicted.value);
      UpdatedSize(t - {v.evicted.value}, client, Window(now, 1, now));
    } else {
      UpdatedSize(t, client, Window(now, 1, now));
    }
  }

  /** The table never holds more than the configured number of clients. */
  lemma {:induction false} TableBounded(p: Policy, tables: seq<Table>, events: seq<Event>, i: nat)
    requires ValidPolicy(p) && Trace(p, tables, events) && i <= |events|
    ensures |tables[i]| <= p.maximumClients
  {
    if 0 < i {
      TableBounded(p, tables, events, i - 1);
      var e := events[i - 1];
      StepBounded(p, tables[i - 1], e.client, e.now, tables[i], e.verdict);
    }
  }

  /** Admissions of `client` in the interval of length `width` that starts at `lo`. */
  function AdmittedWithin(events: seq<Event>, client: string, lo: real, width: real): nat {
    Admitted(events, client, lo, lo + width)
  }

  /** The admissions of one client, seen from its current window: the window accounts for everything
      since it started, nothing was admitted after it ends, the stretch of one window length before it
      holds at most one budget, and any such stretch at all holds at most two. */
  ghost predicate Budgeted(p: Policy, t: Table, seen: seq<Event>, client: string) {
    && (client !in t ==> forall lo: real, hi: real :: Admitted(seen, client, lo, hi) == 0)
    && (client in t ==> InWindow(p, t[client], seen, client))
    && (forall lo: real :: AdmittedWithin(seen, client, lo, p.windowSeconds) <= 2 * p.maximumRequests)
  }

  ghost predicate InWindow(p: Policy, w: Window, seen: seq<Event>, client: string) {
    && (forall hi: real :: Admitted(seen, client, w.startedAt, hi) <= w.count)
    && (forall lo: real, hi: real :: w.startedAt + p.windowSeconds <= lo ==> Admitted(seen, client, lo, hi) == 0)
    && (forall lo: real :: w.startedAt - p.windowSeconds < lo ==>
          Admitted(seen, client, lo, w.startedAt) <= p.maximumRequests)
  }

  lemma {:induction false} NothingSeen(client: string)
    ensures forall lo: real, hi: real :: Admitted([], client, lo, hi) == 0
  {
  }

  /** A request that is not an admission of `client` changes none of its counts. */
  lemma {:induction false} IrrelevantEvent(seen: seq<Event>, e: Event, client: string, lo: real, hi: real)
    requires !CountsIn(e, client, lo, hi)
    ensures Admitted(seen + [e], client, lo, hi) == Admitted(seen, client, lo, hi)
  {
    assert (seen + [e])[..|seen|] == seen;
  }

  lemma {:induction false} CountedEvent(seen: seq<Event>, e: Event, client: string, lo: real, hi: real)
    requires CountsIn(e, client, lo, hi)
    ensures Admitted(seen + [e], client, lo, hi) == Admitted(seen, client, lo, hi) + 1
  {
    assert (seen + [e])[..|seen|] == seen;
  }

  lemma {:induction false} AtMostOneMore(seen: seq<Event>, e: Event, client: string, lo: real, hi: real)
    ensures Admitted(seen, client, lo, hi) <= Admitted(seen + [e], client, lo, hi) <= Admitted(seen, client, lo, hi) + 1
  {
    assert (seen + [e])[..|seen|] == seen;
  }

  /** Narrowing an interval from the left cannot raise its count. */
  lemma {:induction false} Narrower(seen: seq<Event>, client: string, lo: real, lo': real, hi: real)
    requires lo <= lo'
    ensures Admitted(seen, client, lo', hi) <= Admitted(seen, client, lo, hi)
  {
    if lo' <= hi { AdmittedSplit(seen, client, lo, lo', hi); } else { NoneInEmpty(seen, client, lo', hi); }
  }

  lemma {:induction false} OtherEventKeepsBudget(
      p: Policy, t: Table, t': Table, seen: seq<Event>, e: Event, client: string)
    requires Budgeted(p, t, seen, client) && (e.client == client ==> !e.verdict.admitted)
    requires client in t <==> client in t'
    requires client in t ==> t'[client].startedAt == t[client].startedAt && t'[client].count == t[client].count
    ensures Budgeted(p, t', seen + [e], client)
  {
    forall lo: real, hi: real ensures Admitted(seen + [e], client, lo, hi) == Admitted(seen, client, lo, hi) {
      IrrelevantEvent(seen, e, client, lo, hi);
    }
    forall lo: real ensures AdmittedWithin(seen + [e], client, lo, p.windowSeconds) <= 2 * p.maximumRequests {
      assert AdmittedWithin(seen, client, lo, p.windowSeconds) <= 2 * p.maximumRequests;
    }
  }

  /** The request opens the client's first window since it was last forgotten. */
  lemma {:induction false} FirstKeepsBudget(p: Policy, t: Table, t': Table, seen: seq<Event>, e: Event)
    requires ValidPolicy(p) && Budgeted(p, t, seen, e.client) && e.client !in t
    requires e.client in t' && t'[e.client].startedAt == e.now && t'[e.client].count == 1
    ensures Budgeted(p, t', seen + [e], e.client)
  {
    forall lo: real, hi: real
      ensures Admitted(seen + [e], e.client, lo, hi) <= 1
      ensures e.now < lo ==> Admitted(seen + [e], e.client, lo, hi) == 0
    {
      AtMostOneMore(seen, e, e.client, lo, hi);
      if e.now < lo { IrrelevantEvent(seen, e, e.client, lo, hi); }
    }
  }

  /** The request starts a new window because the old one is over. */
  lemma {:induction false} RenewalKeepsBudget(p: Policy, t: Table, t': Table, seen: seq<Event>, e: Event)
    requires ValidPolicy(p) && Budgeted(p, t, seen, e.client) && e.client in t && e.verdict.admitted
    requires t[e.client].count <= p.maximumRequests && t[e.client].startedAt + p.windowSeconds <= e.now
    requires e.client in t' && t'[e.client].startedAt == e.now && t'[e.client].count == 1
    ensures Budgeted(p, t', seen + [e], e.client)
  {
    var c, w := e.client, t[e.client];
    forall hi: real ensures Admitted(seen + [e], c, e.now, hi) <= 1 {
      AtMostOneMore(seen, e, c, e.now, hi);
    }
    forall lo: real, hi: real | e.now + p.windowSeconds <= lo ensures Admitted(seen + [e], c, lo, hi) == 0 {
      IrrelevantEvent(seen, e, c, lo, hi);
    }
    forall lo: real | e.now - p.windowSeconds < lo
      ensures Admitted(seen, c, lo, e.now) <= p.maximumRequests
      ensures Admitted(seen + [e], c, lo, e.now) == Admitted(seen, c, lo, e.now)
    {
      IrrelevantEvent(seen, e, c, lo, e.now);
      Narrower(seen, c, w.startedAt, lo, e.now);
    }
    forall lo: real ensures AdmittedWithin(seen + [e], c, lo, p.windowSeconds) <= 2 * p.maximumRequests {
      assert AdmittedWithin(seen, c, lo, p.windowSeconds) <= 2 * p.maximumRequests;
      var hi := lo + p.windowSeconds;
      if CountsIn(e, c, lo, hi) {
        AdmittedSplit(seen, c, lo, e.now, hi);
        CountedEvent(seen, e, c, lo, hi);
      } else {
        IrrelevantEvent(seen, e, c, lo, hi);
      }
    }
  }

  /** The request is admitted into the current window. */
  lemma {:induction false} AdmissionKeepsBudget(p: Policy, t: Table, t': Table, seen: seq<Event>, e: Event)
    requires ValidPolicy(p) && Budgeted(p, t, seen, e.client) && e.client in t && e.verdict.admitted
    requires t[e.client].startedAt <= e.now < t[e.client].startedAt + p.windowSeconds
    requires t[e.client].count < p.maximumRequests
    requires e.client in t' && t'[e.client].startedAt == t[e.client].startedAt
    requires t'[e.client].count == t[e.client].count + 1
    ensures Budgeted(p, t', seen + [e], e.client)
  {
    var c, w := e.client, t[e.client];
    forall hi: real ensures Admitted(seen + [e], c, w.startedAt, hi) <= w.count + 1 {
      AtMostOneMore(seen, e, c, w.startedAt, hi);
    }
    forall lo: real, hi: real | w.startedAt + p.windowSeconds <= lo ensures Admitted(seen + [e], c, lo, hi) == 0 {
      IrrelevantEvent(seen, e, c, lo, hi);
    }
    forall lo: real | w.startedAt - p.windowSeconds < lo
      ensures Admitted(seen + [e], c, lo, w.startedAt) <= p.maximumRequests
    {
      IrrelevantEvent(seen, e, c, lo, w.startedAt);
    }
    forall lo: real ensures AdmittedWithin(seen + [e], c, lo, p.windowSeconds) <= 2 * p.maximumRequests {
      assert AdmittedWithin(seen, c, lo, p.windowSeconds) <= 2 * p.maximumRequests;
      var hi := lo + p.windowSeconds;
      if !CountsIn(e, c, lo, hi) {
        IrrelevantEvent(seen, e, c, lo, hi);
      } else {
        CountedEvent(seen, e, c, lo, hi);
        if lo < w.startedAt {
          AdmittedSplit(seen, c, lo, w.startedAt, hi);
        } else {
          Narrower(seen, c, w.startedAt, lo, hi);
        }
      }
    }
  }

  lemma {:induction false} StepKeepsBudget(p: Policy, t: Table, e: Event, t': Table, seen: seq<Event>, client: string)
    requires ValidPolicy(p) && WithinBudget(p, t, e.now) && Budgeted(p, t, seen, client)
    requires Allows(p, t, e.client, e.now, t', e.verdict) && e.verdict.evicted != Some(client)
    ensures Budgeted(p, t', seen + [e], client)
  {
    if e.client != client || !e.verdict.admitted {
      OtherEventKeepsBudget(p, t, t', seen, e, client);
    } else if client !in t {
      FirstKeepsBudget(p, t, t', seen, e);
    } else if Expired(p, t[client], e.now) {
      RenewalKeepsBudget(p, t, t', seen, e);
    } else {
      AdmissionKeepsBudget(p, t, t', seen, e);
    }
  }

  /** No event of the stretch pushed `client` out of the table. */
  ghost predicate Retained(events: seq<Event>, client: string) {
    forall i :: 0 <= i < |events| ==> events[i].verdict.evicted != Some(client)
  }

  lemma {:induction false} RetainedBefore(events: seq<Event>, e: Event, client: string)
    requires Retained(events + [e], client)
    ensures Retained(events, client) && e.verdict.evicted != Some(client)
  {
    assert (events + [e])[|events|] == e;
    forall k | 0 <= k < |events| ensures events[k].verdict.evicted != Some(client) {
      assert (events + [e])[k] == events[k];
    }
  }

  lemma {:induction false} StretchBudgeted(
      p: Policy, tables: seq<Table>, events: seq<Event>, i: nat, j: nat, client: string)
    requires ValidPolicy(p) && Trace(p, tables, events) && i <= j <= |events|
    requires Retained(events[i..j], client)
    ensures Budgeted(p, tables[j], events[i..j], client)
    decreases j
  {
    if i == j {
      NothingSeen(client);
      assert events[i..j] == [];
    } else {
      var e := events[j - 1];
      assert events[i..j] == events[i..j - 1] + [e];
      RetainedBefore(events[i..j - 1], e, client);
      StretchBudgeted(p, tables, events, i, j - 1, client);
      TraceWithinBudget(p, tables, events, j - 1, e.now);
      StepKeepsBudget(p, tables[j - 1], e, tables[j], events[i..j - 1], client);
    }
  }

  /** Between evictions a client is admitted at most twice its budget in any stretch of one window
      length, and at most its budget in its current window. */
  lemma {:induction false} AdmissionsBounded(
      p: Policy, tables: seq<Table>, events: seq<Event>, i: nat, j: nat, client: string, lo: real)
    requires ValidPolicy(p) && Trace(p, tables, events) && i <= j <= |events|
    requires Retained(events[i..j], client)
    ensures Admitted(events[i..j], client, lo, lo + p.windowSeconds) <= 2 * p.maximumRequests
    ensures client in tables[j] ==>
              var start := tables[j][client].startedAt;
              Admitted(events[i..j], client, start, start + p.windowSeconds) <= p.maximumRequests
  {
    StretchBudgeted(p, tables, events, i, j, client);
    assert AdmittedWithin(events[i..j], client, lo, p.windowSeconds) <= 2 * p.maximumRequests;
    if client in tables[j] && 0 < j {
      TraceWithinBudget(p, tables, events, j, events[j - 1].now);
    }
  }

  /** The stored count is exactly what the current window has admitted. */
  ghost predicate Exact(p: Policy, t: Table, seen: seq<Event>, client: string) {
    client in t ==> AdmittedWithin(seen, client, t[client].startedAt, p.windowSeconds) == t[client].count
  }

  lemma {:induction false} StepExact(p: Policy, t: Table, e: Event, t': Table, seen: seq<Event>, client: string)
    requires ValidPolicy(p) && WithinBudget(p, t, e.now) && Budgeted(p, t, seen, client) && Exact(p, t, seen, client)
    requires Allows(p, t, e.client, e.now, t', e.verdict) && e.verdict.evicted != Some(client)
    ensures Exact(p, t', seen + [e], client)
  {
    if client in t' {
      var lo, hi := t'[client].startedAt, t'[client].startedAt + p.windowSeconds;
      if e.client == client && e.verdict.admitted {
        CountedEvent(seen, e, client, lo, hi);
      } else {
        IrrelevantEvent(seen, e, client, lo, hi);
      }
    }
  }

  lemma {:induction false} StretchExact(
      p: Policy, tables: seq<Table>, events: seq<Event>, i: nat, j: nat, client: string)
    requires ValidPolicy(p) && Trace(p, tables, events) && i <= j <= |events|
    requires client !in tables[i] && Retained(events[i..j], client)
    ensures Exact(p, tables[j], events[i..j], client)
    decreases j
  {
    if i < j {
      var e := events[j - 1];
      assert events[i..j] == events[i..j - 1] + [e];
      RetainedBefore(events[i..j - 1], e, client);
      StretchExact(p, tables, events, i, j - 1, client);
      StretchBudgeted(p, tables, events, i, j - 1, client);
      TraceWithinBudget(p, tables, events, j - 1, e.now);
      StepExact(p, tables[j - 1], e, tables[j], events[i..j - 1], client);
    }
  }

  /** A request is refused only when its window has already admitted the whole budget. */
  lemma {:induction false} RefusedOnlyWhenFull(p: Policy, tables: seq<Table>, events: seq<Event>, i: nat, j: nat)
    requires ValidPolicy(p) && Trace(p, tables, events) && i <= j < |events| && !events[j].verdict.admitted
    requires events[j].client !in tables[i] && Retained(events[i..j], events[j].client)
    ensures events[j].client in tables[j]
    ensures var start := tables[j][events[j].client].startedAt;
            && start <= events[j].now < start + p.windowSeconds
            && Admitted(events[i..j], events[j].client, start, start + p.windowSeconds) == p.maximumRequests
  {
    StretchExact(p, tables, events, i, j, events[j].client);
    TraceWithinBudget(p, tables, events, j, events[j].now);
    assert Allows(p, tables[j], events[j].client, events[j].now, tables[j + 1], events[j].verdict);
  }

  lemma {:induction false} TraceSnoc(p: Policy, tables: seq<Table>, events: seq<Event>, e: Event, t': Table)
    requires Trace(p, tables, events) && Allows(p, tables[|events|], e.client, e.now, t', e.verdict)
    requires forall i :: 0 <= i < |events| ==> events[i].now <= e.now
    ensures Trace(p, tables + [t'], events + [e])
  {
  }

  // ------------------------------------------------------------------ who can be evicted

  ghost predicate OnlyClients(events: seq<Event>, clients: set<string>) {
    forall i :: 0 <= i < |events| ==> events[i].client in clients
  }

  lemma {:induction false} StepEvictsNobody(p: Policy, t: Table, e: Event, t': Table, clients: set<string>)
    requires Allows(p, t, e.client, e.now, t', e.verdict) && e.client in clients
    requires t.Keys <= clients && |clients| <= p.maximumClients
    ensures e.verdict.evicted.None? && t'.Keys <= clients
  {
    if e.client !in t {
      Strictly(t.Keys, clients, e.client);
    }
  }

  lemma {:induction false} Strictly(a: set<string>, b: set<string>, x: string)
    requires a <= b && x in b && x !in a
    ensures |a| < |b|
  {
    Subset(a, b - {x});
  }

  lemma {:induction false} Subset(a: set<string>, b: set<string>)
    requires a <= b
    ensures |a| <= |b|
  {
    if a != {} {
      var x :| x in a;
      Subset(a - {x}, b - {x});
    }
  }

  lemma {:induction false} FewClientsKept(
      p: Policy, tables: seq<Table>, events: seq<Event>, clients: set<string>, i: nat)
    requires Trace(p, tables, events) && OnlyClients(events, clients) && |clients| <= p.maximumClients && i <= |events|
    ensures tables[i].Keys <= clients
    ensures forall j :: 0 <= j < i ==> events[j].verdict.evicted.None?
  {
    if 0 < i {
      FewClientsKept(p, tables, events, clients, i - 1);
      StepEvictsNobody(p, tables[i - 1], events[i - 1], tables[i], clients);
    }
  }

  /** While no more clients ask than the table holds, nobody is evicted and both bounds hold outright, over
      the whole trace: at most twice the budget in any stretch of one window length, and at most the budget
      in the current window. */
  lemma {:induction false} FewClientsBounded(
      p: Policy, tables: seq<Table>, events: seq<Event>, clients: set<string>, client: string, lo: real)
    requires ValidPolicy(p) && Trace(p, tables, events)
    requires OnlyClients(events, clients) && |clients| <= p.maximumClients
    ensures forall i :: 0 <= i < |events| ==> events[i].verdict.evicted.None?
    ensures Admitted(events, client, lo, lo + p.windowSeconds) <= 2 * p.maximumRequests
    ensures client in tables[|events|] ==>
              var start := tables[|events|][client].startedAt;
              Admitted(events, client, start, start + p.windowSeconds) <= p.maximumRequests
  {
    FewClientsKept(p, tables, events, clients, |events|);
    assert events[0..|events|] == events;
    AdmissionsBounded(p, tables, events, 0, |events|, client, lo);
  }

  // ------------------------------------------------------------------ one client too many

  /** The clients in turn, over and over. */
  function InTurn(names: seq<string>, j: nat): string
    requires names != []
  {
    if j < |names| then names[j] else InTurn(names, j - |names|)
  }

  ghost predicate AllDifferent(names: seq<string>) {
    forall i, j :: 0 <= i < j < |names| ==> names[i] != names[j]
  }

  /** Within one turn no client comes twice. */
  lemma {:induction false} TurnsDiffer(names: seq<string>, i: nat, j: nat)
    requires names != [] && AllDifferent(names) && i < j < i + |names|
    ensures InTurn(names, i) != InTurn(names, j)
    decreases j
  {
    var n := |names|;
    if n <= i {
      TurnsDiffer(names, i - n, j - n);
    } else if n <= j {
      assert InTurn(names, j) == names[j - n];
    }
  }

  /** Times that increase strictly and stay within one window. */
  ghost predicate Within(p: Policy, at: nat -> real, n: nat) {
    && (forall i, j :: 0 <= i < j < n ==> at(i) < at(j))
    && (forall i :: 0 <= i < n ==> at(i) < at(0) + p.windowSeconds)
  }

  function Opening(at: real): Window { Window(at, 1, at) }

  /** Request `j` is one of the last `m` before request `k`. */
  predicate Lately(m: nat, k: nat, j: nat) { j < k <= j + m }

  /** Every recent client is in the table, in the window it opened then. */
  ghost predicate HoldsRecent(t: Table, names: seq<string>, at: nat -> real, m: nat, k: nat)
    requires names != []
  {
    forall j: nat :: Lately(m, k, j) ==> InTurn(names, j) in t && t[InTurn(names, j)] == Opening(at(j))
  }

  ghost predicate OnlyRecent(t: Table, names: seq<string>, m: nat, k: nat)
    requires names != []
  {
    forall c :: c in t ==> exists j: nat :: Lately(m, k, j) && InTurn(names, j) == c
  }

  /** The table holds exactly the clients of the last `m` requests. */
  ghost predicate Recent(t: Table, names: seq<string>, at: nat -> real, m: nat, k: nat)
    requires names != []
  {
    |t| == (if k < m then k else m) && HoldsRecent(t, names, at, m, k) && OnlyRecent(t, names, m, k)
  }

  function RequestAt(names: seq<string>, at: nat -> real, m: nat, k: nat): Event
    requires names != []
  {
    Event(InTurn(names, k), at(k), Verdict(true, if k < m then None else Some(InTurn(names, k - m))))
  }

  function TableAfter(t: Table, e: Event): Table {
    (if e.verdict.evicted.Some? then t - {e.verdict.evicted.value} else t)[e.client := Opening(e.now)]
  }

  /** The oldest request's client is the one to go. */
  lemma {:induction false} OldestGoes(t: Table, names: seq<string>, at: nat -> real, m: nat, k: nat)
    requires names != [] && Recent(t, names, at, m, k) && 0 < m <= k
    requires forall i, j :: 0 <= i < j < k ==> at(i) < at(j)
    ensures LeastRecent(t, InTurn(names, k - m))
  {
    assert Lately(m, k, k - m);
    forall c | c in t ensures t[InTurn(names, k - m)].lastSeen <= t[c].lastSeen {
      var j: nat :| Lately(m, k, j) && InTurn(names, j) == c;
    }
  }

  lemma {:induction false} NextIsNew(t: Table, names: seq<string>, m: nat, k: nat)
    requires |names| == m + 1 && AllDifferent(names) && OnlyRecent(t, names, m, k)
    ensures InTurn(names, k) !in t
  {
    if InTurn(names, k) in t {
      var j: nat :| Lately(m, k, j) && InTurn(names, j) == InTurn(names, k);
      TurnsDiffer(names, j, k);
    }
  }

  lemma {:induction false} StepSize(t: Table, names: seq<string>, at: nat -> real, m: nat, k: nat)
    requires |names| == m + 1 && 0 < m && AllDifferent(names) && Recent(t, names, at, m, k)
    ensures |TableAfter(t, RequestAt(names, at, m, k))| == if k + 1 < m then k + 1 else m
  {
    var e := RequestAt(names, at, m, k);
    NextIsNew(t, names, m, k);
    if m <= k {
      var out := InTurn(names, k - m);
      assert Lately(m, k, k - m);
      RemovedSize(t, out);
      UpdatedSize(t - {out}, e.client, Opening(e.now));
    } else {
      UpdatedSize(t, e.client, Opening(e.now));
    }
  }

  lemma {:induction false} StepHolds(t: Table, names: seq<string>, at: nat -> real, m: nat, k: nat)
    requires |names| == m + 1 && AllDifferent(names) && HoldsRecent(t, names, at, m, k)
    ensures HoldsRecent(TableAfter(t, RequestAt(names, at, m, k)), names, at, m, k + 1)
  {
    var t' := TableAfter(t, RequestAt(names, at, m, k));
    forall j: nat | Lately(m, k + 1, j) ensures InTurn(names, j) in t' && t'[InTurn(names, j)] == Opening(at(j)) {
      if j < k {
        assert Lately(m, k, j);
        TurnsDiffer(names, j, k);
        if m <= k { TurnsDiffer(names, k - m, j); }
      }
    }
  }

  lemma {:induction false} StepOnly(t: Table, names: seq<string>, at: nat -> real, m: nat, k: nat)
    requires names != [] && 0 < m && OnlyRecent(t, names, m, k)
    ensures OnlyRecent(TableAfter(t, RequestAt(names, at, m, k)), names, m, k + 1)
  {
    var e := RequestAt(names, at, m, k);
    var t' := TableAfter(t, e);
    forall c | c in t' ensures exists j: nat :: Lately(m, k + 1, j) && InTurn(names, j) == c {
      if c == e.client {
        assert Lately(m, k + 1, k);
      } else {
        var j: nat :| Lately(m, k, j) && InTurn(names, j) == c;
        assert Lately(m, k + 1, j);
      }
    }
  }

  lemma {:induction false} RecentStep(
      t: Table, names: seq<string>, at: nat -> real, m: nat, k: nat, t': Table, next: nat)
    requires |names| == m + 1 && 0 < m && AllDifferent(names) && Recent(t, names, at, m, k)
    requires t' == TableAfter(t, RequestAt(names, at, m, k)) && next == k + 1
    ensures Recent(t', names, at, m, next)
  {
    StepSize(t, names, at, m, k);
    StepHolds(t, names, at, m, k);
    StepOnly(t, names, at, m, k);
  }

  lemma {:induction false} RequestAdmitted(p: Policy, t: Table, names: seq<string>, at: nat -> real, k: nat)
    requires ValidPolicy(p) && |names| == p.maximumClients + 1 && AllDifferent(names)
    requires Recent(t, names, at, p.maximumClients, k) && forall i, j :: 0 <= i < j < k ==> at(i) < at(j)
    ensures var e := RequestAt(names, at, p.maximumClients, k);
            Allows(p, t, e.client, e.now, TableAfter(t, e), e.verdict)
  {
    NextIsNew(t, names, p.maximumClients, k);
    if p.maximumClients <= k { OldestGoes(t, names, at, p.maximumClients, k); }
  }

  /** The first `k` requests in turn. */
  function Requests(names: seq<string>, at: nat -> real, m: nat, k: nat): (r: seq<Event>)
    requires names != []
    ensures |r| == k
  {
    if k == 0 then [] else Requests(names, at, m, k - 1) + [RequestAt(names, at, m, k - 1)]
  }

  function TableAt(names: seq<string>, at: nat -> real, m: nat, k: nat): Table
    requires names != []
  {
    if k == 0 then map[] else TableAfter(TableAt(names, at, m, k - 1), RequestAt(names, at, m, k - 1))
  }

  /** The tables before each of them and after the last. */
  function Tables(names: seq<string>, at: nat -> real, m: nat, k: nat): (r: seq<Table>)
    requires names != []
    ensures |r| == k + 1 && r[k] == TableAt(names, at, m, k)
  {
    if k == 0 then [map[]] else Tables(names, at, m, k - 1) + [TableAt(names, at, m, k)]
  }

  lemma {:induction false} RequestsAre(names: seq<string>, at: nat -> real, m: nat, k: nat, i: nat)
    requires names != [] && i < k
    ensures Requests(names, at, m, k)[i] == RequestAt(names, at, m, i)
  {
    if i < k - 1 { RequestsAre(names, at, m, k - 1, i); }
  }

  lemma {:induction false} RecentAt(names: seq<string>, at: nat -> real, m: nat, k: nat, t: Table)
    requires |names| == m + 1 && 0 < m && AllDifferent(names) && t == TableAt(names, at, m, k)
    ensures Recent(t, names, at, m, k)
    decreases k
  {
    if 0 < k {
      var before := TableAt(names, at, m, k - 1);
      RecentAt(names, at, m, k - 1, before);
      RecentStep(before, names, at, m, k - 1, t, k);
    }
  }

  /** Asking in turn is a trace in which every request is admitted. */
  lemma {:induction false} TurnsTrace(p: Policy, names: seq<string>, at: nat -> real, k: nat)
    requires ValidPolicy(p) && |names| == p.maximumClients + 1 && AllDifferent(names)
    requires forall i, j :: 0 <= i < j < k ==> at(i) < at(j)
    ensures Trace(p, Tables(names, at, p.maximumClients, k), Requests(names, at, p.maximumClients, k))
  {
    if 0 < k {
      var m, n := p.maximumClients, k - 1;
      var before := TableAt(names, at, m, n);
      TurnsTrace(p, names, at, n);
      RecentAt(names, at, m, n, before);
      RequestAdmitted(p, before, names, at, n);
      LaterThanAll(names, at, m, n);
      TraceSnoc(p, Tables(names, at, m, n), Requests(names, at, m, n), RequestAt(names, at, m, n),
                TableAt(names, at, m, k));
    }
  }

  lemma {:induction false} LaterThanAll(names: seq<string>, at: nat -> real, m: nat, n: nat)
    requires names != [] && forall i :: 0 <= i < n ==> at(i) < at(n)
    ensures forall i :: 0 <= i < n ==> Requests(names, at, m, n)[i].now <= at(n)
  {
    forall i | 0 <= i < n ensures Requests(names, at, m, n)[i].now <= at(n) {
      RequestsAre(names, at, m, n, i);
    }
  }

  /** The number of requests in `n` whole turns. */
  function Turns(names: seq<string>, n: nat): nat { if n == 0 then 0 else Turns(names, n - 1) + |names| }

  lemma {:induction false} TurnStarts(names: seq<string>, n: nat)
    requires names != []
    ensures InTurn(names, Turns(names, n)) == names[0]
  {
    if 0 < n { TurnStarts(names, n - 1); }
  }

  /** Within a turn only its first request is the first client's. */
  lemma {:induction false} CountInTurn(
      names: seq<string>, at: nat -> real, m: nat, start: nat, k: nat, lo: real, hi: real)
    requires names != [] && AllDifferent(names) && InTurn(names, start) == names[0]
    requires start < k <= start + |names| && lo <= at(start) < hi
    ensures Admitted(Requests(names, at, m, k), names[0], lo, hi)
            == Admitted(Requests(names, at, m, start), names[0], lo, hi) + 1
    decreases k
  {
    var e := RequestAt(names, at, m, k - 1);
    if k == start + 1 {
      CountedEvent(Requests(names, at, m, start), e, names[0], lo, hi);
    } else {
      CountInTurn(names, at, m, start, k - 1, lo, hi);
      TurnsDiffer(names, start, k - 1);
      IrrelevantEvent(Requests(names, at, m, k - 1), e, names[0], lo, hi);
    }
  }

  lemma {:induction false} CountTurns(names: seq<string>, at: nat -> real, m: nat, n: nat, lo: real, hi: real)
    requires names != [] && AllDifferent(names) && forall i :: 0 <= i < Turns(names, n) ==> lo <= at(i) < hi
    ensures Admitted(Requests(names, at, m, Turns(names, n)), names[0], lo, hi) == n
  {
    if 0 < n {
      var start := Turns(names, n - 1);
      CountTurns(names, at, m, n - 1, lo, hi);
      TurnStarts(names, n - 1);
      CountInTurn(names, at, m, start, start + |names|, lo, hi);
    }
  }

  lemma {:induction false} CountWithin(p: Policy, names: seq<string>, at: nat -> real, m: nat, n: nat, k: nat)
    requires names != [] && AllDifferent(names) && k == Turns(names, n) && Within(p, at, k)
    ensures Admitted(Requests(names, at, m, k), names[0], at(0), at(0) + p.windowSeconds) == n
  {
    forall i | 0 <= i < k ensures at(0) <= at(i) < at(0) + p.windowSeconds {
      assert 0 < i ==> at(0) < at(i);
    }
    CountTurns(names, at, m, n, at(0), at(0) + p.windowSeconds);
  }

  lemma {:induction false} AllAdmitted(names: seq<string>, at: nat -> real, m: nat, k: nat)
    requires names != []
    ensures forall i :: 0 <= i < k ==> Requests(names, at, m, k)[i].verdict.admitted
  {
    forall i | 0 <= i < k ensures Requests(names, at, m, k)[i].verdict.admitted {
      RequestsAre(names, at, m, k, i);
    }
  }

  /** One client more than the table holds defeats every bound: when they ask in turn, at any strictly
      increasing times within one window, every request is admitted, and so the first client is admitted
      once a turn, however many turns there are. */
  lemma {:induction false} EvictionRestoresBudget(
      p: Policy, names: seq<string>, at: nat -> real, n: nat, tables: seq<Table>, events: seq<Event>)
    requires ValidPolicy(p) && |names| == p.maximumClients + 1 && AllDifferent(names) && Within(p, at, Turns(names, n))
    requires tables == Tables(names, at, p.maximumClients, Turns(names, n))
    requires events == Requests(names, at, p.maximumClients, Turns(names, n))
    ensures Trace(p, tables, events)
    ensures forall i :: 0 <= i < |events| ==> events[i].verdict.admitted
    ensures Admitted(events, names[0], at(0), at(0) + p.windowSeconds) == n
  {
    TurnsTrace(p, names, at, Turns(names, n));
    AllAdmitted(names, at, p.maximumClients, Turns(names, n));
    CountWithin(p, names, at, p.maximumClients, n, Turns(names, n));
  }
}
