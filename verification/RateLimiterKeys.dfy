/** The rate limiter's bounds in terms of the keys its requests are made with (`maais/api/health.py`). */
module RateLimiterKeys {
  import opened RateLimiter

  /** A request under the key it was made with. */
  datatype Ask = Ask(key: string, now: real, verdict: Verdict)

  /** Keys that are counted together, as one client without a name. */
  predicate Nameless(key: string) { key == "" || 255 < |key| || key == "unknown" }

  /** Two keys are counted together exactly when they are equal or both nameless. */
  lemma {:induction false} CountedTogetherIff(a: string, b: string)
    ensures ClientOf(a) == ClientOf(b) <==> a == b || (Nameless(a) && Nameless(b))
  {
    assert |"unknown"| == 7;
  }

  function EventsOf(asks: seq<Ask>): (r: seq<Event>)
    ensures |r| == |asks|
    ensures forall i :: 0 <= i < |asks| ==> r[i] == Event(ClientOf(asks[i].key), asks[i].now, asks[i].verdict)
  {
    seq(|asks|, i requires 0 <= i < |asks| => Event(ClientOf(asks[i].key), asks[i].now, asks[i].verdict))
  }

  /** Requests made with this very key that were admitted at times in the half-open interval [lo, hi). */
  function AdmittedFor(asks: seq<Ask>, key: string, lo: real, hi: real): nat {
    if asks == [] then 0
    else
      var n := |asks| - 1;
      AdmittedFor(asks[..n], key, lo, hi)
      + if asks[n].key == key && asks[n].verdict.admitted && lo <= asks[n].now < hi then 1 else 0
  }

  /** A named key has its own count; a nameless one is part of the common count. */
  lemma {:induction false} OwnCount(asks: seq<Ask>, key: string, lo: real, hi: real)
    ensures AdmittedFor(asks, key, lo, hi) <= Admitted(EventsOf(asks), ClientOf(key), lo, hi)
    ensures !Nameless(key) ==> AdmittedFor(asks, key, lo, hi) == Admitted(EventsOf(asks), key, lo, hi)
  {
    if asks != [] {
      var n := |asks| - 1;
      OwnCount(asks[..n], key, lo, hi);
      assert EventsOf(asks)[..n] == EventsOf(asks[..n]);
      CountedTogetherIff(asks[n].key, key);
      assert ClientOf(key) == key || Nameless(key);
    }
  }

  lemma {:induction false} ImageSmaller(keys: set<string>)
    ensures |set k | k in keys :: ClientOf(k)| <= |keys|
  {
    if keys != {} {
      var x :| x in keys;
      ImageSmaller(keys - {x});
      var rest := set k | k in keys - {x} :: ClientOf(k);
      assert (set k | k in keys :: ClientOf(k)) == rest + {ClientOf(x)};
    }
  }

  /** The bounds in terms of the keys the requests were made with: while no more keys ask than the table holds,
      every key is admitted at most twice its budget in any stretch of one window length. */
  lemma {:induction false} FewKeysBounded(
      p: Policy, tables: seq<Table>, asks: seq<Ask>, keys: set<string>, key: string, lo: real)
    requires ValidPolicy(p) && Trace(p, tables, EventsOf(asks)) && |keys| <= p.maximumClients
    requires forall i :: 0 <= i < |asks| ==> asks[i].key in keys
    ensures AdmittedFor(asks, key, lo, lo + p.windowSeconds) <= 2 * p.maximumRequests
    ensures forall i :: 0 <= i < |asks| ==> asks[i].verdict.evicted.None?
  {
    var clients := set k | k in keys :: ClientOf(k);
    ImageSmaller(keys);
    var events := EventsOf(asks);
    forall i | 0 <= i < |events| ensures events[i].client in clients {
      assert asks[i].key in keys;
    }
    FewClientsBounded(p, tables, events, clients, ClientOf(key), lo);
    OwnCount(asks, key, lo, lo + p.windowSeconds);
    forall i | 0 <= i < |asks| ensures asks[i].verdict.evicted.None? {
      assert events[i].verdict == asks[i].verdict;
    }
  }
}
