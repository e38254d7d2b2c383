/** Calibration of predicted probabilities against outcomes (`maais/analytics/research.py`). */
module Calibration {
  import opened Results
  import opened Sorting
  import opened Sums
  import opened Research

  datatype Counterfactual = Counterfactual(
    status: string, hypotheticalPnl: Option<real>, consensus: Option<real>, agents: map<string, real>)

  /** A closed allocation, labelled by its gross P&L, or a resolved counterfactual. */
  datatype Observation = Observation(pnl: real, consensus: Option<real>, agents: map<string, real>)

  datatype Sample = Sample(probability: real, outcome: real)

  datatype Score = Score(samples: nat, brier: Option<real>, meanProbability: Option<real>, winRate: Option<real>)

  function Label(pnl: real): real { if pnl > 0.0 then 1.0 else 0.0 }

  /** What one result contributes to the sample of one name.  An agent that is itself called
      "consensus" adds to the consensus sample. */
  function SamplesFrom(name: string, r: Observation): seq<Sample> {
    (if name == "consensus" && r.consensus.Some? then [Sample(r.consensus.value, Label(r.pnl))] else [])
    + (if name in r.agents then [Sample(r.agents[name], Label(r.pnl))] else [])
  }

  function SamplesFor(name: string, results: seq<Observation>): seq<Sample> {
    if results == [] then []
    else SamplesFor(name, results[..|results| - 1]) + SamplesFrom(name, results[|results| - 1])
  }

  function Probability(s: Sample): real { s.probability }
  function Outcome(s: Sample): real { s.outcome }
  function Error(s: Sample): real { s.probability - s.outcome }
  function SquaredError(s: Sample): real { Error(s) * Error(s) }

  function MeanOf(f: Sample -> real, s: seq<Sample>): Option<real> {
    if s == [] then None else Some(SumBy(f, s) / |s| as real)
  }

  function ScoreOf(s: seq<Sample>): Score {
    Score(|s|, MeanOf(SquaredError, s), MeanOf(Probability, s), MeanOf(Outcome, s))
  }

  type Predictions = map<string, seq<Sample>>

  function Held(p: Predictions, name: string): seq<Sample> { if name in p then p[name] else [] }

  /** No name is ever recorded without a sample. */
  ghost predicate Records(p: Predictions, results: seq<Observation>) {
    && (forall name: string :: Held(p, name) == SamplesFor(name, results))
    && (forall name :: name in p ==> p[name] != [])
  }

  /** One more sample for every agent of a result. */
  method AddAgents(p: Predictions, agents: map<string, real>, won: real) returns (q: Predictions)
    requires forall name :: name in p ==> p[name] != []
    ensures forall name :: name in q ==> q[name] != []
    ensures forall name: string ::
      Held(q, name) == if name in agents then Held(p, name) + [Sample(agents[name], won)] else Held(p, name)
  {
    q := p;
    var names := agents.Keys;
    while names != {}
      invariant names <= agents.Keys
      invariant forall name :: name in q ==> q[name] != []
      invariant forall name: string :: Held(q, name) ==
                  if name in agents && name !in names then Held(p, name) + [Sample(agents[name], won)]
                  else Held(p, name)
      decreases names
    {
      var name :| name in names;
      q := q[name := Held(q, name) + [Sample(agents[name], won)]];
      names := names - {name};
    }
  }

  lemma {:induction false} SamplesSnoc(name: string, before: seq<Observation>, r: Observation)
    ensures SamplesFor(name, before + [r]) == SamplesFor(name, before) + SamplesFrom(name, r)
  {
    assert (before + [r])[..|before|] == before;
  }

  method AddResult(p: Predictions, r: Observation, ghost before: seq<Observation>) returns (q: Predictions)
    requires Records(p, before)
    ensures Records(q, before + [r])
  {
    var start, won := p, Label(r.pnl);
    if r.consensus.Some? {
      start := start["consensus" := Held(start, "consensus") + [Sample(r.consensus.value, won)]];
    }
    q := AddAgents(start, r.agents, won);
    forall name: string ensures Held(q, name) == SamplesFor(name, before + [r]) {
      SamplesSnoc(name, before, r);
      var first := if name == "consensus" && r.consensus.Some? then [Sample(r.consensus.value, won)] else [];
      var second := if name in r.agents then [Sample(r.agents[name], won)] else [];
      assert Held(start, name) == Held(p, name) + first;
      assert Held(q, name) == Held(start, name) + second;
      Associate(Held(p, name), first, second);
    }
  }

  function FromAllocation(a: Allocation): Observation { Observation(a.gross, a.consensus, a.agents) }

  predicate Resolved(c: Counterfactual) { c.status == "resolved" && c.hypotheticalPnl.Some? }

  function FromCounterfactual(c: Counterfactual): Observation
    requires Resolved(c)
  {
    Observation(c.hypotheticalPnl.value, c.consensus, c.agents)
  }

  /** All results that count: every allocation, then every resolved counterfactual. */
  function ResultsOf(allocations: seq<Allocation>, counterfactuals: seq<Counterfactual>): seq<Observation> {
    if counterfactuals != [] then
      var n := |counterfactuals| - 1;
      ResultsOf(allocations, counterfactuals[..n])
      + if Resolved(counterfactuals[n]) then [FromCounterfactual(counterfactuals[n])] else []
    else if allocations != [] then
      ResultsOf(allocations[..|allocations| - 1], []) + [FromAllocation(allocations[|allocations| - 1])]
    else []
  }

  /** The two loops that gather the samples. */
  method Gather(allocations: seq<Allocation>, counterfactuals: seq<Counterfactual>) returns (p: Predictions)
    ensures Records(p, ResultsOf(allocations, counterfactuals))
  {
    p := map[];
    for i := 0 to |allocations|
      invariant Records(p, ResultsOf(allocations[..i], []))
    {
      assert allocations[..i + 1][..i] == allocations[..i];
      p := AddResult(p, FromAllocation(allocations[i]), ResultsOf(allocations[..i], []));
    }
    assert allocations[..|allocations|] == allocations;
    for i := 0 to |counterfactuals|
      invariant Records(p, ResultsOf(allocations, counterfactuals[..i]))
    {
      assert counterfactuals[..i + 1][..i] == counterfactuals[..i];
      ghost var before := ResultsOf(allocations, counterfactuals[..i]);
      if Resolved(counterfactuals[i]) {
        p := AddResult(p, FromCounterfactual(counterfactuals[i]), before);
      } else {
        assert before + [] == before;
      }
    }
    assert counterfactuals[..|counterfactuals|] == counterfactuals;
  }

  /** `_calibration_rows`: one score per name with a sample, and always one for the consensus. */
  method CalibrationRows(allocations: seq<Allocation>, counterfactuals: seq<Counterfactual>)
      returns (scores: map<string, Score>)
    ensures var results := ResultsOf(allocations, counterfactuals);
            && (forall name: string :: name in scores <==> SamplesFor(name, results) != [] || name == "consensus")
            && (forall name :: name in scores ==> scores[name] == ScoreOf(SamplesFor(name, results)))
    ensures forall name :: name in scores ==> Scores(allocations, counterfactuals, name, scores[name])
    ensures AllInRange(allocations, counterfactuals) ==>
              forall name :: name in scores && 0 < scores[name].samples ==> Bounded(scores[name])
  {
    var p := Gather(allocations, counterfactuals);
    scores := map name | name in p :: ScoreOf(p[name]);
    ScoresOf(p, ResultsOf(allocations, counterfactuals));
    if "consensus" !in scores {
      scores := scores["consensus" := Score(0, None, None, None)];
    }
    forall name | name in scores ensures Scores(allocations, counterfactuals, name, scores[name]) {
      ReportScores(allocations, counterfactuals, name);
    }
    forall name | name in scores && 0 < scores[name].samples && AllInRange(allocations, counterfactuals)
      ensures Bounded(scores[name])
    {
      ReportBounded(allocations, counterfactuals, name);
    }
  }

  lemma {:induction false} ScoresOf(p: Predictions, results: seq<Observation>)
    requires Records(p, results)
    ensures forall name: string :: name in p <==> SamplesFor(name, results) != []
    ensures forall name :: name in p ==> p[name] == SamplesFor(name, results)
  {
    forall name: string
      ensures name in p <==> SamplesFor(name, results) != []
      ensures name in p ==> p[name] == SamplesFor(name, results)
    {
      assert Held(p, name) == SamplesFor(name, results);
    }
  }

  // ------------------------------------------------------------------ what a score says

  /** What a prediction that was right or wrong adds to an amount. */
  type Tally = (real, bool) -> real

  function Ones(p: real, won: bool): real { 1.0 }
  function Predicted(p: real, won: bool): real { p }
  function WonOnes(p: real, won: bool): real { if won then 1.0 else 0.0 }
  function Missed(p: real, won: bool): real { if won then (1.0 - p) * (1.0 - p) else p * p }

  /** The predictions one result holds for a name: its consensus under "consensus", and its agent's. */
  function Tallied(tally: Tally, name: string, won: bool, consensus: Option<real>, agents: map<string, real>): real {
    (if name == "consensus" && consensus.Some? then tally(consensus.value, won) else 0.0)
    + (if name in agents then tally(agents[name], won) else 0.0)
  }

  /** A trade was won when it earned something before fees. */
  function OfAllocation(tally: Tally, name: string): Allocation -> real {
    (a: Allocation) => Tallied(tally, name, a.gross > 0.0, a.consensus, a.agents)
  }

  /** A rejected trade counts once it is resolved, and was won when it would have earned something. */
  function OfCounterfactual(tally: Tally, name: string): Counterfactual -> real {
    (c: Counterfactual) =>
      if c.status == "resolved" && c.hypotheticalPnl.Some?
      then Tallied(tally, name, c.hypotheticalPnl.value > 0.0, c.consensus, c.agents) else 0.0
  }

  function Total(
      tally: Tally, name: string, allocations: seq<Allocation>, counterfactuals: seq<Counterfactual>): real
  {
    SumBy(OfAllocation(tally, name), allocations) + SumBy(OfCounterfactual(tally, name), counterfactuals)
  }

  /** A mean of `n` numbers that add up to `total`. */
  predicate IsMean(mean: Option<real>, n: nat, total: real) {
    if n == 0 then mean.None? else mean.Some? && mean.value * n as real == total
  }

  /** The score counts the predictions made under the name and, if there are any, gives their mean probability,
      the share of them that were won, and their mean squared miss. */
  predicate Scores(
      allocations: seq<Allocation>, counterfactuals: seq<Counterfactual>, name: string, score: Score)
  {
    && score.samples as real == Total(Ones, name, allocations, counterfactuals)
    && IsMean(score.meanProbability, score.samples, Total(Predicted, name, allocations, counterfactuals))
    && IsMean(score.winRate, score.samples, Total(WonOnes, name, allocations, counterfactuals))
    && IsMean(score.brier, score.samples, Total(Missed, name, allocations, counterfactuals))
  }

  /** An amount of a sample that the prediction and its being won or not determine. */
  ghost predicate Matches(f: Sample -> real, tally: Tally) {
    forall p: real, won: bool :: f(Sample(p, if won then 1.0 else 0.0)) == tally(p, won)
  }

  lemma {:induction false} SamplesTallied(f: Sample -> real, tally: Tally, name: string, r: Observation)
    requires Matches(f, tally)
    ensures SumBy(f, SamplesFrom(name, r)) == Tallied(tally, name, r.pnl > 0.0, r.consensus, r.agents)
  {
    var won := r.pnl > 0.0;
    var first: seq<Sample> :=
      if name == "consensus" && r.consensus.Some? then [Sample(r.consensus.value, if won then 1.0 else 0.0)] else [];
    var second: seq<Sample> := if name in r.agents then [Sample(r.agents[name], if won then 1.0 else 0.0)] else [];
    assert SamplesFrom(name, r) == first + second;
    SumConcat(f, first, second);
    OneSum(f, first);
    OneSum(f, second);
    if name == "consensus" && r.consensus.Some? {
      assert f(Sample(r.consensus.value, if won then 1.0 else 0.0)) == tally(r.consensus.value, won);
    }
    if name in r.agents {
      assert f(Sample(r.agents[name], if won then 1.0 else 0.0)) == tally(r.agents[name], won);
    }
  }

  lemma {:induction false} OneSum(f: Sample -> real, s: seq<Sample>)
    requires |s| <= 1
    ensures SumBy(f, s) == if s == [] then 0.0 else f(s[0])
  {
    if s != [] { assert s[1..] == []; }
  }

  lemma {:induction false} SamplesTotal(
      f: Sample -> real, tally: Tally, name: string, allocations: seq<Allocation>,
      counterfactuals: seq<Counterfactual>)
    requires Matches(f, tally)
    ensures SumBy(f, SamplesFor(name, ResultsOf(allocations, counterfactuals)))
            == Total(tally, name, allocations, counterfactuals)
  {
    if counterfactuals != [] {
      var n := |counterfactuals| - 1;
      var c := counterfactuals[n];
      SamplesTotal(f, tally, name, allocations, counterfactuals[..n]);
      SumSnoc(OfCounterfactual(tally, name), counterfactuals);
      var before := ResultsOf(allocations, counterfactuals[..n]);
      if Resolved(c) {
        OneMoreResult(f, tally, name, before, FromCounterfactual(c));
      } else {
        assert before + [] == before;
      }
    } else if allocations != [] {
      var n := |allocations| - 1;
      SamplesTotal(f, tally, name, allocations[..n], []);
      SumSnoc(OfAllocation(tally, name), allocations);
      OneMoreResult(f, tally, name, ResultsOf(allocations[..n], []), FromAllocation(allocations[n]));
    }
  }

  lemma {:induction false} OneMoreResult(
      f: Sample -> real, tally: Tally, name: string, before: seq<Observation>, r: Observation)
    requires Matches(f, tally)
    ensures SumBy(f, SamplesFor(name, before + [r]))
            == SumBy(f, SamplesFor(name, before)) + Tallied(tally, name, r.pnl > 0.0, r.consensus, r.agents)
  {
    SamplesSnoc(name, before, r);
    SumConcat(f, SamplesFor(name, before), SamplesFrom(name, r));
    SamplesTallied(f, tally, name, r);
  }

  function One(s: Sample): real { 1.0 }

  lemma {:induction false} CountIsSum(s: seq<Sample>)
    ensures SumBy(One, s) == |s| as real
  {
    if s != [] { CountIsSum(s[1..]); }
  }

  lemma {:induction false} MeanTimes(f: Sample -> real, s: seq<Sample>)
    ensures IsMean(MeanOf(f, s), |s|, SumBy(f, s))
  {
  }

  lemma {:induction false} MissIsSquaredError()
    ensures Matches(SquaredError, Missed)
  {
    forall p: real, won: bool ensures SquaredError(Sample(p, if won then 1.0 else 0.0)) == Missed(p, won) {
      assert (p - 1.0) * (p - 1.0) == (1.0 - p) * (1.0 - p);
    }
  }

  lemma {:induction false} PlainMatches()
    ensures Matches(One, Ones) && Matches(Probability, Predicted) && Matches(Outcome, WonOnes)
  {
  }

  /** The amounts of the sample of a name, from the results themselves. */
  lemma {:induction false} SampleTotals(
      allocations: seq<Allocation>, counterfactuals: seq<Counterfactual>, name: string, s: seq<Sample>)
    requires s == SamplesFor(name, ResultsOf(allocations, counterfactuals))
    ensures |s| as real == Total(Ones, name, allocations, counterfactuals)
    ensures SumBy(Probability, s) == Total(Predicted, name, allocations, counterfactuals)
    ensures SumBy(Outcome, s) == Total(WonOnes, name, allocations, counterfactuals)
    ensures SumBy(SquaredError, s) == Total(Missed, name, allocations, counterfactuals)
  {
    PlainMatches();
    MissIsSquaredError();
    CountIsSum(s);
    SamplesTotal(One, Ones, name, allocations, counterfactuals);
    SamplesTotal(Probability, Predicted, name, allocations, counterfactuals);
    SamplesTotal(Outcome, WonOnes, name, allocations, counterfactuals);
    SamplesTotal(SquaredError, Missed, name, allocations, counterfactuals);
  }

  /** Every reported score says what the predictions under its name amount to. */
  lemma {:induction false} ReportScores(
      allocations: seq<Allocation>, counterfactuals: seq<Counterfactual>, name: string)
    ensures Scores(allocations, counterfactuals, name,
                   ScoreOf(SamplesFor(name, ResultsOf(allocations, counterfactuals))))
  {
    var s := SamplesFor(name, ResultsOf(allocations, counterfactuals));
    SampleTotals(allocations, counterfactuals, name, s);
    MeanTimes(Probability, s);
    MeanTimes(Outcome, s);
    MeanTimes(SquaredError, s);
  }

  // ------------------------------------------------------------------ bounds

  predicate Fair(s: Sample) { 0.0 <= s.probability <= 1.0 && (s.outcome == 0.0 || s.outcome == 1.0) }

  lemma {:induction false} Square(y: real)
    ensures 0.0 <= y * y
  {
  }

  /** The step of the mean-square inequality: if n·q ≥ t² for n samples, it holds for one more. */
  lemma {:induction false} MeanSquareStep(n: real, q: real, t: real, y: real)
    requires 1.0 <= n && t * t <= n * q
    ensures (t + y) * (t + y) <= (n + 1.0) * (q + y * y)
  {
    var d := t - n * y;
    Square(d);
    assert d * d == t * t - 2.0 * n * (t * y) + n * n * (y * y);
    assert n * (2.0 * (t * y)) <= n * (q + n * (y * y)) by {
      assert n * (q + n * (y * y)) == n * q + n * n * (y * y);
      assert n * (2.0 * (t * y)) == 2.0 * n * (t * y);
    }
    CancelPositive(n, 2.0 * (t * y), q + n * (y * y));
    assert (t + y) * (t + y) == t * t + 2.0 * (t * y) + y * y;
    assert (n + 1.0) * (q + y * y) == n * q + q + n * (y * y) + y * y;
  }

  lemma {:induction false} CancelPositive(n: real, a: real, b: real)
    requires 1.0 <= n && n * a <= n * b
    ensures a <= b
  {
    if b < a { TimesPositive(n, b, a); }
  }

  lemma {:induction false} TimesPositive(n: real, b: real, a: real)
    requires 1.0 <= n && b < a
    ensures n * b < n * a
  {
    assert n * (a - b) > 0.0;
  }

  lemma {:induction false} MeanSquare(s: seq<Sample>)
    ensures SumBy(Error, s) * SumBy(Error, s) <= |s| as real * SumBy(SquaredError, s)
  {
    if |s| == 1 {
      assert SumBy(Error, s) == Error(s[0]) && SumBy(SquaredError, s) == SquaredError(s[0]);
    } else if 1 < |s| {
      MeanSquare(s[1..]);
      MeanSquareStep(|s[1..]| as real, SumBy(SquaredError, s[1..]), SumBy(Error, s[1..]), Error(s[0]));
    }
  }

  lemma {:induction false} ErrorSum(s: seq<Sample>)
    ensures SumBy(Error, s) == SumBy(Probability, s) - SumBy(Outcome, s)
  {
    if s != [] { ErrorSum(s[1..]); }
  }

  lemma {:induction false} NonnegativeProduct(a: real, b: real)
    requires 0.0 <= a && 0.0 <= b
    ensures 0.0 <= a * b
  {
  }

  lemma {:induction false} FairError(s: Sample)
    requires Fair(s)
    ensures 0.0 <= SquaredError(s) <= 1.0
  {
    var e := Error(s);
    Square(e);
    assert -1.0 <= e <= 1.0;
    NonnegativeProduct(1.0 - e, 1.0 + e);
    assert (1.0 - e) * (1.0 + e) == 1.0 - e * e;
  }

  lemma {:induction false} SquaredErrorBounds(s: seq<Sample>)
    requires forall i :: 0 <= i < |s| ==> Fair(s[i])
    ensures 0.0 <= SumBy(SquaredError, s) <= |s| as real
  {
    if s != [] {
      FairError(s[0]);
      SquaredErrorBounds(s[1..]);
    }
  }

  lemma {:induction false} DivideSquare(n: real, q: real, t: real)
    requires 1.0 <= n && t * t <= n * q
    ensures (t / n) * (t / n) <= q / n
  {
    var m, b := t / n, q / n;
    assert t == m * n && q == b * n;
    assert n * (n * (m * m)) <= n * (n * b) by {
      assert t * t == n * (n * (m * m));
      assert n * q == n * (n * b);
    }
    CancelPositive(n, n * (m * m), n * b);
    CancelPositive(n, m * m, b);
  }

  /** The Brier score lies in [0, 1] and is at least the squared distance between mean probability and
      observed win rate. */
  predicate Bounded(score: Score) {
    && score.brier.Some? && score.meanProbability.Some? && score.winRate.Some?
    && 0.0 <= score.brier.value <= 1.0
    && var gap := score.meanProbability.value - score.winRate.value;
       gap * gap <= score.brier.value
  }

  lemma {:induction false} BrierBounds(s: seq<Sample>)
    requires s != [] && forall i :: 0 <= i < |s| ==> Fair(s[i])
    ensures Bounded(ScoreOf(s))
  {
    SquaredErrorBounds(s);
    MeanSquare(s);
    ErrorSum(s);
    MeansBound(|s| as real, SumBy(SquaredError, s), SumBy(Probability, s), SumBy(Outcome, s), SumBy(Error, s));
  }

  lemma {:induction false} MeansBound(n: real, q: real, p: real, o: real, t: real)
    requires 1.0 <= n && 0.0 <= q <= n && t == p - o && t * t <= n * q
    ensures 0.0 <= q / n <= 1.0 && (p / n - o / n) * (p / n - o / n) <= q / n
  {
    DivideSquare(n, q, t);
    GapIsMeanError(n, p, o, t);
    UnitRange(n, q);
  }

  lemma {:induction false} GapIsMeanError(n: real, p: real, o: real, t: real)
    requires 1.0 <= n && t == p - o
    ensures p / n - o / n == t / n
  {
  }

  lemma {:induction false} UnitRange(n: real, q: real)
    requires 1.0 <= n && 0.0 <= q <= n
    ensures 0.0 <= q / n <= 1.0
  {
  }

  /** All probabilities lie in [0, 1]. */
  predicate InRange(consensus: Option<real>, agents: map<string, real>) {
    && (consensus.Some? ==> 0.0 <= consensus.value <= 1.0)
    && forall name :: name in agents ==> 0.0 <= agents[name] <= 1.0
  }

  predicate AllInRange(allocations: seq<Allocation>, counterfactuals: seq<Counterfactual>) {
    && (forall a :: a in allocations ==> InRange(a.consensus, a.agents))
    && (forall c :: c in counterfactuals && Resolved(c) ==> InRange(c.consensus, c.agents))
  }

  /** Samples drawn from results with probabilities in [0, 1] are fair, whatever the name. */
  lemma {:induction false} SamplesFair(name: string, results: seq<Observation>)
    requires forall r :: r in results ==> InRange(r.consensus, r.agents)
    ensures forall i :: 0 <= i < |SamplesFor(name, results)| ==> Fair(SamplesFor(name, results)[i])
  {
    if results != [] { SamplesFair(name, results[..|results| - 1]); }
  }

  lemma {:induction false} ResultsInRange(allocations: seq<Allocation>, counterfactuals: seq<Counterfactual>)
    requires AllInRange(allocations, counterfactuals)
    ensures forall r :: r in ResultsOf(allocations, counterfactuals) ==> InRange(r.consensus, r.agents)
  {
    if counterfactuals != [] {
      ResultsInRange(allocations, counterfactuals[..|counterfactuals| - 1]);
    } else if allocations != [] {
      ResultsInRange(allocations[..|allocations| - 1], []);
    }
  }

  /** Every score the report gives for a name with a sample meets the bounds when all predicted
      probabilities lie in [0, 1]. */
  lemma {:induction false} ReportBounded(
      allocations: seq<Allocation>, counterfactuals: seq<Counterfactual>, name: string)
    requires AllInRange(allocations, counterfactuals)
    requires SamplesFor(name, ResultsOf(allocations, counterfactuals)) != []
    ensures Bounded(ScoreOf(SamplesFor(name, ResultsOf(allocations, counterfactuals))))
  {
    var results := ResultsOf(allocations, counterfactuals);
    ResultsInRange(allocations, counterfactuals);
    SamplesFair(name, results);
    BrierBounds(SamplesFor(name, results));
  }
}
