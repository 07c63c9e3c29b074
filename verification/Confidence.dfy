/** The confidence score and the route it decides: app/agents/confidence.py.

    The logistic function is a parameter: any increasing function into the open unit interval. */
module Confidence {
  import opened Wrappers

  const TOP_SIMILARITY := "top_similarity"
  const RERANK_SCORE := "rerank_score"
  const SOURCE_COUNT := "source_count"
  const HISTORICAL_SIMILARITY := "historical_similarity"

  const SIGNAL_WEIGHTS: seq<(string, real)> :=
    [(TOP_SIMILARITY, 0.40), (RERANK_SCORE, 0.35), (SOURCE_COUNT, 0.15), (HISTORICAL_SIMILARITY, 0.10)]

  const SOURCE_COUNT_CAP := 5
  const RRF_K := 60
  const MAX_POSSIBLE_FUSED_SCORE: real := 2.0 / (RRF_K + 1) as real

  datatype Chunk = Chunk(documentId: string, score: real)

  type Signals = map<string, real>

  datatype State = State(chunks: seq<Chunk>, signals: Signals, incidentId: Option<string>)

  datatype Route = Answer | Investigation

  ghost predicate IsSigmoid(sigmoid: real -> real) {
    && (forall x: real :: 0.0 < sigmoid(x) < 1.0)
    && forall x: real, y: real :: x <= y ==> sigmoid(x) <= sigmoid(y)
  }

  function Clamp(x: real): real { if x > 1.0 then 1.0 else if x < 0.0 then 0.0 else x }

  function NormalizeTopSimilarity(raw: real): real { Clamp(raw / MAX_POSSIBLE_FUSED_SCORE) }

  function DocumentIds(chunks: seq<Chunk>): set<string> { set c | c in chunks :: c.documentId }

  function SourceCountSignal(chunks: seq<Chunk>): real {
    var share := |DocumentIds(chunks)| as real / SOURCE_COUNT_CAP as real;
    if share < 1.0 then share else 1.0
  }

  /** The weight of the signals that are present. */
  function TotalWeight(weights: seq<(string, real)>, signals: Signals): real {
    if weights == [] then 0.0 else
      (if weights[0].0 in signals then weights[0].1 else 0.0) + TotalWeight(weights[1..], signals)
  }

  function Weigh(value: real, weight: real): real { value * weight }

  function WeightedSum(weights: seq<(string, real)>, signals: Signals): real {
    if weights == [] then 0.0 else
      (if weights[0].0 in signals then Weigh(signals[weights[0].0], weights[0].1) else 0.0)
      + WeightedSum(weights[1..], signals)
  }

  /** Weights are positive, so some signal is present exactly when the total weight is not zero. */
  function WeightedScore(signals: Signals): real {
    var total := TotalWeight(SIGNAL_WEIGHTS, signals);
    if total == 0.0 then 0.0 else WeightedSum(SIGNAL_WEIGHTS, signals) / total
  }

  function RouteOf(score: real, threshold: real): Route {
    if score >= threshold then Answer else Investigation
  }

  /** The signals after normalization. */
  function Normalized(st: State, sigmoid: real -> real): Signals {
    var top := if TOP_SIMILARITY in st.signals
               then st.signals[TOP_SIMILARITY := NormalizeTopSimilarity(st.signals[TOP_SIMILARITY])]
               else st.signals;
    var all := top[RERANK_SCORE := if st.chunks != [] then sigmoid(st.chunks[0].score) else 0.0]
                  [SOURCE_COUNT := SourceCountSignal(st.chunks)];
    if st.incidentId.None? then all - {HISTORICAL_SIMILARITY} else all
  }

  method EvaluateConfidence(st: State, sigmoid: real -> real, threshold: real)
    returns (score: real, signals: Signals, route: Route)
    ensures signals == Normalized(st, sigmoid)
    ensures score == WeightedScore(Normalized(st, sigmoid))
    ensures route == RouteOf(score, threshold)
  {
    signals := st.signals;
    if TOP_SIMILARITY in signals {
      signals := signals[TOP_SIMILARITY := NormalizeTopSimilarity(signals[TOP_SIMILARITY])];
    }
    signals := signals[RERANK_SCORE := if st.chunks != [] then sigmoid(st.chunks[0].score) else 0.0];
    signals := signals[SOURCE_COUNT := SourceCountSignal(st.chunks)];
    if st.incidentId.None? {
      signals := signals - {HISTORICAL_SIMILARITY};
    }
    score := WeightedScore(signals);
    route := if score >= threshold then Answer else Investigation;
  }

  // ---------- The weighted average ----------

  ghost predicate Positive(weights: seq<(string, real)>) {
    forall i :: 0 <= i < |weights| ==> weights[i].1 > 0.0
  }

  /** Every weighted signal that is present lies between `lo` and `hi`. */
  ghost predicate Within(weights: seq<(string, real)>, signals: Signals, lo: real, hi: real) {
    forall i :: 0 <= i < |weights| && weights[i].0 in signals ==> lo <= signals[weights[i].0] <= hi
  }

  ghost predicate AnyPresent(weights: seq<(string, real)>, signals: Signals) {
    exists i :: 0 <= i < |weights| && weights[i].0 in signals
  }

  lemma {:induction false} TotalIsPositive(weights: seq<(string, real)>, signals: Signals)
    requires Positive(weights)
    ensures TotalWeight(weights, signals) >= 0.0
    ensures TotalWeight(weights, signals) > 0.0 <==> AnyPresent(weights, signals)
  {
    if weights == [] {
    } else {
      var rest := weights[1..];
      TotalIsPositive(rest, signals);
      if AnyPresent(rest, signals) {
        var i :| 0 <= i < |rest| && rest[i].0 in signals;
        assert weights[i + 1].0 in signals;
      }
      if weights[0].0 !in signals && AnyPresent(weights, signals) {
        var i :| 0 <= i < |weights| && weights[i].0 in signals;
        assert rest[i - 1].0 in signals;
      }
    }
  }

  lemma {:induction false} SumWithin(weights: seq<(string, real)>, signals: Signals, lo: real, hi: real)
    requires Positive(weights) && Within(weights, signals, lo, hi)
    ensures Scales(lo, WeightedSum(weights, signals), hi, TotalWeight(weights, signals))
  {
    hide Weigh, Scales;
    if weights == [] {
      NoTerms(lo, hi);
    } else {
      SumWithin(weights[1..], signals, lo, hi);
      if weights[0].0 in signals {
        AddTerm(lo, signals[weights[0].0], hi, weights[0].1,
                TotalWeight(weights[1..], signals), WeightedSum(weights[1..], signals));
      }
    }
  }

  /** `lo * total <= sum <= hi * total` */
  ghost predicate Scales(lo: real, sum: real, hi: real, total: real) { lo * total <= sum <= hi * total }

  lemma NoTerms(lo: real, hi: real)
    ensures Scales(lo, 0.0, hi, 0.0)
  {
  }

  lemma AddTerm(lo: real, v: real, hi: real, w: real, total: real, sum: real)
    requires lo <= v <= hi && w > 0.0 && Scales(lo, sum, hi, total)
    ensures Scales(lo, Weigh(v, w) + sum, hi, w + total)
  {
    Scaled(lo, v, w);
    Scaled(v, hi, w);
    assert lo * (w + total) == lo * w + lo * total && hi * (w + total) == hi * w + hi * total;
  }

  lemma WeighMonotone(x: real, y: real, w: real)
    requires x <= y && w > 0.0
    ensures Weigh(x, w) <= Weigh(y, w)
  {
  }

  lemma Scaled(x: real, y: real, w: real)
    requires x <= y && w > 0.0
    ensures x * w <= y * w
  {
  }

  lemma DivideBetween(lo: real, sum: real, hi: real, total: real)
    requires total > 0.0 && Scales(lo, sum, hi, total)
    ensures lo <= sum / total <= hi
  {
    var q := sum / total;
    assert q * total == sum;
    if q < lo {
      Strictly(q, lo, total);
    } else if q > hi {
      Strictly(hi, q, total);
    }
  }

  lemma Strictly(x: real, y: real, w: real)
    requires x < y && w > 0.0
    ensures x * w < y * w
  {
  }

  lemma WeightsArePositive()
    ensures Positive(SIGNAL_WEIGHTS)
  {
  }

  /** Whichever signals are present, the score lies between the least and the greatest of them. */
  lemma ScoreIsBetween(signals: Signals, lo: real, hi: real)
    requires AnyPresent(SIGNAL_WEIGHTS, signals) && Within(SIGNAL_WEIGHTS, signals, lo, hi)
    ensures lo <= WeightedScore(signals) <= hi
  {
    hide TotalWeight, WeightedSum;
    WeightsArePositive();
    TotalIsPositive(SIGNAL_WEIGHTS, signals);
    SumWithin(SIGNAL_WEIGHTS, signals, lo, hi);
    DivideBetween(lo, WeightedSum(SIGNAL_WEIGHTS, signals), hi, TotalWeight(SIGNAL_WEIGHTS, signals));
  }

  /** The same weighted signals, none of them lower. */
  ghost predicate Raised(weights: seq<(string, real)>, signals: Signals, signals': Signals) {
    forall i :: 0 <= i < |weights| ==>
      && (weights[i].0 in signals <==> weights[i].0 in signals')
      && (weights[i].0 in signals ==> signals[weights[i].0] <= signals'[weights[i].0])
  }

  lemma {:induction false} RaisingRaisesSum(weights: seq<(string, real)>, signals: Signals, signals': Signals)
    requires Positive(weights) && Raised(weights, signals, signals')
    ensures TotalWeight(weights, signals) == TotalWeight(weights, signals')
    ensures WeightedSum(weights, signals) <= WeightedSum(weights, signals')
  {
    if weights == [] {
    } else {
      hide Weigh;
      RaisingRaisesSum(weights[1..], signals, signals');
      if weights[0].0 in signals {
        WeighMonotone(signals[weights[0].0], signals'[weights[0].0], weights[0].1);
      }
    }
  }

  /** Raising signals never lowers the score, so it never turns an answer into an investigation. */
  lemma ScoreIsMonotone(signals: Signals, signals': Signals, threshold: real)
    requires Raised(SIGNAL_WEIGHTS, signals, signals')
    ensures WeightedScore(signals) <= WeightedScore(signals')
    ensures RouteOf(WeightedScore(signals), threshold) == Answer ==>
            RouteOf(WeightedScore(signals'), threshold) == Answer
  {
    hide TotalWeight, WeightedSum;
    WeightsArePositive();
    TotalIsPositive(SIGNAL_WEIGHTS, signals);
    RaisingRaisesSum(SIGNAL_WEIGHTS, signals, signals');
    hide Weigh;
    var total := TotalWeight(SIGNAL_WEIGHTS, signals);
    if total != 0.0 {
      DivideMonotone(WeightedSum(SIGNAL_WEIGHTS, signals), WeightedSum(SIGNAL_WEIGHTS, signals'), total);
    }
  }

  lemma DivideMonotone(x: real, y: real, total: real)
    requires total > 0.0 && x <= y
    ensures x / total <= y / total
  {
  }

  // ---------- Absent signals ----------

  ghost predicate DistinctKeys(weights: seq<(string, real)>) {
    forall i, j :: 0 <= i < j < |weights| ==> weights[i].0 != weights[j].0
  }

  lemma {:induction false} AddingSignal(weights: seq<(string, real)>, signals: Signals, k: nat, v: real)
    requires DistinctKeys(weights) && k < |weights| && weights[k].0 !in signals
    ensures TotalWeight(weights, signals[weights[k].0 := v]) == TotalWeight(weights, signals) + weights[k].1
    ensures WeightedSum(weights, signals[weights[k].0 := v]) == WeightedSum(weights, signals) + Weigh(v, weights[k].1)
  {
    hide Weigh;
    var key, rest := weights[k].0, weights[1..];
    if k == 0 {
      OtherKeys(rest, signals, key, v);
    } else {
      assert rest[k - 1] == weights[k];
      AddingSignal(rest, signals, k - 1, v);
    }
  }

  lemma {:induction false} OtherKeys(weights: seq<(string, real)>, signals: Signals, key: string, v: real)
    requires forall i :: 0 <= i < |weights| ==> weights[i].0 != key
    ensures TotalWeight(weights, signals[key := v]) == TotalWeight(weights, signals)
    ensures WeightedSum(weights, signals[key := v]) == WeightedSum(weights, signals)
  {
    hide Weigh;
    if weights == [] {
    } else {
      OtherKeys(weights[1..], signals, key, v);
    }
  }

  lemma WeightKeysDiffer()
    ensures DistinctKeys(SIGNAL_WEIGHTS)
  {
    assert TOP_SIMILARITY[0] == 't' && RERANK_SCORE[0] == 'r';
    assert SOURCE_COUNT[0] == 's' && HISTORICAL_SIMILARITY[0] == 'h';
  }

  /** Absence is neutral: supplying a missing signal moves the score towards it, up if it is above the score
      and down if it is below, and leaves the score unchanged if it equals it. */
  lemma MissingSignalIsNeutral(signals: Signals, k: nat, v: real)
    requires k < |SIGNAL_WEIGHTS| && SIGNAL_WEIGHTS[k].0 !in signals
    ensures
      var before, after := WeightedScore(signals), WeightedScore(signals[SIGNAL_WEIGHTS[k].0 := v]);
      && (v == before <==> after == before)
      && (v > before <==> after > before)
  {
    hide TotalWeight, WeightedSum;
    WeightsArePositive();
    WeightKeysDiffer();
    var signals' := signals[SIGNAL_WEIGHTS[k].0 := v];
    TotalIsPositive(SIGNAL_WEIGHTS, signals);
    if AnyPresent(SIGNAL_WEIGHTS, signals) {
      AddingSignal(SIGNAL_WEIGHTS, signals, k, v);
      Blend(WeightedSum(SIGNAL_WEIGHTS, signals), TotalWeight(SIGNAL_WEIGHTS, signals), v, SIGNAL_WEIGHTS[k].1);
    } else {
      assert SIGNAL_WEIGHTS[k].0 in signals' && Within(SIGNAL_WEIGHTS, signals', v, v);
      ScoreIsBetween(signals', v, v);
    }
  }

  lemma Blend(sum: real, total: real, v: real, w: real)
    requires total > 0.0 && w > 0.0
    ensures
      var before, after := sum / total, (sum + Weigh(v, w)) / (total + w);
      && (v == before <==> after == before) && (v > before <==> after > before)
  {
    var before, after := sum / total, (sum + v * w) / (total + w);
    assert before * total == sum && after * (total + w) == sum + v * w;
    assert after * (total + w) - before * (total + w) == (v - before) * w;
    assert (after - before) * (total + w) == (v - before) * w;
    SameSign(after - before, total + w, v - before, w);
  }

  lemma SameSign(x: real, m: real, y: real, n: real)
    requires m > 0.0 && n > 0.0 && x * m == y * n
    ensures (x > 0.0 <==> y > 0.0) && (x == 0.0 <==> y == 0.0)
  {
    if x > 0.0 {
      Strictly(0.0, x, m);
      if y <= 0.0 { Scaled(y, 0.0, n); }
    } else if x < 0.0 {
      Strictly(x, 0.0, m);
      if y >= 0.0 { Scaled(0.0, y, n); }
    } else {
      assert y * n == 0.0;
      if y > 0.0 {
        Strictly(0.0, y, n);
      } else if y < 0.0 {
        Strictly(y, 0.0, n);
      }
    }
  }

  // ---------- The whole evaluation ----------

  /** With nothing retrieved and no similarity the score is 0, on any call but an incident triage that
      brings a historical similarity other than 0. */
  lemma NothingRetrievedScoresZeroIff(st: State, sigmoid: real -> real)
    requires st.chunks == []
    requires TOP_SIMILARITY in st.signals ==> st.signals[TOP_SIMILARITY] == 0.0
    ensures WeightedScore(Normalized(st, sigmoid)) == 0.0 <==>
            st.incidentId.None? || HISTORICAL_SIMILARITY !in st.signals || st.signals[HISTORICAL_SIMILARITY] == 0.0
  {
    hide TotalWeight, WeightedSum;
    WeightKeysDiffer();
    WeightsArePositive();
    var signals := Normalized(st, sigmoid);
    assert |DocumentIds([])| == 0;
    assert SIGNAL_WEIGHTS[1].0 in signals;
    if HISTORICAL_SIMILARITY in signals {
      var others := signals - {HISTORICAL_SIMILARITY};
      assert SIGNAL_WEIGHTS[1].0 in others && Within(SIGNAL_WEIGHTS, others, 0.0, 0.0);
      ScoreIsBetween(others, 0.0, 0.0);
      MissingSignalIsNeutral(others, 3, signals[HISTORICAL_SIMILARITY]);
      assert signals == others[HISTORICAL_SIMILARITY := signals[HISTORICAL_SIMILARITY]];
    } else {
      assert Within(SIGNAL_WEIGHTS, signals, 0.0, 0.0);
      ScoreIsBetween(signals, 0.0, 0.0);
    }
  }

  /** The score is a number between 0 and 1. */
  lemma ScoreIsUnit(st: State, sigmoid: real -> real)
    requires IsSigmoid(sigmoid)
    requires st.incidentId.Some? && HISTORICAL_SIMILARITY in st.signals ==>
      0.0 <= st.signals[HISTORICAL_SIMILARITY] <= 1.0
    ensures 0.0 <= WeightedScore(Normalized(st, sigmoid)) <= 1.0
  {
    hide TotalWeight, WeightedSum;
    WeightKeysDiffer();
    var signals := Normalized(st, sigmoid);
    assert SIGNAL_WEIGHTS[1].0 in signals;
    assert Within(SIGNAL_WEIGHTS, signals, 0.0, 1.0);
    ScoreIsBetween(signals, 0.0, 1.0);
  }

  /** Better evidence: no lower raw similarity, no lower first rerank score, no fewer distinct documents. */
  ghost predicate BetterEvidence(st: State, st': State) {
    && st'.incidentId == st.incidentId
    && (TOP_SIMILARITY in st.signals <==> TOP_SIMILARITY in st'.signals)
    && (TOP_SIMILARITY in st.signals ==> st.signals[TOP_SIMILARITY] <= st'.signals[TOP_SIMILARITY])
    && (HISTORICAL_SIMILARITY in st.signals <==> HISTORICAL_SIMILARITY in st'.signals)
    && (HISTORICAL_SIMILARITY in st.signals ==> st.signals[HISTORICAL_SIMILARITY] <= st'.signals[HISTORICAL_SIMILARITY])
    && (st.chunks != [] ==> st'.chunks != [] && st.chunks[0].score <= st'.chunks[0].score)
    && |DocumentIds(st.chunks)| <= |DocumentIds(st'.chunks)|
  }

  /** Better evidence never turns an answer into an investigation. */
  lemma BetterEvidenceKeepsAnswer(st: State, st': State, sigmoid: real -> real, threshold: real)
    requires IsSigmoid(sigmoid) && BetterEvidence(st, st')
    ensures WeightedScore(Normalized(st, sigmoid)) <= WeightedScore(Normalized(st', sigmoid))
    ensures RouteOf(WeightedScore(Normalized(st, sigmoid)), threshold) == Answer ==>
            RouteOf(WeightedScore(Normalized(st', sigmoid)), threshold) == Answer
  {
    hide TotalWeight, WeightedSum, WeightedScore;
    BetterEvidenceRaises(st, st', sigmoid);
    ScoreIsMonotone(Normalized(st, sigmoid), Normalized(st', sigmoid), threshold);
  }

  lemma BetterEvidenceRaises(st: State, st': State, sigmoid: real -> real)
    requires IsSigmoid(sigmoid) && BetterEvidence(st, st')
    ensures Raised(SIGNAL_WEIGHTS, Normalized(st, sigmoid), Normalized(st', sigmoid))
  {
    WeightKeysDiffer();
    DivideMonotone(|DocumentIds(st.chunks)| as real, |DocumentIds(st'.chunks)| as real, SOURCE_COUNT_CAP as real);
    if TOP_SIMILARITY in st.signals {
      DivideMonotone(st.signals[TOP_SIMILARITY], st'.signals[TOP_SIMILARITY], MAX_POSSIBLE_FUSED_SCORE);
    }
  }

  /** The score of one retrieved chunk outside incident triage, from its two normalized signals. */
  lemma ScoreOfThree(st: State, sigmoid: real -> real, top: real, rerank: real)
    requires |st.chunks| == 1 && sigmoid(st.chunks[0].score) == rerank && st.incidentId.None?
    requires 0.0 <= top <= 1.0 && st.signals == map[TOP_SIMILARITY := top * MAX_POSSIBLE_FUSED_SCORE]
    ensures WeightedScore(Normalized(st, sigmoid)) == (0.40 * top + 0.35 * rerank + 0.15 * 0.2) / 0.90
  {
    WeightKeysDiffer();
    var signals := Normalized(st, sigmoid);
    assert NormalizeTopSimilarity(top * MAX_POSSIBLE_FUSED_SCORE) == top;
    assert DocumentIds(st.chunks) == {st.chunks[0].documentId};
    assert SourceCountSignal(st.chunks) == 0.2;
    assert signals[TOP_SIMILARITY] == top && signals[RERANK_SCORE] == rerank && signals[SOURCE_COUNT] == 0.2;
    assert HISTORICAL_SIMILARITY !in signals;
    var w := SIGNAL_WEIGHTS;
    assert w[1..][1..] == w[2..] && w[2..][1..] == w[3..] && w[3..][1..] == [];
    assert TotalWeight(w[3..], signals) == 0.0 && WeightedSum(w[3..], signals) == 0.0;
    assert TotalWeight(w[2..], signals) == 0.15 && WeightedSum(w[2..], signals) == 0.2 * 0.15;
    assert TotalWeight(w[1..], signals) == 0.50 && WeightedSum(w[1..], signals) == rerank * 0.35 + 0.2 * 0.15;
    assert TotalWeight(w, signals) == 0.90;
  }

  // ---------- The score in numbers ----------

  /** The weight of a signal, if it is there. */
  function Share(signals: Signals, name: string, weight: real): (r: (real, real)) {
    if name in signals then (signals[name] * weight, weight) else (0.0, 0.0)
  }

  /** The score is the mean of the signals present, weighted 40, 35, 15 and 10; without any it is 0. */
  lemma ScoreInNumbers(signals: Signals)
    ensures
      var a, b := Share(signals, "top_similarity", 0.40), Share(signals, "rerank_score", 0.35);
      var c, d := Share(signals, "source_count", 0.15), Share(signals, "historical_similarity", 0.10);
      var total := a.1 + b.1 + c.1 + d.1;
      if total == 0.0 then WeightedScore(signals) == 0.0
      else WeightedScore(signals) == (a.0 + b.0 + c.0 + d.0) / total
  {
    var w := SIGNAL_WEIGHTS;
    assert w[1..][1..] == w[2..] && w[2..][1..] == w[3..] && w[3..][1..] == w[4..] && w[4..] == [];
    WeightsUnfold(w, signals);
    WeightsUnfold(w[1..], signals);
    WeightsUnfold(w[2..], signals);
    WeightsUnfold(w[3..], signals);
    hide Weigh;
    assert TotalWeight(w[4..], signals) == 0.0 && WeightedSum(w[4..], signals) == 0.0;
    hide TotalWeight, WeightedSum;
  }

  lemma WeightsUnfold(w: seq<(string, real)>, signals: Signals)
    requires w != []
    ensures TotalWeight(w, signals) == Share(signals, w[0].0, w[0].1).1 + TotalWeight(w[1..], signals)
    ensures WeightedSum(w, signals) == Share(signals, w[0].0, w[0].1).0 + WeightedSum(w[1..], signals)
  {
  }

  /** The signals of an evaluation: the fused score against its ceiling of 2/61, kept between 0 and 1; the
      first chunk's score through the sigmoid, or 0 without chunks; a fifth for every distinct document, up to
      1; and the historical similarity on incident triage only. */
  lemma SignalsInNumbers(st: State, sigmoid: real -> real)
    ensures
      var signals := Normalized(st, sigmoid);
      && ("top_similarity" in signals <==> "top_similarity" in st.signals)
      && ("top_similarity" in st.signals ==>
            var raised := st.signals["top_similarity"] / (2.0 / 61.0);
            signals["top_similarity"] == if raised < 0.0 then 0.0 else if raised > 1.0 then 1.0 else raised)
      && "rerank_score" in signals
      && signals["rerank_score"] == (if st.chunks == [] then 0.0 else sigmoid(st.chunks[0].score))
      && "source_count" in signals
      && (var documents := set c | c in st.chunks :: c.documentId;
          signals["source_count"] == if |documents| >= 5 then 1.0 else |documents| as real / 5.0)
      && ("historical_similarity" in signals <==>
            "historical_similarity" in st.signals && st.incidentId.Some?)
      && ("historical_similarity" in signals ==>
            signals["historical_similarity"] == st.signals["historical_similarity"])
  {
    WeightKeysDiffer();
    assert MAX_POSSIBLE_FUSED_SCORE == 2.0 / 61.0;
    SourceCountInNumbers(st.chunks);
    hide SourceCountSignal;
  }

  lemma SourceCountInNumbers(chunks: seq<Chunk>)
    ensures
      var documents := set c | c in chunks :: c.documentId;
      SourceCountSignal(chunks) == if |documents| >= 5 then 1.0 else |documents| as real / 5.0
  {
    var documents := set c | c in chunks :: c.documentId;
    assert DocumentIds(chunks) == documents;
    hide DocumentIds;
    var n := |documents| as real;
    assert n / 5.0 < 1.0 <==> n < 5.0;
  }

  /** The score decides the route: at the threshold the question is still answered. */
  lemma RouteInNumbers(st: State, sigmoid: real -> real, threshold: real)
    ensures RouteOf(WeightedScore(Normalized(st, sigmoid)), threshold)
            == if WeightedScore(Normalized(st, sigmoid)) < threshold then Investigation else Answer
  {
    hide WeightedScore, Normalized;
  }
}
