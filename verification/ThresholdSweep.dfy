/** The offline threshold sweep: scripts/eval_confidence.py. Questions whose run errored have no confidence
    and are left out of every count. */
module ThresholdSweep {
  import opened Wrappers
  import Confidence

  datatype QuestionResult = QuestionResult(isPositive: bool, confidence: Option<real>)

  /** `predicted_route`: a replay of the comparison the live node makes. */
  function PredictedRoute(r: QuestionResult, threshold: real): Confidence.Route
    requires r.confidence.Some?
  {
    if r.confidence.value >= threshold then Confidence.Answer else Confidence.Investigation
  }

  datatype Confusion = Confusion(tp: nat, fp: nat, fn: nat, tn: nat)

  /** How many results that did not error are positive (or not) and predicted to be answered (or not). */
  ghost function Count(results: seq<QuestionResult>, threshold: real, positive: bool, route: Confidence.Route): nat {
    if results == [] then 0 else
      var r := results[|results| - 1];
      Count(results[..|results| - 1], threshold, positive, route)
      + (if r.confidence.Some? && r.isPositive == positive && PredictedRoute(r, threshold) == route then 1 else 0)
  }

  ghost function Counts(results: seq<QuestionResult>, threshold: real): Confusion {
    Confusion(Count(results, threshold, true, Confidence.Answer),
              Count(results, threshold, false, Confidence.Answer),
              Count(results, threshold, true, Confidence.Investigation),
              Count(results, threshold, false, Confidence.Investigation))
  }

  method ConfusionAt(results: seq<QuestionResult>, threshold: real) returns (c: Confusion)
    ensures c == Counts(results, threshold)
  {
    var tp: nat, fp: nat, fn: nat, tn: nat := 0, 0, 0, 0;
    var i := 0;
    while i < |results|
      invariant 0 <= i <= |results|
      invariant Confusion(tp, fp, fn, tn) == Counts(results[..i], threshold)
    {
      assert results[..i + 1][..i] == results[..i];
      var r := results[i];
      if r.confidence.Some? {
        var predictedAnswer := PredictedRoute(r, threshold) == Confidence.Answer;
        if r.isPositive {
          if predictedAnswer { tp := tp + 1; } else { fn := fn + 1; }
        } else {
          if predictedAnswer { fp := fp + 1; } else { tn := tn + 1; }
        }
      }
      i := i + 1;
    }
    assert results[..i] == results;
    c := Confusion(tp, fp, fn, tn);
  }

  datatype Metrics = Metrics(precision: Option<real>, recall: Option<real>, f1: Option<real>, accuracy: Option<real>)

  /** A ratio, when there is anything to divide by. */
  function Ratio(x: nat, y: nat): Option<real> {
    if y != 0 then Some(x as real / y as real) else None
  }

  function PrecisionRecallF1(c: Confusion): Metrics {
    var precision, recall := Ratio(c.tp, c.tp + c.fp), Ratio(c.tp, c.tp + c.fn);
    var f1 := if precision.Some? && precision.value > 0.0 && recall.Some? && recall.value > 0.0
              then Some(2.0 * precision.value * recall.value / (precision.value + recall.value)) else None;
    Metrics(precision, recall, f1, Ratio(c.tp + c.tn, c.tp + c.fp + c.fn + c.tn))
  }

  datatype Row = Row(threshold: real, confusion: Confusion, metrics: Metrics)

  ghost function RowAt(results: seq<QuestionResult>, threshold: real): Row {
    Row(threshold, Counts(results, threshold), PrecisionRecallF1(Counts(results, threshold)))
  }

  method Sweep(results: seq<QuestionResult>, thresholds: seq<real>) returns (rows: seq<Row>)
    ensures |rows| == |thresholds|
    ensures forall i :: 0 <= i < |rows| ==> rows[i] == RowAt(results, thresholds[i])
  {
    rows := [];
    var i := 0;
    while i < |thresholds|
      invariant 0 <= i <= |thresholds| && |rows| == i
      invariant forall k :: 0 <= k < i ==> rows[k] == RowAt(results, thresholds[k])
    {
      var confusion := ConfusionAt(results, thresholds[i]);
      rows := rows + [Row(thresholds[i], confusion, PrecisionRecallF1(confusion))];
      i := i + 1;
    }
  }

  // ---------- The best row ----------

  function Scored(rows: seq<Row>): seq<Row> {
    if rows == [] then [] else
      var before, last := Scored(rows[..|rows| - 1]), rows[|rows| - 1];
      if last.metrics.f1.Some? then before + [last] else before
  }

  predicate Above(a: (real, real), b: (real, real)) { a.0 > b.0 || (a.0 == b.0 && a.1 > b.1) }

  /** Python's `max` by a key of two numbers: the first of the greatest. */
  function MaxBy(rows: seq<Row>, key: Row -> (real, real)): Row
    requires rows != []
  {
    var last := rows[|rows| - 1];
    if |rows| == 1 then last else
      var best := MaxBy(rows[..|rows| - 1], key);
      if Above(key(last), key(best)) then last else best
  }

  function PickBest(rows: seq<Row>): Row
    requires rows != []
  {
    var scored := Scored(rows);
    if scored == []
    then MaxBy(rows, (r: Row) => (if r.metrics.precision.Some? then r.metrics.precision.value else 0.0, r.threshold))
    else MaxBy(scored, (r: Row) => (if r.metrics.f1.Some? then r.metrics.f1.value else 0.0, r.threshold))
  }

  // ---------- What the counts mean ----------

  /** How a question's run through the pipeline ends. The service turns an unexpected failure of the graph
      into a generic answer with confidence 0.0; the confidence node may have been reached by then or not. */
  datatype Outcome =
    | HarnessError
    | Completed(state: Confidence.State)
    | GraphFailed(reached: Option<Confidence.State>)

  datatype Question = Question(isPositive: bool, outcome: Outcome)

  function Score(st: Confidence.State, sigmoid: real -> real): real {
    Confidence.WeightedScore(Confidence.Normalized(st, sigmoid))
  }

  /** What the evaluation run writes down. */
  function Recorded(q: Question, sigmoid: real -> real): QuestionResult {
    QuestionResult(q.isPositive,
                   match q.outcome
                   case HarnessError => None
                   case Completed(st) => Some(Score(st, sigmoid))
                   case GraphFailed(_) => Some(0.0))
  }

  function Record(qs: seq<Question>, sigmoid: real -> real): seq<QuestionResult> {
    seq(|qs|, i requires 0 <= i < |qs| => Recorded(qs[i], sigmoid))
  }

  /** The route the sweep counts a question under, if it counts it. */
  function ReplayedRoute(q: Question, sigmoid: real -> real, threshold: real): Option<Confidence.Route> {
    var r := Recorded(q, sigmoid);
    if r.confidence.None? then None else Some(PredictedRoute(r, threshold))
  }

  /** The route the live node takes on the same question at the threshold, if it gets there. */
  function LiveRoute(q: Question, sigmoid: real -> real, threshold: real): Option<Confidence.Route> {
    match q.outcome
    case HarnessError => None
    case Completed(st) => Some(Confidence.RouteOf(Score(st, sigmoid), threshold))
    case GraphFailed(None) => None
    case GraphFailed(Some(st)) => Some(Confidence.RouteOf(Score(st, sigmoid), threshold))
  }

  /** Replaying a recorded score is promised to be as good as running again. It is, exactly unless the graph
      failed and 0.0 falls on the other side of the threshold than the score, or there was no score. */
  lemma ReplayIsLiveIff(q: Question, sigmoid: real -> real, threshold: real)
    ensures ReplayedRoute(q, sigmoid, threshold) == LiveRoute(q, sigmoid, threshold) <==>
      match q.outcome
      case HarnessError => true
      case Completed(_) => true
      case GraphFailed(None) => false
      case GraphFailed(Some(st)) => (threshold <= 0.0 <==> Score(st, sigmoid) >= threshold)
  {
  }

  /** How many questions of a class the live node sends down a route at the threshold. */
  ghost function LiveCount(qs: seq<Question>, sigmoid: real -> real, threshold: real, positive: bool,
                           route: Confidence.Route): nat {
    if qs == [] then 0 else
      var q := qs[|qs| - 1];
      LiveCount(qs[..|qs| - 1], sigmoid, threshold, positive, route)
      + (if q.isPositive == positive && LiveRoute(q, sigmoid, threshold) == Some(route) then 1 else 0)
  }

  /** The questions whose graph did not fail. */
  ghost function WithoutFailures(qs: seq<Question>): seq<Question> {
    if qs == [] then [] else
      var before, q := WithoutFailures(qs[..|qs| - 1]), qs[|qs| - 1];
      if q.outcome.GraphFailed? then before else before + [q]
  }

  ghost function Failures(qs: seq<Question>, positive: bool): nat {
    if qs == [] then 0 else
      var q := qs[|qs| - 1];
      Failures(qs[..|qs| - 1], positive) + (if q.outcome.GraphFailed? && q.isPositive == positive then 1 else 0)
  }

  /** The counts of the sweep are those of the routes the live node takes on the questions whose graph did
      not fail, and every failure of the class on top, all of them under the route of a score of 0.0. */
  lemma {:induction false} FailuresAreCountedAtZero(qs: seq<Question>, sigmoid: real -> real, threshold: real,
                                                    positive: bool, route: Confidence.Route)
    ensures Count(Record(qs, sigmoid), threshold, positive, route)
            == LiveCount(WithoutFailures(qs), sigmoid, threshold, positive, route)
               + (if Confidence.RouteOf(0.0, threshold) == route then Failures(qs, positive) else 0)
  {
    if qs == [] {
    } else {
      hide Count, LiveCount, Record;
      var n := |qs| - 1;
      var before, results := WithoutFailures(qs[..n]), Record(qs[..n], sigmoid);
      FailuresAreCountedAtZero(qs[..n], sigmoid, threshold, positive, route);
      RecordPush(qs, sigmoid);
      CountPush(results, Recorded(qs[n], sigmoid), threshold, positive, route);
      LiveCountPush(before, qs[n], sigmoid, threshold, positive, route);
      OneQuestion(qs[n], sigmoid, threshold);
      hide Recorded, LiveRoute, PredictedRoute;
    }
  }

  lemma RecordPush(qs: seq<Question>, sigmoid: real -> real)
    requires qs != []
    ensures Record(qs, sigmoid) == Record(qs[..|qs| - 1], sigmoid) + [Recorded(qs[|qs| - 1], sigmoid)]
  {
    hide Recorded;
  }

  lemma OneQuestion(q: Question, sigmoid: real -> real, threshold: real)
    ensures
      var r := Recorded(q, sigmoid);
      && r.isPositive == q.isPositive
      && (r.confidence.None? <==> q.outcome.HarnessError?)
      && (q.outcome.HarnessError? ==> LiveRoute(q, sigmoid, threshold) == None)
      && (q.outcome.Completed? ==> LiveRoute(q, sigmoid, threshold) == Some(PredictedRoute(r, threshold)))
      && (q.outcome.GraphFailed? ==> PredictedRoute(r, threshold) == Confidence.RouteOf(0.0, threshold))
  {
    hide Score;
  }

  lemma CountPush(results: seq<QuestionResult>, r: QuestionResult, threshold: real, positive: bool,
                  route: Confidence.Route)
    ensures Count(results + [r], threshold, positive, route) == Count(results, threshold, positive, route)
      + (if r.confidence.Some? && r.isPositive == positive && PredictedRoute(r, threshold) == route then 1 else 0)
  {
    assert (results + [r])[..|results|] == results;
  }

  lemma LiveCountPush(qs: seq<Question>, q: Question, sigmoid: real -> real, threshold: real, positive: bool,
                      route: Confidence.Route)
    ensures LiveCount(qs + [q], sigmoid, threshold, positive, route)
      == LiveCount(qs, sigmoid, threshold, positive, route)
         + (if q.isPositive == positive && LiveRoute(q, sigmoid, threshold) == Some(route) then 1 else 0)
  {
    assert (qs + [q])[..|qs|] == qs;
  }

  /** When no graph failed, the sweep at any threshold is what the live node would have done at it. */
  lemma SweepReplaysLiveNode(qs: seq<Question>, sigmoid: real -> real, threshold: real, positive: bool,
                             route: Confidence.Route)
    requires forall i :: 0 <= i < |qs| ==> !qs[i].outcome.GraphFailed?
    ensures Count(Record(qs, sigmoid), threshold, positive, route)
            == LiveCount(qs, sigmoid, threshold, positive, route)
  {
    FailuresAreCountedAtZero(qs, sigmoid, threshold, positive, route);
    NothingFailed(qs, positive);
  }

  lemma {:induction false} NothingFailed(qs: seq<Question>, positive: bool)
    requires forall i :: 0 <= i < |qs| ==> !qs[i].outcome.GraphFailed?
    ensures WithoutFailures(qs) == qs && Failures(qs, positive) == 0
  {
    if qs == [] {
    } else {
      NothingFailed(qs[..|qs| - 1], positive);
      assert qs == qs[..|qs| - 1] + [qs[|qs| - 1]];
    }
  }

  /** What a score of 0.0 stands in for: at a live threshold of 0.6 a question scores 0.55, goes to
      investigation and fails there. The sweep then counts it as not answered at 0.5, where the live node
      would answer it. */
  lemma FailedRunIsMisread(sigmoid: real -> real) returns (q: Question)
    requires Confidence.IsSigmoid(sigmoid) && sigmoid(0.0) == 0.5
    ensures q.outcome.GraphFailed? && q.outcome.reached.Some? && Score(q.outcome.reached.value, sigmoid) == 0.55
    ensures LiveRoute(q, sigmoid, 0.6) == Some(Confidence.Investigation)
    ensures ReplayedRoute(q, sigmoid, 0.5) == Some(Confidence.Investigation)
    ensures LiveRoute(q, sigmoid, 0.5) == Some(Confidence.Answer)
  {
    var raw := 0.725 * Confidence.MAX_POSSIBLE_FUSED_SCORE;
    var st := Confidence.State([Confidence.Chunk("document", 0.0)], map[Confidence.TOP_SIMILARITY := raw], None);
    q := Question(true, GraphFailed(Some(st)));
    Confidence.ScoreOfThree(st, sigmoid, 0.725, 0.5);
  }

  ghost function ClassSize(results: seq<QuestionResult>, positive: bool): nat {
    if results == [] then 0 else
      var r := results[|results| - 1];
      ClassSize(results[..|results| - 1], positive) + (if r.confidence.Some? && r.isPositive == positive then 1 else 0)
  }

  /** At every threshold the positives split into hits and misses, and the negatives into false alarms and
      correct rejections. */
  lemma {:induction false} ClassesAreConstant(results: seq<QuestionResult>, threshold: real)
    ensures
      var c := Counts(results, threshold);
      c.tp + c.fn == ClassSize(results, true) && c.fp + c.tn == ClassSize(results, false)
  {
    if results == [] {
    } else {
      ClassesAreConstant(results[..|results| - 1], threshold);
    }
  }

  /** Raising the threshold answers fewer questions: hits and false alarms do not rise, misses and correct
      rejections do not fall. */
  lemma {:induction false} CountsAreMonotone(results: seq<QuestionResult>, t1: real, t2: real)
    requires t1 <= t2
    ensures
      var a, b := Counts(results, t1), Counts(results, t2);
      a.tp >= b.tp && a.fp >= b.fp && a.fn <= b.fn && a.tn <= b.tn
  {
    if results == [] {
    } else {
      CountsAreMonotone(results[..|results| - 1], t1, t2);
    }
  }

  lemma DivideProduct(x: real, y: real)
    requires y > 0.0
    ensures (x / y) * y == x
  {
  }

  /** The harmonic mean is 2tp / (2tp + fp + fn), and it exists exactly when there is a hit. */
  lemma F1Formula(c: Confusion)
    ensures PrecisionRecallF1(c).f1.Some? <==> c.tp > 0
    ensures c.tp > 0 ==> PrecisionRecallF1(c).f1.value == (2 * c.tp) as real / (2 * c.tp + c.fp + c.fn) as real
  {
    if c.tp > 0 {
      var tp, p, r := c.tp as real, (c.tp + c.fp) as real, (c.tp + c.fn) as real;
      PositiveRatio(tp, p);
      PositiveRatio(tp, r);
      HarmonicMean(tp, p, r);
      assert p + r == (2 * c.tp + c.fp + c.fn) as real;
    }
  }

  lemma PositiveRatio(x: real, y: real)
    requires x > 0.0 && y > 0.0
    ensures x / y > 0.0
  {
  }

  lemma HarmonicMean(tp: real, p: real, r: real)
    requires tp > 0.0 && p > 0.0 && r > 0.0
    ensures tp / p > 0.0 && tp / r > 0.0
    ensures 2.0 * (tp / p) * (tp / r) / (tp / p + tp / r) == 2.0 * tp / (p + r)
  {
    var x, y := tp / p, tp / r;
    PositiveRatio(tp, p);
    PositiveRatio(tp, r);
    DivideProduct(tp, p);
    DivideProduct(tp, r);
    var goal := 2.0 * tp / (p + r);
    DivideProduct(2.0 * tp, p + r);
    HarmonicStep(x, y, p, r, tp, goal);
    QuotientIs(2.0 * x * y, x + y, goal);
  }

  lemma HarmonicStep(x: real, y: real, p: real, r: real, tp: real, goal: real)
    requires p > 0.0 && r > 0.0
    requires x * p == tp && y * r == tp && goal * (p + r) == 2.0 * tp
    ensures goal * (x + y) == 2.0 * x * y
  {
    assert (goal * (x + y)) * (p * r) == goal * ((x * p) * r + (y * r) * p);
    assert goal * (tp * r + tp * p) == tp * (goal * (p + r));
    assert (2.0 * x * y) * (p * r) == 2.0 * (x * p) * (y * r);
    Cancel(goal * (x + y), 2.0 * x * y, p * r);
  }

  lemma Cancel(x: real, y: real, m: real)
    requires m != 0.0 && x * m == y * m
    ensures x == y
  {
    assert (x - y) * m == 0.0;
  }

  lemma QuotientIs(x: real, y: real, q: real)
    requires y > 0.0 && q * y == x
    ensures x / y == q
  {
  }

  lemma {:induction false} ScoredIsFilter(rows: seq<Row>)
    ensures forall r :: r in Scored(rows) <==> r in rows && r.metrics.f1.Some?
  {
    if rows == [] {
    } else {
      ScoredIsFilter(rows[..|rows| - 1]);
      assert rows == rows[..|rows| - 1] + [rows[|rows| - 1]];
    }
  }

  lemma {:induction false} MaxByIsMaximum(rows: seq<Row>, key: Row -> (real, real))
    requires rows != []
    ensures MaxBy(rows, key) in rows
    ensures forall r :: r in rows ==> !Above(key(r), key(MaxBy(rows, key)))
  {
    var n := |rows| - 1;
    assert rows == rows[..n] + [rows[n]];
    if n == 0 {
    } else {
      MaxByIsMaximum(rows[..n], key);
    }
  }

  /** The row picked has the greatest f1 of the sweep and, among those, the highest threshold. When no row
      has an f1, nothing was ever answered correctly and the highest threshold is picked. */
  lemma PickBestIsBest(results: seq<QuestionResult>, rows: seq<Row>)
    requires rows != []
    requires forall r :: r in rows ==> r == RowAt(results, r.threshold)
    ensures PickBest(rows) in rows
    ensures forall r :: r in rows && r.metrics.f1.Some? ==>
      && PickBest(rows).metrics.f1.Some?
      && r.metrics.f1.value <= PickBest(rows).metrics.f1.value
      && (r.metrics.f1 == PickBest(rows).metrics.f1 ==> r.threshold <= PickBest(rows).threshold)
    ensures PickBest(rows).metrics.f1.None? ==>
      forall r :: r in rows ==> r.confusion.tp == 0 && r.threshold <= PickBest(rows).threshold
  {
    hide PrecisionRecallF1, Counts;
    ScoredIsFilter(rows);
    var scored := Scored(rows);
    if scored == [] {
      var key := (r: Row) => (if r.metrics.precision.Some? then r.metrics.precision.value else 0.0, r.threshold);
      MaxByIsMaximum(rows, key);
      forall r | r in rows
        ensures r.confusion.tp == 0 && key(r).0 == 0.0
      {
        assert r !in scored;
        NoHitNoPrecision(r.confusion);
      }
    } else {
      MaxByIsMaximum(scored, (r: Row) => (if r.metrics.f1.Some? then r.metrics.f1.value else 0.0, r.threshold));
    }
  }

  lemma NoHitNoPrecision(c: Confusion)
    requires PrecisionRecallF1(c).f1.None?
    ensures c.tp == 0
    ensures PrecisionRecallF1(c).precision.Some? ==> PrecisionRecallF1(c).precision.value == 0.0
  {
    F1Formula(c);
  }

  // ---------- The counts in numbers ----------

  /** The results of a class that did not error and whose confidence is on one side of the threshold. */
  ghost function Where(results: seq<QuestionResult>, threshold: real, positive: bool, answered: bool): set<int> {
    set i | 0 <= i < |results| && results[i].isPositive == positive && results[i].confidence.Some?
            && (answered <==> results[i].confidence.value >= threshold)
  }

  lemma {:induction false} CountIsCardinality(results: seq<QuestionResult>, threshold: real, positive: bool,
                                              answered: bool)
    ensures Count(results, threshold, positive, if answered then Confidence.Answer else Confidence.Investigation)
            == |Where(results, threshold, positive, answered)|
  {
    if results == [] {
      assert Where(results, threshold, positive, answered) == {};
    } else {
      var n := |results| - 1;
      CountIsCardinality(results[..n], threshold, positive, answered);
      WherePush(results, threshold, positive, answered);
      hide Where;
    }
  }

  lemma WherePush(results: seq<QuestionResult>, threshold: real, positive: bool, answered: bool)
    requires results != []
    ensures
      var n, r := |results| - 1, results[|results| - 1];
      var before := Where(results[..n], threshold, positive, answered);
      && n !in before
      && Where(results, threshold, positive, answered)
         == if r.isPositive == positive && r.confidence.Some? && (answered <==> r.confidence.value >= threshold)
            then before + {n} else before
  {
    var n := |results| - 1;
    assert forall i :: 0 <= i < n ==> results[..n][i] == results[i];
  }

  /** A result is a hit, a false alarm, a miss or a correct rejection by its class and by whether its
      confidence reaches the threshold. */
  lemma CountsAreCardinalities(results: seq<QuestionResult>, threshold: real)
    ensures Counts(results, threshold) ==
      Confusion(|Where(results, threshold, true, true)|, |Where(results, threshold, false, true)|,
                |Where(results, threshold, true, false)|, |Where(results, threshold, false, false)|)
  {
    hide Count, Where;
    CountIsCardinality(results, threshold, true, true);
    CountIsCardinality(results, threshold, false, true);
    CountIsCardinality(results, threshold, true, false);
    CountIsCardinality(results, threshold, false, false);
  }

  /** Precision is the share of hits among what was answered, recall their share among what should have been,
      and accuracy the share of right decisions; each is undefined exactly when there is nothing to share. */
  lemma MetricsInNumbers(c: Confusion)
    ensures
      var m := PrecisionRecallF1(c);
      && (m.precision.None? <==> c.tp == 0 && c.fp == 0)
      && (m.precision.Some? ==> m.precision.value * (c.tp + c.fp) as real == c.tp as real)
      && (m.recall.None? <==> c.tp == 0 && c.fn == 0)
      && (m.recall.Some? ==> m.recall.value * (c.tp + c.fn) as real == c.tp as real)
      && (m.accuracy.None? <==> c.tp == 0 && c.fp == 0 && c.fn == 0 && c.tn == 0)
      && (m.accuracy.Some? ==> m.accuracy.value * (c.tp + c.fp + c.fn + c.tn) as real == (c.tp + c.tn) as real)
  {
    RatioTimes(c.tp, c.tp + c.fp);
    RatioTimes(c.tp, c.tp + c.fn);
    RatioTimes(c.tp + c.tn, c.tp + c.fp + c.fn + c.tn);
    hide Ratio;
  }

  lemma RatioTimes(x: nat, y: nat)
    ensures Ratio(x, y).None? <==> y == 0
    ensures Ratio(x, y).Some? ==> Ratio(x, y).value * y as real == x as real
  {
    if y != 0 {
      DivideProduct(x as real, y as real);
    }
  }
}
