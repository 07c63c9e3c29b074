/** What a run of the Knowledge Gap Agent reads and what it writes, figure by figure:
    app/agents/knowledge_gap/repository.py:42-55 and app/agents/knowledge_gap/pipeline.py:107-216. */
module GapSelection {
  import opened Wrappers
  import opened Vectors
  import opened Clustering
  import opened GapPipeline
  import opened GapEvidence

  // ---------- Which executions count ----------

  /** The answer agent finished, was less confident than the bound, recently enough, on a question it kept. */
  predicate LowConfidenceAnswer(e: Execution, s: Settings) {
    && e.org == s.org && e.agentName == "answer_question" && e.succeeded
    && e.confidence.Some? && e.confidence.value < s.maxConfidence && e.startedAt >= s.since
    && e.queryText.Some? && e.queryText.value != ""
  }

  lemma CandidatesAreLowConfidence(e: Execution, s: Settings)
    ensures IsCandidate(e, s) <==> LowConfidenceAnswer(e, s)
  {
  }

  /** Any other execution might as well not be there: one of another organization or agent, one that failed,
      has no confidence or one at or above the bound, started too early or kept no question. */
  lemma OthersChangeNothing(rows: seq<ReportRow>, before: seq<Execution>, e: Execution, after: seq<Execution>,
                            m: Models, s: Settings)
    requires Sound(m) && Comparable(rows, s.org, m.dimension)
    requires !LowConfidenceAnswer(e, s)
    ensures Detect(rows, before + [e] + after, m, s) == Detect(rows, before + after, m, s)
  {
    CandidatesAreLowConfidence(e, s);
    hide *;
    QueryableIsFilter(before + [e], after, s);
    QueryableIsFilter(before, [e], s);
    QueryableIsFilter([e], [], s);
    QueryableIsFilter(before, after, s);
    var none: seq<Candidate> := [];
    assert Queryable(before, s) + none == Queryable(before, s);
    OnlyCandidatesMatter(rows, before + [e] + after, before + after, m, s);
  }

  lemma OnlyCandidatesMatter(rows: seq<ReportRow>, a: seq<Execution>, b: seq<Execution>, m: Models, s: Settings)
    requires Sound(m) && Comparable(rows, s.org, m.dimension) && Queryable(a, s) == Queryable(b, s)
    ensures Detect(rows, a, m, s) == Detect(rows, b, m, s)
  {
    hide HandleAll, Qualifying, Groups, Queryable, Comparable, OpenReports;
  }

  // ---------- What is added ----------

  /** Every id a run adds, to an old report or in a new one, is that of such an execution, in a cluster of at
      least the minimum size. */
  ghost predicate AddedFrom(executions: seq<Execution>, m: Models, s: Settings, id: nat)
    requires Sound(m)
  {
    && (exists e :: e in executions && LowConfidenceAnswer(e, s) && e.id == id)
    && InLargeList(Queryable(executions, s), ClustersOf(executions, m, s), s.minClusterSize, id)
  }

  lemma AddedIdsAreLowConfidence(rows: seq<ReportRow>, executions: seq<Execution>, m: Models, s: Settings,
                                 i: nat, id: nat)
    requires Sound(m) && Comparable(rows, s.org, m.dimension)
    requires i < |Detect(rows, executions, m, s).rows| && id in Detect(rows, executions, m, s).rows[i].supportingIds
    ensures (i < |rows| && id in rows[i].supportingIds) || AddedFrom(executions, m, s, id)
  {
    hide HandleAll, Groups, Usable, Sound, Average, OpenReports, Queryable, Qualifying;
    var queryable, gaps := Queryable(executions, s), Gaps(executions, m, s);
    OpenIsUsable(rows, s.org, m.dimension);
    HandleAllConserves(Progress(rows, []), OpenReports(rows, s.org), gaps, m, s);
    DetectIsHandleAll(rows, executions, m, s);
    if !(i < |rows| && id in rows[i].supportingIds) {
      assert id in AllIds(gaps);
      var embeddings := Embeddings(queryable, m);
      ListsIndexEmbeddings(m, s, embeddings);
      QualifyingIds(queryable, embeddings, ClustersOf(executions, m, s), s.minClusterSize, m.dimension);
      var c :| c in queryable && c.id == id;
      var e :| e in executions && IsCandidate(e, s) && c == Candidate(e.id, e.queryText.value);
      CandidatesAreLowConfidence(e, s);
    }
  }

  // ---------- What is evidenced ----------

  /** Where an execution stands among the candidates of a run. */
  ghost predicate StandsAt(executions: seq<Execution>, s: Settings, e: Execution, at: nat) {
    && e.queryText.Some? && at < |Queryable(executions, s)|
    && Queryable(executions, s)[at] == Candidate(e.id, e.queryText.value)
  }

  /** Every low-confidence answer is in exactly one cluster of the run. */
  lemma EveryAnswerIsClustered(executions: seq<Execution>, m: Models, s: Settings, e: Execution)
      returns (at: nat, g: nat)
    requires Sound(m) && e in executions && LowConfidenceAnswer(e, s)
    ensures StandsAt(executions, s, e, at)
    ensures g < |ClustersOf(executions, m, s)| && at in ClustersOf(executions, m, s)[g]
    ensures forall h :: 0 <= h < |ClustersOf(executions, m, s)| && h != g ==> at !in ClustersOf(executions, m, s)[h]
  {
    CandidatesAreLowConfidence(e, s);
    hide Groups;
    var queryable := Queryable(executions, s);
    var c := Candidate(e.id, e.queryText.value);
    at :| 0 <= at < |queryable| && queryable[at] == c;
    g := InOneCluster(Embeddings(queryable, m), m, s, at);
  }

  lemma InOneCluster(embeddings: seq<Vector>, m: Models, s: Settings, at: nat) returns (g: nat)
    requires IsSqrt(m.sqrt) && SameDimension(embeddings, m.dimension) && at < |embeddings|
    ensures
      var lists := Members(Groups(m.sqrt, embeddings, s.similarityThreshold, |embeddings|, m.dimension));
      && g < |lists| && at in lists[g]
      && forall h :: 0 <= h < |lists| && h != g ==> at !in lists[h]
  {
    ClustersPartition(m.sqrt, embeddings, s.similarityThreshold, |embeddings|, m.dimension);
    var groups := Groups(m.sqrt, embeddings, s.similarityThreshold, |embeddings|, m.dimension);
    hide Groups;
    assert Placed(groups, at);
    g :| 0 <= g < |groups| && at in groups[g].members;
    forall h | 0 <= h < |groups| && h != g
      ensures at !in groups[h].members
    {
      if h < g {
        assert Apart(groups[h].members, groups[g].members);
      } else {
        assert Apart(groups[g].members, groups[h].members);
      }
    }
  }

  /** If that cluster reaches the minimum size, some returned report lists the execution at the end of the
      run. */
  lemma LowConfidenceIsEvidenced(rows: seq<ReportRow>, executions: seq<Execution>, m: Models, s: Settings,
                                 e: Execution, at: nat, g: nat)
    requires Sound(m) && Comparable(rows, s.org, m.dimension)
    requires |Queryable(executions, s)| >= s.minClusterSize && StandsAt(executions, s, e, at)
    requires g < |ClustersOf(executions, m, s)| && |ClustersOf(executions, m, s)[g]| >= s.minClusterSize
    requires at in ClustersOf(executions, m, s)[g]
    ensures
      var p := Detect(rows, executions, m, s);
      exists r :: r in p.results && r < |p.rows| && e.id in p.rows[r].supportingIds
  {
    hide Detect, ClustersOf, Queryable, Sound, Comparable;
    EveryClusterIsEvidenced(rows, executions, m, s, g);
    var p, members := Detect(rows, executions, m, s), ClustersOf(executions, m, s)[g];
    var k :| 0 <= k < |members| && members[k] == at;
    var r :| r in p.results && r < |p.rows| && SupportedBy(p.rows[r], Queryable(executions, s), members);
    assert Queryable(executions, s)[members[k]].id in p.rows[r].supportingIds;
  }

  // ---------- When nothing happens ----------

  lemma {:induction false} NoneQualify(queryable: seq<Candidate>, embeddings: seq<Vector>, lists: seq<seq<nat>>,
                                       minSize: int, dimension: nat)
    requires SameDimension(embeddings, dimension) && |queryable| == |embeddings| && IndexLists(lists, |embeddings|)
    requires forall g :: 0 <= g < |lists| ==> |lists[g]| < minSize
    ensures Qualifying(queryable, embeddings, lists, minSize, dimension) == []
    decreases |lists|
  {
    if lists == [] {
    } else {
      NoneQualify(queryable, embeddings, lists[..|lists| - 1], minSize, dimension);
    }
  }

  /** With fewer candidates than the minimum cluster size, or no cluster that reaches it, a run changes
      nothing and returns nothing. */
  lemma OneOffQuestionsChangeNothing(rows: seq<ReportRow>, executions: seq<Execution>, m: Models, s: Settings)
    requires Sound(m) && Comparable(rows, s.org, m.dimension)
    requires |Queryable(executions, s)| < s.minClusterSize
             || forall g :: 0 <= g < |ClustersOf(executions, m, s)| ==>
                  |ClustersOf(executions, m, s)[g]| < s.minClusterSize
    ensures Detect(rows, executions, m, s) == Progress(rows, [])
  {
    hide Groups, Qualifying, Queryable, OpenReports;
    var queryable := Queryable(executions, s);
    OpenIsUsable(rows, s.org, m.dimension);
    if |queryable| >= s.minClusterSize {
      var embeddings := Embeddings(queryable, m);
      ListsIndexEmbeddings(m, s, embeddings);
      NoneQualify(queryable, embeddings, ClustersOf(executions, m, s), s.minClusterSize, m.dimension);
    }
  }

  // ---------- New reports ----------

  /** A report on a cluster: every execution in order, the topic the model makes of their questions, the mean
      of their embeddings, and the document to update if the search finds one at a score of 0.6 or more. */
  ghost predicate ReportOn(row: ReportRow, queryable: seq<Candidate>, embeddings: seq<Vector>, members: seq<nat>,
                           m: Models, s: Settings)
    requires Sound(m) && SameDimension(embeddings, m.dimension) && |queryable| == |embeddings|
  {
    && (forall k :: 0 <= k < |members| ==> members[k] < |queryable|)
    && row.org == s.org && row.open
    && |row.supportingIds| == |members|
    && (forall k :: 0 <= k < |members| ==> row.supportingIds[k] == queryable[members[k]].id)
    && row.topic == m.synthesizeTopic(seq(|members|, k requires 0 <= k < |members| => queryable[members[k]].question))
    && row.action == (match m.search(s.org, row.topic)
                      case None => NewRunbook
                      case Some((documentId, score)) => if score >= 0.6 then UpdateExisting(documentId) else NewRunbook)
    && |row.topicEmbedding| == m.dimension
    && forall d :: 0 <= d < m.dimension ==>
         row.topicEmbedding[d] * |members| as real == ColumnSum(MembersOf(members, embeddings), d)
  }

  lemma NewReportIsOn(queryable: seq<Candidate>, embeddings: seq<Vector>, members: seq<nat>, m: Models, s: Settings)
    requires Sound(m) && SameDimension(embeddings, m.dimension) && |queryable| == |embeddings|
    requires members != [] && forall k :: 0 <= k < |members| ==> members[k] < |queryable|
    ensures ReportOn(NewReport(m, s, GapOf(queryable, embeddings, members, m.dimension)),
                     queryable, embeddings, members, m, s)
  {
    var gap := GapOf(queryable, embeddings, members, m.dimension);
    assert gap.queries == seq(|members|, k requires 0 <= k < |members| => queryable[members[k]].question);
    forall d | 0 <= d < m.dimension
      ensures gap.centroid[d] * |members| as real == ColumnSum(MembersOf(members, embeddings), d)
    {
      hide ColumnSum;
      MeanTimesCount(ColumnSum(MembersOf(members, embeddings), d), |members| as real);
    }
    hide ColumnSum, Average;
  }

  lemma MeanTimesCount(sum: real, n: real)
    requires n > 0.0
    ensures sum / n * n == sum
  {
  }

  /** A centroid times its member count is the running sum. */
  lemma CentroidTimesCount(g: Group, d: nat)
    requires g.members != [] && d < |g.sum|
    ensures CentroidOf(g)[d] * |g.members| as real == g.sum[d]
  {
    MeanTimesCount(g.sum[d], |g.members| as real);
  }

  ghost predicate NewFromGaps(rows: seq<ReportRow>, p: Progress, gaps: seq<Gap>, m: Models, s: Settings) {
    && |p.results| == |gaps| && |rows| <= |p.rows|
    && forall i :: |rows| <= i < |p.rows| ==> exists j :: 0 <= j < |gaps| && p.rows[i] == NewReport(m, s, gaps[j])
  }

  lemma {:induction false} HandleAllInserts(rows: seq<ReportRow>, open: seq<nat>, gaps: seq<Gap>, m: Models,
                                            s: Settings)
    requires Usable(rows, open, m.dimension) && GapsFit(gaps, m.dimension)
    ensures NewFromGaps(rows, HandleAll(Progress(rows, []), open, gaps, m, s), gaps, m, s)
    decreases |gaps|
  {
    if gaps == [] {
    } else {
      hide Handle, Usable, NewReport;
      var n := |gaps| - 1;
      HandleAllInserts(rows, open, gaps[..n], m, s);
      var before := HandleAll(Progress(rows, []), open, gaps[..n], m, s);
      var after := Handle(before, open, gaps[n], m, s);
      HandleInserts(before, rows, open, gaps[n], m, s);
      forall i | |rows| <= i < |after.rows|
        ensures exists j :: 0 <= j < |gaps| && after.rows[i] == NewReport(m, s, gaps[j])
      {
        if i < |before.rows| {
          assert after.rows[i] == before.rows[i];
          var j :| 0 <= j < n && before.rows[i] == NewReport(m, s, gaps[..n][j]);
          assert gaps[j] == gaps[..n][j];
        } else {
          assert after.rows[i] == NewReport(m, s, gaps[n]);
        }
      }
    }
  }

  lemma HandleInserts(p: Progress, rows: seq<ReportRow>, open: seq<nat>, gap: Gap, m: Models, s: Settings)
    requires Usable(p.rows, open, m.dimension) && |gap.centroid| == m.dimension
    requires Usable(rows, open, m.dimension) && |rows| <= |p.rows|
    ensures
      var p' := Handle(p, open, gap, m, s);
      && |p'.results| == |p.results| + 1 && |p.rows| <= |p'.rows| <= |p.rows| + 1
      && (forall i :: |rows| <= i < |p.rows| ==> p'.rows[i] == p.rows[i])
      && (forall i :: |p.rows| <= i < |p'.rows| ==> p'.rows[i] == NewReport(m, s, gap))
  {
    hide MostSimilar, SortIds, NewReport;
    if Mergeable(m.sqrt, gap.centroid, p.rows, open).Some? {
      var i :| 0 <= i < |open| && open[i] == Mergeable(m.sqrt, gap.centroid, p.rows, open).value;
      assert open[i] < |rows|;
    }
  }

  lemma {:induction false} QualifyingAre(queryable: seq<Candidate>, embeddings: seq<Vector>, lists: seq<seq<nat>>,
                                         minSize: int, dimension: nat, gap: Gap) returns (g: nat)
    requires SameDimension(embeddings, dimension) && |queryable| == |embeddings| && IndexLists(lists, |embeddings|)
    requires gap in Qualifying(queryable, embeddings, lists, minSize, dimension)
    ensures g < |lists| && |lists[g]| >= minSize && gap == GapOf(queryable, embeddings, lists[g], dimension)
    decreases |lists|
  {
    hide GapOf;
    var n := |lists| - 1;
    if gap in Qualifying(queryable, embeddings, lists[..n], minSize, dimension) {
      g := QualifyingAre(queryable, embeddings, lists[..n], minSize, dimension, gap);
    } else {
      g := n;
    }
  }

  /** Every report a run inserts is on a cluster of at least the minimum size. */
  lemma InsertedReportsAreOnClusters(rows: seq<ReportRow>, executions: seq<Execution>, m: Models, s: Settings,
                                     i: nat) returns (g: nat)
    requires Sound(m) && Comparable(rows, s.org, m.dimension)
    requires |rows| <= i < |Detect(rows, executions, m, s).rows|
    ensures g < |ClustersOf(executions, m, s)| && |ClustersOf(executions, m, s)[g]| >= s.minClusterSize
    ensures ReportOn(Detect(rows, executions, m, s).rows[i], Queryable(executions, s),
                     Embeddings(Queryable(executions, s), m), ClustersOf(executions, m, s)[g], m, s)
  {
    hide HandleAll, Groups, Usable, Sound, Average, OpenReports, Queryable, Qualifying, NewReport, ReportOn, GapOf;
    var queryable, gaps := Queryable(executions, s), Gaps(executions, m, s);
    var embeddings, lists := Embeddings(queryable, m), ClustersOf(executions, m, s);
    OpenIsUsable(rows, s.org, m.dimension);
    DetectIsHandleAll(rows, executions, m, s);
    HandleAllInserts(rows, OpenReports(rows, s.org), gaps, m, s);
    var j :| 0 <= j < |gaps| && Detect(rows, executions, m, s).rows[i] == NewReport(m, s, gaps[j]);
    ListsIndexEmbeddings(m, s, embeddings);
    g := QualifyingAre(queryable, embeddings, lists, s.minClusterSize, m.dimension, gaps[j]);
    NewReportIsOn(queryable, embeddings, lists[g], m, s);
  }

  // ---------- Which report is merged into ----------

  /** Of several open reports equally near, the first of the list is merged into. */
  lemma {:induction false} FirstOfTheNearest(sqrt: real -> real, centroid: Vector, rows: seq<ReportRow>, open: seq<nat>)
      returns (k: nat)
    requires Fits(rows, open, centroid) && MostSimilar(sqrt, centroid, rows, open).0.Some?
    ensures k < |open| && open[k] == MostSimilar(sqrt, centroid, rows, open).0.value
    ensures forall i :: 0 <= i < k ==>
              CosineSimilarity(sqrt, centroid, rows[open[i]].topicEmbedding)
              < CosineSimilarity(sqrt, centroid, rows[open[k]].topicEmbedding)
    decreases |open|
  {
    hide CosineSimilarity;
    var n := |open| - 1;
    MostSimilarIsMaximum(sqrt, centroid, rows, open[..n]);
    if CosineSimilarity(sqrt, centroid, rows[open[n]].topicEmbedding) > MostSimilar(sqrt, centroid, rows, open[..n]).1 {
      k := n;
      assert forall i :: 0 <= i < n ==> open[..n][i] == open[i];
    } else {
      k := FirstOfTheNearest(sqrt, centroid, rows, open[..n]);
    }
  }
}
