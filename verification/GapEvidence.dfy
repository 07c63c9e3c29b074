/** What the Knowledge Gap Agent keeps, within a run and across runs. */
module GapEvidence {
  import opened Wrappers
  import opened Vectors
  import opened Clustering
  import opened GapPipeline

  // ---------- Conservation of evidence ----------

  /** Rows only accumulate, and only their supporting ids change, by gaining ids of `added`. */
  ghost predicate Grows(rows: seq<ReportRow>, rows': seq<ReportRow>, added: set<nat>) {
    && |rows| <= |rows'|
    && (forall i :: 0 <= i < |rows| ==>
          && rows'[i] == rows[i].(supportingIds := rows'[i].supportingIds)
          && (forall id :: id in rows[i].supportingIds ==> id in rows'[i].supportingIds)
          && (forall id :: id in rows'[i].supportingIds ==> id in rows[i].supportingIds || id in added))
    && forall i :: |rows| <= i < |rows'| ==> forall id :: id in rows'[i].supportingIds ==> id in added
  }

  ghost function IdsOf(gap: Gap): set<nat> { set id | id in gap.ids }

  ghost function AllIds(gaps: seq<Gap>): set<nat> {
    if gaps == [] then {} else AllIds(gaps[..|gaps| - 1]) + IdsOf(gaps[|gaps| - 1])
  }

  /** Some returned report supports itself with every id of the gap. */
  ghost predicate Evidenced(p: Progress, gap: Gap) {
    exists r :: r in p.results && r < |p.rows| && forall id :: id in gap.ids ==> id in p.rows[r].supportingIds
  }

  lemma GrowsThrough(a: seq<ReportRow>, b: seq<ReportRow>, c: seq<ReportRow>, x: set<nat>, y: set<nat>)
    requires Grows(a, b, x) && Grows(b, c, y)
    ensures Grows(a, c, x + y)
  {
    forall i | 0 <= i < |a|
      ensures c[i] == a[i].(supportingIds := c[i].supportingIds)
      ensures forall id :: id in a[i].supportingIds ==> id in c[i].supportingIds
    {
      assert b[i] == a[i].(supportingIds := b[i].supportingIds);
      assert c[i] == b[i].(supportingIds := c[i].supportingIds);
    }
  }

  lemma HandleGrows(p: Progress, open: seq<nat>, gap: Gap, m: Models, s: Settings)
    requires Usable(p.rows, open, m.dimension) && |gap.centroid| == m.dimension
    ensures Grows(p.rows, Handle(p, open, gap, m, s).rows, IdsOf(gap))
    ensures Evidenced(Handle(p, open, gap, m, s), gap)
    ensures p.results <= Handle(p, open, gap, m, s).results
  {
    hide MostSimilar, SortIds;
    var p' := Handle(p, open, gap, m, s);
    var r := p'.results[|p.results|];
    assert r in p'.results && r < |p'.rows|;
    assert forall id :: id in gap.ids ==> id in p'.rows[r].supportingIds;
  }

  lemma EvidenceLasts(p: Progress, p': Progress, gap: Gap, added: set<nat>)
    requires Evidenced(p, gap) && Grows(p.rows, p'.rows, added) && p.results <= p'.results
    ensures Evidenced(p', gap)
  {
    var r :| r in p.results && r < |p.rows| && forall id :: id in gap.ids ==> id in p.rows[r].supportingIds;
    assert r in p'.results;
  }

  lemma {:induction false} HandleAllConserves(p: Progress, open: seq<nat>, gaps: seq<Gap>, m: Models, s: Settings)
    requires Usable(p.rows, open, m.dimension) && GapsFit(gaps, m.dimension)
    ensures Grows(p.rows, HandleAll(p, open, gaps, m, s).rows, AllIds(gaps))
    ensures p.results <= HandleAll(p, open, gaps, m, s).results
    ensures forall i :: 0 <= i < |gaps| ==> Evidenced(HandleAll(p, open, gaps, m, s), gaps[i])
    decreases |gaps|
  {
    hide Handle, Evidenced, Usable;
    if gaps == [] {
    } else {
      var n := |gaps| - 1;
      var before := HandleAll(p, open, gaps[..n], m, s);
      HandleAllConserves(p, open, gaps[..n], m, s);
      HandleGrows(before, open, gaps[n], m, s);
      var after := Handle(before, open, gaps[n], m, s);
      GrowsThrough(p.rows, before.rows, after.rows, AllIds(gaps[..n]), IdsOf(gaps[n]));
      forall i | 0 <= i < n
        ensures Evidenced(after, gaps[i])
      {
        assert gaps[..n][i] == gaps[i];
        EvidenceLasts(before, after, gaps[i], IdsOf(gaps[n]));
      }
    }
  }

  /** The ids of the executions a run may look at. */
  ghost predicate IsSelectedId(executions: seq<Execution>, s: Settings, id: nat) {
    exists e :: e in executions && IsCandidate(e, s) && e.id == id
  }

  /** The id is that of a member of a list of at least the minimum size. */
  ghost predicate InLargeList(queryable: seq<Candidate>, lists: seq<seq<nat>>, minSize: int, id: nat) {
    exists g, k :: 0 <= g < |lists| && |lists[g]| >= minSize && 0 <= k < |lists[g]| && lists[g][k] < |queryable|
                   && queryable[lists[g][k]].id == id
  }

  lemma LargeListLasts(queryable: seq<Candidate>, lists: seq<seq<nat>>, minSize: int, id: nat)
    requires lists != [] && InLargeList(queryable, lists[..|lists| - 1], minSize, id)
    ensures InLargeList(queryable, lists, minSize, id)
  {
    var before := lists[..|lists| - 1];
    var g, k :| 0 <= g < |before| && |before[g]| >= minSize && 0 <= k < |before[g]| && before[g][k] < |queryable|
                && queryable[before[g][k]].id == id;
    assert lists[g] == before[g];
  }

  lemma {:induction false} QualifyingIds(queryable: seq<Candidate>, embeddings: seq<Vector>, lists: seq<seq<nat>>,
                                         minSize: int, dimension: nat)
    requires SameDimension(embeddings, dimension) && |queryable| == |embeddings|
    requires IndexLists(lists, |embeddings|)
    ensures forall id :: id in AllIds(Qualifying(queryable, embeddings, lists, minSize, dimension)) ==>
      exists c :: c in queryable && c.id == id
    ensures forall id :: id in AllIds(Qualifying(queryable, embeddings, lists, minSize, dimension)) ==>
      InLargeList(queryable, lists, minSize, id)
    ensures forall g :: 0 <= g < |lists| && |lists[g]| >= minSize ==>
      GapOf(queryable, embeddings, lists[g], dimension) in Qualifying(queryable, embeddings, lists, minSize, dimension)
    decreases |lists|
  {
    hide Average;
    if lists == [] {
    } else {
      var n := |lists| - 1;
      QualifyingIds(queryable, embeddings, lists[..n], minSize, dimension);
      var before := Qualifying(queryable, embeddings, lists[..n], minSize, dimension);
      var gap := GapOf(queryable, embeddings, lists[n], dimension);
      assert (before + [gap])[..|before|] == before;
      forall id | id in gap.ids
        ensures exists c :: c in queryable && c.id == id
      {
        var k :| 0 <= k < |gap.ids| && gap.ids[k] == id;
        assert queryable[lists[n][k]] in queryable;
      }
      var qualifying := Qualifying(queryable, embeddings, lists, minSize, dimension);
      forall id | id in AllIds(qualifying)
        ensures InLargeList(queryable, lists, minSize, id)
      {
        if id in AllIds(before) {
          LargeListLasts(queryable, lists, minSize, id);
        } else {
          assert qualifying == before + [gap] && id in IdsOf(gap);
          var k :| 0 <= k < |gap.ids| && gap.ids[k] == id;
          assert queryable[lists[n][k]].id == id;
        }
      }
      assert forall g :: 0 <= g < n ==> lists[..n][g] == lists[g];
    }
  }

  /** The clusters of a run, as lists of positions among its candidates. */
  ghost function ClustersOf(executions: seq<Execution>, m: Models, s: Settings): seq<seq<nat>>
    requires Sound(m)
  {
    var embeddings := Embeddings(Queryable(executions, s), m);
    Members(Groups(m.sqrt, embeddings, s.similarityThreshold, |embeddings|, m.dimension))
  }

  /** Some returned report is supported by every execution of the cluster. */
  ghost predicate ClusterEvidenced(p: Progress, queryable: seq<Candidate>, members: seq<nat>) {
    && (forall k :: 0 <= k < |members| ==> members[k] < |queryable|)
    && exists r :: r in p.results && r < |p.rows| && SupportedBy(p.rows[r], queryable, members)
  }

  ghost predicate SupportedBy(row: ReportRow, queryable: seq<Candidate>, members: seq<nat>)
    requires forall k :: 0 <= k < |members| ==> members[k] < |queryable|
  {
    forall k :: 0 <= k < |members| ==> queryable[members[k]].id in row.supportingIds
  }

  /** Evidence is conserved, whichever clusters merge into the same report: at the end of the run every
      execution of every qualifying cluster supports some returned report. */
  lemma EveryClusterIsEvidenced(rows: seq<ReportRow>, executions: seq<Execution>, m: Models, s: Settings, g: nat)
    requires Sound(m) && Comparable(rows, s.org, m.dimension)
    requires |Queryable(executions, s)| >= s.minClusterSize
    requires g < |ClustersOf(executions, m, s)| && |ClustersOf(executions, m, s)[g]| >= s.minClusterSize
    ensures ClusterEvidenced(Detect(rows, executions, m, s), Queryable(executions, s), ClustersOf(executions, m, s)[g])
  {
    hide HandleAll, Groups, Usable, Sound, Average, OpenReports, Queryable;
    var queryable, gaps := Queryable(executions, s), Gaps(executions, m, s);
    var embeddings, clusters := Embeddings(queryable, m), ClustersOf(executions, m, s);
    OpenIsUsable(rows, s.org, m.dimension);
    HandleAllConserves(Progress(rows, []), OpenReports(rows, s.org), gaps, m, s);
    ListsIndexEmbeddings(m, s, embeddings);
    QualifyingIds(queryable, embeddings, clusters, s.minClusterSize, m.dimension);
    var gap := GapOf(queryable, embeddings, clusters[g], m.dimension);
    var i :| 0 <= i < |gaps| && gaps[i] == gap;
    DetectIsHandleAll(rows, executions, m, s);
    EvidencedGapIsCluster(Detect(rows, executions, m, s), queryable, embeddings, clusters[g], m.dimension);
  }

  lemma EvidencedGapIsCluster(p: Progress, queryable: seq<Candidate>, embeddings: seq<Vector>, members: seq<nat>,
                              dimension: nat)
    requires members != [] && SameDimension(embeddings, dimension) && |queryable| == |embeddings|
    requires forall k :: 0 <= k < |members| ==> members[k] < |embeddings|
    requires Evidenced(p, GapOf(queryable, embeddings, members, dimension))
    ensures ClusterEvidenced(p, queryable, members)
  {
    var gap := GapOf(queryable, embeddings, members, dimension);
    var r :| r in p.results && r < |p.rows| && forall id :: id in gap.ids ==> id in p.rows[r].supportingIds;
    forall k | 0 <= k < |members|
      ensures queryable[members[k]].id in p.rows[r].supportingIds
    {
      assert gap.ids[k] in gap.ids;
    }
    assert SupportedBy(p.rows[r], queryable, members);
  }

  /** No report loses an id or changes in any other way, and every id a run adds, to an old report or to a
      new one, is that of a selected low-confidence execution. */
  lemma OnlySelectedIdsAreAdded(rows: seq<ReportRow>, executions: seq<Execution>, m: Models, s: Settings)
    returns (added: set<nat>)
    requires Sound(m) && Comparable(rows, s.org, m.dimension)
    ensures Grows(rows, Detect(rows, executions, m, s).rows, added)
    ensures forall id :: id in added ==> IsSelectedId(executions, s, id)
  {
    hide HandleAll, Groups, Usable, Sound, Average, OpenReports, Queryable, Qualifying;
    var queryable, gaps := Queryable(executions, s), Gaps(executions, m, s);
    added := AllIds(gaps);
    OpenIsUsable(rows, s.org, m.dimension);
    HandleAllConserves(Progress(rows, []), OpenReports(rows, s.org), gaps, m, s);
    DetectIsHandleAll(rows, executions, m, s);
    if |queryable| >= s.minClusterSize {
      var embeddings := Embeddings(queryable, m);
      ListsIndexEmbeddings(m, s, embeddings);
      QualifyingIds(queryable, embeddings, ClustersOf(executions, m, s), s.minClusterSize, m.dimension);
      CandidatesAreSelected(executions, s, added);
    }
  }

  lemma CandidatesAreSelected(executions: seq<Execution>, s: Settings, ids: set<nat>)
    requires forall id :: id in ids ==> exists c :: c in Queryable(executions, s) && c.id == id
    ensures forall id :: id in ids ==> IsSelectedId(executions, s, id)
  {
    forall id | id in ids
      ensures IsSelectedId(executions, s, id)
    {
      var c :| c in Queryable(executions, s) && c.id == id;
      var e :| e in executions && IsCandidate(e, s) && c == Candidate(e.id, e.queryText.value);
    }
  }

  // ---------- Merging ----------

  ghost predicate Near(sqrt: real -> real, gap: Gap, row: ReportRow) {
    && |row.topicEmbedding| == |gap.centroid|
    && CosineSimilarity(sqrt, gap.centroid, row.topicEmbedding) >= 0.9
  }

  lemma {:induction false} MostSimilarIsMaximum(
      sqrt: real -> real, centroid: Vector, rows: seq<ReportRow>, open: seq<nat>)
    requires Fits(rows, open, centroid)
    ensures
      var (r, best) := MostSimilar(sqrt, centroid, rows, open);
      && best >= -1.0 && (r.None? ==> best == -1.0)
      && (r.Some? ==> r.value in open && r.value < |rows| && |rows[r.value].topicEmbedding| == |centroid|
                      && best == CosineSimilarity(sqrt, centroid, rows[r.value].topicEmbedding))
      && forall i :: 0 <= i < |open| ==> CosineSimilarity(sqrt, centroid, rows[open[i]].topicEmbedding) <= best
    decreases |open|
  {
    hide CosineSimilarity;
    if open == [] {
    } else {
      MostSimilarIsMaximum(sqrt, centroid, rows, open[..|open| - 1]);
    }
  }

  /** A gap is merged exactly when some open report is near it, and then into one that no open report is
      nearer than. */
  lemma MergesIffNear(gap: Gap, rows: seq<ReportRow>, open: seq<nat>, m: Models)
    requires Usable(rows, open, m.dimension) && |gap.centroid| == m.dimension
    ensures Mergeable(m.sqrt, gap.centroid, rows, open).Some? <==>
            exists id: nat :: id in open && id < |rows| && Near(m.sqrt, gap, rows[id])
    ensures Mergeable(m.sqrt, gap.centroid, rows, open).Some? ==>
            var id := Mergeable(m.sqrt, gap.centroid, rows, open).value;
            && id in open && id < |rows| && Near(m.sqrt, gap, rows[id])
            && forall i :: 0 <= i < |open| ==>
                 CosineSimilarity(m.sqrt, gap.centroid, rows[open[i]].topicEmbedding)
                 <= CosineSimilarity(m.sqrt, gap.centroid, rows[id].topicEmbedding)
  {
    hide CosineSimilarity;
    MostSimilarIsMaximum(m.sqrt, gap.centroid, rows, open);
    if id: nat :| id in open && id < |rows| && Near(m.sqrt, gap, rows[id]) {
      var i :| 0 <= i < |open| && open[i] == id;
    }
  }

  // ---------- Running again ----------

  /** Some open report of the organization is near the gap. */
  ghost predicate Covered(rows: seq<ReportRow>, gap: Gap, m: Models, s: Settings) {
    exists id: nat :: id < |rows| && rows[id].org == s.org && rows[id].open && Near(m.sqrt, gap, rows[id])
  }

  lemma CoverLasts(rows: seq<ReportRow>, rows': seq<ReportRow>, added: set<nat>, gap: Gap, m: Models, s: Settings)
    requires Grows(rows, rows', added) && Covered(rows, gap, m, s)
    ensures Covered(rows', gap, m, s)
  {
    var id: nat :| id < |rows| && rows[id].org == s.org && rows[id].open && Near(m.sqrt, gap, rows[id]);
    assert rows'[id] == rows[id].(supportingIds := rows'[id].supportingIds);
  }

  /** The open reports of the start of a run stay open reports of the organization, unmoved. */
  ghost predicate StillOpen(rows: seq<ReportRow>, open: seq<nat>, s: Settings) {
    forall i :: 0 <= i < |open| ==> open[i] < |rows| && rows[open[i]].org == s.org && rows[open[i]].open
  }

  lemma HandleCovers(p: Progress, open: seq<nat>, gap: Gap, m: Models, s: Settings)
    requires Sound(m) && Usable(p.rows, open, m.dimension) && |gap.centroid| == m.dimension
    requires StillOpen(p.rows, open, s)
    ensures StillOpen(Handle(p, open, gap, m, s).rows, open, s)
    ensures Comparable(p.rows, s.org, m.dimension) ==> Comparable(Handle(p, open, gap, m, s).rows, s.org, m.dimension)
    ensures Nonzero(gap.centroid) ==> Covered(Handle(p, open, gap, m, s).rows, gap, m, s)
  {
    hide CosineSimilarity, SortIds;
    var p', merge := Handle(p, open, gap, m, s), Mergeable(m.sqrt, gap.centroid, p.rows, open);
    MergesIffNear(gap, p.rows, open, m);
    if Nonzero(gap.centroid) {
      match merge
      case Some(id) =>
        assert Near(m.sqrt, gap, p'.rows[id]);
      case None =>
        CosineOfSelf(m.sqrt, gap.centroid);
        assert Near(m.sqrt, gap, p'.rows[|p.rows|]);
    }
  }

  lemma {:induction false} HandleAllCovers(p: Progress, open: seq<nat>, gaps: seq<Gap>, m: Models, s: Settings)
    requires Sound(m) && Usable(p.rows, open, m.dimension) && GapsFit(gaps, m.dimension)
    requires StillOpen(p.rows, open, s) && Comparable(p.rows, s.org, m.dimension)
    ensures StillOpen(HandleAll(p, open, gaps, m, s).rows, open, s)
    ensures Comparable(HandleAll(p, open, gaps, m, s).rows, s.org, m.dimension)
    ensures forall i :: 0 <= i < |gaps| && Nonzero(gaps[i].centroid) ==>
              Covered(HandleAll(p, open, gaps, m, s).rows, gaps[i], m, s)
    decreases |gaps|
  {
    hide Handle, Usable, StillOpen, Comparable, Covered, Nonzero, Sound;
    if gaps == [] {
    } else {
      var n := |gaps| - 1;
      var before := HandleAll(p, open, gaps[..n], m, s);
      HandleAllCovers(p, open, gaps[..n], m, s);
      HandleCovers(before, open, gaps[n], m, s);
      HandleGrows(before, open, gaps[n], m, s);
      forall i | 0 <= i < n && Nonzero(gaps[i].centroid)
        ensures Covered(Handle(before, open, gaps[n], m, s).rows, gaps[i], m, s)
      {
        assert gaps[..n][i] == gaps[i];
        CoverLasts(before.rows, Handle(before, open, gaps[n], m, s).rows, IdsOf(gaps[n]), gaps[i], m, s);
      }
    }
  }

  ghost predicate NonzeroGaps(gaps: seq<Gap>) {
    forall i :: 0 <= i < |gaps| ==> Nonzero(gaps[i].centroid)
  }

  /** How many of the gaps have a zero centroid. */
  ghost function ZeroGaps(gaps: seq<Gap>): nat {
    if gaps == [] then 0 else
      ZeroGaps(gaps[..|gaps| - 1]) + (if Nonzero(gaps[|gaps| - 1].centroid) then 0 else 1)
  }

  ghost predicate AllCovered(rows: seq<ReportRow>, gaps: seq<Gap>, m: Models, s: Settings) {
    forall i :: 0 <= i < |gaps| && Nonzero(gaps[i].centroid) ==> Covered(rows, gaps[i], m, s)
  }

  lemma HandleCoveredGap(p: Progress, open: seq<nat>, gap: Gap, m: Models, s: Settings)
    requires Sound(m) && Usable(p.rows, open, m.dimension) && |gap.centroid| == m.dimension
    requires Nonzero(gap.centroid) ==>
      exists id: nat :: id in open && id < |p.rows| && Near(m.sqrt, gap, p.rows[id])
    ensures |Handle(p, open, gap, m, s).rows| == |p.rows| + (if Nonzero(gap.centroid) then 0 else 1)
  {
    hide CosineSimilarity, SortIds;
    MergesIffNear(gap, p.rows, open, m);
    if !Nonzero(gap.centroid) && Mergeable(m.sqrt, gap.centroid, p.rows, open).Some? {
      CosineOfZero(m.sqrt, gap.centroid, p.rows[Mergeable(m.sqrt, gap.centroid, p.rows, open).value].topicEmbedding);
    }
  }

  lemma {:induction false} CoveredRunInserts(rows: seq<ReportRow>, gaps: seq<Gap>, m: Models, s: Settings)
    requires Sound(m) && Comparable(rows, s.org, m.dimension) && GapsFit(gaps, m.dimension)
    requires AllCovered(rows, gaps, m, s)
    requires Usable(rows, OpenReports(rows, s.org), m.dimension)
    ensures |HandleAll(Progress(rows, []), OpenReports(rows, s.org), gaps, m, s).rows| == |rows| + ZeroGaps(gaps)
    decreases |gaps|
  {
    hide Handle, Usable, Comparable, Nonzero, Sound, Near, OpenReports, Covered, Grows, AllCovered;
    if gaps == [] {
    } else {
      var n, open, start := |gaps| - 1, OpenReports(rows, s.org), Progress(rows, []);
      CoveredPrefix(rows, gaps, m, s);
      CoveredRunInserts(rows, gaps[..n], m, s);
      HandleAllConserves(start, open, gaps[..n], m, s);
      var before := HandleAll(start, open, gaps[..n], m, s);
      if Nonzero(gaps[n].centroid) {
        CoverIsSeen(rows, before.rows, AllIds(gaps[..n]), gaps[n], m, s);
      }
      HandleCoveredGap(before, open, gaps[n], m, s);
    }
  }

  lemma CoveredPrefix(rows: seq<ReportRow>, gaps: seq<Gap>, m: Models, s: Settings)
    requires AllCovered(rows, gaps, m, s) && gaps != []
    ensures AllCovered(rows, gaps[..|gaps| - 1], m, s)
    ensures Nonzero(gaps[|gaps| - 1].centroid) ==> Covered(rows, gaps[|gaps| - 1], m, s)
  {
    hide Covered, Nonzero;
  }

  /** A covering report is among those seen at the start, and is still near however far the run has got. */
  lemma CoverIsSeen(rows: seq<ReportRow>, rows': seq<ReportRow>, added: set<nat>, gap: Gap, m: Models, s: Settings)
    requires Grows(rows, rows', added) && Covered(rows, gap, m, s)
    ensures exists id: nat :: id in OpenReports(rows, s.org) && id < |rows'| && Near(m.sqrt, gap, rows'[id])
  {
    hide Near, OpenReports;
    var id: nat :| id < |rows| && rows[id].org == s.org && rows[id].open && Near(m.sqrt, gap, rows[id]);
    NearIgnoresIds(m.sqrt, gap, rows[id], rows'[id]);
    assert id in OpenReports(rows, s.org);
  }

  lemma NearIgnoresIds(sqrt: real -> real, gap: Gap, row: ReportRow, row': ReportRow)
    requires Near(sqrt, gap, row) && row' == row.(supportingIds := row'.supportingIds)
    ensures Near(sqrt, gap, row')
  {
  }

  /** Any number of runs over the same executions, reports staying as the runs leave them. */
  ghost function Runs(rows: seq<ReportRow>, executions: seq<Execution>, m: Models, s: Settings, n: nat)
    : (rows': seq<ReportRow>)
    requires Sound(m) && Comparable(rows, s.org, m.dimension)
    ensures Comparable(rows', s.org, m.dimension)
    decreases n
  {
    if n == 0 then rows else
      var before := Runs(rows, executions, m, s, n - 1);
      DetectCovers(before, executions, m, s);
      Detect(before, executions, m, s).rows
  }

  lemma DetectCovers(rows: seq<ReportRow>, executions: seq<Execution>, m: Models, s: Settings)
    requires Sound(m) && Comparable(rows, s.org, m.dimension)
    ensures Comparable(Detect(rows, executions, m, s).rows, s.org, m.dimension)
    ensures AllCovered(Detect(rows, executions, m, s).rows, Gaps(executions, m, s), m, s)
  {
    hide HandleAll, Gaps, Comparable, Covered, Sound;
    var open := OpenReports(rows, s.org);
    assert StillOpen(rows, open, s) by {
      assert forall i :: 0 <= i < |open| ==> open[i] in open;
    }
    OpenIsUsable(rows, s.org, m.dimension);
    HandleAllCovers(Progress(rows, []), open, Gaps(executions, m, s), m, s);
  }

  lemma DetectIsHandleAll(rows: seq<ReportRow>, executions: seq<Execution>, m: Models, s: Settings)
    requires Sound(m) && Comparable(rows, s.org, m.dimension) && Usable(rows, OpenReports(rows, s.org), m.dimension)
    ensures Detect(rows, executions, m, s)
            == HandleAll(Progress(rows, []), OpenReports(rows, s.org), Gaps(executions, m, s), m, s)
  {
  }

  lemma {:induction false} NoZeroGaps(gaps: seq<Gap>)
    ensures ZeroGaps(gaps) == 0 <==> NonzeroGaps(gaps)
  {
    hide Nonzero;
    if gaps == [] {
    } else {
      NoZeroGaps(gaps[..|gaps| - 1]);
    }
  }

  // ---------- Which centroids are zero ----------

  /** A cluster's running-sum centroid is the pipeline's average of its members' embeddings. */
  lemma CentroidIsAverage(g: Group, embeddings: seq<Vector>, dimension: nat)
    requires g.members != [] && SumsMembers(g, embeddings, dimension)
    ensures CentroidOf(g) == Average(MembersOf(g.members, embeddings), dimension)
  {
    var a, b := CentroidOf(g), Average(MembersOf(g.members, embeddings), dimension);
    assert |MembersOf(g.members, embeddings)| == |g.members|;
    forall d | 0 <= d < dimension
      ensures a[d] == b[d]
    {
      assert g.sum[d] == ColumnSum(MembersOf(g.members, embeddings), d);
    }
  }

  lemma {:induction false} QualifyingZeros(
      queryable: seq<Candidate>, embeddings: seq<Vector>, groups: seq<Group>, minSize: int, dimension: nat)
    requires SameDimension(embeddings, dimension) && |queryable| == |embeddings|
    requires IndexLists(Members(groups), |embeddings|) && WellFormed(groups, dimension)
    requires AllSumMembers(groups, embeddings, dimension)
    ensures ZeroGaps(Qualifying(queryable, embeddings, Members(groups), minSize, dimension))
            == ZeroGroups(groups, minSize)
    decreases |groups|
  {
    hide Nonzero, SumsMembers, Average, CentroidOf;
    if groups == [] {
    } else {
      var n, lists := |groups| - 1, Members(groups);
      assert lists[..n] == Members(groups[..n]) && lists[n] == groups[n].members;
      QualifyingZeros(queryable, embeddings, groups[..n], minSize, dimension);
      CentroidIsAverage(groups[n], embeddings, dimension);
      NonzeroCentroid(groups[n]);
      var before := Qualifying(queryable, embeddings, lists[..n], minSize, dimension);
      var gap := GapOf(queryable, embeddings, lists[n], dimension);
      assert (before + [gap])[..|before|] == before;
      assert Qualifying(queryable, embeddings, lists, minSize, dimension)
             == if |lists[n]| < minSize then before else before + [gap];
    }
  }

  /** How many of a run's gaps have a zero centroid, from the executions and the settings alone. */
  ghost function ZeroGapsExpected(executions: seq<Execution>, m: Models, s: Settings): nat
    requires Sound(m)
  {
    var queryable := Queryable(executions, s);
    if |queryable| < s.minClusterSize then 0
    else ZeroGroupsExpected(Embeddings(queryable, m), s.similarityThreshold, s.minClusterSize)
  }

  lemma ZeroGapsAreExpected(executions: seq<Execution>, m: Models, s: Settings)
    requires Sound(m)
    ensures ZeroGaps(Gaps(executions, m, s)) == ZeroGapsExpected(executions, m, s)
  {
    hide Nonzero, SumsMembers, CentroidOf, Groups, ZeroGroups, ZeroGroupsExpected, Queryable;
    var queryable := Queryable(executions, s);
    if |queryable| >= s.minClusterSize {
      var embeddings := Embeddings(queryable, m);
      var n, threshold := |embeddings|, s.similarityThreshold;
      var groups := Groups(m.sqrt, embeddings, threshold, n, m.dimension);
      ListsIndexEmbeddings(m, s, embeddings);
      RunningSums(m.sqrt, embeddings, threshold, n, m.dimension);
      QualifyingZeros(queryable, embeddings, groups, s.minClusterSize, m.dimension);
      ZeroGroupsAreExpected(m.sqrt, embeddings, threshold, s.minClusterSize, m.dimension);
      assert Gaps(executions, m, s)
             == Qualifying(queryable, embeddings, Members(groups), s.minClusterSize, m.dimension);
    }
  }

  /** The inputs on which some gap has a zero centroid: enough candidates, and either a zero embedding that
      is a cluster of its own, or no embedding that is not zero. */
  ghost predicate HasZeroGap(executions: seq<Execution>, m: Models, s: Settings)
    requires Sound(m)
  {
    var embeddings := Embeddings(Queryable(executions, s), m);
    && |embeddings| >= s.minClusterSize
    && if s.similarityThreshold > 0.0 then s.minClusterSize <= 1 && !AllNonzero(embeddings)
       else embeddings != [] && AllZero(embeddings)
  }

  lemma {:induction false} NoZeroVectors(vectors: seq<Vector>)
    ensures ZeroVectors(vectors) == 0 <==> AllNonzero(vectors)
  {
    hide Nonzero;
    if vectors == [] {
    } else {
      NoZeroVectors(vectors[..|vectors| - 1]);
    }
  }

  lemma NoGapIsZeroIff(executions: seq<Execution>, m: Models, s: Settings)
    requires Sound(m)
    ensures NonzeroGaps(Gaps(executions, m, s)) <==> !HasZeroGap(executions, m, s)
  {
    hide Gaps, Queryable, Sound, Nonzero, NonzeroGaps, AllNonzero, AllZero;
    ZeroGapsAreExpected(executions, m, s);
    NoZeroGaps(Gaps(executions, m, s));
    NoZeroVectors(Embeddings(Queryable(executions, s), m));
  }

  // ---------- What a re-run inserts ----------

  /** Running again over unchanged executions with the reports still open: what a re-run inserts is one
      report for each qualifying cluster whose centroid is zero, and nothing else. */
  lemma RerunInserts(rows: seq<ReportRow>, executions: seq<Execution>, m: Models, s: Settings, n: nat)
    requires Sound(m) && Comparable(rows, s.org, m.dimension) && n >= 1
    ensures |Runs(rows, executions, m, s, n + 1)|
            == |Runs(rows, executions, m, s, n)| + ZeroGapsExpected(executions, m, s)
    ensures ZeroGapsExpected(executions, m, s) == ZeroGaps(Gaps(executions, m, s))
  {
    hide HandleAll, Gaps, Comparable, AllCovered, Sound, Detect, OpenReports, ZeroGapsExpected;
    var before := Runs(rows, executions, m, s, n - 1);
    DetectCovers(before, executions, m, s);
    var after, gaps := Runs(rows, executions, m, s, n), Gaps(executions, m, s);
    OpenIsUsable(after, s.org, m.dimension);
    CoveredRunInserts(after, gaps, m, s);
    DetectIsHandleAll(after, executions, m, s);
    ZeroGapsAreExpected(executions, m, s);
  }

  /** The idempotence the merge check is for: a re-run, however late, inserts no report exactly when the
      input has no zero gap. */
  lemma PipelineIsIdempotentIff(rows: seq<ReportRow>, executions: seq<Execution>, m: Models, s: Settings, n: nat)
    requires Sound(m) && Comparable(rows, s.org, m.dimension) && n >= 1
    ensures |Runs(rows, executions, m, s, n + 1)| == |Runs(rows, executions, m, s, n)| <==>
            !HasZeroGap(executions, m, s)
  {
    hide Comparable, Runs, Sound, Gaps, HasZeroGap, NonzeroGaps, ZeroGaps, ZeroGapsExpected;
    RerunInserts(rows, executions, m, s, n);
    NoGapIsZeroIff(executions, m, s);
    NoZeroGaps(Gaps(executions, m, s));
  }

  /** An input on which it fails: at threshold 0, two executions whose queries embed to zero form a cluster
      that finds no report near it, its own from the run before included. */
  lemma ZeroEmbeddingsReinsert(sqrt: real -> real) returns (executions: seq<Execution>, m: Models, s: Settings)
    requires IsSqrt(sqrt)
    ensures s.similarityThreshold == 0.0 && s.minClusterSize == 2 && Sound(m) && |executions| == 2
    ensures Comparable([], s.org, m.dimension)
    ensures forall n: nat :: n >= 1 ==>
      |Runs([], executions, m, s, n + 1)| == |Runs([], executions, m, s, n)| + 1
  {
    var embed: string -> Vector := (text: string) => [0.0];
    m := Models(sqrt, 1, embed, (queries: seq<string>) => "topic", (org: string, topic: string) => None);
    s := Settings("org", 0.5, 0, 2, 0.0);
    var first := Execution(0, "org", ANSWER_AGENT_NAME, true, Some(0.1), 1, Some("how"));
    executions := [first, first.(id := 1)];
    TwoCandidates(executions, s);
    assert Sound(m);
    var embeddings := Embeddings(Queryable(executions, s), m);
    forall i | 0 <= i < |embeddings|
      ensures !Nonzero(embeddings[i])
    {
      assert embeddings[i] == [0.0] && Dot([0.0][1..], [0.0][1..]) == 0.0;
    }
    assert ZeroGapsExpected(executions, m, s) == 1;
    hide *;
    NothingToCompare(s.org, m.dimension);
    forall n: nat | n >= 1
      ensures |Runs([], executions, m, s, n + 1)| == |Runs([], executions, m, s, n)| + 1
    {
      RerunInserts([], executions, m, s, n);
    }
  }

  lemma NothingToCompare(org: string, dimension: nat)
    ensures Comparable([], org, dimension)
  {
  }

  lemma TwoCandidates(executions: seq<Execution>, s: Settings)
    requires |executions| == 2 && IsCandidate(executions[0], s) && IsCandidate(executions[1], s)
    ensures Queryable(executions, s)
            == [Candidate(executions[0].id, executions[0].queryText.value),
                Candidate(executions[1].id, executions[1].queryText.value)]
  {
    var one := executions[..1];
    assert one[..0] == [] && one[0] == executions[0];
    assert Queryable(one[..0], s) == [];
    assert Queryable(one, s) == [Candidate(executions[0].id, executions[0].queryText.value)];
  }

  // ---------- Settling ----------

  lemma {:induction false} AscendingIsUnique(a: seq<nat>, b: seq<nat>)
    requires Ascends(a) && Ascends(b) && forall x :: x in a <==> x in b
    ensures a == b
  {
    assert b != [] ==> b[0] in b;
    if a == [] {
    } else {
      assert a[0] in b && b != [] && b[0] in a;
      FirstOrRest(a);
      FirstOrRest(b);
      assert a[0] == b[0];
      AscendingIsUnique(a[1..], b[1..]);
      assert a == [a[0]] + a[1..] && b == [b[0]] + b[1..];
    }
  }

  lemma FirstOrRest(a: seq<nat>)
    requires a != [] && Ascends(a)
    ensures Ascends(a[1..]) && forall x :: x in a[1..] <==> x in a && x > a[0]
    ensures forall x :: x in a ==> x >= a[0]
  {
    assert a == [a[0]] + a[1..];
    forall x | x in a[1..]
      ensures x > a[0]
    {
      var k :| 0 <= k < |a[1..]| && a[1..][k] == x;
      assert a[k + 1] == x;
    }
  }

  /** Nothing has changed but supporting ids. */
  ghost predicate SameTopics(rows: seq<ReportRow>, rows': seq<ReportRow>) {
    && |rows'| == |rows|
    && forall i :: 0 <= i < |rows| ==> rows'[i] == rows[i].(supportingIds := rows'[i].supportingIds)
  }

  lemma {:induction false} SameMerge(
      sqrt: real -> real, centroid: Vector, rows: seq<ReportRow>, rows': seq<ReportRow>, open: seq<nat>)
    requires SameTopics(rows, rows') && Fits(rows, open, centroid)
    ensures Fits(rows', open, centroid)
    ensures MostSimilar(sqrt, centroid, rows', open) == MostSimilar(sqrt, centroid, rows, open)
    ensures Mergeable(sqrt, centroid, rows', open) == Mergeable(sqrt, centroid, rows, open)
    decreases |open|
  {
    hide CosineSimilarity;
    if open == [] {
    } else {
      SameMerge(sqrt, centroid, rows, rows', open[..|open| - 1]);
    }
  }

  lemma {:induction false} SameOpen(rows: seq<ReportRow>, rows': seq<ReportRow>, org: string)
    requires SameTopics(rows, rows')
    ensures OpenReports(rows', org) == OpenReports(rows, org)
  {
    if rows == [] {
    } else {
      SameOpen(rows[..|rows| - 1], rows'[..|rows| - 1], org);
    }
  }

  ghost predicate Merges(rows: seq<ReportRow>, open: seq<nat>, gap: Gap, m: Models)
    requires Usable(rows, open, m.dimension) && |gap.centroid| == m.dimension
  {
    Mergeable(m.sqrt, gap.centroid, rows, open).Some?
  }

  /** The report the gap merges into already lists the gap's ids, in order. */
  ghost predicate Absorbed(rows: seq<ReportRow>, open: seq<nat>, gap: Gap, m: Models)
    requires Usable(rows, open, m.dimension) && |gap.centroid| == m.dimension
  {
    match Mergeable(m.sqrt, gap.centroid, rows, open)
    case None => false
    case Some(id) =>
      id < |rows| && Ascends(rows[id].supportingIds) && forall x :: x in gap.ids ==> x in rows[id].supportingIds
  }

  lemma MergingAbsorbs(p: Progress, open: seq<nat>, gap: Gap, m: Models, s: Settings)
    requires Usable(p.rows, open, m.dimension) && |gap.centroid| == m.dimension && Merges(p.rows, open, gap, m)
    ensures SameTopics(p.rows, Handle(p, open, gap, m, s).rows)
    ensures Absorbed(Handle(p, open, gap, m, s).rows, open, gap, m)
  {
    hide SortIds, MostSimilar;
    SameMerge(m.sqrt, gap.centroid, p.rows, Handle(p, open, gap, m, s).rows, open);
  }

  lemma AbsorbedStays(p: Progress, open: seq<nat>, gap: Gap, other: Gap, m: Models, s: Settings)
    requires Usable(p.rows, open, m.dimension) && |gap.centroid| == |other.centroid| == m.dimension
    requires Merges(p.rows, open, gap, m) && Absorbed(p.rows, open, other, m)
    ensures Absorbed(Handle(p, open, gap, m, s).rows, open, other, m)
  {
    hide SortIds, MostSimilar;
    MergingAbsorbs(p, open, gap, m, s);
    SameMerge(m.sqrt, other.centroid, p.rows, Handle(p, open, gap, m, s).rows, open);
  }

  ghost predicate AllMerge(rows: seq<ReportRow>, open: seq<nat>, gaps: seq<Gap>, m: Models)
    requires Usable(rows, open, m.dimension) && GapsFit(gaps, m.dimension)
  {
    forall i :: 0 <= i < |gaps| ==> Merges(rows, open, gaps[i], m)
  }

  ghost predicate AllAbsorbed(rows: seq<ReportRow>, open: seq<nat>, gaps: seq<Gap>, m: Models)
    requires Usable(rows, open, m.dimension) && GapsFit(gaps, m.dimension)
  {
    forall i :: 0 <= i < |gaps| ==> Absorbed(rows, open, gaps[i], m)
  }

  lemma {:induction false} RunAbsorbs(p: Progress, open: seq<nat>, gaps: seq<Gap>, m: Models, s: Settings)
    requires Usable(p.rows, open, m.dimension) && GapsFit(gaps, m.dimension) && AllMerge(p.rows, open, gaps, m)
    ensures SameTopics(p.rows, HandleAll(p, open, gaps, m, s).rows)
    ensures AllAbsorbed(HandleAll(p, open, gaps, m, s).rows, open, gaps, m)
    decreases |gaps|
  {
    hide Handle, Usable, Absorbed, Mergeable;
    if gaps == [] {
    } else {
      var n := |gaps| - 1;
      var before := HandleAll(p, open, gaps[..n], m, s);
      RunAbsorbs(p, open, gaps[..n], m, s);
      assert Merges(p.rows, open, gaps[n], m);
      UsableFits(p.rows, open, gaps[n], m);
      SameMerge(m.sqrt, gaps[n].centroid, p.rows, before.rows, open);
      MergingAbsorbs(before, open, gaps[n], m, s);
      forall i | 0 <= i < n
        ensures Absorbed(Handle(before, open, gaps[n], m, s).rows, open, gaps[i], m)
      {
        assert gaps[..n][i] == gaps[i];
        AbsorbedStays(before, open, gaps[n], gaps[i], m, s);
      }
    }
  }

  lemma UsableFits(rows: seq<ReportRow>, open: seq<nat>, gap: Gap, m: Models)
    requires Usable(rows, open, m.dimension) && |gap.centroid| == m.dimension
    ensures Fits(rows, open, gap.centroid)
  {
  }

  lemma AbsorbedChangesNothing(p: Progress, open: seq<nat>, gap: Gap, m: Models, s: Settings)
    requires Usable(p.rows, open, m.dimension) && |gap.centroid| == m.dimension && Absorbed(p.rows, open, gap, m)
    ensures Handle(p, open, gap, m, s).rows == p.rows
  {
    hide SortIds, MostSimilar;
    var id := Mergeable(m.sqrt, gap.centroid, p.rows, open).value;
    AscendingIsUnique(SortedUnion(p.rows[id].supportingIds, gap.ids), p.rows[id].supportingIds);
  }

  lemma {:induction false} AbsorbedRunChangesNothing(
      p: Progress, open: seq<nat>, gaps: seq<Gap>, m: Models, s: Settings)
    requires Usable(p.rows, open, m.dimension) && GapsFit(gaps, m.dimension) && AllAbsorbed(p.rows, open, gaps, m)
    ensures HandleAll(p, open, gaps, m, s).rows == p.rows
    decreases |gaps|
  {
    hide Handle, Usable, Absorbed;
    if gaps == [] {
    } else {
      var n := |gaps| - 1;
      AbsorbedRunChangesNothing(p, open, gaps[..n], m, s);
      AbsorbedChangesNothing(HandleAll(p, open, gaps[..n], m, s), open, gaps[n], m, s);
    }
  }

  lemma CoveredGapsMerge(rows: seq<ReportRow>, gaps: seq<Gap>, m: Models, s: Settings)
    requires GapsFit(gaps, m.dimension) && Usable(rows, OpenReports(rows, s.org), m.dimension)
    requires AllCovered(rows, gaps, m, s) && NonzeroGaps(gaps)
    ensures AllMerge(rows, OpenReports(rows, s.org), gaps, m)
  {
    hide Usable, OpenReports, Near, Mergeable, Covered, Nonzero;
    forall i | 0 <= i < |gaps|
      ensures Merges(rows, OpenReports(rows, s.org), gaps[i], m)
    {
      NothingGrows(rows);
      CoverIsSeen(rows, rows, {}, gaps[i], m, s);
      MergesIffNear(gaps[i], rows, OpenReports(rows, s.org), m);
    }
  }

  lemma NothingGrows(rows: seq<ReportRow>)
    ensures Grows(rows, rows, {})
  {
  }

  /** Running twice more over a table that covers every gap changes it at most once. */
  lemma CoveredRunSettles(rows: seq<ReportRow>, executions: seq<Execution>, m: Models, s: Settings)
    requires Sound(m) && Comparable(rows, s.org, m.dimension)
    requires AllCovered(rows, Gaps(executions, m, s), m, s) && NonzeroGaps(Gaps(executions, m, s))
    ensures
      var next := Detect(rows, executions, m, s).rows;
      Comparable(next, s.org, m.dimension) && Detect(next, executions, m, s).rows == next
  {
    hide HandleAll, Gaps, AllCovered, Sound, Comparable, OpenReports, Usable;
    hide AllMerge, AllAbsorbed, SameTopics, NonzeroGaps;
    var gaps, open := Gaps(executions, m, s), OpenReports(rows, s.org);
    OpenIsUsable(rows, s.org, m.dimension);
    CoveredGapsMerge(rows, gaps, m, s);
    RunAbsorbs(Progress(rows, []), open, gaps, m, s);
    var next := Detect(rows, executions, m, s).rows;
    DetectCovers(rows, executions, m, s);
    SameOpen(rows, next, s.org);
    OpenIsUsable(next, s.org, m.dimension);
    AbsorbedRunChangesNothing(Progress(next, []), open, gaps, m, s);
  }

  /** From the second run on the whole table stands still, exactly when the input has no zero gap. The
      second run may still put the ids of a new report in order, or merge a gap into a report that the
      first run inserted after it. */
  lemma RerunsSettleIff(rows: seq<ReportRow>, executions: seq<Execution>, m: Models, s: Settings, n: nat)
    requires Sound(m) && Comparable(rows, s.org, m.dimension) && n >= 2
    ensures Runs(rows, executions, m, s, n + 1) == Runs(rows, executions, m, s, n) <==> !HasZeroGap(executions, m, s)
  {
    hide Comparable, Sound, Gaps, HasZeroGap, Detect, NonzeroGaps, AllCovered;
    PipelineIsIdempotentIff(rows, executions, m, s, n);
    if !HasZeroGap(executions, m, s) {
      NoGapIsZeroIff(executions, m, s);
      DetectCovers(Runs(rows, executions, m, s, n - 2), executions, m, s);
      CoveredRunSettles(Runs(rows, executions, m, s, n - 1), executions, m, s);
    }
  }

  /** An input that is settled from the second run on and not before: the first one lists the ids of a new
      report in the order of the executions, the second one sorts them. */
  lemma FirstRerunSorts(sqrt: real -> real) returns (executions: seq<Execution>, m: Models, s: Settings)
    requires IsSqrt(sqrt)
    ensures Sound(m) && Comparable([], s.org, m.dimension) && !HasZeroGap(executions, m, s)
    ensures Runs([], executions, m, s, 2) != Runs([], executions, m, s, 1)
  {
    var embed: string -> Vector := (text: string) => [1.0];
    m := Models(sqrt, 1, embed, (queries: seq<string>) => "topic", (org: string, topic: string) => None);
    s := Settings("org", 0.5, 0, 2, 0.5);
    var first := Execution(2, "org", ANSWER_AGENT_NAME, true, Some(0.1), 1, Some("how"));
    executions := [first, first.(id := 1)];
    TwoCandidates(executions, s);
    NothingToCompare(s.org, m.dimension);
    var queryable := Queryable(executions, s);
    assert queryable == [Candidate(2, "how"), Candidate(1, "how")];
    assert Embeddings(queryable, m) == [[1.0], [1.0]];
    hide Queryable, Embeddings;
    PairGap(executions, m, s);
    PairSorts(executions, m, s);
  }

  lemma PairGap(executions: seq<Execution>, m: Models, s: Settings)
    requires Sound(m) && m.dimension == 1 && s.similarityThreshold == 0.5 && s.minClusterSize == 2
    requires Queryable(executions, s) == [Candidate(2, "how"), Candidate(1, "how")]
    requires Embeddings(Queryable(executions, s), m) == [[1.0], [1.0]]
    ensures Gaps(executions, m, s) == [Gap([2, 1], ["how", "how"], [1.0])]
  {
    hide Queryable, Embeddings;
    var queryable, pair := Queryable(executions, s), [[1.0], [1.0]];
    PairClusters(m.sqrt);
    hide Groups;
    ListsIndexEmbeddings(m, s, pair);
    var groups := Groups(m.sqrt, pair, 0.5, 2, 1);
    var lists := Members(groups);
    assert lists == [[0, 1]] && lists[..0] == [];
    assert Qualifying(queryable, pair, lists[..0], 2, 1) == [];
    PairAverage();
    assert MembersOf([0, 1], pair) == pair;
    var gap := GapOf(queryable, pair, [0, 1], 1);
    assert gap == Gap([2, 1], ["how", "how"], [1.0]);
    assert Qualifying(queryable, pair, lists, 2, 1) == [gap];
  }

  lemma PairAverage()
    ensures Average([[1.0], [1.0]], 1) == [1.0]
  {
    var pair: seq<Vector> := [[1.0], [1.0]];
    assert pair[..1] == [[1.0]] && pair[..1][..0] == [];
    assert ColumnSum(pair[..1][..0], 0) == 0.0 && ColumnSum(pair[..1], 0) == 1.0 && ColumnSum(pair, 0) == 2.0;
  }

  lemma UnitIsNonzero()
    ensures Nonzero([1.0])
  {
    assert Dot([1.0][1..], [1.0][1..]) == 0.0;
  }

  lemma PairClusters(sqrt: real -> real)
    requires IsSqrt(sqrt)
    ensures Groups(sqrt, [[1.0], [1.0]], 0.5, 2, 1) == [Group([0, 1], [2.0])]
  {
    hide Place;
    var pair: seq<Vector> := [[1.0], [1.0]];
    var one := [Group([0], [1.0])];
    UnitOpens(sqrt);
    UnitJoins(sqrt);
    assert Groups(sqrt, pair, 0.5, 0, 1) == [];
    assert Groups(sqrt, pair, 0.5, 1, 1) == one;
  }

  lemma UnitOpens(sqrt: real -> real)
    ensures Place(sqrt, [1.0], 0, [], 0.5) == [Group([0], [1.0])]
  {
    NothingToJoin(sqrt, [1.0], 0.5);
    hide Joined;
  }

  lemma UnitJoins(sqrt: real -> real)
    requires IsSqrt(sqrt)
    ensures WellFormed([Group([0], [1.0])], 1)
    ensures Place(sqrt, [1.0], 1, [Group([0], [1.0])], 0.5) == [Group([0, 1], [2.0])]
  {
    hide CosineSimilarity, Closest, CentroidOf;
    var one := [Group([0], [1.0])];
    UnitIsNonzero();
    CosineOfSelf(sqrt, [1.0]);
    UnitCentroid();
    ClosestUnfolds(sqrt, [1.0], one);
    assert one[..0] == [];
    ClosestUnfolds(sqrt, [1.0], []);
    assert Closest(sqrt, [1.0], one) == (Some(0), 1.0);
    assert [0] + [1] == [0, 1] && Vectors.Add([1.0], [1.0]) == [2.0];
  }

  lemma UnitCentroid()
    ensures CentroidOf(Group([0], [1.0])) == [1.0]
  {
  }

  lemma PairSorts(executions: seq<Execution>, m: Models, s: Settings)
    requires Sound(m) && Comparable([], s.org, m.dimension) && m.dimension == 1
    requires Gaps(executions, m, s) == [Gap([2, 1], ["how", "how"], [1.0])]
    ensures !HasZeroGap(executions, m, s)
    ensures Runs([], executions, m, s, 2) != Runs([], executions, m, s, 1)
  {
    hide Gaps, HasZeroGap, CosineSimilarity, SortIds, Detect, Handle, NewReport, NonzeroGaps, OpenReports;
    var gap := Gap([2, 1], ["how", "how"], [1.0]);
    UnitIsNonzero();
    NoGapIsZeroIff(executions, m, s);
    assert NonzeroGaps([gap]) by { OneNonzero(gap); }
    OneGap([], executions, m, s, gap);
    FirstReport(m, s, gap);
    var row := NewReport(m, s, gap);
    var first := Detect([], executions, m, s).rows;
    assert first == [row];
    assert Runs([], executions, m, s, 0) == [] && Runs([], executions, m, s, 1) == first;
    DetectCovers([], executions, m, s);
    OneGap(first, executions, m, s, gap);
    SecondReport(m, s, gap);
    var second := Detect(first, executions, m, s).rows;
    assert Ascends(second[0].supportingIds) && !Ascends(first[0].supportingIds) by {
      assert gap.ids[0] > gap.ids[1];
    }
  }

  lemma OneNonzero(gap: Gap)
    requires Nonzero(gap.centroid)
    ensures NonzeroGaps([gap])
  {
  }

  lemma OneGap(rows: seq<ReportRow>, executions: seq<Execution>, m: Models, s: Settings, gap: Gap)
    requires Sound(m) && Comparable(rows, s.org, m.dimension) && Gaps(executions, m, s) == [gap]
    ensures |gap.centroid| == m.dimension && Usable(rows, OpenReports(rows, s.org), m.dimension)
    ensures Detect(rows, executions, m, s) == Handle(Progress(rows, []), OpenReports(rows, s.org), gap, m, s)
  {
    hide Gaps, Handle, Usable, OpenReports, Comparable;
    var gaps, open := [gap], OpenReports(rows, s.org);
    assert GapsFit(gaps, m.dimension) && gaps[0] == gap && gaps[..0] == [];
    OpenIsUsable(rows, s.org, m.dimension);
    assert HandleAll(Progress(rows, []), open, gaps[..0], m, s) == Progress(rows, []);
  }

  lemma FirstReport(m: Models, s: Settings, gap: Gap)
    requires |gap.centroid| == m.dimension
    ensures NewReport(m, s, gap).supportingIds == gap.ids && OpenReports([], s.org) == []
    ensures Handle(Progress([], []), [], gap, m, s).rows == [NewReport(m, s, gap)]
  {
  }

  lemma SecondReport(m: Models, s: Settings, gap: Gap)
    requires Sound(m) && |gap.centroid| == m.dimension && Nonzero(gap.centroid)
    ensures
      var rows := [NewReport(m, s, gap)];
      var open := OpenReports(rows, s.org);
      && Usable(rows, open, m.dimension)
      && var rows' := Handle(Progress(rows, []), open, gap, m, s).rows;
         |rows'| == 1 && Ascends(rows'[0].supportingIds)
  {
    hide CosineSimilarity, SortIds;
    var rows := [NewReport(m, s, gap)];
    assert rows[..0] == [] && OpenReports(rows[..0], s.org) == [] && OpenReports(rows, s.org) == [0];
    CosineOfSelf(m.sqrt, gap.centroid);
    assert [0][..0] == [];
    assert MostSimilar(m.sqrt, gap.centroid, rows, []) == (None, -1.0);
    assert MostSimilar(m.sqrt, gap.centroid, rows, [0]) == (Some(0), 1.0);
  }
}
