/** The Knowledge Gap Agent's pipeline: app/agents/knowledge_gap/pipeline.py and its repository.py.

    Reports are heap objects. The session hands out one object per row, so a report found among the open
    ones and the one fetched again by its id are the same object. The topic model, the embedding model
    and the document search are arbitrary deterministic functions. Execution ids are numbers, in the
    order of their string forms; a report's id is its position in the table. */
module GapPipeline {
  import opened Wrappers
  import opened Vectors
  import opened Clustering

  const ANSWER_AGENT_NAME := "answer_question"
  const MERGE_SIMILARITY_THRESHOLD := 0.9
  const DOCUMENT_MATCH_SCORE_THRESHOLD := 0.6

  datatype Execution = Execution(
    id: nat, org: string, agentName: string, succeeded: bool, confidence: Option<real>,
    startedAt: int, queryText: Option<string>)

  datatype Action = NewRunbook | UpdateExisting(documentId: string)

  datatype ReportRow = ReportRow(
    org: string, topic: string, topicEmbedding: Vector, supportingIds: seq<nat>, action: Action, open: bool)

  datatype Settings = Settings(
    org: string, maxConfidence: real, since: int, minClusterSize: int, similarityThreshold: real)

  datatype Models = Models(
    sqrt: real -> real,
    dimension: nat,
    embed: string -> Vector,
    synthesizeTopic: seq<string> -> string,
    search: (string, string) -> Option<(string, real)>)

  ghost predicate Sound(m: Models) {
    IsSqrt(m.sqrt) && forall text :: |m.embed(text)| == m.dimension
  }

  // ---------- Selection ----------

  predicate IsSelected(e: Execution, s: Settings) {
    && e.org == s.org && e.agentName == ANSWER_AGENT_NAME && e.succeeded
    && e.confidence.Some? && e.confidence.value < s.maxConfidence && e.startedAt >= s.since
  }

  predicate HasQuery(e: Execution) { e.queryText.Some? && e.queryText.value != "" }

  /** A selected execution's id and the query it could not answer. */
  datatype Candidate = Candidate(id: nat, question: string)

  predicate IsCandidate(e: Execution, s: Settings) {
    IsSelected(e, s) && HasQuery(e)
  }

  /** The selected executions that carry a query, in table order (oldest first). */
  function Queryable(executions: seq<Execution>, s: Settings): (r: seq<Candidate>)
    ensures forall c :: c in r ==>
      exists e :: e in executions && IsCandidate(e, s) && c == Candidate(e.id, e.queryText.value)
    ensures forall e :: e in executions && IsCandidate(e, s) ==> Candidate(e.id, e.queryText.value) in r
  {
    if executions == [] then [] else
      var n := |executions| - 1;
      var before, last := Queryable(executions[..n], s), executions[n];
      if IsCandidate(last, s) then before + [Candidate(last.id, last.queryText.value)] else before
  }

  /** Selection goes through the table one execution at a time: it keeps their order, and repeats none. */
  lemma {:induction false} QueryableIsFilter(a: seq<Execution>, b: seq<Execution>, s: Settings)
    ensures Queryable(a + b, s) == Queryable(a, s) + Queryable(b, s)
    ensures |a| == 1 ==>
      Queryable(a, s) == if IsCandidate(a[0], s) then [Candidate(a[0].id, a[0].queryText.value)] else []
    decreases |b|
  {
    assert |a| == 1 ==> Queryable(a[..0], s) == [];
    if b == [] {
      assert a + b == a && Queryable(a, s) + [] == Queryable(a, s);
    } else {
      var n := |b| - 1;
      assert (a + b)[..|a| + n] == a + b[..n];
      QueryableIsFilter(a, b[..n], s);
    }
  }

  function Embeddings(queryable: seq<Candidate>, m: Models): (r: seq<Vector>)
    requires Sound(m)
    ensures |r| == |queryable| && SameDimension(r, m.dimension)
  {
    assert forall i :: 0 <= i < |queryable| ==> |m.embed(queryable[i].question)| == m.dimension;
    seq(|queryable|, i requires 0 <= i < |queryable| => m.embed(queryable[i].question))
  }

  // ---------- Supporting ids ----------

  ghost predicate Ascends(ids: seq<nat>) { forall i, j :: 0 <= i < j < |ids| ==> ids[i] < ids[j] }

  function InsertId(ids: seq<nat>, id: nat): (r: seq<nat>)
    ensures forall x :: x in r <==> x in ids || x == id
    ensures Ascends(ids) ==> Ascends(r)
  {
    if ids == [] then [id]
    else if id < ids[0] then [id] + ids
    else if id == ids[0] then ids
    else
      assert ids == [ids[0]] + ids[1..];
      var rest := InsertId(ids[1..], id);
      assert Ascends(ids) ==> forall k :: 0 <= k < |rest| ==> ids[0] < rest[k] by {
        assert forall k :: 0 <= k < |rest| ==> rest[k] in rest;
      }
      [ids[0]] + rest
  }

  function SortIds(ids: seq<nat>): (r: seq<nat>)
    ensures forall x :: x in r <==> x in ids
    ensures Ascends(r)
  {
    if ids == [] then [] else
      assert ids == ids[..|ids| - 1] + [ids[|ids| - 1]];
      InsertId(SortIds(ids[..|ids| - 1]), ids[|ids| - 1])
  }

  /** `sorted({*a, *b})` */
  function SortedUnion(a: seq<nat>, b: seq<nat>): (r: seq<nat>)
    ensures forall x :: x in r <==> x in a || x in b
    ensures Ascends(r)
  {
    SortIds(a + b)
  }

  // ---------- One cluster ----------

  /** `_average`: column by column, the mean of the members' embeddings. */
  function Average(vectors: seq<Vector>, dimension: nat): Vector
    requires vectors != [] && SameDimension(vectors, dimension)
  {
    seq(dimension, d requires 0 <= d < dimension => ColumnSum(vectors, d) / |vectors| as real)
  }

  ghost predicate Fits(rows: seq<ReportRow>, open: seq<nat>, centroid: Vector) {
    forall i :: 0 <= i < |open| ==> open[i] < |rows| && |rows[open[i]].topicEmbedding| == |centroid|
  }

  /** The first open report most similar to the centroid, starting from -1. */
  ghost function MostSimilar(sqrt: real -> real, centroid: Vector, rows: seq<ReportRow>, open: seq<nat>)
    : (r: (Option<nat>, real))
    requires Fits(rows, open, centroid)
    ensures r.0.Some? ==> r.0.value in open
    decreases |open|
  {
    if open == [] then (None, -1.0) else
      var n := |open| - 1;
      var best := MostSimilar(sqrt, centroid, rows, open[..n]);
      var similarity := CosineSimilarity(sqrt, centroid, rows[open[n]].topicEmbedding);
      if similarity > best.1 then (Some(open[n]), similarity) else best
  }

  ghost function Mergeable(sqrt: real -> real, centroid: Vector, rows: seq<ReportRow>, open: seq<nat>)
    : (r: Option<nat>)
    requires Fits(rows, open, centroid)
    ensures r.Some? ==> r.value in open
  {
    var best := MostSimilar(sqrt, centroid, rows, open);
    if best.0.Some? && best.1 >= MERGE_SIMILARITY_THRESHOLD then best.0 else None
  }

  /** What a qualifying cluster brings: its executions' ids and queries, and its centroid. */
  datatype Gap = Gap(ids: seq<nat>, queries: seq<string>, centroid: Vector)

  function SuggestedAction(m: Models, s: Settings, topic: string): Action {
    var hit := m.search(s.org, topic);
    if hit.Some? && hit.value.1 >= DOCUMENT_MATCH_SCORE_THRESHOLD then UpdateExisting(hit.value.0) else NewRunbook
  }

  function NewReport(m: Models, s: Settings, gap: Gap): ReportRow {
    var topic := m.synthesizeTopic(gap.queries);
    ReportRow(s.org, topic, gap.centroid, gap.ids, SuggestedAction(m, s, topic), true)
  }

  /** The table, and the rows to return, in order. */
  datatype Progress = Progress(rows: seq<ReportRow>, results: seq<nat>)

  /** Every open report seen at the start of the run is still in the table with a topic embedding of the
      models' dimension. Comparing embeddings of different lengths would raise. */
  ghost predicate Usable(rows: seq<ReportRow>, open: seq<nat>, dimension: nat) {
    forall i :: 0 <= i < |open| ==> open[i] < |rows| && |rows[open[i]].topicEmbedding| == dimension
  }

  ghost function Handle(p: Progress, open: seq<nat>, gap: Gap, m: Models, s: Settings): (p': Progress)
    requires Usable(p.rows, open, m.dimension) && |gap.centroid| == m.dimension
    ensures Usable(p'.rows, open, m.dimension)
  {
    match Mergeable(m.sqrt, gap.centroid, p.rows, open)
    case Some(id) =>
      Progress(p.rows[id := p.rows[id].(supportingIds := SortedUnion(p.rows[id].supportingIds, gap.ids))],
               p.results + [id])
    case None =>
      Progress(p.rows + [NewReport(m, s, gap)], p.results + [|p.rows|])
  }

  ghost predicate GapsFit(gaps: seq<Gap>, dimension: nat) {
    forall i :: 0 <= i < |gaps| ==> |gaps[i].centroid| == dimension
  }

  ghost function HandleAll(p: Progress, open: seq<nat>, gaps: seq<Gap>, m: Models, s: Settings): (p': Progress)
    requires Usable(p.rows, open, m.dimension) && GapsFit(gaps, m.dimension)
    ensures Usable(p'.rows, open, m.dimension)
    decreases |gaps|
  {
    if gaps == [] then p else
      var n := |gaps| - 1;
      Handle(HandleAll(p, open, gaps[..n], m, s), open, gaps[n], m, s)
  }

  // ---------- One run ----------

  function GapOf(queryable: seq<Candidate>, embeddings: seq<Vector>, members: seq<nat>, dimension: nat): (gap: Gap)
    requires members != [] && SameDimension(embeddings, dimension) && |queryable| == |embeddings|
    requires forall k :: 0 <= k < |members| ==> members[k] < |embeddings|
    ensures |gap.centroid| == dimension
  {
    Gap(seq(|members|, k requires 0 <= k < |members| => queryable[members[k]].id),
        seq(|members|, k requires 0 <= k < |members| => queryable[members[k]].question),
        Average(MembersOf(members, embeddings), dimension))
  }

  ghost predicate IndexLists(lists: seq<seq<nat>>, n: nat) {
    forall g :: 0 <= g < |lists| ==> lists[g] != [] && forall k :: 0 <= k < |lists[g]| ==> lists[g][k] < n
  }

  /** The gaps of the clusters that reach the minimum size, in cluster order. */
  ghost function Qualifying(queryable: seq<Candidate>, embeddings: seq<Vector>, lists: seq<seq<nat>>,
                            minSize: int, dimension: nat): (r: seq<Gap>)
    requires SameDimension(embeddings, dimension) && |queryable| == |embeddings|
    requires IndexLists(lists, |embeddings|)
    ensures GapsFit(r, dimension)
    decreases |lists|
  {
    if lists == [] then [] else
      var n := |lists| - 1;
      var before := Qualifying(queryable, embeddings, lists[..n], minSize, dimension);
      if |lists[n]| < minSize then before else before + [GapOf(queryable, embeddings, lists[n], dimension)]
  }

  lemma ListsIndexEmbeddings(m: Models, s: Settings, embeddings: seq<Vector>)
    requires SameDimension(embeddings, m.dimension)
    ensures IndexLists(Members(Groups(m.sqrt, embeddings, s.similarityThreshold, |embeddings|, m.dimension)),
                       |embeddings|)
  {
    ClustersPartition(m.sqrt, embeddings, s.similarityThreshold, |embeddings|, m.dimension);
  }

  /** The gaps of a run, from the executions alone; none when there is too little data. */
  ghost function Gaps(executions: seq<Execution>, m: Models, s: Settings): (r: seq<Gap>)
    requires Sound(m)
    ensures GapsFit(r, m.dimension)
  {
    var queryable := Queryable(executions, s);
    if |queryable| < s.minClusterSize then [] else
      var embeddings := Embeddings(queryable, m);
      ListsIndexEmbeddings(m, s, embeddings);
      Qualifying(queryable, embeddings,
                 Members(Groups(m.sqrt, embeddings, s.similarityThreshold, |embeddings|, m.dimension)),
                 s.minClusterSize, m.dimension)
  }

  /** The organization's open reports, newest first. */
  function OpenReports(rows: seq<ReportRow>, org: string): (r: seq<nat>)
    ensures forall i: nat :: i in r <==> i < |rows| && rows[i].org == org && rows[i].open
    ensures forall i, j :: 0 <= i < j < |r| ==> r[i] > r[j]
  {
    if rows == [] then [] else
      var n := |rows| - 1;
      var before := OpenReports(rows[..n], org);
      assert forall k :: 0 <= k < |before| ==> before[k] in before;
      if rows[n].org == org && rows[n].open then [n] + before else before
  }

  lemma OpenIsUsable(rows: seq<ReportRow>, org: string, dimension: nat)
    requires Comparable(rows, org, dimension)
    ensures Usable(rows, OpenReports(rows, org), dimension)
  {
    assert forall i :: 0 <= i < |OpenReports(rows, org)| ==> OpenReports(rows, org)[i] in OpenReports(rows, org);
  }

  /** The organization's open reports have embeddings of the models' dimension. */
  ghost predicate Comparable(rows: seq<ReportRow>, org: string, dimension: nat) {
    forall i :: 0 <= i < |rows| && rows[i].org == org && rows[i].open ==> |rows[i].topicEmbedding| == dimension
  }

  ghost function Detect(rows: seq<ReportRow>, executions: seq<Execution>, m: Models, s: Settings): Progress
    requires Sound(m) && Comparable(rows, s.org, m.dimension)
  {
    OpenIsUsable(rows, s.org, m.dimension);
    HandleAll(Progress(rows, []), OpenReports(rows, s.org), Gaps(executions, m, s), m, s)
  }

  // ---------- The pipeline, as it runs ----------

  class Report {
    const id: nat
    var org: string
    var topic: string
    var topicEmbedding: Vector
    var supportingIds: seq<nat>
    var action: Action
    var open: bool

    function Row(): ReportRow reads this {
      ReportRow(org, topic, topicEmbedding, supportingIds, action, open)
    }

    constructor (id: nat, row: ReportRow)
      ensures this.id == id && Row() == row
    {
      this.id := id;
      org, topic, topicEmbedding := row.org, row.topic, row.topicEmbedding;
      supportingIds, action, open := row.supportingIds, row.action, row.open;
    }
  }

  /** `reports` are the objects of the table's rows, one object per row. */
  ghost predicate Holds(reports: seq<Report>, rows: seq<ReportRow>)
    reads reports
  {
    && |reports| == |rows|
    && forall i :: 0 <= i < |reports| ==> reports[i].id == i && reports[i].Row() == rows[i]
  }

  /** `chosen` are the objects of the rows at `ids`. */
  ghost predicate Named(chosen: seq<Report>, reports: seq<Report>, ids: seq<nat>) {
    |chosen| == |ids| && forall i :: 0 <= i < |ids| ==> ids[i] < |reports| && chosen[i] == reports[ids[i]]
  }

  /** The table, the open reports seen at the start and the results so far, as objects. */
  ghost predicate Tracks(reports: seq<Report>, existing: seq<Report>, results: seq<Report>,
                         open: seq<nat>, p: Progress, repr: set<Report>)
    reads reports
  {
    && Holds(reports, p.rows) && Named(existing, reports, open) && Named(results, reports, p.results)
    && forall i :: 0 <= i < |reports| ==> reports[i] in repr
  }

  lemma TracksAtStart(reports: seq<Report>, existing: seq<Report>, rows: seq<ReportRow>, open: seq<nat>)
    requires Holds(reports, rows) && Named(existing, reports, open)
    ensures Tracks(reports, existing, [], open, Progress(rows, []), set r | r in reports)
  {
  }

  lemma TracksHolds(reports: seq<Report>, existing: seq<Report>, results: seq<Report>,
                    open: seq<nat>, p: Progress, repr: set<Report>)
    requires Tracks(reports, existing, results, open, p, repr)
    ensures Holds(reports, p.rows) && Named(results, reports, p.results)
    ensures forall i :: 0 <= i < |reports| ==> reports[i] in repr
  {
  }

  lemma NothingHandled(queryable: seq<Candidate>, embeddings: seq<Vector>, lists: seq<seq<nat>>, m: Models,
                       s: Settings, p: Progress, open: seq<nat>)
    requires SameDimension(embeddings, m.dimension) && |queryable| == |embeddings|
    requires IndexLists(lists, |embeddings|) && Usable(p.rows, open, m.dimension)
    ensures Qualifying(queryable, embeddings, lists[..0], s.minClusterSize, m.dimension) == []
    ensures HandleAll(p, open, [], m, s) == p
  {
  }

  lemma QualifyingPush(queryable: seq<Candidate>, embeddings: seq<Vector>, lists: seq<seq<nat>>, minSize: int,
                       dimension: nat, c: nat)
    requires SameDimension(embeddings, dimension) && |queryable| == |embeddings|
    requires IndexLists(lists, |embeddings|) && c < |lists|
    ensures
      var before := Qualifying(queryable, embeddings, lists[..c], minSize, dimension);
      Qualifying(queryable, embeddings, lists[..c + 1], minSize, dimension)
      == if |lists[c]| < minSize then before else before + [GapOf(queryable, embeddings, lists[c], dimension)]
  {
    assert lists[..c + 1][..c] == lists[..c];
    hide GapOf;
  }

  lemma HandleAllPush(p: Progress, open: seq<nat>, gaps: seq<Gap>, gap: Gap, m: Models, s: Settings)
    requires Usable(p.rows, open, m.dimension) && GapsFit(gaps, m.dimension) && |gap.centroid| == m.dimension
    ensures GapsFit(gaps + [gap], m.dimension)
    ensures HandleAll(p, open, gaps + [gap], m, s) == Handle(HandleAll(p, open, gaps, m, s), open, gap, m, s)
  {
    hide Handle;
    assert (gaps + [gap])[..|gaps|] == gaps;
  }

  lemma NamedNone(reports: seq<Report>, rows: seq<ReportRow>, org: string)
    ensures Named([], reports, OpenReports(rows[..0], org))
  {
  }

  lemma NamedPush(open: seq<Report>, reports: seq<Report>, rows: seq<ReportRow>, org: string, i: nat)
    requires i < |rows| == |reports| && Named(open, reports, OpenReports(rows[..i], org))
    ensures Named(if rows[i].org == org && rows[i].open then [reports[i]] + open else open,
                  reports, OpenReports(rows[..i + 1], org))
  {
    assert rows[..i + 1][..i] == rows[..i];
    assert OpenReports(rows[..i + 1], org)
           == if rows[i].org == org && rows[i].open then [i] + OpenReports(rows[..i], org)
              else OpenReports(rows[..i], org);
    hide OpenReports;
  }

  class GapSession {
    var reports: seq<Report>

    constructor ()
      ensures reports == []
    {
      reports := [];
    }

    method ListOpenGapReports(org: string, ghost rows: seq<ReportRow>) returns (open: seq<Report>)
      requires Holds(reports, rows)
      ensures Named(open, reports, OpenReports(rows, org))
    {
      hide OpenReports, Named;
      open := [];
      var i := 0;
      NamedNone(reports, rows, org);
      while i < |reports|
        invariant 0 <= i <= |reports|
        invariant Named(open, reports, OpenReports(rows[..i], org))
      {
        assert reports[i].Row() == rows[i];
        NamedPush(open, reports, rows, org, i);
        if reports[i].org == org && reports[i].open {
          open := [reports[i]] + open;
        }
        i := i + 1;
      }
      assert rows[..i] == rows;
    }

    method InsertGapReport(row: ReportRow, ghost rows: seq<ReportRow>) returns (r: Report)
      requires Holds(reports, rows)
      modifies this
      ensures fresh(r) && reports == old(reports) + [r] && Holds(reports, rows + [row])
    {
      r := new Report(|reports|, row);
      reports := reports + [r];
    }

    /** The row is fetched by its id; the object is the one the caller may already hold. */
    method UpdateSupportingIds(id: nat, ids: seq<nat>, ghost rows: seq<ReportRow>) returns (r: Report?)
      requires Holds(reports, rows)
      modifies if id < |reports| then {reports[id]} else {}
      ensures id >= |reports| ==> r == null
      ensures id < |reports| ==> r == reports[id] && Holds(reports, rows[id := rows[id].(supportingIds := ids)])
    {
      if id >= |reports| {
        return null;
      }
      r := reports[id];
      r.supportingIds := ids;
    }

    method FindMergeableReport(sqrt: real -> real, centroid: Vector, existing: seq<Report>,
                               ghost rows: seq<ReportRow>, ghost open: seq<nat>)
      returns (best: Report?)
      requires Holds(reports, rows) && Named(existing, reports, open) && Fits(rows, open, centroid)
      ensures match Mergeable(sqrt, centroid, rows, open)
        case None => best == null
        case Some(id) => id < |reports| && best == reports[id]
    {
      best := null;
      var bestSimilarity := -1.0;
      var i := 0;
      while i < |existing|
        invariant 0 <= i <= |existing|
        invariant bestSimilarity == MostSimilar(sqrt, centroid, rows, open[..i]).1
        invariant match MostSimilar(sqrt, centroid, rows, open[..i]).0
          case None => best == null
          case Some(id) => id < |reports| && best == reports[id]
      {
        assert open[..i + 1][..i] == open[..i];
        assert existing[i] == reports[open[i]] && reports[open[i]].Row() == rows[open[i]];
        var similarity := CosineSimilarity(sqrt, centroid, existing[i].topicEmbedding);
        if similarity > bestSimilarity {
          bestSimilarity, best := similarity, existing[i];
        }
        i := i + 1;
      }
      assert open[..i] == open;
      if best == null || bestSimilarity < MERGE_SIMILARITY_THRESHOLD {
        return null;
      }
    }

    /** The body of the loop over clusters: merge into an open report or insert a new one. */
    method HandleGap(gap: Gap, existing: seq<Report>, results: seq<Report>, m: Models, s: Settings,
                     ghost open: seq<nat>, ghost p: Progress, ghost repr: set<Report>)
      returns (results': seq<Report>, ghost repr': set<Report>)
      requires Tracks(reports, existing, results, open, p, repr)
      requires Usable(p.rows, open, m.dimension) && |gap.centroid| == m.dimension
      modifies this, repr
      ensures fresh(repr' - repr)
      ensures Tracks(reports, existing, results', open, Handle(p, open, gap, m, s), repr')
    {
      repr' := repr;
      var mergeable := FindMergeableReport(m.sqrt, gap.centroid, existing, p.rows, open);
      if mergeable != null {
        ghost var id := Mergeable(m.sqrt, gap.centroid, p.rows, open).value;
        assert mergeable.id == id && mergeable.Row() == p.rows[id];
        var merged := SortedUnion(mergeable.supportingIds, gap.ids);
        var updated := UpdateSupportingIds(mergeable.id, merged, p.rows);
        results' := results;
        if updated != null {
          results' := results + [updated];
        }
      } else {
        var r := InsertGapReport(NewReport(m, s, gap), p.rows);
        repr' := repr' + {r};
        results' := results + [r];
      }
    }

    method HandleClusters(queryable: seq<Candidate>, embeddings: seq<Vector>, clusters: seq<seq<nat>>,
                          m: Models, s: Settings, ghost rows: seq<ReportRow>)
      returns (results: seq<Report>)
      requires Holds(reports, rows) && Usable(rows, OpenReports(rows, s.org), m.dimension)
      requires SameDimension(embeddings, m.dimension) && |queryable| == |embeddings|
      requires IndexLists(clusters, |embeddings|)
      modifies this, reports
      ensures
        var gaps := Qualifying(queryable, embeddings, clusters, s.minClusterSize, m.dimension);
        var p := HandleAll(Progress(rows, []), OpenReports(rows, s.org), gaps, m, s);
        Holds(reports, p.rows) && Named(results, reports, p.results)
    {
      hide Holds, Named, Handle, Usable, HandleAll, Qualifying, Tracks, SameDimension, GapOf;
      ghost var open := OpenReports(rows, s.org);
      var existing := ListOpenGapReports(s.org, rows);
      ghost var start := set r | r in reports;
      ghost var repr, p, gaps: seq<Gap> := start, Progress(rows, []), [];
      results := [];
      TracksAtStart(reports, existing, rows, open);
      NothingHandled(queryable, embeddings, clusters, m, s, p, open);
      var c := 0;
      while c < |clusters|
        invariant 0 <= c <= |clusters|
        invariant fresh(repr - start)
        invariant Tracks(reports, existing, results, open, p, repr)
        invariant gaps == Qualifying(queryable, embeddings, clusters[..c], s.minClusterSize, m.dimension)
        invariant p == HandleAll(Progress(rows, []), open, gaps, m, s)
      {
        QualifyingPush(queryable, embeddings, clusters, s.minClusterSize, m.dimension, c);
        if |clusters[c]| >= s.minClusterSize {
          var gap := GapOf(queryable, embeddings, clusters[c], m.dimension);
          HandleAllPush(Progress(rows, []), open, gaps, gap, m, s);
          results, repr := HandleGap(gap, existing, results, m, s, open, p, repr);
          p, gaps := Handle(p, open, gap, m, s), gaps + [gap];
        }
        c := c + 1;
      }
      assert clusters[..c] == clusters;
      TracksHolds(reports, existing, results, open, p, repr);
    }

    /** `detect_knowledge_gaps`. The results are the very objects of the table, in the state the whole run
        leaves them in. */
    method DetectKnowledgeGaps(executions: seq<Execution>, m: Models, s: Settings, ghost rows: seq<ReportRow>)
      returns (results: seq<Report>)
      requires Holds(reports, rows) && Sound(m) && Comparable(rows, s.org, m.dimension)
      modifies this, reports
      ensures Holds(reports, Detect(rows, executions, m, s).rows)
      ensures Named(results, reports, Detect(rows, executions, m, s).results)
    {
      OpenIsUsable(rows, s.org, m.dimension);
      var queryable := Queryable(executions, s);
      if |queryable| < s.minClusterSize {
        return [];
      }
      var embeddings := Embeddings(queryable, m);
      var clusters := ClusterBySimilarity(m.sqrt, embeddings, s.similarityThreshold, m.dimension);
      ListsIndexEmbeddings(m, s, embeddings);
      results := HandleClusters(queryable, embeddings, clusters, m, s, rows);
    }
  }
}
