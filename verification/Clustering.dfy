/** Greedy leader clustering: app/agents/knowledge_gap/clustering.py:47-98. */
module Clustering {
  import opened Wrappers
  import opened Vectors

  /** The abstract value of a cluster: the indices it absorbed and the running sum of their embeddings. */
  datatype Group = Group(members: seq<nat>, sum: Vector)

  function CentroidOf(g: Group): (c: Vector)
    requires g.members != []
    ensures |c| == |g.sum|
  {
    seq(|g.sum|, i requires 0 <= i < |g.sum| => g.sum[i] / |g.members| as real)
  }

  ghost predicate SameDimension(embeddings: seq<Vector>, dimension: nat) {
    forall i :: 0 <= i < |embeddings| ==> |embeddings[i]| == dimension
  }

  ghost predicate WellFormed(groups: seq<Group>, dimension: nat) {
    forall g :: 0 <= g < |groups| ==> groups[g].members != [] && |groups[g].sum| == dimension
  }

  /** The first group closest to `e`, if any is closer than -1, and how close it is. */
  ghost function Closest(sqrt: real -> real, e: Vector, groups: seq<Group>): (r: (Option<nat>, real))
    requires WellFormed(groups, |e|)
    ensures r.0.Some? ==> r.0.value < |groups|
    decreases |groups|
  {
    if groups == [] then (None, -1.0) else
      var n := |groups| - 1;
      var best := Closest(sqrt, e, groups[..n]);
      var similarity := CosineSimilarity(sqrt, e, CentroidOf(groups[n]));
      if similarity > best.1 then (Some(n), similarity) else best
  }

  /** The group an embedding joins, or None when it starts one of its own. */
  ghost function Joined(sqrt: real -> real, e: Vector, groups: seq<Group>, threshold: real): (r: Option<nat>)
    requires WellFormed(groups, |e|)
    ensures r.Some? ==> r.value < |groups|
  {
    var best := Closest(sqrt, e, groups);
    if best.0.Some? && best.1 >= threshold then best.0 else None
  }

  ghost function Place(sqrt: real -> real, e: Vector, index: nat, groups: seq<Group>, threshold: real)
    : (r: seq<Group>)
    requires WellFormed(groups, |e|)
    ensures WellFormed(r, |e|)
  {
    match Joined(sqrt, e, groups, threshold)
    case Some(g) => groups[g := Group(groups[g].members + [index], Vectors.Add(groups[g].sum, e))]
    case None => groups + [Group([index], e)]
  }

  /** The groups once the first `n` embeddings have been placed. */
  ghost function Groups(sqrt: real -> real, embeddings: seq<Vector>, threshold: real, n: nat, dimension: nat)
    : (r: seq<Group>)
    requires SameDimension(embeddings, dimension) && n <= |embeddings|
    ensures WellFormed(r, dimension)
    decreases n
  {
    if n == 0 then [] else
      Place(sqrt, embeddings[n - 1], n - 1, Groups(sqrt, embeddings, threshold, n - 1, dimension), threshold)
  }

  // ---------- The algorithm, as it runs ----------

  class Cluster {
    var memberIndices: seq<nat>
    var sum: Vector

    function Value(): Group reads this { Group(memberIndices, sum) }

    constructor (firstIndex: nat, firstEmbedding: Vector)
      ensures Value() == Group([firstIndex], firstEmbedding)
    {
      memberIndices, sum := [firstIndex], firstEmbedding;
    }

    function Centroid(): Vector
      requires memberIndices != []
      reads this
    {
      CentroidOf(Value())
    }

    method Add(index: nat, embedding: Vector)
      requires |sum| == |embedding|
      modifies this
      ensures Value() == Group(old(memberIndices) + [index], Vectors.Add(old(sum), embedding))
    {
      memberIndices := memberIndices + [index];
      sum := Vectors.Add(sum, embedding);
    }
  }

  ghost predicate Models(clusters: seq<Cluster>, groups: seq<Group>)
    reads clusters
  {
    && |clusters| == |groups|
    && (forall i, j :: 0 <= i < j < |clusters| ==> clusters[i] != clusters[j])
    && forall i :: 0 <= i < |clusters| ==> clusters[i].Value() == groups[i]
  }

  lemma NoClustersModelNoGroups()
    ensures Models([], []) && In([], {})
  {
  }

  ghost predicate In(clusters: seq<Cluster>, repr: set<Cluster>) {
    forall i :: 0 <= i < |clusters| ==> clusters[i] in repr
  }

  lemma DimensionAt(embeddings: seq<Vector>, dimension: nat, i: nat)
    requires SameDimension(embeddings, dimension) && i < |embeddings|
    ensures |embeddings[i]| == dimension
  {
  }

  function Members(groups: seq<Group>): seq<seq<nat>> {
    seq(|groups|, g requires 0 <= g < |groups| => groups[g].members)
  }

  /** The inner loop over the clusters built so far. */
  method FindClosest(sqrt: real -> real, embedding: Vector, clusters: seq<Cluster>, ghost groups: seq<Group>)
    returns (best: (Option<nat>, real))
    requires WellFormed(groups, |embedding|) && Models(clusters, groups)
    ensures best == Closest(sqrt, embedding, groups)
  {
    var bestCluster: Option<nat>, bestSimilarity := None, -1.0;
    var c := 0;
    while c < |clusters|
      invariant 0 <= c <= |clusters|
      invariant (bestCluster, bestSimilarity) == Closest(sqrt, embedding, groups[..c])
    {
      assert groups[..c + 1][..c] == groups[..c];
      var cluster := clusters[c];
      assert cluster.Value() == groups[c];
      var similarity := CosineSimilarity(sqrt, embedding, cluster.Centroid());
      if similarity > bestSimilarity {
        bestSimilarity, bestCluster := similarity, Some(c);
      }
      c := c + 1;
    }
    assert groups[..c] == groups;
    best := (bestCluster, bestSimilarity);
  }

  /** The loop body: join the closest cluster if it is close enough, else open a new one. */
  method PlaceOne(sqrt: real -> real, embedding: Vector, index: nat, clusters: seq<Cluster>, threshold: real,
                  ghost groups: seq<Group>, ghost repr: set<Cluster>)
    returns (clusters': seq<Cluster>, ghost repr': set<Cluster>)
    requires WellFormed(groups, |embedding|) && Models(clusters, groups) && In(clusters, repr)
    modifies repr
    ensures Models(clusters', Place(sqrt, embedding, index, groups, threshold))
    ensures In(clusters', repr') && fresh(repr' - repr)
  {
    hide Closest;
    var best := FindClosest(sqrt, embedding, clusters, groups);
    if best.0.Some? && best.1 >= threshold {
      var c := clusters[best.0.value];
      assert c.Value() == groups[best.0.value];
      c.Add(index, embedding);
      clusters', repr' := clusters, repr;
    } else {
      var c := new Cluster(index, embedding);
      clusters', repr' := clusters + [c], repr + {c};
    }
  }

  method MemberLists(clusters: seq<Cluster>, ghost groups: seq<Group>) returns (memberLists: seq<seq<nat>>)
    requires Models(clusters, groups)
    ensures memberLists == Members(groups)
  {
    memberLists := [];
    var c := 0;
    while c < |clusters|
      invariant 0 <= c <= |clusters| && |memberLists| == c
      invariant forall k :: 0 <= k < c ==> memberLists[k] == groups[k].members
    {
      assert clusters[c].Value() == groups[c];
      memberLists := memberLists + [clusters[c].memberIndices];
      c := c + 1;
    }
  }

  /** One list of original indices per cluster, in the order the clusters were opened. */
  method ClusterBySimilarity(sqrt: real -> real, embeddings: seq<Vector>, threshold: real, ghost dimension: nat)
    returns (memberLists: seq<seq<nat>>)
    requires SameDimension(embeddings, dimension)
    ensures memberLists == Members(Groups(sqrt, embeddings, threshold, |embeddings|, dimension))
  {
    hide Place, Models, SameDimension, WellFormed, In;
    var clusters: seq<Cluster> := [];
    ghost var repr: set<Cluster> := {};
    NoClustersModelNoGroups();
    var index := 0;
    while index < |embeddings|
      invariant 0 <= index <= |embeddings|
      invariant fresh(repr) && In(clusters, repr)
      invariant Models(clusters, Groups(sqrt, embeddings, threshold, index, dimension))
    {
      DimensionAt(embeddings, dimension, index);
      clusters, repr := PlaceOne(sqrt, embeddings[index], index, clusters, threshold,
                                 Groups(sqrt, embeddings, threshold, index, dimension), repr);
      index := index + 1;
    }
    memberLists := MemberLists(clusters, Groups(sqrt, embeddings, threshold, |embeddings|, dimension));
  }

  // ---------- Which group is joined ----------

  ghost function Similarity(sqrt: real -> real, e: Vector, groups: seq<Group>, g: nat): real
    requires WellFormed(groups, |e|) && g < |groups|
  {
    CosineSimilarity(sqrt, e, CentroidOf(groups[g]))
  }

  /** The closest group is the first one at the greatest similarity, and it must exceed -1. */
  lemma {:induction false} ClosestIsFirstMaximum(sqrt: real -> real, e: Vector, groups: seq<Group>)
    requires WellFormed(groups, |e|)
    ensures
      var (g, s) := Closest(sqrt, e, groups);
      && s >= -1.0
      && (g.None? <==> forall h :: 0 <= h < |groups| ==> Similarity(sqrt, e, groups, h) <= -1.0)
      && (g.None? ==> s == -1.0)
      && (g.Some? ==> s == Similarity(sqrt, e, groups, g.value) > -1.0)
      && (forall h :: 0 <= h < |groups| ==> Similarity(sqrt, e, groups, h) <= s)
      && (g.Some? ==> forall h :: 0 <= h < g.value ==> Similarity(sqrt, e, groups, h) < s)
    decreases |groups|
  {
    hide Closest, Similarity;
    ClosestUnfolds(sqrt, e, groups);
    if groups == [] {
    } else {
      var n := |groups| - 1;
      ClosestIsFirstMaximum(sqrt, e, groups[..n]);
      SimilarityOfPrefix(sqrt, e, groups, n);
    }
  }

  lemma ClosestUnfolds(sqrt: real -> real, e: Vector, groups: seq<Group>)
    requires WellFormed(groups, |e|)
    ensures groups == [] ==> Closest(sqrt, e, groups) == (None, -1.0)
    ensures groups != [] ==>
      var n := |groups| - 1;
      var best, similarity := Closest(sqrt, e, groups[..n]), Similarity(sqrt, e, groups, n);
      Closest(sqrt, e, groups) == if similarity > best.1 then (Some(n), similarity) else best
  {
    hide CosineSimilarity, CentroidOf;
  }

  lemma SimilarityOfPrefix(sqrt: real -> real, e: Vector, groups: seq<Group>, n: nat)
    requires WellFormed(groups, |e|) && n <= |groups|
    ensures forall h :: 0 <= h < n ==> Similarity(sqrt, e, groups[..n], h) == Similarity(sqrt, e, groups, h)
  {
    hide CosineSimilarity, CentroidOf;
  }

  /** Comparing with the running sum instead of the average would pick the same group. */
  lemma SumAndCentroidAgree(sqrt: real -> real, e: Vector, g: Group)
    requires IsSqrt(sqrt) && g.members != [] && |g.sum| == |e|
    ensures CosineSimilarity(sqrt, e, CentroidOf(g)) == CosineSimilarity(sqrt, e, g.sum)
  {
    CentroidIsScaledSum(g);
    CosineIgnoresScale(sqrt, 1.0 / |g.members| as real, e, g.sum);
  }

  lemma CentroidIsScaledSum(g: Group)
    requires g.members != []
    ensures CentroidOf(g) == Scale(1.0 / |g.members| as real, g.sum)
  {
    var n, k := |g.members| as real, 1.0 / |g.members| as real;
    var centroid, scaled := CentroidOf(g), Scale(k, g.sum);
    assert |centroid| == |scaled|;
    forall i | 0 <= i < |g.sum|
      ensures centroid[i] == scaled[i]
    {
      DivideByMultiplying(g.sum[i], n, k);
    }
  }

  lemma DivideByMultiplying(x: real, n: real, k: real)
    requires n > 0.0 && k == 1.0 / n
    ensures x / n == k * x
  {
  }

  // ---------- Partition ----------

  ghost predicate Ascending(members: seq<nat>) {
    forall i, j :: 0 <= i < j < |members| ==> members[i] < members[j]
  }

  /** The groups split the first `n` indices: each index is in one of them, and in one only; members are
      listed in increasing order; groups are listed in the order of their first members. */
  ghost predicate Partitions(groups: seq<Group>, n: nat) {
    && (forall g :: 0 <= g < |groups| ==> groups[g].members != [] && Ascending(groups[g].members))
    && (forall g, k :: 0 <= g < |groups| && 0 <= k < |groups[g].members| ==> groups[g].members[k] < n)
    && (forall i: nat :: i < n ==> Placed(groups, i))
    && (forall g, h :: 0 <= g < h < |groups| ==> Apart(groups[g].members, groups[h].members))
    && (forall g, h :: 0 <= g < h < |groups| ==> groups[g].members[0] < groups[h].members[0])
  }

  ghost predicate Placed(groups: seq<Group>, i: nat) {
    exists g :: 0 <= g < |groups| && i in groups[g].members
  }

  ghost predicate Apart(a: seq<nat>, b: seq<nat>) {
    forall i :: i in a ==> i !in b
  }

  lemma {:induction false} ClustersPartition(
      sqrt: real -> real, embeddings: seq<Vector>, threshold: real, n: nat, dimension: nat)
    requires SameDimension(embeddings, dimension) && n <= |embeddings|
    ensures Partitions(Groups(sqrt, embeddings, threshold, n, dimension), n)
    decreases n
  {
    hide Place, SameDimension, WellFormed;
    if n == 0 {
    } else {
      hide Partitions;
      DimensionAt(embeddings, dimension, n - 1);
      ClustersPartition(sqrt, embeddings, threshold, n - 1, dimension);
      PlacePartitions(sqrt, embeddings[n - 1], n - 1, Groups(sqrt, embeddings, threshold, n - 1, dimension), threshold);
    }
  }

  lemma PlacePartitions(sqrt: real -> real, e: Vector, index: nat, groups: seq<Group>, threshold: real)
    requires WellFormed(groups, |e|) && Partitions(groups, index)
    ensures Partitions(Place(sqrt, e, index, groups, threshold), index + 1)
  {
    hide Closest;
    match Joined(sqrt, e, groups, threshold)
    case Some(g) => JoiningPartitions(groups, g, index, Vectors.Add(groups[g].sum, e));
    case None => OpeningPartitions(groups, index, e);
  }

  lemma JoiningPartitions(groups: seq<Group>, g: nat, index: nat, sum: Vector)
    requires Partitions(groups, index) && g < |groups|
    ensures Partitions(groups[g := Group(groups[g].members + [index], sum)], index + 1)
  {
    var groups' := groups[g := Group(groups[g].members + [index], sum)];
    forall i: nat | i <= index
      ensures Placed(groups', i)
    {
      if i == index {
        assert i in groups'[g].members;
      } else {
        assert Placed(groups, i);
        var h :| 0 <= h < |groups| && i in groups[h].members;
        assert i in groups'[h].members;
      }
    }
    assert forall h :: 0 <= h < |groups| ==> index !in groups[h].members;
    assert Ascending(groups'[g].members);
    forall h, k | 0 <= h < k < |groups'|
      ensures Apart(groups'[h].members, groups'[k].members)
    {
      assert Apart(groups[h].members, groups[k].members);
    }
  }

  lemma OpeningPartitions(groups: seq<Group>, index: nat, e: Vector)
    requires Partitions(groups, index)
    ensures Partitions(groups + [Group([index], e)], index + 1)
  {
    var groups' := groups + [Group([index], e)];
    forall i: nat | i <= index
      ensures Placed(groups', i)
    {
      if i == index {
        assert i in groups'[|groups|].members;
      } else {
        assert Placed(groups, i);
        var h :| 0 <= h < |groups| && i in groups[h].members;
        assert i in groups'[h].members;
      }
    }
    assert forall h :: 0 <= h < |groups| ==> index !in groups[h].members;
    forall h, k | 0 <= h < k < |groups'|
      ensures Apart(groups'[h].members, groups'[k].members)
    {
      if k < |groups| { assert Apart(groups[h].members, groups[k].members); }
    }
  }

  ghost predicate Extends(before: seq<Group>, after: seq<Group>) {
    && |before| <= |after|
    && forall g :: 0 <= g < |before| ==> before[g].members <= after[g].members
  }

  lemma PlaceExtends(sqrt: real -> real, e: Vector, index: nat, groups: seq<Group>, threshold: real)
    requires WellFormed(groups, |e|)
    ensures Extends(groups, Place(sqrt, e, index, groups, threshold))
  {
    hide Closest;
  }

  lemma ExtendsReflexive(groups: seq<Group>)
    ensures Extends(groups, groups)
  {
  }

  lemma ExtendsTransitive(a: seq<Group>, b: seq<Group>, c: seq<Group>)
    requires Extends(a, b) && Extends(b, c)
    ensures Extends(a, c)
  {
    forall g | 0 <= g < |a|
      ensures a[g].members <= c[g].members
    {
      assert a[g].members <= b[g].members <= c[g].members;
    }
  }

  /** A group never loses a member. */
  lemma {:induction false} GroupsOnlyGrow(
      sqrt: real -> real, embeddings: seq<Vector>, threshold: real, m: nat, n: nat, dimension: nat)
    requires SameDimension(embeddings, dimension) && m <= n <= |embeddings|
    ensures Extends(Groups(sqrt, embeddings, threshold, m, dimension),
                    Groups(sqrt, embeddings, threshold, n, dimension))
    decreases n
  {
    hide Extends, Place, WellFormed, SameDimension;
    if m == n {
      ExtendsReflexive(Groups(sqrt, embeddings, threshold, n, dimension));
    } else {
      DimensionAt(embeddings, dimension, n - 1);
      var before := Groups(sqrt, embeddings, threshold, n - 1, dimension);
      GroupsOnlyGrow(sqrt, embeddings, threshold, m, n - 1, dimension);
      PlaceExtends(sqrt, embeddings[n - 1], n - 1, before, threshold);
      ExtendsTransitive(Groups(sqrt, embeddings, threshold, m, dimension), before,
                        Groups(sqrt, embeddings, threshold, n, dimension));
    }
  }

  /** Where each index ends up: in the first closest group built from earlier indices when that one is
      closer than -1 and meets the threshold, and otherwise in a new group, opened for it. */
  lemma MembershipRule(sqrt: real -> real, embeddings: seq<Vector>, threshold: real, i: nat, dimension: nat)
    requires SameDimension(embeddings, dimension) && i < |embeddings|
    ensures
      var earlier := Groups(sqrt, embeddings, threshold, i, dimension);
      var final := Groups(sqrt, embeddings, threshold, |embeddings|, dimension);
      var (g, s) := Closest(sqrt, embeddings[i], earlier);
      var home := if g.Some? && s >= threshold then g.value else |earlier|;
      && home < |final|
      && i in final[home].members
      && (home == |earlier| <==> final[home].members[0] == i)
  {
    GroupsOnlyGrow(sqrt, embeddings, threshold, i + 1, |embeddings|, dimension);
    ClustersPartition(sqrt, embeddings, threshold, i, dimension);
    var earlier := Groups(sqrt, embeddings, threshold, i, dimension);
    var next := Groups(sqrt, embeddings, threshold, i + 1, dimension);
    var (g, s) := Closest(sqrt, embeddings[i], earlier);
    var home := if g.Some? && s >= threshold then g.value else |earlier|;
    assert next[home].members[|next[home].members| - 1] == i;
    if home < |earlier| {
      assert next[home].members[0] == earlier[home].members[0] < i;
    }
  }

  // ---------- Running sums ----------

  function ColumnSum(vectors: seq<Vector>, d: nat): real
    requires forall i :: 0 <= i < |vectors| ==> d < |vectors[i]|
  {
    if vectors == [] then 0.0 else ColumnSum(vectors[..|vectors| - 1], d) + vectors[|vectors| - 1][d]
  }

  /** The embeddings of a group's members. */
  function MembersOf(members: seq<nat>, embeddings: seq<Vector>): seq<Vector>
    requires forall k :: 0 <= k < |members| ==> members[k] < |embeddings|
  {
    seq(|members|, k requires 0 <= k < |members| => embeddings[members[k]])
  }

  ghost predicate SumsMembers(g: Group, embeddings: seq<Vector>, dimension: nat) {
    && SameDimension(embeddings, dimension) && |g.sum| == dimension
    && (forall k :: 0 <= k < |g.members| ==> g.members[k] < |embeddings|)
    && forall d :: 0 <= d < dimension ==> g.sum[d] == ColumnSum(MembersOf(g.members, embeddings), d)
  }

  ghost predicate AllSumMembers(groups: seq<Group>, embeddings: seq<Vector>, dimension: nat) {
    forall g :: 0 <= g < |groups| ==> SumsMembers(groups[g], embeddings, dimension)
  }

  /** Every running sum is, column by column, the sum of the members' embeddings. */
  lemma {:induction false} RunningSums(
      sqrt: real -> real, embeddings: seq<Vector>, threshold: real, n: nat, dimension: nat)
    requires SameDimension(embeddings, dimension) && n <= |embeddings|
    ensures AllSumMembers(Groups(sqrt, embeddings, threshold, n, dimension), embeddings, dimension)
    decreases n
  {
    hide Place, SumsMembers, SameDimension, WellFormed;
    if n == 0 {
    } else {
      DimensionAt(embeddings, dimension, n - 1);
      RunningSums(sqrt, embeddings, threshold, n - 1, dimension);
      PlaceKeepsSums(sqrt, embeddings, n - 1, Groups(sqrt, embeddings, threshold, n - 1, dimension), threshold,
                     dimension);
    }
  }

  lemma PlaceKeepsSums(sqrt: real -> real, embeddings: seq<Vector>, index: nat, groups: seq<Group>, threshold: real,
                       dimension: nat)
    requires SameDimension(embeddings, dimension) && index < |embeddings| && WellFormed(groups, dimension)
    requires AllSumMembers(groups, embeddings, dimension)
    ensures AllSumMembers(Place(sqrt, embeddings[index], index, groups, threshold), embeddings, dimension)
  {
    hide Closest, SumsMembers;
    match Joined(sqrt, embeddings[index], groups, threshold)
    case Some(g) =>
      assert SumsMembers(groups[g], embeddings, dimension);
      AddingSums(groups[g], index, embeddings, dimension);
    case None =>
      OneMemberSums(index, embeddings, dimension);
  }

  lemma AddingSums(g: Group, index: nat, embeddings: seq<Vector>, dimension: nat)
    requires SumsMembers(g, embeddings, dimension) && index < |embeddings|
    ensures SumsMembers(Group(g.members + [index], Vectors.Add(g.sum, embeddings[index])), embeddings, dimension)
  {
    var members' := g.members + [index];
    var before, after := MembersOf(g.members, embeddings), MembersOf(members', embeddings);
    assert after == before + [embeddings[index]];
    assert after[..|after| - 1] == before;
  }

  lemma OneMemberSums(index: nat, embeddings: seq<Vector>, dimension: nat)
    requires SameDimension(embeddings, dimension) && index < |embeddings|
    ensures SumsMembers(Group([index], embeddings[index]), embeddings, dimension)
  {
    var one := MembersOf([index], embeddings);
    assert one == [embeddings[index]] && one[..0] == [];
    forall d | 0 <= d < dimension
      ensures ColumnSum(one, d) == embeddings[index][d]
    {
      assert ColumnSum(one[..0], d) == 0.0;
    }
  }

  // ---------- Vanishing sums ----------

  ghost predicate AllNonzero(vectors: seq<Vector>) {
    forall i :: 0 <= i < |vectors| ==> Nonzero(vectors[i])
  }

  /** Some member's embedding is not zero. */
  ghost predicate SomeNonzero(members: seq<nat>, embeddings: seq<Vector>) {
    exists k :: 0 <= k < |members| && members[k] < |embeddings| && Nonzero(embeddings[members[k]])
  }

  ghost predicate VanishesWithMembers(g: Group, embeddings: seq<Vector>) {
    Nonzero(g.sum) <==> SomeNonzero(g.members, embeddings)
  }

  ghost predicate AllVanishWithMembers(groups: seq<Group>, embeddings: seq<Vector>) {
    forall g :: 0 <= g < |groups| ==> VanishesWithMembers(groups[g], embeddings)
  }

  lemma SomeNonzeroPush(members: seq<nat>, index: nat, embeddings: seq<Vector>)
    requires index < |embeddings|
    ensures SomeNonzero(members + [index], embeddings) <==>
            SomeNonzero(members, embeddings) || Nonzero(embeddings[index])
  {
    hide Nonzero;
    var members' := members + [index];
    assert members'[|members|] == index;
    if SomeNonzero(members, embeddings) {
      var k :| 0 <= k < |members| && members[k] < |embeddings| && Nonzero(embeddings[members[k]]);
      assert members'[k] == members[k];
    }
  }

  /** Joining never cancels: the sum is zero afterwards exactly when the sum and the newcomer were. */
  lemma JoiningVanishes(sqrt: real -> real, e: Vector, groups: seq<Group>, threshold: real)
    requires IsSqrt(sqrt) && WellFormed(groups, |e|) && Joined(sqrt, e, groups, threshold).Some?
    ensures
      var g := Joined(sqrt, e, groups, threshold).value;
      && (Nonzero(Vectors.Add(groups[g].sum, e)) <==> Nonzero(groups[g].sum) || Nonzero(e))
      && (threshold > 0.0 ==> Nonzero(groups[g].sum) && Nonzero(e))
  {
    hide CosineSimilarity, Nonzero, CentroidOf, IsSqrt, Closest;
    var g := Joined(sqrt, e, groups, threshold).value;
    ClosestIsFirstMaximum(sqrt, e, groups);
    SumAndCentroidAgree(sqrt, e, groups[g]);
    SumVanishesIffBothDo(sqrt, groups[g].sum, e);
    if !Nonzero(groups[g].sum) || !Nonzero(e) {
      CosineOfZero(sqrt, e, groups[g].sum);
    }
  }

  lemma PlaceVanishes(sqrt: real -> real, embeddings: seq<Vector>, index: nat, groups: seq<Group>, threshold: real)
    requires IsSqrt(sqrt) && index < |embeddings| && WellFormed(groups, |embeddings[index]|)
    requires AllVanishWithMembers(groups, embeddings)
    ensures AllVanishWithMembers(Place(sqrt, embeddings[index], index, groups, threshold), embeddings)
  {
    hide Nonzero, IsSqrt, SomeNonzero, Joined;
    match Joined(sqrt, embeddings[index], groups, threshold)
    case Some(g) =>
      JoiningVanishes(sqrt, embeddings[index], groups, threshold);
      SomeNonzeroPush(groups[g].members, index, embeddings);
      assert VanishesWithMembers(groups[g], embeddings);
    case None =>
      SomeNonzeroPush([], index, embeddings);
      assert [] + [index] == [index] && !SomeNonzero([], embeddings) by { NoneNonzero(embeddings); }
  }

  lemma NoneNonzero(embeddings: seq<Vector>)
    ensures !SomeNonzero([], embeddings)
  {
  }

  /** Whatever the threshold, a running sum is zero exactly when every member's embedding is: an embedding
      only joins a group that it is closer to than -1, and only exact opposites cancel. */
  lemma {:induction false} SumVanishesWithMembers(
      sqrt: real -> real, embeddings: seq<Vector>, threshold: real, n: nat, dimension: nat)
    requires IsSqrt(sqrt) && SameDimension(embeddings, dimension) && n <= |embeddings|
    ensures AllVanishWithMembers(Groups(sqrt, embeddings, threshold, n, dimension), embeddings)
    decreases n
  {
    hide Place, IsSqrt, SameDimension, WellFormed, VanishesWithMembers;
    if n == 0 {
      assert Groups(sqrt, embeddings, threshold, n, dimension) == [];
    } else {
      DimensionAt(embeddings, dimension, n - 1);
      SumVanishesWithMembers(sqrt, embeddings, threshold, n - 1, dimension);
      PlaceVanishes(sqrt, embeddings, n - 1, Groups(sqrt, embeddings, threshold, n - 1, dimension), threshold);
    }
  }

  lemma CentroidVanishesWithMembers(
      sqrt: real -> real, embeddings: seq<Vector>, threshold: real, n: nat, dimension: nat, g: nat)
    requires IsSqrt(sqrt) && SameDimension(embeddings, dimension) && n <= |embeddings|
    requires g < |Groups(sqrt, embeddings, threshold, n, dimension)|
    ensures
      var group := Groups(sqrt, embeddings, threshold, n, dimension)[g];
      Nonzero(CentroidOf(group)) <==> SomeNonzero(group.members, embeddings)
  {
    hide Nonzero, IsSqrt, SomeNonzero, CentroidOf, SameDimension;
    SumVanishesWithMembers(sqrt, embeddings, threshold, n, dimension);
    var group := Groups(sqrt, embeddings, threshold, n, dimension)[g];
    assert VanishesWithMembers(group, embeddings);
    NonzeroCentroid(group);
  }

  lemma NonzeroCentroid(g: Group)
    requires g.members != []
    ensures Nonzero(CentroidOf(g)) <==> Nonzero(g.sum)
  {
    CentroidIsScaledSum(g);
    var k := 1.0 / |g.members| as real;
    DotScales(k, g.sum, Scale(k, g.sum));
    DotSymmetric(g.sum, Scale(k, g.sum));
    DotScales(k, g.sum, g.sum);
    assert k > 0.0;
    TwiceNonzero(k, Dot(g.sum, g.sum));
  }

  lemma TwiceNonzero(k: real, d: real)
    requires k > 0.0
    ensures k * (k * d) != 0.0 <==> d != 0.0
  {
    if d != 0.0 {
      ProductNonzero(k, d);
      ProductNonzero(k, k * d);
    }
  }

  // ---------- How many sums vanish ----------

  ghost function ZeroVectors(vectors: seq<Vector>): nat {
    if vectors == [] then 0 else
      ZeroVectors(vectors[..|vectors| - 1]) + (if Nonzero(vectors[|vectors| - 1]) then 0 else 1)
  }

  ghost predicate ZeroGroup(g: Group, minSize: int) { |g.members| >= minSize && !Nonzero(g.sum) }

  /** How many groups of at least the minimum size have a zero sum. */
  ghost function ZeroGroups(groups: seq<Group>, minSize: int): nat {
    if groups == [] then 0 else
      var n := |groups| - 1;
      ZeroGroups(groups[..n], minSize) + (if ZeroGroup(groups[n], minSize) then 1 else 0)
  }

  lemma {:induction false} NoZeroGroups(groups: seq<Group>, minSize: int)
    requires forall g :: 0 <= g < |groups| ==> !ZeroGroup(groups[g], minSize)
    ensures ZeroGroups(groups, minSize) == 0
  {
    hide ZeroGroup;
    if groups == [] {
    } else {
      NoZeroGroups(groups[..|groups| - 1], minSize);
    }
  }

  lemma {:induction false} ZeroGroupsAfterJoining(groups: seq<Group>, g: nat, group: Group, minSize: int)
    requires g < |groups| && !ZeroGroup(groups[g], minSize) && !ZeroGroup(group, minSize)
    ensures ZeroGroups(groups[g := group], minSize) == ZeroGroups(groups, minSize)
  {
    hide ZeroGroup;
    var n, groups' := |groups| - 1, groups[g := group];
    if g == n {
      assert groups'[..n] == groups[..n];
    } else {
      assert groups'[..n] == groups[..n][g := group];
      ZeroGroupsAfterJoining(groups[..n], g, group, minSize);
    }
  }

  ghost predicate ZeroGroupsAreSingle(groups: seq<Group>) {
    forall g :: 0 <= g < |groups| && !Nonzero(groups[g].sum) ==> |groups[g].members| == 1
  }

  /** At a positive threshold a zero embedding joins nothing and nothing joins it. */
  lemma {:induction false} ZeroVectorsStayAlone(
      sqrt: real -> real, embeddings: seq<Vector>, threshold: real, n: nat, dimension: nat)
    requires IsSqrt(sqrt) && SameDimension(embeddings, dimension) && n <= |embeddings| && threshold > 0.0
    ensures
      var groups := Groups(sqrt, embeddings, threshold, n, dimension);
      ZeroGroupsAreSingle(groups) && ZeroGroups(groups, 1) == ZeroVectors(embeddings[..n])
    decreases n
  {
    hide Place, IsSqrt, SameDimension, WellFormed, ZeroGroupsAreSingle, Nonzero;
    if n == 0 {
      NoZeroGroups([], 1);
      NoneSingle();
    } else {
      DimensionAt(embeddings, dimension, n - 1);
      ZeroVectorsStayAlone(sqrt, embeddings, threshold, n - 1, dimension);
      assert embeddings[..n][..n - 1] == embeddings[..n - 1];
      PlaceCountsZero(sqrt, embeddings[n - 1], n - 1, Groups(sqrt, embeddings, threshold, n - 1, dimension), threshold);
    }
  }

  lemma NoneSingle()
    ensures ZeroGroupsAreSingle([])
  {
  }

  lemma PlaceCountsZero(sqrt: real -> real, e: Vector, index: nat, groups: seq<Group>, threshold: real)
    requires IsSqrt(sqrt) && WellFormed(groups, |e|) && threshold > 0.0 && ZeroGroupsAreSingle(groups)
    ensures
      var groups' := Place(sqrt, e, index, groups, threshold);
      && ZeroGroupsAreSingle(groups')
      && ZeroGroups(groups', 1) == ZeroGroups(groups, 1) + (if Nonzero(e) then 0 else 1)
  {
    hide Nonzero, IsSqrt, Joined;
    var groups' := Place(sqrt, e, index, groups, threshold);
    match Joined(sqrt, e, groups, threshold)
    case Some(g) =>
      JoiningVanishes(sqrt, e, groups, threshold);
      ZeroGroupsAfterJoining(groups, g, groups'[g], 1);
    case None =>
      assert groups'[..|groups|] == groups;
  }

  ghost predicate AllZero(vectors: seq<Vector>) { forall i :: 0 <= i < |vectors| ==> !Nonzero(vectors[i]) }

  ghost predicate AllNonzeroSums(groups: seq<Group>) {
    forall g :: 0 <= g < |groups| ==> Nonzero(groups[g].sum)
  }

  /** At a threshold of 0 or less a zero embedding joins whatever group there is. So a sum stays zero only
      while every embedding is zero, and then there is one group holding all of them. */
  lemma {:induction false} ZeroVectorsJoin(
      sqrt: real -> real, embeddings: seq<Vector>, threshold: real, n: nat, dimension: nat)
    requires IsSqrt(sqrt) && SameDimension(embeddings, dimension) && 0 < n <= |embeddings| && threshold <= 0.0
    ensures
      var groups := Groups(sqrt, embeddings, threshold, n, dimension);
      && groups != []
      && if AllZero(embeddings[..n])
         then |groups| == 1 && |groups[0].members| == n && !Nonzero(groups[0].sum)
         else AllNonzeroSums(groups)
    decreases n
  {
    hide IsSqrt, SameDimension, WellFormed, Nonzero, Joined;
    DimensionAt(embeddings, dimension, n - 1);
    var e, before := embeddings[n - 1], Groups(sqrt, embeddings, threshold, n - 1, dimension);
    assert AllZero(embeddings[..n]) <==> AllZero(embeddings[..n - 1]) && !Nonzero(e) by {
      assert embeddings[..n] == embeddings[..n - 1] + [e];
    }
    if n == 1 {
      NothingToJoin(sqrt, e, threshold);
    } else {
      ZeroVectorsJoin(sqrt, embeddings, threshold, n - 1, dimension);
      if !Nonzero(e) || !Nonzero(before[0].sum) {
        JoinsSome(sqrt, e, before, threshold);
      }
      if Joined(sqrt, e, before, threshold).Some? {
        JoiningVanishes(sqrt, e, before, threshold);
      }
    }
  }

  lemma NothingToJoin(sqrt: real -> real, e: Vector, threshold: real)
    ensures WellFormed([], |e|) && Joined(sqrt, e, [], threshold) == None
  {
  }

  lemma JoinsSome(sqrt: real -> real, e: Vector, groups: seq<Group>, threshold: real)
    requires IsSqrt(sqrt) && WellFormed(groups, |e|) && groups != [] && threshold <= 0.0
    requires !Nonzero(e) || !Nonzero(groups[0].sum)
    ensures Joined(sqrt, e, groups, threshold).Some?
  {
    hide CosineSimilarity, Nonzero, CentroidOf, IsSqrt, Closest;
    NonzeroCentroid(groups[0]);
    CosineOfZero(sqrt, e, CentroidOf(groups[0]));
    assert Similarity(sqrt, e, groups, 0) == 0.0;
    ClosestIsFirstMaximum(sqrt, e, groups);
  }

  /** How many groups of at least the minimum size come out with a zero sum, from the input alone. */
  ghost function ZeroGroupsExpected(embeddings: seq<Vector>, threshold: real, minSize: int): nat {
    if threshold > 0.0 then (if minSize <= 1 then ZeroVectors(embeddings) else 0)
    else if embeddings != [] && AllZero(embeddings) && |embeddings| >= minSize then 1 else 0
  }

  lemma ZeroGroupsAreExpected(
      sqrt: real -> real, embeddings: seq<Vector>, threshold: real, minSize: int, dimension: nat)
    requires IsSqrt(sqrt) && SameDimension(embeddings, dimension)
    ensures ZeroGroups(Groups(sqrt, embeddings, threshold, |embeddings|, dimension), minSize)
            == ZeroGroupsExpected(embeddings, threshold, minSize)
  {
    hide IsSqrt, Place, Nonzero, SameDimension;
    var n := |embeddings|;
    var groups := Groups(sqrt, embeddings, threshold, n, dimension);
    assert embeddings[..n] == embeddings;
    if threshold > 0.0 {
      ZeroVectorsStayAlone(sqrt, embeddings, threshold, n, dimension);
      if minSize <= 1 {
        SmallMinimum(groups, minSize);
      } else {
        NoZeroGroups(groups, minSize);
      }
    } else if n > 0 {
      ZeroVectorsJoin(sqrt, embeddings, threshold, n, dimension);
      if AllZero(embeddings) {
        assert groups[..0] == [] && ZeroGroups(groups[..0], minSize) == 0;
      } else {
        NoZeroGroups(groups, minSize);
      }
    }
  }

  lemma {:induction false} SmallMinimum(groups: seq<Group>, minSize: int)
    requires minSize <= 1 && forall g :: 0 <= g < |groups| ==> groups[g].members != []
    ensures ZeroGroups(groups, minSize) == ZeroGroups(groups, 1)
  {
    if groups == [] {
    } else {
      SmallMinimum(groups[..|groups| - 1], minSize);
    }
  }
}
