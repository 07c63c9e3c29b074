/** What every sequence of ingestion jobs, succeeded and failed, keeps true of the store. */
module IngestionHistory {
  import opened Wrappers
  import opened Ingestion

  // ---------- Versions ----------

  ghost function CountKey(docs: seq<Document>, key: Key): nat {
    if docs == [] then 0 else
      CountKey(docs[..|docs| - 1], key) + (if docs[|docs| - 1].key == key then 1 else 0)
  }

  /** Each row of a key carries the next version number: 1 for the first, 2 for the second, ... */
  ghost predicate VersionsInOrder(docs: seq<Document>) {
    forall i :: 0 <= i < |docs| ==> docs[i].version == 1 + CountKey(docs[..i], docs[i].key)
  }

  ghost predicate HashesDistinct(docs: seq<Document>) {
    forall i, j :: 0 <= i < j < |docs| && docs[i].key == docs[j].key ==> docs[i].contentHash != docs[j].contentHash
  }

  /** Every chunk and every metadata row hangs off a stored document, and every chunk carries that
      document's organization and project. */
  ghost predicate RowsBelong(c: Content) {
    && (forall i :: 0 <= i < |c.meta| ==> c.meta[i].documentId < |c.docs|)
    && forall k :: k in c.chunks ==>
         && k.documentId < |c.docs|
         && c.chunks[k].org == c.docs[k.documentId].key.org
         && c.chunks[k].projectId == c.docs[k.documentId].projectId
  }

  ghost predicate Invariant(c: Content) {
    VersionsInOrder(c.docs) && HashesDistinct(c.docs) && RowsBelong(c)
  }

  lemma {:induction false} CountKeyMonotone(docs: seq<Document>, key: Key, i: nat)
    requires i <= |docs|
    ensures CountKey(docs[..i], key) <= CountKey(docs, key)
    ensures i < |docs| && docs[i].key == key ==> CountKey(docs[..i], key) < CountKey(docs, key)
  {
    if i == |docs| {
      assert docs[..i] == docs;
    } else {
      assert docs[..|docs| - 1][..i] == docs[..i];
      CountKeyMonotone(docs[..|docs| - 1], key, i);
    }
  }

  /** The rows of a key have versions exactly 1 to n, each once. */
  lemma {:induction false} VersionsAreExactly(docs: seq<Document>, key: Key, v: nat)
    requires VersionsInOrder(docs)
    ensures 1 <= v <= CountKey(docs, key) <==> exists i :: 0 <= i < |docs| && docs[i].key == key && docs[i].version == v
    ensures forall i, j :: 0 <= i < j < |docs| && docs[i].key == key && docs[j].key == key ==>
              docs[i].version < docs[j].version
  {
    forall i, j | 0 <= i < j < |docs| && docs[i].key == key && docs[j].key == key
      ensures docs[i].version < docs[j].version
    {
      assert docs[..j][..i] == docs[..i];
      CountKeyMonotone(docs[..j], key, i);
    }
    if 1 <= v <= CountKey(docs, key) {
      var i := RowWithVersion(docs, key, v);
    }
    forall i | 0 <= i < |docs| && docs[i].key == key
      ensures 1 <= docs[i].version <= CountKey(docs, key)
    {
      CountKeyMonotone(docs, key, i);
    }
  }

  lemma {:induction false} RowWithVersion(docs: seq<Document>, key: Key, v: nat) returns (i: nat)
    requires VersionsInOrder(docs) && 1 <= v <= CountKey(docs, key)
    ensures i < |docs| && docs[i].key == key && docs[i].version == v
  {
    var n := |docs| - 1;
    if v <= CountKey(docs[..n], key) {
      OrderOfPrefix(docs);
      i := RowWithVersion(docs[..n], key, v);
    } else {
      i := n;
    }
  }

  /** Under the invariant the highest version of a key is its last row. */
  lemma {:induction false} LatestIsLast(docs: seq<Document>, key: Key)
    requires VersionsInOrder(docs)
    ensures Latest(docs, key).None? <==> CountKey(docs, key) == 0
    ensures Latest(docs, key).Some? ==>
      var i := Latest(docs, key).value;
      && docs[i].version == CountKey(docs, key)
      && forall j :: i < j < |docs| ==> docs[j].key != key
  {
    hide VersionsInOrder;
    if docs == [] {
    } else {
      OrderOfPrefix(docs);
      LatestIsLast(docs[..|docs| - 1], key);
      LastVersion(docs);
    }
  }

  lemma LastVersion(docs: seq<Document>)
    requires VersionsInOrder(docs) && docs != []
    ensures docs[|docs| - 1].version == 1 + CountKey(docs[..|docs| - 1], docs[|docs| - 1].key)
  {
  }

  lemma OrderOfPrefix(docs: seq<Document>)
    requires VersionsInOrder(docs) && docs != []
    ensures VersionsInOrder(docs[..|docs| - 1])
  {
    var n := |docs| - 1;
    forall i | 0 <= i < n
      ensures docs[..n][i].version == 1 + CountKey(docs[..n][..i], docs[..n][i].key)
    {
      assert docs[..n][..i] == docs[..i];
    }
  }

  // ---------- Every step ----------

  /** Documents and metadata only accumulate, and the metadata and chunks of stored documents do not
      change. */
  ghost predicate Grows(c: Content, c': Content) {
    && c.docs <= c'.docs && c.meta <= c'.meta
    && (forall i :: |c.meta| <= i < |c'.meta| ==> c'.meta[i].documentId >= |c.docs|)
    && forall k: ChunkId :: k.documentId < |c.docs| ==> SameChunk(c, c', k)
  }

  ghost predicate SameChunk(c: Content, c': Content, k: ChunkId) {
    if k in c.chunks then k in c'.chunks && c'.chunks[k] == c.chunks[k] else k !in c'.chunks
  }

  /** The metadata rows of one document. */
  ghost function MetaRows(meta: seq<Metadata>, id: nat): seq<Metadata> {
    if meta == [] then [] else
      var n := |meta| - 1;
      MetaRows(meta[..n], id) + (if meta[n].documentId == id then [meta[n]] else [])
  }

  /** Row `id` is what `item` was stored as, with exactly that item's metadata, and exactly its chunks, in
      its collection. */
  ghost predicate StoredFrom(c: Content, id: nat, s: Scope, item: Item) {
    && id < |c.docs| && item.Item? && s.project.Some?
    && c.docs[id].key == KeyIn(s.org, item.p) && c.docs[id].contentHash == item.p.contentHash
    && c.docs[id].projectId == s.project.value
    && c.docs[id].title == item.p.title && c.docs[id].sourceUrl == item.p.sourceUrl
    && MetaRows(c.meta, id) == MetadataOf(id, item.p.metadata)
    && forall k: ChunkId :: k.documentId == id ==>
         if k.collection != CollectionOf(item.p.contentType) then k !in c.chunks
         else ChunkFrom(c, k, s, item.p, |item.p.chunks|)
  }

  /** The last of the first `n` chunks with this index is stored; none is if there is none. */
  ghost predicate ChunkFrom(c: Content, k: ChunkId, s: Scope, p: Processed, n: nat)
    requires n <= |p.chunks| && s.project.Some?
  {
    if n == 0 then k !in c.chunks
    else if p.chunks[n - 1].index == k.index
    then k in c.chunks && c.chunks[k] == RowOf(s, s.project.value, p, p.chunks[n - 1])
    else ChunkFrom(c, k, s, p, n - 1)
  }

  lemma {:induction false} MetaRowsOfOthers(meta: seq<Metadata>, more: seq<Metadata>, id: nat)
    requires forall i :: 0 <= i < |more| ==> more[i].documentId != id
    ensures MetaRows(meta + more, id) == MetaRows(meta, id)
  {
    if more == [] {
      assert meta + more == meta;
    } else {
      var n := |more| - 1;
      assert (meta + more)[..|meta| + n] == meta + more[..n];
      MetaRowsOfOthers(meta, more[..n], id);
    }
  }

  lemma {:induction false} MetaRowsOfNew(meta: seq<Metadata>, more: seq<Metadata>, id: nat)
    requires forall i :: 0 <= i < |meta| ==> meta[i].documentId != id
    requires forall i :: 0 <= i < |more| ==> more[i].documentId == id
    ensures MetaRows(meta + more, id) == more
  {
    if more == [] {
      assert [] + meta == meta == meta + more;
      MetaRowsOfOthers([], meta, id);
    } else {
      var n := |more| - 1;
      assert (meta + more)[..|meta| + n] == meta + more[..n];
      MetaRowsOfNew(meta, more[..n], id);
    }
  }

  lemma {:induction false} UpsertAllEffect(
      chunks: map<ChunkId, ChunkRow>, id: nat, s: Scope, p: Processed, n: nat, k: ChunkId)
    requires n <= |p.chunks| && s.project.Some?
    ensures
      var chunks' := UpsertAll(chunks, id, s, s.project.value, p, n);
      && (k.documentId != id || k.collection != CollectionOf(p.contentType) ==>
            if k in chunks then k in chunks' && chunks'[k] == chunks[k] else k !in chunks')
      && (k.documentId == id && k.collection == CollectionOf(p.contentType) && k !in chunks ==>
            ChunkFrom(Content([], [], chunks'), k, s, p, n))
      && (k in chunks' && k !in chunks ==>
            k.documentId == id && chunks'[k].org == s.org && chunks'[k].projectId == s.project.value)
  {
    if n == 0 {
    } else {
      UpsertAllEffect(chunks, id, s, p, n - 1, k);
      var before := UpsertAll(chunks, id, s, s.project.value, p, n - 1);
      var after := UpsertAll(chunks, id, s, s.project.value, p, n);
      if p.chunks[n - 1].index != k.index && k.documentId == id && k.collection == CollectionOf(p.contentType)
         && k !in chunks {
        SameRowSameSource(Content([], [], before), Content([], [], after), k, s, p, n - 1);
      }
    }
  }

  lemma {:induction false} SameRowSameSource(c: Content, c': Content, k: ChunkId, s: Scope, p: Processed, n: nat)
    requires n <= |p.chunks| && s.project.Some? && SameChunk(c, c', k) && ChunkFrom(c, k, s, p, n)
    ensures ChunkFrom(c', k, s, p, n)
  {
    if n > 0 && p.chunks[n - 1].index != k.index {
      SameRowSameSource(c, c', k, s, p, n - 1);
    }
  }

  lemma ItemStores(c: Content, s: Scope, item: Item)
    requires Invariant(c) && ProcessItem(c, s, item).Some?
    ensures
      var (c', n) := ProcessItem(c, s, item).value;
      && Invariant(c') && Grows(c, c') && |c'.docs| == |c.docs| + n
      && (n != 0 ==> n == 1 && StoredFrom(c', |c.docs|, s, item))
  {
    hide Latest, UpsertAll, HashesDistinct, VersionsInOrder, HasHash;
    var (c', n) := ProcessItem(c, s, item).value;
    if n == 0 {
      NothingStored(c, s);
    } else {
      LatestIsLast(c.docs, KeyIn(s.org, item.p));
      NewRowKeepsOrder(c.docs, c'.docs[|c.docs|]);
      NewRowChunks(c, c', s, item);
    }
  }

  /** The chunks of a newly stored row are its item's, and those of the other rows are as they were. */
  lemma NewRowChunks(c: Content, c': Content, s: Scope, item: Item)
    requires RowsBelong(c) && item.Item? && s.project.Some?
    requires |c'.docs| == |c.docs| + 1 && c'.docs[..|c.docs|] == c.docs
    requires c'.docs[|c.docs|].key == KeyIn(s.org, item.p) && c'.docs[|c.docs|].contentHash == item.p.contentHash
    requires c'.docs[|c.docs|].projectId == s.project.value
    requires c'.docs[|c.docs|].title == item.p.title && c'.docs[|c.docs|].sourceUrl == item.p.sourceUrl
    requires c'.meta == c.meta + MetadataOf(|c.docs|, item.p.metadata)
    requires c'.chunks == UpsertAll(c.chunks, |c.docs|, s, s.project.value, item.p, |item.p.chunks|)
    ensures Grows(c, c') && RowsBelong(c') && StoredFrom(c', |c.docs|, s, item)
  {
    hide UpsertAll, ChunkFrom;
    var p, id := item.p, |c.docs|;
    assert forall i :: 0 <= i < id ==> c'.docs[i] == c.docs[i];
    MetaRowsOfNew(c.meta, MetadataOf(id, p.metadata), id);
    hide MetaRows;
    forall k: ChunkId
      ensures k.documentId != id ==> SameChunk(c, c', k)
      ensures k.documentId == id && k.collection == CollectionOf(p.contentType) ==>
                ChunkFrom(c', k, s, p, |p.chunks|)
      ensures k.documentId == id && k.collection != CollectionOf(p.contentType) ==> k !in c'.chunks
      ensures k in c'.chunks && k !in c.chunks ==>
        k.documentId == id && c'.chunks[k].org == s.org && c'.chunks[k].projectId == s.project.value
    {
      UpsertAllEffect(c.chunks, id, s, p, |p.chunks|, k);
      if k.documentId == id && k.collection == CollectionOf(p.contentType) {
        SameRowSameSource(Content([], [], c'.chunks), c', k, s, p, |p.chunks|);
      }
    }
  }

  lemma NewRowKeepsOrder(docs: seq<Document>, d: Document)
    requires VersionsInOrder(docs) && HashesDistinct(docs)
    requires d.version == 1 + CountKey(docs, d.key) && !HasHash(docs, d.key, d.contentHash)
    ensures VersionsInOrder(docs + [d]) && HashesDistinct(docs + [d])
  {
    var docs' := docs + [d];
    assert forall i :: 0 <= i <= |docs| ==> docs'[..i] == docs[..i];
    assert docs[..|docs|] == docs;
  }

  ghost predicate StoredFromOneOf(c: Content, id: nat, s: Scope, items: seq<Item>) {
    exists k :: 0 <= k < |items| && StoredFrom(c, id, s, items[k])
  }

  ghost predicate AllNewStored(c: Content, c': Content, s: Scope, items: seq<Item>) {
    forall id: nat :: |c.docs| <= id < |c'.docs| ==> StoredFromOneOf(c', id, s, items)
  }

  lemma {:induction false} ItemsStore(c: Content, s: Scope, items: seq<Item>)
    requires Invariant(c) && ProcessItems(c, s, items).Some?
    ensures
      var (c', n) := ProcessItems(c, s, items).value;
      Invariant(c') && Grows(c, c') && |c'.docs| == |c.docs| + n && AllNewStored(c, c', s, items)
    decreases |items|
  {
    if items == [] {
      NothingStored(c, s);
    } else {
      hide ProcessItem, Invariant, StoredFrom, Grows, AllNewStored;
      ItemStores(c, s, items[0]);
      var (c1, n) := ProcessItem(c, s, items[0]).value;
      ItemsStore(c1, s, items[1..]);
      var (c2, m) := ProcessItems(c1, s, items[1..]).value;
      GrowsTransitive(c, c1, c2);
      StoredByFirstOrRest(c, c1, c2, s, items);
    }
  }

  lemma StoredByFirstOrRest(c: Content, c1: Content, c2: Content, s: Scope, items: seq<Item>)
    requires items != [] && Grows(c1, c2) && AllNewStored(c1, c2, s, items[1..])
    requires |c.docs| <= |c1.docs| <= |c.docs| + 1
    requires |c1.docs| == |c.docs| + 1 ==> StoredFrom(c1, |c.docs|, s, items[0])
    ensures AllNewStored(c, c2, s, items)
  {
    hide Grows, StoredFrom;
    forall id: nat | |c.docs| <= id < |c2.docs|
      ensures StoredFromOneOf(c2, id, s, items)
    {
      if id < |c1.docs| {
        StoredStays(c1, c2, id, s, items[0]);
      } else {
        assert StoredFromOneOf(c2, id, s, items[1..]);
        var k :| 0 <= k < |items[1..]| && StoredFrom(c2, id, s, items[1..][k]);
        assert items[1..][k] == items[k + 1];
      }
    }
  }

  lemma NothingStored(c: Content, s: Scope)
    ensures Grows(c, c) && AllNewStored(c, c, s, [])
  {
  }

  lemma GrowsTransitive(c: Content, c1: Content, c2: Content)
    requires Grows(c, c1) && Grows(c1, c2)
    ensures Grows(c, c2)
  {
    forall k: ChunkId | k.documentId < |c.docs|
      ensures SameChunk(c, c2, k)
    {
      assert SameChunk(c, c1, k) && SameChunk(c1, c2, k);
    }
  }

  lemma StoredStays(c: Content, c': Content, id: nat, s: Scope, item: Item)
    requires Grows(c, c') && StoredFrom(c, id, s, item)
    ensures StoredFrom(c', id, s, item)
  {
    assert c'.meta == c.meta + c'.meta[|c.meta|..];
    MetaRowsOfOthers(c.meta, c'.meta[|c.meta|..], id);
    hide MetaRows;
    forall k: ChunkId | k.documentId == id && k.collection == CollectionOf(item.p.contentType)
      ensures ChunkFrom(c', k, s, item.p, |item.p.chunks|)
    {
      assert SameChunk(c, c', k);
      SameRowSameSource(c, c', k, s, item.p, |item.p.chunks|);
    }
    forall k: ChunkId | k.documentId == id && k.collection != CollectionOf(item.p.contentType)
      ensures k !in c'.chunks
    {
      assert SameChunk(c, c', k);
    }
  }

  // ---------- Paging does not matter ----------

  /** The items of every page a sync reads, in order. */
  ghost function Items(fetches: seq<Fetch>): seq<Item>
    decreases |fetches|
  {
    if fetches == [] || fetches[0].FetchFails? then []
    else fetches[0].items + (if fetches[0].hasMore then Items(fetches[1..]) else [])
  }

  /** Every page up to the last one is fetched. */
  ghost predicate Completes(fetches: seq<Fetch>)
    decreases |fetches|
  {
    fetches != [] && fetches[0].Page? && (fetches[0].hasMore ==> Completes(fetches[1..]))
  }

  lemma FirstItem(c: Content, s: Scope, items: seq<Item>)
    requires items != []
    ensures ProcessItems(c, s, items) ==
      match ProcessItem(c, s, items[0])
      case None => None
      case Some((c1, n)) =>
        match ProcessItems(c1, s, items[1..])
        case None => None
        case Some((c2, m)) => Some((c2, n + m))
  {
    hide ProcessItem;
  }

  lemma NoItemsNoChange(c: Content, s: Scope)
    ensures ProcessItems(c, s, []) == Some((c, 0))
  {
  }

  lemma {:induction false} ItemsConcat(c: Content, s: Scope, a: seq<Item>, b: seq<Item>)
    ensures ProcessItems(c, s, a + b) ==
      match ProcessItems(c, s, a)
      case None => None
      case Some((c1, n)) =>
        match ProcessItems(c1, s, b)
        case None => None
        case Some((c2, m)) => Some((c2, n + m))
    decreases |a|
  {
    hide ProcessItem, ProcessItems;
    if a == [] {
      assert a + b == b;
      NoItemsNoChange(c, s);
    } else {
      assert (a + b)[0] == a[0] && (a + b)[1..] == a[1..] + b;
      FirstItem(c, s, a);
      FirstItem(c, s, a + b);
      var r := ProcessItem(c, s, a[0]);
      if r.Some? {
        ItemsConcat(r.value.0, s, a[1..], b);
      }
    }
  }

  /** A sync succeeds exactly when it fetches every page and processes every item, and what it stores
      and reports depends on the items alone, not on how they were paged. A failed one stopped at an item
      if one of the items it fetched raises, and at a fetch otherwise. */
  lemma {:induction false} PagingIsInvisible(c: Content, s: Scope, fetches: seq<Fetch>, token: Option<string>)
    ensures
      var r, items := Sync(c, s, fetches, token), ProcessItems(c, s, Items(fetches));
      && (r.Synced? <==> Completes(fetches) && items.Some?)
      && (r.Synced? ==> items == Some((r.content, r.count)))
      && (r.SyncFailed? ==> r.stage == if items.None? then ProcessItemStage else FetchStage)
    decreases |fetches|
  {
    hide ProcessItems;
    NoItemsNoChange(c, s);
    if fetches != [] && fetches[0].Page? {
      var page := fetches[0];
      var rest := if page.hasMore then Items(fetches[1..]) else [];
      ItemsConcat(c, s, page.items, rest);
      var r := ProcessItems(c, s, page.items);
      if r.Some? {
        NoItemsNoChange(r.value.0, s);
      }
      if r.Some? && page.hasMore {
        PagingIsInvisible(r.value.0, s, fetches[1..], Newer(page.resumeToken, token));
      }
    }
  }

  // ---------- Jobs ----------

  lemma SyncStores(c: Content, s: Scope, fetches: seq<Fetch>, token: Option<string>)
    requires Invariant(c) && Sync(c, s, fetches, token).Synced?
    ensures
      var r := Sync(c, s, fetches, token);
      && Invariant(r.content) && Grows(c, r.content) && |r.content.docs| == |c.docs| + r.count
      && AllNewStored(c, r.content, s, Items(fetches))
  {
    PagingIsInvisible(c, s, fetches, token);
    ItemsStore(c, s, Items(fetches));
  }

  /** The configuration a task runs, once it has been found. */
  ghost function ConfigOf(t: Tables, task: Task): Option<nat> {
    match task
    case RunJob(configId, _, _) => if configId < |t.configs| then Some(configId) else None
    case ReindexDocument(documentId, _, _) =>
      if documentId < |t.content.docs|
      then ConfigFor(t.configs, t.content.docs[documentId].key.org, t.content.docs[documentId].key.source)
      else None
  }

  /** What a failed job leaves: content, counts and sync times as they were, and a record of the stage. */
  ghost predicate FailedCleanly(t: Tables, t': Tables, job: Job, s: Scope, connector: Connector, fetches: seq<Fetch>) {
    && t'.content == t.content && job.documentsProcessed == 0
    && job.failedStage == Some(if !connector.authenticates then Authenticate
                               else if ProcessItems(t.content, s, Items(fetches)).None? then ProcessItemStage
                               else FetchStage)
    && |t'.configs| == |t.configs|
    && job.configId < |t.configs| && t'.configs[job.configId].status == Error
    && t'.configs[job.configId].lastSyncedAt == t.configs[job.configId].lastSyncedAt
    && forall i :: 0 <= i < |t.configs| && i != job.configId ==> t'.configs[i] == t.configs[i]
  }

  /** What a succeeded job leaves: exactly the reported number of new documents, each of them stored from
      a fetched item with that item's chunks, in the job's organization and project. */
  ghost predicate SucceededFully(t: Tables, t': Tables, job: Job, s: Scope, fetches: seq<Fetch>) {
    && job.configId < |t.configs| && |t'.configs| == |t.configs|
    && t'.configs[job.configId].lastSyncedAt == job.completedAt && t'.configs[job.configId].status == Active
    && (forall i :: 0 <= i < |t.configs| && i != job.configId ==> t'.configs[i] == t.configs[i])
    && Grows(t.content, t'.content) && job.failedStage.None?
    && |t'.content.docs| == |t.content.docs| + job.documentsProcessed
    && AllNewStored(t.content, t'.content, s, Items(fetches))
  }

  /** Every committed job is over: it either succeeded in full or failed without a trace but its record,
      and a task that raises leaves the database untouched. */
  lemma JobIsAllOrNothing(t: Tables, registry: map<string, Connector>, task: Task)
    requires Invariant(t.content)
    ensures Invariant(After(t, registry, task).content)
    ensures
      var t', reply := After(t, registry, task), InTransaction(t, registry, task).reply;
      match reply
      case Raised(_) => t' == t
      case JobDone(id) =>
        && id == |t.jobs| && |t'.jobs| == id + 1 && t'.jobs[..id] == t.jobs
        && ConfigOf(t, task).Some? && t.configs[ConfigOf(t, task).value].source in registry
        && var job, config := t'.jobs[id], t.configs[ConfigOf(t, task).value];
        && job.org == config.org && Some(job.configId) == ConfigOf(t, task)
        && job.startedAt.Some? && job.completedAt.Some?
        && match job.status
           case Queued => false
           case Running => false
           case Failed =>
             FailedCleanly(t, t', job, ScopeOf(t, config), registry[config.source],
                           ListingFor(config, registry[config.source], task.ReindexDocument?))
           case Succeeded =>
             SucceededFully(t, t', job, ScopeOf(t, config),
                            ListingFor(config, registry[config.source], task.ReindexDocument?))
  {
    hide Invariant, Grows, Sync, AllNewStored, ProcessItems, Items, Completes;
    if InTransaction(t, registry, task).reply.JobDone? {
      var config := t.configs[ConfigOf(t, task).value];
      var connector, force := registry[config.source], task.ReindexDocument?;
      if Attempt(t, config, connector, force).Synced? {
        SyncStores(t.content, ScopeOf(t, config), ListingFor(config, connector, force), None);
      } else {
        PagingIsInvisible(t.content, ScopeOf(t, config), ListingFor(config, connector, force), None);
      }
    }
  }

  /** Tasks run one after another, each against connectors that may answer differently every time. */
  ghost function Run(t: Tables, registries: seq<map<string, Connector>>, tasks: seq<Task>): Tables
    requires |registries| == |tasks|
  {
    if tasks == [] then t else
      var n := |tasks| - 1;
      After(Run(t, registries[..n], tasks[..n]), registries[n], tasks[n])
  }

  /** After any sequence of successful and failed jobs, from an empty store: the versions of every key run
      1, 2, 3, ... without gap or repeat, no two rows of a key share a content hash, and no chunk or
      metadata row is orphaned or filed under another tenant. */
  lemma {:induction false} RunKeepsInvariant(t: Tables, registries: seq<map<string, Connector>>, tasks: seq<Task>)
    requires |registries| == |tasks| && t.content == Content([], [], map[])
    ensures Invariant(Run(t, registries, tasks).content)
  {
    if tasks == [] {
    } else {
      var n := |tasks| - 1;
      RunKeepsInvariant(t, registries[..n], tasks[..n]);
      JobIsAllOrNothing(Run(t, registries[..n], tasks[..n]), registries[n], tasks[n]);
    }
  }

  // ---------- Re-syncing ----------

  /** Items with the same key carry the same content; it is enough that each key occurs once. */
  ghost predicate Consistent(s: Scope, items: seq<Item>) {
    forall i, j :: 0 <= i < j < |items| && items[i].Item? && items[j].Item?
                   && KeyIn(s.org, items[i].p) == KeyIn(s.org, items[j].p) ==>
      items[i].p.contentHash == items[j].p.contentHash
  }

  /** The newest stored row of the item's key already has the item's content. */
  ghost predicate Settled(c: Content, s: Scope, item: Item) {
    && item.Item?
    && var latest := Latest(c.docs, KeyIn(s.org, item.p));
       latest.Some? && c.docs[latest.value].contentHash == item.p.contentHash
  }

  lemma ItemSettles(c: Content, s: Scope, item: Item)
    requires Invariant(c) && ProcessItem(c, s, item).Some?
    ensures Settled(ProcessItem(c, s, item).value.0, s, item)
  {
    var (c', n) := ProcessItem(c, s, item).value;
    if n != 0 {
      assert c'.docs[..|c.docs|] == c.docs;
      LatestIsLast(c.docs, KeyIn(s.org, item.p));
    }
  }

  /** Processing an item leaves every other key's newest row alone. */
  lemma ItemFrame(c: Content, s: Scope, item: Item, other: Item)
    requires Settled(c, s, other) && ProcessItem(c, s, item).Some?
    requires item.Item? && KeyIn(s.org, item.p) == KeyIn(s.org, other.p) ==> item.p.contentHash == other.p.contentHash
    ensures Settled(ProcessItem(c, s, item).value.0, s, other)
  {
    var (c', n) := ProcessItem(c, s, item).value;
    if n != 0 {
      assert c'.docs[..|c.docs|] == c.docs;
    }
  }

  lemma {:induction false} ItemsFrame(c: Content, s: Scope, items: seq<Item>, other: Item)
    requires Settled(c, s, other) && ProcessItems(c, s, items).Some?
    requires forall i :: 0 <= i < |items| && items[i].Item? && KeyIn(s.org, items[i].p) == KeyIn(s.org, other.p) ==>
               items[i].p.contentHash == other.p.contentHash
    ensures Settled(ProcessItems(c, s, items).value.0, s, other)
    decreases |items|
  {
    if items == [] {
    } else {
      hide ProcessItem, Settled;
      ItemFrame(c, s, items[0], other);
      ItemsFrame(ProcessItem(c, s, items[0]).value.0, s, items[1..], other);
    }
  }

  lemma {:induction false} ItemsSettle(c: Content, s: Scope, items: seq<Item>, k: nat)
    requires Invariant(c) && Consistent(s, items) && ProcessItems(c, s, items).Some? && k < |items|
    ensures Settled(ProcessItems(c, s, items).value.0, s, items[k])
    decreases |items|
  {
    hide ProcessItem, Invariant;
    ItemStores(c, s, items[0]);
    var c1 := ProcessItem(c, s, items[0]).value.0;
    if k == 0 {
      ItemSettles(c, s, items[0]);
      ItemsFrame(c1, s, items[1..], items[0]);
    } else {
      assert items[1..][k - 1] == items[k];
      ItemsSettle(c1, s, items[1..], k - 1);
    }
  }

  lemma {:induction false} SettledItemsAddNothing(c: Content, s: Scope, items: seq<Item>)
    requires forall i :: 0 <= i < |items| ==> Settled(c, s, items[i])
    ensures ProcessItems(c, s, items) == Some((c, 0))
    decreases |items|
  {
    if items == [] {
    } else {
      assert Settled(c, s, items[0]);
      SettledItemsAddNothing(c, s, items[1..]);
    }
  }

  /** Syncing a source again when it lists nothing but items of the last successful sync adds no row and
      reports 0, whatever the order, the repetition and the paging of the second listing. */
  lemma ResyncAddsNothing(c: Content, s: Scope, first: seq<Fetch>, again: seq<Fetch>,
                          token: Option<string>, token': Option<string>)
    requires Invariant(c) && Sync(c, s, first, token).Synced?
    requires Consistent(s, Items(first))
    requires Completes(again)
    requires AllIn(Items(again), Items(first))
    ensures
      var c1, r := Sync(c, s, first, token).content, Sync(Sync(c, s, first, token).content, s, again, token');
      r.Synced? && r.content == c1 && r.count == 0
  {
    hide Sync, Items, Completes, Consistent, Settled, Invariant, ProcessItems;
    PagingIsInvisible(c, s, first, token);
    var c1, items := Sync(c, s, first, token).content, Items(again);
    forall i | 0 <= i < |items|
      ensures Settled(c1, s, items[i])
    {
      var k :| 0 <= k < |Items(first)| && Items(first)[k] == items[i];
      ItemsSettle(c, s, Items(first), k);
    }
    SettledItemsAddNothing(c1, s, items);
    PagingIsInvisible(c1, s, again, token');
  }

  /** The configuration a task ran, once it was not refused. */
  ghost function ConfigRun(t: Tables, registry: map<string, Connector>, task: Task): (k: nat)
    requires InTransaction(t, registry, task).reply.JobDone?
    ensures ConfigOf(t, task) == Some(k) && k < |t.configs| && t.configs[k].source in registry
  {
    ConfigOf(t, task).value
  }

  ghost function ListedBy(t: Tables, registry: map<string, Connector>, task: Task): seq<Fetch>
    requires InTransaction(t, registry, task).reply.JobDone?
  {
    var config := t.configs[ConfigRun(t, registry, task)];
    ListingFor(config, registry[config.source], task.ReindexDocument?)
  }

  ghost function ScopeRun(t: Tables, registry: map<string, Connector>, task: Task): Scope
    requires InTransaction(t, registry, task).reply.JobDone?
  {
    ScopeOf(t, t.configs[ConfigRun(t, registry, task)])
  }

  ghost predicate Authenticated(t: Tables, registry: map<string, Connector>, task: Task)
    requires InTransaction(t, registry, task).reply.JobDone?
  {
    registry[t.configs[ConfigRun(t, registry, task)].source].authenticates
  }

  /** The job row a task leaves. */
  ghost function JobOf(t: Tables, registry: map<string, Connector>, task: Task): Job
    requires InTransaction(t, registry, task).reply.JobDone?
  {
    After(t, registry, task).jobs[|t.jobs|]
  }

  /** What became of a job, in terms of its sync. */
  lemma JobIsSync(t: Tables, registry: map<string, Connector>, task: Task)
    requires InTransaction(t, registry, task).reply.JobDone?
    ensures
      var r := Sync(t.content, ScopeRun(t, registry, task), ListedBy(t, registry, task), None);
      && InTransaction(t, registry, task).reply == JobDone(|t.jobs|)
      && (JobOf(t, registry, task).status == Succeeded <==> Authenticated(t, registry, task) && r.Synced?)
      && (JobOf(t, registry, task).status == Succeeded ==>
            After(t, registry, task).content == r.content
            && JobOf(t, registry, task).documentsProcessed == r.count)
      && (JobOf(t, registry, task).status != Succeeded ==> After(t, registry, task).content == t.content)
  {
    hide Sync, ListingFor;
  }

  /** Re-running a configuration writes to the same organization and project. */
  lemma SameScope(t: Tables, registry: map<string, Connector>, task: Task,
                  registry': map<string, Connector>, task': Task)
    requires InTransaction(t, registry, task).reply.JobDone?
    requires InTransaction(After(t, registry, task), registry', task').reply.JobDone?
    requires ConfigOf(After(t, registry, task), task') == ConfigOf(t, task)
    ensures ScopeRun(After(t, registry, task), registry', task') == ScopeRun(t, registry, task)
  {
    hide Sync, ListingFor, ConfigFor;
  }

  /** The same at the level of jobs, each of them incremental or forced: after a job that succeeded, a second
      one of the same configuration that lists the same items succeeds exactly when no key is listed under
      two contents, and then it reports 0 and leaves every document, metadata and chunk row as it was. */
  lemma ResyncJobSucceedsIff(t: Tables, registry: map<string, Connector>, task: Task,
                             registry': map<string, Connector>, task': Task)
    requires Invariant(t.content) && InTransaction(t, registry, task).reply.JobDone?
    requires JobOf(t, registry, task).status == Succeeded
    requires InTransaction(After(t, registry, task), registry', task').reply.JobDone?
    requires ConfigOf(After(t, registry, task), task') == ConfigOf(t, task)
    requires Authenticated(After(t, registry, task), registry', task')
    requires Completes(ListedBy(After(t, registry, task), registry', task'))
    requires forall x :: x in Items(ListedBy(After(t, registry, task), registry', task')) <==>
                         x in Items(ListedBy(t, registry, task))
    ensures
      var t1 := After(t, registry, task);
      && (JobOf(t1, registry', task').status == Succeeded <==>
            Consistent(ScopeRun(t, registry, task), Items(ListedBy(t, registry, task))))
      && After(t1, registry', task').content == t1.content
      && JobOf(t1, registry', task').documentsProcessed == 0
  {
    hide *;
    var t1 := After(t, registry, task);
    JobIsSync(t, registry, task);
    JobIsSync(t1, registry', task');
    FailedJobCountsNothing(t1, registry', task');
    SameScope(t, registry, task, registry', task');
    ResyncSucceedsIff(t.content, ScopeRun(t, registry, task), ListedBy(t, registry, task),
                      ListedBy(t1, registry', task'), None, None);
  }

  lemma FailedJobCountsNothing(t: Tables, registry: map<string, Connector>, task: Task)
    requires InTransaction(t, registry, task).reply.JobDone?
    ensures JobOf(t, registry, task).status != Succeeded ==> JobOf(t, registry, task).documentsProcessed == 0
  {
    hide Sync, ListingFor;
  }

  /** When the second job lists no more than the first one did, consistency of the first is enough. */
  lemma ResyncJobAddsNothing(t: Tables, registry: map<string, Connector>, task: Task,
                             registry': map<string, Connector>, task': Task)
    requires Invariant(t.content) && InTransaction(t, registry, task).reply.JobDone?
    requires JobOf(t, registry, task).status == Succeeded
    requires InTransaction(After(t, registry, task), registry', task').reply.JobDone?
    requires ConfigOf(After(t, registry, task), task') == ConfigOf(t, task)
    requires Authenticated(After(t, registry, task), registry', task')
    requires Completes(ListedBy(After(t, registry, task), registry', task'))
    requires Consistent(ScopeRun(t, registry, task), Items(ListedBy(t, registry, task)))
    requires AllIn(Items(ListedBy(After(t, registry, task), registry', task')), Items(ListedBy(t, registry, task)))
    ensures
      var t1 := After(t, registry, task);
      && JobOf(t1, registry', task').status == Succeeded && JobOf(t1, registry', task').documentsProcessed == 0
      && After(t1, registry', task').content == t1.content
  {
    hide *;
    var t1 := After(t, registry, task);
    JobIsSync(t, registry, task);
    JobIsSync(t1, registry', task');
    SameScope(t, registry, task, registry', task');
    ResyncAddsNothing(t.content, ScopeRun(t, registry, task), ListedBy(t, registry, task),
                      ListedBy(t1, registry', task'), None, None);
  }

  ghost predicate AllIn(a: seq<Item>, b: seq<Item>) { forall i :: 0 <= i < |a| ==> a[i] in b }

  // ---------- Content that goes back to an earlier version ----------

  /** The item's content is that of a row of its key which is not the newest. */
  ghost predicate Reverts(c: Content, s: Scope, item: Item) {
    && item.Item? && !Settled(c, s, item)
    && HasHash(c.docs, KeyIn(s.org, item.p), item.p.contentHash)
  }

  /** The design promises a new row whenever content changes. It gets one exactly when the content is new
      to its key; content that returns to an earlier version hits the uniqueness constraint and raises. */
  lemma ChangedContentIsStoredIff(c: Content, s: Scope, item: Item)
    requires item.Item? && item.embeds && s.project.Some? && !Settled(c, s, item)
    ensures ProcessItem(c, s, item).None? <==> Reverts(c, s, item)
    ensures !HasHash(c.docs, KeyIn(s.org, item.p), item.p.contentHash) ==>
      ProcessItem(c, s, item).Some? && ProcessItem(c, s, item).value.1 == 1
  {
  }

  /** If a row is a key's newest, it is so among the rows up to any point after it. */
  lemma NewestInPrefix(docs: seq<Document>, docs': seq<Document>, key: Key, i: nat)
    requires VersionsInOrder(docs) && VersionsInOrder(docs') && docs <= docs'
    requires i < |docs| && docs[i].key == key && Latest(docs', key) == Some(i)
    ensures Latest(docs, key) == Some(i)
  {
    hide VersionsInOrder, Latest, CountKey;
    LatestIsLast(docs, key);
    LatestIsLast(docs', key);
    assert Latest(docs, key).Some?;
    var latest := Latest(docs, key).value;
    assert docs'[latest] == docs[latest];
  }

  lemma NewestEarlier(c: Content, c': Content, s: Scope, item: Item)
    requires Invariant(c) && Invariant(c') && c.docs <= c'.docs && Settled(c', s, item)
    requires HasHash(c.docs, KeyIn(s.org, item.p), item.p.contentHash)
    ensures Settled(c, s, item)
  {
    hide Latest, VersionsInOrder, RowsBelong, HashesDistinct;
    var key := KeyIn(s.org, item.p);
    var i :| 0 <= i < |c.docs| && c.docs[i].key == key && c.docs[i].contentHash == item.p.contentHash;
    OneRowPerHash(c'.docs, i, Latest(c'.docs, key).value);
    NewestInPrefix(c.docs, c'.docs, key, i);
  }

  /** Superseded content stays superseded however the store grows. */
  lemma RevertsLasts(c: Content, c': Content, s: Scope, item: Item)
    requires Invariant(c) && Invariant(c') && Grows(c, c') && Reverts(c, s, item)
    ensures Reverts(c', s, item)
  {
    hide Settled, Invariant, HasHash;
    HashStays(c, c', KeyIn(s.org, item.p), item.p.contentHash);
    if Settled(c', s, item) {
      NewestEarlier(c, c', s, item);
    }
  }

  lemma OneRowPerHash(docs: seq<Document>, i: nat, j: nat)
    requires HashesDistinct(docs) && i < |docs| && j < |docs|
    requires docs[i].key == docs[j].key && docs[i].contentHash == docs[j].contentHash
    ensures i == j
  {
  }

  lemma {:induction false} RevertedItemRaises(c: Content, s: Scope, items: seq<Item>, k: nat)
    requires Invariant(c) && k < |items| && Reverts(c, s, items[k])
    ensures ProcessItems(c, s, items).None?
    decreases |items|
  {
    hide Invariant, Grows, StoredFrom;
    FirstItem(c, s, items);
    if k == 0 {
      RevertedRaises(c, s, items[0]);
    } else if ProcessItem(c, s, items[0]).Some? {
      hide ProcessItem, ProcessItems, Reverts;
      var c1 := ProcessItem(c, s, items[0]).value.0;
      ItemStores(c, s, items[0]);
      RevertsLasts(c, c1, s, items[k]);
      assert items[1..][k - 1] == items[k];
      RevertedItemRaises(c1, s, items[1..], k - 1);
    }
  }

  lemma RevertedRaises(c: Content, s: Scope, item: Item)
    requires Reverts(c, s, item)
    ensures ProcessItem(c, s, item).None?
  {
  }

  /** One reverted item blocks its whole source: every sync that lists it fails, however it is paged and
      whatever else it lists. */
  lemma RevertedItemBlocksSource(c: Content, s: Scope, fetches: seq<Fetch>, token: Option<string>, k: nat)
    requires Invariant(c) && k < |Items(fetches)| && Reverts(c, s, Items(fetches)[k])
    ensures Sync(c, s, fetches, token).SyncFailed?
  {
    RevertedItemRaises(c, s, Items(fetches), k);
    PagingIsInvisible(c, s, fetches, token);
  }

  lemma TaskGrows(t: Tables, registry: map<string, Connector>, task: Task)
    requires Invariant(t.content)
    ensures Invariant(After(t, registry, task).content)
    ensures Grows(t.content, After(t, registry, task).content)
  {
    hide Invariant, Grows, AllNewStored, InTransaction, Items, ProcessItems, After;
    JobIsAllOrNothing(t, registry, task);
    NothingStored(t.content, Scope("", None));
  }

  /** No sequence of jobs removes or alters a stored document, its metadata or its chunks. */
  lemma {:induction false} RunGrows(t: Tables, registries: seq<map<string, Connector>>, tasks: seq<Task>)
    requires |registries| == |tasks| && Invariant(t.content)
    ensures Invariant(Run(t, registries, tasks).content)
    ensures Grows(t.content, Run(t, registries, tasks).content)
  {
    hide Invariant, Grows, AllNewStored, After;
    if tasks == [] {
      NothingStored(t.content, Scope("", None));
    } else {
      var n := |tasks| - 1;
      var before := Run(t, registries[..n], tasks[..n]);
      RunGrows(t, registries[..n], tasks[..n]);
      TaskGrows(before, registries[n], tasks[n]);
      GrowsTransitive(t.content, before.content, After(before, registries[n], tasks[n]).content);
    }
  }

  /** Once superseded, content is never accepted again: after any sequence of jobs whatever, every job that
      lists it is recorded as failed and stores nothing. */
  lemma SupersededContentBlocksForever(
      t: Tables, registries: seq<map<string, Connector>>, tasks: seq<Task>,
      registry: map<string, Connector>, task: Task, item: Item)
    requires Invariant(t.content) && |registries| == |tasks|
    requires InTransaction(Run(t, registries, tasks), registry, task).reply.JobDone?
    requires
      var t' := Run(t, registries, tasks);
      var config := t'.configs[ConfigOf(t', task).value];
      && Reverts(t.content, ScopeOf(t', config), item)
      && item in Items(ListingFor(config, registry[config.source], task.ReindexDocument?))
    ensures
      var t' := Run(t, registries, tasks);
      && After(t', registry, task).content == t'.content
      && After(t', registry, task).jobs[|t'.jobs|].status == Failed
  {
    hide Invariant, Grows, Reverts, Run, Sync, Items;
    var t' := Run(t, registries, tasks);
    var config := t'.configs[ConfigOf(t', task).value];
    var listing := ListingFor(config, registry[config.source], task.ReindexDocument?);
    RunGrows(t, registries, tasks);
    RevertsLasts(t.content, t'.content, ScopeOf(t', config), item);
    var k :| 0 <= k < |Items(listing)| && Items(listing)[k] == item;
    RevertedItemBlocksSource(t'.content, ScopeOf(t', config), listing, None, k);
  }

  /** A complete sync of what a successful sync has just listed succeeds exactly when no key was listed under
      two contents: the one stored first is superseded by then. */
  lemma ResyncSucceedsIff(c: Content, s: Scope, first: seq<Fetch>, again: seq<Fetch>,
                          token: Option<string>, token': Option<string>)
    requires Invariant(c) && Sync(c, s, first, token).Synced? && Completes(again)
    requires forall x :: x in Items(again) <==> x in Items(first)
    ensures
      var c1 := Sync(c, s, first, token).content;
      && (Sync(c1, s, again, token').Synced? <==> Consistent(s, Items(first)))
      && (Sync(c1, s, again, token').Synced? ==> Sync(c1, s, again, token').content == c1
                                                 && Sync(c1, s, again, token').count == 0)
  {
    hide Invariant, Sync, Completes, Items, ProcessItems, Grows, AllNewStored;
    if Consistent(s, Items(first)) {
      forall i | 0 <= i < |Items(again)|
        ensures Items(again)[i] in Items(first)
      {
        assert Items(again)[i] in Items(again);
      }
      ResyncAddsNothing(c, s, first, again, token, token');
    } else {
      PagingIsInvisible(c, s, first, token);
      SyncStores(c, s, first, token);
      var c1 := Sync(c, s, first, token).content;
      var x := SomeSuperseded(c, s, Items(first));
      assert x in Items(again);
      var k :| 0 <= k < |Items(again)| && Items(again)[k] == x;
      RevertedItemBlocksSource(c1, s, again, token', k);
    }
  }

  lemma SomeSuperseded(c: Content, s: Scope, items: seq<Item>) returns (x: Item)
    requires Invariant(c) && ProcessItems(c, s, items).Some? && !Consistent(s, items)
    ensures x in items && Reverts(ProcessItems(c, s, items).value.0, s, x)
  {
    hide Invariant, ProcessItems, Settled;
    var i, j :| 0 <= i < j < |items| && items[i].Item? && items[j].Item?
                && KeyIn(s.org, items[i].p) == KeyIn(s.org, items[j].p)
                && items[i].p.contentHash != items[j].p.contentHash;
    var c1 := ProcessItems(c, s, items).value.0;
    ItemIsStored(c, s, items, i);
    ItemIsStored(c, s, items, j);
    NotBothSettled(c1, s, items[i], items[j]);
    x := if Settled(c1, s, items[i]) then items[j] else items[i];
  }

  lemma NotBothSettled(c: Content, s: Scope, a: Item, b: Item)
    requires a.Item? && b.Item? && KeyIn(s.org, a.p) == KeyIn(s.org, b.p) && a.p.contentHash != b.p.contentHash
    ensures !(Settled(c, s, a) && Settled(c, s, b))
  {
  }

  /** Every item of a successful pass is in the store, if not as the newest row of its key. */
  lemma {:induction false} ItemIsStored(c: Content, s: Scope, items: seq<Item>, k: nat)
    requires Invariant(c) && ProcessItems(c, s, items).Some? && k < |items| && items[k].Item?
    ensures HasHash(ProcessItems(c, s, items).value.0.docs, KeyIn(s.org, items[k].p), items[k].p.contentHash)
    decreases |items|
  {
    hide ProcessItem, Invariant, ProcessItems, Grows, AllNewStored, HasHash, StoredFrom, Settled;
    FirstItem(c, s, items);
    ItemStores(c, s, items[0]);
    var c1 := ProcessItem(c, s, items[0]).value.0;
    if k == 0 {
      ItemSettles(c, s, items[0]);
      SettledIsStored(c1, s, items[0]);
      ItemsStore(c1, s, items[1..]);
      HashStays(c1, ProcessItems(c1, s, items[1..]).value.0, KeyIn(s.org, items[0].p), items[0].p.contentHash);
    } else {
      assert items[1..][k - 1] == items[k];
      ItemIsStored(c1, s, items[1..], k - 1);
    }
  }

  lemma SettledIsStored(c: Content, s: Scope, item: Item)
    requires Settled(c, s, item)
    ensures HasHash(c.docs, KeyIn(s.org, item.p), item.p.contentHash)
  {
  }

  lemma HashStays(c: Content, c': Content, key: Key, contentHash: string)
    requires Grows(c, c') && HasHash(c.docs, key, contentHash)
    ensures HasHash(c'.docs, key, contentHash)
  {
    var i :| 0 <= i < |c.docs| && c.docs[i].key == key && c.docs[i].contentHash == contentHash;
    assert c'.docs[i] == c.docs[i];
  }

  /** A page that changes from "a" to "b" and back: the third sync fails. */
  lemma RevertingOnceFails(s: Scope) returns (a: Item, b: Item)
    requires s.project.Some?
    ensures
      var empty := Content([], [], map[]);
      var r1 := ProcessItems(empty, s, [a]);
      && r1.Some?
      && var r2 := ProcessItems(r1.value.0, s, [b]);
      && r2.Some? && r2.value.1 == 1
      && ProcessItems(r2.value.0, s, [a]).None?
  {
    var p := Processed("wiki", "page", "a", None, None, DocumentType, [], [], None);
    a, b := Item(p, true), Item(p.(contentHash := "b"), true);
    var key, project := KeyIn(s.org, p), s.project.value;
    assert "a" != "b";
    var d1 := Document(key, project, "a", None, None, 1);
    var d2 := Document(key, project, "b", None, None, 2);
    var c1, c2 := Content([d1], [], map[]), Content([d1, d2], [], map[]);
    assert [d1][..0] == [] && [d1, d2][..1] == [d1];
    var empty := Content([], [], map[]);
    assert empty.docs + [d1] == [d1] && empty.meta + MetadataOf(0, []) == [] && c1.meta + MetadataOf(1, []) == [];
    assert [d1] + [d2] == [d1, d2];
    assert Latest([d1], key) == Some(0) && Latest([d1, d2], key) == Some(1);
    assert ProcessItem(empty, s, a) == Some((c1, 1));
    assert ProcessItem(c1, s, b) == Some((c2, 1));
    assert HasHash([d1, d2], key, "a") by { assert [d1, d2][0].contentHash == "a"; }
    assert ProcessItem(c2, s, a) == None;
    assert [a][1..] == [] && [b][1..] == [];
  }

  // ---------- Resume tokens and failed jobs ----------

  /** The pages a sync gets, up to the one whose items raise. */
  ghost function Fetched(c: Content, s: Scope, fetches: seq<Fetch>): seq<Fetch>
    decreases |fetches|
  {
    if fetches == [] || fetches[0].FetchFails? then [] else
      match ProcessItems(c, s, fetches[0].items)
      case None => [fetches[0]]
      case Some((c', _)) => [fetches[0]] + (if fetches[0].hasMore then Fetched(c', s, fetches[1..]) else [])
  }

  /** The token of the last page that carries one. */
  ghost function LastToken(pages: seq<Fetch>): Option<string> {
    if pages == [] then None else
      var n := |pages| - 1;
      if pages[n].Page? && pages[n].resumeToken.Some? then pages[n].resumeToken else LastToken(pages[..n])
  }

  lemma {:induction false} LastTokenAfter(page: Fetch, pages: seq<Fetch>)
    requires page.Page?
    ensures LastToken([page] + pages) == Newer(LastToken(pages), page.resumeToken)
  {
    var all := [page] + pages;
    if pages == [] {
      assert all[..0] == [] && LastToken([]) == None;
    } else {
      assert all[..|all| - 1] == [page] + pages[..|pages| - 1] && all[|all| - 1] == pages[|pages| - 1];
      LastTokenAfter(page, pages[..|pages| - 1]);
    }
  }

  lemma {:induction false} SyncKeepsLastToken(c: Content, s: Scope, fetches: seq<Fetch>, token: Option<string>)
    ensures Sync(c, s, fetches, token).token == Newer(LastToken(Fetched(c, s, fetches)), token)
    decreases |fetches|
  {
    hide ProcessItems, LastToken;
    NoPagesNoToken();
    if fetches != [] && fetches[0].Page? {
      var page := fetches[0];
      var r := ProcessItems(c, s, page.items);
      LastTokenAfter(page, []);
      assert [page] + [] == [page];
      if r.Some? && page.hasMore {
        SyncKeepsLastToken(r.value.0, s, fetches[1..], Newer(page.resumeToken, token));
        LastTokenAfter(page, Fetched(r.value.0, s, fetches[1..]));
      }
    }
  }

  lemma NoPagesNoToken()
    ensures LastToken([]) == None
  {
  }

  /** A failed job undoes its documents but keeps its place: it leaves the connector a new resume token
      exactly when one of the pages it got carried one that differs from the stored one. */
  lemma FailedJobMovesTokenIff(t: Tables, registry: map<string, Connector>, task: Task)
    requires InTransaction(t, registry, task).reply.JobDone?
    requires After(t, registry, task).jobs[|t.jobs|].status == Failed
    ensures
      var k := ConfigOf(t, task).value;
      var config, after := t.configs[k], After(t, registry, task).configs[k];
      var connector := registry[config.source];
      var pages := if connector.authenticates
                   then Fetched(t.content, ScopeOf(t, config), ListingFor(config, connector, task.ReindexDocument?))
                   else [];
      && After(t, registry, task).content == t.content
      && (after.resumeToken != config.resumeToken <==>
            LastToken(pages).Some? && LastToken(pages) != config.resumeToken)
  {
    hide Sync, Fetched, LastToken;
    NoPagesNoToken();
    var config := t.configs[ConfigOf(t, task).value];
    SyncKeepsLastToken(t.content, ScopeOf(t, config),
                       ListingFor(config, registry[config.source], task.ReindexDocument?), None);
  }

  /** Whether the next job, incremental or forced, asks the source the same again after a failure: exactly
      when the source takes no resume token, or the failed job got none that differs from the stored one. */
  lemma FailedJobAsksAgainIff(t: Tables, registry: map<string, Connector>, task: Task, force: bool)
    requires InTransaction(t, registry, task).reply.JobDone?
    requires After(t, registry, task).jobs[|t.jobs|].status == Failed
    ensures
      var k := ConfigOf(t, task).value;
      var config, after := t.configs[k], After(t, registry, task).configs[k];
      var connector := registry[config.source];
      var pages := if connector.authenticates
                   then Fetched(t.content, ScopeOf(t, config), ListingFor(config, connector, task.ReindexDocument?))
                   else [];
      Question(after, connector, force) == Question(config, connector, force) <==>
        || !connector.supportsResumeToken
        || LastToken(pages).None? || LastToken(pages) == config.resumeToken
  {
    hide Sync, Fetched, LastToken, Items, ProcessItems;
    FailedJobMovesTokenIff(t, registry, task);
  }

  /** What that costs: the first page is rolled back with the job, the second sync resumes after it and
      succeeds, and the item is in no document. */
  lemma RolledBackItemIsSkipped(t: Tables, item: Item) returns (registry: map<string, Connector>)
    requires t.configs == [Config("org", Some("project"), "drive", true, Active, None, None)]
    requires t.content == Content([], [], map[]) && item.Item?
    requires ProcessItem(t.content, Scope("org", Some("project")), item).Some?
    ensures
      var task := RunJob(0, 1, 2);
      var t1 := After(t, registry, task);
      var t2 := After(t1, registry, task);
      && "drive" in registry
      && item in Items(registry["drive"].listing(None, None))
      && t1.jobs == t.jobs + [Job("org", 0, Failed, Some(FetchStage), 0, Some(1), Some(2))]
      && t2.jobs == t1.jobs + [Job("org", 0, Succeeded, None, 0, Some(1), Some(2))]
      && t2.content.docs == []
  {
    var listing := (since: Option<int>, token: Option<string>) =>
      if token.None? then [Page([item], true, Some("place")), FetchFails] else [Page([], false, None)];
    var connector := Connector(true, true, listing);
    registry := map["drive" := connector];
    var s, c := Scope("org", Some("project")), t.content;
    var first, again := listing(None, None), listing(None, Some("place"));
    assert first[1..] == [FetchFails] && [item][1..] == [];
    assert item in Items(first) by { assert Items(first)[0] == item; }
    NoItemsNoChange(c, s);
    var stored := ProcessItem(c, s, item).value;
    NoItemsNoChange(stored.0, s);
    FirstItem(c, s, [item]);
    hide ProcessItem, ProcessItems;
    assert ProcessItems(c, s, [item]).Some?;
    assert Sync(c, s, first, None) == SyncFailed(FetchStage, Some("place"));
    assert Sync(c, s, again, None) == Synced(c, 0, None);
    var t1 := After(t, registry, RunJob(0, 1, 2));
    assert t1.content == c && t1.configs[0].resumeToken == Some("place") && t1.configs[0].lastSyncedAt == None;
  }
}
