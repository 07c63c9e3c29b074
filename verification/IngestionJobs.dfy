/** What an ingestion job asks its source, where it writes, and what it leaves in each row, field by field:
    app/ingestion/service.py and app/ingestion/repository.py. */
module IngestionJobs {
  import opened Wrappers
  import opened Ingestion
  import opened IngestionHistory

  // ---------- What a job asks ----------

  /** Where a job of this configuration resumes: at the stored token, if its source takes one. */
  ghost predicate Resumes(config: Config, connector: Connector, token: Option<string>) {
    token == if connector.supportsResumeToken then config.resumeToken else None
  }

  /** A whole job, once the source's answer is known. Its documents go to the connector's own project, or to
      the organization's default one. */
  ghost predicate Ran(t: Tables, t': Tables, configId: nat, connector: Connector, answer: seq<Fetch>,
                      startedAt: int, completedAt: int)
    requires configId < |t.configs|
  {
    var config := t.configs[configId];
    var project := if config.project.Some? then config.project
                   else if config.org in t.defaultProjects then Some(t.defaultProjects[config.org]) else None;
    var r := if connector.authenticates then Sync(t.content, Scope(config.org, project), answer, None)
             else SyncFailed(Authenticate, None);
    var token := if r.token.Some? then r.token else config.resumeToken;
    && t'.defaultProjects == t.defaultProjects
    && match r
       case Synced(content, count, _) =>
         && t'.content == content
         && t'.jobs == t.jobs + [Job(config.org, configId, Succeeded, None, count, Some(startedAt), Some(completedAt))]
         && t'.configs == t.configs[configId := config.(status := Active, lastSyncedAt := Some(completedAt),
                                                        resumeToken := token)]
       case SyncFailed(stage, _) =>
         && t'.content == t.content
         && t'.jobs == t.jobs + [Job(config.org, configId, Failed, Some(stage), 0, Some(startedAt), Some(completedAt))]
         && t'.configs == t.configs[configId := config.(status := Error, resumeToken := token)]
  }

  /** An incremental job asks for what changed since the last sync: everything, if there was none. */
  lemma IncrementalJobAsksSinceLastSync(t: Tables, registry: map<string, Connector>, configId: nat,
                                        startedAt: int, completedAt: int, token: Option<string>)
    requires configId < |t.configs| && t.configs[configId].source in registry && t.configs[configId].decrypts
    requires Resumes(t.configs[configId], registry[t.configs[configId].source], token)
    ensures
      var config := t.configs[configId];
      var connector := registry[config.source];
      && InTransaction(t, registry, RunJob(configId, startedAt, completedAt)).reply == JobDone(|t.jobs|)
      && Ran(t, After(t, registry, RunJob(configId, startedAt, completedAt)), configId, connector,
             connector.listing(config.lastSyncedAt, token), startedAt, completedAt)
  {
    hide Sync;
  }

  /** The newest configuration of a source. */
  ghost predicate NewestFor(configs: seq<Config>, org: string, source: string, k: nat) {
    && k < |configs| && configs[k].org == org && configs[k].source == source
    && forall j :: k < j < |configs| ==> configs[j].org != org || configs[j].source != source
  }

  lemma {:induction false} ConfigForFinds(configs: seq<Config>, org: string, source: string)
    ensures ConfigFor(configs, org, source).None? ==>
            forall j :: 0 <= j < |configs| ==> configs[j].org != org || configs[j].source != source
    ensures ConfigFor(configs, org, source).Some? ==>
            NewestFor(configs, org, source, ConfigFor(configs, org, source).value)
  {
    if configs == [] {
    } else {
      ConfigForFinds(configs[..|configs| - 1], org, source);
    }
  }

  /** The look-up finds the newest configuration of the source, whenever there is one. */
  lemma ConfigForIsNewest(configs: seq<Config>, org: string, source: string)
    ensures ConfigFor(configs, org, source).None? <==>
            forall j :: 0 <= j < |configs| ==> configs[j].org != org || configs[j].source != source
    ensures forall k: nat :: NewestFor(configs, org, source, k) <==> ConfigFor(configs, org, source) == Some(k)
  {
    hide ConfigFor;
    ConfigForFinds(configs, org, source);
  }

  /** A reindex runs the newest configuration of the document's source, and asks for everything. */
  lemma ReindexAsksForEverything(t: Tables, registry: map<string, Connector>, documentId: nat, k: nat,
                                 startedAt: int, completedAt: int, token: Option<string>)
    requires documentId < |t.content.docs|
    requires NewestFor(t.configs, t.content.docs[documentId].key.org, t.content.docs[documentId].key.source, k)
    requires t.configs[k].source in registry && t.configs[k].decrypts
    requires Resumes(t.configs[k], registry[t.configs[k].source], token)
    ensures
      var connector := registry[t.configs[k].source];
      && InTransaction(t, registry, ReindexDocument(documentId, startedAt, completedAt)).reply == JobDone(|t.jobs|)
      && Ran(t, After(t, registry, ReindexDocument(documentId, startedAt, completedAt)), k, connector,
             connector.listing(None, token), startedAt, completedAt)
  {
    hide Sync, NewestFor, ConfigFor;
    ConfigForIsNewest(t.configs, t.content.docs[documentId].key.org, t.content.docs[documentId].key.source);
  }

  /** Nothing else about a source matters to an incremental job than its answer to that one question. */
  lemma SameAnswerSameJob(t: Tables, registry: map<string, Connector>, registry': map<string, Connector>,
                          configId: nat, startedAt: int, completedAt: int, token: Option<string>)
    requires configId < |t.configs| && t.configs[configId].decrypts
    requires t.configs[configId].source in registry && t.configs[configId].source in registry'
    requires
      var config := t.configs[configId];
      var connector, connector' := registry[config.source], registry'[config.source];
      && connector'.authenticates == connector.authenticates
      && Resumes(config, connector, token) && Resumes(config, connector', token)
      && connector'.listing(config.lastSyncedAt, token) == connector.listing(config.lastSyncedAt, token)
    ensures After(t, registry', RunJob(configId, startedAt, completedAt))
            == After(t, registry, RunJob(configId, startedAt, completedAt))
  {
    hide Sync, InTransaction, After;
    IncrementalJobAsksSinceLastSync(t, registry, configId, startedAt, completedAt, token);
    IncrementalJobAsksSinceLastSync(t, registry', configId, startedAt, completedAt, token);
  }

  /** Nor to a reindex than its answer to the question for everything. */
  lemma SameAnswerSameReindex(t: Tables, registry: map<string, Connector>, registry': map<string, Connector>,
                              documentId: nat, k: nat, startedAt: int, completedAt: int, token: Option<string>)
    requires documentId < |t.content.docs|
    requires NewestFor(t.configs, t.content.docs[documentId].key.org, t.content.docs[documentId].key.source, k)
    requires t.configs[k].decrypts && t.configs[k].source in registry && t.configs[k].source in registry'
    requires
      var config := t.configs[k];
      var connector, connector' := registry[config.source], registry'[config.source];
      && connector'.authenticates == connector.authenticates
      && Resumes(config, connector, token) && Resumes(config, connector', token)
      && connector'.listing(None, token) == connector.listing(None, token)
    ensures After(t, registry', ReindexDocument(documentId, startedAt, completedAt))
            == After(t, registry, ReindexDocument(documentId, startedAt, completedAt))
  {
    hide Sync, InTransaction, After, NewestFor;
    ReindexAsksForEverything(t, registry, documentId, k, startedAt, completedAt, token);
    ReindexAsksForEverything(t, registry', documentId, k, startedAt, completedAt, token);
  }

  /** What a task is refused for, and in which order; a refused task leaves nothing. */
  lemma RefusedIff(t: Tables, registry: map<string, Connector>, task: Task)
    ensures
      match task
      case RunJob(configId, _, _) => RunRefused(t, registry, configId, InTransaction(t, registry, task).reply)
      case ReindexDocument(documentId, _, _) =>
        if documentId >= |t.content.docs| then InTransaction(t, registry, task).reply == Raised(DocumentNotFound)
        else
          var key := t.content.docs[documentId].key;
          if forall j :: 0 <= j < |t.configs| ==> t.configs[j].org != key.org || t.configs[j].source != key.source
          then InTransaction(t, registry, task).reply == Raised(ReindexUnavailable)
          else exists k: nat :: NewestFor(t.configs, key.org, key.source, k)
                           && RunRefused(t, registry, k, InTransaction(t, registry, task).reply)
    ensures InTransaction(t, registry, task).reply.Raised? ==> After(t, registry, task) == t
  {
    hide Sync, ListingFor, ConfigFor, NewestFor;
    if task.ReindexDocument? && task.documentId < |t.content.docs| {
      var key := t.content.docs[task.documentId].key;
      ConfigForIsNewest(t.configs, key.org, key.source);
      if ConfigFor(t.configs, key.org, key.source).Some? {
        assert NewestFor(t.configs, key.org, key.source, ConfigFor(t.configs, key.org, key.source).value);
      }
    }
  }

  ghost predicate RunRefused(t: Tables, registry: map<string, Connector>, configId: nat, reply: Reply) {
    reply == if configId >= |t.configs| then Raised(ConfigNotFound)
             else if t.configs[configId].source !in registry then Raised(UnsupportedSource)
             else if !t.configs[configId].decrypts then Raised(CredentialUnreadable)
             else JobDone(|t.jobs|)
  }

  /** After a job that succeeded, the next incremental one asks for what changed since that job ended, and
      resumes at the token of the last page that carried one, or else at the one stored before. */
  lemma NextJobContinues(t: Tables, registry: map<string, Connector>, task: Task,
                         registry': map<string, Connector>, startedAt: int, completedAt: int)
    requires InTransaction(t, registry, task).reply.JobDone?
    requires JobOf(t, registry, task).status == Succeeded
    requires t.configs[ConfigRun(t, registry, task)].source in registry'
    ensures
      var k := ConfigRun(t, registry, task);
      var config, t1 := t.configs[k], After(t, registry, task);
      var connector := registry'[config.source];
      var last := LastToken(Fetched(t.content, ScopeRun(t, registry, task), ListedBy(t, registry, task)));
      var stored := if last.Some? then last else config.resumeToken;
      && k < |t1.configs|
      && Ran(t1, After(t1, registry', RunJob(k, startedAt, completedAt)), k, connector,
             connector.listing(Some(task.completedAt), if connector.supportsResumeToken then stored else None),
             startedAt, completedAt)
  {
    hide Sync, LastToken, Fetched, ListingFor, ConfigFor, Ran;
    var k, t1 := ConfigRun(t, registry, task), After(t, registry, task);
    SyncKeepsLastToken(t.content, ScopeRun(t, registry, task), ListedBy(t, registry, task), None);
    var connector := registry'[t1.configs[k].source];
    var token := if connector.supportsResumeToken then t1.configs[k].resumeToken else None;
    IncrementalJobAsksSinceLastSync(t1, registry', k, startedAt, completedAt, token);
  }

  // ---------- When an item raises ----------

  /** An item stops its job exactly when it cannot be processed, or has content that is not the newest of its
      key while there is no project to file it under, its content is stored already, or its chunks cannot be
      embedded. */
  lemma ItemRaisesIff(c: Content, s: Scope, item: Item)
    ensures ProcessItem(c, s, item).None? <==>
      || item.Broken?
      || (!Settled(c, s, item) && (s.project.None? || HasHash(c.docs, KeyIn(s.org, item.p), item.p.contentHash)
                                   || (item.p.chunks != [] && !item.embeds)))
  {
  }

  // ---------- Row by row ----------

  /** The chunk of an item that ends up under an index: the last one that has it. */
  ghost predicate LastWithIndex(p: Processed, index: int, j: nat) {
    && j < |p.chunks| && p.chunks[j].index == index
    && forall i :: j < i < |p.chunks| ==> p.chunks[i].index != index
  }

  lemma {:induction false} ChunkFromIsLast(c: Content, k: ChunkId, s: Scope, p: Processed, n: nat)
    requires n <= |p.chunks| && s.project.Some? && ChunkFrom(c, k, s, p, n)
    ensures k !in c.chunks ==> forall i :: 0 <= i < n ==> p.chunks[i].index != k.index
    ensures k in c.chunks ==>
      exists j :: 0 <= j < n && p.chunks[j].index == k.index && (forall i :: j < i < n ==> p.chunks[i].index != k.index)
                  && c.chunks[k] == RowOf(s, s.project.value, p, p.chunks[j])
  {
    if n == 0 {
    } else if p.chunks[n - 1].index != k.index {
      ChunkFromIsLast(c, k, s, p, n - 1);
      if k in c.chunks {
        var j :| 0 <= j < n - 1 && p.chunks[j].index == k.index
                 && (forall i :: j < i < n - 1 ==> p.chunks[i].index != k.index)
                 && c.chunks[k] == RowOf(s, s.project.value, p, p.chunks[j]);
        assert forall i :: j < i < n ==> p.chunks[i].index != k.index;
      }
    }
  }

  /** What is stored of an item: its document, its metadata in order, and one chunk for every index it has,
      in the collection of its content type; conversations carry no repository. */
  ghost predicate StoredInFull(c: Content, id: nat, org: string, projectId: string, p: Processed) {
    && id < |c.docs|
    && c.docs[id].key.org == org && c.docs[id].key.source == p.source && c.docs[id].key.externalId == p.externalId
    && c.docs[id].contentHash == p.contentHash && c.docs[id].projectId == projectId
    && c.docs[id].title == p.title && c.docs[id].sourceUrl == p.sourceUrl
    && (var rows := MetaRows(c.meta, id);
        |rows| == |p.metadata|
        && forall i :: 0 <= i < |rows| ==>
             rows[i].documentId == id && rows[i].name == p.metadata[i].0 && rows[i].value == p.metadata[i].1)
    && forall collection: Collection, index: int ::
         ChunkInFull(c, ChunkId(collection, id, index), org, projectId, p)
  }

  ghost predicate ChunkInFull(c: Content, k: ChunkId, org: string, projectId: string, p: Processed) {
    var collection := match p.contentType
                      case DocumentType => Documentation
                      case CodeType => Code
                      case ChatType => Conversations;
    && (k in c.chunks <==>
          k.collection == collection && exists j :: 0 <= j < |p.chunks| && p.chunks[j].index == k.index)
    && (k in c.chunks ==>
          exists j: nat :: LastWithIndex(p, k.index, j)
            && c.chunks[k].content == p.chunks[j].content
            && c.chunks[k].offsetStart == p.chunks[j].offsetStart && c.chunks[k].offsetEnd == p.chunks[j].offsetEnd
            && c.chunks[k].org == org && c.chunks[k].projectId == projectId
            && c.chunks[k].repo == if p.contentType.ChatType? then None else p.repo)
  }

  lemma StoredFromIsInFull(c: Content, id: nat, s: Scope, item: Item)
    requires StoredFrom(c, id, s, item)
    ensures StoredInFull(c, id, s.org, s.project.value, item.p)
  {
    hide MetaRows, ChunkFrom;
    forall collection: Collection, index: int
      ensures ChunkInFull(c, ChunkId(collection, id, index), s.org, s.project.value, item.p)
    {
      StoredChunk(c, ChunkId(collection, id, index), id, s, item);
    }
  }

  lemma StoredChunk(c: Content, k: ChunkId, id: nat, s: Scope, item: Item)
    requires StoredFrom(c, id, s, item) && k.documentId == id
    ensures ChunkInFull(c, k, s.org, s.project.value, item.p)
  {
    hide MetaRows, ChunkFrom;
    var p := item.p;
    if k.collection == CollectionOf(p.contentType) {
      ChunkFromIsLast(c, k, s, p, |p.chunks|);
      if k in c.chunks {
        var j :| 0 <= j < |p.chunks| && p.chunks[j].index == k.index
                 && (forall i :: j < i < |p.chunks| ==> p.chunks[i].index != k.index)
                 && c.chunks[k] == RowOf(s, s.project.value, p, p.chunks[j]);
        assert LastWithIndex(p, k.index, j);
      }
    }
  }

  /** Every document a succeeded job adds is an item of the listing, filed under the job's organization and
      under its connector's project, or else the organization's default one. */
  lemma JobStoresInFull(t: Tables, registry: map<string, Connector>, task: Task, id: nat)
    requires Invariant(t.content) && InTransaction(t, registry, task).reply.JobDone?
    requires |t.content.docs| <= id < |After(t, registry, task).content.docs|
    ensures
      var config := t.configs[ConfigRun(t, registry, task)];
      && JobOf(t, registry, task).status == Succeeded
      && (config.project.None? ==> config.org in t.defaultProjects)
      && exists item :: item in Items(ListedBy(t, registry, task)) && item.Item?
           && StoredInFull(After(t, registry, task).content, id, config.org,
                           if config.project.Some? then config.project.value else t.defaultProjects[config.org], item.p)
  {
    hide Invariant, Sync, StoredFrom, StoredInFull, Items, After, InTransaction, ListedBy, AllNewStored;
    hide Grows, ConfigOf;
    JobIsSync(t, registry, task);
    var s, listing := ScopeRun(t, registry, task), ListedBy(t, registry, task);
    SyncStores(t.content, s, listing, None);
    NewIsStored(t.content, After(t, registry, task).content, s, Items(listing), id);
    var k :| 0 <= k < |Items(listing)| && StoredFrom(After(t, registry, task).content, id, s, Items(listing)[k]);
    var item := Items(listing)[k];
    StoredHasProject(After(t, registry, task).content, id, s, item);
    StoredFromIsInFull(After(t, registry, task).content, id, s, item);
  }

  lemma StoredHasProject(c: Content, id: nat, s: Scope, item: Item)
    requires StoredFrom(c, id, s, item)
    ensures s.project.Some? && item.Item?
  {
  }

  lemma NewIsStored(c: Content, c': Content, s: Scope, items: seq<Item>, id: nat)
    requires AllNewStored(c, c', s, items) && |c.docs| <= id < |c'.docs|
    ensures exists k :: 0 <= k < |items| && StoredFrom(c', id, s, items[k])
  {
    hide StoredFrom;
    assert StoredFromOneOf(c', id, s, items);
  }
}
