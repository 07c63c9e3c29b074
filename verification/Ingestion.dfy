/** One ingestion job and the store it writes: app/ingestion/service.py, app/ingestion/repository.py,
    the savepoint it runs in and the outer transaction of app/database/session.py.

    Row ids are positions: documents, jobs and connector configurations are only ever appended. A
    connector is a finite list of answers to `fetch_batch`, any of which may fail; running off its end
    fails too. The processing
    pipeline and the embedding model are given: an item either fails to normalize or process, or
    arrives processed, and embedding its chunks may fail. Jobs run serially. The rate limiter calls of
    the loop are the subject of FetchBudgets. */
module Ingestion {
  import opened Wrappers

  datatype ContentType = DocumentType | CodeType | ChatType
  datatype Collection = Documentation | Code | Conversations

  function CollectionOf(t: ContentType): Collection {
    match t
    case DocumentType => Documentation
    case CodeType => Code
    case ChatType => Conversations
  }

  datatype ProcessedChunk = ProcessedChunk(index: int, content: string, offsetStart: int, offsetEnd: int)

  datatype Processed = Processed(
    source: string, externalId: string, contentHash: string, title: Option<string>,
    sourceUrl: Option<string>, contentType: ContentType, metadata: seq<(string, string)>, chunks: seq<ProcessedChunk>,
    repo: Option<string>)

  datatype Item = Broken | Item(p: Processed, embeds: bool)

  datatype Fetch = FetchFails | Page(items: seq<Item>, hasMore: bool, resumeToken: Option<string>)

  /** `listing` is what the source answers, page by page, to a sync since a time with a resume token. */
  datatype Connector = Connector(
    authenticates: bool, supportsResumeToken: bool, listing: (Option<int>, Option<string>) -> seq<Fetch>)

  // ---------- Tables ----------

  datatype Key = Key(org: string, source: string, externalId: string)

  datatype Document = Document(
    key: Key, projectId: string, contentHash: string, title: Option<string>,
    sourceUrl: Option<string>, version: nat)

  datatype Metadata = Metadata(documentId: nat, name: string, value: string)

  datatype ChunkId = ChunkId(collection: Collection, documentId: nat, index: int)

  datatype ChunkRow = ChunkRow(
    org: string, projectId: string, content: string, offsetStart: int, offsetEnd: int, repo: Option<string>)

  /** What the savepoint protects. */
  datatype Content = Content(docs: seq<Document>, meta: seq<Metadata>, chunks: map<ChunkId, ChunkRow>)

  datatype JobStatus = Queued | Running | Succeeded | Failed
  datatype Stage = Authenticate | FetchStage | ProcessItemStage

  datatype Job = Job(
    org: string, configId: nat, status: JobStatus, failedStage: Option<Stage>,
    documentsProcessed: nat, startedAt: Option<int>, completedAt: Option<int>)

  datatype SyncStatus = Connecting | Active | Error | Disconnected

  datatype Config = Config(
    org: string, project: Option<string>, source: string, decrypts: bool,
    status: SyncStatus, lastSyncedAt: Option<int>, resumeToken: Option<string>)

  datatype Tables = Tables(
    content: Content, configs: seq<Config>, jobs: seq<Job>, defaultProjects: map<string, string>)

  /** The organization and project a job writes to; the project is the connector's own, or the
      organization's default one, if there is one. */
  datatype Scope = Scope(org: string, project: Option<string>)

  // ---------- One item ----------

  function KeyIn(org: string, p: Processed): Key { Key(org, p.source, p.externalId) }

  /** The highest version of a key. */
  function Latest(docs: seq<Document>, key: Key): (r: Option<nat>)
    ensures r.Some? ==> r.value < |docs| && docs[r.value].key == key
    ensures r.None? ==> forall i :: 0 <= i < |docs| ==> docs[i].key != key
  {
    if docs == [] then None else
      var n := |docs| - 1;
      var before := Latest(docs[..n], key);
      if docs[n].key == key && (before.None? || docs[n].version > docs[before.value].version) then Some(n)
      else before
  }

  /** The uniqueness constraint on (organization, source, external id, content hash). */
  predicate HasHash(docs: seq<Document>, key: Key, contentHash: string) {
    exists i :: 0 <= i < |docs| && docs[i].key == key && docs[i].contentHash == contentHash
  }

  function MetadataOf(id: nat, entries: seq<(string, string)>): seq<Metadata> {
    seq(|entries|, i requires 0 <= i < |entries| => Metadata(id, entries[i].0, entries[i].1))
  }

  /** Conversations are not filed by repository. */
  function RowOf(s: Scope, projectId: string, p: Processed, c: ProcessedChunk): ChunkRow {
    ChunkRow(s.org, projectId, c.content, c.offsetStart, c.offsetEnd,
             if CollectionOf(p.contentType).Conversations? then None else p.repo)
  }

  /** Insert-or-replace every chunk, in order. */
  function UpsertAll(chunks: map<ChunkId, ChunkRow>, id: nat, s: Scope, projectId: string,
                     p: Processed, n: nat): map<ChunkId, ChunkRow>
    requires n <= |p.chunks|
  {
    if n == 0 then chunks else
      var c := p.chunks[n - 1];
      UpsertAll(chunks, id, s, projectId, p, n - 1)
        [ChunkId(CollectionOf(p.contentType), id, c.index) := RowOf(s, projectId, p, c)]
  }

  /** None when processing the item raises; otherwise the new content and the count to add. */
  function ProcessItem(c: Content, s: Scope, item: Item): Option<(Content, nat)> {
    if item.Broken? then None else
      var p := item.p;
      var key := KeyIn(s.org, p);
      var existing := Latest(c.docs, key);
      if existing.Some? && c.docs[existing.value].contentHash == p.contentHash then Some((c, 0))
      else if s.project.None? then None
      else if HasHash(c.docs, key, p.contentHash) then None
      else
        var id := |c.docs|;
        var version := if existing.Some? then c.docs[existing.value].version + 1 else 1;
        if p.chunks != [] && !item.embeds then None else
          Some((Content(c.docs + [Document(key, s.project.value, p.contentHash, p.title, p.sourceUrl, version)],
                        c.meta + MetadataOf(id, p.metadata),
                        UpsertAll(c.chunks, id, s, s.project.value, p, |p.chunks|)), 1))
  }

  function ProcessItems(c: Content, s: Scope, items: seq<Item>): Option<(Content, nat)>
    decreases |items|
  {
    if items == [] then Some((c, 0)) else
      match ProcessItem(c, s, items[0])
      case None => None
      case Some((c', n)) =>
        match ProcessItems(c', s, items[1..])
        case None => None
        case Some((c'', m)) => Some((c'', n + m))
  }

  // ---------- One sync ----------

  datatype SyncResult =
    | Synced(content: Content, count: nat, token: Option<string>)
    | SyncFailed(stage: Stage, token: Option<string>)

  function Newer(token: Option<string>, stored: Option<string>): Option<string> {
    if token.Some? then token else stored
  }

  function Sync(c: Content, s: Scope, fetches: seq<Fetch>, token: Option<string>): SyncResult
    decreases |fetches|
  {
    if fetches == [] || fetches[0].FetchFails? then SyncFailed(FetchStage, token) else
      var token' := Newer(fetches[0].resumeToken, token);
      match ProcessItems(c, s, fetches[0].items)
      case None => SyncFailed(ProcessItemStage, token')
      case Some((c', n)) =>
        if !fetches[0].hasMore then Synced(c', n, token') else
          match Sync(c', s, fetches[1..], token')
          case Synced(c'', m, token'') => Synced(c'', n + m, token'')
          case SyncFailed(stage, token'') => SyncFailed(stage, token'')
  }

  datatype Refusal = DocumentNotFound | ReindexUnavailable | ConfigNotFound | UnsupportedSource | CredentialUnreadable

  datatype Reply = JobDone(id: nat) | Raised(why: Refusal)

  datatype Tx = Tx(tables: Tables, reply: Reply)

  function ScopeOf(t: Tables, config: Config): Scope {
    Scope(config.org,
          if config.project.Some? then config.project
          else if config.org in t.defaultProjects then Some(t.defaultProjects[config.org]) else None)
  }

  /** What a job asks of the source: a full listing when forced, else what changed since the last sync,
      and from where to resume if the source takes that. */
  function Question(config: Config, connector: Connector, force: bool): (Option<int>, Option<string>) {
    (if force then None else config.lastSyncedAt,
     if connector.supportsResumeToken then config.resumeToken else None)
  }

  function ListingFor(config: Config, connector: Connector, force: bool): seq<Fetch> {
    var question := Question(config, connector, force);
    connector.listing(question.0, question.1)
  }

  /** What the savepoint block of a job comes to. */
  function Attempt(t: Tables, config: Config, connector: Connector, force: bool): SyncResult {
    if !connector.authenticates then SyncFailed(Authenticate, None)
    else Sync(t.content, ScopeOf(t, config), ListingFor(config, connector, force), None)
  }

  function ExecuteTx(t: Tables, registry: map<string, Connector>, configId: nat, force: bool,
                     startedAt: int, completedAt: int): Tx {
    if configId >= |t.configs| then Tx(t, Raised(ConfigNotFound))
    else if t.configs[configId].source !in registry then Tx(t, Raised(UnsupportedSource))
    else if !t.configs[configId].decrypts then Tx(t, Raised(CredentialUnreadable))
    else
      var config := t.configs[configId];
      var job := Job(config.org, configId, Running, None, 0, Some(startedAt), None);
      match Attempt(t, config, registry[config.source], force)
      case Synced(content, count, token) =>
        Tx(t.(content := content,
              jobs := t.jobs + [job.(status := Succeeded, documentsProcessed := count,
                                     completedAt := Some(completedAt))],
              configs := t.configs[configId := config.(status := Active, lastSyncedAt := Some(completedAt),
                                                       resumeToken := Newer(token, config.resumeToken))]),
           JobDone(|t.jobs|))
      case SyncFailed(stage, token) =>
        Tx(t.(jobs := t.jobs + [job.(status := Failed, failedStage := Some(stage), completedAt := Some(completedAt))],
              configs := t.configs[configId := config.(status := Error,
                                                       resumeToken := Newer(token, config.resumeToken))]),
           JobDone(|t.jobs|))
  }

  /** The most recently created configuration of a source. */
  function ConfigFor(configs: seq<Config>, org: string, source: string): (r: Option<nat>)
    ensures r.Some? ==> r.value < |configs| && configs[r.value].org == org && configs[r.value].source == source
  {
    if configs == [] then None else
      var n := |configs| - 1;
      if configs[n].org == org && configs[n].source == source then Some(n) else ConfigFor(configs[..n], org, source)
  }

  function ReindexTx(t: Tables, registry: map<string, Connector>, documentId: nat, startedAt: int,
                     completedAt: int): Tx {
    if documentId >= |t.content.docs| then Tx(t, Raised(DocumentNotFound)) else
      var key := t.content.docs[documentId].key;
      match ConfigFor(t.configs, key.org, key.source)
      case None => Tx(t, Raised(ReindexUnavailable))
      case Some(configId) => ExecuteTx(t, registry, configId, true, startedAt, completedAt)
  }

  // ---------- The job, as it runs ----------

  class IngestionSession {
    var docs: seq<Document>
    var meta: seq<Metadata>
    var chunks: map<ChunkId, ChunkRow>
    var configs: seq<Config>
    var jobs: seq<Job>
    var defaultProjects: map<string, string>

    function Stored(): Content reads this { Content(docs, meta, chunks) }

    function View(): Tables reads this { Tables(Stored(), configs, jobs, defaultProjects) }

    constructor (t: Tables)
      ensures View() == t
    {
      docs, meta, chunks := t.content.docs, t.content.meta, t.content.chunks;
      configs, jobs, defaultProjects := t.configs, t.jobs, t.defaultProjects;
    }

    method GetLatestDocument(key: Key) returns (latest: Option<nat>)
      ensures latest == Latest(docs, key)
    {
      var i := 0;
      latest := None;
      while i < |docs|
        invariant 0 <= i <= |docs|
        invariant latest == Latest(docs[..i], key)
      {
        assert docs[..i + 1][..i] == docs[..i];
        if docs[i].key == key && (latest.None? || docs[i].version > docs[latest.value].version) {
          latest := Some(i);
        }
        i := i + 1;
      }
      assert docs[..i] == docs;
    }

    method InsertDocument(d: Document) returns (inserted: bool)
      modifies this`docs
      ensures inserted == !HasHash(old(docs), d.key, d.contentHash)
      ensures docs == if inserted then old(docs) + [d] else old(docs)
    {
      var i := 0;
      while i < |docs|
        invariant 0 <= i <= |docs|
        invariant !HasHash(docs[..i], d.key, d.contentHash)
      {
        if docs[i].key == d.key && docs[i].contentHash == d.contentHash {
          return false;
        }
        i := i + 1;
      }
      assert docs[..i] == docs;
      docs := docs + [d];
      inserted := true;
    }

    method InsertDocumentMetadata(id: nat, entries: seq<(string, string)>)
      modifies this`meta
      ensures meta == old(meta) + MetadataOf(id, entries)
    {
      var i := 0;
      while i < |entries|
        invariant 0 <= i <= |entries|
        invariant meta == old(meta) + MetadataOf(id, entries)[..i]
      {
        meta := meta + [Metadata(id, entries[i].0, entries[i].1)];
        i := i + 1;
      }
    }

    method UpsertChunks(id: nat, s: Scope, projectId: string, p: Processed)
      modifies this`chunks
      ensures chunks == UpsertAll(old(chunks), id, s, projectId, p, |p.chunks|)
    {
      var i := 0;
      while i < |p.chunks|
        invariant 0 <= i <= |p.chunks|
        invariant chunks == UpsertAll(old(chunks), id, s, projectId, p, i)
      {
        var c := p.chunks[i];
        chunks := chunks[ChunkId(CollectionOf(p.contentType), id, c.index) := RowOf(s, projectId, p, c)];
        i := i + 1;
      }
    }

    /** The count is meaningful only if the item did not raise; an item that raises leaves its partial
        writes behind for the savepoint to undo. */
    method ProcessOneItem(s: Scope, item: Item) returns (raised: bool, count: nat)
      modifies this`docs, this`meta, this`chunks
      ensures raised <==> ProcessItem(old(Stored()), s, item).None?
      ensures !raised ==> ProcessItem(old(Stored()), s, item) == Some((Stored(), count))
    {
      count := 0;
      if item.Broken? {
        return true, 0;
      }
      var p := item.p;
      var key := KeyIn(s.org, p);
      var existing := GetLatestDocument(key);
      if existing.Some? && docs[existing.value].contentHash == p.contentHash {
        return false, 0;
      }
      if s.project.None? {
        return true, 0;
      }
      var version := if existing.Some? then docs[existing.value].version + 1 else 1;
      var id := |docs|;
      var inserted := InsertDocument(Document(key, s.project.value, p.contentHash, p.title, p.sourceUrl, version));
      if !inserted {
        return true, 0;
      }
      InsertDocumentMetadata(id, p.metadata);
      if p.chunks != [] && !item.embeds {
        return true, 0;
      }
      UpsertChunks(id, s, s.project.value, p);
      return false, 1;
    }

    /** One page, in the savepoint. */
    method ProcessPage(s: Scope, items: seq<Item>) returns (raised: bool, count: nat)
      modifies this`docs, this`meta, this`chunks
      ensures raised <==> ProcessItems(old(Stored()), s, items).None?
      ensures !raised ==> ProcessItems(old(Stored()), s, items) == Some((Stored(), count))
    {
      hide ProcessItem;
      var i := 0;
      raised, count := false, 0;
      assert items[0..] == items;
      while i < |items|
        invariant 0 <= i <= |items| && !raised
        invariant
          var all, rest := ProcessItems(old(Stored()), s, items), ProcessItems(Stored(), s, items[i..]);
          if rest.None? then all.None? else all == Some((rest.value.0, count + rest.value.1))
      {
        assert items[i..][1..] == items[i + 1..];
        var n;
        raised, n := ProcessOneItem(s, items[i]);
        if raised {
          return;
        }
        count := count + n;
        i := i + 1;
      }
    }

    /** The fetch loop, inside the savepoint: a failure leaves its partial writes to be undone. */
    method FetchLoop(s: Scope, fetches: seq<Fetch>)
      returns (failed: bool, stage: Stage, processed: nat, token: Option<string>)
      modifies this`docs, this`meta, this`chunks
      ensures Sync(old(Stored()), s, fetches, None)
              == if failed then SyncFailed(stage, token) else Synced(Stored(), processed, token)
    {
      stage, failed, processed, token := FetchStage, false, 0, None;
      ghost var all := Sync(Stored(), s, fetches, None);
      var cursor, more := 0, true;
      assert fetches[cursor..] == fetches;
      while more && !failed
        invariant 0 <= cursor <= |fetches|
        invariant failed ==> all == SyncFailed(stage, token)
        invariant !failed && !more ==> all == Synced(Stored(), processed, token)
        invariant !failed && more ==>
          all == match Sync(Stored(), s, fetches[cursor..], token)
                 case Synced(c, n, token') => Synced(c, processed + n, token')
                 case SyncFailed(st, token') => SyncFailed(st, token')
        decreases !failed, more, |fetches| - cursor
      {
        stage := FetchStage;
        if cursor == |fetches| || fetches[cursor].FetchFails? {
          failed := true;
        } else {
          var page := fetches[cursor];
          assert fetches[cursor..][0] == page && fetches[cursor..][1..] == fetches[cursor + 1..];
          if page.resumeToken.Some? {
            token := page.resumeToken;
          }
          stage := ProcessItemStage;
          var count;
          failed, count := ProcessPage(s, page.items);
          if !failed {
            processed := processed + count;
            more := page.hasMore;
            cursor := cursor + 1;
          }
        }
      }
    }

    /** The savepoint block: authenticate and fetch; a failure restores the snapshot. */
    method InSavepoint(s: Scope, connector: Connector, fetches: seq<Fetch>)
      returns (failed: bool, stage: Stage, processed: nat, token: Option<string>)
      modifies this`docs, this`meta, this`chunks
      ensures (if connector.authenticates then Sync(old(Stored()), s, fetches, None)
               else SyncFailed(Authenticate, None))
              == if failed then SyncFailed(stage, token) else Synced(Stored(), processed, token)
      ensures failed ==> Stored() == old(Stored())
    {
      hide Sync;
      var savepoint := Stored();
      failed, stage, processed, token := true, Authenticate, 0, None;
      if connector.authenticates {
        failed, stage, processed, token := FetchLoop(s, fetches);
      }
      if failed {
        docs, meta, chunks := savepoint.docs, savepoint.meta, savepoint.chunks;
      }
    }

    /** `_execute_ingestion_job`: the job row is written outside the savepoint; a failure is recorded, not
        re-raised. */
    method Execute(registry: map<string, Connector>, configId: nat, force: bool, startedAt: int, completedAt: int)
      returns (reply: Reply)
      modifies this
      ensures Tx(View(), reply) == ExecuteTx(old(View()), registry, configId, force, startedAt, completedAt)
    {
      hide Sync, CollectionOf, ConfigFor;
      if configId >= |configs| {
        return Raised(ConfigNotFound);
      }
      var config := configs[configId];
      if config.source !in registry {
        return Raised(UnsupportedSource);
      }
      if !config.decrypts {
        return Raised(CredentialUnreadable);
      }
      var connector := registry[config.source];
      var s := ScopeOf(View(), config);
      var jobId := |jobs|;
      jobs := jobs + [Job(config.org, configId, Queued, None, 0, None, None)];
      jobs := jobs[jobId := jobs[jobId].(status := Running, startedAt := Some(startedAt))];

      var since := if force then None else config.lastSyncedAt;
      var resumeIn := if connector.supportsResumeToken then config.resumeToken else None;
      var failed, stage, processed, token := InSavepoint(s, connector, connector.listing(since, resumeIn));
      if failed {
        jobs := jobs[jobId := jobs[jobId].(status := Failed, failedStage := Some(stage),
                                           completedAt := Some(completedAt))];
        configs := configs[configId := config.(status := Error, resumeToken := Newer(token, config.resumeToken))];
      } else {
        jobs := jobs[jobId := jobs[jobId].(status := Succeeded, documentsProcessed := processed,
                                           completedAt := Some(completedAt))];
        configs := configs[configId := config.(status := Active, lastSyncedAt := Some(completedAt),
                                               resumeToken := Newer(token, config.resumeToken))];
      }
      reply := JobDone(jobId);
    }

    method Reindex(registry: map<string, Connector>, documentId: nat, startedAt: int, completedAt: int)
      returns (reply: Reply)
      modifies this
      ensures Tx(View(), reply) == ReindexTx(old(View()), registry, documentId, startedAt, completedAt)
    {
      if documentId >= |docs| {
        return Raised(DocumentNotFound);
      }
      var key := docs[documentId].key;
      var n := |configs|;
      assert configs[..n] == configs;
      while n > 0
        invariant 0 <= n <= |configs| && View() == old(View())
        invariant ConfigFor(configs, key.org, key.source) == ConfigFor(configs[..n], key.org, key.source)
      {
        assert configs[..n][..n - 1] == configs[..n - 1];
        if configs[n - 1].org == key.org && configs[n - 1].source == key.source {
          reply := Execute(registry, n - 1, true, startedAt, completedAt);
          return;
        }
        n := n - 1;
      }
      reply := Raised(ReindexUnavailable);
    }
  }

  // ---------- The commit boundary ----------

  datatype Task =
    | RunJob(configId: nat, startedAt: int, completedAt: int)
    | ReindexDocument(documentId: nat, startedAt: int, completedAt: int)

  function InTransaction(t: Tables, registry: map<string, Connector>, task: Task): Tx {
    match task
    case RunJob(configId, startedAt, completedAt) =>
      ExecuteTx(t, registry, configId, false, startedAt, completedAt)
    case ReindexDocument(documentId, startedAt, completedAt) =>
      ReindexTx(t, registry, documentId, startedAt, completedAt)
  }

  /** Committed on a normal return, rolled back when an exception escapes. */
  function After(t: Tables, registry: map<string, Connector>, task: Task): Tables {
    var tx := InTransaction(t, registry, task);
    if tx.reply.Raised? then t else tx.tables
  }

  class IngestionDatabase {
    var committed: Tables

    constructor (t: Tables)
      ensures committed == t
    {
      committed := t;
    }

    method RunTask(registry: map<string, Connector>, task: Task) returns (reply: Reply)
      modifies this
      ensures reply == InTransaction(old(committed), registry, task).reply
      ensures committed == After(old(committed), registry, task)
    {
      var session := new IngestionSession(committed);
      match task {
        case RunJob(configId, startedAt, completedAt) =>
          reply := session.Execute(registry, configId, false, startedAt, completedAt);
        case ReindexDocument(documentId, startedAt, completedAt) =>
          reply := session.Reindex(registry, documentId, startedAt, completedAt);
      }
      if reply.JobDone? {
        committed := session.View();
      }
    }
  }
}
