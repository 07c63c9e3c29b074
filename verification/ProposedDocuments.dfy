/** The review lifecycle of proposed documents and the search index behind it:
    app/core/knowledge/service.py and app/core/knowledge/repository.py.

    A document's id is its position in the table. Ingested rows share the table, the metadata and the
    index; they enter through `Ingested` and the claims below are about rows that `propose_document`
    made. Every request is one transaction, rolled back when an exception escapes. */
module ProposedDocuments {
  import opened Wrappers

  datatype Status = Proposed | Published

  /** `manual` is `source == "manual"`: made by `propose_document`, never by a connector. */
  datatype DocRow = DocRow(
    organizationId: string, projectId: string, title: Option<string>,
    manual: bool, status: Status, version: nat, deleted: bool)

  datatype MetaRow = MetaRow(documentId: nat, key: string, value: string)

  datatype Chunk = Chunk(
    organizationId: string, projectId: string, content: string, offsetStart: nat, offsetEnd: nat)

  /** The index is keyed by document id and chunk index. */
  datatype Tables = Tables(docs: seq<DocRow>, meta: seq<MetaRow>, chunks: map<(nat, nat), Chunk>)

  datatype Actor = Actor(organizationId: string, mayReview: string -> bool)

  datatype Failure =
    | CrossOrganization | NotFound | PermissionDenied | NotProposed
    | MultipleRows | NullContent | EmbeddingFailed

  datatype Reply = Created(id: nat) | Done | Raised(failure: Failure)

  datatype Tx = Tx(tables: Tables, reply: Reply)

  const CONTENT_KEY := "content"
  const SOURCE_INCIDENT_KEY := "source_incident_id"

  // ---------- Repository ----------

  /** Where the metadata rows of one key of one document stand. */
  function Matches(meta: seq<MetaRow>, id: nat, key: string): (r: seq<nat>)
    ensures forall k :: 0 <= k < |r| ==>
      r[k] < |meta| && meta[r[k]].documentId == id && meta[r[k]].key == key
    ensures forall i :: 0 <= i < |meta| && meta[i].documentId == id && meta[i].key == key ==> i in r
  {
    if meta == [] then [] else
      var n := |meta| - 1;
      var before := Matches(meta[..n], id, key);
      if meta[n].documentId == id && meta[n].key == key then before + [n] else before
  }

  /** At most one row may match, else the query raises. */
  function OneOrNone(meta: seq<MetaRow>, id: nat, key: string): (r: Result<Option<nat>, Failure>)
    ensures r.Ok? && r.value.Some? ==> r.value.value < |meta|
    ensures r.Err? ==> r.error == MultipleRows
  {
    var found := Matches(meta, id, key);
    if |found| == 0 then Ok(None) else if |found| == 1 then Ok(Some(found[0])) else Err(MultipleRows)
  }

  function UpsertMeta(meta: seq<MetaRow>, id: nat, key: string, value: string): Result<seq<MetaRow>, Failure> {
    match OneOrNone(meta, id, key)
    case Err(e) => Err(e)
    case Ok(None) => Ok(meta + [MetaRow(id, key, value)])
    case Ok(Some(i)) => Ok(meta[i := meta[i].(value := value)])
  }

  // ---------- Service ----------

  /** Every action ends by reading the document's metadata back for the caller. An ingested document may
      have several rows where one is expected, and then the action raises after all. */
  function Shown(t: Tables, id: nat, reply: Reply): Tx {
    if OneOrNone(t.meta, id, CONTENT_KEY).Err? || OneOrNone(t.meta, id, SOURCE_INCIDENT_KEY).Err?
    then Tx(t, Raised(MultipleRows)) else Tx(t, reply)
  }

  /** The checks every review action starts with, in order. */
  function Guard(t: Tables, actor: Actor, org: string, id: nat): Option<Failure> {
    if actor.organizationId != org then Some(CrossOrganization)
    else if id >= |t.docs| || t.docs[id].organizationId != org || t.docs[id].deleted then Some(NotFound)
    else if !actor.mayReview(t.docs[id].projectId) then Some(PermissionDenied)
    else if t.docs[id].status != Proposed then Some(NotProposed)
    else None
  }

  /** What `propose_document` is given: the project is the one asked for, or the default one. */
  function ProposeTx(t: Tables, actor: Actor, org: string, project: Option<string>, title: string,
                     content: string, incident: Option<string>): Tx {
    if actor.organizationId != org then Tx(t, Raised(CrossOrganization))
    else if project.None? then Tx(t, Raised(NotFound))
    else
      var id := |t.docs|;
      var row := DocRow(org, project.value, Some(title), true, Proposed, 1, false);
      var meta := t.meta + [MetaRow(id, CONTENT_KEY, content)];
      Shown(Tables(t.docs + [row],
                   if incident.Some? then meta + [MetaRow(id, SOURCE_INCIDENT_KEY, incident.value)] else meta,
                   t.chunks),
            id, Created(id))
  }

  function PublishTx(t: Tables, actor: Actor, org: string, id: nat, embeds: bool): Tx {
    if Guard(t, actor, org, id).Some? then Tx(t, Raised(Guard(t, actor, org, id).value)) else
      var row := t.docs[id];
      match OneOrNone(t.meta, id, CONTENT_KEY)
      case Err(e) => Tx(t, Raised(e))
      case Ok(found) =>
        var t' := t.(docs := t.docs[id := row.(status := Published)]);
        if found.None? || t.meta[found.value].value == "" then Shown(t', id, Done)
        else if !embeds then Tx(t', Raised(EmbeddingFailed))
        else
          var content := t.meta[found.value].value;
          Shown(t'.(chunks := t.chunks[(id, 0) := Chunk(org, row.projectId, content, 0, |content|)]), id, Done)
  }

  /** A patch names the fields it sets; a named field may be set to null. */
  datatype Patch = Patch(title: Option<Option<string>>, content: Option<Option<string>>)

  function UpdateTx(t: Tables, actor: Actor, org: string, id: nat, patch: Patch): Tx {
    if Guard(t, actor, org, id).Some? then Tx(t, Raised(Guard(t, actor, org, id).value))
    else if patch.title.None? && patch.content.None? then Shown(t, id, Done)
    else
      var row := t.docs[id].(version := t.docs[id].version + 1);
      var t' := t.(docs := t.docs[id := if patch.title.Some? then row.(title := patch.title.value) else row]);
      match patch.content
      case None => Shown(t', id, Done)
      case Some(None) => Tx(t', Raised(NullContent))
      case Some(Some(content)) =>
        match UpsertMeta(t.meta, id, CONTENT_KEY, content)
        case Err(e) => Tx(t', Raised(e))
        case Ok(meta) => Shown(t'.(meta := meta), id, Done)
  }

  function RejectTx(t: Tables, actor: Actor, org: string, id: nat): Tx {
    if Guard(t, actor, org, id).Some? then Tx(t, Raised(Guard(t, actor, org, id).value))
    else Shown(t.(docs := t.docs[id := t.docs[id].(deleted := true)]), id, Done)
  }

  function MetaOf(id: nat, entries: seq<(string, string)>): seq<MetaRow> {
    seq(|entries|, i requires 0 <= i < |entries| => MetaRow(id, entries[i].0, entries[i].1))
  }

  function ChunksOf(id: nat, chunks: seq<Chunk>): map<(nat, nat), Chunk> {
    map i | 0 <= i < |chunks| :: (id, i) := chunks[i]
  }

  function IngestTx(t: Tables, row: DocRow, entries: seq<(string, string)>, chunks: seq<Chunk>): Tx {
    var id := |t.docs|;
    Tx(Tables(t.docs + [row.(manual := false, status := Proposed)],
              t.meta + MetaOf(id, entries),
              t.chunks + ChunksOf(id, chunks)),
       Created(id))
  }

  /** The open transaction, with the repository's statements and the service calls made of them. */
  class KnowledgeSession {
    var docs: seq<DocRow>
    var meta: seq<MetaRow>
    var chunks: map<(nat, nat), Chunk>

    function View(): Tables reads this { Tables(docs, meta, chunks) }

    constructor (t: Tables)
      ensures View() == t
    {
      docs, meta, chunks := t.docs, t.meta, t.chunks;
    }

    method FindMetadata(id: nat, key: string) returns (r: Result<Option<nat>, Failure>)
      ensures r == OneOrNone(meta, id, key)
    {
      var found: seq<nat> := [];
      var i := 0;
      while i < |meta|
        invariant 0 <= i <= |meta|
        invariant found == Matches(meta[..i], id, key)
      {
        assert meta[..i + 1][..i] == meta[..i];
        if meta[i].documentId == id && meta[i].key == key {
          found := found + [i];
        }
        i := i + 1;
      }
      assert meta[..i] == meta;
      r := if |found| == 0 then Ok(None) else if |found| == 1 then Ok(Some(found[0])) else Err(MultipleRows);
    }

    method UpsertMetadata(id: nat, key: string, value: string) returns (failed: Option<Failure>)
      modifies this`meta
      ensures match UpsertMeta(old(meta), id, key, value)
        case Ok(meta') => failed.None? && meta == meta'
        case Err(e) => failed == Some(e) && meta == old(meta)
    {
      var found := FindMetadata(id, key);
      match found {
        case Err(e) => failed := Some(e);
        case Ok(None) => meta := meta + [MetaRow(id, key, value)]; failed := None;
        case Ok(Some(i)) => meta := meta[i := meta[i].(value := value)]; failed := None;
      }
    }

    method Show(id: nat, reply: Reply) returns (shown: Reply)
      ensures Tx(View(), shown) == Shown(View(), id, reply)
    {
      var content := FindMetadata(id, CONTENT_KEY);
      if content.Err? {
        return Raised(content.error);
      }
      var incident := FindMetadata(id, SOURCE_INCIDENT_KEY);
      shown := if incident.Err? then Raised(incident.error) else reply;
    }

    method Propose(actor: Actor, org: string, project: Option<string>, title: string,
                   content: string, incident: Option<string>) returns (reply: Reply)
      modifies this
      ensures Tx(View(), reply) == ProposeTx(old(View()), actor, org, project, title, content, incident)
    {
      if actor.organizationId != org {
        return Raised(CrossOrganization);
      }
      if project.None? {
        return Raised(NotFound);
      }
      var id := |docs|;
      docs := docs + [DocRow(org, project.value, Some(title), true, Proposed, 1, false)];
      meta := meta + [MetaRow(id, CONTENT_KEY, content)];
      if incident.Some? {
        meta := meta + [MetaRow(id, SOURCE_INCIDENT_KEY, incident.value)];
      }
      reply := Show(id, Created(id));
    }

    method Publish(actor: Actor, org: string, id: nat, embeds: bool) returns (reply: Reply)
      modifies this
      ensures Tx(View(), reply) == PublishTx(old(View()), actor, org, id, embeds)
    {
      var refused := Guard(View(), actor, org, id);
      if refused.Some? {
        return Raised(refused.value);
      }
      var row := docs[id];
      var found := FindMetadata(id, CONTENT_KEY);
      if found.Err? {
        return Raised(found.error);
      }
      var content := if found.value.Some? then meta[found.value.value].value else "";
      docs := docs[id := row.(status := Published)];
      if content != "" {
        if !embeds {
          return Raised(EmbeddingFailed);
        }
        chunks := chunks[(id, 0) := Chunk(org, row.projectId, content, 0, |content|)];
      }
      reply := Show(id, Done);
    }

    method Update(actor: Actor, org: string, id: nat, patch: Patch) returns (reply: Reply)
      modifies this
      ensures Tx(View(), reply) == UpdateTx(old(View()), actor, org, id, patch)
    {
      var refused := Guard(View(), actor, org, id);
      if refused.Some? {
        return Raised(refused.value);
      }
      if patch.title.None? && patch.content.None? {
        reply := Show(id, Done);
        return;
      }
      if patch.title.Some? {
        docs := docs[id := docs[id].(title := patch.title.value, version := docs[id].version + 1)];
      } else {
        docs := docs[id := docs[id].(version := docs[id].version + 1)];
      }
      if patch.content.Some? {
        if patch.content.value.None? {
          return Raised(NullContent);
        }
        var failed := UpsertMetadata(id, CONTENT_KEY, patch.content.value.value);
        if failed.Some? {
          return Raised(failed.value);
        }
      }
      reply := Show(id, Done);
    }

    method Reject(actor: Actor, org: string, id: nat) returns (reply: Reply)
      modifies this
      ensures Tx(View(), reply) == RejectTx(old(View()), actor, org, id)
    {
      var refused := Guard(View(), actor, org, id);
      if refused.Some? {
        return Raised(refused.value);
      }
      docs := docs[id := docs[id].(deleted := true)];
      reply := Show(id, Done);
    }
  }

  // ---------- Requests and runs ----------

  datatype Request =
    | Propose(actor: Actor, org: string, project: Option<string>, title: string, content: string,
              incident: Option<string>)
    | Publish(actor: Actor, org: string, id: nat, embeds: bool)
    | Update(actor: Actor, org: string, id: nat, patch: Patch)
    | Reject(actor: Actor, org: string, id: nat)
    | Ingested(row: DocRow, entries: seq<(string, string)>, chunks: seq<Chunk>)

  function InTransaction(t: Tables, r: Request): Tx {
    match r
    case Propose(actor, org, project, title, content, incident) =>
      ProposeTx(t, actor, org, project, title, content, incident)
    case Publish(actor, org, id, embeds) => PublishTx(t, actor, org, id, embeds)
    case Update(actor, org, id, patch) => UpdateTx(t, actor, org, id, patch)
    case Reject(actor, org, id) => RejectTx(t, actor, org, id)
    case Ingested(row, entries, chunks) => IngestTx(t, row, entries, chunks)
  }

  function After(t: Tables, r: Request): Tables {
    var tx := InTransaction(t, r);
    if tx.reply.Raised? then t else tx.tables
  }

  class KnowledgeDatabase {
    var committed: Tables

    constructor (t: Tables)
      ensures committed == t
    {
      committed := t;
    }

    /** One review request, through the commit boundary. Ingestion writes through its own pipeline. */
    method Handle(r: Request) returns (reply: Reply)
      requires !r.Ingested?
      modifies this
      ensures reply == InTransaction(old(committed), r).reply
      ensures committed == After(old(committed), r)
    {
      var session := new KnowledgeSession(committed);
      match r {
        case Propose(actor, org, project, title, content, incident) =>
          reply := session.Propose(actor, org, project, title, content, incident);
        case Publish(actor, org, id, embeds) => reply := session.Publish(actor, org, id, embeds);
        case Update(actor, org, id, patch) => reply := session.Update(actor, org, id, patch);
        case Reject(actor, org, id) => reply := session.Reject(actor, org, id);
      }
      if !reply.Raised? {
        committed := session.View();
      }
    }
  }

  const EMPTY := Tables([], [], map[])

  ghost function Run(rs: seq<Request>): Tables {
    if rs == [] then EMPTY else After(Run(rs[..|rs| - 1]), rs[|rs| - 1])
  }

  // ---------- What every step keeps ----------

  ghost predicate Manual(t: Tables, id: nat) { id < |t.docs| && t.docs[id].manual }

  /** A proposed document names at most one incident. */
  ghost predicate OneIncident(t: Tables, id: nat) { |Matches(t.meta, id, SOURCE_INCIDENT_KEY)| <= 1 }

  /** A proposed document has exactly one content row. */
  ghost predicate HasContent(t: Tables, id: nat) { |Matches(t.meta, id, CONTENT_KEY)| == 1 }

  ghost function Content(t: Tables, id: nat): string
    requires HasContent(t, id)
  {
    t.meta[Matches(t.meta, id, CONTENT_KEY)[0]].value
  }

  /** The index and the stored content agree on one document: nothing is indexed before it is
      published, and a published non-empty content is indexed as one chunk equal to it. */
  ghost predicate IndexAgrees(t: Tables, id: nat)
    requires Manual(t, id)
  {
    var row := t.docs[id];
    && HasContent(t, id) && OneIncident(t, id)
    && (row.deleted ==> row.status == Proposed)
    && (forall i :: (id, i) in t.chunks ==> i == 0 && row.status == Published && Content(t, id) != "")
    && (row.status == Published && Content(t, id) != "" ==>
          && (id, 0) in t.chunks
          && t.chunks[(id, 0)]
             == Chunk(row.organizationId, row.projectId, Content(t, id), 0, |Content(t, id)|))
  }

  ghost predicate Invariant(t: Tables) {
    && (forall i :: 0 <= i < |t.meta| ==> t.meta[i].documentId < |t.docs|)
    && (forall k :: k in t.chunks ==> k.0 < |t.docs|)
    && forall id :: Manual(t, id) ==> IndexAgrees(t, id)
  }

  lemma {:induction false} MatchesAppended(meta: seq<MetaRow>, more: seq<MetaRow>, id: nat, key: string)
    requires forall i :: 0 <= i < |more| ==> more[i].documentId != id || more[i].key != key
    ensures Matches(meta + more, id, key) == Matches(meta, id, key)
  {
    if more == [] {
      assert meta + more == meta;
    } else {
      assert (meta + more)[..|meta + more| - 1] == meta + more[..|more| - 1];
      assert (meta + more)[|meta + more| - 1] == more[|more| - 1];
      MatchesAppended(meta, more[..|more| - 1], id, key);
    }
  }

  lemma {:induction false} MatchesRewritten(meta: seq<MetaRow>, at: nat, value: string, id: nat, key: string)
    requires at < |meta|
    ensures Matches(meta[at := meta[at].(value := value)], id, key) == Matches(meta, id, key)
  {
    var n, meta' := |meta| - 1, meta[at := meta[at].(value := value)];
    if at == n {
      assert meta'[..n] == meta[..n];
    } else {
      assert meta'[..n] == meta[..n][at := meta[at].(value := value)];
      MatchesRewritten(meta[..n], at, value, id, key);
    }
  }

  ghost predicate SameChunks(t: Tables, t': Tables, id: nat) {
    && (forall i :: (id, i) in t.chunks <==> (id, i) in t'.chunks)
    && forall i :: (id, i) in t.chunks && (id, i) in t'.chunks ==> t'.chunks[(id, i)] == t.chunks[(id, i)]
  }

  /** What a review action can touch at all: the row and the index entries of the document it names, and
      the metadata if it is an edit. */
  lemma ReviewTouches(t: Tables, r: Request)
    requires r.Publish? || r.Update? || r.Reject?
    ensures |After(t, r).docs| == |t.docs|
    ensures forall id :: 0 <= id < |t.docs| ==>
      && (id != r.id ==> After(t, r).docs[id] == t.docs[id])
      && After(t, r).docs[id].manual == t.docs[id].manual
      && After(t, r).docs[id].projectId == t.docs[id].projectId
      && After(t, r).docs[id].organizationId == t.docs[id].organizationId
    ensures !r.Update? ==> After(t, r).meta == t.meta
    ensures !r.Publish? ==> After(t, r).chunks == t.chunks
    ensures forall k: (nat, nat) :: k.0 != r.id ==> (k in After(t, r).chunks <==> k in t.chunks)
    ensures forall k: (nat, nat) :: k.0 != r.id && k in t.chunks && k in After(t, r).chunks ==>
      After(t, r).chunks[k] == t.chunks[k]
    ensures After(t, r) != t ==> r.id < |t.docs|
  {
    hide OneOrNone, UpsertMeta, Guard;
    GuardFinds(t, r.actor, r.org, r.id);
  }

  lemma GuardFinds(t: Tables, actor: Actor, org: string, id: nat)
    ensures Guard(t, actor, org, id).None? ==> id < |t.docs|
  {
  }

  lemma SameMetaSameContent(t: Tables, t': Tables, id: nat)
    requires t'.meta == t.meta && HasContent(t, id) && OneIncident(t, id)
    ensures HasContent(t', id) && OneIncident(t', id) && Content(t', id) == Content(t, id)
  {
  }

  /** A step leaves alone the content and the index entries of every document it does not name. */
  lemma StepFrame(t: Tables, r: Request, id: nat)
    requires Invariant(t) && Manual(t, id)
    ensures Manual(After(t, r), id) && HasContent(After(t, r), id) && OneIncident(After(t, r), id)
    ensures !((r.Publish? || r.Update? || r.Reject?) && r.id == id) ==> After(t, r).docs[id] == t.docs[id]
    ensures !(r.Update? && r.id == id) ==> Content(After(t, r), id) == Content(t, id)
    ensures !(r.Publish? && r.id == id) ==> SameChunks(t, After(t, r), id)
  {
    hide Matches, After, Content, HasContent;
    assert IndexAgrees(t, id);
    if r.Propose? || r.Ingested? {
      AppendFrame(t, r, id);
      ContentIs(t, id);
      ContentIs(After(t, r), id);
    } else {
      ReviewTouches(t, r);
      if After(t, r).meta != t.meta {
        UpdateRewritesOneRow(t, r, id);
        ContentIs(t, id);
        ContentIs(After(t, r), id);
      } else {
        SameMetaSameContent(t, After(t, r), id);
      }
    }
  }

  lemma AppendFrame(t: Tables, r: Request, id: nat)
    requires Invariant(t) && Manual(t, id) && (r.Propose? || r.Ingested?)
    ensures Manual(After(t, r), id) && After(t, r).docs[id] == t.docs[id]
    ensures Matches(After(t, r).meta, id, CONTENT_KEY) == Matches(t.meta, id, CONTENT_KEY)
    ensures Matches(After(t, r).meta, id, SOURCE_INCIDENT_KEY) == Matches(t.meta, id, SOURCE_INCIDENT_KEY)
    ensures HasContent(t, id) && Content(After(t, r), id) == Content(t, id)
    ensures SameChunks(t, After(t, r), id)
  {
    hide Matches, After, Invariant, IndexAgrees, SameChunks, HasContent, Content;
    HasOneContent(t, id);
    AppendsOnly(t, r);
    var t' := After(t, r);
    var more := t'.meta[|t.meta|..];
    assert t'.meta == t.meta + more;
    MatchesAppended(t.meta, more, id, CONTENT_KEY);
    MatchesAppended(t.meta, more, id, SOURCE_INCIDENT_KEY);
    ContentIs(t, id);
    ContentIs(t', id);
  }

  lemma AppendsOnly(t: Tables, r: Request)
    requires Invariant(t) && (r.Propose? || r.Ingested?)
    ensures t.docs <= After(t, r).docs && t.meta <= After(t, r).meta
    ensures forall i :: |t.meta| <= i < |After(t, r).meta| ==> After(t, r).meta[i].documentId >= |t.docs|
    ensures forall id: nat :: id < |t.docs| ==> SameChunks(t, After(t, r), id)
  {
    hide Matches, IndexAgrees;
  }

  lemma HasOneContent(t: Tables, id: nat)
    requires Invariant(t) && Manual(t, id)
    ensures HasContent(t, id)
  {
    assert IndexAgrees(t, id);
  }

  /** Setting the content of one document leaves every proposed document one content row, and sets that
      document's content. */
  lemma UpsertKeepsRows(t: Tables, target: nat, value: string, id: nat)
    requires Invariant(t) && Manual(t, id) && UpsertMeta(t.meta, target, CONTENT_KEY, value).Ok?
    ensures
      var meta' := UpsertMeta(t.meta, target, CONTENT_KEY, value).value;
      && Matches(meta', id, CONTENT_KEY) == Matches(t.meta, id, CONTENT_KEY)
      && Matches(meta', id, SOURCE_INCIDENT_KEY) == Matches(t.meta, id, SOURCE_INCIDENT_KEY)
      && HasContent(t, id)
      && meta'[Matches(meta', id, CONTENT_KEY)[0]].value == if target == id then value else Content(t, id)
  {
    assert IndexAgrees(t, id);
    hide Matches;
    var found := Matches(t.meta, target, CONTENT_KEY);
    if |found| == 0 {
      KeysDiffer();
      MatchesAppended(t.meta, [MetaRow(target, CONTENT_KEY, value)], id, CONTENT_KEY);
      MatchesAppended(t.meta, [MetaRow(target, CONTENT_KEY, value)], id, SOURCE_INCIDENT_KEY);
    } else {
      MatchesRewritten(t.meta, found[0], value, id, CONTENT_KEY);
      MatchesRewritten(t.meta, found[0], value, id, SOURCE_INCIDENT_KEY);
    }
  }

  /** An edit of an existing content rewrites its row in place, and no other row. */
  lemma UpdateRewritesOneRow(t: Tables, r: Request, id: nat)
    requires Invariant(t) && Manual(t, id) && r.Update? && After(t, r).meta != t.meta
    ensures Matches(After(t, r).meta, id, CONTENT_KEY) == Matches(t.meta, id, CONTENT_KEY)
    ensures Matches(After(t, r).meta, id, SOURCE_INCIDENT_KEY) == Matches(t.meta, id, SOURCE_INCIDENT_KEY)
    ensures HasContent(t, id)
    ensures r.id != id ==> Content(After(t, r), id) == Content(t, id)
    ensures r.id == id ==> r.patch.content.Some? && r.patch.content.value.Some?
                           && Content(After(t, r), id) == r.patch.content.value.value
  {
    hide Matches, Invariant, Content, HasContent, UpsertMeta, OneOrNone;
    UpsertKeepsRows(t, r.id, r.patch.content.value.value, id);
    ContentIs(t, id);
    ContentIs(After(t, r), id);
  }

  lemma ContentIs(t: Tables, id: nat)
    ensures HasContent(t, id) <==> |Matches(t.meta, id, CONTENT_KEY)| == 1
    ensures HasContent(t, id) ==> Content(t, id) == t.meta[Matches(t.meta, id, CONTENT_KEY)[0]].value
  {
  }

  lemma {:induction false} NoMatches(meta: seq<MetaRow>, id: nat, key: string)
    requires forall i :: 0 <= i < |meta| ==> meta[i].documentId < id
    ensures Matches(meta, id, key) == []
  {
    if meta == [] {
    } else {
      NoMatches(meta[..|meta| - 1], id, key);
    }
  }

  lemma NewProposalAgrees(t: Tables, r: Request)
    requires Invariant(t) && r.Propose? && r.actor.organizationId == r.org && r.project.Some?
    ensures InTransaction(t, r).reply == Created(|t.docs|)
    ensures After(t, r).docs == t.docs + [DocRow(r.org, r.project.value, Some(r.title), true, Proposed, 1, false)]
    ensures After(t, r).meta ==
      t.meta + [MetaRow(|t.docs|, "content", r.content)]
      + (if r.incident.Some? then [MetaRow(|t.docs|, "source_incident_id", r.incident.value)] else [])
    ensures After(t, r).chunks == t.chunks
    ensures Manual(After(t, r), |t.docs|) && IndexAgrees(After(t, r), |t.docs|)
    ensures Content(After(t, r), |t.docs|) == r.content
  {
    hide Matches;
    var t', id := InTransaction(t, r).tables, |t.docs|;
    var one := t.meta + [MetaRow(id, CONTENT_KEY, r.content)];
    var more := if r.incident.Some? then [MetaRow(id, SOURCE_INCIDENT_KEY, r.incident.value)] else [];
    assert t'.meta == one + more;
    FirstContentRow(t.meta, id, r.content, more);
    assert forall i :: (id, i) !in t'.chunks;
  }

  lemma FirstContentRow(meta: seq<MetaRow>, id: nat, content: string, more: seq<MetaRow>)
    requires forall i :: 0 <= i < |meta| ==> meta[i].documentId < id
    requires forall i :: 0 <= i < |more| ==> more[i].key == SOURCE_INCIDENT_KEY
    requires |more| <= 1
    ensures Matches(meta + [MetaRow(id, CONTENT_KEY, content)] + more, id, CONTENT_KEY) == [|meta|]
    ensures |Matches(meta + [MetaRow(id, CONTENT_KEY, content)] + more, id, SOURCE_INCIDENT_KEY)| <= 1
  {
    hide Matches;
    var row := MetaRow(id, CONTENT_KEY, content);
    NoMatches(meta, id, CONTENT_KEY);
    NoMatches(meta, id, SOURCE_INCIDENT_KEY);
    KeysDiffer();
    MatchesPush(meta, row, id, CONTENT_KEY);
    MatchesAppended(meta + [row], more, id, CONTENT_KEY);
    MatchesAppended(meta, [row], id, SOURCE_INCIDENT_KEY);
    AtMostOneMore(meta + [row], more, id, SOURCE_INCIDENT_KEY);
  }

  lemma KeysDiffer()
    ensures CONTENT_KEY != SOURCE_INCIDENT_KEY
  {
    assert CONTENT_KEY[0] != SOURCE_INCIDENT_KEY[0];
  }

  lemma AtMostOneMore(meta: seq<MetaRow>, more: seq<MetaRow>, id: nat, key: string)
    requires |more| <= 1 && Matches(meta, id, key) == []
    ensures |Matches(meta + more, id, key)| <= 1
  {
    hide Matches;
    if more == [] {
      assert meta + more == meta;
    } else {
      assert more == [more[0]];
      if more[0].documentId == id && more[0].key == key {
        MatchesPush(meta, more[0], id, key);
      } else {
        MatchesAppended(meta, more, id, key);
      }
    }
  }

  lemma MatchesPush(meta: seq<MetaRow>, row: MetaRow, id: nat, key: string)
    requires row.documentId == id && row.key == key
    ensures Matches(meta + [row], id, key) == Matches(meta, id, key) + [|meta|]
  {
    assert (meta + [row])[..|meta|] == meta;
  }

  /** A review action keeps the index of the document it names in agreement. */
  lemma NamedDocumentAgrees(t: Tables, r: Request)
    requires Invariant(t) && (r.Publish? || r.Update? || r.Reject?) && Manual(t, r.id)
    ensures Manual(After(t, r), r.id) && IndexAgrees(After(t, r), r.id)
  {
    hide Matches;
    assert IndexAgrees(t, r.id);
    StepFrame(t, r, r.id);
  }

  lemma StepKeepsInvariant(t: Tables, r: Request)
    requires Invariant(t)
    ensures Invariant(After(t, r))
  {
    hide Matches, IndexAgrees, InTransaction;
    var t' := After(t, r);
    if t' != t {
      forall id: nat | Manual(t', id)
        ensures IndexAgrees(t', id)
      {
        StepKeepsAgreement(t, r, id);
      }
      StepKeepsReferences(t, r);
    }
  }

  lemma StepKeepsAgreement(t: Tables, r: Request, id: nat)
    requires Invariant(t) && Manual(After(t, r), id)
    ensures IndexAgrees(After(t, r), id)
  {
    hide Matches;
    if id >= |t.docs| {
      NewProposalAgrees(t, r);
    } else if (r.Publish? || r.Update? || r.Reject?) && r.id == id {
      NamedDocumentAgrees(t, r);
    } else {
      assert t.docs[id].manual;
      assert IndexAgrees(t, id);
      StepFrame(t, r, id);
    }
  }

  lemma StepKeepsReferences(t: Tables, r: Request)
    requires Invariant(t)
    ensures forall i :: 0 <= i < |After(t, r).meta| ==> After(t, r).meta[i].documentId < |After(t, r).docs|
    ensures forall k :: k in After(t, r).chunks ==> k.0 < |After(t, r).docs|
  {
    hide Matches, IndexAgrees;
    if r.Publish? || r.Update? || r.Reject? {
      ReviewTouches(t, r);
      hide UpsertMeta, Shown;
      if After(t, r).meta != t.meta {
        UpsertReferences(t, r.id, r.patch.content.value.value);
      }
    }
  }

  lemma UpsertReferences(t: Tables, target: nat, value: string)
    requires Invariant(t) && target < |t.docs| && UpsertMeta(t.meta, target, CONTENT_KEY, value).Ok?
    ensures
      var meta' := UpsertMeta(t.meta, target, CONTENT_KEY, value).value;
      forall i :: 0 <= i < |meta'| ==> meta'[i].documentId < |t.docs|
  {
    hide OneOrNone, IndexAgrees;
  }

  /** In every reachable state the index agrees with the stored content of every proposed document. */
  lemma {:induction false} RunKeepsInvariant(rs: seq<Request>)
    ensures Invariant(Run(rs))
  {
    if rs == [] {
    } else {
      RunKeepsInvariant(rs[..|rs| - 1]);
      StepKeepsInvariant(Run(rs[..|rs| - 1]), rs[|rs| - 1]);
    }
  }

  // ---------- Who may change a proposal, and to what ----------

  /** What a request is refused for, and in which order: another organization's request before anything else;
      then a document that is missing, another organization's or rejected; then a reviewer who may not review
      the document's project; then a document already published. A proposal needs a project. */
  lemma RefusalsInOrder(t: Tables, r: Request)
    requires !r.Ingested?
    ensures r.actor.organizationId != r.org ==> InTransaction(t, r).reply == Raised(CrossOrganization)
    ensures r.actor.organizationId == r.org && r.Propose? && r.project == None ==>
      InTransaction(t, r).reply == Raised(NotFound)
    ensures r.actor.organizationId == r.org && !r.Propose? ==>
      && (r.id >= |t.docs| || t.docs[r.id].organizationId != r.org || t.docs[r.id].deleted ==>
            InTransaction(t, r).reply == Raised(NotFound))
      && (r.id < |t.docs| && t.docs[r.id].organizationId == r.org && !t.docs[r.id].deleted ==>
            && (!r.actor.mayReview(t.docs[r.id].projectId) ==> InTransaction(t, r).reply == Raised(PermissionDenied))
            && (r.actor.mayReview(t.docs[r.id].projectId) && t.docs[r.id].status == Published ==>
                  InTransaction(t, r).reply == Raised(NotProposed)))
    ensures InTransaction(t, r).reply.Raised? ==> After(t, r) == t
  {
    hide OneOrNone, UpsertMeta, Shown;
  }

  /** An ingested document with two rows for its content cannot be reviewed: every action on it that is not
      refused anyway raises when it reads the content, and is rolled back. */
  lemma DuplicateContentRaises(t: Tables, r: Request, i: nat, j: nat)
    requires (r.Publish? || r.Update? || r.Reject?) && i < j < |t.meta|
    requires t.meta[i].documentId == t.meta[j].documentId == r.id && t.meta[i].key == t.meta[j].key == "content"
    ensures InTransaction(t, r).reply.Raised? && After(t, r) == t
  {
    hide Matches;
    TwoMatches(t.meta, r.id, "content", i, j);
    if r.Update? && r.patch.content.Some? && r.patch.content.value.Some? {
      assert UpsertMeta(t.meta, r.id, "content", r.patch.content.value.value).Err?;
    }
  }

  lemma TwoMatches(meta: seq<MetaRow>, id: nat, key: string, i: nat, j: nat)
    requires i < j < |meta| && meta[i].documentId == meta[j].documentId == id && meta[i].key == meta[j].key == key
    ensures OneOrNone(meta, id, key) == Err(MultipleRows)
  {
    var found := Matches(meta, id, key);
    hide Matches;
    assert i in found && j in found;
    assert |found| > 0;
  }

  ghost predicate Names(r: Request, id: nat) { (r.Publish? || r.Update? || r.Reject?) && r.id == id }

  /** A review action on a pending proposal, by a reviewer of its project, in its organization. */
  ghost predicate Authorized(t: Tables, r: Request, id: nat)
    requires Manual(t, id)
  {
    && Names(r, id)
    && r.actor.organizationId == r.org == t.docs[id].organizationId
    && r.actor.mayReview(t.docs[id].projectId)
    && t.docs[id].status == Proposed && !t.docs[id].deleted
  }

  /** Anything else leaves the document, its content and its index entries alone, and is refused if it
      was a review action on it. */
  lemma OnlyAuthorizedReviewsChange(t: Tables, r: Request, id: nat)
    requires Invariant(t) && Manual(t, id) && !Authorized(t, r, id)
    ensures Names(r, id) ==> InTransaction(t, r).reply.Raised?
    ensures HasContent(t, id) && Manual(After(t, r), id) && HasContent(After(t, r), id)
    ensures After(t, r).docs[id] == t.docs[id] && Content(After(t, r), id) == Content(t, id)
    ensures SameChunks(t, After(t, r), id)
  {
    hide Matches;
    assert IndexAgrees(t, id);
    if !Names(r, id) {
      StepFrame(t, r, id);
    }
  }

  /** What an authorized review comes to: it fails only when the embedding does or when the content is set
      to null. Publishing changes the status alone; rejecting deletes the row alone; an edit sets what it
      names and counts as one version. */
  lemma AuthorizedReviewSucceeds(t: Tables, r: Request, id: nat)
    requires Invariant(t) && Manual(t, id) && Authorized(t, r, id)
    ensures HasContent(t, id) && Manual(After(t, r), id) && HasContent(After(t, r), id)
    ensures InTransaction(t, r).reply ==
      if r.Publish? && !r.embeds && Content(t, id) != "" then Raised(EmbeddingFailed)
      else if r.Update? && r.patch.content == Some(None) then Raised(NullContent)
      else Done
    ensures InTransaction(t, r).reply == Done ==>
      var row, row' := t.docs[id], After(t, r).docs[id];
      if r.Publish? then row' == row.(status := Published)
      else if r.Reject? then row' == row.(deleted := true)
      else
        && row'.title == (if r.patch.title.Some? then r.patch.title.value else row.title)
        && (r.patch.content.Some? && r.patch.content.value.Some? ==>
              Content(After(t, r), id) == r.patch.content.value.value)
        && (r.patch.content.None? ==> Content(After(t, r), id) == Content(t, id))
        && row' == row.(title := row'.title,
                        version := row.version + (if r.patch.title.Some? || r.patch.content.Some? then 1 else 0))
  {
    hide Matches;
    assert IndexAgrees(t, id);
    StepFrame(t, r, id);
    if r.Update? && r.patch.content.Some? && r.patch.content.value.Some? {
      UpsertKeepsRows(t, id, r.patch.content.value.value, id);
    }
  }

  /** Once published, a document's row, content and index entry never change again. */
  lemma {:induction false} PublishedIsFinal(rs: seq<Request>, k: nat, id: nat)
    requires k <= |rs| && Manual(Run(rs[..k]), id) && Run(rs[..k]).docs[id].status == Published
    ensures Manual(Run(rs), id) && Run(rs).docs[id] == Run(rs[..k]).docs[id]
    ensures HasContent(Run(rs[..k]), id) && HasContent(Run(rs), id)
    ensures Content(Run(rs), id) == Content(Run(rs[..k]), id)
    ensures SameChunks(Run(rs[..k]), Run(rs), id)
  {
    hide Matches, InTransaction;
    RunKeepsInvariant(rs);
    RunKeepsInvariant(rs[..k]);
    assert IndexAgrees(Run(rs[..k]), id);
    if k == |rs| {
      assert rs[..k] == rs;
    } else {
      var n := |rs| - 1;
      assert rs[..n][..k] == rs[..k];
      PublishedIsFinal(rs[..n], k, id);
      RunKeepsInvariant(rs[..n]);
      OnlyAuthorizedReviewsChange(Run(rs[..n]), rs[n], id);
    }
  }

  /** How many edits that set something have been accepted on a document. */
  ghost function Edits(rs: seq<Request>, id: nat): nat {
    if rs == [] then 0 else
      Edits(rs[..|rs| - 1], id) + (if IsEdit(Run(rs[..|rs| - 1]), rs[|rs| - 1], id) then 1 else 0)
  }

  /** Whether a request is an accepted edit of a document that sets something. */
  ghost predicate IsEdit(t: Tables, r: Request, id: nat) {
    && r.Update? && r.id == id && (r.patch.title.Some? || r.patch.content.Some?)
    && !InTransaction(t, r).reply.Raised?
  }

  lemma EditsBumpVersion(t: Tables, r: Request, id: nat)
    ensures id >= |t.docs| ==> !IsEdit(t, r, id)
    ensures id < |t.docs| ==> id < |After(t, r).docs|
    ensures id < |t.docs| ==> After(t, r).docs[id].manual == t.docs[id].manual
    ensures id < |t.docs| ==> After(t, r).docs[id].version == t.docs[id].version + (if IsEdit(t, r, id) then 1 else 0)
    ensures id >= |t.docs| && Manual(After(t, r), id) ==> After(t, r).docs[id].version == 1
  {
    hide Matches;
  }

  lemma {:induction false} NoEditsBeforeItExists(rs: seq<Request>, id: nat)
    requires id >= |Run(rs).docs|
    ensures Edits(rs, id) == 0
  {
    hide InTransaction, IsEdit, After;
    if rs == [] {
    } else {
      EditsBumpVersion(Run(rs[..|rs| - 1]), rs[|rs| - 1], id);
      NoEditsBeforeItExists(rs[..|rs| - 1], id);
    }
  }

  /** A document's version is one more than the edits accepted on it. */
  lemma {:induction false} VersionCountsEdits(rs: seq<Request>, id: nat)
    requires Manual(Run(rs), id)
    ensures Run(rs).docs[id].version == 1 + Edits(rs, id)
  {
    hide InTransaction, IsEdit, After;
    var before, r := Run(rs[..|rs| - 1]), rs[|rs| - 1];
    EditsBumpVersion(before, r, id);
    if id < |before.docs| {
      VersionCountsEdits(rs[..|rs| - 1], id);
    } else {
      NoEditsBeforeItExists(rs[..|rs| - 1], id);
    }
  }

  /** The request that published a document: a reviewer of its project, in its organization. */
  ghost predicate PublishedBy(rs: seq<Request>, k: nat, id: nat)
    requires Manual(Run(rs), id)
  {
    && k < |rs| && rs[k].Publish? && rs[k].id == id
    && InTransaction(Run(rs[..k]), rs[k]).reply == Done
    && rs[k].actor.organizationId == Run(rs).docs[id].organizationId
    && rs[k].actor.mayReview(Run(rs).docs[id].projectId)
  }

  lemma StepKeepsScope(t: Tables, r: Request, id: nat)
    requires id < |t.docs|
    ensures id < |After(t, r).docs|
    ensures After(t, r).docs[id].projectId == t.docs[id].projectId
    ensures After(t, r).docs[id].organizationId == t.docs[id].organizationId
    ensures After(t, r).docs[id].manual == t.docs[id].manual
  {
    hide OneOrNone, UpsertMeta;
    if r.Publish? || r.Update? || r.Reject? {
      ReviewTouches(t, r);
      hide After;
    }
  }

  /** The human-review gate: nothing proposed reaches the index unless an authorized reviewer of its
      own project and organization published it. */
  lemma {:induction false} NothingIndexedUnreviewed(rs: seq<Request>, id: nat, i: nat)
    requires Manual(Run(rs), id)
    requires (id, i) in Run(rs).chunks || Run(rs).docs[id].status == Published
    ensures exists k: nat :: PublishedBy(rs, k, id)
  {
    hide Matches, InTransaction;
    RunKeepsInvariant(rs);
    assert IndexAgrees(Run(rs), id);
    var n := |rs| - 1;
    var before := Run(rs[..n]);
    if id < |before.docs| && before.docs[id].status == Published {
      StepKeepsScope(before, rs[n], id);
      NothingIndexedUnreviewed(rs[..n], id, 0);
      var k: nat :| PublishedBy(rs[..n], k, id);
      assert rs[..n][..k] == rs[..k];
      assert PublishedBy(rs, k, id);
    } else {
      OnlyPublishPublishes(before, rs[n], id);
      assert PublishedBy(rs, n, id);
    }
  }

  lemma OnlyPublishPublishes(t: Tables, r: Request, id: nat)
    requires Manual(After(t, r), id) && After(t, r).docs[id].status == Published
    requires id < |t.docs| ==> t.docs[id].status != Published
    ensures r.Publish? && r.id == id && InTransaction(t, r).reply == Done
    ensures r.actor.organizationId == After(t, r).docs[id].organizationId
    ensures r.actor.mayReview(After(t, r).docs[id].projectId)
  {
    hide Matches;
  }

  /** A rejected document stays rejected: it is never published and never indexed. */
  lemma {:induction false} RejectedIsFinal(rs: seq<Request>, k: nat, id: nat)
    requires k <= |rs| && Manual(Run(rs[..k]), id) && Run(rs[..k]).docs[id].deleted
    ensures Manual(Run(rs), id) && Run(rs).docs[id] == Run(rs[..k]).docs[id]
    ensures forall i :: (id, i) !in Run(rs).chunks
  {
    hide Matches, InTransaction, Invariant, After;
    RunKeepsInvariant(rs);
    if k == |rs| {
      assert rs[..k] == rs;
      RejectedIsNotIndexed(Run(rs), id);
    } else {
      var n := |rs| - 1;
      assert rs[..n][..k] == rs[..k];
      RejectedIsFinal(rs[..n], k, id);
      RunKeepsInvariant(rs[..n]);
      OnlyAuthorizedReviewsChange(Run(rs[..n]), rs[n], id);
      RejectedIsNotIndexed(Run(rs), id);
    }
  }

  lemma RejectedIsNotIndexed(t: Tables, id: nat)
    requires Invariant(t) && Manual(t, id) && t.docs[id].deleted
    ensures forall i :: (id, i) !in t.chunks
  {
    assert IndexAgrees(t, id);
  }
}
