/**
 The research tables: documents, audios, transcripts, text chunks and extracted entities, with the
 foreign keys of app/models/text_chunk.py and app/models/extracted_entity.py.  Deleting a row deletes
 what hangs on it (CASCADE) and clears canonical links to it (SET NULL).

 Ids are handed out from a counter; nothing below depends on their order.
 */
module Store {
  import opened Wrappers
  import opened Text

  type Id = nat

  datatype Document = Document(project: Id, rawText: string)

  datatype Audio = Audio(project: Id)

  /** `base` is what gets chunked: the segment texts joined, or the full text when there are none. */
  datatype Transcript = Transcript(audio: Id, base: string, completed: bool, createdAt: int)

  datatype Sources = Sources(projects: set<Id>, documents: map<Id, Document>, audios: map<Id, Audio>,
                             transcripts: map<Id, Transcript>)

  /** The three nullable source columns. */
  datatype Origin = Origin(document: Option<Id>, audio: Option<Id>, transcript: Option<Id>)

  datatype Chunk = Chunk(project: Id, origin: Origin, index: nat, text: string)

  datatype Content = Content(kind: string, title: string, text: string)

  datatype Entity = Entity(project: Id, origin: Origin, chunk: Id, content: Content, createdAt: int,
                           canonical: Option<Id>)

  type Chunks = map<Id, Chunk>

  type Entities = map<Id, Entity>

  /** `calls` lists the chunks sent to the extraction provider so far. */
  datatype Db = Db(sources: Sources, chunks: Chunks, entities: Entities, next: nat, calls: seq<Id>)

  const EMPTY: Db := Db(Sources({}, map[], map[], map[]), map[], map[], 0, [])

  function DocumentOrigin(d: Id): Origin { Origin(Some(d), None, None) }

  function TranscriptOrigin(t: Id): Origin { Origin(None, None, Some(t)) }

  // ----- invariant

  predicate ExactlyOne(o: Origin) {
    (if o.document.Some? then 1 else 0) + (if o.audio.Some? then 1 else 0) + (if o.transcript.Some? then 1 else 0) == 1
  }

  /** The origin names one existing source, and that source belongs to the project. */
  predicate OriginOk(s: Sources, o: Origin, project: Id) {
    && ExactlyOne(o)
    && (o.document.Some? ==>
          o.document.value in s.documents && s.documents[o.document.value].project == project)
    && (o.audio.Some? ==> o.audio.value in s.audios && s.audios[o.audio.value].project == project)
    && (o.transcript.Some? ==>
          && o.transcript.value in s.transcripts
          && s.transcripts[o.transcript.value].audio in s.audios
          && s.audios[s.transcripts[o.transcript.value].audio].project == project)
  }

  predicate ChunkOk(s: Sources, c: Chunk) {
    OriginOk(s, c.origin, c.project) && Strip(c.text) != ""
  }

  /** An entity hangs on a chunk and agrees with it on project and source. */
  predicate EntityOk(chunks: Chunks, e: Entity) {
    e.chunk in chunks && chunks[e.chunk].origin == e.origin && chunks[e.chunk].project == e.project
  }

  /** A canonical link leads to another, unlinked row of the same project. */
  predicate LinkOk(entities: Entities, e: Id)
    requires e in entities
  {
    entities[e].canonical.Some? ==>
      var r := entities[e].canonical.value;
      r != e && r in entities && entities[r].canonical == None && entities[r].project == entities[e].project
  }

  function ChunksAt(chunks: Chunks, o: Origin): set<Id> {
    set c | c in chunks && chunks[c].origin == o
  }

  /** The chunk indices of an origin are 0 to k-1, each once. */
  predicate Contiguous(chunks: Chunks, o: Origin) {
    && (forall c :: c in ChunksAt(chunks, o) ==> chunks[c].index < |ChunksAt(chunks, o)|)
    && (forall c, d :: c in ChunksAt(chunks, o) && d in ChunksAt(chunks, o) && c != d ==>
          chunks[c].index != chunks[d].index)
  }

  predicate Below<V>(table: map<Id, V>, next: Id) {
    forall id :: id in table ==> id < next
  }

  predicate SourcesBelow(s: Sources, next: Id) {
    Below(s.documents, next) && Below(s.audios, next) && Below(s.transcripts, next)
  }

  predicate FreshOk(db: Db) {
    SourcesBelow(db.sources, db.next) && Below(db.chunks, db.next) && Below(db.entities, db.next)
  }

  predicate TranscriptsOk(s: Sources) {
    forall t :: t in s.transcripts ==> s.transcripts[t].audio in s.audios
  }

  predicate ChunksOk(s: Sources, chunks: Chunks) {
    forall c :: c in chunks ==> ChunkOk(s, chunks[c])
  }

  predicate EntitiesOk(chunks: Chunks, entities: Entities) {
    forall e :: e in entities ==> EntityOk(chunks, entities[e])
  }

  predicate LinksOk(entities: Entities) {
    forall e :: e in entities ==> LinkOk(entities, e)
  }

  ghost predicate IndicesOk(chunks: Chunks) {
    forall o :: Contiguous(chunks, o)
  }

  ghost predicate Inv(db: Db) {
    && FreshOk(db) && TranscriptsOk(db.sources) && ChunksOk(db.sources, db.chunks)
    && EntitiesOk(db.chunks, db.entities) && LinksOk(db.entities) && IndicesOk(db.chunks)
  }

  // ----- deleting rows

  function Unlinked(row: Entity, dead: set<Id>): Entity {
    if row.canonical.Some? && row.canonical.value in dead then row.(canonical := None) else row
  }

  function WithoutEntities(entities: Entities, dead: set<Id>): (r: Entities)
    ensures r.Keys == entities.Keys - dead
  {
    map e | e in entities && e !in dead :: Unlinked(entities[e], dead)
  }

  function EntitiesOfChunks(entities: Entities, chunks: set<Id>): set<Id> {
    set e | e in entities && entities[e].chunk in chunks
  }

  function WithoutChunks(db: Db, dead: set<Id>): Db {
    db.(chunks := db.chunks - dead, entities := WithoutEntities(db.entities, EntitiesOfChunks(db.entities, dead)))
  }

  predicate OfTranscripts(o: Origin, transcripts: set<Id>) {
    o.transcript.Some? && o.transcript.value in transcripts
  }

  function ChunksOfTranscripts(chunks: Chunks, transcripts: set<Id>): set<Id> {
    set c | c in chunks && OfTranscripts(chunks[c].origin, transcripts)
  }

  function EntitiesOfTranscripts(entities: Entities, transcripts: set<Id>): set<Id> {
    set e | e in entities && OfTranscripts(entities[e].origin, transcripts)
  }

  /** Both cascades of a transcript: through its chunks and straight to its entities. */
  function WithoutTranscripts(db: Db, dead: set<Id>): Db {
    var kept := WithoutChunks(db, ChunksOfTranscripts(db.chunks, dead));
    kept.(sources := kept.sources.(transcripts := kept.sources.transcripts - dead),
          entities := WithoutEntities(kept.entities, EntitiesOfTranscripts(kept.entities, dead)))
  }

  /** Exactly `gone` is deleted; of the other rows only the links to deleted rows change. */
  ghost predicate Pruned(entities: Entities, after: Entities, gone: set<Id>) {
    && (forall e :: e in after <==> e in entities && e !in gone)
    && (forall e :: e in entities && e !in gone ==>
          after[e] == if entities[e].canonical.Some? && entities[e].canonical.value in gone
                      then entities[e].(canonical := None) else entities[e])
  }

  lemma PrunedTwice(entities: Entities, between: Entities, after: Entities, first: set<Id>, second: set<Id>)
    requires Pruned(entities, between, first) && Pruned(between, after, second)
    ensures Pruned(entities, after, first + second)
  {
  }

  lemma WithoutChunksExactly(db: Db, dead: set<Id>)
    ensures var after := WithoutChunks(db, dead);
            && after == Db(db.sources, db.chunks - dead, after.entities, db.next, db.calls)
            && Pruned(db.entities, after.entities, EntitiesOfChunks(db.entities, dead))
  {
  }

  /** Deleting transcripts takes their chunks and their entities, and nothing else. */
  lemma WithoutTranscriptsExactly(db: Db, dead: set<Id>)
    requires EntitiesOk(db.chunks, db.entities)
    ensures var after := WithoutTranscripts(db, dead);
            && after == Db(db.sources.(transcripts := db.sources.transcripts - dead),
                           db.chunks - ChunksOfTranscripts(db.chunks, dead), after.entities, db.next, db.calls)
            && Pruned(db.entities, after.entities, EntitiesOfTranscripts(db.entities, dead))
  {
    var after := WithoutTranscripts(db, dead);
    var kept := WithoutChunks(db, ChunksOfTranscripts(db.chunks, dead));
    var first := EntitiesOfChunks(db.entities, ChunksOfTranscripts(db.chunks, dead));
    var second := EntitiesOfTranscripts(kept.entities, dead);
    assert Pruned(db.entities, kept.entities, first);
    assert Pruned(kept.entities, after.entities, second);
    PrunedTwice(db.entities, kept.entities, after.entities, first, second);
    assert first + second == EntitiesOfTranscripts(db.entities, dead);
  }

  /** Links to deleted rows are cleared, so none dangles, and no chain appears. */
  lemma LinksSurviveDeletion(entities: Entities, dead: set<Id>)
    requires LinksOk(entities)
    ensures LinksOk(WithoutEntities(entities, dead))
  {
  }

  lemma EntitiesSurvive(chunks: Chunks, after: Chunks, entities: Entities, dead: set<Id>)
    requires EntitiesOk(chunks, entities)
    requires forall e :: e in entities && e !in dead && entities[e].chunk in chunks ==>
               entities[e].chunk in after && after[entities[e].chunk] == chunks[entities[e].chunk]
    ensures EntitiesOk(after, WithoutEntities(entities, dead))
  {
  }

  lemma DropEntitiesKeepsInv(db: Db, dead: set<Id>)
    requires Inv(db)
    ensures Inv(db.(entities := WithoutEntities(db.entities, dead)))
  {
    hide LinksOk, EntitiesOk, ChunksOk, TranscriptsOk, IndicesOk;
    LinksSurviveDeletion(db.entities, dead);
    EntitiesSurvive(db.chunks, db.chunks, db.entities, dead);
  }

  /** A set of chunks that takes whole origins. */
  ghost predicate WholeOrigins(chunks: Chunks, dead: set<Id>) {
    forall c, d :: c in chunks && d in chunks && chunks[c].origin == chunks[d].origin && c in dead ==> d in dead
  }

  lemma IndicesSurviveDeletion(chunks: Chunks, dead: set<Id>)
    requires IndicesOk(chunks) && WholeOrigins(chunks, dead)
    ensures IndicesOk(chunks - dead)
  {
    forall o ensures Contiguous(chunks - dead, o) {
      assert Contiguous(chunks, o);
      if d :| d in ChunksAt(chunks - dead, o) {
        forall c | c in ChunksAt(chunks, o) ensures c !in dead {
          assert chunks[c].origin == chunks[d].origin;
        }
        assert ChunksAt(chunks - dead, o) == ChunksAt(chunks, o);
      }
    }
  }

  lemma DropChunksKeepsInv(db: Db, dead: set<Id>)
    requires Inv(db) && WholeOrigins(db.chunks, dead)
    ensures Inv(WithoutChunks(db, dead))
  {
    hide LinksOk, EntitiesOk, ChunkOk, TranscriptsOk, IndicesOk, WholeOrigins;
    var gone := EntitiesOfChunks(db.entities, dead);
    LinksSurviveDeletion(db.entities, gone);
    EntitiesSurvive(db.chunks, db.chunks - dead, db.entities, gone);
    IndicesSurviveDeletion(db.chunks, dead);
  }

  lemma DropTranscriptsKeepsInv(db: Db, dead: set<Id>)
    requires Inv(db)
    ensures Inv(WithoutTranscripts(db, dead))
  {
    hide LinksOk, EntitiesOk, IndicesOk, WithoutEntities, Strip;
    var chunks := ChunksOfTranscripts(db.chunks, dead);
    DropChunksKeepsInv(db, chunks);
    var kept := WithoutChunks(db, chunks);
    DropEntitiesKeepsInv(kept, EntitiesOfTranscripts(kept.entities, dead));
    var after := WithoutTranscripts(db, dead);
    forall c | c in after.chunks ensures ChunkOk(after.sources, after.chunks[c]) {
      assert ChunkOk(db.sources, db.chunks[c]) && c !in chunks;
    }
  }

  // ----- adding rows

  /** The next `n` ids. */
  function Range(lo: Id, n: nat): set<Id> {
    if n == 0 then {} else Range(lo, n - 1) + {lo + n - 1}
  }

  lemma {:induction false} RangeMembers(lo: Id, n: nat)
    ensures |Range(lo, n)| == n
    ensures forall id :: id in Range(lo, n) <==> lo <= id < lo + n
  {
    if n == 0 {
    } else {
      RangeMembers(lo, n - 1);
    }
  }

  function NewChunks(project: Id, origin: Origin, texts: seq<string>, next: Id): (r: Chunks)
    ensures forall id :: id in r <==> next <= id < next + |texts|
  {
    RangeMembers(next, |texts|);
    map id | id in Range(next, |texts|) :: Chunk(project, origin, id - next, texts[id - next])
  }

  /** One chunk per text, numbered from 0. */
  function WithChunks(db: Db, project: Id, origin: Origin, texts: seq<string>): Db {
    db.(chunks := db.chunks + NewChunks(project, origin, texts, db.next), next := db.next + |texts|)
  }

  function NewEntities(id: Id, c: Chunk, contents: seq<Content>, now: int, next: Id): (r: Entities)
    ensures forall e :: e in r <==> next <= e < next + |contents|
    ensures forall e :: e in r ==> r[e].canonical == None
  {
    RangeMembers(next, |contents|);
    map e | e in Range(next, |contents|) :: Entity(c.project, c.origin, id, contents[e - next], now, None)
  }

  /** One entity per content, on the chunk and with its source. */
  function WithEntities(db: Db, chunk: Id, contents: seq<Content>, now: int): Db
    requires chunk in db.chunks
  {
    db.(entities := db.entities + NewEntities(chunk, db.chunks[chunk], contents, now, db.next),
        next := db.next + |contents|)
  }

  /** The next ids hold one chunk per text, numbered from 0; everything else is as it was. */
  ghost predicate ChunksStored(db: Db, after: Db, project: Id, origin: Origin, texts: seq<string>) {
    && after == Db(db.sources, after.chunks, db.entities, db.next + |texts|, db.calls)
    && (forall c :: c in after.chunks <==> c in db.chunks || db.next <= c < db.next + |texts|)
    && (forall c :: c in db.chunks && c < db.next ==> after.chunks[c] == db.chunks[c])
    && (forall c :: db.next <= c < db.next + |texts| ==>
          after.chunks[c] == Chunk(project, origin, c - db.next, texts[c - db.next]))
  }

  lemma WithChunksExactly(db: Db, project: Id, origin: Origin, texts: seq<string>)
    ensures ChunksStored(db, WithChunks(db, project, origin, texts), project, origin, texts)
  {
    RangeMembers(db.next, |texts|);
  }

  /** The next ids hold one unlinked entity per content, on the chunk and with its project and source. */
  ghost predicate EntitiesStored(db: Db, after: Db, chunk: Id, contents: seq<Content>, now: int)
    requires chunk in db.chunks
  {
    && after == Db(db.sources, db.chunks, after.entities, db.next + |contents|, db.calls)
    && (forall e :: e in after.entities <==> e in db.entities || db.next <= e < db.next + |contents|)
    && (forall e :: e in db.entities && e < db.next ==> after.entities[e] == db.entities[e])
    && (forall e :: db.next <= e < db.next + |contents| ==>
          after.entities[e] ==
          Entity(db.chunks[chunk].project, db.chunks[chunk].origin, chunk, contents[e - db.next], now, None))
  }

  lemma WithEntitiesExactly(db: Db, chunk: Id, contents: seq<Content>, now: int)
    requires chunk in db.chunks
    ensures EntitiesStored(db, WithEntities(db, chunk, contents, now), chunk, contents, now)
  {
    RangeMembers(db.next, |contents|);
  }

  lemma NewIndicesContiguous(db: Db, project: Id, origin: Origin, texts: seq<string>)
    requires Below(db.chunks, db.next) && IndicesOk(db.chunks) && ChunksAt(db.chunks, origin) == {}
    ensures IndicesOk(WithChunks(db, project, origin, texts).chunks)
  {
    var chunks := WithChunks(db, project, origin, texts).chunks;
    RangeMembers(db.next, |texts|);
    hide Range;
    forall o ensures Contiguous(chunks, o) {
      assert Contiguous(db.chunks, o);
      if o == origin {
        assert ChunksAt(chunks, o) == Range(db.next, |texts|);
      } else {
        assert ChunksAt(chunks, o) == ChunksAt(db.chunks, o);
      }
    }
  }

  lemma NewIdsAreBelow<V>(table: map<Id, V>, added: map<Id, V>, next: Id, n: nat)
    requires Below(table, next) && forall id :: id in added <==> next <= id < next + n
    ensures Below(table + added, next + n) && forall id :: id in added ==> id !in table
  {
  }

  lemma StillBelow(db: Db, n: nat)
    requires FreshOk(db)
    ensures SourcesBelow(db.sources, db.next + n) && Below(db.chunks, db.next + n) && Below(db.entities, db.next + n)
  {
  }

  lemma NewChunksOk(s: Sources, chunks: Chunks, project: Id, origin: Origin, texts: seq<string>, next: Id)
    requires ChunksOk(s, chunks) && OriginOk(s, origin, project)
    requires forall i :: 0 <= i < |texts| ==> Strip(texts[i]) != ""
    ensures ChunksOk(s, chunks + NewChunks(project, origin, texts, next))
  {
  }

  lemma EntitiesStayOk(chunks: Chunks, added: Chunks, entities: Entities)
    requires EntitiesOk(chunks, entities) && forall id :: id in added ==> id !in chunks
    ensures EntitiesOk(chunks + added, entities)
  {
  }

  lemma AddChunksKeepsInv(db: Db, project: Id, origin: Origin, texts: seq<string>)
    requires Inv(db) && OriginOk(db.sources, origin, project) && ChunksAt(db.chunks, origin) == {}
    requires forall i :: 0 <= i < |texts| ==> Strip(texts[i]) != ""
    ensures Inv(WithChunks(db, project, origin, texts))
  {
    hide LinksOk, IndicesOk, OriginOk, Strip, TranscriptsOk, ChunksOk, EntitiesOk, Below, NewChunks, ChunksAt;
    hide SourcesBelow;
    var added := NewChunks(project, origin, texts, db.next);
    NewIndicesContiguous(db, project, origin, texts);
    NewChunksOk(db.sources, db.chunks, project, origin, texts, db.next);
    NewIdsAreBelow(db.chunks, added, db.next, |texts|);
    StillBelow(db, |texts|);
    EntitiesStayOk(db.chunks, added, db.entities);
  }

  lemma NewEntitiesOk(chunks: Chunks, entities: Entities, id: Id, contents: seq<Content>, now: int, next: Id)
    requires EntitiesOk(chunks, entities) && id in chunks
    ensures EntitiesOk(chunks, entities + NewEntities(id, chunks[id], contents, now, next))
  {
  }

  lemma NewLinksOk(entities: Entities, added: Entities)
    requires LinksOk(entities) && forall id :: id in added ==> id !in entities
    requires forall e :: e in added ==> added[e].canonical == None
    ensures LinksOk(entities + added)
  {
  }

  lemma AddEntitiesKeepsInv(db: Db, chunk: Id, contents: seq<Content>, now: int)
    requires Inv(db) && chunk in db.chunks
    ensures Inv(WithEntities(db, chunk, contents, now))
  {
    hide LinksOk, IndicesOk, TranscriptsOk, ChunksOk, EntitiesOk, Below, NewEntities, SourcesBelow;
    var added := NewEntities(chunk, db.chunks[chunk], contents, now, db.next);
    NewEntitiesOk(db.chunks, db.entities, chunk, contents, now, db.next);
    NewIdsAreBelow(db.entities, added, db.next, |contents|);
    StillBelow(db, |contents|);
    NewLinksOk(db.entities, added);
  }
}
