/**
 What the pipeline operations do to the tables: transcribe, chunk, extract
 (app/services/processing_orchestrator_service.py:41-199, app/services/research_extraction_service.py:304-438).

 An operation that raises is rolled back by its session; only the provider calls it made remain.
 Rows are listed by id.
 */
module Pipeline {
  import opened Wrappers
  import opened Text
  import opened Sorting
  import opened Store
  import opened Dedup
  import Chunking
  import Candidates

  /** Settings and the parts that are any functions; a provider that raises answers None. */
  datatype Env = Env(maxChars: Chunking.Width, overlap: nat, gpt: bool, minPrEntities: int,
                     provider: (string, nat) -> Option<seq<Candidates.Candidate>>, tools: Candidates.Tools,
                     title: Candidates.Candidate -> string, key: Fingerprint, rank: Rank, prKinds: set<string>)

  datatype Step = Done(db: Db, count: nat) | Raised(calls: seq<Id>)

  /** Tables after the session closed. */
  function After(db: Db, step: Step): Db {
    if step.Done? then step.db else db.(calls := step.calls)
  }

  // ----- scopes

  datatype Src = Doc(id: Id) | Aud(id: Id)

  predicate InSrc(s: Sources, o: Origin, src: Src) {
    match src
    case Doc(d) => o.document == Some(d)
    case Aud(a) =>
      || o.audio == Some(a)
      || (o.transcript.Some? && o.transcript.value in s.transcripts && s.transcripts[o.transcript.value].audio == a)
  }

  function SrcChunks(db: Db, src: Src): set<Id> {
    set c | c in db.chunks && InSrc(db.sources, db.chunks[c].origin, src)
  }

  function SrcEntities(db: Db, src: Src): set<Id> {
    set e | e in db.entities && InSrc(db.sources, db.entities[e].origin, src)
  }

  function TranscriptChunks(db: Db, t: Id): set<Id> {
    set c | c in db.chunks && db.chunks[c].origin.transcript == Some(t)
  }

  function TranscriptEntities(db: Db, t: Id): set<Id> {
    set e | e in db.entities && db.entities[e].origin.transcript == Some(t)
  }

  function ListOf(db: Db, ids: set<Id>): seq<Id> {
    Listing(db.next, (c: Id) => c in ids)
  }

  lemma ListOfExactly(db: Db, ids: set<Id>)
    requires Below(db.chunks, db.next) && ids <= db.chunks.Keys
    ensures var list := ListOf(db, ids);
            && Distinct(list) && |list| == |ids| && (forall c :: c in list <==> c in ids) && Increasing(list)
  {
    ListingExactly(db.next, (c: Id) => c in ids);
    MembersSize(ListOf(db, ids));
    assert Members(ListOf(db, ids)) == ids;
  }

  /** `completed` transcript of the audio with the latest creation time, among ids below `n`. */
  function LatestTranscript(s: Sources, a: Id, n: nat): Option<Id> {
    if n == 0 then None
    else
      var before := LatestTranscript(s, a, n - 1);
      if n - 1 in s.transcripts && s.transcripts[n - 1].audio == a && s.transcripts[n - 1].completed
         && (before == None || before.value !in s.transcripts
             || s.transcripts[before.value].createdAt <= s.transcripts[n - 1].createdAt)
      then Some(n - 1) else before
  }

  lemma {:induction false} LatestIsOfAudio(s: Sources, a: Id, n: nat)
    ensures var t := LatestTranscript(s, a, n);
            && (t.Some? ==> t.value in s.transcripts && s.transcripts[t.value].audio == a && s.transcripts[t.value].completed)
            && (forall u :: u in s.transcripts && u < n && s.transcripts[u].audio == a && s.transcripts[u].completed ==>
                  t.Some? && s.transcripts[u].createdAt <= s.transcripts[t.value].createdAt)
  {
    if n == 0 {
    } else {
      LatestIsOfAudio(s, a, n - 1);
    }
  }

  // ----- transcribe and chunk

  function TranscriptsOf(s: Sources, a: Id): set<Id> {
    set t | t in s.transcripts && s.transcripts[t].audio == a
  }

  /** Without the transcripts of an audio and everything that hangs on them or on it. */
  function Cleared(db: Db, a: Id): Db {
    var kept := WithoutTranscripts(db, TranscriptsOf(db.sources, a));
    WithoutChunks(kept, set c | c in kept.chunks && kept.chunks[c].origin.audio == Some(a))
  }

  /** New transcript for an audio; the old ones and everything on them go. `base` is None when ASR raises. */
  function Transcribe(db: Db, a: Id, base: Option<string>, now: int): Step {
    if a !in db.sources.audios || base == None then Raised(db.calls)
    else
      var bare := Cleared(db, a);
      Done(bare.(sources := bare.sources.(transcripts := bare.sources.transcripts[bare.next := Transcript(a, base.value, true, now)]),
                 next := bare.next + 1), bare.next)
  }

  function Parts(env: Env, text: string): seq<string> {
    Chunking.Chunks(text, env.maxChars, env.overlap)
  }

  /** A document is chunked once; later calls report the chunks it has. */
  function ChunkDocument(env: Env, db: Db, d: Id): Step {
    if d !in db.sources.documents || Strip(db.sources.documents[d].rawText) == "" then Raised(db.calls)
    else if SrcChunks(db, Doc(d)) != {} then Done(db, |SrcChunks(db, Doc(d))|)
    else
      var parts := Parts(env, Strip(db.sources.documents[d].rawText));
      Done(WithChunks(db, db.sources.documents[d].project, DocumentOrigin(d), parts), |parts|)
  }

  /** A transcript is chunked anew; its old chunks and their entities go. */
  function ChunkTranscript(env: Env, db: Db, t: Id): Step {
    if t !in db.sources.transcripts || db.sources.transcripts[t].audio !in db.sources.audios
       || Strip(db.sources.transcripts[t].base) == "" then Raised(db.calls)
    else
      var cleared := WithoutChunks(db, TranscriptChunks(db, t));
      var parts := Parts(env, Strip(db.sources.transcripts[t].base));
      Done(WithChunks(cleared, db.sources.audios[db.sources.transcripts[t].audio].project, TranscriptOrigin(t), parts), |parts|)
  }

  // ----- extract

  function Contents(env: Env, cands: seq<Candidates.Candidate>): (r: seq<Content>)
    ensures |r| == |cands|
  {
    seq(|cands|, i requires 0 <= i < |cands| => Content(cands[i].kind, env.title(cands[i]), cands[i].content))
  }

  /** One provider call and what is stored for it. */
  function ExtractOne(env: Env, db: Db, c: Id, now: int): Step
    requires c in db.chunks
  {
    var raw := env.provider(db.chunks[c].text, db.chunks[c].index);
    var called := db.(calls := db.calls + [c]);
    if raw == None then Raised(called.calls)
    else
      var contents := Contents(env, Candidates.Finalized(db.chunks[c].text, raw.value, env.tools));
      Done(WithEntities(called, c, contents, now), |contents|)
  }

  /** The first `n` chunks of the list. */
  function ExtractChunks(env: Env, db: Db, list: seq<Id>, n: nat, now: int): (r: Step)
    requires n <= |list| && forall c :: c in list ==> c in db.chunks
    ensures r.Done? ==> r.db.chunks == db.chunks && r.db.sources == db.sources
  {
    if n == 0 then Done(db, 0)
    else
      var before := ExtractChunks(env, db, list, n - 1, now);
      if before.Raised? then before
      else
        assert list[n - 1] in list;
        var one := ExtractOne(env, before.db, list[n - 1], now);
        if one.Raised? then one else Done(one.db, before.count + one.count)
  }

  function DropEntities(db: Db, dead: set<Id>): Db {
    db.(entities := WithoutEntities(db.entities, dead))
  }

  /** The chunks of the scope go to the provider after the old entities of the scope are gone. */
  function ExtractScope(env: Env, db: Db, chunks: set<Id>, entities: set<Id>, now: int): Step
    requires chunks <= db.chunks.Keys
  {
    ListingExactly(db.next, (c: Id) => c in chunks);
    var list := ListOf(db, chunks);
    ExtractChunks(env, DropEntities(db, entities), list, |list|, now)
  }

  function ExtractDocument(env: Env, db: Db, d: Id, now: int): Step {
    if d !in db.sources.documents then Raised(db.calls)
    else
      var chunked := if SrcChunks(db, Doc(d)) == {} && Strip(db.sources.documents[d].rawText) != ""
                     then ChunkDocument(env, db, d) else Done(db, 0);
      if chunked.Raised? then chunked
      else ExtractScope(env, chunked.db, SrcChunks(chunked.db, Doc(d)), SrcEntities(chunked.db, Doc(d)), now)
  }

  /** A transcript without chunks even after chunking keeps its entities. */
  function ExtractTranscript(env: Env, db: Db, t: Id, now: int): Step {
    if t !in db.sources.transcripts then Raised(db.calls)
    else
      var chunked := if TranscriptChunks(db, t) == {} then ChunkTranscript(env, db, t) else Done(db, 0);
      if chunked.Raised? then chunked
      else if TranscriptChunks(chunked.db, t) == {} then Done(chunked.db, 0)
      else ExtractScope(env, chunked.db, TranscriptChunks(chunked.db, t), TranscriptEntities(chunked.db, t), now)
  }

  function ExtractAudio(env: Env, db: Db, a: Id, now: int): Step {
    if a !in db.sources.audios then Raised(db.calls)
    else
      var latest := LatestTranscript(db.sources, a, db.next);
      var chunked := if SrcChunks(db, Aud(a)) == {} && latest.Some? then ChunkTranscript(env, db, latest.value) else Done(db, 0);
      if chunked.Raised? then chunked
      else ExtractScope(env, chunked.db, SrcChunks(chunked.db, Aud(a)), SrcEntities(chunked.db, Aud(a)), now)
  }

  // ----- every operation keeps the invariant

  lemma DocumentOriginOk(s: Sources, d: Id)
    requires d in s.documents
    ensures OriginOk(s, DocumentOrigin(d), s.documents[d].project)
  {
  }

  lemma ChunkDocumentKeepsInv(env: Env, db: Db, d: Id)
    requires Inv(db)
    ensures Inv(After(db, ChunkDocument(env, db, d)))
  {
    hide Inv, Strip, OriginOk, Parts;
    var step := ChunkDocument(env, db, d);
    if step.Raised? {
      CallsKeepInv(db, step.calls);
    } else if SrcChunks(db, Doc(d)) == {} {
      var text := Strip(db.sources.documents[d].rawText);
      PartsShow(env, text);
      NoChunksAt(db.chunks, SrcChunks(db, Doc(d)), DocumentOrigin(d));
      DocumentOriginOk(db.sources, d);
      AddChunksKeepsInv(db, db.sources.documents[d].project, DocumentOrigin(d), Parts(env, text));
    }
  }

  lemma PartsShow(env: Env, text: string)
    ensures Strip(text) == "" ==> Parts(env, text) == []
    ensures Strip(text) != "" ==> Parts(env, text) != []
    ensures forall i :: 0 <= i < |Parts(env, text)| ==> Strip(Parts(env, text)[i]) != ""
  {
    Chunking.ChunksShow(text, env.maxChars, env.overlap);
    hide Strip, Chunking.Chunks;
  }

  lemma NoChunksAt(chunks: Chunks, scope: set<Id>, o: Origin)
    requires scope == {} && forall c :: c in chunks && chunks[c].origin == o ==> c in scope
    ensures ChunksAt(chunks, o) == {}
  {
  }

  lemma CallsKeepInv(db: Db, calls: seq<Id>)
    requires Inv(db)
    ensures Inv(db.(calls := calls))
  {
  }

  lemma TranscriptChunksAreWhole(db: Db, t: Id)
    ensures WholeOrigins(db.chunks, TranscriptChunks(db, t))
  {
  }

  lemma ChunkTranscriptKeepsInv(env: Env, db: Db, t: Id)
    requires Inv(db)
    ensures Inv(After(db, ChunkTranscript(env, db, t)))
  {
    var step := ChunkTranscript(env, db, t);
    if step.Done? {
      var cleared := WithoutChunks(db, TranscriptChunks(db, t));
      var text := Strip(db.sources.transcripts[t].base);
      PartsShow(env, text);
      hide Inv, Strip, Parts, OriginOk;
      TranscriptChunksAreWhole(db, t);
      DropChunksKeepsInv(db, TranscriptChunks(db, t));
      NoChunksAt(cleared.chunks, {}, TranscriptOrigin(t));
      TranscriptOriginOk(cleared.sources, t);
      AddChunksKeepsInv(cleared, db.sources.audios[db.sources.transcripts[t].audio].project, TranscriptOrigin(t),
                        Parts(env, text));
    } else {
      CallsKeepInv(db, step.calls);
    }
  }

  lemma TranscriptOriginOk(s: Sources, t: Id)
    requires t in s.transcripts && s.transcripts[t].audio in s.audios
    ensures OriginOk(s, TranscriptOrigin(t), s.audios[s.transcripts[t].audio].project)
  {
  }

  lemma TranscribeKeepsInv(db: Db, a: Id, base: Option<string>, now: int)
    requires Inv(db)
    ensures Inv(After(db, Transcribe(db, a, base, now)))
  {
    var step := Transcribe(db, a, base, now);
    if step.Done? {
      var dead := TranscriptsOf(db.sources, a);
      DropTranscriptsKeepsInv(db, dead);
      var cleared := WithoutTranscripts(db, dead);
      var gone := set c | c in cleared.chunks && cleared.chunks[c].origin.audio == Some(a);
      assert WholeOrigins(cleared.chunks, gone);
      DropChunksKeepsInv(cleared, gone);
      NewTranscriptKeepsInv(WithoutChunks(cleared, gone), Transcript(a, base.value, true, now));
    } else {
      CallsKeepInv(db, step.calls);
    }
  }

  lemma InvIsOk(db: Db)
    requires Inv(db)
    ensures FreshOk(db) && EntitiesOk(db.chunks, db.entities)
    ensures forall c :: c in db.chunks ==> OriginOk(db.sources, db.chunks[c].origin, db.chunks[c].project)
    ensures forall e :: e in db.entities ==> OriginOk(db.sources, db.entities[e].origin, db.entities[e].project)
  {
    hide Strip;
    forall c | c in db.chunks ensures OriginOk(db.sources, db.chunks[c].origin, db.chunks[c].project) {
      assert ChunkOk(db.sources, db.chunks[c]);
    }
    assert forall e :: e in db.entities ==> EntityOk(db.chunks, db.entities[e]);
  }

  /** Both parts of the scope of an audio: what hangs on it and what hangs on its transcripts. */
  lemma ScopeOfAudio(db: Db, a: Id)
    ensures SrcChunks(db, Aud(a)) ==
            ChunksOfTranscripts(db.chunks, TranscriptsOf(db.sources, a)) + set c | c in db.chunks && db.chunks[c].origin.audio == Some(a)
    ensures SrcEntities(db, Aud(a)) ==
            EntitiesOfTranscripts(db.entities, TranscriptsOf(db.sources, a)) + OnAudio(db.entities, a)
  {
  }

  function OnAudio(entities: Entities, a: Id): set<Id> {
    set e | e in entities && entities[e].origin.audio == Some(a)
  }

  lemma EntitiesOnAudioChunks(db: Db, a: Id)
    requires EntitiesOk(db.chunks, db.entities)
    ensures EntitiesOfChunks(db.entities, set c | c in db.chunks && db.chunks[c].origin.audio == Some(a)) == OnAudio(db.entities, a)
  {
    assert forall e :: e in db.entities ==> EntityOk(db.chunks, db.entities[e]);
  }

  lemma StillOnAudio(entities: Entities, after: Entities, gone: set<Id>, a: Id)
    requires Pruned(entities, after, gone)
    ensures gone + OnAudio(after, a) == gone + OnAudio(entities, a)
  {
    assert forall e :: e in OnAudio(after, a) ==> e in OnAudio(entities, a);
    assert forall e :: e in OnAudio(entities, a) && e !in gone ==> e in OnAudio(after, a);
  }

  lemma ClearedExactly(db: Db, a: Id)
    requires Inv(db)
    ensures var bare := Cleared(db, a);
            && bare == Db(db.sources.(transcripts := db.sources.transcripts - TranscriptsOf(db.sources, a)),
                          db.chunks - SrcChunks(db, Aud(a)), bare.entities, db.next, db.calls)
            && Pruned(db.entities, bare.entities, SrcEntities(db, Aud(a)))
  {
    var dead := TranscriptsOf(db.sources, a);
    var kept, first := WithoutTranscripts(db, dead), EntitiesOfTranscripts(db.entities, dead);
    var gone := set c | c in kept.chunks && kept.chunks[c].origin.audio == Some(a);
    InvIsOk(db);
    DropTranscriptsKeepsInv(db, dead);
    InvIsOk(kept);
    WithoutTranscriptsExactly(db, dead);
    WithoutChunksExactly(kept, gone);
    EntitiesOnAudioChunks(kept, a);
    StillOnAudio(db.entities, kept.entities, first, a);
    ScopeOfAudio(db, a);
    PrunedTwice(db.entities, kept.entities, Cleared(db, a).entities, first, OnAudio(kept.entities, a));
    hide Inv, FreshOk, WithoutTranscripts, WithoutChunks, Pruned, SrcChunks, SrcEntities, OnAudio, EntitiesOk, InSrc;
  }

  /**
   The new transcript is the only one of the audio and nothing hangs on the audio any more; the rows of
   other sources are as they were, but for links to deleted rows.
   */
  ghost predicate Retranscribed(db: Db, after: Db, a: Id, text: string, now: int, t: Id) {
    && (forall u :: u in after.sources.transcripts && after.sources.transcripts[u].audio == a <==> u == t)
    && after.sources.transcripts[t] == Transcript(a, text, true, now)
    && (forall c :: c in after.chunks ==> !InSrc(after.sources, after.chunks[c].origin, Aud(a)))
    && (forall e :: e in after.entities ==> !InSrc(after.sources, after.entities[e].origin, Aud(a)))
    && after.sources == db.sources.(transcripts := after.sources.transcripts) && after.calls == db.calls
    && (forall u :: u != t ==> (u in after.sources.transcripts <==>
                                u in db.sources.transcripts && db.sources.transcripts[u].audio != a))
    && (forall u :: u in after.sources.transcripts && u != t ==> after.sources.transcripts[u] == db.sources.transcripts[u])
    && after.chunks == db.chunks - SrcChunks(db, Aud(a))
    && Pruned(db.entities, after.entities, SrcEntities(db, Aud(a)))
  }

  lemma NotOfAudio(s: Sources, after: Sources, a: Id, t: Id, o: Origin)
    requires t !in s.transcripts && !InSrc(s, o, Aud(a)) && (o.transcript.Some? ==> o.transcript.value in s.transcripts)
    requires forall u :: u in after.transcripts && u != t ==> u in s.transcripts && after.transcripts[u] == s.transcripts[u]
    ensures !InSrc(after, o, Aud(a))
  {
  }

  lemma TranscribeExactly(db: Db, a: Id, base: Option<string>, now: int)
    requires Inv(db)
    ensures var step := Transcribe(db, a, base, now);
            && (step.Done? <==> a in db.sources.audios && base.Some?)
            && (step.Done? ==> step.count !in db.sources.transcripts
                               && Retranscribed(db, step.db, a, base.value, now, step.count))
            && (step.Raised? ==> step.calls == db.calls)
  {
    if a in db.sources.audios && base.Some? {
      var after := Transcribe(db, a, base, now).db;
      ClearedExactly(db, a);
      InvIsOk(db);
      NothingOnAudio(db, after, a, db.next);
      hide Inv, Cleared, InSrc, EntitiesOk, Pruned, SrcChunks, SrcEntities, OriginOk, Below;
    }
  }

  lemma NothingOnAudio(db: Db, after: Db, a: Id, t: Id)
    requires t !in db.sources.transcripts
    requires forall c :: c in db.chunks ==> OriginOk(db.sources, db.chunks[c].origin, db.chunks[c].project)
    requires forall e :: e in db.entities ==> OriginOk(db.sources, db.entities[e].origin, db.entities[e].project)
    requires after.chunks == db.chunks - SrcChunks(db, Aud(a)) && Pruned(db.entities, after.entities, SrcEntities(db, Aud(a)))
    requires forall u :: u in after.sources.transcripts && u != t ==>
               u in db.sources.transcripts && after.sources.transcripts[u] == db.sources.transcripts[u]
    ensures forall c :: c in after.chunks ==> !InSrc(after.sources, after.chunks[c].origin, Aud(a))
    ensures forall e :: e in after.entities ==> !InSrc(after.sources, after.entities[e].origin, Aud(a))
  {
    hide InSrc;
    forall c | c in after.chunks ensures !InSrc(after.sources, after.chunks[c].origin, Aud(a)) {
      NotOfAudio(db.sources, after.sources, a, t, db.chunks[c].origin);
    }
    forall e | e in after.entities ensures !InSrc(after.sources, after.entities[e].origin, Aud(a)) {
      NotOfAudio(db.sources, after.sources, a, t, db.entities[e].origin);
    }
  }

  lemma NewTranscriptKeepsInv(db: Db, t: Transcript)
    requires Inv(db) && t.audio in db.sources.audios
    ensures Inv(db.(sources := db.sources.(transcripts := db.sources.transcripts[db.next := t]), next := db.next + 1))
  {
  }

  lemma ExtractOneKeepsInv(env: Env, db: Db, c: Id, now: int)
    requires Inv(db) && c in db.chunks
    ensures var r := ExtractOne(env, db, c, now); r.Done? ==> Inv(r.db)
  {
    hide Inv, Candidates.Finalized;
    var r := ExtractOne(env, db, c, now);
    if r.Done? {
      var called := db.(calls := db.calls + [c]);
      CallsKeepInv(db, called.calls);
      var raw := env.provider(db.chunks[c].text, db.chunks[c].index);
      AddEntitiesKeepsInv(called, c, Contents(env, Candidates.Finalized(db.chunks[c].text, raw.value, env.tools)), now);
    }
  }

  lemma {:induction false} ExtractChunksKeepsInv(env: Env, db: Db, list: seq<Id>, n: nat, now: int)
    requires Inv(db) && n <= |list| && forall c :: c in list ==> c in db.chunks
    ensures var r := ExtractChunks(env, db, list, n, now); r.Done? ==> Inv(r.db)
  {
    hide Inv, ExtractOne;
    if n == 0 {
    } else {
      ExtractChunksKeepsInv(env, db, list, n - 1, now);
      var before := ExtractChunks(env, db, list, n - 1, now);
      if before.Done? {
        assert list[n - 1] in list;
        ExtractOneKeepsInv(env, before.db, list[n - 1], now);
      }
    }
  }

  lemma ExtractScopeKeepsInv(env: Env, db: Db, chunks: set<Id>, entities: set<Id>, now: int)
    requires Inv(db) && chunks <= db.chunks.Keys
    ensures var r := ExtractScope(env, db, chunks, entities, now); r.Done? ==> Inv(r.db)
  {
    hide Inv, ExtractChunks;
    DropEntitiesKeepsInv(db, entities);
    ListingExactly(db.next, (c: Id) => c in chunks);
    var list := ListOf(db, chunks);
    ExtractChunksKeepsInv(env, DropEntities(db, entities), list, |list|, now);
  }

  lemma ExtractKeepsInv(env: Env, db: Db, id: Id, now: int)
    requires Inv(db)
    ensures Inv(After(db, ExtractDocument(env, db, id, now)))
    ensures Inv(After(db, ExtractTranscript(env, db, id, now)))
    ensures Inv(After(db, ExtractAudio(env, db, id, now)))
  {
    hide Inv, ExtractScope, ChunkDocument, ChunkTranscript, LatestTranscript, Strip, SrcChunks, SrcEntities;
    hide TranscriptChunks, TranscriptEntities;
    DocumentAfterChunking(env, db, id, now);
    TranscriptAfterChunking(env, db, id, now);
    AudioAfterChunking(env, db, id, now);
  }

  lemma DocumentAfterChunking(env: Env, db: Db, d: Id, now: int)
    requires Inv(db)
    ensures Inv(After(db, ExtractDocument(env, db, d, now)))
  {
    hide Inv, ExtractScope, ChunkDocument, Strip;
    var step := ExtractDocument(env, db, d, now);
    ChunkDocumentKeepsInv(env, db, d);
    if step.Raised? {
      CallsKeepInv(db, step.calls);
    } else {
      var chunked := if SrcChunks(db, Doc(d)) == {} && Strip(db.sources.documents[d].rawText) != ""
                     then ChunkDocument(env, db, d) else Done(db, 0);
      ExtractScopeKeepsInv(env, chunked.db, SrcChunks(chunked.db, Doc(d)), SrcEntities(chunked.db, Doc(d)), now);
    }
  }

  lemma TranscriptAfterChunking(env: Env, db: Db, t: Id, now: int)
    requires Inv(db)
    ensures Inv(After(db, ExtractTranscript(env, db, t, now)))
  {
    hide Inv, ExtractScope, ChunkTranscript;
    var step := ExtractTranscript(env, db, t, now);
    ChunkTranscriptKeepsInv(env, db, t);
    if step.Raised? {
      CallsKeepInv(db, step.calls);
    } else {
      var chunked := if TranscriptChunks(db, t) == {} then ChunkTranscript(env, db, t) else Done(db, 0);
      ExtractScopeKeepsInv(env, chunked.db, TranscriptChunks(chunked.db, t), TranscriptEntities(chunked.db, t), now);
    }
  }

  lemma AudioAfterChunking(env: Env, db: Db, a: Id, now: int)
    requires Inv(db)
    ensures Inv(After(db, ExtractAudio(env, db, a, now)))
  {
    hide Inv, ExtractScope, ChunkTranscript, LatestTranscript;
    var step := ExtractAudio(env, db, a, now);
    if step.Raised? {
      CallsKeepInv(db, step.calls);
    } else {
      var latest := LatestTranscript(db.sources, a, db.next);
      if latest.Some? {
        ChunkTranscriptKeepsInv(env, db, latest.value);
      }
      var chunked := if SrcChunks(db, Aud(a)) == {} && latest.Some? then ChunkTranscript(env, db, latest.value) else Done(db, 0);
      ExtractScopeKeepsInv(env, chunked.db, SrcChunks(chunked.db, Aud(a)), SrcEntities(chunked.db, Aud(a)), now);
    }
  }

  // ----- what the operations leave behind

  lemma ChunkDocumentExactly(env: Env, db: Db, d: Id)
    ensures var step := ChunkDocument(env, db, d);
            && (step.Done? <==> d in db.sources.documents && Strip(db.sources.documents[d].rawText) != "")
            && (step.Raised? ==> step.calls == db.calls)
            && (step.Done? && SrcChunks(db, Doc(d)) != {} ==> step.db == db && step.count == |SrcChunks(db, Doc(d))|)
            && (step.Done? && SrcChunks(db, Doc(d)) == {} ==>
                  var row := db.sources.documents[d];
                  var texts := Chunking.Chunks(Strip(row.rawText), env.maxChars, env.overlap);
                  ChunksStored(db, step.db, row.project, Origin(Some(d), None, None), texts) && step.count == |texts|)
  {
    hide Strip, SrcChunks, WithChunks, ChunksStored, Chunking.Chunks;
    if d in db.sources.documents {
      var row := db.sources.documents[d];
      WithChunksExactly(db, row.project, DocumentOrigin(d), Parts(env, Strip(row.rawText)));
    }
  }

  /** The old chunks and their entities are gone, the new chunks cover the joined text. */
  lemma ChunkTranscriptExactly(env: Env, db: Db, t: Id)
    requires Inv(db)
    ensures var step := ChunkTranscript(env, db, t);
            && (step.Done? <==> t in db.sources.transcripts && Strip(db.sources.transcripts[t].base) != "")
            && (step.Raised? ==> step.calls == db.calls)
            && (step.Done? ==>
                  var texts := Chunking.Chunks(Strip(db.sources.transcripts[t].base), env.maxChars, env.overlap);
                  && Pruned(db.entities, step.db.entities, TranscriptEntities(db, t))
                  && ChunksStored(db.(chunks := db.chunks - TranscriptChunks(db, t), entities := step.db.entities), step.db,
                                  db.sources.audios[db.sources.transcripts[t].audio].project,
                                  Origin(None, None, Some(t)), texts)
                  && step.count == |texts|)
  {
    InvIsOk(db);
    assert TranscriptsOk(db.sources);
    hide Inv, Strip, WithChunks, ChunksStored, Chunking.Chunks, Pruned, WithoutChunks;
    if t in db.sources.transcripts {
      var s := db.sources;
      WithoutChunksExactly(db, TranscriptChunks(db, t));
      OnTranscriptChunks(db, t);
      WithChunksExactly(WithoutChunks(db, TranscriptChunks(db, t)), s.audios[s.transcripts[t].audio].project,
                        TranscriptOrigin(t), Parts(env, Strip(s.transcripts[t].base)));
    }
  }

  lemma OnTranscriptChunks(db: Db, t: Id)
    requires EntitiesOk(db.chunks, db.entities)
    ensures EntitiesOfChunks(db.entities, TranscriptChunks(db, t)) == TranscriptEntities(db, t)
  {
    assert forall e :: e in db.entities ==> EntityOk(db.chunks, db.entities[e]);
  }

  /** The provider answers for the chunk. */
  predicate Answers(env: Env, chunk: Chunk) {
    env.provider(chunk.text, chunk.index).Some?
  }

  /** What is stored for a chunk. */
  function ContentsOf(env: Env, chunk: Chunk): seq<Content>
    requires Answers(env, chunk)
  {
    Contents(env, Candidates.Finalized(chunk.text, env.provider(chunk.text, chunk.index).value, env.tools))
  }

  /** The new entities of a chunk have these contents, in order, under consecutive ids from `lo`. */
  ghost predicate RowsFrom(entities: Entities, used: set<Id>, c: Id, chunk: Chunk, contents: seq<Content>, lo: Id, now: int) {
    && (forall e :: e in entities && e !in used && entities[e].chunk == c <==> lo <= e < lo + |contents|)
    && (forall e :: lo <= e < lo + |contents| ==>
          e in entities && entities[e] == Entity(chunk.project, chunk.origin, c, contents[e - lo], now, None))
  }

  ghost predicate ChunkExtracted(env: Env, used: set<Id>, after: Db, c: Id, now: int) {
    && c in after.chunks && Answers(env, after.chunks[c])
    && exists lo: Id :: RowsFrom(after.entities, used, c, after.chunks[c], ContentsOf(env, after.chunks[c]), lo, now)
  }

  /** Extraction added rows on the listed chunks, under all ids from the old counter to the new. */
  ghost predicate RowsAdded(db: Db, after: Db, list: seq<Id>) {
    && after.sources == db.sources && after.chunks == db.chunks && db.next <= after.next
    && (forall e :: e in after.entities <==> e in db.entities || db.next <= e < after.next)
    && (forall e :: e in db.entities ==> after.entities[e] == db.entities[e])
    && (forall e :: db.next <= e < after.next ==> after.entities[e].chunk in list)
  }

  /** Moreover each of them got its entities; `used` are the ids in use before. */
  ghost predicate Added(env: Env, db: Db, after: Db, used: set<Id>, list: seq<Id>, now: int) {
    RowsAdded(db, after, list) && forall c :: c in list ==> ChunkExtracted(env, used, after, c, now)
  }

  predicate OldIds(db: Db, used: set<Id>) {
    (forall e :: e in db.entities ==> e in used) && (forall e :: e in used ==> e < db.next)
  }

  lemma ExtractOneExactly(env: Env, db: Db, c: Id, now: int)
    requires c in db.chunks
    ensures var step := ExtractOne(env, db, c, now);
            && (step.Done? <==> Answers(env, db.chunks[c]))
            && (step.Done? ==>
                  var contents := ContentsOf(env, db.chunks[c]);
                  EntitiesStored(db.(calls := db.calls + [c]), step.db, c, contents, now) && step.count == |contents|)
  {
    hide Candidates.Finalized, WithEntities, EntitiesStored, Contents;
    if Answers(env, db.chunks[c]) {
      WithEntitiesExactly(db.(calls := db.calls + [c]), c, ContentsOf(env, db.chunks[c]), now);
    }
  }

  lemma RowsOfOne(db: Db, before: Db, after: Db, used: set<Id>, list: seq<Id>, c: Id, contents: seq<Content>, now: int)
    requires OldIds(db, used) && RowsAdded(db, before, list) && c !in list
    requires c in before.chunks && EntitiesStored(before, after, c, contents, now)
    ensures RowsFrom(after.entities, used, c, before.chunks[c], contents, before.next, now)
  {
    assert forall e :: e in before.entities && e !in used ==> before.entities[e].chunk != c;
  }

  lemma MoreRowsAdded(db: Db, before: Db, after: Db, used: set<Id>, list: seq<Id>, c: Id, contents: seq<Content>, now: int)
    requires OldIds(db, used) && RowsAdded(db, before, list)
    requires c in before.chunks && EntitiesStored(before, after, c, contents, now)
    ensures RowsAdded(db, after, list + [c])
  {
  }

  lemma RowsOfEarlier(before: Db, after: Db, used: set<Id>, c: Id, stored: seq<Content>,
                      d: Id, chunk: Chunk, contents: seq<Content>, lo: Id, now: int)
    requires RowsFrom(before.entities, used, d, chunk, contents, lo, now) && Below(before.entities, before.next) && c != d
    requires c in before.chunks && EntitiesStored(before, after, c, stored, now)
    ensures RowsFrom(after.entities, used, d, chunk, contents, lo, now)
  {
    forall e | e in after.entities && after.entities[e].chunk == d
      ensures e in before.entities && after.entities[e] == before.entities[e]
    {
    }
  }

  lemma AddedMore(env: Env, db: Db, before: Db, after: Db, used: set<Id>, list: seq<Id>, c: Id, now: int)
    requires OldIds(db, used) && Added(env, db, before, used, list, now) && c !in list
    requires c in before.chunks && Answers(env, before.chunks[c])
    requires EntitiesStored(before, after, c, ContentsOf(env, before.chunks[c]), now)
    ensures Added(env, db, after, used, list + [c], now)
  {
    var contents := ContentsOf(env, before.chunks[c]);
    RowsOfOne(db, before, after, used, list, c, contents, now);
    MoreRowsAdded(db, before, after, used, list, c, contents, now);
    assert Below(before.entities, before.next);
    hide RowsFrom, ContentsOf, Answers, RowsAdded, OldIds;
    forall d | d in list ensures ChunkExtracted(env, used, after, d, now) {
      assert ChunkExtracted(env, used, before, d, now);
      var lo: Id :| RowsFrom(before.entities, used, d, before.chunks[d], ContentsOf(env, before.chunks[d]), lo, now);
      RowsOfEarlier(before, after, used, c, contents, d, before.chunks[d], ContentsOf(env, before.chunks[d]), lo, now);
    }
  }

  lemma {:induction false} ExtractChunksExactly(env: Env, db: Db, used: set<Id>, list: seq<Id>, n: nat, now: int)
    requires OldIds(db, used) && Distinct(list) && n <= |list| && forall c :: c in list ==> c in db.chunks
    ensures var step := ExtractChunks(env, db, list, n, now);
            && (step.Done? <==> forall c :: c in list[..n] ==> Answers(env, db.chunks[c]))
            && (step.Done? ==>
                  && Added(env, db, step.db, used, list[..n], now) && step.db.calls == db.calls + list[..n]
                  && step.count == step.db.next - db.next)
  {
    hide ExtractOne, Answers, Added, ContentsOf, OldIds, EntitiesStored;
    if n == 0 {
      NoneAdded(env, db, used, now);
    } else {
      ExtractChunksExactly(env, db, used, list, n - 1, now);
      var before, c := ExtractChunks(env, db, list, n - 1, now), list[n - 1];
      assert list[..n] == list[..n - 1] + [c];
      if before.Done? {
        assert c in list && c !in list[..n - 1];
        ExtractOneExactly(env, before.db, c, now);
        var one := ExtractOne(env, before.db, c, now);
        if one.Done? {
          var called := before.db.(calls := before.db.calls + [c]);
          AddedIgnoresCalls(env, db, before.db, called.calls, used, list[..n - 1], now);
          AddedMore(env, db, called, one.db, used, list[..n - 1], c, now);
          StoredNext(called, one.db, c, ContentsOf(env, before.db.chunks[c]), now);
        }
      }
    }
  }

  lemma StoredNext(db: Db, after: Db, c: Id, contents: seq<Content>, now: int)
    requires c in db.chunks && EntitiesStored(db, after, c, contents, now)
    ensures after.next == db.next + |contents| && after.calls == db.calls && after.chunks == db.chunks
  {
  }

  lemma AddedIgnoresCalls(env: Env, db: Db, after: Db, calls: seq<Id>, used: set<Id>, list: seq<Id>, now: int)
    requires Added(env, db, after, used, list, now)
    ensures Added(env, db, after.(calls := calls), used, list, now)
  {
    hide RowsFrom, ContentsOf, Answers;
    forall c | c in list ensures ChunkExtracted(env, used, after.(calls := calls), c, now) {
      assert ChunkExtracted(env, used, after, c, now);
    }
  }

  lemma NoneAdded(env: Env, db: Db, used: set<Id>, now: int)
    requires OldIds(db, used)
    ensures Added(env, db, db, used, [], now)
  {
  }

  /** The old entities are gone, of the other rows only links to them have changed, and new rows are on `chunks`. */
  ghost predicate RowsReplaced(entities: Entities, after: Entities, chunks: set<Id>, dead: set<Id>) {
    && (forall e :: e in entities ==> (e in after <==> e !in dead))
    && (forall e :: e in entities && e !in dead ==>
          after[e] == if entities[e].canonical.Some? && entities[e].canonical.value in dead
                      then entities[e].(canonical := None) else entities[e])
    && (forall e :: e in after && e !in entities ==> after[e].chunk in chunks)
  }

  /** A re-extraction: every chunk of the scope was sent once, in order, and its entities replace the dead ones. */
  ghost predicate Reextracted(env: Env, db: Db, after: Db, chunks: set<Id>, dead: set<Id>, now: int) {
    && after.sources == db.sources
    && RowsReplaced(db.entities, after.entities, chunks, dead)
    && (forall c :: c in chunks ==> ChunkExtracted(env, db.entities.Keys, after, c, now))
    && db.calls <= after.calls && Increasing(after.calls[|db.calls|..])
    && (forall c :: c in after.calls[|db.calls|..] <==> c in chunks)
  }

  ghost predicate NeverRaises(env: Env) {
    forall text, index :: env.provider(text, index).Some?
  }

  lemma DroppedThenAdded(db: Db, after: Db, list: seq<Id>, chunks: set<Id>, dead: set<Id>)
    requires Below(db.entities, db.next) && RowsAdded(DropEntities(db, dead), after, list)
    requires forall c :: c in list ==> c in chunks
    ensures RowsReplaced(db.entities, after.entities, chunks, dead)
  {
  }

  lemma NewIds(used: set<Id>, kept: set<Id>, after: set<Id>, lo: Id, hi: Id)
    requires kept <= used && lo <= hi && forall e :: e in used ==> e < lo
    requires forall e :: e in after <==> e in kept || lo <= e < hi
    ensures |after - used| == hi - lo
  {
    RangeMembers(lo, hi - lo);
    hide Range;
    assert after - used == Range(lo, hi - lo);
  }

  lemma ScopeIsList(env: Env, db: Db, chunks: set<Id>, dead: set<Id>, now: int)
    requires FreshOk(db) && chunks <= db.chunks.Keys
    ensures var list := ListOf(db, chunks);
            && Distinct(list) && Increasing(list) && (forall c :: c in list <==> c in chunks)
            && ExtractScope(env, db, chunks, dead, now) == ExtractChunks(env, DropEntities(db, dead), list, |list|, now)
  {
    ListOfExactly(db, chunks);
  }

  lemma ExtractScopeExactly(env: Env, db: Db, chunks: set<Id>, dead: set<Id>, now: int)
    requires FreshOk(db) && chunks <= db.chunks.Keys
    ensures var step := ExtractScope(env, db, chunks, dead, now);
            && (step.Done? <==> forall c :: c in chunks ==> Answers(env, db.chunks[c]))
            && (step.Done? ==>
                  && Reextracted(env, db, step.db, chunks, dead, now) && step.db.chunks == db.chunks
                  && step.count == |step.db.entities.Keys - db.entities.Keys|)
  {
    var list, dropped := ListOf(db, chunks), DropEntities(db, dead);
    ScopeIsList(env, db, chunks, dead, now);
    hide ExtractScope, Answers, ChunkExtracted, ListOf, ExtractChunks, RowsReplaced, Distinct, Increasing, SourcesBelow;
    ExtractChunksExactly(env, dropped, db.entities.Keys, list, |list|, now);
    assert list[..|list|] == list;
    var step := ExtractScope(env, db, chunks, dead, now);
    if step.Done? {
      ScopeReextracted(env, db, step.db, list, chunks, dead, now);
      NewIds(db.entities.Keys, dropped.entities.Keys, step.db.entities.Keys, db.next, step.db.next);
    }
  }

  lemma ScopeReextracted(env: Env, db: Db, after: Db, list: seq<Id>, chunks: set<Id>, dead: set<Id>, now: int)
    requires Below(db.entities, db.next) && Increasing(list) && forall c :: c in list <==> c in chunks
    requires Added(env, DropEntities(db, dead), after, db.entities.Keys, list, now) && after.calls == db.calls + list
    ensures Reextracted(env, db, after, chunks, dead, now)
  {
    DroppedThenAdded(db, after, list, chunks, dead);
    hide RowsReplaced, ChunkExtracted, Increasing, WithoutEntities;
    assert after.calls[|db.calls|..] == list;
  }

  /** Chunking first does not matter for what is re-extracted: it adds chunks only. */
  lemma ChunkedFirst(env: Env, db: Db, chunked: Db, after: Db, chunks: set<Id>, dead: set<Id>, now: int)
    requires chunked.sources == db.sources && chunked.entities == db.entities && chunked.calls == db.calls
    requires Reextracted(env, chunked, after, chunks, dead, now)
    ensures Reextracted(env, db, after, chunks, dead, now)
  {
  }

  lemma AnswersAlways(env: Env, db: Db)
    requires NeverRaises(env)
    ensures forall c :: c in db.chunks ==> Answers(env, db.chunks[c])
  {
  }

  lemma ExtractDocumentExactly(env: Env, db: Db, d: Id, now: int)
    requires Inv(db)
    ensures var step := ExtractDocument(env, db, d, now);
            && (step.Done? ==>
                  && d in db.sources.documents
                  && Reextracted(env, db, step.db, SrcChunks(step.db, Doc(d)), SrcEntities(db, Doc(d)), now)
                  && (SrcChunks(db, Doc(d)) != {} || Strip(db.sources.documents[d].rawText) == "" ==> step.db.chunks == db.chunks)
                  && step.count == |step.db.entities.Keys - db.entities.Keys|)
            && (NeverRaises(env) && d in db.sources.documents ==> step.Done?)
  {
    hide ExtractScope, Strip, ChunkDocument, Inv, Reextracted, NeverRaises, Answers, ChunksStored;
    var step := ExtractDocument(env, db, d, now);
    if d in db.sources.documents {
      ChunkDocumentExactly(env, db, d);
      ChunkDocumentKeepsInv(env, db, d);
      var first := if SrcChunks(db, Doc(d)) == {} && Strip(db.sources.documents[d].rawText) != ""
                   then ChunkDocument(env, db, d) else Done(db, 0);
      if first.Done? {
        InvIsOk(first.db);
        StoredChunksOnly(env, db, d);
        ExtractScopeExactly(env, first.db, SrcChunks(first.db, Doc(d)), SrcEntities(first.db, Doc(d)), now);
        if step.Done? {
          ChunkedFirst(env, db, first.db, step.db, SrcChunks(first.db, Doc(d)), SrcEntities(first.db, Doc(d)), now);
        } else if NeverRaises(env) {
          AnswersAlways(env, first.db);
        }
      }
    }
  }

  lemma StoredChunksOnly(env: Env, db: Db, d: Id)
    ensures var step := ChunkDocument(env, db, d);
            step.Done? ==> step.db.sources == db.sources && step.db.entities == db.entities && step.db.calls == db.calls
                           && SrcEntities(step.db, Doc(d)) == SrcEntities(db, Doc(d))
  {
  }

  lemma NoneDropped(db: Db)
    ensures WithoutChunks(db, {}) == db
  {
  }

  lemma PartsOfStripped(env: Env, text: string)
    requires Strip(text) != ""
    ensures Parts(env, Strip(text)) != []
  {
  }

  /** A transcript that has no chunks gets some, and nothing else changes. */
  lemma BareTranscript(env: Env, db: Db, t: Id)
    requires Inv(db) && TranscriptChunks(db, t) == {}
    ensures var step := ChunkTranscript(env, db, t);
            step.Done? ==>
              && step.db.sources == db.sources && step.db.entities == db.entities && step.db.calls == db.calls
              && TranscriptChunks(step.db, t) != {}
  {
    var step := ChunkTranscript(env, db, t);
    if step.Done? {
      var s, row := db.sources, db.sources.transcripts[t];
      NoneDropped(db);
      PartsOfStripped(env, row.base);
      WithChunksExactly(db, s.audios[row.audio].project, TranscriptOrigin(t), Parts(env, Strip(row.base)));
      hide Inv, Strip, Parts, WithChunks, WithoutChunks;
      assert db.next in step.db.chunks && step.db.chunks[db.next].origin == TranscriptOrigin(t);
      assert db.next in TranscriptChunks(step.db, t);
    }
  }

  lemma ExtractTranscriptExactly(env: Env, db: Db, t: Id, now: int)
    requires Inv(db)
    ensures var step := ExtractTranscript(env, db, t, now);
            && (step.Done? ==>
                  && t in db.sources.transcripts && TranscriptChunks(step.db, t) != {}
                  && Reextracted(env, db, step.db, TranscriptChunks(step.db, t), TranscriptEntities(db, t), now)
                  && (TranscriptChunks(db, t) != {} ==> step.db.chunks == db.chunks)
                  && step.count == |step.db.entities.Keys - db.entities.Keys|)
            && (NeverRaises(env) && t in db.sources.transcripts
                && (TranscriptChunks(db, t) == {} ==> Strip(db.sources.transcripts[t].base) != "")
                ==> step.Done?)
  {
    var step := ExtractTranscript(env, db, t, now);
    if t in db.sources.transcripts {
      ChunkTranscriptExactly(env, db, t);
      ChunkTranscriptKeepsInv(env, db, t);
      var first := if TranscriptChunks(db, t) == {} then ChunkTranscript(env, db, t) else Done(db, 0);
      if first.Done? {
        if TranscriptChunks(db, t) == {} {
          BareTranscript(env, db, t);
        }
        InvIsOk(first.db);
        hide ExtractScope, Strip, ChunkTranscript, Inv, Reextracted, NeverRaises, Answers, ChunksStored, Pruned;
        ExtractScopeExactly(env, first.db, TranscriptChunks(first.db, t), TranscriptEntities(first.db, t), now);
        if step.Done? {
          ChunkedFirst(env, db, first.db, step.db, TranscriptChunks(first.db, t), TranscriptEntities(first.db, t), now);
        } else if NeverRaises(env) {
          AnswersAlways(env, first.db);
        }
      }
    }
  }

  lemma ExtractAudioExactly(env: Env, db: Db, a: Id, now: int)
    requires Inv(db)
    ensures var step, latest := ExtractAudio(env, db, a, now), LatestTranscript(db.sources, a, db.next);
            && (step.Done? ==>
                  && a in db.sources.audios && (latest.Some? ==> SrcChunks(step.db, Aud(a)) != {})
                  && Reextracted(env, db, step.db, SrcChunks(step.db, Aud(a)), SrcEntities(db, Aud(a)), now)
                  && (SrcChunks(db, Aud(a)) != {} || latest == None ==> step.db.chunks == db.chunks)
                  && step.count == |step.db.entities.Keys - db.entities.Keys|)
            && (NeverRaises(env) && a in db.sources.audios
                && (SrcChunks(db, Aud(a)) == {} && latest.Some? ==>
                      latest.value in db.sources.transcripts && Strip(db.sources.transcripts[latest.value].base) != "")
                ==> step.Done?)
  {
    LatestIsOfAudio(db.sources, a, db.next);
    var step, latest := ExtractAudio(env, db, a, now), LatestTranscript(db.sources, a, db.next);
    if a in db.sources.audios {
      var first := if SrcChunks(db, Aud(a)) == {} && latest.Some? then ChunkTranscript(env, db, latest.value) else Done(db, 0);
      if SrcChunks(db, Aud(a)) == {} && latest.Some? {
        ChunkTranscriptExactly(env, db, latest.value);
        ChunkTranscriptKeepsInv(env, db, latest.value);
        OfLatest(db, a, latest.value);
        BareTranscript(env, db, latest.value);
      }
      if first.Done? {
        InvIsOk(first.db);
        if latest.Some? {
          OfLatest(first.db, a, latest.value);
        }
        hide ExtractScope, Strip, ChunkTranscript, Inv, Reextracted, NeverRaises, Answers, ChunksStored, Pruned, LatestTranscript;
        ExtractScopeExactly(env, first.db, SrcChunks(first.db, Aud(a)), SrcEntities(first.db, Aud(a)), now);
        if step.Done? {
          ChunkedFirst(env, db, first.db, step.db, SrcChunks(first.db, Aud(a)), SrcEntities(first.db, Aud(a)), now);
        } else if NeverRaises(env) {
          AnswersAlways(env, first.db);
        }
      }
    }
  }

  lemma OfLatest(db: Db, a: Id, t: Id)
    requires t in db.sources.transcripts && db.sources.transcripts[t].audio == a
    ensures TranscriptChunks(db, t) <= SrcChunks(db, Aud(a))
  {
  }
}
