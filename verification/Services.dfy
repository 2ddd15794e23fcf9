/**
 The services at work on one database session
 (app/services/processing_orchestrator_service.py, app/services/research_extraction_service.py,
 app/services/research_pipeline_orchestrator_service.py).

 A method that returns false has raised: its session is rolled back by the caller, and of its effects
 only the provider calls remain.
 */
module Services {
  import opened Wrappers
  import opened Text
  import opened Store
  import opened Dedup
  import opened Pipeline
  import opened Prepare
  import Candidates
  import Chunking

  // ----- one row at a time

  lemma OneMoreChunk(db: Db, project: Id, origin: Origin, texts: seq<string>, i: nat)
    requires i < |texts|
    ensures var before := WithChunks(db, project, origin, texts[..i]);
            WithChunks(db, project, origin, texts[..i + 1]) ==
            before.(chunks := before.chunks[before.next := Chunk(project, origin, i, texts[i])], next := before.next + 1)
  {
  }

  lemma OneMoreEntity(db: Db, c: Id, contents: seq<Content>, now: int, i: nat)
    requires c in db.chunks && i < |contents|
    ensures var before, row := WithEntities(db, c, contents[..i], now), db.chunks[c];
            WithEntities(db, c, contents[..i + 1], now) ==
            before.(entities := before.entities[before.next := Entity(row.project, row.origin, c, contents[i], now, None)],
                    next := before.next + 1)
  {
  }

  lemma PersistedExactly(env: Env, db: Db, c: Id, cands: seq<Candidates.Candidate>, now: int)
    requires c in db.chunks
    ensures var after := WithEntities(db, c, Contents(env, cands), now);
            && (forall e :: e in after.entities <==> e in db.entities || db.next <= e < db.next + |cands|)
            && (forall i :: 0 <= i < |cands| ==>
                  after.entities[db.next + i] ==
                  Entity(db.chunks[c].project, db.chunks[c].origin, c,
                         Content(cands[i].kind, env.title(cands[i]), cands[i].content), now, None))
            && (forall e :: e in db.entities && e < db.next ==> after.entities[e] == db.entities[e])
  {
    WithEntitiesExactly(db, c, Contents(env, cands), now);
    hide WithEntities;
  }

  lemma NoRowsYet(db: Db, project: Id, origin: Origin, c: Id, now: int)
    ensures WithChunks(db, project, origin, []) == db
    ensures c in db.chunks ==> WithEntities(db, c, [], now) == db
  {
  }

  lemma {:induction false} RaisedStays(env: Env, db: Db, list: seq<Id>, n: nat, m: nat, now: int)
    requires n <= m <= |list| && forall c :: c in list ==> c in db.chunks
    requires ExtractChunks(env, db, list, n, now).Raised?
    ensures ExtractChunks(env, db, list, m, now) == ExtractChunks(env, db, list, n, now)
    decreases m
  {
    hide ExtractOne;
    if m <= n {
    } else {
      RaisedStays(env, db, list, n, m - 1, now);
    }
  }

  lemma {:induction false} FailedStays(env: Env, db: Db, srcs: seq<Src>, n: nat, m: nat)
    requires n <= m <= |srcs| && ChunkPhase(env, db, srcs, n).Failed?
    ensures ChunkPhase(env, db, srcs, m) == ChunkPhase(env, db, srcs, n)
    decreases m
  {
    hide PrepareOne;
    if m <= n {
    } else {
      FailedStays(env, db, srcs, n, m - 1);
    }
  }

  lemma {:induction false} PhaseRaisedStays(env: Env, db: Db, entries: seq<Entry>, n: nat, m: nat, now: int)
    requires n <= m <= |entries| && ExtractPhase(env, db, entries, n, now).Raised?
    ensures ExtractPhase(env, db, entries, m, now) == ExtractPhase(env, db, entries, n, now)
    decreases m
  {
    hide ExtractSrc;
    if m <= n {
    } else {
      PhaseRaisedStays(env, db, entries, n, m - 1, now);
    }
  }

  /** The step's outcome, seen from the session. */
  predicate Reports(step: Step, ok: bool, count: nat, db: Db) {
    if step.Done? then ok && count == step.count && db == step.db else !ok && db.calls == step.calls
  }

  class Session {
    const env: Env
    var db: Db

    constructor (env: Env)
      ensures this.env == env && db == EMPTY
    {
      this.env := env;
      db := EMPTY;
    }

    method AddChunkRows(project: Id, origin: Origin, texts: seq<string>)
      modifies this`db
      ensures db == WithChunks(old(db), project, origin, texts)
      ensures ChunksStored(old(db), db, project, origin, texts)
    {
      WithChunksExactly(db, project, origin, texts);
      hide WithChunks;
      NoRowsYet(db, project, origin, 0, 0);
      for i := 0 to |texts|
        invariant db == WithChunks(old(db), project, origin, texts[..i])
      {
        OneMoreChunk(old(db), project, origin, texts, i);
        db := db.(chunks := db.chunks[db.next := Chunk(project, origin, i, texts[i])], next := db.next + 1);
      }
      assert texts[..|texts|] == texts;
    }

    method Persist(c: Id, cands: seq<Candidates.Candidate>, now: int) returns (n: nat)
      requires c in db.chunks
      modifies this`db
      ensures db == WithEntities(old(db), c, Contents(env, cands), now) && n == |cands|
      ensures forall e :: e in db.entities <==> e in old(db).entities || old(db).next <= e < old(db).next + |cands|
      ensures forall i :: 0 <= i < |cands| ==>
                db.entities[old(db).next + i] ==
                Entity(old(db).chunks[c].project, old(db).chunks[c].origin, c,
                       Content(cands[i].kind, env.title(cands[i]), cands[i].content), now, None)
      ensures forall e :: e in old(db).entities && e < old(db).next ==> db.entities[e] == old(db).entities[e]
    {
      ghost var contents := Contents(env, cands);
      hide WithEntities;
      NoRowsYet(db, 0, DocumentOrigin(0), c, now);
      assert contents[..0] == [];
      n := 0;
      var row := db.chunks[c];
      for i := 0 to |cands|
        invariant c in old(db.chunks) && db == WithEntities(old(db), c, contents[..i], now) && n == i
      {
        OneMoreEntity(old(db), c, contents, now, i);
        var content := Content(cands[i].kind, env.title(cands[i]), cands[i].content);
        db := db.(entities := db.entities[db.next := Entity(row.project, row.origin, c, content, now, None)],
                  next := db.next + 1);
        n := n + 1;
      }
      assert contents[..|cands|] == contents;
      PersistedExactly(env, old(db), c, cands, now);
    }

    method TranscribeAudio(a: Id, base: Option<string>, now: int) returns (ok: bool, t: nat)
      modifies this`db
      ensures Reports(Transcribe(old(db), a, base, now), ok, t, db)
      ensures ok <==> a in old(db).sources.audios && base.Some?
      ensures ok && Inv(old(db)) ==> Retranscribed(old(db), db, a, base.value, now, t)
      ensures !ok ==> db.calls == old(db).calls
    {
      hide Retranscribed, Inv;
      if Inv(db) {
        TranscribeExactly(db, a, base, now);
      }
      if a !in db.sources.audios {
        return false, 0;
      }
      db := WithoutTranscripts(db, set t | t in db.sources.transcripts && db.sources.transcripts[t].audio == a);
      db := WithoutChunks(db, set c | c in db.chunks && db.chunks[c].origin.audio == Some(a));
      if base == None {
        return false, 0;
      }
      t := db.next;
      var s := db.sources;
      db := db.(sources := s.(transcripts := s.transcripts[t := Transcript(a, base.value, true, now)]), next := db.next + 1);
      ok := true;
    }

    method ChunkSourceDocument(d: Id) returns (ok: bool, count: nat)
      modifies this`db
      ensures Reports(ChunkDocument(env, old(db), d), ok, count, db)
      ensures ok <==> d in old(db).sources.documents && Strip(old(db).sources.documents[d].rawText) != ""
      ensures ok && SrcChunks(old(db), Doc(d)) != {} ==> db == old(db) && count == |SrcChunks(old(db), Doc(d))|
      ensures ok && SrcChunks(old(db), Doc(d)) == {} ==>
                var row := old(db).sources.documents[d];
                var texts := Chunking.Chunks(Strip(row.rawText), env.maxChars, env.overlap);
                ChunksStored(old(db), db, row.project, Origin(Some(d), None, None), texts) && count == |texts|
      ensures !ok ==> db.calls == old(db).calls
    {
      ChunkDocumentExactly(env, db, d);
      hide ChunksStored, Chunking.Chunks;
      hide Strip, Parts, WithChunks;
      if d !in db.sources.documents || Strip(db.sources.documents[d].rawText) == "" {
        return false, 0;
      }
      var existing := |SrcChunks(db, Doc(d))|;
      if existing > 0 {
        return true, existing;
      }
      var parts := Parts(env, Strip(db.sources.documents[d].rawText));
      AddChunkRows(db.sources.documents[d].project, DocumentOrigin(d), parts);
      return true, |parts|;
    }

    method ChunkTranscriptRow(t: Id) returns (ok: bool, count: nat)
      modifies this`db
      ensures Reports(ChunkTranscript(env, old(db), t), ok, count, db)
      ensures ok && Inv(old(db)) ==>
                && t in old(db).sources.transcripts
                && var row := old(db).sources.transcripts[t];
                var texts := Chunking.Chunks(Strip(row.base), env.maxChars, env.overlap);
                && Pruned(old(db).entities, db.entities, TranscriptEntities(old(db), t))
                && ChunksStored(old(db).(chunks := old(db).chunks - TranscriptChunks(old(db), t), entities := db.entities), db,
                                old(db).sources.audios[row.audio].project, Origin(None, None, Some(t)), texts)
                && count == |texts|
      ensures !ok && Inv(old(db)) ==>
                t in old(db).sources.transcripts ==> Strip(old(db).sources.transcripts[t].base) == ""
      ensures !ok ==> db.calls == old(db).calls
    {
      if Inv(db) {
        ChunkTranscriptExactly(env, db, t);
      }
      hide Inv, Pruned, ChunksStored, Chunking.Chunks;
      hide Strip, Parts, WithChunks, WithoutEntities;
      if t !in db.sources.transcripts || db.sources.transcripts[t].audio !in db.sources.audios {
        return false, 0;
      }
      var project := db.sources.audios[db.sources.transcripts[t].audio].project;
      db := WithoutChunks(db, TranscriptChunks(db, t));
      var base := Strip(db.sources.transcripts[t].base);
      if base == "" {
        return false, 0;
      }
      var parts := Parts(env, base);
      AddChunkRows(project, TranscriptOrigin(t), parts);
      return true, |parts|;
    }

    method ExtractForChunks(list: seq<Id>, now: int) returns (ok: bool, total: nat)
      requires forall c :: c in list ==> c in db.chunks
      modifies this`db
      ensures Reports(ExtractChunks(env, old(db), list, |list|, now), ok, total, db)
    {
      hide Candidates.Finalized, WithEntities;
      total := 0;
      for i := 0 to |list|
        invariant ExtractChunks(env, old(db), list, i, now) == Done(db, total)
        invariant db.chunks == old(db.chunks)
      {
        var c := list[i];
        assert c in list;
        var raw := env.provider(db.chunks[c].text, db.chunks[c].index);
        db := db.(calls := db.calls + [c]);
        if raw == None {
          RaisedStays(env, old(db), list, i + 1, |list|, now);
          return false, 0;
        }
        var cands := Candidates.FinalizeChunkEntities(db.chunks[c].text, raw.value, env.tools);
        var n := Persist(c, cands, now);
        total := total + n;
        assert ExtractChunks(env, old(db), list, i + 1, now) == Done(db, total);
      }
      return true, total;
    }

    method ExtractRows(chunks: set<Id>, entities: set<Id>, now: int) returns (ok: bool, total: nat)
      requires chunks <= db.chunks.Keys
      modifies this`db
      ensures Reports(ExtractScope(env, old(db), chunks, entities, now), ok, total, db)
      ensures Inv(old(db)) ==> (ok <==> forall c :: c in chunks ==> Answers(env, old(db).chunks[c]))
      ensures ok && Inv(old(db)) ==>
                && Reextracted(env, old(db), db, chunks, entities, now) && db.chunks == old(db).chunks
                && total == |db.entities.Keys - old(db).entities.Keys|
    {
      if Inv(db) {
        InvIsOk(db);
        ExtractScopeExactly(env, db, chunks, entities, now);
      }
      hide Inv, Reextracted, Answers;
      hide ExtractChunks, WithoutEntities;
      ListingExactly(db.next, (c: Id) => c in chunks);
      var list := ListOf(db, chunks);
      db := DropEntities(db, entities);
      ok, total := ExtractForChunks(list, now);
    }

    method ExtractForDocument(d: Id, now: int) returns (ok: bool, total: nat)
      modifies this`db
      ensures Reports(ExtractDocument(env, old(db), d, now), ok, total, db)
      ensures ok && Inv(old(db)) ==>
                && Reextracted(env, old(db), db, SrcChunks(db, Doc(d)), SrcEntities(old(db), Doc(d)), now)
                && total == |db.entities.Keys - old(db).entities.Keys|
    {
      if Inv(db) {
        ExtractDocumentExactly(env, db, d, now);
      }
      hide Inv, Reextracted, NeverRaises;
      hide ExtractScope, ChunkDocument, Strip;
      if d !in db.sources.documents {
        return false, 0;
      }
      if SrcChunks(db, Doc(d)) == {} && Strip(db.sources.documents[d].rawText) != "" {
        // never raises here: the document exists and has text
        ok, total := ChunkSourceDocument(d);
      }
      ok, total := ExtractRows(SrcChunks(db, Doc(d)), SrcEntities(db, Doc(d)), now);
    }

    method ExtractForTranscript(t: Id, now: int) returns (ok: bool, total: nat)
      modifies this`db
      ensures Reports(ExtractTranscript(env, old(db), t, now), ok, total, db)
      ensures ok && Inv(old(db)) ==>
                && Reextracted(env, old(db), db, TranscriptChunks(db, t), TranscriptEntities(old(db), t), now)
                && total == |db.entities.Keys - old(db).entities.Keys|
    {
      if Inv(db) {
        ExtractTranscriptExactly(env, db, t, now);
      }
      hide Inv, Reextracted, NeverRaises, ChunksStored, Pruned, Chunking.Chunks, Strip;
      hide ExtractScope, ChunkTranscript;
      if t !in db.sources.transcripts {
        return false, 0;
      }
      if TranscriptChunks(db, t) == {} {
        ok, total := ChunkTranscriptRow(t);
        if !ok {
          return false, 0;
        }
      }
      if TranscriptChunks(db, t) == {} {
        return true, 0;
      }
      ok, total := ExtractRows(TranscriptChunks(db, t), TranscriptEntities(db, t), now);
    }

    method ExtractForAudio(a: Id, now: int) returns (ok: bool, total: nat)
      modifies this`db
      ensures Reports(ExtractAudio(env, old(db), a, now), ok, total, db)
      ensures ok && Inv(old(db)) ==>
                && Reextracted(env, old(db), db, SrcChunks(db, Aud(a)), SrcEntities(old(db), Aud(a)), now)
                && total == |db.entities.Keys - old(db).entities.Keys|
    {
      if Inv(db) {
        ExtractAudioExactly(env, db, a, now);
      }
      hide Inv, Reextracted, NeverRaises;
      hide ExtractScope, ChunkTranscript, LatestTranscript;
      if a !in db.sources.audios {
        return false, 0;
      }
      if SrcChunks(db, Aud(a)) == {} {
        var latest := LatestTranscript(db.sources, a, db.next);
        if latest.Some? {
          ok, total := ChunkTranscriptRow(latest.value);
          if !ok {
            return false, 0;
          }
        }
      }
      ok, total := ExtractRows(SrcChunks(db, Aud(a)), SrcEntities(db, Aud(a)), now);
    }

    method Aggregate(project: Id)
      modifies this`db
      ensures db == Aggregated(env, old(db), project)
      ensures Inv(old(db)) && Injective(env.rank) ==>
                Canonical(db.entities, project, env.key, env.rank) && SameButLinks(old(db).entities, db.entities, project)
    {
      if Inv(db) && Injective(env.rank) {
        AggregatedFacts(env, db, project);
      }
      hide Canonical, SameButLinks, Inv, Injective;
      if Rows(db.entities, project) == {} {
        return;
      }
      OrderedAllIn(db.entities, project, env.rank, db.next);
      var ids := Ordered(db.entities, project, env.rank, db.next);
      var linked, stats := Deduplicate(db.entities, env.key, ids);
      db := db.(entities := linked);
    }

    /** Chunks one source if needed and notes it. */
    method PrepareSource(src: Src) returns (ok: bool, entry: Entry)
      modifies this`db
      ensures var r := PrepareOne(env, old(db), src);
              if r.Ready? then ok && db == r.db && r.entries == [entry] else !ok && db.calls == r.calls
    {
      hide ChunkDocument, ChunkTranscript, LatestTranscript, Strip;
      entry := Entry(src, 0, 0);
      if !Eligible(db, src) {
        return true, entry;
      }
      var n := |SrcChunks(db, src)|;
      if n == 0 {
        match src {
          case Doc(d) => ok, n := ChunkSourceDocument(d);
          case Aud(a) => ok, n := ChunkTranscriptRow(LatestTranscript(db.sources, a, db.next).value);
        }
        if !ok {
          return false, entry;
        }
      }
      return true, Entry(src, n, |SrcEntities(db, src)|);
    }

    method PrepareProjectForReport(project: Id, cap: int, auto: bool, now: int) returns (ok: bool, verdict: Verdict)
      modifies this`db
      ensures var r := PrepareProject(env, old(db), project, cap, auto, now);
              if r.Finished? then ok && verdict == r.verdict && db == r.db else !ok && db.calls == r.calls
      ensures ok && Inv(old(db)) && Injective(env.rank) ==> Prepared(env, old(db), db, project, cap, auto, verdict)
    {
      hide PrepareOne, ExtractSrc, Aggregated, PrEntities, Prepared, Inv, Injective, Canonical, SameButLinks;
      PreparedWhenFinished(env, db, project, cap, auto, now);
      verdict := ProjectNotFound;
      if project !in db.sources.projects {
        return true, ProjectNotFound;
      }
      if !auto {
        return true, AutoPrepareDisabled;
      }
      var srcs := ProjectSrcs(db, project);
      var entries: seq<Entry> := [];
      for i := 0 to |srcs|
        invariant ChunkPhase(env, old(db), srcs, i) == Ready(db, entries)
      {
        var entry;
        ok, entry := PrepareSource(srcs[i]);
        if !ok {
          FailedStays(env, old(db), srcs, i + 1, |srcs|);
          return false, verdict;
        }
        entries := entries + [entry];
      }
      var needed := CountNeeded(entries);
      if |PrEntities(env, db, project)| >= env.minPrEntities {
        Aggregate(project);
        return true, PreparedSignalsUsed;
      }
      if env.gpt && needed > cap {
        return true, CapExceeded;
      }
      ok := ExtractEntries(entries, now);
      if !ok {
        return false, verdict;
      }
      Aggregate(project);
      return true, Extracted;
    }

    method CountNeeded(entries: seq<Entry>) returns (needed: nat)
      ensures needed == Needed(entries, |entries|)
    {
      needed := 0;
      for i := 0 to |entries|
        invariant needed == Needed(entries, i)
      {
        if entries[i].counted > 0 && entries[i].existing == 0 {
          needed := needed + entries[i].counted;
        }
      }
    }

    method ExtractSource(src: Src, now: int) returns (ok: bool, total: nat)
      modifies this`db
      ensures Reports(ExtractSrc(env, old(db), src, now), ok, total, db)
    {
      hide ExtractDocument, ExtractAudio, Reextracted, Inv;
      match src {
        case Doc(d) => ok, total := ExtractForDocument(d, now);
        case Aud(a) => ok, total := ExtractForAudio(a, now);
      }
    }

    method ExtractEntries(entries: seq<Entry>, now: int) returns (ok: bool)
      modifies this`db
      ensures var r := ExtractPhase(env, old(db), entries, |entries|, now);
              if r.Done? then ok && db == r.db else !ok && db.calls == r.calls
    {
      hide ExtractSrc;
      ghost var total := 0;
      for i := 0 to |entries|
        invariant ExtractPhase(env, old(db), entries, i, now) == Done(db, total)
      {
        if entries[i].counted > 0 && entries[i].existing == 0 {
          var n;
          ok, n := ExtractSource(entries[i].src, now);
          if !ok {
            PhaseRaisedStays(env, old(db), entries, i + 1, |entries|, now);
            return false;
          }
          total := total + n;
        }
      }
      return true;
    }
  }

  // ----- whole runs

  datatype Call =
    | NewProject
    | NewDocument(project: Id, rawText: string)
    | NewAudio(project: Id)
    | TranscribeCall(audio: Id, base: Option<string>, now: int)
    | ChunkDocumentCall(document: Id)
    | ChunkTranscriptCall(transcript: Id)
    | ExtractDocumentCall(document: Id, now: int)
    | ExtractTranscriptCall(transcript: Id, now: int)
    | ExtractAudioCall(audio: Id, now: int)
    | AggregateCall(project: Id)
    | PrepareCall(project: Id, cap: int, auto: bool, now: int)

  /** The committed tables after one call: those of the call, or the old ones when it raised. */
  function Committed(env: Env, db: Db, call: Call): Db {
    match call
    case NewProject =>
      db.(sources := db.sources.(projects := db.sources.projects + {db.next}), next := db.next + 1)
    case NewDocument(project, rawText) =>
      db.(sources := db.sources.(documents := db.sources.documents[db.next := Document(project, rawText)]), next := db.next + 1)
    case NewAudio(project) =>
      db.(sources := db.sources.(audios := db.sources.audios[db.next := Audio(project)]), next := db.next + 1)
    case TranscribeCall(a, base, now) => After(db, Transcribe(db, a, base, now))
    case ChunkDocumentCall(d) => After(db, ChunkDocument(env, db, d))
    case ChunkTranscriptCall(t) => After(db, ChunkTranscript(env, db, t))
    case ExtractDocumentCall(d, now) => After(db, ExtractDocument(env, db, d, now))
    case ExtractTranscriptCall(t, now) => After(db, ExtractTranscript(env, db, t, now))
    case ExtractAudioCall(a, now) => After(db, ExtractAudio(env, db, a, now))
    case AggregateCall(project) => Aggregated(env, db, project)
    case PrepareCall(project, cap, auto, now) =>
      var r := PrepareProject(env, db, project, cap, auto, now);
      if r.Finished? then r.db else db.(calls := r.calls)
  }

  function Run(env: Env, db: Db, calls: seq<Call>): Db {
    if calls == [] then db else Committed(env, Run(env, db, calls[..|calls| - 1]), calls[|calls| - 1])
  }

  /** A row added to a source table under a fresh id. */
  lemma NewSourceKeepsInv(db: Db, s: Sources)
    requires Inv(db)
    requires s.transcripts == db.sources.transcripts && SourcesBelow(s, db.next + 1)
    requires forall d :: d in db.sources.documents ==> d in s.documents && s.documents[d] == db.sources.documents[d]
    requires forall a :: a in db.sources.audios ==> a in s.audios && s.audios[a] == db.sources.audios[a]
    ensures Inv(db.(sources := s, next := db.next + 1))
  {
  }

  lemma UploadKeepsInv(env: Env, db: Db, call: Call)
    requires Inv(db) && (call.NewProject? || call.NewDocument? || call.NewAudio?)
    ensures Inv(Committed(env, db, call))
  {
    InvSourcesBelow(db);
    hide Inv;
    NewSourceKeepsInv(db, Committed(env, db, call).sources);
  }

  lemma CallKeepsInv(env: Env, db: Db, call: Call)
    requires Inv(db) && Injective(env.rank)
    ensures Inv(Committed(env, db, call))
  {
    hide Inv, Transcribe, ChunkDocument, ChunkTranscript, ExtractDocument, ExtractTranscript, ExtractAudio, PrepareProject;
    hide Aggregated;
    match call {
      case NewProject => UploadKeepsInv(env, db, call);
      case NewDocument(_, _) => UploadKeepsInv(env, db, call);
      case NewAudio(_) => UploadKeepsInv(env, db, call);
      case TranscribeCall(a, base, now) => TranscribeKeepsInv(db, a, base, now);
      case ChunkDocumentCall(d) => ChunkDocumentKeepsInv(env, db, d);
      case ChunkTranscriptCall(t) => ChunkTranscriptKeepsInv(env, db, t);
      case ExtractDocumentCall(d, now) => ExtractKeepsInv(env, db, d, now);
      case ExtractTranscriptCall(t, now) => ExtractKeepsInv(env, db, t, now);
      case ExtractAudioCall(a, now) => ExtractKeepsInv(env, db, a, now);
      case AggregateCall(project) => AggregatedFacts(env, db, project);
      case PrepareCall(project, cap, auto, now) =>
        BoundedPreparation(env, db, project, cap, auto, now);
        var r := PrepareProject(env, db, project, cap, auto, now);
        if r.Aborted? {
          CallsKeepInv(db, r.calls);
        }
    }
  }

  /** The store invariant over every run of the operations, in any order. */
  lemma {:induction false} RunKeepsInv(env: Env, calls: seq<Call>)
    requires Injective(env.rank)
    ensures Inv(Run(env, EMPTY, calls))
  {
    if calls == [] {
      EmptyIsOk();
    } else {
      hide Inv;
      RunKeepsInv(env, calls[..|calls| - 1]);
      CallKeepsInv(env, Run(env, EMPTY, calls[..|calls| - 1]), calls[|calls| - 1]);
    }
  }

  lemma EmptyIsOk()
    ensures Inv(EMPTY)
  {
  }

  /** Read off the invariant: what holds of the rows at the end of any run. */
  lemma StoreAfterAnyRun(env: Env, calls: seq<Call>)
    requires Injective(env.rank)
    ensures var db := Run(env, EMPTY, calls);
            && (forall c :: c in db.chunks ==> ExactlyOne(db.chunks[c].origin))
            && (forall e :: e in db.entities ==>
                  && ExactlyOne(db.entities[e].origin) && db.entities[e].chunk in db.chunks
                  && db.entities[e].origin == db.chunks[db.entities[e].chunk].origin
                  && db.entities[e].project == db.chunks[db.entities[e].chunk].project)
            && (forall e :: e in db.entities && db.entities[e].canonical.Some? ==>
                  && db.entities[e].canonical.value in db.entities
                  && db.entities[db.entities[e].canonical.value].canonical == None)
            && (forall o, i: nat :: i < |ChunksAt(db.chunks, o)| ==> HasIndex(db.chunks, o, i))
  {
    RunKeepsInv(env, calls);
    var db := Run(env, EMPTY, calls);
    hide Strip;
    forall e | e in db.entities
      ensures EntityOk(db.chunks, db.entities[e]) && ExactlyOne(db.entities[e].origin) && LinkOk(db.entities, e)
    {
      assert EntityOk(db.chunks, db.entities[e]);
      assert ChunkOk(db.sources, db.chunks[db.entities[e].chunk]);
    }
    forall o, i: nat | i < |ChunksAt(db.chunks, o)| ensures HasIndex(db.chunks, o, i) {
      assert Contiguous(db.chunks, o);
      EveryIndexTaken(db.chunks, o, i);
    }
  }

  predicate HasIndex(chunks: Chunks, o: Origin, i: nat) {
    exists c :: c in ChunksAt(chunks, o) && chunks[c].index == i
  }

  /** k chunks with distinct indices below k take every index. */
  lemma EveryIndexTaken(chunks: Chunks, o: Origin, i: nat)
    requires Contiguous(chunks, o) && i < |ChunksAt(chunks, o)|
    ensures HasIndex(chunks, o, i)
  {
    var at := ChunksAt(chunks, o);
    if !HasIndex(chunks, o, i) {
      var taken := set c | c in at :: chunks[c].index;
      ImageSize(chunks, at, taken);
      RangeMembers(0, |at|);
      assert taken <= Range(0, |at|) - {i};
      SubsetSize(taken, Range(0, |at|) - {i});
      assert false;
    }
  }

  lemma SubsetSize(a: set<nat>, b: set<nat>)
    requires a <= b
    ensures |a| <= |b|
  {
    assert b == a + (b - a);
  }

  lemma {:induction false} ImageSize(chunks: Chunks, at: set<Id>, taken: set<nat>)
    requires forall c :: c in at ==> c in chunks
    requires forall c, d :: c in at && d in at && c != d ==> chunks[c].index != chunks[d].index
    requires taken == set c | c in at :: chunks[c].index
    ensures |taken| == |at|
    decreases at
  {
    if at == {} {
    } else {
      var c :| c in at;
      var rest := set d | d in at - {c} :: chunks[d].index;
      ImageSize(chunks, at - {c}, rest);
      assert taken == rest + {chunks[c].index};
    }
  }
}
