/**
 Bounded preparation of a project for a report
 (app/services/research_pipeline_orchestrator_service.py:386-536): chunk what is not chunked, count
 what extraction would cost, stop when enough is prepared or the cap is exceeded, extract, aggregate.
 */
module Prepare {
  import opened Text
  import opened Sorting
  import opened Store
  import opened Dedup
  import opened Aggregation
  import opened Pipeline

  /** What the first phase notes for a source; a skipped source has no chunks noted. */
  datatype Entry = Entry(src: Src, counted: nat, existing: nat)

  datatype Prep = Ready(db: Db, entries: seq<Entry>) | Failed(calls: seq<Id>)

  datatype Verdict = ProjectNotFound | AutoPrepareDisabled | PreparedSignalsUsed | CapExceeded | Extracted

  datatype Outcome = Finished(db: Db, verdict: Verdict) | Aborted(calls: seq<Id>)

  /** A document with text, or an audio with a completed transcript. */
  predicate Eligible(db: Db, src: Src) {
    match src
    case Doc(d) => d in db.sources.documents && Strip(db.sources.documents[d].rawText) != ""
    case Aud(a) => a in db.sources.audios && LatestTranscript(db.sources, a, db.next).Some?
  }

  function ChunkSrc(env: Env, db: Db, src: Src): Step
    requires Eligible(db, src)
  {
    if SrcChunks(db, src) != {} then Done(db, |SrcChunks(db, src)|)
    else
      match src
      case Doc(d) => ChunkDocument(env, db, d)
      case Aud(a) => ChunkTranscript(env, db, LatestTranscript(db.sources, a, db.next).value)
  }

  function PrepareOne(env: Env, db: Db, src: Src): (r: Prep)
    ensures r.Ready? ==> |r.entries| == 1
  {
    if !Eligible(db, src) then Ready(db, [Entry(src, 0, 0)])
    else
      var step := ChunkSrc(env, db, src);
      if step.Raised? then Failed(step.calls)
      else Ready(step.db, [Entry(src, step.count, |SrcEntities(step.db, src)|)])
  }

  /** The first `n` sources. */
  function ChunkPhase(env: Env, db: Db, srcs: seq<Src>, n: nat): (r: Prep)
    requires n <= |srcs|
    ensures r.Ready? ==> |r.entries| == n
  {
    if n == 0 then Ready(db, [])
    else
      var before := ChunkPhase(env, db, srcs, n - 1);
      if before.Failed? then before
      else
        var one := PrepareOne(env, before.db, srcs[n - 1]);
        if one.Failed? then one else Ready(one.db, before.entries + one.entries)
  }

  predicate Needs(e: Entry) { e.counted > 0 && e.existing == 0 }

  /** Number of chunks that extraction would send to the provider. */
  function Needed(entries: seq<Entry>, n: nat): nat
    requires n <= |entries|
  {
    if n == 0 then 0 else Needed(entries, n - 1) + if Needs(entries[n - 1]) then entries[n - 1].counted else 0
  }

  function ExtractSrc(env: Env, db: Db, src: Src, now: int): Step {
    match src
    case Doc(d) => ExtractDocument(env, db, d, now)
    case Aud(a) => ExtractAudio(env, db, a, now)
  }

  function ExtractPhase(env: Env, db: Db, entries: seq<Entry>, n: nat, now: int): Step
    requires n <= |entries|
  {
    if n == 0 then Done(db, 0)
    else
      var before := ExtractPhase(env, db, entries, n - 1, now);
      if before.Raised? || !Needs(entries[n - 1]) then before
      else
        var one := ExtractSrc(env, before.db, entries[n - 1].src, now);
        if one.Raised? then one else Done(one.db, before.count + one.count)
  }

  function DocumentIds(s: Sources, next: nat, project: Id): seq<Id> {
    Listing(next, (d: Id) => d in s.documents && s.documents[d].project == project)
  }

  function AudioIds(s: Sources, next: nat, project: Id): seq<Id> {
    Listing(next, (a: Id) => a in s.audios && s.audios[a].project == project)
  }

  /** Documents first, then audios. */
  function Srcs(documents: seq<Id>, audios: seq<Id>): (r: seq<Src>)
    ensures |r| == |documents| + |audios|
    ensures forall i :: 0 <= i < |documents| ==> r[i] == Doc(documents[i])
    ensures forall j :: 0 <= j < |audios| ==> r[|documents| + j] == Aud(audios[j])
  {
    seq(|documents| + |audios|, i requires 0 <= i < |documents| + |audios| =>
      if i < |documents| then Doc(documents[i]) else Aud(audios[i - |documents|]))
  }

  function ProjectSrcs(db: Db, project: Id): seq<Src> {
    Srcs(DocumentIds(db.sources, db.next, project), AudioIds(db.sources, db.next, project))
  }

  function PrEntities(env: Env, db: Db, project: Id): set<Id> {
    set e | e in db.entities && db.entities[e].project == project && db.entities[e].content.kind in env.prKinds
  }

  lemma OrderedAllIn(entities: Entities, project: Id, rank: Rank, next: nat)
    ensures AllIn(entities, Ordered(entities, project, rank, next)) && Distinct(Ordered(entities, project, rank, next))
  {
    var p := (e: Id) => InProject(entities, project, e);
    ListingExactly(next, p);
    SortKeepsMembers(Listing(next, p), Earlier(entities, rank));
    SortKeepsDistinct(Listing(next, p), Earlier(entities, rank));
  }

  /** Aggregation links the project's rows, when there are any. */
  function Aggregated(env: Env, db: Db, project: Id): Db {
    if Rows(db.entities, project) == {} then db
    else
      OrderedAllIn(db.entities, project, env.rank, db.next);
      db.(entities := Deduped(db.entities, env.key, Ordered(db.entities, project, env.rank, db.next)))
  }

  function PrepareProject(env: Env, db: Db, project: Id, cap: int, auto: bool, now: int): Outcome {
    if project !in db.sources.projects then Finished(db, ProjectNotFound)
    else if !auto then Finished(db, AutoPrepareDisabled)
    else
      var srcs := ProjectSrcs(db, project);
      var prep := ChunkPhase(env, db, srcs, |srcs|);
      if prep.Failed? then Aborted(prep.calls)
      else if |PrEntities(env, prep.db, project)| >= env.minPrEntities
      then Finished(Aggregated(env, prep.db, project), PreparedSignalsUsed)
      else if env.gpt && Needed(prep.entries, |prep.entries|) > cap then Finished(prep.db, CapExceeded)
      else
        var step := ExtractPhase(env, prep.db, prep.entries, |prep.entries|, now);
        if step.Raised? then Aborted(step.calls) else Finished(Aggregated(env, step.db, project), Extracted)
  }

  function CallsOf(db: Db, outcome: Outcome): seq<Id> {
    if outcome.Finished? then outcome.db.calls else outcome.calls
  }

  // ----- scopes

  /** A row belongs to at most one source. */
  lemma OneSource(s: Sources, o: Origin, src: Src, other: Src)
    requires ExactlyOne(o) && InSrc(s, o, src) && InSrc(s, o, other)
    ensures src == other
  {
  }

  lemma {:induction false} LatestIgnoresHigherIds(s: Sources, a: Id, n: nat, m: nat)
    requires n <= m && forall t :: t in s.transcripts ==> t < n
    ensures LatestTranscript(s, a, m) == LatestTranscript(s, a, n)
    decreases m
  {
    if m <= n {
    } else {
      LatestIgnoresHigherIds(s, a, n, m - 1);
    }
  }

  /** Eligibility depends on the source tables only. */
  lemma SameEligible(db: Db, after: Db, src: Src)
    requires db.sources == after.sources && db.next <= after.next && SourcesBelow(db.sources, db.next)
    ensures Eligible(db, src) <==> Eligible(after, src)
    ensures src.Aud? ==> LatestTranscript(db.sources, src.id, db.next) == LatestTranscript(after.sources, src.id, after.next)
  {
    if src.Aud? {
      LatestIgnoresHigherIds(db.sources, src.id, db.next, after.next);
    }
  }

  // ----- first phase

  /** The tables differ at most by new chunks of one source. */
  predicate OnlyChunksAdded(db: Db, after: Db, src: Src) {
    && after.sources == db.sources && after.entities == db.entities && after.calls == db.calls && db.next <= after.next
    && (forall c :: c in db.chunks ==> c in after.chunks && after.chunks[c] == db.chunks[c])
    && (forall c :: c in after.chunks && c !in db.chunks ==> InSrc(db.sources, after.chunks[c].origin, src))
  }

  lemma AddedChunks(db: Db, project: Id, origin: Origin, texts: seq<string>, src: Src)
    requires Below(db.chunks, db.next) && InSrc(db.sources, origin, src) && SrcChunks(db, src) == {} && texts != []
    ensures var after := WithChunks(db, project, origin, texts);
            OnlyChunksAdded(db, after, src) && |SrcChunks(after, src)| == |texts|
  {
    var after := WithChunks(db, project, origin, texts);
    var added := NewChunks(project, origin, texts, db.next);
    assert forall c :: c in added ==> c !in db.chunks;
    RangeMembers(db.next, |texts|);
    hide Range;
    assert SrcChunks(after, src) == Range(db.next, |texts|) by {
      forall c ensures c in SrcChunks(after, src) <==> c in Range(db.next, |texts|) {
        if c in added {
          assert after.chunks[c] == added[c];
        } else if c in db.chunks {
          assert after.chunks[c] == db.chunks[c];
          assert c !in SrcChunks(db, src);
        }
      }
    }
  }

  lemma ChunkSrcFacts(env: Env, db: Db, src: Src)
    requires Inv(db) && Eligible(db, src)
    ensures var step := ChunkSrc(env, db, src);
            && (step.Raised? ==> step.calls == db.calls)
            && (step.Done? ==>
                  Inv(step.db) && OnlyChunksAdded(db, step.db, src) && step.count == |SrcChunks(step.db, src)| > 0)
            && (SrcChunks(db, src) != {} ==> step.Done? && step.db == db)
  {
    if SrcChunks(db, src) == {} {
      match src {
        case Doc(d) => ChunkDocFacts(env, db, d);
        case Aud(a) => ChunkAudFacts(env, db, a);
      }
    }
  }

  lemma ChunkDocFacts(env: Env, db: Db, d: Id)
    requires Inv(db) && Eligible(db, Doc(d)) && SrcChunks(db, Doc(d)) == {}
    ensures var step := ChunkDocument(env, db, d);
            step.Done? && Inv(step.db) && OnlyChunksAdded(db, step.db, Doc(d)) && step.count == |SrcChunks(step.db, Doc(d))| > 0
  {
    var text := Strip(db.sources.documents[d].rawText);
    PartsOfStripped(env, db.sources.documents[d].rawText);
    ChunkDocumentKeepsInv(env, db, d);
    hide Strip, Parts, SrcChunks, OnlyChunksAdded;
    AddedChunks(db, db.sources.documents[d].project, DocumentOrigin(d), Parts(env, text), Doc(d));
  }

  lemma ChunkAudFacts(env: Env, db: Db, a: Id)
    requires Inv(db) && Eligible(db, Aud(a)) && SrcChunks(db, Aud(a)) == {}
    ensures var step := ChunkTranscript(env, db, LatestTranscript(db.sources, a, db.next).value);
            && (step.Raised? ==> step.calls == db.calls)
            && (step.Done? ==> Inv(step.db) && OnlyChunksAdded(db, step.db, Aud(a)) && step.count == |SrcChunks(step.db, Aud(a))| > 0)
  {
    LatestIsOfAudio(db.sources, a, db.next);
    var t := LatestTranscript(db.sources, a, db.next).value;
    var step := ChunkTranscript(env, db, t);
    ChunkTranscriptKeepsInv(env, db, t);
    if step.Done? {
      assert TranscriptChunks(db, t) <= SrcChunks(db, Aud(a));
      assert TranscriptChunks(db, t) == {};
      NoneDropped(db);
      PartsOfStripped(env, db.sources.transcripts[t].base);
      hide Strip, Parts, SrcChunks, OnlyChunksAdded, LatestTranscript, WithoutChunks;
      AddedChunks(db, db.sources.audios[a].project, TranscriptOrigin(t), Parts(env, Strip(db.sources.transcripts[t].base)), Aud(a));
    }
  }

  /** The note of a source is what the tables say about it. */
  predicate EntryOk(db: Db, e: Entry) {
    if Eligible(db, e.src)
    then e.counted == |SrcChunks(db, e.src)| > 0 && e.existing == |SrcEntities(db, e.src)|
    else e.counted == 0 && e.existing == 0
  }

  lemma PrepareOneFacts(env: Env, db: Db, src: Src)
    requires Inv(db)
    ensures var r := PrepareOne(env, db, src);
            && (r.Failed? ==> r.calls == db.calls)
            && (r.Ready? ==> Inv(r.db) && OnlyChunksAdded(db, r.db, src) && r.entries[0].src == src && EntryOk(r.db, r.entries[0]))
            && (SrcChunks(db, src) != {} ==> r.Ready? && r.db == db)
  {
    hide ChunkSrc, SrcChunks, SrcEntities, LinksOk, IndicesOk, ChunksOk, EntitiesOk;
    if Eligible(db, src) {
      ChunkSrcFacts(env, db, src);
      var r := PrepareOne(env, db, src);
      if r.Ready? {
        SameEligible(db, r.db, src);
      }
    }
  }

  /** Chunking one source leaves what was noted about another as it is. */
  lemma OthersStayNoted(db: Db, after: Db, src: Src, e: Entry)
    requires Inv(db) && Inv(after) && OnlyChunksAdded(db, after, src) && e.src != src && EntryOk(db, e)
    ensures EntryOk(after, e)
  {
    SameEligible(db, after, e.src);
    hide Eligible, Strip, LinksOk, IndicesOk;
    forall c ensures c in SrcChunks(after, e.src) <==> c in SrcChunks(db, e.src) {
      if c in after.chunks && c !in db.chunks {
        assert ChunkOk(after.sources, after.chunks[c]);
        if InSrc(after.sources, after.chunks[c].origin, e.src) {
          OneSource(after.sources, after.chunks[c].origin, src, e.src);
        }
      }
    }
    assert SrcChunks(after, e.src) == SrcChunks(db, e.src);
    assert SrcEntities(after, e.src) == SrcEntities(db, e.src);
  }

  predicate ChunksKept(db: Db, after: Db) {
    forall c :: c in db.chunks ==> c in after.chunks && after.chunks[c] == db.chunks[c]
  }

  predicate Noted(db: Db, entries: seq<Entry>, srcs: seq<Src>) {
    && |entries| <= |srcs|
    && (forall i :: 0 <= i < |entries| ==> entries[i].src == srcs[i] && EntryOk(db, entries[i]))
  }

  lemma {:induction false} ChunkPhaseFacts(env: Env, db: Db, srcs: seq<Src>, n: nat)
    requires Inv(db) && n <= |srcs| && Distinct(srcs)
    ensures var r := ChunkPhase(env, db, srcs, n);
            && (r.Failed? ==> r.calls == db.calls)
            && (r.Ready? ==>
                  && Inv(r.db) && Noted(r.db, r.entries, srcs)
                  && r.db.sources == db.sources && r.db.entities == db.entities && r.db.calls == db.calls
                  && db.next <= r.db.next && ChunksKept(db, r.db))
  {
    hide PrepareOne, EntryOk, Inv;
    if n == 0 {
    } else {
      ChunkPhaseFacts(env, db, srcs, n - 1);
      var before := ChunkPhase(env, db, srcs, n - 1);
      if before.Ready? {
        var one := PrepareOne(env, before.db, srcs[n - 1]);
        PrepareOneFacts(env, before.db, srcs[n - 1]);
        if one.Ready? {
          forall i | 0 <= i < n - 1 ensures EntryOk(one.db, before.entries[i]) {
            OthersStayNoted(before.db, one.db, srcs[n - 1], before.entries[i]);
          }
        }
      }
    }
  }

  /** Every source that can have chunks has some. */
  predicate Settled(db: Db, srcs: seq<Src>) {
    forall i :: 0 <= i < |srcs| ==> (Eligible(db, srcs[i]) ==> SrcChunks(db, srcs[i]) != {})
  }

  lemma NotedMeansSettled(db: Db, entries: seq<Entry>, srcs: seq<Src>)
    requires Noted(db, entries, srcs) && |entries| == |srcs|
    ensures Settled(db, srcs)
  {
  }

  /** On settled tables the first phase changes nothing. */
  lemma {:induction false} SettledPhase(env: Env, db: Db, srcs: seq<Src>, n: nat)
    requires Inv(db) && n <= |srcs| && Settled(db, srcs)
    ensures var r := ChunkPhase(env, db, srcs, n); r.Ready? && r.db == db
  {
    hide Inv, ChunkSrc, SrcChunks, Eligible;
    if n == 0 {
    } else {
      SettledPhase(env, db, srcs, n - 1);
      PrepareOneFacts(env, db, srcs[n - 1]);
    }
  }

  // ----- second phase

  /** Extraction adds entities of one source and nothing else; it sends chunks of that source only. */
  predicate OnlyEntitiesAdded(db: Db, after: Db, src: Src) {
    && after.sources == db.sources && after.chunks == db.chunks && db.next <= after.next
    && (forall e :: e in db.entities ==> e in after.entities && after.entities[e] == db.entities[e])
    && (forall e :: e in after.entities && e !in db.entities ==> InSrc(db.sources, after.entities[e].origin, src))
  }

  lemma NewRowsOfSource(db: Db, calls: seq<Id>, c: Id, contents: seq<Content>, now: int, src: Src)
    requires Inv(db) && c in db.chunks && InSrc(db.sources, db.chunks[c].origin, src) && contents != []
    ensures var after := WithEntities(db.(calls := calls), c, contents, now);
            OnlyEntitiesAdded(db, after, src) && SrcEntities(after, src) != {} && after.calls == calls
  {
    NewIdsAreNew(db, |contents|);
    hide Inv, InSrc;
    var after := WithEntities(db.(calls := calls), c, contents, now);
    var added := NewEntities(c, db.chunks[c], contents, now, db.next);
    assert db.next in added && after.entities == db.entities + added;
    assert db.next in SrcEntities(after, src);
  }

  lemma ExtractOneFacts(env: Env, db: Db, c: Id, now: int, src: Src)
    requires Inv(db) && c in db.chunks && InSrc(db.sources, db.chunks[c].origin, src)
    ensures var r := ExtractOne(env, db, c, now);
            && (r.Raised? ==> r.calls == db.calls + [c])
            && (r.Done? ==> Inv(r.db) && OnlyEntitiesAdded(db, r.db, src) && r.db.calls == db.calls + [c]
                            && SrcEntities(r.db, src) != {})
  {
    ExtractOneKeepsInv(env, db, c, now);
    ChunkIsOk(db, c);
    hide Inv, Candidates.Finalized, Strip, InSrc, SrcEntities, OnlyEntitiesAdded, WithEntities;
    var raw := env.provider(db.chunks[c].text, db.chunks[c].index);
    if raw.Some? {
      Candidates.OneToEight(db.chunks[c].text, raw.value, env.tools);
      var contents := Contents(env, Candidates.Finalized(db.chunks[c].text, raw.value, env.tools));
      NewRowsOfSource(db, db.calls + [c], c, contents, now, src);
    }
  }

  lemma ChunkIsOk(db: Db, c: Id)
    requires Inv(db) && c in db.chunks
    ensures ChunkOk(db.sources, db.chunks[c])
  {
  }

  lemma NewIdsAreNew(db: Db, n: nat)
    requires Inv(db)
    ensures forall e :: db.next <= e < db.next + n ==> e !in db.entities
  {
  }

  lemma {:induction false} ExtractChunksFacts(env: Env, db: Db, list: seq<Id>, n: nat, now: int, src: Src)
    requires Inv(db) && n <= |list|
    requires forall c :: c in list ==> c in db.chunks && InSrc(db.sources, db.chunks[c].origin, src)
    ensures var r := ExtractChunks(env, db, list, n, now);
            && (r.Raised? ==> exists k :: 0 <= k <= n && r.calls == db.calls + list[..k])
            && (r.Done? ==> Inv(r.db) && OnlyEntitiesAdded(db, r.db, src) && r.db.calls == db.calls + list[..n]
                            && (n > 0 ==> SrcEntities(r.db, src) != {}))
  {
    hide Inv, ExtractOne, SrcEntities;
    if n == 0 {
    } else {
      ExtractChunksFacts(env, db, list, n - 1, now, src);
      var before := ExtractChunks(env, db, list, n - 1, now);
      if before.Done? {
        assert list[n - 1] in list;
        ExtractOneFacts(env, before.db, list[n - 1], now, src);
        assert list[..n] == list[..n - 1] + [list[n - 1]];
        assert db.calls + list[..n] == db.calls + list[..n - 1] + [list[n - 1]];
      }
    }
  }

  /** Extracting a source that has chunks and no entities: nothing is deleted, its chunks are sent in order. */
  lemma ExtractSrcFacts(env: Env, db: Db, src: Src, now: int)
    requires Inv(db) && Eligible(db, src) && SrcChunks(db, src) != {} && SrcEntities(db, src) == {}
    ensures var r, list := ExtractSrc(env, db, src, now), ListOf(db, SrcChunks(db, src));
            && (r.Raised? ==> exists k :: 0 <= k <= |list| && r.calls == db.calls + list[..k])
            && (r.Done? ==> Inv(r.db) && OnlyEntitiesAdded(db, r.db, src) && r.db.calls == db.calls + list
                            && SrcEntities(r.db, src) != {})
  {
    var list := ListOf(db, SrcChunks(db, src));
    SendsItsChunks(env, db, src, now);
    hide Inv, SrcChunks, SrcEntities, ExtractSrc, Eligible, ExtractChunks, OnlyEntitiesAdded;
    ExtractChunksFacts(env, db, list, |list|, now, src);
    assert list[..|list|] == list;
  }

  /** Extraction of such a source comes down to sending its chunks one by one. */
  lemma SendsItsChunks(env: Env, db: Db, src: Src, now: int)
    requires Inv(db) && Eligible(db, src) && SrcChunks(db, src) != {} && SrcEntities(db, src) == {}
    ensures var list := ListOf(db, SrcChunks(db, src));
            && list != []
            && (forall c :: c in list ==> c in db.chunks && InSrc(db.sources, db.chunks[c].origin, src))
            && ExtractSrc(env, db, src, now) == ExtractChunks(env, db, list, |list|, now)
  {
    var chunks := SrcChunks(db, src);
    ListOfExactly(db, chunks);
    SameTable(WithoutEntities(db.entities, {}), db.entities);
    hide Inv, ExtractChunks, InSrc;
    assert DropEntities(db, {}) == db;
    assert ExtractSrc(env, db, src, now) == ExtractScope(env, db, chunks, {}, now);
  }

  /** The new calls are few enough, for chunks of sources that needed extraction, and all different. */
  predicate Sent(db: Db, entries: seq<Entry>, n: nat, calls: seq<Id>)
    requires n <= |entries|
  {
    && db.calls <= calls && |calls| - |db.calls| <= Needed(entries, n)
    && (forall i :: |db.calls| <= i < |calls| ==> OfNeeded(db, entries, n, calls[i]))
    && Distinct(calls[|db.calls|..])
  }

  predicate OfNeeded(db: Db, entries: seq<Entry>, n: nat, c: Id)
    requires n <= |entries|
  {
    exists i :: 0 <= i < n && Needs(entries[i]) && c in SrcChunks(db, entries[i].src)
  }

  /** Chunks and sources stay, entities are only added. */
  predicate Extended(db: Db, after: Db) {
    && after.sources == db.sources && after.chunks == db.chunks && db.next <= after.next
    && (forall e :: e in db.entities ==> e in after.entities && after.entities[e] == db.entities[e])
  }

  lemma SentMore(db: Db, entries: seq<Entry>, n: nat, calls: seq<Id>, list: seq<Id>, k: nat)
    requires n < |entries| && Sent(db, entries, n, calls) && k <= |list| == entries[n].counted
    requires Needs(entries[n]) && Distinct(list)
    requires forall c :: c in list ==> c in SrcChunks(db, entries[n].src) && !OfNeeded(db, entries, n, c)
    ensures Sent(db, entries, n + 1, calls + list[..k])
  {
    hide SrcChunks;
    var more, before, added := calls + list[..k], calls[|db.calls|..], list[..k];
    forall i | |db.calls| <= i < |more| ensures OfNeeded(db, entries, n + 1, more[i]) {
      if i < |calls| {
        assert OfNeeded(db, entries, n, calls[i]);
      } else {
        assert more[i] == list[i - |calls|] && more[i] in list;
      }
    }
    assert more[|db.calls|..] == before + added;
    forall c | c in before ensures c !in added {
      var i :| 0 <= i < |before| && before[i] == c;
      assert OfNeeded(db, entries, n, calls[|db.calls| + i]);
    }
    ConcatKeepsDistinct(before, added);
  }

  lemma ConcatKeepsDistinct(a: seq<Id>, b: seq<Id>)
    requires Distinct(a) && Distinct(b) && forall c :: c in a ==> c !in b
    ensures Distinct(a + b)
  {
    assert Members(a) !! Members(b);
    ConcatDistinct(a, b);
  }

  /** A chunk of this source is not one of a source before it. */
  lemma NotOfEarlier(db: Db, entries: seq<Entry>, srcs: seq<Src>, n: nat, c: Id)
    requires Inv(db) && n < |entries| && Noted(db, entries, srcs) && Distinct(srcs) && c in SrcChunks(db, entries[n].src)
    ensures !OfNeeded(db, entries, n, c)
  {
    hide EntryOk, Strip;
    assert ChunkOk(db.sources, db.chunks[c]);
    forall i | 0 <= i < n ensures c !in SrcChunks(db, entries[i].src) {
      if c in SrcChunks(db, entries[i].src) {
        OneSource(db.sources, db.chunks[c].origin, entries[i].src, entries[n].src);
      }
    }
  }

  /** The sources up to `n` that needed entities have some; the later ones have what they had. */
  predicate Filled(db: Db, after: Db, entries: seq<Entry>, n: nat)
    requires n <= |entries|
  {
    && (forall i :: 0 <= i < n && Needs(entries[i]) ==> SrcEntities(after, entries[i].src) != {})
    && (forall i :: n <= i < |entries| ==> SrcEntities(after, entries[i].src) == SrcEntities(db, entries[i].src))
  }

  lemma EntitiesOfOthers(db: Db, after: Db, src: Src, other: Src)
    requires Inv(db) && Inv(after) && OnlyEntitiesAdded(db, after, src)
    ensures other != src ==> SrcEntities(after, other) == SrcEntities(db, other)
    ensures SrcEntities(db, other) <= SrcEntities(after, other)
  {
  }

  lemma FilledMore(db: Db, before: Db, after: Db, entries: seq<Entry>, srcs: seq<Src>, n: nat)
    requires Inv(before) && Inv(after) && n < |entries| && Noted(db, entries, srcs) && Distinct(srcs)
    requires Filled(db, before, entries, n) && OnlyEntitiesAdded(before, after, entries[n].src)
    requires SrcEntities(after, entries[n].src) != {}
    ensures Filled(db, after, entries, n + 1)
  {
    hide Inv, SrcEntities, OnlyEntitiesAdded, EntryOk;
    forall i | 0 <= i < |entries|
      ensures i != n ==> (i > n ==> SrcEntities(after, entries[i].src) == SrcEntities(db, entries[i].src))
      ensures i < n && Needs(entries[i]) ==> SrcEntities(after, entries[i].src) != {}
    {
      EntitiesOfOthers(before, after, entries[n].src, entries[i].src);
    }
  }

  lemma ExtendedMore(db: Db, before: Db, after: Db, src: Src)
    requires Extended(db, before) && OnlyEntitiesAdded(before, after, src)
    ensures Extended(db, after)
  {
  }

  /** What holds after the first `n` sources. */
  ghost predicate PhaseOk(db: Db, entries: seq<Entry>, n: nat, r: Step)
    requires n <= |entries|
  {
    && (r.Raised? ==> Sent(db, entries, n, r.calls))
    && (r.Done? ==> Inv(r.db) && Sent(db, entries, n, r.db.calls) && Extended(db, r.db) && Filled(db, r.db, entries, n))
  }

  lemma PhaseSkips(db: Db, entries: seq<Entry>, n: nat, r: Step)
    requires n < |entries| && PhaseOk(db, entries, n, r) && (r.Raised? || !Needs(entries[n]))
    ensures PhaseOk(db, entries, n + 1, r)
  {
  }

  /** The tables still say about the next source what was noted. */
  lemma StillNoted(db: Db, before: Db, entries: seq<Entry>, n: nat)
    requires Inv(db) && n < |entries| && EntryOk(db, entries[n]) && Needs(entries[n])
    requires Extended(db, before) && Filled(db, before, entries, n)
    ensures var src := entries[n].src;
            && Eligible(before, src) && SrcEntities(before, src) == {}
            && SrcChunks(before, src) == SrcChunks(db, src) && |SrcChunks(db, src)| == entries[n].counted
  {
    SameEligible(db, before, entries[n].src);
  }

  lemma PhaseExtracts(env: Env, db: Db, entries: seq<Entry>, srcs: seq<Src>, n: nat, before: Db, now: int)
    requires Inv(db) && n < |entries| && Noted(db, entries, srcs) && Distinct(srcs) && Needs(entries[n])
    requires Inv(before) && Sent(db, entries, n, before.calls) && Extended(db, before) && Filled(db, before, entries, n)
    ensures var one := ExtractSrc(env, before, entries[n].src, now);
            && (one.Raised? ==> Sent(db, entries, n + 1, one.calls))
            && (one.Done? ==> Inv(one.db) && Sent(db, entries, n + 1, one.db.calls) && Extended(db, one.db)
                              && Filled(db, one.db, entries, n + 1))
  {
    var src := entries[n].src;
    assert EntryOk(db, entries[n]);
    StillNoted(db, before, entries, n);
    var list := ListOf(before, SrcChunks(before, src));
    ListOfExactly(before, SrcChunks(before, src));
    forall c | c in list ensures !OfNeeded(db, entries, n, c) {
      NotOfEarlier(db, entries, srcs, n, c);
    }
    hide Inv, SrcChunks, SrcEntities, Sent, OfNeeded, Filled, ExtractSrc, Eligible, EntryOk, Extended, OnlyEntitiesAdded, Noted, Distinct;
    ExtractSrcFacts(env, before, src, now);
    var one := ExtractSrc(env, before, src, now);
    if one.Raised? {
      var k :| 0 <= k <= |list| && one.calls == before.calls + list[..k];
      SentMore(db, entries, n, before.calls, list, k);
    } else {
      assert list[..|list|] == list;
      SentMore(db, entries, n, before.calls, list, |list|);
      FilledMore(db, before, one.db, entries, srcs, n);
      ExtendedMore(db, before, one.db, src);
    }
  }

  lemma PhaseStarts(db: Db, entries: seq<Entry>)
    requires Inv(db)
    ensures PhaseOk(db, entries, 0, Done(db, 0))
  {
  }

  lemma {:induction false} ExtractPhaseFacts(env: Env, db: Db, entries: seq<Entry>, srcs: seq<Src>, n: nat, now: int)
    requires Inv(db) && n <= |entries| && Noted(db, entries, srcs) && Distinct(srcs)
    ensures PhaseOk(db, entries, n, ExtractPhase(env, db, entries, n, now))
  {
    hide Inv, Sent, Extended, Filled, ExtractSrc, Noted;
    if n == 0 {
      PhaseStarts(db, entries);
    } else {
      ExtractPhaseFacts(env, db, entries, srcs, n - 1, now);
      var before := ExtractPhase(env, db, entries, n - 1, now);
      if before.Raised? || !Needs(entries[n - 1]) {
        PhaseSkips(db, entries, n - 1, before);
      } else {
        PhaseExtracts(env, db, entries, srcs, n - 1, before.db, now);
      }
    }
  }

  // ----- the whole call

  lemma ProjectSrcsDistinct(db: Db, project: Id)
    ensures Distinct(ProjectSrcs(db, project))
  {
    var s := db.sources;
    ListingExactly(db.next, (d: Id) => d in s.documents && s.documents[d].project == project);
    ListingExactly(db.next, (a: Id) => a in s.audios && s.audios[a].project == project);
  }

  lemma {:induction false} ListingIgnoresHigherIds(n: nat, m: nat, p: Id -> bool)
    requires n <= m && forall id: Id :: n <= id < m ==> !p(id)
    ensures Listing(m, p) == Listing(n, p)
    decreases m
  {
    if m <= n {
    } else {
      ListingIgnoresHigherIds(n, m - 1, p);
    }
  }

  lemma SameProjectSrcs(db: Db, after: Db, project: Id)
    requires after.sources == db.sources && db.next <= after.next && SourcesBelow(db.sources, db.next)
    ensures ProjectSrcs(after, project) == ProjectSrcs(db, project)
  {
    var s := db.sources;
    ListingIgnoresHigherIds(db.next, after.next, (d: Id) => d in s.documents && s.documents[d].project == project);
    ListingIgnoresHigherIds(db.next, after.next, (a: Id) => a in s.audios && s.audios[a].project == project);
  }

  /** Aggregation touches canonical links only. */
  predicate OnlyLinksChanged(db: Db, after: Db) {
    && after == db.(entities := after.entities) && after.entities.Keys == db.entities.Keys
    && (forall e :: e in db.entities ==> Erased(after.entities[e]) == Erased(db.entities[e]))
  }

  lemma AggregatedFacts(env: Env, db: Db, project: Id)
    requires Inv(db) && Injective(env.rank)
    ensures Inv(Aggregated(env, db, project)) && OnlyLinksChanged(db, Aggregated(env, db, project))
    ensures Canonical(Aggregated(env, db, project).entities, project, env.key, env.rank)
    ensures SameButLinks(db.entities, Aggregated(env, db, project).entities, project)
  {
    if Rows(db.entities, project) != {} {
      var ids := Ordered(db.entities, project, env.rank, db.next);
      OrderedAllIn(db.entities, project, env.rank, db.next);
      OrderedIsOrdered(db.entities, project, env.rank, db.next);
      hide Inv, Ordered, IsOrdered, Deduped, Canonical;
      DedupKeepsInv(db, project, env.key, env.rank, ids);
      InvHasLinks(db);
      DedupedIsCanonical(db.entities, project, env.key, env.rank, ids);
    }
  }

  lemma InvHasLinks(db: Db)
    requires Inv(db)
    ensures LinksOk(db.entities) && Below(db.entities, db.next)
  {
  }

  /** The calls so far stay; the new ones are for different chunks, none of a source that had entities. */
  ghost predicate NothingTwice(db: Db, calls: seq<Id>) {
    && db.calls <= calls && Distinct(calls[|db.calls|..])
    && (forall i, src :: |db.calls| <= i < |calls| && SrcEntities(db, src) != {} ==> calls[i] !in SrcChunks(db, src))
  }

  lemma NeededChunkWasBare(db: Db, prep: Db, e: Entry, src: Src, c: Id)
    requires Inv(prep) && EntryOk(prep, e) && Needs(e) && c in SrcChunks(prep, e.src)
    requires prep.sources == db.sources && prep.entities == db.entities && ChunksKept(db, prep)
    requires SrcEntities(db, src) != {}
    ensures c !in SrcChunks(db, src)
  {
  }

  lemma SentIsNothingTwice(db: Db, prep: Db, entries: seq<Entry>, srcs: seq<Src>, calls: seq<Id>)
    requires Inv(prep) && Noted(prep, entries, srcs) && Sent(prep, entries, |entries|, calls)
    requires prep.sources == db.sources && prep.entities == db.entities && ChunksKept(db, prep) && prep.calls == db.calls
    ensures NothingTwice(db, calls)
  {
    hide Inv, SrcChunks, SrcEntities, EntryOk, ChunksKept;
    forall i, src | |db.calls| <= i < |calls| && SrcEntities(db, src) != {} ensures calls[i] !in SrcChunks(db, src) {
      assert OfNeeded(prep, entries, |entries|, calls[i]);
      var j :| 0 <= j < |entries| && Needs(entries[j]) && calls[i] in SrcChunks(prep, entries[j].src);
      NeededChunkWasBare(db, prep, entries[j], src, calls[i]);
    }
  }

  lemma NothingTwiceYet(db: Db)
    ensures NothingTwice(db, db.calls)
  {
  }

  /** Every entity row is still there; only its canonical link may differ. */
  predicate RowsKept(db: Db, after: Db) {
    forall e :: e in db.entities ==> e in after.entities && Erased(after.entities[e]) == Erased(db.entities[e])
  }

  lemma NoCallsWithoutExtraction(env: Env, db: Db, project: Id, cap: int, auto: bool, now: int)
    requires Inv(db) && Injective(env.rank)
    ensures var r := PrepareProject(env, db, project, cap, auto, now);
            r.Finished? && r.verdict != Extracted ==> r.db.calls == db.calls && Inv(r.db) && RowsKept(db, r.db)
  {
    hide Inv, ChunkPhase, Aggregated, ProjectSrcs, ExtractPhase, PrEntities, Noted;
    var srcs := ProjectSrcs(db, project);
    ProjectSrcsDistinct(db, project);
    ChunkPhaseFacts(env, db, srcs, |srcs|);
    var prep := ChunkPhase(env, db, srcs, |srcs|);
    if prep.Ready? {
      AggregatedFacts(env, prep.db, project);
    }
  }

  /**
   Bounded preparation.  With the gpt provider one call sends at most `cap` chunks, and none unless it
   extracts; no chunk of a source that had entities is sent; no entity row is lost; the invariant holds.
   */
  lemma BoundedPreparation(env: Env, db: Db, project: Id, cap: int, auto: bool, now: int)
    requires Inv(db) && Injective(env.rank)
    ensures var r := PrepareProject(env, db, project, cap, auto, now);
            var calls := CallsOf(db, r);
            && NothingTwice(db, calls)
            && (env.gpt ==> |calls| - |db.calls| <= Max(0, cap))
            && (r.Finished? && r.verdict != Extracted ==> calls == db.calls)
            && (r.Finished? ==> Inv(r.db) && RowsKept(db, r.db))
  {
    hide Inv, ChunkPhase, Aggregated, ProjectSrcs, ExtractPhase, PrEntities, Noted, NothingTwice, Filled;
    NoCallsWithoutExtraction(env, db, project, cap, auto, now);
    NothingTwiceYet(db);
    var r, srcs := PrepareProject(env, db, project, cap, auto, now), ProjectSrcs(db, project);
    ProjectSrcsDistinct(db, project);
    ChunkPhaseFacts(env, db, srcs, |srcs|);
    var prep := ChunkPhase(env, db, srcs, |srcs|);
    if prep.Ready? && (r.Finished? ==> r.verdict == Extracted) {
      var n := |prep.entries|;
      ExtractPhaseFacts(env, prep.db, prep.entries, srcs, n, now);
      var step := ExtractPhase(env, prep.db, prep.entries, n, now);
      if step.Done? {
        AggregatedFacts(env, step.db, project);
      }
      SentIsNothingTwice(db, prep.db, prep.entries, srcs, CallsOf(db, r));
    }
  }

  // ----- calling again

  lemma SameNotes(db: Db, entries: seq<Entry>, again: seq<Entry>, srcs: seq<Src>)
    requires Noted(db, entries, srcs) && Noted(db, again, srcs) && |entries| == |again|
    ensures entries == again
  {
  }

  /** No source needs extraction. */
  predicate NoneNeeds(entries: seq<Entry>) {
    forall i :: 0 <= i < |entries| ==> !Needs(entries[i])
  }

  lemma {:induction false} NothingToExtract(env: Env, db: Db, entries: seq<Entry>, n: nat, now: int)
    requires n <= |entries| && NoneNeeds(entries)
    ensures Needed(entries, n) == 0 && ExtractPhase(env, db, entries, n, now) == Done(db, 0)
  {
    if n == 0 {
    } else {
      NothingToExtract(env, db, entries, n - 1, now);
    }
  }

  /** Every source with chunks has entities. */
  predicate AllFilled(db: Db, srcs: seq<Src>) {
    forall i :: 0 <= i < |srcs| && Eligible(db, srcs[i]) ==> SrcChunks(db, srcs[i]) != {} && SrcEntities(db, srcs[i]) != {}
  }

  lemma FilledNotes(db: Db, entries: seq<Entry>, srcs: seq<Src>)
    requires Noted(db, entries, srcs) && AllFilled(db, srcs)
    ensures NoneNeeds(entries)
  {
  }

  lemma PhaseFills(prep: Db, after: Db, entries: seq<Entry>, srcs: seq<Src>)
    requires Inv(prep) && Noted(prep, entries, srcs) && |entries| == |srcs|
    requires Extended(prep, after) && Filled(prep, after, entries, |entries|)
    ensures AllFilled(after, srcs)
  {
    forall i | 0 <= i < |srcs| && Eligible(after, srcs[i])
      ensures SrcChunks(after, srcs[i]) != {} && SrcEntities(after, srcs[i]) != {}
    {
      FillsOne(prep, after, entries, srcs, i);
    }
  }

  lemma FillsOne(prep: Db, after: Db, entries: seq<Entry>, srcs: seq<Src>, i: nat)
    requires Inv(prep) && Noted(prep, entries, srcs) && |entries| == |srcs| && i < |srcs|
    requires Extended(prep, after) && Filled(prep, after, entries, |entries|) && Eligible(after, srcs[i])
    ensures SrcChunks(after, srcs[i]) != {} && SrcEntities(after, srcs[i]) != {}
  {
    SameEligible(prep, after, srcs[i]);
    assert EntryOk(prep, entries[i]);
    assert SrcChunks(after, srcs[i]) == SrcChunks(prep, srcs[i]);
    assert SrcEntities(prep, srcs[i]) <= SrcEntities(after, srcs[i]);
  }

  lemma LinksKeepFilled(env: Env, db: Db, after: Db, project: Id, srcs: seq<Src>)
    requires OnlyLinksChanged(db, after)
    ensures AllFilled(db, srcs) ==> AllFilled(after, srcs)
    ensures Settled(db, srcs) ==> Settled(after, srcs)
    ensures PrEntities(env, after, project) == PrEntities(env, db, project)
  {
  }

  /** After an extraction every source that can have chunks has chunks and entities. */
  lemma ExtractionIsComplete(env: Env, db: Db, project: Id, cap: int, auto: bool, now: int)
    requires Inv(db) && Injective(env.rank)
    ensures var r := PrepareProject(env, db, project, cap, auto, now);
            r.Finished? && r.verdict == Extracted ==> AllFilled(r.db, ProjectSrcs(db, project))
  {
    hide Inv, ChunkPhase, Aggregated, ProjectSrcs, ExtractPhase, PrEntities, Noted, Sent, Filled, Extended, AllFilled;
    var r, srcs := PrepareProject(env, db, project, cap, auto, now), ProjectSrcs(db, project);
    if r.Finished? && r.verdict == Extracted {
      ProjectSrcsDistinct(db, project);
      ChunkPhaseFacts(env, db, srcs, |srcs|);
      var prep := ChunkPhase(env, db, srcs, |srcs|);
      ExtractPhaseFacts(env, prep.db, prep.entries, srcs, |prep.entries|, now);
      var step := ExtractPhase(env, prep.db, prep.entries, |prep.entries|, now);
      PhaseFills(prep.db, step.db, prep.entries, srcs);
      AggregatedFacts(env, step.db, project);
      LinksKeepFilled(env, step.db, r.db, project, srcs);
    }
  }

  /** On settled tables a call makes no provider call if it stops early or finds nothing to extract. */
  lemma CallOnSettled(env: Env, db: Db, project: Id, cap: int, auto: bool, now: int, entries: seq<Entry>)
    requires Inv(db) && Settled(db, ProjectSrcs(db, project))
    requires Noted(db, entries, ProjectSrcs(db, project)) && |entries| == |ProjectSrcs(db, project)|
    requires || |PrEntities(env, db, project)| >= env.minPrEntities
             || (env.gpt && Needed(entries, |entries|) > cap)
             || NoneNeeds(entries)
    ensures var r := PrepareProject(env, db, project, cap, auto, now); r.Finished? && r.db.calls == db.calls
  {
    hide Inv, Settled, ChunkPhase, ProjectSrcs, ExtractPhase, PrEntities, Noted;
    var srcs := ProjectSrcs(db, project);
    ProjectSrcsDistinct(db, project);
    SettledPhase(env, db, srcs, |srcs|);
    ChunkPhaseFacts(env, db, srcs, |srcs|);
    SameNotes(db, entries, ChunkPhase(env, db, srcs, |srcs|).entries, srcs);
    if NoneNeeds(entries) {
      NothingToExtract(env, db, entries, |entries|, now);
    }
  }

  /** Notes about settled tables. */
  lemma NotesExist(env: Env, db: Db, srcs: seq<Src>) returns (entries: seq<Entry>)
    requires Inv(db) && Distinct(srcs) && Settled(db, srcs)
    ensures Noted(db, entries, srcs) && |entries| == |srcs|
  {
    SettledPhase(env, db, srcs, |srcs|);
    ChunkPhaseFacts(env, db, srcs, |srcs|);
    entries := ChunkPhase(env, db, srcs, |srcs|).entries;
  }

  lemma SourcesStay(env: Env, db: Db, project: Id, cap: int, auto: bool, now: int)
    requires Inv(db) && Injective(env.rank)
    ensures var r := PrepareProject(env, db, project, cap, auto, now);
            r.Finished? ==> Inv(r.db) && r.db.sources == db.sources && ProjectSrcs(r.db, project) == ProjectSrcs(db, project)
  {
    BoundedPreparation(env, db, project, cap, auto, now);
    InvSourcesBelow(db);
    hide Inv, ChunkPhase, Aggregated, ProjectSrcs, ExtractPhase, PrEntities, Noted, Sent, Filled, NothingTwice, RowsKept;
    var r, srcs := PrepareProject(env, db, project, cap, auto, now), ProjectSrcs(db, project);
    ProjectSrcsDistinct(db, project);
    ChunkPhaseFacts(env, db, srcs, |srcs|);
    var prep := ChunkPhase(env, db, srcs, |srcs|);
    if prep.Ready? {
      AggregatedFacts(env, prep.db, project);
      ExtractPhaseFacts(env, prep.db, prep.entries, srcs, |prep.entries|, now);
      var step := ExtractPhase(env, prep.db, prep.entries, |prep.entries|, now);
      if step.Done? {
        AggregatedFacts(env, step.db, project);
      }
    }
    if r.Finished? {
      SameProjectSrcs(db, r.db, project);
    }
  }

  lemma InvSourcesBelow(db: Db)
    requires Inv(db)
    ensures SourcesBelow(db.sources, db.next)
  {
  }

  /** Idempotence: after a call that finished, a second call right away makes no provider call. */
  lemma SecondCallIsFree(env: Env, db: Db, project: Id, cap: int, auto: bool, now: int, later: int)
    requires Inv(db) && Injective(env.rank)
    requires PrepareProject(env, db, project, cap, auto, now).Finished?
    ensures var first := PrepareProject(env, db, project, cap, auto, now).db;
            var second := PrepareProject(env, first, project, cap, auto, later);
            second.Finished? && second.db.calls == first.calls
  {
    var r, srcs := PrepareProject(env, db, project, cap, auto, now), ProjectSrcs(db, project);
    SourcesStay(env, db, project, cap, auto, now);
    ProjectSrcsDistinct(db, project);
    if r.verdict == Extracted {
      ExtractionIsComplete(env, db, project, cap, auto, now);
      FilledMeansSettled(r.db, srcs);
      var entries := NotesExist(env, r.db, srcs);
      FilledNotes(r.db, entries, srcs);
      CallOnSettled(env, r.db, project, cap, auto, later, entries);
    } else if r.verdict == PreparedSignalsUsed || r.verdict == CapExceeded {
      SecondCallAfterStop(env, db, project, cap, auto, now, later);
    }
  }

  lemma FilledMeansSettled(db: Db, srcs: seq<Src>)
    requires AllFilled(db, srcs)
    ensures Settled(db, srcs)
  {
  }

  lemma SecondCallAfterStop(env: Env, db: Db, project: Id, cap: int, auto: bool, now: int, later: int)
    requires Inv(db) && Injective(env.rank)
    requires var r := PrepareProject(env, db, project, cap, auto, now);
             && r.Finished? && (r.verdict == PreparedSignalsUsed || r.verdict == CapExceeded)
             && Inv(r.db) && ProjectSrcs(r.db, project) == ProjectSrcs(db, project)
    ensures var first := PrepareProject(env, db, project, cap, auto, now).db;
            var second := PrepareProject(env, first, project, cap, auto, later);
            second.Finished? && second.db.calls == first.calls
  {
    hide Inv, ChunkPhase, Aggregated, ProjectSrcs, ExtractPhase, PrEntities, Noted, Settled, OnlyLinksChanged;
    var r, srcs := PrepareProject(env, db, project, cap, auto, now), ProjectSrcs(db, project);
    ProjectSrcsDistinct(db, project);
    ChunkPhaseFacts(env, db, srcs, |srcs|);
    var prep := ChunkPhase(env, db, srcs, |srcs|);
    NotedMeansSettled(prep.db, prep.entries, srcs);
    if r.verdict == CapExceeded {
      CallOnSettled(env, r.db, project, cap, auto, later, prep.entries);
    } else {
      AggregatedFacts(env, prep.db, project);
      LinksKeepFilled(env, prep.db, r.db, project, srcs);
      var entries := NotesExist(env, r.db, srcs);
      CallOnSettled(env, r.db, project, cap, auto, later, entries);
    }
  }

  // ----- the verdict

  /** A document of the project with text, or an audio of it with a completed transcript. */
  ghost predicate Wanted(s: Sources, project: Id, src: Src) {
    match src
    case Doc(d) => d in s.documents && s.documents[d].project == project && Strip(s.documents[d].rawText) != ""
    case Aud(a) =>
      && a in s.audios && s.audios[a].project == project
      && exists t :: t in s.transcripts && s.transcripts[t].audio == a && s.transcripts[t].completed
  }

  ghost predicate IsBare(db: Db, project: Id, o: Origin) {
    exists src :: Wanted(db.sources, project, src) && InSrc(db.sources, o, src) && SrcEntities(db, src) == {}
  }

  /** The chunks of wanted sources that have no entities yet. */
  ghost function Bare(db: Db, chunks: Chunks, project: Id): set<Id> {
    set c | c in chunks && IsBare(db, project, chunks[c].origin)
  }

  predicate OfProject(s: Sources, project: Id, src: Src) {
    match src
    case Doc(d) => d in s.documents && s.documents[d].project == project
    case Aud(a) => a in s.audios && s.audios[a].project == project
  }

  lemma SrcsExactly(documents: seq<Id>, audios: seq<Id>, src: Src)
    ensures src in Srcs(documents, audios) <==> if src.Doc? then src.id in documents else src.id in audios
  {
    var srcs := Srcs(documents, audios);
    if src.Doc? && src.id in documents {
      var i :| 0 <= i < |documents| && documents[i] == src.id;
      assert srcs[i] == src;
    }
    if src.Aud? && src.id in audios {
      var i :| 0 <= i < |audios| && audios[i] == src.id;
      assert srcs[|documents| + i] == src;
    }
  }

  lemma ProjectSrcsExactly(db: Db, project: Id, src: Src)
    requires SourcesBelow(db.sources, db.next)
    ensures src in ProjectSrcs(db, project) <==> OfProject(db.sources, project, src)
  {
    var s := db.sources;
    ListingExactly(db.next, (d: Id) => d in s.documents && s.documents[d].project == project);
    ListingExactly(db.next, (a: Id) => a in s.audios && s.audios[a].project == project);
    hide Listing, Srcs;
    SrcsExactly(DocumentIds(s, db.next, project), AudioIds(s, db.next, project), src);
  }

  lemma WantedExactly(db: Db, project: Id, src: Src)
    requires SourcesBelow(db.sources, db.next)
    ensures Wanted(db.sources, project, src) <==> src in ProjectSrcs(db, project) && Eligible(db, src)
  {
    ProjectSrcsExactly(db, project, src);
    hide Strip, ProjectSrcs;
    if src.Aud? {
      LatestIsOfAudio(db.sources, src.id, db.next);
      hide LatestTranscript;
    }
  }

  /** What the notes call needed are the bare chunks. */
  lemma BareIsNeeded(db: Db, prep: Db, entries: seq<Entry>, project: Id, c: Id)
    requires Inv(db) && prep.sources == db.sources && prep.entities == db.entities && db.next <= prep.next
    requires Noted(prep, entries, ProjectSrcs(db, project)) && |entries| == |ProjectSrcs(db, project)|
    ensures c in Bare(db, prep.chunks, project) <==> OfNeeded(prep, entries, |entries|, c)
  {
    InvSourcesBelow(db);
    var srcs := ProjectSrcs(db, project);
    hide Inv, ProjectSrcs, Wanted, Eligible, InSrc, SourcesBelow;
    if c in Bare(db, prep.chunks, project) {
      var src :| Wanted(db.sources, project, src) && InSrc(db.sources, prep.chunks[c].origin, src) && SrcEntities(db, src) == {};
      WantedExactly(db, project, src);
      SameEligible(db, prep, src);
      var i :| 0 <= i < |srcs| && srcs[i] == src;
      assert EntryOk(prep, entries[i]) && SrcEntities(prep, src) == SrcEntities(db, src);
      assert Needs(entries[i]) && c in SrcChunks(prep, entries[i].src);
    }
    if OfNeeded(prep, entries, |entries|, c) {
      var i :| 0 <= i < |entries| && Needs(entries[i]) && c in SrcChunks(prep, entries[i].src);
      assert EntryOk(prep, entries[i]) && srcs[i] in srcs;
      WantedExactly(db, project, srcs[i]);
      SameEligible(db, prep, srcs[i]);
      assert SrcEntities(prep, srcs[i]) == SrcEntities(db, srcs[i]);
    }
  }

  function NeededChunks(db: Db, entries: seq<Entry>, n: nat): set<Id>
    requires n <= |entries|
  {
    set c | c in db.chunks && OfNeeded(db, entries, n, c)
  }

  lemma NeededGrows(db: Db, entries: seq<Entry>, n: nat)
    requires n < |entries|
    ensures NeededChunks(db, entries, n + 1) ==
            NeededChunks(db, entries, n) + if Needs(entries[n]) then SrcChunks(db, entries[n].src) else {}
  {
  }

  lemma NoneNeededYet(db: Db, entries: seq<Entry>)
    ensures NeededChunks(db, entries, 0) == {}
  {
  }

  lemma NeededBefore(db: Db, entries: seq<Entry>, srcs: seq<Src>, n: nat)
    requires Inv(db) && n < |entries| && Noted(db, entries, srcs) && Distinct(srcs)
    ensures NeededChunks(db, entries, n) !! SrcChunks(db, entries[n].src)
  {
    hide Inv, Noted, SrcChunks, Distinct, OfNeeded;
    forall c: Id ensures !(c in NeededChunks(db, entries, n) && c in SrcChunks(db, entries[n].src)) {
      if c in SrcChunks(db, entries[n].src) {
        NotOfEarlier(db, entries, srcs, n, c);
      }
    }
  }

  lemma NotedCount(db: Db, entries: seq<Entry>, srcs: seq<Src>, n: nat)
    requires n < |entries| && Noted(db, entries, srcs) && Needs(entries[n])
    ensures |SrcChunks(db, entries[n].src)| == entries[n].counted
  {
    assert EntryOk(db, entries[n]);
  }

  /** The number that is compared with the cap is the number of those chunks. */
  lemma {:induction false} NeededSize(db: Db, entries: seq<Entry>, srcs: seq<Src>, n: nat)
    requires Inv(db) && n <= |entries| && Noted(db, entries, srcs) && Distinct(srcs)
    ensures |NeededChunks(db, entries, n)| == Needed(entries, n)
  {
    hide Inv, Noted, SrcChunks, Distinct, NeededChunks;
    if n == 0 {
      NoneNeededYet(db, entries);
    } else {
      NeededSize(db, entries, srcs, n - 1);
      NeededGrows(db, entries, n - 1);
      if Needs(entries[n - 1]) {
        NotedCount(db, entries, srcs, n - 1);
        NeededBefore(db, entries, srcs, n - 1);
      }
    }
  }

  lemma SendsOwn(env: Env, db: Db, entries: seq<Entry>, srcs: seq<Src>, n: nat, before: Db, now: int)
    requires Inv(db) && n < |entries| && Noted(db, entries, srcs) && Needs(entries[n])
    requires Inv(before) && Extended(db, before) && Filled(db, before, entries, n)
    ensures var one := ExtractSrc(env, before, entries[n].src, now);
            one.Done? ==> && before.calls <= one.db.calls
                          && forall c :: c in SrcChunks(db, entries[n].src) ==> c in one.db.calls[|before.calls|..]
  {
    var src := entries[n].src;
    assert EntryOk(db, entries[n]);
    StillNoted(db, before, entries, n);
    ListOfExactly(before, SrcChunks(before, src));
    hide Inv, SrcChunks, SrcEntities, Filled, ExtractSrc, Eligible, EntryOk, OnlyEntitiesAdded, Noted, Distinct, ListOf;
    ExtractSrcFacts(env, before, src, now);
    var one := ExtractSrc(env, before, src, now);
    if one.Done? {
      assert one.db.calls[|before.calls|..] == ListOf(before, SrcChunks(before, src));
    }
  }

  lemma InSuffix(all: seq<Id>, before: seq<Id>, start: seq<Id>, c: Id)
    requires start <= before <= all
    ensures c in before[|start|..] || c in all[|before|..] ==> c in all[|start|..]
  {
    assert all[|start|..] == before[|start|..] + all[|before|..];
  }

  /** A second phase that ends has sent all of them. */
  lemma {:induction false} SendsAll(env: Env, db: Db, entries: seq<Entry>, srcs: seq<Src>, n: nat, now: int, c: Id)
    requires Inv(db) && n <= |entries| && Noted(db, entries, srcs) && Distinct(srcs)
    requires ExtractPhase(env, db, entries, n, now).Done? && OfNeeded(db, entries, n, c)
    ensures var calls := ExtractPhase(env, db, entries, n, now).db.calls;
            db.calls <= calls && c in calls[|db.calls|..]
  {
    hide Inv, ExtractSrc, Extended, Filled, SrcChunks, Noted, EntryOk, Distinct, Sent;
    if n > 0 {
      var before, all := ExtractPhase(env, db, entries, n - 1, now).db, ExtractPhase(env, db, entries, n, now).db;
      PhaseStands(env, db, entries, srcs, n - 1, now);
      if OfNeeded(db, entries, n - 1, c) {
        SendsAll(env, db, entries, srcs, n - 1, now, c);
      } else {
        assert Needs(entries[n - 1]) && c in SrcChunks(db, entries[n - 1].src);
      }
      if Needs(entries[n - 1]) {
        SendsOwn(env, db, entries, srcs, n - 1, before, now);
        InSuffix(all.calls, before.calls, db.calls, c);
      }
    }
  }

  lemma PhaseStands(env: Env, db: Db, entries: seq<Entry>, srcs: seq<Src>, n: nat, now: int)
    requires Inv(db) && n <= |entries| && Noted(db, entries, srcs) && Distinct(srcs)
    ensures var r := ExtractPhase(env, db, entries, n, now);
            r.Done? ==> Inv(r.db) && db.calls <= r.db.calls && Extended(db, r.db) && Filled(db, r.db, entries, n)
  {
    hide Inv, Extended, Filled, ExtractPhase, Noted, Distinct;
    ExtractPhaseFacts(env, db, entries, srcs, n, now);
  }

  // ----- when preparation raises

  /** An audio without chunks whose latest completed transcript shows nothing. */
  predicate Unchunkable(db: Db, src: Src) {
    && src.Aud? && src.id in db.sources.audios && SrcChunks(db, src) == {}
    && var t := LatestTranscript(db.sources, src.id, db.next);
       t.Some? && t.value in db.sources.transcripts && Strip(db.sources.transcripts[t.value].base) == ""
  }

  lemma PrepareOneRaises(env: Env, db: Db, src: Src)
    requires Inv(db)
    ensures PrepareOne(env, db, src).Failed? <==> Unchunkable(db, src)
  {
    if src.Aud? {
      LatestIsOfAudio(db.sources, src.id, db.next);
    }
    if Eligible(db, src) && SrcChunks(db, src) == {} {
      match src {
        case Doc(d) => ChunkDocFacts(env, db, d);
        case Aud(a) => ChunkTranscriptExactly(env, db, LatestTranscript(db.sources, a, db.next).value);
      }
    }
  }

  lemma OthersKeepChunks(db: Db, after: Db, src: Src, other: Src)
    requires Inv(after) && OnlyChunksAdded(db, after, src) && other != src
    ensures SrcChunks(after, other) == SrcChunks(db, other)
  {
    hide Strip, LinksOk, IndicesOk;
    forall c | c in after.chunks && c !in db.chunks ensures !InSrc(after.sources, after.chunks[c].origin, other) {
      assert ChunkOk(after.sources, after.chunks[c]);
      if InSrc(after.sources, after.chunks[c].origin, other) {
        OneSource(after.sources, after.chunks[c].origin, src, other);
      }
    }
  }

  lemma SameUnchunkable(db: Db, after: Db, src: Src)
    requires db.sources == after.sources && db.next <= after.next && SourcesBelow(db.sources, db.next)
    requires SrcChunks(after, src) == SrcChunks(db, src)
    ensures Unchunkable(after, src) <==> Unchunkable(db, src)
  {
    SameEligible(db, after, src);
  }

  /** The first phase raises exactly at such an audio. */
  lemma {:induction false} ChunkPhaseRaises(env: Env, db: Db, srcs: seq<Src>, n: nat)
    requires Inv(db) && n <= |srcs| && Distinct(srcs)
    ensures var r := ChunkPhase(env, db, srcs, n);
            && (r.Failed? <==> exists i :: 0 <= i < n && Unchunkable(db, srcs[i]))
            && (r.Ready? ==> forall i :: n <= i < |srcs| ==> SrcChunks(r.db, srcs[i]) == SrcChunks(db, srcs[i]))
  {
    InvSourcesBelow(db);
    hide Inv, PrepareOne, SrcChunks, Unchunkable, SourcesBelow, OnlyChunksAdded, Noted, ChunksKept, EntryOk;
    if n == 0 {
    } else {
      ChunkPhaseRaises(env, db, srcs, n - 1);
      ChunkPhaseFacts(env, db, srcs, n - 1);
      var before := ChunkPhase(env, db, srcs, n - 1);
      if before.Ready? {
        PrepareOneRaises(env, before.db, srcs[n - 1]);
        PrepareOneFacts(env, before.db, srcs[n - 1]);
        SameUnchunkable(db, before.db, srcs[n - 1]);
        var one := PrepareOne(env, before.db, srcs[n - 1]);
        if one.Ready? {
          forall i | n <= i < |srcs| ensures SrcChunks(one.db, srcs[i]) == SrcChunks(db, srcs[i]) {
            OthersKeepChunks(before.db, one.db, srcs[n - 1], srcs[i]);
          }
        }
      }
    }
  }

  /** The second phase raises only if the provider does. */
  lemma {:induction false} ExtractPhaseEnds(env: Env, db: Db, entries: seq<Entry>, srcs: seq<Src>, n: nat, now: int)
    requires Inv(db) && n <= |entries| && Noted(db, entries, srcs) && Distinct(srcs) && NeverRaises(env)
    ensures ExtractPhase(env, db, entries, n, now).Done?
  {
    hide Inv, ExtractSrc, Extended, Filled, SrcChunks, Noted, EntryOk, Distinct, Sent, NeverRaises;
    if n == 0 {
    } else {
      ExtractPhaseEnds(env, db, entries, srcs, n - 1, now);
      PhaseStands(env, db, entries, srcs, n - 1, now);
      if Needs(entries[n - 1]) {
        ExtractSrcEnds(env, db, entries, srcs, n - 1, ExtractPhase(env, db, entries, n - 1, now).db, now);
      }
    }
  }

  lemma ExtractSrcEnds(env: Env, db: Db, entries: seq<Entry>, srcs: seq<Src>, n: nat, before: Db, now: int)
    requires Inv(db) && n < |entries| && Noted(db, entries, srcs) && Needs(entries[n]) && NeverRaises(env)
    requires Inv(before) && Extended(db, before) && Filled(db, before, entries, n)
    ensures ExtractSrc(env, before, entries[n].src, now).Done?
  {
    var src := entries[n].src;
    assert EntryOk(db, entries[n]);
    StillNoted(db, before, entries, n);
    hide Inv, NeverRaises, Reextracted;
    match src {
      case Doc(d) => ExtractDocumentExactly(env, before, d, now);
      case Aud(a) => ExtractAudioExactly(env, before, a, now);
    }
  }

  // ----- the whole call, exactly

  /** The verdict that the tables and settings ask for. */
  ghost function RightVerdict(env: Env, db: Db, chunks: Chunks, project: Id, cap: int, auto: bool): Verdict {
    if project !in db.sources.projects then ProjectNotFound
    else if !auto then AutoPrepareDisabled
    else if |set e | e in db.entities && db.entities[e].project == project && db.entities[e].content.kind in env.prKinds|
            >= env.minPrEntities
    then PreparedSignalsUsed
    else if env.gpt && |Bare(db, chunks, project)| > cap then CapExceeded
    else Extracted
  }

  /**
   What a finished call has done: the right verdict; the bare chunks sent, and only when it extracts; the
   wanted sources chunked; the links canonical when it got that far, and no entity touched when over the cap.
   */
  ghost predicate Prepared(env: Env, db: Db, after: Db, project: Id, cap: int, auto: bool, verdict: Verdict) {
    && verdict == RightVerdict(env, db, after.chunks, project, cap, auto)
    && db.calls <= after.calls
    && (forall c :: c in after.calls[|db.calls|..] <==> verdict == Extracted && c in Bare(db, after.chunks, project))
    && match verdict
       case ProjectNotFound => after == db
       case AutoPrepareDisabled => after == db
       case PreparedSignalsUsed =>
         && Canonical(after.entities, project, env.key, env.rank) && SameButLinks(db.entities, after.entities, project)
         && AllChunked(db, after, project)
       case CapExceeded => after.entities == db.entities && AllChunked(db, after, project)
       case Extracted => Canonical(after.entities, project, env.key, env.rank) && AllChunked(db, after, project)
  }

  ghost predicate AllChunked(db: Db, after: Db, project: Id) {
    forall src :: Wanted(db.sources, project, src) ==> SrcChunks(after, src) != {}
  }

  lemma PreparationExactly(env: Env, db: Db, project: Id, cap: int, auto: bool, now: int)
    requires Inv(db) && Injective(env.rank)
    ensures var r := PrepareProject(env, db, project, cap, auto, now);
            r.Finished? ==> Prepared(env, db, r.db, project, cap, auto, r.verdict)
  {
    hide Inv, ChunkPhase, Aggregated, ProjectSrcs, ExtractPhase, Noted, Canonical, Wanted, IsBare, SrcChunks, Bare;
    hide SameButLinks;
    var r, srcs := PrepareProject(env, db, project, cap, auto, now), ProjectSrcs(db, project);
    if project in db.sources.projects && auto && r.Finished? {
      var prep := ChunkPhase(env, db, srcs, |srcs|);
      AfterChunking(env, db, project);
      AggregatedFacts(env, prep.db, project);
      assert PrEntities(env, prep.db, project) ==
             set e | e in db.entities && db.entities[e].project == project && db.entities[e].content.kind in env.prKinds;
      if r.verdict == Extracted {
        SentExactly(env, db, prep.db, prep.entries, project, now);
        var step := ExtractPhase(env, prep.db, prep.entries, |prep.entries|, now);
        AggregatedFacts(env, step.db, project);
      }
      forall src | Wanted(db.sources, project, src) ensures SrcChunks(r.db, src) != {} {
        SameSrcChunks(prep.db, r.db, src);
      }
    }
  }

  lemma PreparedWhenFinished(env: Env, db: Db, project: Id, cap: int, auto: bool, now: int)
    ensures var r := PrepareProject(env, db, project, cap, auto, now);
            Inv(db) && Injective(env.rank) && r.Finished? ==> Prepared(env, db, r.db, project, cap, auto, r.verdict)
  {
    if Inv(db) && Injective(env.rank) {
      PreparationExactly(env, db, project, cap, auto, now);
    }
  }

  lemma SameSrcChunks(db: Db, after: Db, src: Src)
    requires after.sources == db.sources && after.chunks == db.chunks
    ensures SrcChunks(after, src) == SrcChunks(db, src)
  {
  }

  /** What is known when the first phase has ended. */
  lemma AfterChunking(env: Env, db: Db, project: Id)
    requires Inv(db)
    ensures var srcs := ProjectSrcs(db, project);
            var prep := ChunkPhase(env, db, srcs, |srcs|);
            prep.Ready? ==>
              && Inv(prep.db) && Noted(prep.db, prep.entries, srcs) && Distinct(srcs) && |prep.entries| == |srcs|
              && prep.db.sources == db.sources && prep.db.entities == db.entities && prep.db.calls == db.calls
              && db.next <= prep.db.next
              && |Bare(db, prep.db.chunks, project)| == Needed(prep.entries, |prep.entries|)
              && (forall src :: Wanted(db.sources, project, src) ==> SrcChunks(prep.db, src) != {})
  {
    hide Inv, ChunkPhase, ProjectSrcs, Noted, Wanted, SrcChunks, Bare, ChunksKept, Distinct;
    var srcs := ProjectSrcs(db, project);
    ProjectSrcsDistinct(db, project);
    ChunkPhaseFacts(env, db, srcs, |srcs|);
    var prep := ChunkPhase(env, db, srcs, |srcs|);
    if prep.Ready? {
      BareSize(db, prep.db, prep.entries, project);
      NotedMeansSettled(prep.db, prep.entries, srcs);
      InvSourcesBelow(db);
      forall src | Wanted(db.sources, project, src) ensures SrcChunks(prep.db, src) != {} {
        WantedExactly(db, project, src);
        SameEligible(db, prep.db, src);
        var i :| 0 <= i < |srcs| && srcs[i] == src;
      }
    }
  }

  /** An extraction that ends has sent exactly the bare chunks. */
  lemma SentExactly(env: Env, db: Db, prep: Db, entries: seq<Entry>, project: Id, now: int)
    requires Inv(db) && Inv(prep) && prep.sources == db.sources && prep.entities == db.entities && prep.calls == db.calls
    requires db.next <= prep.next && Noted(prep, entries, ProjectSrcs(db, project)) && |entries| == |ProjectSrcs(db, project)|
    ensures var step := ExtractPhase(env, prep, entries, |entries|, now);
            step.Done? ==>
              && Inv(step.db) && db.calls <= step.db.calls && step.db.chunks == prep.chunks && step.db.sources == prep.sources
              && (forall c :: c in step.db.calls[|db.calls|..] <==> c in Bare(db, prep.chunks, project))
  {
    hide Inv, ProjectSrcs, Noted, Bare, ExtractPhase, OfNeeded, Filled, Distinct;
    var srcs, n := ProjectSrcs(db, project), |entries|;
    ProjectSrcsDistinct(db, project);
    ExtractPhaseFacts(env, prep, entries, srcs, n, now);
    BareSize(db, prep, entries, project);
    var step := ExtractPhase(env, prep, entries, n, now);
    if step.Done? {
      var calls, sent := step.db.calls, step.db.calls[|db.calls|..];
      forall c | c in sent ensures c in Bare(db, prep.chunks, project) {
        var i :| 0 <= i < |sent| && sent[i] == c;
        assert OfNeeded(prep, entries, n, calls[|db.calls| + i]);
        OfNeededIsChunk(prep, entries, n, c);
      }
      forall c | c in Bare(db, prep.chunks, project) ensures c in sent {
        SendsAll(env, prep, entries, srcs, n, now, c);
      }
    }
  }

  lemma OfNeededIsChunk(db: Db, entries: seq<Entry>, n: nat, c: Id)
    requires n <= |entries| && OfNeeded(db, entries, n, c)
    ensures c in db.chunks
  {
  }

  lemma BareSize(db: Db, prep: Db, entries: seq<Entry>, project: Id)
    requires Inv(db) && Inv(prep) && prep.sources == db.sources && prep.entities == db.entities && db.next <= prep.next
    requires Noted(prep, entries, ProjectSrcs(db, project)) && |entries| == |ProjectSrcs(db, project)|
    ensures Bare(db, prep.chunks, project) == NeededChunks(prep, entries, |entries|)
    ensures |Bare(db, prep.chunks, project)| == Needed(entries, |entries|)
  {
    hide Inv, ProjectSrcs, Noted, IsBare, OfNeeded;
    ProjectSrcsDistinct(db, project);
    NeededSize(prep, entries, ProjectSrcs(db, project), |entries|);
    forall c | c in prep.chunks ensures c in Bare(db, prep.chunks, project) <==> c in NeededChunks(prep, entries, |entries|) {
      BareIsNeeded(db, prep, entries, project, c);
    }
  }

  /** If the provider never raises, preparation raises exactly at an audio that cannot be chunked. */
  lemma PreparationAborts(env: Env, db: Db, project: Id, cap: int, auto: bool, now: int)
    requires Inv(db) && Injective(env.rank)
    ensures var r := PrepareProject(env, db, project, cap, auto, now);
            var stuck := exists src :: Wanted(db.sources, project, src) && Unchunkable(db, src);
            && (project in db.sources.projects && auto && stuck ==> r.Aborted?)
            && (r.Aborted? && NeverRaises(env) ==> project in db.sources.projects && auto && stuck)
  {
    hide Inv, ChunkPhase, Aggregated, ProjectSrcs, ExtractPhase, Noted, Wanted, SrcChunks, Bare, Unchunkable, PrEntities;
    hide NeverRaises;
    var r, srcs := PrepareProject(env, db, project, cap, auto, now), ProjectSrcs(db, project);
    var prep := ChunkPhase(env, db, srcs, |srcs|);
    ProjectSrcsDistinct(db, project);
    ChunkPhaseRaises(env, db, srcs, |srcs|);
    StuckExactly(db, project);
    if prep.Ready? && NeverRaises(env) {
      AfterChunking(env, db, project);
      ExtractPhaseEnds(env, prep.db, prep.entries, srcs, |prep.entries|, now);
    }
  }

  lemma StuckExactly(db: Db, project: Id)
    requires Inv(db)
    ensures (exists src :: Wanted(db.sources, project, src) && Unchunkable(db, src))
       <==> exists i :: 0 <= i < |ProjectSrcs(db, project)| && Unchunkable(db, ProjectSrcs(db, project)[i])
  {
    InvSourcesBelow(db);
    hide Inv, ProjectSrcs, Wanted, LatestTranscript;
    var srcs := ProjectSrcs(db, project);
    if src :| Wanted(db.sources, project, src) && Unchunkable(db, src) {
      WantedExactly(db, project, src);
      var i :| 0 <= i < |srcs| && srcs[i] == src;
      assert Unchunkable(db, srcs[i]);
    }
    if i :| 0 <= i < |srcs| && Unchunkable(db, srcs[i]) {
      assert srcs[i] in srcs;
      WantedExactly(db, project, srcs[i]);
    }
  }
}
