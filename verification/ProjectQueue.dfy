/**
 The queue service itself (app/services/project_queue_service.py:116-517): the tables of one project
 and the functions that read and write them, each one committed transaction.
 */
module ProjectQueue {
  import opened Wrappers
  import opened QueueRows
  import opened Picker
  import opened Sorting
  import opened Text

  datatype TaskStatus = Missing | AlreadyProcessing | Fine | Other

  function Documents(ids: seq<nat>): (r: seq<Source>)
    ensures |r| == |ids|
  {
    seq(|ids|, i requires 0 <= i < |ids| => Document(ids[i]))
  }

  function Audios(ids: seq<nat>): (r: seq<Source>)
    ensures |r| == |ids|
  {
    seq(|ids|, i requires 0 <= i < |ids| => Audio(ids[i]))
  }

  function SourcesOf(items: seq<Item>): (r: seq<Source>)
    ensures |r| == |items|
  {
    seq(|items|, i requires 0 <= i < |items| => items[i].source)
  }

  /** No document, or no audio. */
  predicate TableEmpty(rows: Table, documents: bool) {
    forall s :: s in rows ==> s.Document? != documents
  }

  /**
   The order given to a source that is queued without one: the least that is above every other and not
   negative, where an empty table counts as one row of order 0.
   */
  ghost predicate IsNextOrder(rows: Table, order: int) {
    && order >= 0
    && (forall s :: s in rows ==> rows[s].sortOrder < order)
    && (TableEmpty(rows, true) || TableEmpty(rows, false) ==> order >= 1)
    && (order == 0 || (exists s :: s in rows && rows[s].sortOrder == order - 1)
        || (order == 1 && (TableEmpty(rows, true) || TableEmpty(rows, false))))
  }

  /** `select max(processing_sort_order)` of one table. */
  ghost predicate IsHighest(rows: Table, documents: bool, highest: Option<int>) {
    match highest
    case None => TableEmpty(rows, documents)
    case Some(order) =>
      && (forall s :: s in rows && s.Document? == documents ==> rows[s].sortOrder <= order)
      && (exists s :: s in rows && s.Document? == documents && rows[s].sortOrder == order)
  }

  /** Effect of a pipeline result: a missing row fails, a busy one goes back, the rest finalize. */
  function TaskResultRows(rows: Table, id: nat, status: TaskStatus, message: Option<string>, now: int): Table {
    match status
    case Missing => FinalizeRow(rows, Document(id), Broke(Some("source_document_missing"), "pipeline_failed"), now)
    case AlreadyProcessing =>
      RequeueRow(rows, Document(id), "document pipeline is already running; queued retry")
    case Fine => FinalizeRow(rows, Document(id), Succeeded, now)
    case Other => FinalizeRow(rows, Document(id), Broke(message, "pipeline_failed"), now)
  }

  /** The sources that exist become pending, documents first, in consecutive orders. */
  lemma MarkListedExactly(rows: Table, documentIds: seq<nat>, audioIds: seq<nat>, sortBase: int)
    ensures var after := MarkList(rows, Documents(documentIds) + Audios(audioIds), sortBase).0;
            && (forall s :: s in rows && (if s.Document? then s.id !in documentIds else s.id !in audioIds) ==>
                  after[s] == rows[s])
            && (forall i :: 0 <= i < |documentIds| && Document(documentIds[i]) in rows && documentIds[i] !in documentIds[i + 1..] ==>
                  after[Document(documentIds[i])] ==
                  Row(Pending, sortBase + |set j | 0 <= j < i && Document(documentIds[j]) in rows|,
                      rows[Document(documentIds[i])].createdAt, None, None, None))
            && (forall i :: 0 <= i < |audioIds| && Audio(audioIds[i]) in rows && audioIds[i] !in audioIds[i + 1..] ==>
                  after[Audio(audioIds[i])] ==
                  Row(Pending, sortBase + |set j | 0 <= j < |documentIds| && Document(documentIds[j]) in rows|
                                        + |set j | 0 <= j < i && Audio(audioIds[j]) in rows|,
                      rows[Audio(audioIds[i])].createdAt, None, None, None))
  {
    hide MarkList, MarkedPending;
    var documents, audios := Documents(documentIds), Audios(audioIds);
    var (marked, next) := MarkList(rows, documents, sortBase);
    MarkListAppend(rows, documents, audios, sortBase);
    MarkListNext(rows, documents, sortBase);
    assert Existing(rows, documents) == set j | 0 <= j < |documentIds| && Document(documentIds[j]) in rows;
    forall s | s in rows && (if s.Document? then s.id !in documentIds else s.id !in audioIds)
      ensures MarkList(marked, audios, next).0[s] == rows[s]
    {
      MarkListSpares(rows, documents, sortBase, s);
      MarkListSpares(marked, audios, next, s);
    }
    forall i | 0 <= i < |documentIds| && Document(documentIds[i]) in rows && documentIds[i] !in documentIds[i + 1..]
      ensures MarkList(marked, audios, next).0[Document(documentIds[i])] ==
              Row(Pending, sortBase + |set j | 0 <= j < i && Document(documentIds[j]) in rows|,
                  rows[Document(documentIds[i])].createdAt, None, None, None)
    {
      MarkListAt(rows, documents, sortBase, i);
      MarkListSpares(marked, audios, next, documents[i]);
      assert Existing(rows, documents[..i]) == set j | 0 <= j < i && Document(documentIds[j]) in rows;
    }
    forall i | 0 <= i < |audioIds| && Audio(audioIds[i]) in rows && audioIds[i] !in audioIds[i + 1..]
      ensures MarkList(marked, audios, next).0[Audio(audioIds[i])] ==
              Row(Pending, next + |set j | 0 <= j < i && Audio(audioIds[j]) in rows|,
                  rows[Audio(audioIds[i])].createdAt, None, None, None)
    {
      MarkListAt(marked, audios, next, i);
      MarkListKeepsCreated(rows, documents, sortBase, audios[i]);
      assert Existing(marked, audios[..i]) == set j | 0 <= j < i && Audio(audioIds[j]) in rows;
    }
  }

  lemma StartedExactly(rows: Table, picked: seq<Item>, now: int)
    ensures forall s :: s in rows ==>
              StartList(rows, SourcesOf(picked), now)[s] ==
              if exists item :: item in picked && item.source == s
              then rows[s].(status := Processing, startedAt := Some(now)) else rows[s]
  {
    var sources := SourcesOf(picked);
    forall s | s in rows
      ensures StartList(rows, sources, now)[s] ==
              if exists item :: item in picked && item.source == s
              then rows[s].(status := Processing, startedAt := Some(now)) else rows[s]
    {
      StartListRow(rows, sources, now, s);
      if s in sources {
        var i :| 0 <= i < |sources| && sources[i] == s;
        assert picked[i].source == s;
      } else {
        forall item | item in picked ensures item.source != s {
          var i :| 0 <= i < |picked| && picked[i] == item;
          assert sources[i] != s;
        }
      }
    }
  }

  lemma {:induction false} ImageSize(sources: seq<Source>, ids: set<nat>)
    requires Distinct(sources) && forall i :: i in ids ==> i < |sources|
    ensures |set i | i in ids :: sources[i]| == |ids|
    decreases ids
  {
    if ids == {} {
    } else {
      var i :| i in ids;
      ImageSize(sources, ids - {i});
      assert (set j | j in ids :: sources[j]) == (set j | j in ids - {i} :: sources[j]) + {sources[i]};
    }
  }

  /** Listing a table row by row keeps the number of rows of a status. */
  lemma RowsOfStatus(rows: Table, sources: seq<Source>, list: seq<Row>, status: Status)
    requires Distinct(sources) && |sources| == |list|
    requires forall i :: 0 <= i < |sources| ==> sources[i] in rows && rows[sources[i]] == list[i]
    requires forall s :: s in rows ==> s in sources
    ensures |Indices(list, |list|, status)| == |set s | s in rows && rows[s].status == status|
  {
    var ids := Indices(list, |list|, status);
    ImageSize(sources, ids);
    assert (set i | i in ids :: sources[i]) == (set s | s in rows && rows[s].status == status);
  }

  class Queue {
    var enabled: bool
    var rows: Table
    var cache: set<nat>

    constructor (enabled: bool)
      ensures rows == map[] && cache == {} && this.enabled == enabled
    {
      this.enabled := enabled;
      rows, cache := map[], {};
    }

    method MarkIdleAndFailedPending() returns (n: nat)
      modifies this`rows
      ensures rows == ReviveAll(old(rows))
      ensures rows.Keys == old(rows).Keys
      ensures forall s :: s in rows ==>
                var was := old(rows)[s];
                rows[s] == if was.status == Idle || was.status == Failed
                           then Row(Pending, was.sortOrder, was.createdAt, None, None, was.lastError) else was
      ensures n == |set s | s in old(rows) && (old(rows)[s].status == Idle || old(rows)[s].status == Failed)|
    {
      var hit := set s | s in rows && (rows[s].status == Idle || rows[s].status == Failed);
      n := |hit|;
      rows := map s | s in rows :: if s in hit then Revived(rows[s]) else rows[s];
    }

    method MarkSourcesPending(documentIds: seq<nat>, audioIds: seq<nat>, sortBase: int)
      modifies this`rows
      ensures rows == MarkList(old(rows), Documents(documentIds) + Audios(audioIds), sortBase).0
      ensures rows.Keys == old(rows).Keys
      ensures forall s :: s in rows && (if s.Document? then s.id !in documentIds else s.id !in audioIds) ==>
                rows[s] == old(rows)[s]
      ensures forall i :: 0 <= i < |documentIds| && Document(documentIds[i]) in rows && documentIds[i] !in documentIds[i + 1..] ==>
                rows[Document(documentIds[i])] ==
                Row(Pending, sortBase + |set j | 0 <= j < i && Document(documentIds[j]) in rows|,
                    old(rows)[Document(documentIds[i])].createdAt, None, None, None)
      ensures forall i :: 0 <= i < |audioIds| && Audio(audioIds[i]) in rows && audioIds[i] !in audioIds[i + 1..] ==>
                rows[Audio(audioIds[i])] ==
                Row(Pending, sortBase + |set j | 0 <= j < |documentIds| && Document(documentIds[j]) in rows|
                                      + |set j | 0 <= j < i && Audio(audioIds[j]) in rows|,
                    old(rows)[Audio(audioIds[i])].createdAt, None, None, None)
    {
      ghost var sources := Documents(documentIds) + Audios(audioIds);
      var order := sortBase;
      for i := 0 to |documentIds|
        invariant MarkList(old(rows), sources, sortBase) == MarkList(rows, sources[i..], order)
      {
        assert sources[i..][0] == Document(documentIds[i]) && sources[i..][1..] == sources[i + 1..];
        if Document(documentIds[i]) in rows {
          var row := rows[Document(documentIds[i])];
          rows := rows[Document(documentIds[i]) := MarkedPending(row, order)];
          order := order + 1;
        }
      }
      for j := 0 to |audioIds|
        invariant MarkList(old(rows), sources, sortBase) == MarkList(rows, sources[|documentIds| + j..], order)
      {
        ghost var k := |documentIds| + j;
        assert sources[k..][0] == Audio(audioIds[j]) && sources[k..][1..] == sources[k + 1..];
        if Audio(audioIds[j]) in rows {
          var row := rows[Audio(audioIds[j])];
          rows := rows[Audio(audioIds[j]) := MarkedPending(row, order)];
          order := order + 1;
        }
      }
      MarkListedExactly(old(rows), documentIds, audioIds, sortBase);
    }

    method HighestOrder(documents: bool) returns (highest: Option<int>)
      ensures IsHighest(rows, documents, highest)
    {
      highest := None;
      var rest := rows.Keys;
      while rest != {}
        invariant rest <= rows.Keys
        invariant highest == None ==> forall s :: s in rows && s !in rest ==> s.Document? != documents
        invariant highest.Some? ==>
          && (forall s :: s in rows && s !in rest && s.Document? == documents ==> rows[s].sortOrder <= highest.value)
          && (exists s :: s in rows && s.Document? == documents && rows[s].sortOrder == highest.value)
        decreases rest
      {
        var s :| s in rest;
        if s.Document? == documents && (highest == None || rows[s].sortOrder > highest.value) {
          highest := Some(rows[s].sortOrder);
        }
        rest := rest - {s};
      }
    }

    method NextSortOrder() returns (order: int)
      ensures IsNextOrder(rows, order)
    {
      var documents := HighestOrder(true);
      var audios := HighestOrder(false);
      var a := if documents.Some? then documents.value else 0;
      var b := if audios.Some? then audios.value else 0;
      order := Max(Max(a, b), -1) + 1;
    }

    method MarkSourcePending(source: Source, sortOrder: Option<int>)
      modifies this`rows
      ensures source !in old(rows) ==> rows == old(rows)
      ensures source in old(rows) ==>
                && source in rows
                && rows == old(rows)[source := Row(Pending, rows[source].sortOrder, old(rows)[source].createdAt, None, None, None)]
                && if sortOrder.Some? then rows[source].sortOrder == sortOrder.value
                   else IsNextOrder(old(rows), rows[source].sortOrder)
    {
      if source !in rows {
        return;
      }
      var order;
      if sortOrder.Some? {
        order := sortOrder.value;
      } else {
        order := NextSortOrder();
      }
      rows := rows[source := MarkedPending(rows[source], order)];
    }

    /** `mark_project_source_processing` for every picked item, in the transaction that picked them. */
    method MarkProcessing(picked: seq<Item>, now: int)
      modifies this`rows
      ensures rows == StartList(old(rows), SourcesOf(picked), now)
      ensures rows.Keys == old(rows).Keys
      ensures forall s :: s in rows ==>
                rows[s] == if exists item :: item in picked && item.source == s
                           then old(rows)[s].(status := Processing, startedAt := Some(now)) else old(rows)[s]
    {
      ghost var sources := SourcesOf(picked);
      for i := 0 to |picked|
        invariant StartList(old(rows), sources, now) == StartList(rows, sources[i..], now)
      {
        assert sources[i..][0] == picked[i].source && sources[i..][1..] == sources[i + 1..];
        if picked[i].source in rows {
          rows := rows[picked[i].source := Started(rows[picked[i].source], now)];
        }
      }
      StartedExactly(old(rows), picked, now);
    }

    /** The rows of both tables, in any order. */
    method ListRows() returns (sources: seq<Source>, list: seq<Row>)
      ensures Distinct(sources) && |sources| == |list| == |rows|
      ensures forall i :: 0 <= i < |sources| ==> sources[i] in rows && rows[sources[i]] == list[i]
      ensures forall s :: s in rows ==> s in sources
    {
      sources, list := [], [];
      var rest := rows.Keys;
      while rest != {}
        invariant rest <= rows.Keys && |sources| == |list| == |rows.Keys| - |rest|
        invariant forall i :: 0 <= i < |sources| ==> sources[i] in rows && rows[sources[i]] == list[i]
        invariant forall s :: s in rows ==> (s in sources <==> s !in rest)
        invariant Distinct(sources)
        decreases rest
      {
        var s :| s in rest;
        sources, list, rest := sources + [s], list + [rows[s]], rest - {s};
      }
    }

    /** Reads both tables and summarises them. */
    method FetchSummary() returns (r: Summary)
      ensures HasActiveWork(r) <==> AnyActive(rows)
      ensures r.idle + r.pending + r.processing + r.completed + r.failed == |rows|
      ensures r.pending == |set s | s in rows && rows[s].status == Pending|
      ensures r.processing == |set s | s in rows && rows[s].status == Processing|
      ensures r.completed == |set s | s in rows && rows[s].status == Completed|
      ensures r.failed == |set s | s in rows && rows[s].status == Failed|
      ensures forall s :: s in r.current <==> s in rows && rows[s].status == Processing
    {
      hide Indices;
      var sources, list := ListRows();
      r := ComputeSummary(sources, list);
      RowsOfStatus(rows, sources, list, Pending);
      RowsOfStatus(rows, sources, list, Processing);
      RowsOfStatus(rows, sources, list, Completed);
      RowsOfStatus(rows, sources, list, Failed);
      if AnyActive(rows) {
        var s :| s in rows && Active(rows[s]);
        var i :| 0 <= i < |sources| && sources[i] == s;
        assert Active(list[i]);
      }
    }

    /** `_maybe_finalize_project_queue_idle`. */
    method FinalizeIfIdle()
      modifies this`cache
      ensures cache == if exists s :: s in rows && rows[s].status in {Pending, Processing} then old(cache) else {}
    {
      var summary := FetchSummary();
      if HasActiveWork(summary) {
        return;
      }
      cache := {};
    }

    /** The three `maybe_finalize_*`: `source` is the row they resolve, if there is one. */
    method MaybeFinalize(source: Option<Source>, outcome: Outcome, now: int)
      modifies this`rows, this`cache
      ensures rows == if enabled && source.Some? then FinalizeRow(old(rows), source.value, outcome, now) else old(rows)
      ensures cache == if rows != old(rows) && !AnyActive(rows) then {} else old(cache)
      ensures rows.Keys == old(rows).Keys
      ensures forall s :: s in rows && source != Some(s) ==> rows[s] == old(rows)[s]
      ensures source.Some? && source.value in rows ==>
                var was := old(rows)[source.value];
                if !enabled || was.status !in {Pending, Processing} then rows[source.value] == was
                else if outcome == Succeeded
                then rows[source.value] == Row(Completed, was.sortOrder, was.createdAt, was.startedAt, Some(now), None)
                else rows[source.value] == Row(Failed, was.sortOrder, was.createdAt, was.startedAt, Some(now),
                                               Some(ErrorText(outcome.message, outcome.fallback)))
    {
      if !enabled || source == None || source.value !in rows {
        return;
      }
      var row := rows[source.value];
      if row.status != Pending && row.status != Processing {
        return;
      }
      rows := rows[source.value := Finalized(row, outcome, now)];
      assert rows[source.value].status != row.status;
      FinalizeIfIdle();
    }

    method RequeueDocument(id: nat, reason: string)
      modifies this`rows
      ensures rows == if enabled then RequeueRow(old(rows), Document(id), reason) else old(rows)
      ensures rows.Keys == old(rows).Keys
      ensures forall s :: s in rows && s != Document(id) ==> rows[s] == old(rows)[s]
      ensures Document(id) in rows ==>
                var was := old(rows)[Document(id)];
                rows[Document(id)] == if !enabled || was.status != Processing then was
                                      else Row(Pending, was.sortOrder, was.createdAt, None, was.completedAt,
                                               Some(ErrorText(Some(reason), "document_pipeline_busy")))
    {
      if !enabled || Document(id) !in rows {
        return;
      }
      var row := rows[Document(id)];
      if row.status != Processing {
        return;
      }
      rows := rows[Document(id) := Requeued(row, reason)];
    }

    method FinalizeTaskResult(id: nat, status: TaskStatus, message: Option<string>, now: int)
      modifies this`rows, this`cache
      ensures rows == if enabled then TaskResultRows(old(rows), id, status, message, now) else old(rows)
      ensures cache == if rows != old(rows) && !AnyActive(rows) then {} else old(cache)
      ensures rows.Keys == old(rows).Keys
      ensures !enabled || Document(id) !in rows ==> rows == old(rows)
      ensures forall s :: s in rows && s != Document(id) ==> rows[s] == old(rows)[s]
      ensures enabled && Document(id) in rows ==>
                var was, row := old(rows)[Document(id)], rows[Document(id)];
                && (was.status != Processing && (was.status != Pending || status.AlreadyProcessing?) ==> row == was)
                && (was.status == Processing && status.AlreadyProcessing? ==>
                      row == Row(Pending, was.sortOrder, was.createdAt, None, was.completedAt,
                                 Some("document pipeline is already running; queued retry")))
                && (was.status in {Pending, Processing} && status.Fine? ==>
                      row == Row(Completed, was.sortOrder, was.createdAt, was.startedAt, Some(now), None))
                && (was.status in {Pending, Processing} && status.Missing? ==>
                      row == Row(Failed, was.sortOrder, was.createdAt, was.startedAt, Some(now),
                                 Some("source_document_missing")))
                && (was.status in {Pending, Processing} && status.Other? ==>
                      && row == Row(Failed, was.sortOrder, was.createdAt, was.startedAt, Some(now), row.lastError)
                      && row.lastError.Some?
                      && (message == None || message.value == "" ==> row.lastError.value == "pipeline_failed")
                      && (message.Some? && 0 < |message.value| <= 8000 ==> row.lastError.value == message.value)
                      && (message.Some? && |message.value| > 8000 ==> row.lastError.value == message.value[..8000]))
    {
      match status {
        case Missing =>
          MaybeFinalize(Some(Document(id)), Broke(Some("source_document_missing"), "pipeline_failed"), now);
        case AlreadyProcessing => RequeueDocument(id, "document pipeline is already running; queued retry");
        case Fine => MaybeFinalize(Some(Document(id)), Succeeded, now);
        case Other => MaybeFinalize(Some(Document(id)), Broke(message, "pipeline_failed"), now);
      }
    }
  }
}
