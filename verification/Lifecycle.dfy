/**
 Rows over whole runs: any sequence of committed queue transactions, starting with no rows
 (app/services/project_queue_service.py:185-274, 329-339, 362-517).  The ledger counts, for every
 source, how often it was marked pending and how often it was finalized.
 */
module Lifecycle {
  import opened Wrappers
  import opened QueueRows
  import opened Picker
  import opened Sorting

  datatype Call =
    | Upload(source: Source, createdAt: int)
    | Revive
    | Mark(sources: seq<Source>, order: int)
    | Drain(picked: seq<Source>, now: int)
    | Finalize(source: Source, outcome: Outcome, now: int)
    | Requeue(source: Source, reason: string)

  datatype Ledger = Ledger(rows: Table, marks: map<Source, nat>, finals: map<Source, nat>)

  const EMPTY: Ledger := Ledger(map[], map[], map[])

  function Occurrences(sources: seq<Source>, s: Source): nat {
    if sources == [] then 0 else Occurrences(sources[1..], s) + if sources[0] == s then 1 else 0
  }

  /** How often a call marks `s` pending. */
  function MarksOf(rows: Table, call: Call, s: Source): nat
    requires s in rows
  {
    match call
    case Revive => if rows[s].status == Idle || rows[s].status == Failed then 1 else 0
    case Mark(sources, _) => Occurrences(sources, s)
    case _ => 0
  }

  function FinalsOf(rows: Table, call: Call, s: Source): nat
    requires s in rows
  {
    if call.Finalize? && call.source == s && Active(rows[s]) then 1 else 0
  }

  /** A drain picks pending rows, once each, and holds their row locks until it commits. */
  predicate Enabled(rows: Table, call: Call) {
    match call
    case Upload(source, _) => source !in rows
    case Drain(picked, _) => forall s :: s in picked ==> s in rows && rows[s].status == Pending
    case _ => true
  }

  function ApplyRows(rows: Table, call: Call): Table {
    match call
    case Upload(source, createdAt) => rows[source := FreshRow(createdAt)]
    case Revive => ReviveAll(rows)
    case Mark(sources, order) => MarkList(rows, sources, order).0
    case Drain(picked, now) => StartList(rows, picked, now)
    case Finalize(source, outcome, now) => FinalizeRow(rows, source, outcome, now)
    case Requeue(source, reason) => RequeueRow(rows, source, reason)
  }

  function Apply(l: Ledger, call: Call): Ledger
    requires l.marks.Keys == l.finals.Keys == l.rows.Keys
  {
    Ledger(ApplyRows(l.rows, call),
           if call.Upload? then l.marks[call.source := 0]
           else map s | s in l.marks :: l.marks[s] + MarksOf(l.rows, call, s),
           if call.Upload? then l.finals[call.source := 0]
           else map s | s in l.finals :: l.finals[s] + FinalsOf(l.rows, call, s))
  }

  /** What the status of a row says about its other fields. */
  predicate RowOk(row: Row) {
    && (row.status == Pending ==> row.startedAt == None)
    && (row.status == Processing ==> row.startedAt.Some?)
    && (Active(row) ==> row.completedAt == None)
    && (row.status == Completed ==> row.completedAt.Some? && row.lastError == None)
    && (row.status == Failed ==> row.completedAt.Some? && row.lastError.Some?)
    && (row.lastError.Some? ==> 0 < |row.lastError.value| <= MAX_ERROR_LENGTH)
    && !row.status.Unrecognised?
  }

  /** The row is consistent, and was finalized at most once per time it was marked pending. */
  predicate RowInv(l: Ledger, s: Source)
    requires l.marks.Keys == l.finals.Keys == l.rows.Keys && s in l.rows
  {
    RowOk(l.rows[s]) && l.finals[s] + (if Active(l.rows[s]) then 1 else 0) <= l.marks[s]
  }

  predicate Inv(l: Ledger) {
    && l.marks.Keys == l.finals.Keys == l.rows.Keys
    && (forall s :: s in l.rows ==> RowInv(l, s))
  }

  predicate Allowed(l: Ledger, calls: seq<Call>)
    requires l.marks.Keys == l.finals.Keys == l.rows.Keys
    decreases |calls|
  {
    calls == [] || (Enabled(l.rows, calls[0]) && Allowed(Apply(l, calls[0]), calls[1..]))
  }

  function Exec(l: Ledger, calls: seq<Call>): Ledger
    requires l.marks.Keys == l.finals.Keys == l.rows.Keys && Allowed(l, calls)
    decreases |calls|
  {
    if calls == [] then l else Exec(Apply(l, calls[0]), calls[1..])
  }

  /** A marked row keeps nothing of its last run but its creation time. */
  lemma {:induction false} MarkListRow(rows: Table, sources: seq<Source>, order: int, s: Source)
    requires s in rows
    ensures var after := MarkList(rows, sources, order).0[s];
            if s in sources then after == MarkedPending(rows[s], after.sortOrder) else after == rows[s]
    ensures s in sources <==> Occurrences(sources, s) > 0
  {
    if sources == [] {
    } else {
      var head := sources[0];
      if head in rows {
        MarkListRow(rows[head := MarkedPending(rows[head], order)], sources[1..], order + 1, s);
      } else {
        MarkListRow(rows, sources[1..], order, s);
      }
    }
  }

  lemma WrittenRowsAreOk(row: Row, order: int, now: int, outcome: Outcome, reason: string)
    requires RowOk(row)
    ensures RowOk(MarkedPending(row, order)) && RowOk(Revived(row))
    ensures row.status == Pending ==> RowOk(Started(row, now))
    ensures Active(row) ==> RowOk(Finalized(row, outcome, now)) && !Active(Finalized(row, outcome, now))
    ensures row.status == Processing ==> RowOk(Requeued(row, reason))
  {
  }

  lemma StepKeepsRow(l: Ledger, call: Call, s: Source)
    requires Inv(l) && Enabled(l.rows, call) && s in l.rows
    ensures RowInv(Apply(l, call), s)
  {
    hide RowOk, ErrorText, Finalized;
    assert RowInv(l, s);
    match call {
      case Upload(_, _) =>
      case Revive => WrittenRowsAreOk(l.rows[s], 0, 0, Succeeded, "");
      case Mark(sources, order) =>
        MarkListRow(l.rows, sources, order, s);
        WrittenRowsAreOk(l.rows[s], MarkList(l.rows, sources, order).0[s].sortOrder, 0, Succeeded, "");
      case Drain(picked, now) =>
        StartListRow(l.rows, picked, now, s);
        WrittenRowsAreOk(l.rows[s], 0, now, Succeeded, "");
      case Finalize(_, outcome, now) => WrittenRowsAreOk(l.rows[s], 0, now, outcome, "");
      case Requeue(_, reason) => WrittenRowsAreOk(l.rows[s], 0, 0, Succeeded, reason);
    }
  }

  lemma StepKeepsInv(l: Ledger, call: Call)
    requires Inv(l) && Enabled(l.rows, call)
    ensures Inv(Apply(l, call))
  {
    hide MarksOf, FinalsOf, RowOk;
    var after := Apply(l, call);
    forall s | s in after.rows ensures RowInv(after, s) {
      if s in l.rows {
        StepKeepsRow(l, call, s);
      } else {
        FreshIsOk(call);
      }
    }
  }

  lemma FreshIsOk(call: Call)
    requires call.Upload?
    ensures RowOk(FreshRow(call.createdAt)) && !Active(FreshRow(call.createdAt))
  {
  }

  /** Row lifecycle over every run. */
  lemma {:induction false} RunKeepsInv(l: Ledger, calls: seq<Call>)
    requires Inv(l) && Allowed(l, calls)
    ensures Inv(Exec(l, calls))
    decreases |calls|
  {
    if calls == [] {
    } else {
      StepKeepsInv(l, calls[0]);
      RunKeepsInv(Apply(l, calls[0]), calls[1..]);
    }
  }

  lemma LifecycleFromScratch(calls: seq<Call>)
    requires Allowed(EMPTY, calls)
    ensures var end := Exec(EMPTY, calls);
            Inv(end) && forall s :: s in end.rows ==> RowOk(end.rows[s]) && end.finals[s] <= end.marks[s]
  {
    RunKeepsInv(EMPTY, calls);
  }

  // ----- queue order

  /** A source queued without an order is picked only after everything else that is pending. */
  lemma RetryGoesLast(rows: Table, source: Source, order: int, limit: nat, out: seq<Item>)
    requires source in rows && (forall s :: s in rows ==> rows[s].sortOrder < order)
    requires var after := rows[source := MarkedPending(rows[source], order)];
             Selection(PendingItems(after), limit, out)
    requires exists p :: p in out && p.source == source
    ensures forall s :: s in rows && rows[s].status == Pending ==> exists p :: p in out && p.source == s
  {
    var after := rows[source := MarkedPending(rows[source], order)];
    var last := Item(source, order, rows[source].createdAt);
    assert last in out;
    forall s | s in rows && rows[s].status == Pending ensures exists p :: p in out && p.source == s {
      if s != source {
        var p := Item(s, after[s].sortOrder, after[s].createdAt);
        assert p in PendingItems(after) && Before(p, last);
      }
    }
  }

  lemma {:induction false} MarkListOrders(rows: Table, sources: seq<Source>, order: int, i: nat)
    requires i < |sources| && Distinct(sources) && (forall s :: s in sources ==> s in rows)
    ensures MarkList(rows, sources, order).0[sources[i]] == MarkedPending(rows[sources[i]], order + i)
  {
    var head, rest := sources[0], sources[1..];
    var marked := rows[head := MarkedPending(rows[head], order)];
    assert forall s :: s in rest ==> s in sources;
    if i == 0 {
      MarkListRow(marked, rest, order + 1, head);
    } else {
      MarkListOrders(marked, rest, order + 1, i - 1);
    }
  }

  /** The pending items that queueing `sources` from `order` on makes. */
  function QueuedItems(rows: Table, sources: seq<Source>, order: int): (r: seq<Item>)
    requires forall s :: s in sources ==> s in rows
    ensures |r| == |sources|
  {
    seq(|sources|, i requires 0 <= i < |sources| => Item(sources[i], order + i, rows[sources[i]].createdAt))
  }

  lemma QueuedItemsArePending(rows: Table, sources: seq<Source>, order: int)
    requires Distinct(sources) && (forall s :: s in sources ==> s in rows)
    requires forall s :: s in rows && rows[s].status == Pending ==> s in sources
    ensures PendingItems(MarkList(rows, sources, order).0) == Members(QueuedItems(rows, sources, order))
  {
    var marked, items := MarkList(rows, sources, order).0, QueuedItems(rows, sources, order);
    forall i | 0 <= i < |sources| ensures items[i] in PendingItems(marked) {
      MarkListOrders(rows, sources, order, i);
    }
    forall s | s in rows && marked[s].status == Pending
      ensures Item(s, marked[s].sortOrder, marked[s].createdAt) in Members(items)
    {
      MarkListRow(rows, sources, order, s);
      var i :| 0 <= i < |sources| && sources[i] == s;
      MarkListOrders(rows, sources, order, i);
      assert items[i] in items;
    }
  }

  /** Sources queued together on a project with nothing else pending are picked in the order given. */
  lemma QueuedTogetherPickedInOrder(rows: Table, sources: seq<Source>, order: int, limit: nat, out: seq<Item>)
    requires Distinct(sources) && (forall s :: s in sources ==> s in rows)
    requires forall s :: s in rows && rows[s].status == Pending ==> s in sources
    requires Selection(PendingItems(MarkList(rows, sources, order).0), limit, out)
    ensures out == Cut(QueuedItems(rows, sources, order), limit)
  {
    hide MarkList, MarkedPending, PendingItems;
    var items := QueuedItems(rows, sources, order);
    QueuedItemsArePending(rows, sources, order);
    MembersSize(items);
    CutKeepsSelection(items, limit);
    assert forall p :: p in items <==> p in Members(items);
    assert Selection(Members(items), limit, Cut(items, limit));
    SelectionIsUnique(Members(items), limit, out, Cut(items, limit));
  }
}
