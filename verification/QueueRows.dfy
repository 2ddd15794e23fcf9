/**
 The source rows of one project and what each transaction writes to them
 (app/services/project_queue_service.py:116-158, 185-274, 329-339, 362-493).
 */
module QueueRows {
  import opened Wrappers

  datatype Status = Idle | Pending | Processing | Completed | Failed | Unrecognised(text: string)

  datatype Source = Document(id: nat) | Audio(id: nat)

  datatype Row = Row(status: Status, sortOrder: int, createdAt: int,
                     startedAt: Option<int>, completedAt: Option<int>, lastError: Option<string>)

  type Table = map<Source, Row>

  type NonEmptyText = s: string | s != "" witness "-"

  /** How a pipeline ended; `fallback` stands in for a missing or empty message. */
  datatype Outcome = Succeeded | Broke(message: Option<string>, fallback: NonEmptyText)

  const MAX_ERROR_LENGTH: nat := 8000

  predicate Active(row: Row) {
    row.status == Pending || row.status == Processing
  }

  predicate AnyActive(rows: Table) {
    exists s :: s in rows && Active(rows[s])
  }

  // ----- what a transaction writes to one row

  function ErrorText(message: Option<string>, fallback: NonEmptyText): (r: string)
    ensures |r| <= 8000 && r != ""
    ensures message.Some? && message.value != "" ==> r <= message.value && (|message.value| <= 8000 ==> r == message.value)
    ensures message == None || message.value == "" ==> r <= fallback && (|fallback| <= 8000 ==> r == fallback)
    ensures message.Some? && |message.value| > 8000 ==> |r| == 8000
  {
    var text := if message.Some? && message.value != "" then message.value else fallback;
    if |text| <= MAX_ERROR_LENGTH then text else text[..MAX_ERROR_LENGTH]
  }

  function FreshRow(createdAt: int): Row {
    Row(Idle, 0, createdAt, None, None, None)
  }

  function MarkedPending(row: Row, order: int): Row {
    row.(status := Pending, sortOrder := order, startedAt := None, completedAt := None, lastError := None)
  }

  /** The bulk update: order and last error stay as they are. */
  function Revived(row: Row): Row {
    if row.status == Idle || row.status == Failed
    then row.(status := Pending, startedAt := None, completedAt := None) else row
  }

  function Started(row: Row, now: int): Row {
    row.(status := Processing, startedAt := Some(now))
  }

  function Finalized(row: Row, outcome: Outcome, now: int): Row {
    match outcome
    case Succeeded => row.(status := Completed, completedAt := Some(now), lastError := None)
    case Broke(message, fallback) =>
      row.(status := Failed, lastError := Some(ErrorText(message, fallback)), completedAt := Some(now))
  }

  function Requeued(row: Row, reason: string): Row {
    row.(status := Pending, startedAt := None,
         lastError := Some(ErrorText(Some(reason), "document_pipeline_busy")))
  }

  // ----- what a transaction writes to the table

  function ReviveAll(rows: Table): (r: Table)
    ensures r.Keys == rows.Keys
  {
    map s | s in rows :: Revived(rows[s])
  }

  /** Marks the sources that exist, in order, with consecutive sort orders; also the next free order. */
  function MarkList(rows: Table, sources: seq<Source>, order: int): (r: (Table, int))
    ensures r.0.Keys == rows.Keys
  {
    if sources == [] then (rows, order)
    else if sources[0] in rows
    then MarkList(rows[sources[0] := MarkedPending(rows[sources[0]], order)], sources[1..], order + 1)
    else MarkList(rows, sources[1..], order)
  }

  lemma {:induction false} MarkListAppend(rows: Table, a: seq<Source>, b: seq<Source>, order: int)
    ensures var (marked, next) := MarkList(rows, a, order);
            MarkList(rows, a + b, order) == MarkList(marked, b, next)
    decreases |a|
  {
    if a == [] {
      assert a + b == b;
    } else {
      assert (a + b)[1..] == a[1..] + b;
      if a[0] in rows {
        MarkListAppend(rows[a[0] := MarkedPending(rows[a[0]], order)], a[1..], b, order + 1);
      } else {
        MarkListAppend(rows, a[1..], b, order);
      }
    }
  }

  /** Positions of sources that exist. */
  ghost function Existing(rows: Table, sources: seq<Source>): set<nat> {
    set j | 0 <= j < |sources| && sources[j] in rows
  }

  lemma ExistingSnoc(rows: Table, sources: seq<Source>, last: Source)
    ensures Existing(rows, sources + [last]) == Existing(rows, sources) + if last in rows then {|sources|} else {}
  {
  }

  lemma {:induction false} MarkListNext(rows: Table, sources: seq<Source>, order: int)
    ensures MarkList(rows, sources, order).1 == order + |Existing(rows, sources)|
    decreases |sources|
  {
    if sources == [] {
    } else {
      var front, last := sources[..|sources| - 1], sources[|sources| - 1];
      assert front + [last] == sources;
      MarkListNext(rows, front, order);
      MarkListAppend(rows, front, [last], order);
      ExistingSnoc(rows, front, last);
    }
  }

  lemma {:induction false} MarkListKeepsCreated(rows: Table, sources: seq<Source>, order: int, s: Source)
    requires s in rows
    ensures MarkList(rows, sources, order).0[s].createdAt == rows[s].createdAt
  {
    if sources == [] {
    } else if sources[0] in rows {
      MarkListKeepsCreated(rows[sources[0] := MarkedPending(rows[sources[0]], order)], sources[1..], order + 1, s);
    } else {
      MarkListKeepsCreated(rows, sources[1..], order, s);
    }
  }

  lemma {:induction false} MarkListSpares(rows: Table, sources: seq<Source>, order: int, s: Source)
    requires s in rows && s !in sources
    ensures MarkList(rows, sources, order).0[s] == rows[s]
  {
    if sources == [] {
    } else if sources[0] in rows {
      MarkListSpares(rows[sources[0] := MarkedPending(rows[sources[0]], order)], sources[1..], order + 1, s);
    } else {
      MarkListSpares(rows, sources[1..], order, s);
    }
  }

  /**
   A listed source that exists is pending, with nothing left of its last run, and its order counts the
   existing sources before its last mention.
   */
  lemma {:induction false} MarkListAt(rows: Table, sources: seq<Source>, order: int, i: nat)
    requires i < |sources| && sources[i] in rows && sources[i] !in sources[i + 1..]
    ensures MarkList(rows, sources, order).0[sources[i]] ==
            Row(Pending, order + |Existing(rows, sources[..i])|, rows[sources[i]].createdAt, None, None, None)
  {
    hide Existing;
    var before, s, after := sources[..i], sources[i], sources[i + 1..];
    assert before + ([s] + after) == sources;
    MarkListAppend(rows, before, [s] + after, order);
    MarkListNext(rows, before, order);
    var (marked, next) := MarkList(rows, before, order);
    assert ([s] + after)[1..] == after;
    MarkListSpares(marked[s := MarkedPending(marked[s], next)], after, next + 1, s);
    MarkListKeepsCreated(rows, before, order, s);
  }

  function StartList(rows: Table, picked: seq<Source>, now: int): (r: Table)
    ensures r.Keys == rows.Keys
  {
    if picked == [] then rows
    else if picked[0] in rows
    then StartList(rows[picked[0] := Started(rows[picked[0]], now)], picked[1..], now)
    else StartList(rows, picked[1..], now)
  }

  lemma {:induction false} StartListRow(rows: Table, picked: seq<Source>, now: int, s: Source)
    requires s in rows
    ensures StartList(rows, picked, now)[s] == if s in picked then Started(rows[s], now) else rows[s]
  {
    if picked == [] {
    } else {
      var head := picked[0];
      StartListRow(if head in rows then rows[head := Started(rows[head], now)] else rows, picked[1..], now, s);
    }
  }

  /** A finalizer writes only while the row is pending or processing. */
  function FinalizeRow(rows: Table, source: Source, outcome: Outcome, now: int): Table {
    if source in rows && Active(rows[source])
    then rows[source := Finalized(rows[source], outcome, now)] else rows
  }

  function RequeueRow(rows: Table, source: Source, reason: string): Table {
    if source in rows && rows[source].status == Processing
    then rows[source := Requeued(rows[source], reason)] else rows
  }

  // ----- the summary

  datatype Summary = Summary(idle: nat, pending: nat, processing: nat, completed: nat, failed: nat,
                             current: seq<Source>)

  function HasActiveWork(summary: Summary): bool {
    summary.pending > 0 || summary.processing > 0
  }

  ghost function Indices(rows: seq<Row>, n: nat, status: Status): (r: set<nat>)
    requires n <= |rows|
  {
    set i | 0 <= i < n && rows[i].status == status
  }

  lemma NoIndices(rows: seq<Row>, status: Status)
    ensures Indices(rows, 0, status) == {}
  {
  }

  lemma NextIndex(rows: seq<Row>, n: nat, status: Status)
    requires n < |rows|
    ensures |Indices(rows, n + 1, status)| == |Indices(rows, n, status)| + if rows[n].status == status then 1 else 0
  {
    assert Indices(rows, n + 1, status) == Indices(rows, n, status) + if rows[n].status == status then {n} else {};
  }

  /** Everything that is not one of the four other statuses counts as idle. */
  method ComputeSummary(sources: seq<Source>, rows: seq<Row>) returns (r: Summary)
    requires |sources| == |rows|
    ensures r.pending == |Indices(rows, |rows|, Pending)|
    ensures r.processing == |Indices(rows, |rows|, Processing)|
    ensures r.completed == |Indices(rows, |rows|, Completed)|
    ensures r.failed == |Indices(rows, |rows|, Failed)|
    ensures r.idle + r.pending + r.processing + r.completed + r.failed == |rows|
    ensures HasActiveWork(r) <==> exists i :: 0 <= i < |rows| && Active(rows[i])
    ensures |r.current| == r.processing
    ensures forall s :: s in r.current <==> exists i :: 0 <= i < |rows| && sources[i] == s && rows[i].status == Processing
  {
    hide Indices;
    r := Summary(0, 0, 0, 0, 0, []);
    var i := 0;
    assert |Indices(rows, 0, Pending)| == |Indices(rows, 0, Processing)| == |Indices(rows, 0, Completed)|
        == |Indices(rows, 0, Failed)| == 0 by {
      NoIndices(rows, Pending);
      NoIndices(rows, Processing);
      NoIndices(rows, Completed);
      NoIndices(rows, Failed);
    }
    while i < |rows|
      invariant 0 <= i <= |rows|
      invariant r.pending == |Indices(rows, i, Pending)|
      invariant r.processing == |Indices(rows, i, Processing)|
      invariant r.completed == |Indices(rows, i, Completed)|
      invariant r.failed == |Indices(rows, i, Failed)|
      invariant r.idle + r.pending + r.processing + r.completed + r.failed == i
      invariant HasActiveWork(r) <==> exists j :: 0 <= j < i && Active(rows[j])
      invariant |r.current| == r.processing
      invariant forall s :: s in r.current <==> exists j :: 0 <= j < i && sources[j] == s && rows[j].status == Processing
    {
      NextIndex(rows, i, Pending);
      NextIndex(rows, i, Processing);
      NextIndex(rows, i, Completed);
      NextIndex(rows, i, Failed);
      match rows[i].status {
        case Pending => r := r.(pending := r.pending + 1);
        case Processing => r := r.(processing := r.processing + 1, current := r.current + [sources[i]]);
        case Completed => r := r.(completed := r.completed + 1);
        case Failed => r := r.(failed := r.failed + 1);
        case _ => r := r.(idle := r.idle + 1);
      }
      i := i + 1;
    }
  }
}
