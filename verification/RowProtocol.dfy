/**
 The rows of a project under every interleaving of `Workers`: which steps keep them consistent, and
 which keep the number of finalizations within the number of markings
 (app/services/project_queue_service.py:213-274, 362-493).
 */
module RowProtocol {
  import opened Wrappers
  import opened QueueRows
  import opened Workers
  import Lifecycle

  // ----- consistency

  predicate RowsOk(rows: Table) {
    forall s :: s in rows ==> Lifecycle.RowOk(rows[s])
  }

  /** What a worker has read was consistent, and was what it wanted to see. */
  predicate PcOk(pc: Pc) {
    && (pc.Loaded? ==> Lifecycle.RowOk(pc.row) && Active(pc.row))
    && (pc.Fetched? ==> Lifecycle.RowOk(pc.row) && pc.row.status == Processing)
    && (pc.Marking? ==> forall s :: s in pc.marks ==> Lifecycle.RowOk(pc.marks[s].loaded))
  }

  predicate PcsOk(s: State) {
    forall w :: w in s.pcs ==> PcOk(s.pcs[w])
  }

  predicate Consistent(s: State) {
    RowsOk(s.rows) && PcsOk(s)
  }

  /** The finalizer means to leave the error as it read it, and since then one was set or cleared. */
  predicate ErrorMissed(current: Row, loaded: Row, outcome: Outcome) {
    && Finalized(loaded, outcome, 0).lastError == loaded.lastError
    && current.lastError.Some? != loaded.lastError.Some?
  }

  /** The row was completed or failed since the re-queue read it. */
  predicate CompletionMissed(current: Row) {
    current.completedAt.Some?
  }

  /** The marking means to leave a time or the status as it read it, and since then it was set. */
  predicate ChangeMissed(current: Row, loaded: Row) {
    if loaded.status == Pending then current.status == Failed && loaded.lastError.Some?
    else
      || (loaded.startedAt == None && current.startedAt.Some?)
      || (loaded.completedAt == None && current.completedAt.Some?)
  }

  /** The step commits over a change that it does not know of. */
  predicate Overlooks(s: State, step: Step) {
    match step
    case Commit(w, _) =>
      && w in s.pcs && s.pcs[w].Loaded? && s.pcs[w].source in s.rows
      && ErrorMissed(s.rows[s.pcs[w].source], s.pcs[w].row, s.pcs[w].outcome)
    case CommitRequeue(w) =>
      w in s.pcs && s.pcs[w].Fetched? && s.pcs[w].source in s.rows && CompletionMissed(s.rows[s.pcs[w].source])
    case CommitMarks(w) =>
      && w in s.pcs && s.pcs[w].Marking?
      && exists r :: r in s.rows && r in s.pcs[w].marks && ChangeMissed(s.rows[r], s.pcs[w].marks[r].loaded)
    case _ => false
  }

  lemma FinalizeKeepsRowExactly(current: Row, loaded: Row, outcome: Outcome, now: int)
    requires Lifecycle.RowOk(current) && Lifecycle.RowOk(loaded) && Active(loaded)
    ensures Lifecycle.RowOk(AfterFinalize(current, loaded, outcome, now)) <==> !ErrorMissed(current, loaded, outcome)
  {
  }

  lemma RequeueKeepsRowExactly(current: Row, loaded: Row, reason: string)
    requires Lifecycle.RowOk(current) && Lifecycle.RowOk(loaded) && loaded.status == Processing
    ensures Lifecycle.RowOk(AfterRequeue(current, loaded, reason)) <==> !CompletionMissed(current)
  {
  }

  lemma MarkKeepsRowExactly(current: Row, mark: Mark)
    requires Lifecycle.RowOk(current) && Lifecycle.RowOk(mark.loaded)
    ensures Lifecycle.RowOk(AfterMark(current, mark)) <==> !ChangeMissed(current, mark.loaded)
  {
  }

  lemma OtherCallsKeepRowsOk(rows: Table, call: Lifecycle.Call)
    requires RowsOk(rows) && Lifecycle.Enabled(rows, call) && (call.Upload? || call.Revive? || call.Drain?)
    ensures RowsOk(Lifecycle.ApplyRows(rows, call))
  {
    forall s | s in Lifecycle.ApplyRows(rows, call) ensures Lifecycle.RowOk(Lifecycle.ApplyRows(rows, call)[s]) {
      if s in rows && call.Drain? {
        StartListRow(rows, call.picked, call.now, s);
      }
    }
  }

  lemma MarksKeepRowsExactly(rows: Table, marks: map<Source, Mark>)
    requires RowsOk(rows) && PcOk(Marking(marks))
    ensures RowsOk(AfterMarks(rows, marks)) <==>
            !exists r :: r in rows && r in marks && ChangeMissed(rows[r], marks[r].loaded)
  {
    hide AfterMark, Lifecycle.RowOk, ChangeMissed;
    var after := AfterMarks(rows, marks);
    forall r | r in rows && r in marks ensures Lifecycle.RowOk(after[r]) <==> !ChangeMissed(rows[r], marks[r].loaded) {
      MarkKeepsRowExactly(rows[r], marks[r]);
    }
    if r :| r in rows && r in marks && ChangeMissed(rows[r], marks[r].loaded) {
      assert r in after && !Lifecycle.RowOk(after[r]);
    }
  }

  lemma PcsStayOk(s: State, step: Step)
    requires Consistent(s) && Enabled(s, step)
    ensures PcsOk(Apply(s, step))
  {
    hide Lifecycle.RowOk, Written, AfterMarks, SomeActive, Lifecycle.ApplyRows, MarksAfter;
  }

  /** A step keeps the rows consistent exactly when it commits over no change that it overlooks. */
  lemma StepKeepsRowsExactly(s: State, step: Step)
    requires Consistent(s) && Enabled(s, step)
    ensures Consistent(Apply(s, step)) <==> !Overlooks(s, step)
  {
    PcsStayOk(s, step);
    hide Lifecycle.RowOk, AfterFinalize, AfterRequeue, AfterMarks, ErrorMissed, CompletionMissed, ChangeMissed;
    hide Lifecycle.ApplyRows;
    var after := Apply(s, step).rows;
    if step.Commit? {
      var pc := s.pcs[step.w];
      FinalizeKeepsRowExactly(s.rows[pc.source], pc.row, pc.outcome, step.now);
      assert after[pc.source] == AfterFinalize(s.rows[pc.source], pc.row, pc.outcome, step.now);
    } else if step.CommitRequeue? {
      var pc := s.pcs[step.w];
      RequeueKeepsRowExactly(s.rows[pc.source], pc.row, pc.reason);
      assert after[pc.source] == AfterRequeue(s.rows[pc.source], pc.row, pc.reason);
    } else if step.CommitMarks? {
      MarksKeepRowsExactly(s.rows, s.pcs[step.w].marks);
    } else if step.Other? {
      OtherCallsKeepRowsOk(s.rows, step.call);
    }
  }

  ghost const CONSISTENT: State -> bool := (s: State) => Consistent(s)

  ghost const OVERLOOKS: (State, Step) -> bool := (s: State, step: Step) => Overlooks(s, step)

  /** Row lifecycle with reads and commits interleaved in any way: consistent throughout exactly when nothing is overlooked. */
  lemma LifecycleInterleavedExactly(s: State, steps: seq<Step>)
    requires Consistent(s) && Allowed(s, steps)
    ensures Always(s, steps, CONSISTENT) <==> Never(s, steps, OVERLOOKS)
  {
    forall t, step | CONSISTENT(t) && Enabled(t, step) ensures CONSISTENT(Apply(t, step)) <==> !OVERLOOKS(t, step) {
      StepKeepsRowsExactly(t, step);
    }
    ExactlyWhen(s, steps, CONSISTENT, OVERLOOKS);
  }

  // ----- three ways to overlook a change

  /** The document row after these steps, if they are possible. */
  function EndRow(row: Row, steps: seq<Step>): Option<Row> {
    if Allowed(Pair(row), steps) && Document(1) in Exec(Pair(row), steps).rows
    then Some(Exec(Pair(row), steps).rows[Document(1)]) else None
  }

  /** A re-queue overtaken by a finalizer: a pending row with a completion time. */
  lemma OvertakenRequeue(row: Row)
    requires row.status == Processing && Lifecycle.RowOk(row)
    ensures var steps := [Fetch(1, Document(1), "busy"), Load(2, Document(1), Succeeded), Commit(2, 5), CommitRequeue(1)];
            var end := EndRow(row, steps);
            && Consistent(Pair(row)) && end.Some?
            && var after := end.value;
            && after.status == Pending && after.completedAt == Some(5) && !Lifecycle.RowOk(after)
  {
    FourSteps(Pair(row), Fetch(1, Document(1), "busy"), Load(2, Document(1), Succeeded), Commit(2, 5), CommitRequeue(1));
  }

  /** A success that read no error does not clear the one written since: a completed row with an error. */
  lemma SuccessKeepsForeignError(row: Row)
    requires row.status == Processing && Lifecycle.RowOk(row) && row.lastError == None
    ensures var failure := Broke(None, "pipeline_failed");
            var steps := [Load(1, Document(1), Succeeded), Load(2, Document(1), failure), Commit(2, 5), Commit(1, 6)];
            var end := EndRow(row, steps);
            && Consistent(Pair(row)) && end.Some?
            && var after := end.value;
            && after.status == Completed && after.lastError == Some("pipeline_failed") && !Lifecycle.RowOk(after)
  {
    FourSteps(Pair(row), Load(1, Document(1), Succeeded), Load(2, Document(1), Broke(None, "pipeline_failed")),
         Commit(2, 5), Commit(1, 6));
  }

  /** A marking that read the row before it completed: a pending row with a completion time. */
  lemma MarkKeepsForeignCompletion(row: Row)
    requires row.status == Processing && Lifecycle.RowOk(row)
    ensures var steps := [LoadMark(1, Document(1), 0), Load(2, Document(1), Succeeded), Commit(2, 5), CommitMarks(1)];
            var end := EndRow(row, steps);
            && Consistent(Pair(row)) && end.Some?
            && var after := end.value;
            && after.status == Pending && after.completedAt == Some(5) && !Lifecycle.RowOk(after)
  {
    FourSteps(Pair(row), LoadMark(1, Document(1), 0), Load(2, Document(1), Succeeded), Commit(2, 5), CommitMarks(1));
  }

  // ----- finalizations against markings

  /** The row was finalized at most once per time it was marked, and may be finalized once more while it is active. */
  predicate CountOk(s: State, r: Source)
    requires r in s.rows
  {
    CountOf(s.finals, r) + (if Active(s.rows[r]) then 1 else 0) <= CountOf(s.marks, r)
  }

  /** Finalizers have read active rows, re-queues processing ones. */
  predicate PcsActive(s: State) {
    forall w :: w in s.pcs ==>
      (s.pcs[w].Loaded? ==> Active(s.pcs[w].row)) && (s.pcs[w].Fetched? ==> s.pcs[w].row.status == Processing)
  }

  predicate Counted(s: State) {
    PcsActive(s) && forall r :: r in s.rows ==> CountOk(s, r)
  }

  /** The row is finished, and every marking of it has been answered by a finalization. */
  predicate Spent(s: State, r: Source) {
    r in s.rows && !Active(s.rows[r]) && CountOf(s.finals, r) == CountOf(s.marks, r)
  }

  /** A finalizer or a re-queue commits on a row that is spent. */
  predicate Overruns(s: State, step: Step) {
    match step
    case Commit(w, _) => w in s.pcs && s.pcs[w].Loaded? && Spent(s, s.pcs[w].source)
    case CommitRequeue(w) => w in s.pcs && s.pcs[w].Fetched? && Spent(s, s.pcs[w].source)
    case _ => false
  }

  lemma OtherCallsKeepCounts(s: State, call: Lifecycle.Call)
    requires Enabled(s, Other(call)) && forall r :: r in s.rows ==> CountOk(s, r)
    ensures var after := Apply(s, Other(call)); forall r :: r in after.rows ==> CountOk(after, r)
  {
    var after := Apply(s, Other(call));
    forall r | r in after.rows ensures CountOk(after, r) {
      if r in s.rows {
        assert CountOk(s, r);
        if call.Drain? {
          StartListRow(s.rows, call.picked, call.now, r);
        }
      }
    }
  }

  lemma MarksKeepCounts(s: State, w: Worker)
    requires Enabled(s, CommitMarks(w)) && forall r :: r in s.rows ==> CountOk(s, r)
    ensures var after := Apply(s, CommitMarks(w)); forall r :: r in after.rows ==> CountOk(after, r)
  {
    hide AfterMark;
    var after := Apply(s, CommitMarks(w));
    forall r | r in after.rows ensures CountOk(after, r) {
      assert CountOk(s, r);
    }
  }

  lemma CommitKeepsCountsExactly(s: State, step: Step)
    requires Counted(s) && Enabled(s, step) && (step.Commit? || step.CommitRequeue?)
    ensures Counted(Apply(s, step)) <==> !Overruns(s, step)
  {
    hide AfterFinalize, AfterRequeue;
    var pc, after := s.pcs[step.w], Apply(s, step);
    WritesDecideActivity(s.rows[pc.source], pc.row, if pc.Loaded? then pc.outcome else Succeeded,
                         if step.Commit? then step.now else 0, if pc.Fetched? then pc.reason else "");
    assert CountOk(s, pc.source);
    assert CountOk(after, pc.source) <==> !Overruns(s, step);
    assert forall r :: r in s.rows && r != pc.source ==> CountOk(s, r);
  }

  /** A step keeps finalizations within markings exactly when it does not commit on a spent row. */
  lemma StepKeepsCountsExactly(s: State, step: Step)
    requires Counted(s) && Enabled(s, step)
    ensures Counted(Apply(s, step)) <==> !Overruns(s, step)
  {
    hide Apply;
    PcsStayActive(s, step);
    if step.Other? {
      OtherCallsKeepCounts(s, step.call);
    } else if step.CommitMarks? {
      MarksKeepCounts(s, step.w);
    } else if step.Commit? || step.CommitRequeue? {
      CommitKeepsCountsExactly(s, step);
    } else {
      assert forall r :: r in s.rows ==> CountOk(s, r);
    }
  }

  lemma PcsStayActive(s: State, step: Step)
    requires PcsActive(s) && Enabled(s, step)
    ensures PcsActive(Apply(s, step))
    ensures !step.Other? && !step.CommitMarks? && !step.Commit? && !step.CommitRequeue? ==>
              var after := Apply(s, step); after.rows == s.rows && after.marks == s.marks && after.finals == s.finals
  {
    hide AfterFinalize, AfterRequeue, AfterMarks, Lifecycle.ApplyRows, MarksAfter, SomeActive;
  }

  ghost const COUNTED: State -> bool := (s: State) => Counted(s)

  ghost const OVERRUNS: (State, Step) -> bool := (s: State, step: Step) => Overruns(s, step)

  /** Finalizations stay within markings throughout a run exactly when nothing is committed on a spent row. */
  lemma FinalsWithinMarksExactly(s: State, steps: seq<Step>)
    requires Counted(s) && Allowed(s, steps)
    ensures Always(s, steps, COUNTED) <==> Never(s, steps, OVERRUNS)
  {
    forall t, step | COUNTED(t) && Enabled(t, step) ensures COUNTED(Apply(t, step)) <==> !OVERRUNS(t, step) {
      StepKeepsCountsExactly(t, step);
    }
    ExactlyWhen(s, steps, COUNTED, OVERRUNS);
  }

  /** Two finalizers that read the same row: two finalizations for one marking. */
  lemma TwoFinalizersOverrun(row: Row)
    requires row.status == Processing
    ensures var steps := [Load(1, Document(1), Succeeded), Load(2, Document(1), Succeeded), Commit(1, 5), Commit(2, 6)];
            && Counted(Pair(row)) && Allowed(Pair(row), steps)
            && var end := Exec(Pair(row), steps);
            CountOf(end.finals, Document(1)) == 2 > CountOf(end.marks, Document(1))
  {
    FourSteps(Pair(row), Load(1, Document(1), Succeeded), Load(2, Document(1), Succeeded), Commit(1, 5), Commit(2, 6));
  }

  // ----- one transaction after the other

  /** The worker has read rows that it has yet to commit. */
  predicate Waiting(s: State, w: Worker) {
    w in s.pcs && (s.pcs[w].Loaded? || s.pcs[w].Fetched? || s.pcs[w].Marking?)
  }

  predicate OfWorker(step: Step, w: Worker) {
    match step
    case Other(_) => false
    case ClearOnUpload => false
    case _ => step.w == w
  }

  /** Whoever has read comes next, until it has committed. */
  ghost predicate OneAtATime(s: State, steps: seq<Step>)
    requires Allowed(s, steps)
    decreases |steps|
  {
    steps == [] || ((forall w :: Waiting(s, w) ==> OfWorker(steps[0], w)) && OneAtATime(Apply(s, steps[0]), steps[1..]))
  }

  /** What the worker has read is still what the table says. */
  predicate UpToDate(rows: Table, pc: Pc) {
    && (pc.Loaded? || pc.Fetched? ==> pc.source in rows && rows[pc.source] == pc.row)
    && (pc.Marking? ==> forall r :: r in pc.marks ==> r in rows && rows[r] == pc.marks[r].loaded)
  }

  ghost predicate Undisturbed(s: State) {
    forall w :: Waiting(s, w) ==> UpToDate(s.rows, s.pcs[w])
  }

  lemma StepLeavesUndisturbed(s: State, step: Step)
    requires Undisturbed(s) && Enabled(s, step) && forall w :: Waiting(s, w) ==> OfWorker(step, w)
    ensures Undisturbed(Apply(s, step))
  {
    hide AfterFinalize, AfterRequeue, AfterMarks, Lifecycle.ApplyRows, MarksAfter, SomeActive;
    var after := Apply(s, step);
    forall v | Waiting(after, v) ensures UpToDate(after.rows, after.pcs[v]) {
      if Waiting(s, v) {
        assert OfWorker(step, v) && UpToDate(s.rows, s.pcs[v]);
      }
      assert step.Load? || step.Fetch? || step.LoadMark?;
    }
  }

  /** A commit of what is still there overlooks nothing and does not overrun. */
  lemma UndisturbedStepIsSafe(s: State, step: Step)
    requires Consistent(s) && Counted(s) && Undisturbed(s) && Enabled(s, step)
    ensures !Overlooks(s, step) && !Overruns(s, step)
  {
    hide ErrorText, Apply;
    if step.Commit? || step.CommitRequeue? || step.CommitMarks? {
      assert Waiting(s, step.w);
    }
  }

  /** Transactions that do not overlap keep rows consistent and finalizations within markings. */
  lemma {:induction false} OneAtATimeIsSafe(s: State, steps: seq<Step>)
    requires Consistent(s) && Counted(s) && Undisturbed(s) && Allowed(s, steps) && OneAtATime(s, steps)
    ensures Never(s, steps, OVERLOOKS) && Never(s, steps, OVERRUNS)
    ensures Consistent(Exec(s, steps)) && Counted(Exec(s, steps))
    decreases |steps|
  {
    hide Apply, Enabled, Consistent, Counted, Undisturbed, Overlooks, Overruns, Waiting, OfWorker;
    if steps == [] {
    } else {
      UndisturbedStepIsSafe(s, steps[0]);
      StepKeepsRowsExactly(s, steps[0]);
      StepKeepsCountsExactly(s, steps[0]);
      StepLeavesUndisturbed(s, steps[0]);
      OneAtATimeIsSafe(Apply(s, steps[0]), steps[1..]);
    }
  }

  /** From no rows: what holds of serial transactions follows from the interleaved machine. */
  lemma SerialLifecycle(s: State, steps: seq<Step>)
    requires s.rows == map[] && (forall w :: w in s.pcs ==> s.pcs[w] == Off)
    requires Allowed(s, steps) && OneAtATime(s, steps)
    ensures var end := Exec(s, steps);
            forall r :: r in end.rows ==> Lifecycle.RowOk(end.rows[r]) && CountOf(end.finals, r) <= CountOf(end.marks, r)
  {
    OneAtATimeIsSafe(s, steps);
    var end := Exec(s, steps);
    assert forall r :: r in end.rows ==> CountOk(end, r);
  }
}
