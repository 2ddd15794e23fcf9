/**
 Clearing the LLM cache of a project (app/services/project_queue_service.py:352-471), under every
 interleaving of `Workers`.
 */
module CacheProtocol {
  import opened Wrappers
  import opened QueueRows
  import opened Workers
  import Lifecycle

  // ----- no lost invalidation

  /** The worker has committed a finalization and may still delete the cache. */
  predicate Ahead(s: State, w: Worker) {
    w in s.pcs && (s.pcs[w].Committed? || s.pcs[w] == CheckingDocuments
                   || s.pcs[w] == CheckingAudios(false) || s.pcs[w] == Clearing)
  }

  /** The cache is older than a finalization, and no row will bring another one. */
  predicate Owed(s: State) {
    s.clearedAt < s.committed && !AnyActive(s.rows)
  }

  /** Stamps come from the past, and whatever is owed has a worker that will still do it. */
  ghost predicate Inv(s: State) {
    && s.clearedAt <= s.committed
    && (forall stamp :: stamp in s.cache ==> stamp <= s.committed)
    && (forall w :: w in s.pcs && s.pcs[w].Computing? ==> s.pcs[w].stamp <= s.committed)
    && (Owed(s) ==> exists w :: Ahead(s, w))
  }

  /** The only worker that would still clear an idle project's old cache dies. */
  ghost predicate Fatal(s: State, step: Step) {
    step.Die? && Ahead(s, step.w) && Owed(s) && forall w :: w != step.w ==> !Ahead(s, w)
  }

  predicate Init(s: State) {
    s.committed == 0 && s.clearedAt == 0 && s.cache <= {0} && (forall w :: w in s.pcs ==> s.pcs[w] == Off)
  }

  /** Uploads, revivals and drains keep active rows active. */
  lemma OtherCallsKeepActive(rows: Table, call: Lifecycle.Call)
    requires Lifecycle.Enabled(rows, call) && (call.Upload? || call.Revive? || call.Drain?)
    requires AnyActive(rows)
    ensures AnyActive(Lifecycle.ApplyRows(rows, call))
  {
    var s :| s in rows && Active(rows[s]);
    if call.Drain? {
      StartListRow(rows, call.picked, call.now, s);
    }
    assert s in Lifecycle.ApplyRows(rows, call) && Active(Lifecycle.ApplyRows(rows, call)[s]);
  }

  /** What a re-queue or a marking leaves of an active row is active. */
  lemma WritesKeepActive(current: Row, loaded: Row, reason: string, mark: Mark)
    requires Active(current)
    ensures Active(AfterRequeue(current, loaded, reason)) && Active(AfterMark(current, mark))
  {
  }

  /** Only a finalizer can leave an idle project behind it. */
  lemma ActiveUnlessFinalized(s: State, step: Step)
    requires Enabled(s, step) && !step.Commit? && AnyActive(s.rows)
    ensures AnyActive(Apply(s, step).rows)
  {
    hide AfterRequeue, AfterMark;
    var r :| r in s.rows && Active(s.rows[r]);
    var after := Apply(s, step).rows;
    if step.Other? {
      OtherCallsKeepActive(s.rows, step.call);
    } else if step.CommitRequeue? {
      var pc := s.pcs[step.w];
      WritesKeepActive(s.rows[r], pc.row, pc.reason, Mark(pc.row, 0));
      assert r in after && Active(after[r]);
    } else if step.CommitMarks? {
      if r in s.pcs[step.w].marks {
        WritesKeepActive(s.rows[r], s.rows[r], "", s.pcs[step.w].marks[r]);
      }
      assert r in after && Active(after[r]);
    }
  }

  /** The heart of it: the step that makes the duty pass away is the deletion itself. */
  lemma StepLeavesSomeoneAhead(s: State, step: Step)
    requires Inv(s) && Enabled(s, step) && !Fatal(s, step) && Owed(Apply(s, step))
    ensures exists w :: Ahead(Apply(s, step), w)
  {
    var after := Apply(s, step);
    if step.Commit? {
      assert Ahead(after, step.w);
    } else {
      if AnyActive(s.rows) {
        ActiveUnlessFinalized(s, step);
        assert false;
      }
      hide AfterRequeue, AfterMarks;
      var w :| Ahead(s, w) && (step.Die? ==> w != step.w);
      assert forall documents :: !SomeActive(s.rows, documents);
      assert Ahead(after, w);
    }
  }

  lemma StampsStayInThePast(s: State, step: Step)
    requires Inv(s) && Enabled(s, step)
    ensures var after := Apply(s, step);
            && after.clearedAt <= after.committed
            && (forall stamp :: stamp in after.cache ==> stamp <= after.committed)
            && (forall w :: w in after.pcs && after.pcs[w].Computing? ==> after.pcs[w].stamp <= after.committed)
  {
    hide Written, AfterMarks, SomeActive, Lifecycle.ApplyRows, MarksAfter;
  }

  /** A step loses the invalidation exactly when it is the death of the only worker that owed it. */
  lemma StepKeepsInvExactly(s: State, step: Step)
    requires Inv(s) && Enabled(s, step)
    ensures Inv(Apply(s, step)) <==> !Fatal(s, step)
  {
    StampsStayInThePast(s, step);
    var after := Apply(s, step);
    if Fatal(s, step) {
      forall w ensures !Ahead(after, w) {
        assert w != step.w ==> !Ahead(s, w);
      }
    } else if Owed(after) {
      StepLeavesSomeoneAhead(s, step);
    }
  }

  ghost const INV: State -> bool := (s: State) => Inv(s)

  ghost const FATAL: (State, Step) -> bool := (s: State, step: Step) => Fatal(s, step)

  /** Somebody will clear the cache at every moment of a run exactly when no fatal death happens in it. */
  lemma InvalidationIsOwedExactly(s: State, steps: seq<Step>)
    requires Inv(s) && Allowed(s, steps)
    ensures Always(s, steps, INV) <==> Never(s, steps, FATAL)
  {
    forall t, step | INV(t) && Enabled(t, step) ensures INV(Apply(t, step)) <==> !FATAL(t, step) {
      StepKeepsInvExactly(t, step);
    }
    ExactlyWhen(s, steps, INV, FATAL);
  }

  /** The project is idle and every finalizer is through. */
  ghost predicate Settled(s: State) {
    !AnyActive(s.rows) && forall w :: !Ahead(s, w)
  }

  /** No lost invalidation: on a settled project the cache was cleared after the last finalization. */
  lemma NoLostInvalidation(s: State, steps: seq<Step>)
    requires Init(s) && Allowed(s, steps) && Never(s, steps, FATAL) && Settled(Exec(s, steps))
    ensures Exec(s, steps).clearedAt == Exec(s, steps).committed
  {
    InvalidationIsOwedExactly(s, steps);
    AlwaysAtTheEnd(s, steps, INV);
  }

  /** One finalizer that dies after its commit leaves the old cache behind. */
  lemma DeathLosesInvalidation(row: Row)
    requires row.status == Processing
    ensures var s := Pair(row).(cache := {0});
            && Init(s) && Enabled(s, Load(1, Document(1), Succeeded))
            && var loaded := Apply(s, Load(1, Document(1), Succeeded));
            && Enabled(loaded, Commit(1, 5))
            && var committed := Apply(loaded, Commit(1, 5));
            && Fatal(committed, Die(1))
            && var end := Apply(committed, Die(1));
            && Settled(end) && end.clearedAt < end.committed && 0 in end.cache
  {
    hide AfterFinalize, SomeActive;
    WritesDecideActivity(row, row, Succeeded, 5, "");
  }

  // ----- no needless invalidation

  ghost predicate IsActive(s: State, r: Source) {
    r in s.rows && (s.rows[r].status == Pending || s.rows[r].status == Processing)
  }

  /** No worker is past the reading that would have shown it the row. */
  ghost predicate NobodyPast(s: State, r: Source) {
    forall w :: w in s.pcs ==> s.pcs[w] != Clearing && (r.Document? ==> s.pcs[w] != CheckingAudios(false))
  }

  lemma StepSparesActive(s: State, step: Step, r: Source)
    requires Enabled(s, step) && IsActive(s, r) && NobodyPast(s, r) && !step.ClearOnUpload?
    ensures var after := Apply(s, step);
            NobodyPast(after, r) && s.cache <= after.cache && after.clearedAt == s.clearedAt
  {
    hide Written, AfterMarks, Lifecycle.ApplyRows, MarksAfter;
    assert SomeActive(s.rows, r.Document?);
  }

  /** While some row stays active, checks that begin clear nothing, however they interleave with other steps. */
  lemma {:induction false} ActiveProjectKeepsCache(s: State, steps: seq<Step>, r: Source)
    requires Allowed(s, steps) && NobodyPast(s, r) && Always(s, steps, (t: State) => IsActive(t, r))
    requires forall step :: step in steps ==> !step.ClearOnUpload?
    ensures s.cache <= Exec(s, steps).cache && Exec(s, steps).clearedAt == s.clearedAt
    decreases |steps|
  {
    hide Apply, Enabled, IsActive, NobodyPast;
    if steps == [] {
    } else {
      StepSparesActive(s, steps[0], r);
      ActiveProjectKeepsCache(Apply(s, steps[0]), steps[1..], r);
    }
  }

  // ----- entries that outlive the clearing

  /** No entry was computed before the last deletion's finalizations. */
  predicate Fresh(s: State) {
    forall stamp :: stamp in s.cache ==> s.clearedAt <= stamp
  }

  /** The writer read the corpus before a finalization that a deletion has already followed. */
  predicate Late(s: State, step: Step) {
    step.StoreEntry? && step.w in s.pcs && s.pcs[step.w].Computing? && s.pcs[step.w].stamp < s.clearedAt
  }

  /** A step leaves an old entry in the cache exactly when it is such a late store. */
  lemma FreshExactly(s: State, step: Step)
    requires Fresh(s) && Enabled(s, step)
    ensures Fresh(Apply(s, step)) <==> !Late(s, step)
  {
    hide Written, AfterMarks, SomeActive, Lifecycle.ApplyRows, MarksAfter;
    if Late(s, step) {
      assert s.pcs[step.w].stamp in Apply(s, step).cache;
    }
  }

  ghost const FRESH: State -> bool := (s: State) => Fresh(s)

  ghost const LATE: (State, Step) -> bool := (s: State, step: Step) => Late(s, step)

  lemma CacheIsFreshExactly(s: State, steps: seq<Step>)
    requires Fresh(s) && Allowed(s, steps)
    ensures Always(s, steps, FRESH) <==> Never(s, steps, LATE)
  {
    forall t, step | FRESH(t) && Enabled(t, step) ensures FRESH(Apply(t, step)) <==> !LATE(t, step) {
      FreshExactly(t, step);
    }
    ExactlyWhen(s, steps, FRESH, LATE);
  }

  /** Without fatal deaths and late stores nothing in a settled project's cache is older than its last finalization. */
  lemma NothingOldRemains(s: State, steps: seq<Step>)
    requires Init(s) && Allowed(s, steps) && Never(s, steps, FATAL) && Never(s, steps, LATE) && Settled(Exec(s, steps))
    ensures forall stamp :: stamp in Exec(s, steps).cache ==> stamp == Exec(s, steps).committed
  {
    NoLostInvalidation(s, steps);
    InvalidationIsOwedExactly(s, steps);
    CacheIsFreshExactly(s, steps);
    AlwaysAtTheEnd(s, steps, INV);
    AlwaysAtTheEnd(s, steps, FRESH);
  }

  /** Some step of the run is a late store of this stamp. */
  predicate StoredLate(s: State, steps: seq<Step>, stamp: nat)
    requires Allowed(s, steps)
    decreases |steps|
  {
    steps != []
    && ((Late(s, steps[0]) && s.pcs[steps[0].w].stamp == stamp) || StoredLate(Apply(s, steps[0]), steps[1..], stamp))
  }

  lemma OldEntryStep(s: State, step: Step, stamp: nat)
    requires Enabled(s, step) && stamp in Apply(s, step).cache && stamp < Apply(s, step).clearedAt
    ensures || (stamp in s.cache && stamp < s.clearedAt)
            || (Late(s, step) && s.pcs[step.w].stamp == stamp)
  {
    hide Written, AfterMarks, SomeActive, Lifecycle.ApplyRows, MarksAfter;
  }

  /** Every entry older than the last deletion comes from a late store. */
  lemma {:induction false} OldEntriesWereStoredLate(s: State, steps: seq<Step>, stamp: nat)
    requires Allowed(s, steps)
    requires stamp in Exec(s, steps).cache && stamp < Exec(s, steps).clearedAt
    ensures (stamp in s.cache && stamp < s.clearedAt) || StoredLate(s, steps, stamp)
    decreases |steps|
  {
    hide Apply, Enabled, Late;
    if steps == [] {
    } else {
      OldEntriesWereStoredLate(Apply(s, steps[0]), steps[1..], stamp);
      if !StoredLate(Apply(s, steps[0]), steps[1..], stamp) {
        OldEntryStep(s, steps[0], stamp);
      }
    }
  }

  const FAILURE: Outcome := Broke(None, "pipeline_failed")

  lemma BothHaveRead(row: Row)
    requires Active(row)
    ensures var s, a, b := Pair(row), ReadCorpus(2), Load(1, Document(1), FAILURE);
            && Enabled(s, a) && Enabled(Apply(s, a), b)
            && Apply(Apply(s, a), b)
               == s.(pcs := map[1 := Off, 2 := Off][2 := Computing(0)][1 := Loaded(Document(1), row, FAILURE)])
  {
  }

  lemma CommitFindsNoDocument(t: State, row: Row)
    requires At(t, 1, Loaded(Document(1), row, FAILURE)) && Active(row) && t.rows == map[Document(1) := row]
    ensures var a, b := Commit(1, 5), CheckDocuments(1);
            && Enabled(t, a) && Enabled(Apply(t, a), b)
            && var u := Apply(Apply(t, a), b);
            && u.pcs == t.pcs[1 := CheckingDocuments][1 := CheckingAudios(false)]
            && u.committed == t.committed + 1 && u.cache == t.cache && !AnyActive(u.rows)
  {
    hide AfterFinalize;
    WritesDecideActivity(row, row, FAILURE, 5, "");
  }

  /** A writer reads the corpus, a finalizer commits and finds no active document. */
  lemma ReadBeforeCommit(row: Row)
    requires row.status == Processing
    ensures var steps := [ReadCorpus(2), Load(1, Document(1), FAILURE), Commit(1, 5), CheckDocuments(1)];
            && Allowed(Pair(row), steps)
            && var t := Exec(Pair(row), steps);
            && At(t, 1, CheckingAudios(false)) && At(t, 2, Computing(0)) && t.pcs.Keys == {1, 2}
            && t.committed == 1 && t.cache == {} && !AnyActive(t.rows)
  {
    hide Apply, Enabled, Allowed, Exec, AnyActive;
    var s, a, b := Pair(row), ReadCorpus(2), Load(1, Document(1), FAILURE);
    BothHaveRead(row);
    CommitFindsNoDocument(Apply(Apply(s, a), b), row);
    FourSteps(s, a, b, Commit(1, 5), CheckDocuments(1));
  }

  lemma StoredAfterClearing(t: State)
    requires At(t, 1, CheckingAudios(false)) && At(t, 2, Computing(0)) && t.pcs.Keys == {1, 2}
    requires t.committed == 1 && t.cache == {} && !AnyActive(t.rows)
    ensures var steps := [CheckAudios(1), Clear(1), StoreEntry(2)];
            && Allowed(t, steps)
            && var end := Exec(t, steps);
            && Settled(end) && end.clearedAt == end.committed == 1 && end.cache == {0}
  {
    assert !SomeActive(t.rows, false);
    ThreeSteps(t, CheckAudios(1), Clear(1), StoreEntry(2));
  }

  /** A writer that read before a finalizer committed and stores after it cleared leaves an old entry. */
  lemma LateWriterLeavesOldEntry(row: Row)
    requires row.status == Processing
    ensures var first := [ReadCorpus(2), Load(1, Document(1), FAILURE), Commit(1, 5), CheckDocuments(1)];
            var steps := first + [CheckAudios(1), Clear(1), StoreEntry(2)];
            && Init(Pair(row)) && Allowed(Pair(row), steps)
            && var end := Exec(Pair(row), steps);
            && Settled(end) && end.clearedAt == end.committed == 1 && end.cache == {0}
  {
    hide Apply, Enabled, Settled, Allowed, Exec;
    var first := [ReadCorpus(2), Load(1, Document(1), FAILURE), Commit(1, 5), CheckDocuments(1)];
    ReadBeforeCommit(row);
    StoredAfterClearing(Exec(Pair(row), first));
    RunsCompose(Pair(row), first, [CheckAudios(1), Clear(1), StoreEntry(2)]);
  }
}
