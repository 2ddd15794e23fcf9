/**
 Everything that touches the rows and the LLM cache of one project at the same time
 (app/services/project_queue_service.py:185-517, app/services/project_cached_llm_service.py:66-109).

 Finalizers, re-queues and markings each read their rows in one step and commit in a later one; a
 finalizer then perhaps aggregates, reads the documents, reads the audios, deletes the cache and
 schedules the next drain; a cache writer reads the corpus and stores its entry when the model has
 answered.  All these steps interleave in any way, and workers may die between any two.

 A commit is the flush of a session: its UPDATE names only the columns that differ from the values
 read (app/infrastructure/db_sync.py:25), the others keep what is in the table.
 */
module Workers {
  import opened QueueRows
  import Lifecycle

  type Worker = nat

  /** A row read for marking, and the order it is to get. */
  datatype Mark = Mark(loaded: Row, order: int)

  /** Where a worker stands; what it has read so far decides what it writes next. */
  datatype Pc =
    | Off
    | Loaded(source: Source, row: Row, outcome: Outcome)
    | Committed(succeeded: bool)
    | CheckingDocuments
    | CheckingAudios(documentsActive: bool)
    | Clearing
    | Scheduling
    | Fetched(source: Source, row: Row, reason: string)
    | Marking(marks: map<Source, Mark>)
    | Computing(stamp: nat)

  /**
   `marks` and `finals` count for every source how often it was marked pending and finalized.
   `committed` counts all finalizations, and `clearedAt` is that count at the last deletion of the
   cache.  A cache entry is the count at the time its writer read the corpus.
   */
  datatype State = State(rows: Table, marks: map<Source, nat>, finals: map<Source, nat>, cache: set<nat>,
                         committed: nat, clearedAt: nat, pcs: map<Worker, Pc>)

  datatype Step =
    | Load(w: Worker, source: Source, outcome: Outcome)
    | Commit(w: Worker, now: int)
    | Aggregate(w: Worker)
    | CheckDocuments(w: Worker)
    | CheckAudios(w: Worker)
    | Clear(w: Worker)
    | Schedule(w: Worker)
    | Fetch(w: Worker, source: Source, reason: string)
    | CommitRequeue(w: Worker)
    | LoadMark(w: Worker, source: Source, order: int)
    | CommitMarks(w: Worker)
    | ReadCorpus(w: Worker)
    | StoreEntry(w: Worker)
    | ClearOnUpload
    | Other(call: Lifecycle.Call)
    | Die(w: Worker)

  predicate At(s: State, w: Worker, pc: Pc) {
    w in s.pcs && s.pcs[w] == pc
  }

  predicate Enabled(s: State, step: Step) {
    match step
    case Load(w, source, _) => At(s, w, Off) && source in s.rows && Active(s.rows[source])
    case Commit(w, _) => w in s.pcs && s.pcs[w].Loaded? && s.pcs[w].source in s.rows
    case Aggregate(w) => w in s.pcs && s.pcs[w].Committed?
    case CheckDocuments(w) => At(s, w, CheckingDocuments)
    case CheckAudios(w) => w in s.pcs && s.pcs[w].CheckingAudios?
    case Clear(w) => At(s, w, Clearing)
    case Schedule(w) => At(s, w, Scheduling)
    case Fetch(w, source, _) => At(s, w, Off) && source in s.rows && s.rows[source].status == Processing
    case CommitRequeue(w) => w in s.pcs && s.pcs[w].Fetched? && s.pcs[w].source in s.rows
    case LoadMark(w, source, _) => w in s.pcs && (s.pcs[w] == Off || s.pcs[w].Marking?) && source in s.rows
    case CommitMarks(w) => w in s.pcs && s.pcs[w].Marking?
    case ReadCorpus(w) => At(s, w, Off)
    case StoreEntry(w) => w in s.pcs && s.pcs[w].Computing?
    case ClearOnUpload => true
    case Other(call) => (call.Upload? || call.Revive? || call.Drain?) && Lifecycle.Enabled(s.rows, call)
    case Die(w) => w in s.pcs
  }

  predicate SomeActive(rows: Table, documents: bool) {
    exists s :: s in rows && s.Document? == documents && Active(rows[s])
  }

  function Changed<T(==)>(current: T, loaded: T, wanted: T): T {
    if wanted != loaded then wanted else current
  }

  /** The row after an UPDATE of the columns that were changed since the read. */
  function Written(current: Row, loaded: Row, wanted: Row): Row {
    Row(Changed(current.status, loaded.status, wanted.status),
        Changed(current.sortOrder, loaded.sortOrder, wanted.sortOrder),
        Changed(current.createdAt, loaded.createdAt, wanted.createdAt),
        Changed(current.startedAt, loaded.startedAt, wanted.startedAt),
        Changed(current.completedAt, loaded.completedAt, wanted.completedAt),
        Changed(current.lastError, loaded.lastError, wanted.lastError))
  }

  function AfterFinalize(current: Row, loaded: Row, outcome: Outcome, now: int): Row {
    Written(current, loaded, Finalized(loaded, outcome, now))
  }

  function AfterRequeue(current: Row, loaded: Row, reason: string): Row {
    Written(current, loaded, Requeued(loaded, reason))
  }

  function AfterMark(current: Row, mark: Mark): Row {
    Written(current, mark.loaded, MarkedPending(mark.loaded, mark.order))
  }

  function AfterMarks(rows: Table, marks: map<Source, Mark>): Table {
    map s | s in rows :: if s in marks then AfterMark(rows[s], marks[s]) else rows[s]
  }

  /** What a finalizer writes is finished, what a re-queue writes is active. */
  lemma WritesDecideActivity(current: Row, loaded: Row, outcome: Outcome, now: int, reason: string)
    ensures Active(loaded) ==> !Active(AfterFinalize(current, loaded, outcome, now))
    ensures loaded.status == Processing ==> Active(AfterRequeue(current, loaded, reason))
  {
  }

  function CountOf(counts: map<Source, nat>, s: Source): nat {
    if s in counts then counts[s] else 0
  }

  /** A row that is read twice in one session keeps the values of the first read. */
  function Noted(pc: Pc, source: Source, row: Row, order: int): Pc
    requires pc == Off || pc.Marking?
  {
    var marks := if pc.Marking? then pc.marks else map[];
    Marking(marks[source := Mark(if source in marks then marks[source].loaded else row, order)])
  }

  function MarksAfter(s: State, call: Lifecycle.Call): map<Source, nat> {
    if call.Upload? then s.marks[call.source := 0]
    else map r | r in s.rows :: CountOf(s.marks, r) + Lifecycle.MarksOf(s.rows, call, r)
  }

  function Apply(s: State, step: Step): State
    requires Enabled(s, step)
  {
    match step
    case Load(w, source, outcome) => s.(pcs := s.pcs[w := Loaded(source, s.rows[source], outcome)])
    case Commit(w, now) =>
      var pc := s.pcs[w];
      s.(rows := s.rows[pc.source := AfterFinalize(s.rows[pc.source], pc.row, pc.outcome, now)],
         finals := s.finals[pc.source := CountOf(s.finals, pc.source) + 1], committed := s.committed + 1,
         pcs := s.pcs[w := if pc.outcome.Succeeded? then Committed(true) else CheckingDocuments])
    case Aggregate(w) => s.(pcs := s.pcs[w := CheckingDocuments])
    case CheckDocuments(w) => s.(pcs := s.pcs[w := CheckingAudios(SomeActive(s.rows, true))])
    case CheckAudios(w) =>
      var active := s.pcs[w].documentsActive || SomeActive(s.rows, false);
      s.(pcs := s.pcs[w := if active then Scheduling else Clearing])
    case Clear(w) => s.(cache := {}, clearedAt := s.committed, pcs := s.pcs[w := Scheduling])
    case Schedule(w) => s.(pcs := s.pcs[w := Off])
    case Fetch(w, source, reason) => s.(pcs := s.pcs[w := Fetched(source, s.rows[source], reason)])
    case CommitRequeue(w) =>
      var pc := s.pcs[w];
      s.(rows := s.rows[pc.source := AfterRequeue(s.rows[pc.source], pc.row, pc.reason)], pcs := s.pcs[w := Off])
    case LoadMark(w, source, order) => s.(pcs := s.pcs[w := Noted(s.pcs[w], source, s.rows[source], order)])
    case CommitMarks(w) =>
      var marked := s.pcs[w].marks;
      s.(rows := AfterMarks(s.rows, marked),
         marks := map r | r in s.rows :: CountOf(s.marks, r) + if r in marked then 1 else 0,
         pcs := s.pcs[w := Off])
    case ReadCorpus(w) => s.(pcs := s.pcs[w := Computing(s.committed)])
    case StoreEntry(w) => s.(cache := s.cache + {s.pcs[w].stamp}, pcs := s.pcs[w := Off])
    case ClearOnUpload => s.(cache := {}, clearedAt := s.committed)
    case Other(call) =>
      s.(rows := Lifecycle.ApplyRows(s.rows, call), marks := MarksAfter(s, call),
         finals := if call.Upload? then s.finals[call.source := 0] else s.finals)
    case Die(w) => s.(pcs := s.pcs[w := Off])
  }

  predicate Allowed(s: State, steps: seq<Step>)
    decreases |steps|
  {
    steps == [] || (Enabled(s, steps[0]) && Allowed(Apply(s, steps[0]), steps[1..]))
  }

  function Exec(s: State, steps: seq<Step>): State
    requires Allowed(s, steps)
    decreases |steps|
  {
    if steps == [] then s else Exec(Apply(s, steps[0]), steps[1..])
  }

  /** The property holds before, between and after the steps. */
  ghost predicate Always(s: State, steps: seq<Step>, good: State -> bool)
    requires Allowed(s, steps)
    decreases |steps|
  {
    good(s) && (steps == [] || Always(Apply(s, steps[0]), steps[1..], good))
  }

  /** None of the steps is a bad one at its moment. */
  ghost predicate Never(s: State, steps: seq<Step>, bad: (State, Step) -> bool)
    requires Allowed(s, steps)
    decreases |steps|
  {
    steps == [] || (!bad(s, steps[0]) && Never(Apply(s, steps[0]), steps[1..], bad))
  }

  /** From exact steps to exact runs. */
  lemma {:induction false} ExactlyWhen(s: State, steps: seq<Step>, good: State -> bool, bad: (State, Step) -> bool)
    requires good(s) && Allowed(s, steps)
    requires forall t, step :: good(t) && Enabled(t, step) ==> (good(Apply(t, step)) <==> !bad(t, step))
    ensures Always(s, steps, good) <==> Never(s, steps, bad)
    decreases |steps|
  {
    hide Apply, Enabled;
    if steps == [] {
    } else if good(Apply(s, steps[0])) {
      ExactlyWhen(Apply(s, steps[0]), steps[1..], good, bad);
    }
  }

  lemma {:induction false} AlwaysAtTheEnd(s: State, steps: seq<Step>, good: State -> bool)
    requires Allowed(s, steps) && Always(s, steps, good)
    ensures good(Exec(s, steps))
    decreases |steps|
  {
    hide Apply, Enabled;
    if steps == [] {
    } else {
      AlwaysAtTheEnd(Apply(s, steps[0]), steps[1..], good);
    }
  }

  lemma AllowedStep(s: State, step: Step, rest: seq<Step>)
    requires Enabled(s, step) && Allowed(Apply(s, step), rest)
    ensures Allowed(s, [step] + rest) && Exec(s, [step] + rest) == Exec(Apply(s, step), rest)
  {
    hide Apply, Enabled;
    assert ([step] + rest)[1..] == rest;
  }

  lemma {:induction false} RunsCompose(s: State, first: seq<Step>, second: seq<Step>)
    requires Allowed(s, first) && Allowed(Exec(s, first), second)
    ensures Allowed(s, first + second) && Exec(s, first + second) == Exec(Exec(s, first), second)
    decreases |first|
  {
    hide Apply, Enabled;
    if first == [] {
      assert first + second == second;
    } else {
      RunsCompose(Apply(s, first[0]), first[1..], second);
      assert first + second == [first[0]] + (first[1..] + second);
      AllowedStep(s, first[0], first[1..] + second);
    }
  }

  lemma ThreeSteps(s: State, a: Step, b: Step, c: Step)
    requires Enabled(s, a) && Enabled(Apply(s, a), b) && Enabled(Apply(Apply(s, a), b), c)
    ensures Allowed(s, [a, b, c]) && Exec(s, [a, b, c]) == Apply(Apply(Apply(s, a), b), c)
  {
    hide Apply, Enabled;
    AllowedStep(Apply(Apply(s, a), b), c, []);
    AllowedStep(Apply(s, a), b, [c]);
    AllowedStep(s, a, [b, c]);
  }

  lemma FourSteps(s: State, a: Step, b: Step, c: Step, d: Step)
    requires Enabled(s, a) && Enabled(Apply(s, a), b)
    requires Enabled(Apply(Apply(s, a), b), c) && Enabled(Apply(Apply(Apply(s, a), b), c), d)
    ensures Allowed(s, [a, b, c, d]) && Exec(s, [a, b, c, d]) == Apply(Apply(Apply(Apply(s, a), b), c), d)
  {
    hide Apply, Enabled;
    ThreeSteps(Apply(s, a), b, c, d);
    AllowedStep(s, a, [b, c, d]);
  }

  /** One document row and two idle workers. */
  function Pair(row: Row): State {
    State(map[Document(1) := row], map[Document(1) := 1], map[], {}, 0, 0, map[1 := Off, 2 := Off])
  }
}
