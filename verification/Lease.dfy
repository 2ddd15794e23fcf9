/**
 The drain lease: Redis `SET NX EX` to take it, compare-token-and-delete to give it back
 (app/services/project_queue_service.py:58-94 and app/services/batch_queue_service.py:57-94).

 `Redis` is the server, `TryAcquire` and `Release` are the two functions of the services.  Below
 them any number of workers take and release leases in any order while time passes, calls get lost
 with or without effect, and workers die.
 */
module Lease {

  const TTL_SECONDS: nat := 6 * 3600
  /** Hard limit of a drain job (app/workers/tasks/project_processing_queue.py:69-73). */
  const DRAIN_TIME_LIMIT: nat := 6 * 3600
  const PROJECT_PREFIX: string := "ria:project_queue_lock:"
  const BATCH_PREFIX: string := "ria:batch_queue_lock:"

  function ProjectKey(id: string): string { PROJECT_PREFIX + id }

  function BatchKey(id: string): string { BATCH_PREFIX + id }

  /** A key with its token and the second at which it was set. */
  datatype Entry = Entry(token: string, setAt: nat)

  type Keys = map<string, Entry>

  datatype LockResult = LockResult(acquired: bool, token: string, busy: bool)

  /** What becomes of a call: no client, an answer, or an exception after which the server may have acted. */
  datatype Link = NoClient | Answered | Lost(landed: bool)

  predicate Live(keys: Keys, now: nat, key: string) {
    key in keys && now < keys[key].setAt + TTL_SECONDS
  }

  function AfterSet(keys: Keys, now: nat, key: string, token: string): Keys {
    if Live(keys, now, key) then keys else keys[key := Entry(token, now)]
  }

  function AfterCompareAndDelete(keys: Keys, now: nat, key: string, token: string): Keys {
    if Live(keys, now, key) && keys[key].token == token then keys - {key} else keys
  }

  /** Keys after an acquisition attempt. */
  function AcquireKeys(keys: Keys, now: nat, key: string, token: string, link: Link): Keys {
    if link == Answered || link == Lost(true) then AfterSet(keys, now, key, token) else keys
  }

  function AcquireResult(keys: Keys, now: nat, key: string, token: string, link: Link): LockResult {
    if link != Answered then LockResult(true, "", false)
    else if Live(keys, now, key) then LockResult(false, "", true)
    else LockResult(true, token, false)
  }

  function ReleaseKeys(keys: Keys, now: nat, key: string, token: string, link: Link): Keys {
    if token != "" && (link == Answered || link == Lost(true))
    then AfterCompareAndDelete(keys, now, key, token) else keys
  }

  /** The server. */
  class Redis {
    var now: nat
    var keys: Keys

    constructor ()
      ensures keys == map[]
    {
      now, keys := 0, map[];
    }

    method SetNxEx(key: string, token: string) returns (ok: bool)
      modifies this`keys
      ensures keys == AfterSet(old(keys), now, key, token)
      ensures ok <==> !Live(old(keys), now, key)
    {
      ok := !Live(keys, now, key);
      if ok {
        keys := keys[key := Entry(token, now)];
      }
    }

    method CompareAndDelete(key: string, token: string)
      modifies this`keys
      ensures keys == AfterCompareAndDelete(old(keys), now, key, token)
    {
      if Live(keys, now, key) && keys[key].token == token {
        keys := keys - {key};
      }
    }
  }

  method TryAcquire(r: Redis, key: string, token: string, link: Link) returns (result: LockResult)
    modifies r`keys
    ensures r.keys == AcquireKeys(old(r.keys), r.now, key, token, link)
    ensures result == AcquireResult(old(r.keys), r.now, key, token, link)
    ensures r.keys == if link != NoClient && link != Lost(false) && !Live(old(r.keys), r.now, key)
                      then old(r.keys)[key := Entry(token, r.now)] else old(r.keys)
    ensures result.acquired <==> link != Answered || !Live(old(r.keys), r.now, key)
    ensures result.busy <==> !result.acquired
    ensures result.token == if link == Answered && result.acquired then token else ""
  {
    if link == NoClient {
      return LockResult(true, "", false);
    }
    var ok := false;
    if link != Lost(false) {
      ok := r.SetNxEx(key, token);
    }
    if link.Lost? {
      return LockResult(true, "", false);
    }
    if ok {
      return LockResult(true, token, false);
    }
    return LockResult(false, "", true);
  }

  method Release(r: Redis, key: string, token: string, link: Link)
    modifies r`keys
    ensures r.keys == ReleaseKeys(old(r.keys), r.now, key, token, link)
    ensures r.keys == if token != "" && link != NoClient && link != Lost(false)
                         && Live(old(r.keys), r.now, key) && old(r.keys)[key].token == token
                      then old(r.keys) - {key} else old(r.keys)
  {
    if token == "" || link == NoClient {
      return;
    }
    if link != Lost(false) {
      r.CompareAndDelete(key, token);
    }
  }

  // ----- many workers

  type Worker = nat

  /** A worker between acquiring and releasing; `since` is when its token was set. */
  datatype Drain = Off | Draining(key: string, token: string, since: nat)

  /** `drawn` holds every token handed out so far: `token_urlsafe` never repeats one. */
  datatype System = System(now: nat, keys: Keys, drains: map<Worker, Drain>, drawn: set<string>)

  datatype Step =
    | Tick(seconds: nat)
    | Acquire(worker: Worker, key: string, token: string, link: Link)
    | GiveBack(worker: Worker, link: Link)
    | Die(worker: Worker)

  predicate Init(s: System) {
    s.keys == map[] && s.drawn == {} && (forall w :: w in s.drains ==> s.drains[w] == Off)
  }

  predicate Enabled(s: System, step: Step) {
    match step
    case Tick(_) => true
    case Acquire(w, _, token, _) => w in s.drains && s.drains[w] == Off && token != "" && token !in s.drawn
    case GiveBack(w, _) => w in s.drains && s.drains[w].Draining?
    case Die(w) => w in s.drains
  }

  function Apply(s: System, step: Step): System
    requires Enabled(s, step)
  {
    match step
    case Tick(seconds) => s.(now := s.now + seconds)
    case Acquire(w, key, token, link) =>
      var result := AcquireResult(s.keys, s.now, key, token, link);
      s.(keys := AcquireKeys(s.keys, s.now, key, token, link),
         drains := if result.acquired then s.drains[w := Draining(key, result.token, s.now)] else s.drains,
         drawn := s.drawn + {token})
    case GiveBack(w, link) =>
      var d := s.drains[w];
      s.(keys := ReleaseKeys(s.keys, s.now, d.key, d.token, link), drains := s.drains[w := Off])
    case Die(w) => s.(drains := s.drains[w := Off])
  }

  predicate Allowed(s: System, steps: seq<Step>)
    decreases |steps|
  {
    steps == [] || (Enabled(s, steps[0]) && Allowed(Apply(s, steps[0]), steps[1..]))
  }

  function Exec(s: System, steps: seq<Step>): System
    requires Allowed(s, steps)
    decreases |steps|
  {
    if steps == [] then s else Exec(Apply(s, steps[0]), steps[1..])
  }

  /** The worker holds a real lease that has not run out. */
  predicate Holds(s: System, w: Worker, key: string) {
    && w in s.drains && s.drains[w].Draining? && s.drains[w].key == key
    && s.drains[w].token != "" && s.now < s.drains[w].since + TTL_SECONDS
  }

  ghost predicate KeysOk(s: System) {
    forall k :: k in s.keys ==> s.keys[k].token in s.drawn && s.keys[k].token != "" && s.keys[k].setAt <= s.now
  }

  /** An unexpired holder's token is on the server. */
  ghost predicate HoldersOk(s: System) {
    forall w, k :: Holds(s, w, k) ==> k in s.keys && s.keys[k] == Entry(s.drains[w].token, s.drains[w].since)
  }

  /** Tokens are drawn once and never shared. */
  ghost predicate TokensOk(s: System) {
    && (forall w :: w in s.drains && s.drains[w].Draining? && s.drains[w].token != "" ==>
          s.drains[w].token in s.drawn)
    && (forall v, w | v in s.drains && w in s.drains && v != w ::
          s.drains[v].Draining? && s.drains[w].Draining? && s.drains[v].token != "" ==>
            s.drains[v].token != s.drains[w].token)
  }

  /** The server has a worker's token only where and since the worker set it. */
  ghost predicate PlacesOk(s: System) {
    forall w, k :: w in s.drains && s.drains[w].Draining? && k in s.keys && s.keys[k].token == s.drains[w].token ==>
      k == s.drains[w].key && s.keys[k].setAt == s.drains[w].since
  }

  ghost predicate Inv(s: System) {
    KeysOk(s) && HoldersOk(s) && TokensOk(s) && PlacesOk(s)
  }

  lemma StepKeepsKeys(s: System, step: Step)
    requires KeysOk(s) && Enabled(s, step)
    ensures KeysOk(Apply(s, step))
  {
  }

  lemma StepKeepsHolders(s: System, step: Step)
    requires Inv(s) && Enabled(s, step)
    ensures HoldersOk(Apply(s, step))
  {
  }

  lemma StepKeepsTokens(s: System, step: Step)
    requires TokensOk(s) && Enabled(s, step)
    ensures TokensOk(Apply(s, step))
  {
    hide AcquireKeys, ReleaseKeys;
  }

  lemma StepKeepsPlaces(s: System, step: Step)
    requires Inv(s) && Enabled(s, step)
    ensures PlacesOk(Apply(s, step))
  {
    hide HoldersOk;
  }

  lemma StepKeepsInv(s: System, step: Step)
    requires Inv(s) && Enabled(s, step)
    ensures Inv(Apply(s, step))
  {
    StepKeepsKeys(s, step);
    StepKeepsHolders(s, step);
    StepKeepsTokens(s, step);
    StepKeepsPlaces(s, step);
    hide Apply, KeysOk, HoldersOk, TokensOk, PlacesOk;
  }

  lemma {:induction false} RunKeepsInv(s: System, steps: seq<Step>)
    requires Inv(s) && Allowed(s, steps)
    ensures Inv(Exec(s, steps))
    ensures s.now <= Exec(s, steps).now
    decreases |steps|
  {
    if steps == [] {
    } else {
      StepKeepsInv(s, steps[0]);
      RunKeepsInv(Apply(s, steps[0]), steps[1..]);
    }
  }

  /** Safety over whole runs: two workers never hold the same lease at the same time. */
  lemma MutualExclusion(s: System, steps: seq<Step>, v: Worker, w: Worker, key: string)
    requires Init(s) && Allowed(s, steps)
    requires Holds(Exec(s, steps), v, key) && Holds(Exec(s, steps), w, key)
    ensures v == w
  {
    RunKeepsInv(s, steps);
  }

  /**
   The time limit of the drain job is not above the TTL, and a drain starts before it takes its
   lease: while every drain is younger than its limit, no two workers drain one key with a token.
   */
  lemma DrainsAreExclusive(s: System, steps: seq<Step>, begun: map<Worker, nat>, v: Worker, w: Worker)
    requires Init(s) && Allowed(s, steps)
    requires var end := Exec(s, steps);
             && (forall u | u in end.drains && end.drains[u].Draining? ::
                   u in begun && begun[u] <= end.drains[u].since && end.now < begun[u] + DRAIN_TIME_LIMIT)
             && v in end.drains && w in end.drains && end.drains[v].Draining? && end.drains[w].Draining?
             && end.drains[v].key == end.drains[w].key
             && end.drains[v].token != "" && end.drains[w].token != ""
    ensures v == w
  {
    MutualExclusion(s, steps, v, w, Exec(s, steps).drains[v].key);
  }

  /** Whatever a worker gives back, late or not, every other unexpired holder keeps its key. */
  lemma ReleaseSparesOthers(s: System, steps: seq<Step>, w: Worker, link: Link, v: Worker, key: string)
    requires Init(s) && Allowed(s, steps)
    requires Enabled(Exec(s, steps), GiveBack(w, link)) && v != w && Holds(Exec(s, steps), v, key)
    ensures var before, after := Exec(s, steps), Apply(Exec(s, steps), GiveBack(w, link));
            Holds(after, v, key) && key in after.keys && after.keys[key] == before.keys[key]
  {
    RunKeepsInv(s, steps);
  }

  /** A lease is granted with a token exactly when the server answers and nobody's key is live. */
  lemma GrantedExactlyWhenFree(s: System, steps: seq<Step>, w: Worker, key: string, token: string, link: Link)
    requires Init(s) && Allowed(s, steps) && Enabled(Exec(s, steps), Acquire(w, key, token, link))
    ensures var before, after := Exec(s, steps), Apply(Exec(s, steps), Acquire(w, key, token, link));
            && (Holds(after, w, key) <==> link == Answered && !Live(before.keys, before.now, key))
            && (Holds(after, w, key) ==> forall v :: !Holds(before, v, key))
  {
    RunKeepsInv(s, steps);
  }

  /** A release frees the key exactly when it arrives and comes from an unexpired holder. */
  lemma ReleaseFreesExactlyOwn(s: System, steps: seq<Step>, w: Worker, link: Link)
    requires Init(s) && Allowed(s, steps) && Enabled(Exec(s, steps), GiveBack(w, link))
    ensures var before, after := Exec(s, steps), Apply(Exec(s, steps), GiveBack(w, link));
            after.keys != before.keys <==>
            Holds(before, w, before.drains[w].key) && (link == Answered || link == Lost(true))
  {
    RunKeepsInv(s, steps);
    var before := Exec(s, steps);
    var key := before.drains[w].key;
    assert before.keys - {key} == before.keys ==> key !in before.keys;
  }

  predicate Acquires(step: Step, key: string) {
    step.Acquire? && step.key == key
  }

  /** An entry is set by an acquisition of its key and by nothing else. */
  lemma {:induction false} OnlyAcquisitionsSet(s: System, steps: seq<Step>, key: string)
    requires Allowed(s, steps) && forall step :: step in steps ==> !Acquires(step, key)
    ensures var end := Exec(s, steps); key in end.keys ==> key in s.keys && end.keys[key] == s.keys[key]
    decreases |steps|
  {
    if steps == [] {
    } else {
      OnlyAcquisitionsSet(Apply(s, steps[0]), steps[1..], key);
      assert !Acquires(steps[0], key);
    }
  }

  /** Nothing outlives its time: `TTL_SECONDS` later no entry of an earlier state is live. */
  lemma KeysRunOut(s: System, first: seq<Step>, second: seq<Step>, key: string)
    requires Init(s) && Allowed(s, first) && Allowed(Exec(s, first), second)
    requires var early, late := Exec(s, first), Exec(Exec(s, first), second);
             late.now >= early.now + TTL_SECONDS && Live(late.keys, late.now, key)
    ensures var early, late := Exec(s, first), Exec(Exec(s, first), second);
            early.now < late.keys[key].setAt && (key in early.keys ==> late.keys[key] != early.keys[key])
  {
    RunKeepsInv(s, first);
  }

  /**
   A lease comes free whatever becomes of its holder: `TTL_SECONDS` after the last attempt to acquire
   the key, the next attempt that is answered gets it.
   */
  lemma LeaseComesFree(s: System, first: seq<Step>, second: seq<Step>, w: Worker, key: string, token: string)
    requires Init(s) && Allowed(s, first) && Allowed(Exec(s, first), second)
    requires forall step :: step in second ==> !Acquires(step, key)
    requires var early, late := Exec(s, first), Exec(Exec(s, first), second);
             late.now >= early.now + TTL_SECONDS && Enabled(late, Acquire(w, key, token, Answered))
    ensures Holds(Apply(Exec(Exec(s, first), second), Acquire(w, key, token, Answered)), w, key)
  {
    OnlyAcquisitionsSet(Exec(s, first), second, key);
    var late := Exec(Exec(s, first), second);
    if Live(late.keys, late.now, key) {
      KeysRunOut(s, first, second, key);
      assert false;
    }
  }

  /** A busy lease lets nobody in: an answered attempt on a live key leaves the worker and the keys as they are. */
  lemma BusyIsRefused(s: System, w: Worker, key: string, token: string)
    requires Enabled(s, Acquire(w, key, token, Answered)) && Live(s.keys, s.now, key)
    ensures var after := Apply(s, Acquire(w, key, token, Answered));
            after.drains == s.drains && after.drains[w] == Off && after.keys == s.keys
  {
  }

  /** The worker got its current drain past a call that was not answered. */
  predicate LetInUnanswered(s: System, steps: seq<Step>, w: Worker)
    requires Allowed(s, steps)
    decreases |steps|
  {
    steps != []
    && ((steps[0].Acquire? && steps[0].worker == w && steps[0].link != Answered) || LetInUnanswered(Apply(s, steps[0]), steps[1..], w))
  }

  /** Over runs: a worker that drains without a token had an attempt that Redis did not answer. */
  lemma {:induction false} TokenlessOnlyUnanswered(s: System, steps: seq<Step>, w: Worker)
    requires Allowed(s, steps)
    requires w in Exec(s, steps).drains && Exec(s, steps).drains[w].Draining? && Exec(s, steps).drains[w].token == ""
    ensures (w in s.drains && s.drains[w].Draining? && s.drains[w].token == "") || LetInUnanswered(s, steps, w)
    decreases |steps|
  {
    if steps == [] {
    } else {
      TokenlessOnlyUnanswered(Apply(s, steps[0]), steps[1..], w);
    }
  }

  // ----- degraded workers

  predicate OfWorker(step: Step, w: Worker) {
    match step
    case Tick(_) => false
    case Acquire(v, _, _, _) => v == w
    case GiveBack(v, _) => v == w
    case Die(v) => v == w
  }

  /** The two systems look the same to everybody but `w`. */
  predicate SameFor(a: System, b: System, w: Worker) {
    && a.now == b.now && a.keys == b.keys && b.drawn <= a.drawn
    && a.drains.Keys == b.drains.Keys && (forall v :: v in a.drains && v != w ==> a.drains[v] == b.drains[v])
  }

  lemma OthersSeeNoDifference(a: System, b: System, w: Worker, step: Step)
    requires SameFor(a, b, w) && Enabled(a, step) && !OfWorker(step, w)
    ensures Enabled(b, step) && SameFor(Apply(a, step), Apply(b, step), w)
  {
  }

  lemma {:induction false} OthersRunAlike(a: System, b: System, w: Worker, steps: seq<Step>)
    requires SameFor(a, b, w) && Allowed(a, steps) && forall step :: step in steps ==> !OfWorker(step, w)
    ensures Allowed(b, steps) && SameFor(Exec(a, steps), Exec(b, steps), w)
    ensures w in a.drains ==> w in Exec(a, steps).drains && Exec(a, steps).drains[w] == a.drains[w]
    decreases |steps|
  {
    if steps == [] {
    } else {
      assert !OfWorker(steps[0], w);
      OthersSeeNoDifference(a, b, w, steps[0]);
      OthersRunAlike(Apply(a, steps[0]), Apply(b, steps[0]), w, steps[1..]);
    }
  }

  /** A worker that got past a Redis failure has no token, and its release touches no key. */
  lemma DegradedReleaseIsSilent(s: System, w: Worker, key: string, token: string, link: Link, later: Link, now: nat)
    requires Enabled(s, Acquire(w, key, token, link)) && link != Answered
    ensures var after := Apply(s, Acquire(w, key, token, link));
            && after.drains[w] == Draining(key, "", s.now)
            && ReleaseKeys(after.keys, now, key, after.drains[w].token, later) == after.keys
  {
  }

  /**
   A drain whose acquisition never reached the server is invisible: the others run as they would
   without it, and after its release the keys are what they would have been.
   */
  lemma DegradedDrainIsInvisible(s: System, w: Worker, key: string, token: string, link: Link,
                                 between: seq<Step>, later: Link)
    requires Enabled(s, Acquire(w, key, token, link)) && (link == NoClient || link == Lost(false))
    requires Allowed(Apply(s, Acquire(w, key, token, link)), between)
    requires forall step :: step in between ==> !OfWorker(step, w)
    ensures Allowed(s, between)
    ensures var end := Exec(Apply(s, Acquire(w, key, token, link)), between);
            Enabled(end, GiveBack(w, later)) && Apply(end, GiveBack(w, later)).keys == Exec(s, between).keys
  {
    var start := Apply(s, Acquire(w, key, token, link));
    var end := Exec(start, between);
    OthersRunAlike(start, s, w, between);
    DegradedReleaseIsSilent(s, w, key, token, link, later, end.now);
  }

  /** The two queues, and two projects or batches, never share a key. */
  lemma KeysDoNotClash(a: string, b: string)
    ensures ProjectKey(a) != BatchKey(b)
    ensures ProjectKey(a) == ProjectKey(b) ==> a == b
    ensures BatchKey(a) == BatchKey(b) ==> a == b
  {
    assert ProjectKey(a)[4] == 'p' && BatchKey(b)[4] == 'b';
    assert ProjectKey(a)[|PROJECT_PREFIX|..] == a && ProjectKey(b)[|PROJECT_PREFIX|..] == b;
    assert BatchKey(a)[|BATCH_PREFIX|..] == a && BatchKey(b)[|BATCH_PREFIX|..] == b;
  }
}
