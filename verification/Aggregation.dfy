/**
 The aggregation payload (app/services/research_project_aggregation_service.py:29-112): after
 deduplication, the unlinked rows are counted by type, confidence bucket and month, and every
 cluster by its size.  The three labels are any functions of the row.
 */
module Aggregation {
  import opened Wrappers
  import opened Store
  import opened Sorting
  import opened Dedup

  datatype Labels = Labels(kind: Entity -> string, confidence: Entity -> string, month: Entity -> string)

  datatype Payload = Payload(types: map<string, nat>, confidences: map<string, nat>, months: map<string, nat>,
                             clusterSizes: map<Id, nat>, canonicals: nat, stats: Stats)

  // ----- counters

  /** Sum of all counts. */
  ghost function Sum<K(!new)>(counter: map<K, nat>): nat
    decreases |counter|
  {
    if counter == map[] then 0
    else
      var k :| k in counter;
      counter[k] + Sum(counter - {k})
  }

  /** The sum does not depend on the order in which it is taken. */
  lemma {:induction false} SumAny<K(!new)>(counter: map<K, nat>, k: K)
    requires k in counter
    ensures Sum(counter) == counter[k] + Sum(counter - {k})
    decreases |counter|
  {
    var j :| j in counter && Sum(counter) == counter[j] + Sum(counter - {j});
    if j != k {
      SumAny(counter - {j}, k);
      SumAny(counter - {k}, j);
      assert counter - {j} - {k} == counter - {k} - {j};
    }
  }

  lemma SumUpdate<K(!new)>(counter: map<K, nat>, k: K, n: nat)
    ensures Sum(counter[k := n]) == Sum(counter) - (if k in counter then counter[k] else 0) + n
  {
    SumAny(counter[k := n], k);
    assert counter[k := n] - {k} == counter - {k};
    if k in counter {
      SumAny(counter, k);
    } else {
      assert counter - {k} == counter;
    }
  }

  function CountClass(entities: Entities, ids: seq<Id>, classify: Entity -> string, k: string): nat
    requires AllIn(entities, ids)
  {
    if ids == [] then 0
    else
      assert AllIn(entities, ids[..|ids| - 1]);
      CountClass(entities, ids[..|ids| - 1], classify, k) + if classify(entities[ids[|ids| - 1]]) == k then 1 else 0
  }

  /** The counter says for every label how many of the listed rows carry it. */
  ghost predicate Counted(entities: Entities, ids: seq<Id>, classify: Entity -> string, counter: map<string, nat>) {
    AllIn(entities, ids) && forall k :: (if k in counter then counter[k] else 0) == CountClass(entities, ids, classify, k)
  }

  /** `Counter(classify(row) for row in rows)`. */
  method Tally(entities: Entities, ids: seq<Id>, classify: Entity -> string) returns (counter: map<string, nat>)
    requires AllIn(entities, ids)
    ensures Sum(counter) == |ids| && Counted(entities, ids, classify, counter)
  {
    counter := map[];
    for i := 0 to |ids|
      invariant Sum(counter) == i
      invariant forall k :: (if k in counter then counter[k] else 0) == CountClass(entities, ids[..i], classify, k)
    {
      assert ids[..i + 1][..i] == ids[..i];
      var k := classify(entities[ids[i]]);
      var n := if k in counter then counter[k] else 0;
      SumUpdate(counter, k, n + 1);
      counter := counter[k := n + 1];
    }
    assert ids[..|ids|] == ids;
  }

  // ----- clusters

  /** All rows, of whatever project, that are the root or linked to it. */
  function Cluster(entities: Entities, root: Id): set<Id> {
    set e | e in entities && (e == root || entities[e].canonical == Some(root))
  }

  function Canonicals(entities: Entities, project: Id, next: nat): seq<Id> {
    Listing(next, (e: Id) => InProject(entities, project, e) && entities[e].canonical == None)
  }

  function ClusterUnion(entities: Entities, roots: seq<Id>): set<Id> {
    if roots == [] then {} else ClusterUnion(entities, roots[..|roots| - 1]) + Cluster(entities, roots[|roots| - 1])
  }

  lemma {:induction false} InSomeCluster(entities: Entities, roots: seq<Id>, e: Id)
    ensures e in ClusterUnion(entities, roots) <==> exists r :: r in roots && e in Cluster(entities, r)
  {
    if roots == [] {
    } else {
      var front, last := roots[..|roots| - 1], roots[|roots| - 1];
      InSomeCluster(entities, front, e);
      assert forall r :: r in roots <==> r in front || r == last;
    }
  }

  /** The cluster of another unlinked row is disjoint from the clusters so far. */
  lemma NextClusterIsDisjoint(entities: Entities, roots: seq<Id>, root: Id)
    requires root in entities && entities[root].canonical == None && root !in roots
    requires forall r :: r in roots ==> r in entities && entities[r].canonical == None
    ensures ClusterUnion(entities, roots) !! Cluster(entities, root)
  {
  }

  /** The clusters of the unlinked rows of a project are exactly its rows: nobody links across projects. */
  lemma ClustersCoverProject(entities: Entities, project: Id, roots: seq<Id>)
    requires LinksOk(entities)
    requires forall r :: r in roots <==> InProject(entities, project, r) && entities[r].canonical == None
    ensures ClusterUnion(entities, roots) == Rows(entities, project)
  {
    forall e ensures e in ClusterUnion(entities, roots) <==> e in Rows(entities, project) {
      InSomeCluster(entities, roots, e);
      if e in entities {
        assert LinkOk(entities, e);
        if entities[e].project == project {
          assert RootOf(entities, e) in roots && e in Cluster(entities, RootOf(entities, e));
        }
      }
    }
  }

  lemma NothingCounted(entities: Entities)
    ensures Sum<Id>(map[]) == 0 && ClusterUnion(entities, []) == {}
  {
  }

  lemma OneMoreCluster(entities: Entities, roots: seq<Id>, i: nat)
    requires Distinct(roots) && i < |roots|
    requires forall r :: r in roots ==> r in entities && entities[r].canonical == None
    ensures |ClusterUnion(entities, roots[..i + 1])|
         == |ClusterUnion(entities, roots[..i])| + |Cluster(entities, roots[i])|
    ensures roots[i] !in roots[..i]
  {
    assert roots[..i + 1][..i] == roots[..i] && roots[..i + 1][i] == roots[i];
    NextClusterIsDisjoint(entities, roots[..i], roots[i]);
    hide Cluster;
  }

  method CountClusters(entities: Entities, roots: seq<Id>) returns (sizes: map<Id, nat>)
    requires Distinct(roots) && forall r :: r in roots ==> r in entities && entities[r].canonical == None
    ensures forall r :: r in sizes <==> r in roots
    ensures forall r :: r in roots ==> sizes[r] == |Cluster(entities, r)|
    ensures Sum(sizes) == |ClusterUnion(entities, roots)|
  {
    sizes := map[];
    NothingCounted(entities);
    hide Cluster, ClusterUnion, Sum, Distinct;
    for i := 0 to |roots|
      invariant forall r :: r in sizes <==> r in roots[..i]
      invariant forall r :: r in roots[..i] ==> sizes[r] == |Cluster(entities, r)|
      invariant Sum(sizes) == |ClusterUnion(entities, roots[..i])|
    {
      OneMoreCluster(entities, roots, i);
      assert roots[..i + 1] == roots[..i] + [roots[i]];
      SumUpdate(sizes, roots[i], |Cluster(entities, roots[i])|);
      sizes := sizes[roots[i] := |Cluster(entities, roots[i])|];
    }
    assert roots[..|roots|] == roots;
  }

  // ----- the payload

  lemma DedupedLinksOk(entities: Entities, project: Id, key: Fingerprint, rank: Rank, ids: seq<Id>)
    requires LinksOk(entities) && IsOrdered(entities, project, rank, ids) && Injective(rank) && AllIn(entities, ids)
    ensures LinksOk(Deduped(entities, key, ids))
  {
  }

  /** Deduplication keeps the store invariant. */
  lemma DedupKeepsInv(db: Db, project: Id, key: Fingerprint, rank: Rank, ids: seq<Id>)
    requires Inv(db) && IsOrdered(db.entities, project, rank, ids) && Injective(rank) && AllIn(db.entities, ids)
    ensures Inv(db.(entities := Deduped(db.entities, key, ids)))
  {
    var after := Deduped(db.entities, key, ids);
    DedupedLinksOk(db.entities, project, key, rank, ids);
    DedupedIsCanonical(db.entities, project, key, rank, ids);
    hide Deduped, Canonical, IsOrdered, LinksOk, IndicesOk, ChunksOk, TranscriptsOk, SourcesBelow, AllIn;
    forall e | e in after ensures EntityOk(db.chunks, after[e]) {
      assert Erased(db.entities[e]) == Erased(after[e]);
      assert EntityOk(db.chunks, db.entities[e]);
    }
  }

  /**
   Counts are conserved: the type, confidence and month counts each add up to the number of distinct
   fingerprints, and the cluster sizes add up to all rows of the project.
   */
  method AggregateProject(entities: Entities, project: Id, key: Fingerprint, ghost rank: Rank, ids: seq<Id>,
                          next: nat, labels: Labels) returns (r: Entities, payload: Payload)
    requires LinksOk(entities) && Below(entities, next) && Injective(rank)
    requires IsOrdered(entities, project, rank, ids)
    ensures r == Deduped(entities, key, ids)
    ensures Canonical(r, project, key, rank) && SameButLinks(entities, r, project)
    ensures payload.stats.total == |Rows(entities, project)| == payload.stats.distinct + payload.stats.linked
    ensures payload.canonicals == payload.stats.distinct
    ensures Sum(payload.types) == Sum(payload.confidences) == Sum(payload.months) == payload.stats.distinct
    ensures Sum(payload.clusterSizes) == payload.stats.total
    ensures forall root :: root in payload.clusterSizes <==> InProject(r, project, root) && r[root].canonical == None
    ensures forall root :: root in payload.clusterSizes ==> payload.clusterSizes[root] == |Cluster(r, root)|
    ensures Counted(r, Canonicals(r, project, next), labels.kind, payload.types)
    ensures Counted(r, Canonicals(r, project, next), labels.confidence, payload.confidences)
    ensures Counted(r, Canonicals(r, project, next), labels.month, payload.months)
  {
    assert AllIn(entities, ids);
    var stats;
    r, stats := Deduplicate(entities, key, ids);
    DedupedIsCanonical(entities, project, key, rank, ids);
    DedupedLinksOk(entities, project, key, rank, ids);
    var canonicals := Canonicals(r, project, next);
    CanonicalsExactly(entities, r, project, next, ids);
    hide Deduped, Canonical, SameButLinks, LinksOk, IsOrdered, Canonicals, Sum, CountClass, Counted;
    var types := Tally(r, canonicals, labels.kind);
    var confidences := Tally(r, canonicals, labels.confidence);
    var sizes := CountClusters(r, canonicals);
    var months := Tally(r, canonicals, labels.month);
    ClustersCoverProject(r, project, canonicals);
    payload := Payload(types, confidences, months, sizes, |canonicals|, stats);
  }

  lemma SameProjects(entities: Entities, after: Entities, project: Id)
    requires SameButLinks(entities, after, project)
    ensures Rows(after, project) == Rows(entities, project)
    ensures forall e :: InProject(after, project, e) <==> InProject(entities, project, e)
  {
  }

  lemma SplitCount(all: seq<Id>, part: seq<Id>, rest: set<Id>)
    requires Distinct(all) && Distinct(part)
    requires forall e :: e in all <==> e in part || e in rest
    requires forall e :: e in part ==> e !in rest
    ensures |part| == |all| - |rest|
  {
    MembersSize(all);
    MembersSize(part);
    assert Members(all) == Members(part) + rest;
  }

  lemma ListCount(ids: seq<Id>, rows: set<Id>)
    requires Distinct(ids) && forall e :: e in ids <==> e in rows
    ensures |ids| == |rows|
  {
    MembersSize(ids);
    assert Members(ids) == rows;
  }

  lemma CanonicalsListed(after: Entities, project: Id, next: nat)
    requires Below(after, next)
    ensures var c := Canonicals(after, project, next);
            && Distinct(c) && AllIn(after, c)
            && (forall r :: r in c <==> InProject(after, project, r) && after[r].canonical == None)
  {
    ListingExactly(next, (e: Id) => InProject(after, project, e) && after[e].canonical == None);
  }

  lemma CanonicalsExactly(entities: Entities, after: Entities, project: Id, next: nat, ids: seq<Id>)
    requires SameButLinks(entities, after, project) && Below(entities, next) && Distinct(ids)
    requires forall e :: e in ids <==> InProject(entities, project, e)
    ensures AllIn(after, ids) && AllIn(after, Canonicals(after, project, next))
    ensures var c := Canonicals(after, project, next);
            && Distinct(c)
            && (forall r :: r in c <==> InProject(after, project, r) && after[r].canonical == None)
            && |c| == |ids| - |LinkedRows(after, ids)|
    ensures Rows(after, project) == Rows(entities, project) && |ids| == |Rows(entities, project)|
  {
    SameProjects(entities, after, project);
    assert Below(after, next);
    CanonicalsListed(after, project, next);
    hide SameButLinks, Canonicals, Below;
    assert AllIn(after, ids);
    SplitCount(ids, Canonicals(after, project, next), LinkedRows(after, ids));
    ListCount(ids, Rows(entities, project));
  }
}
