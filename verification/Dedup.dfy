/**
 Grouping entities by fingerprint and counting the groups
 (app/services/entity_deduplication.py:31-70, app/services/research_project_aggregation_service.py:29-112).

 The fingerprint is any function of the content.  Ids are random, so the order they give to rows
 created at the same time is any injective `rank`.
 */
module Dedup {
  import opened Wrappers
  import opened Store
  import opened Sorting

  /** The text of a fingerprint; how it is put together does not matter here. */
  datatype Key = Key(text: string)

  type Fingerprint = Content -> Key

  type Rank = Id -> int

  ghost predicate Injective(rank: Rank) {
    forall a, b :: rank(a) == rank(b) ==> a == b
  }

  // ----- ordered listings

  predicate Increasing(ids: seq<Id>) {
    forall i, j :: 0 <= i < j < |ids| ==> ids[i] < ids[j]
  }

  /** The ids below `n` that satisfy `p`, in increasing order. */
  function Listing(n: nat, p: Id -> bool): seq<Id> {
    if n == 0 then [] else Listing(n - 1, p) + if p(n - 1) then [n - 1] else []
  }

  lemma {:induction false} ListingExactly(n: nat, p: Id -> bool)
    ensures Distinct(Listing(n, p)) && Increasing(Listing(n, p))
    ensures forall id: Id :: id in Listing(n, p) <==> id < n && p(id)
  {
    if n == 0 {
    } else {
      ListingExactly(n - 1, p);
      var before := Listing(n - 1, p);
      assert forall i :: 0 <= i < |before| ==> before[i] in before;
    }
  }

  function CreatedAt(entities: Entities, e: Id): int {
    if e in entities then entities[e].createdAt else 0
  }

  function Earlier(entities: Entities, rank: Rank): (Id, Id) -> bool {
    (a: Id, b: Id) =>
      CreatedAt(entities, a) < CreatedAt(entities, b)
      || (CreatedAt(entities, a) == CreatedAt(entities, b) && rank(a) < rank(b))
  }

  predicate InProject(entities: Entities, project: Id, e: Id) {
    e in entities && entities[e].project == project
  }

  function Rows(entities: Entities, project: Id): set<Id> {
    set e | e in entities && entities[e].project == project
  }

  /** The rows of the project, earliest first. */
  ghost predicate IsOrdered(entities: Entities, project: Id, rank: Rank, ordered: seq<Id>) {
    && Distinct(ordered) && SortedBy(ordered, Earlier(entities, rank))
    && (forall e :: e in ordered <==> InProject(entities, project, e))
  }

  function Ordered(entities: Entities, project: Id, rank: Rank, next: nat): seq<Id> {
    Sort(Listing(next, (e: Id) => InProject(entities, project, e)), Earlier(entities, rank))
  }

  lemma EarlierIsWeakOrder(entities: Entities, rank: Rank)
    ensures WeakOrder(Earlier(entities, rank))
  {
  }

  lemma OrderedIsOrdered(entities: Entities, project: Id, rank: Rank, next: nat)
    requires Below(entities, next)
    ensures IsOrdered(entities, project, rank, Ordered(entities, project, rank, next))
  {
    var p := (e: Id) => InProject(entities, project, e);
    var less := Earlier(entities, rank);
    ListingExactly(next, p);
    EarlierIsWeakOrder(entities, rank);
    SortSorts(Listing(next, p), less);
    SortKeepsDistinct(Listing(next, p), less);
    SortKeepsMembers(Listing(next, p), less);
  }

  // ----- what deduplication produces

  predicate SameKey(entities: Entities, key: Fingerprint, a: Id, b: Id)
    requires a in entities && b in entities
  {
    key(entities[a].content) == key(entities[b].content)
  }

  /** `r` is the earliest row of the project with the fingerprint of `e`. */
  predicate IsRootOf(entities: Entities, project: Id, key: Fingerprint, rank: Rank, r: Id, e: Id) {
    && InProject(entities, project, r) && InProject(entities, project, e) && SameKey(entities, key, r, e)
    && (forall f :: f in entities && InProject(entities, project, f) && SameKey(entities, key, f, e) && f != r ==>
          || entities[r].createdAt < entities[f].createdAt
          || (entities[r].createdAt == entities[f].createdAt && rank(r) < rank(f)))
  }

  function RootOf(entities: Entities, e: Id): Id
    requires e in entities
  {
    if entities[e].canonical.Some? then entities[e].canonical.value else e
  }

  /** Every row of the project leads to the root of its fingerprint, and the root to itself. */
  predicate Canonical(entities: Entities, project: Id, key: Fingerprint, rank: Rank) {
    forall e :: e in Rows(entities, project) ==>
      && IsRootOf(entities, project, key, rank, RootOf(entities, e), e)
      && (entities[e].canonical.Some? ==> entities[e].canonical.value != e)
  }

  function Erased(row: Entity): Entity { row.(canonical := None) }

  /** Only the links of the project's rows may differ. */
  predicate SameButLinks(a: Entities, b: Entities, project: Id) {
    && a.Keys == b.Keys
    && (forall e :: e in a ==> Erased(a[e]) == Erased(b[e]) && (a[e].project != project ==> a[e] == b[e]))
  }

  lemma RootIsUnique(entities: Entities, project: Id, key: Fingerprint, rank: Rank, r: Id, s: Id, e: Id)
    requires IsRootOf(entities, project, key, rank, r, e) && IsRootOf(entities, project, key, rank, s, e)
    ensures r == s
  {
  }

  lemma SameRootsApartFromLinks(a: Entities, b: Entities, project: Id, key: Fingerprint, rank: Rank, r: Id, e: Id)
    requires SameButLinks(a, b, project) && IsRootOf(a, project, key, rank, r, e)
    ensures IsRootOf(b, project, key, rank, r, e)
  {
  }

  /**
   The canonical form is determined by everything but the links: what the links were before the run
   does not matter, and running again changes nothing.
   */
  lemma CanonicalIsUnique(a: Entities, b: Entities, project: Id, key: Fingerprint, rank: Rank)
    requires SameButLinks(a, b, project)
    requires Canonical(a, project, key, rank) && Canonical(b, project, key, rank)
    ensures a == b
  {
    hide IsRootOf;
    forall e | e in a ensures a[e] == b[e] {
      assert Erased(a[e]) == Erased(b[e]);
      if a[e].project == project {
        assert e in Rows(a, project) && e in Rows(b, project);
        SameRootsApartFromLinks(a, b, project, key, rank, RootOf(a, e), e);
        RootIsUnique(b, project, key, rank, RootOf(a, e), RootOf(b, e), e);
      }
    }
  }

  /** Two rows share a root exactly when their fingerprints are equal, and roots are not linked. */
  lemma RootsAreFingerprints(entities: Entities, project: Id, key: Fingerprint, rank: Rank, a: Id, b: Id)
    requires Canonical(entities, project, key, rank)
    requires a in Rows(entities, project) && b in Rows(entities, project)
    ensures RootOf(entities, a) == RootOf(entities, b) <==> SameKey(entities, key, a, b)
    ensures RootOf(entities, a) in Rows(entities, project) && entities[RootOf(entities, a)].canonical == None
  {
  }

  // ----- the run

  predicate AllIn(entities: Entities, ids: seq<Id>) {
    forall e :: e in ids ==> e in entities
  }

  /** The listed rows with fingerprint `k`, in order. */
  function Group(entities: Entities, key: Fingerprint, ids: seq<Id>, k: Key): (r: seq<Id>)
    requires AllIn(entities, ids)
    ensures forall e :: e in r <==> e in ids && key(entities[e].content) == k
  {
    if ids == [] then []
    else
      var last := ids[|ids| - 1];
      assert AllIn(entities, ids[..|ids| - 1]);
      assert forall e :: e in ids <==> e in ids[..|ids| - 1] || e == last;
      Group(entities, key, ids[..|ids| - 1], k) + if key(entities[last].content) == k then [last] else []
  }

  function Leader(entities: Entities, key: Fingerprint, ids: seq<Id>, e: Id): Id
    requires AllIn(entities, ids) && e in ids
  {
    Group(entities, key, ids, key(entities[e].content))[0]
  }

  function Linked(entities: Entities, key: Fingerprint, ids: seq<Id>, e: Id): Entity
    requires AllIn(entities, ids) && e in ids
  {
    var r := Leader(entities, key, ids, e);
    entities[e].(canonical := if r == e then None else Some(r))
  }

  /** The tables after the run, given the project's rows in order. */
  function Deduped(entities: Entities, key: Fingerprint, ids: seq<Id>): Entities
    requires AllIn(entities, ids)
  {
    map e | e in entities :: if e in ids then Linked(entities, key, ids, e) else entities[e]
  }

  lemma {:induction false} GroupIsDistinct(entities: Entities, key: Fingerprint, ids: seq<Id>, k: Key)
    requires AllIn(entities, ids) && Distinct(ids)
    ensures Distinct(Group(entities, key, ids, k))
  {
    if ids == [] {
    } else {
      var front := ids[..|ids| - 1];
      GroupIsDistinct(entities, key, front, k);
      assert ids[|ids| - 1] !in front;
    }
  }

  /** The head of a group is before every other member. */
  lemma {:induction false} HeadIsEarliest(entities: Entities, key: Fingerprint, rank: Rank, ids: seq<Id>, k: Key, f: Id)
    requires AllIn(entities, ids) && Distinct(ids) && SortedBy(ids, Earlier(entities, rank)) && Injective(rank)
    requires f in Group(entities, key, ids, k) && f != Group(entities, key, ids, k)[0]
    ensures Earlier(entities, rank)(Group(entities, key, ids, k)[0], f)
  {
    var front, last := ids[..|ids| - 1], ids[|ids| - 1];
    var head := Group(entities, key, ids, k)[0];
    assert AllIn(entities, front);
    var g := Group(entities, key, front, k);
    if f in g {
      HeadIsEarliest(entities, key, rank, front, k, f);
    } else {
      assert f == last && head in front;
      var i :| 0 <= i < |front| && front[i] == head;
      assert !Earlier(entities, rank)(ids[|ids| - 1], ids[i]);
    }
  }

  lemma DedupedIsCanonical(entities: Entities, project: Id, key: Fingerprint, rank: Rank, ids: seq<Id>)
    requires IsOrdered(entities, project, rank, ids) && Injective(rank) && AllIn(entities, ids)
    ensures var after := Deduped(entities, key, ids);
            SameButLinks(entities, after, project) && Canonical(after, project, key, rank)
  {
    var after := Deduped(entities, key, ids);
    forall e | e in Rows(after, project)
      ensures IsRootOf(after, project, key, rank, RootOf(after, e), e)
      ensures after[e].canonical.Some? ==> after[e].canonical.value != e
    {
      assert InProject(entities, project, e);
      LeaderIsRoot(entities, project, key, rank, ids, e);
      assert RootOf(after, e) == Leader(entities, key, ids, e);
      SameRootsApartFromLinks(entities, after, project, key, rank, RootOf(after, e), e);
    }
  }

  lemma LeaderIsRoot(entities: Entities, project: Id, key: Fingerprint, rank: Rank, ids: seq<Id>, e: Id)
    requires IsOrdered(entities, project, rank, ids) && Injective(rank) && AllIn(entities, ids) && e in ids
    ensures IsRootOf(entities, project, key, rank, Leader(entities, key, ids, e), e)
  {
    var k, r := key(entities[e].content), Leader(entities, key, ids, e);
    assert r in Group(entities, key, ids, k);
    forall f | f in entities && InProject(entities, project, f) && SameKey(entities, key, f, e) && f != r
      ensures Earlier(entities, rank)(r, f)
    {
      HeadIsEarliest(entities, key, rank, ids, k, f);
    }
  }

  /** The listed rows that are linked to another. */
  function LinkedRows(entities: Entities, ids: seq<Id>): set<Id>
    requires AllIn(entities, ids)
  {
    set e | e in ids && entities[e].canonical.Some?
  }

  /** Links left by earlier runs have no influence on the result. */
  lemma DedupIgnoresLinks(a: Entities, b: Entities, project: Id, key: Fingerprint, rank: Rank, idsA: seq<Id>, idsB: seq<Id>)
    requires SameButLinks(a, b, project) && Injective(rank)
    requires IsOrdered(a, project, rank, idsA) && AllIn(a, idsA) && IsOrdered(b, project, rank, idsB) && AllIn(b, idsB)
    ensures Deduped(a, key, idsA) == Deduped(b, key, idsB)
  {
    DedupedIsCanonical(a, project, key, rank, idsA);
    DedupedIsCanonical(b, project, key, rank, idsB);
    var x, y := Deduped(a, key, idsA), Deduped(b, key, idsB);
    hide Deduped, Canonical, IsOrdered;
    forall e | e in x ensures Erased(x[e]) == Erased(y[e]) && (x[e].project != project ==> x[e] == y[e]) {
      assert Erased(a[e]) == Erased(x[e]) && Erased(b[e]) == Erased(y[e]) && Erased(a[e]) == Erased(b[e]);
      assert x[e].project == a[e].project == b[e].project;
    }
    CanonicalIsUnique(x, y, project, key, rank);
  }

  /** A second run changes nothing. */
  lemma DedupTwice(a: Entities, project: Id, key: Fingerprint, rank: Rank, ids: seq<Id>, again: seq<Id>)
    requires IsOrdered(a, project, rank, ids) && AllIn(a, ids) && Injective(rank)
    requires var b := Deduped(a, key, ids); IsOrdered(b, project, rank, again) && AllIn(b, again)
    ensures Deduped(Deduped(a, key, ids), key, again) == Deduped(a, key, ids)
  {
    DedupedIsCanonical(a, project, key, rank, ids);
    DedupIgnoresLinks(a, Deduped(a, key, ids), project, key, rank, ids, again);
  }

  datatype Stats = Stats(total: nat, distinct: nat, merged: nat, linked: nat)

  lemma SameTable(a: Entities, b: Entities)
    requires a.Keys == b.Keys && forall e :: e in a ==> a[e] == b[e]
    ensures a == b
  {
  }

  function Cleared(entities: Entities, ids: seq<Id>): Entities {
    map e | e in entities :: if e in ids then Erased(entities[e]) else entities[e]
  }

  method ClearLinks(entities: Entities, ids: seq<Id>) returns (r: Entities)
    requires AllIn(entities, ids)
    ensures r == Cleared(entities, ids)
  {
    r := entities;
    for i := 0 to |ids|
      invariant r.Keys == entities.Keys
      invariant forall e :: e in entities ==> r[e] == if e in ids[..i] then Erased(entities[e]) else entities[e]
    {
      r := r[ids[i] := Erased(r[ids[i]])];
      assert forall e :: e in ids[..i + 1] <==> e in ids[..i] || e == ids[i];
    }
    assert ids[..|ids|] == ids;
    SameTable(r, Cleared(entities, ids));
  }

  lemma GroupStep(entities: Entities, key: Fingerprint, ids: seq<Id>, i: nat, k: Key)
    requires AllIn(entities, ids) && i < |ids|
    ensures Group(entities, key, ids[..i + 1], k) ==
            Group(entities, key, ids[..i], k) + if key(entities[ids[i]].content) == k then [ids[i]] else []
  {
    assert ids[..i + 1][..i] == ids[..i] && ids[..i + 1][i] == ids[i];
  }

  /** `groups` files the rows of `ids` under their fingerprints, which `keys` lists once each. */
  ghost predicate Grouped(entities: Entities, key: Fingerprint, ids: seq<Id>,
                          groups: map<Key, seq<Id>>, keys: seq<Key>)
    requires AllIn(entities, ids)
  {
    && Distinct(keys)
    && (forall k :: k in groups <==> k in keys)
    && (forall k :: k in keys <==> Group(entities, key, ids, k) != [])
    && (forall k :: k in keys ==> groups[k] == Group(entities, key, ids, k))
  }

  lemma GroupedStep(entities: Entities, key: Fingerprint, ids: seq<Id>, i: nat,
                    groups: map<Key, seq<Id>>, keys: seq<Key>)
    requires AllIn(entities, ids) && i < |ids| && Grouped(entities, key, ids[..i], groups, keys)
    ensures var k := key(entities[ids[i]].content);
            Grouped(entities, key, ids[..i + 1], groups[k := (if k in groups then groups[k] else []) + [ids[i]]],
                    if k in groups then keys else keys + [k])
  {
    hide Group, Distinct;
    var k := key(entities[ids[i]].content);
    var g, after := (if k in groups then groups[k] else []) + [ids[i]], if k in groups then keys else keys + [k];
    GroupStep(entities, key, ids, i, k);
    if k !in groups {
      SnocKeepsDistinct(keys, k);
    }
    forall x ensures (x in after <==> x in keys || x == k) && (x in after <==> Group(entities, key, ids[..i + 1], x) != [])
    {
      GroupStep(entities, key, ids, i, x);
    }
    forall x | x in after ensures groups[k := g][x] == Group(entities, key, ids[..i + 1], x) {
      GroupStep(entities, key, ids, i, x);
    }
  }

  lemma NothingGrouped(entities: Entities, key: Fingerprint)
    ensures Grouped(entities, key, [], map[], [])
  {
  }

  lemma SnocKeepsDistinct(keys: seq<Key>, k: Key)
    requires Distinct(keys) && k !in keys
    ensures Distinct(keys + [k])
  {
  }

  method GroupByFingerprint(entities: Entities, key: Fingerprint, ids: seq<Id>)
    returns (groups: map<Key, seq<Id>>, keys: seq<Key>)
    requires AllIn(entities, ids)
    ensures Grouped(entities, key, ids, groups, keys)
  {
    hide Grouped, Group;
    groups, keys := map[], [];
    NothingGrouped(entities, key);
    assert ids[..0] == [];
    for i := 0 to |ids|
      invariant Grouped(entities, key, ids[..i], groups, keys)
    {
      GroupedStep(entities, key, ids, i, groups, keys);
      var k := key(entities[ids[i]].content);
      ghost var known := groups;
      if k !in groups {
        groups, keys := groups[k := []], keys + [k];
      }
      groups := groups[k := groups[k] + [ids[i]]];
      assert groups == known[k := (if k in known then known[k] else []) + [ids[i]]];
    }
    assert ids[..|ids|] == ids;
  }

  /** Some of the groups are linked already. */
  function PartlyLinked(entities: Entities, key: Fingerprint, ids: seq<Id>, done: set<Key>): Entities
    requires AllIn(entities, ids)
  {
    map e | e in entities ::
      if e !in ids then entities[e]
      else if key(entities[e].content) in done then Linked(entities, key, ids, e)
      else Erased(entities[e])
  }

  function Followers(entities: Entities, key: Fingerprint, ids: seq<Id>, done: set<Key>): set<Id>
    requires AllIn(entities, ids)
  {
    set e | e in ids && key(entities[e].content) in done && Leader(entities, key, ids, e) != e
  }

  method LinkGroup(table: Entities, group: seq<Id>) returns (r: Entities, linked: nat)
    requires Distinct(group) && AllIn(table, group) && group != []
    ensures linked == |group| - 1
    ensures r.Keys == table.Keys
    ensures forall e :: e in table ==>
              r[e] == if e in group[1..] then table[e].(canonical := Some(group[0])) else table[e]
  {
    r, linked := table, 0;
    for i := 1 to |group|
      invariant r.Keys == table.Keys && linked == i - 1
      invariant forall e :: e in table ==>
        r[e] == if e in group[1..i] then table[e].(canonical := Some(group[0])) else table[e]
    {
      var dup := group[i];
      assert dup !in group[1..i] && group[1..i + 1] == group[1..i] + [dup];
      r := r[dup := r[dup].(canonical := Some(group[0]))];
      linked := linked + 1;
    }
    assert group[1..|group|] == group[1..];
  }

  lemma NothingLinked(entities: Entities, key: Fingerprint, ids: seq<Id>)
    requires AllIn(entities, ids)
    ensures PartlyLinked(entities, key, ids, {}) == Cleared(entities, ids)
    ensures Followers(entities, key, ids, {}) == {}
  {
  }

  lemma GroupIsLinkedAt(entities: Entities, key: Fingerprint, ids: seq<Id>, done: set<Key>, k: Key, e: Id)
    requires AllIn(entities, ids) && Distinct(ids) && k !in done && Group(entities, key, ids, k) != [] && e in entities
    ensures var table, group := PartlyLinked(entities, key, ids, done), Group(entities, key, ids, k);
            PartlyLinked(entities, key, ids, done + {k})[e]
            == if e in group[1..] then table[e].(canonical := Some(group[0])) else table[e]
    ensures e in Followers(entities, key, ids, done + {k}) <==>
              e in Followers(entities, key, ids, done) || e in Group(entities, key, ids, k)[1..]
    ensures e in Followers(entities, key, ids, done) ==> e !in Group(entities, key, ids, k)[1..]
  {
  }

  lemma GroupIsLinked(entities: Entities, key: Fingerprint, ids: seq<Id>, done: set<Key>, k: Key, r: Entities)
    requires AllIn(entities, ids) && Distinct(ids) && k !in done && Group(entities, key, ids, k) != []
    requires var table, group := PartlyLinked(entities, key, ids, done), Group(entities, key, ids, k);
             && r.Keys == table.Keys
             && (forall e :: e in table ==>
                   r[e] == if e in group[1..] then table[e].(canonical := Some(group[0])) else table[e])
    ensures r == PartlyLinked(entities, key, ids, done + {k})
  {
    hide Group, Linked, Erased, Leader;
    var after := PartlyLinked(entities, key, ids, done + {k});
    forall e | e in r ensures r[e] == after[e] {
      GroupIsLinkedAt(entities, key, ids, done, k, e);
    }
    SameTable(r, after);
  }

  lemma FollowersGrow(entities: Entities, key: Fingerprint, ids: seq<Id>, done: set<Key>, k: Key)
    requires AllIn(entities, ids) && Distinct(ids) && k !in done && Group(entities, key, ids, k) != []
    ensures |Followers(entities, key, ids, done + {k})|
         == |Followers(entities, key, ids, done)| + |Group(entities, key, ids, k)| - 1
  {
    GroupIsDistinct(entities, key, ids, k);
    var group := Group(entities, key, ids, k);
    var before, after := Followers(entities, key, ids, done), Followers(entities, key, ids, done + {k});
    assert AllIn(entities, group);
    forall e | e in entities
      ensures (e in after <==> e in before || e in group[1..]) && (e in before ==> e !in group[1..])
    {
      GroupIsLinkedAt(entities, key, ids, done, k, e);
    }
    SizeOfDisjointUnion(after, before, group[1..], entities.Keys);
  }

  lemma SizeOfDisjointUnion(whole: set<Id>, part: set<Id>, rest: seq<Id>, universe: set<Id>)
    requires Distinct(rest) && whole <= universe && part <= universe && (forall e :: e in rest ==> e in universe)
    requires forall e :: e in universe ==> (e in whole <==> e in part || e in rest) && (e in part ==> e !in rest)
    ensures |whole| == |part| + |rest|
  {
    MembersSize(rest);
    assert whole == part + Members(rest);
  }

  /** Number of fingerprints that more than one row has. */
  function MergedCount(entities: Entities, key: Fingerprint, ids: seq<Id>, keys: seq<Key>): nat
    requires AllIn(entities, ids)
  {
    if keys == [] then 0
    else MergedCount(entities, key, ids, keys[..|keys| - 1])
         + if |Group(entities, key, ids, keys[|keys| - 1])| > 1 then 1 else 0
  }

  lemma MergedStep(entities: Entities, key: Fingerprint, ids: seq<Id>, keys: seq<Key>, i: nat)
    requires AllIn(entities, ids) && i < |keys|
    ensures Members(keys[..i + 1]) == Members(keys[..i]) + {keys[i]}
    ensures MergedCount(entities, key, ids, keys[..i + 1])
         == MergedCount(entities, key, ids, keys[..i]) + if |Group(entities, key, ids, keys[i])| > 1 then 1 else 0
  {
    assert keys[..i + 1][..i] == keys[..i];
  }

  method LinkGroups(ghost entities: Entities, ghost key: Fingerprint, ghost ids: seq<Id>, cleared: Entities,
                    groups: map<Key, seq<Id>>, keys: seq<Key>) returns (r: Entities, merged: nat, linked: nat)
    requires AllIn(entities, ids) && Distinct(ids) && Distinct(keys) && cleared == Cleared(entities, ids)
    requires forall k :: k in groups <==> k in keys
    requires forall k :: k in keys ==> groups[k] == Group(entities, key, ids, k) && groups[k] != []
    ensures r == PartlyLinked(entities, key, ids, Members(keys))
    ensures linked == |Followers(entities, key, ids, Members(keys))|
    ensures merged == MergedCount(entities, key, ids, keys)
  {
    r, merged, linked := cleared, 0, 0;
    NothingLinked(entities, key, ids);
    assert Members(keys[..0]) == {};
    hide Group, Linked, PartlyLinked, Followers, Cleared, Members;
    for i := 0 to |keys|
      invariant r == PartlyLinked(entities, key, ids, Members(keys[..i]))
      invariant linked == |Followers(entities, key, ids, Members(keys[..i]))|
      invariant merged == MergedCount(entities, key, ids, keys[..i])
    {
      var k := keys[i];
      ghost var done := Members(keys[..i]);
      assert k !in done by { assert k !in keys[..i]; NotAMember(keys[..i], k); }
      MergedStep(entities, key, ids, keys, i);
      GroupIsIn(entities, key, ids, done, k);
      FollowersGrow(entities, key, ids, done, k);
      if |groups[k]| <= 1 {
        GroupIsLinked(entities, key, ids, done, k, r);
        continue;
      }
      merged := merged + 1;
      var more;
      r, more := LinkGroup(r, groups[k]);
      GroupIsLinked(entities, key, ids, done, k, r);
      linked := linked + more;
    }
    assert keys[..|keys|] == keys;
  }

  lemma NotAMember(s: seq<Key>, k: Key)
    requires k !in s
    ensures k !in Members(s)
  {
  }

  lemma GroupIsIn(entities: Entities, key: Fingerprint, ids: seq<Id>, done: set<Key>, k: Key)
    requires AllIn(entities, ids) && Distinct(ids)
    ensures Distinct(Group(entities, key, ids, k))
    ensures AllIn(PartlyLinked(entities, key, ids, done), Group(entities, key, ids, k))
  {
  }

  function Leaders(entities: Entities, key: Fingerprint, ids: seq<Id>, done: set<Key>): set<Id>
    requires AllIn(entities, ids)
  {
    set e | e in ids && key(entities[e].content) in done && Leader(entities, key, ids, e) == e
  }

  lemma LeadersGrow(entities: Entities, key: Fingerprint, ids: seq<Id>, done: set<Key>, k: Key)
    requires AllIn(entities, ids) && Distinct(ids) && k !in done && Group(entities, key, ids, k) != []
    ensures |Leaders(entities, key, ids, done + {k})| == |Leaders(entities, key, ids, done)| + 1
  {
    hide Group, Leader;
    var r := Group(entities, key, ids, k)[0];
    GroupHead(entities, key, ids, k);
    var before, after := Leaders(entities, key, ids, done), Leaders(entities, key, ids, done + {k});
    assert after == before + {r};
  }

  lemma GroupHead(entities: Entities, key: Fingerprint, ids: seq<Id>, k: Key)
    requires AllIn(entities, ids) && Group(entities, key, ids, k) != []
    ensures var r := Group(entities, key, ids, k)[0];
            && r in ids && key(entities[r].content) == k
            && (forall e :: e in ids && key(entities[e].content) == k ==> Leader(entities, key, ids, e) == r)
  {
  }

  /** One leader per fingerprint. */
  lemma {:induction false} LeadersCount(entities: Entities, key: Fingerprint, ids: seq<Id>, keys: seq<Key>)
    requires AllIn(entities, ids) && Distinct(ids) && Distinct(keys)
    requires forall k :: k in keys ==> Group(entities, key, ids, k) != []
    ensures |Leaders(entities, key, ids, Members(keys))| == |keys|
  {
    if keys == [] {
      assert Leaders(entities, key, ids, Members(keys)) == {};
    } else {
      hide Group, Leaders;
      MembersSnoc(keys);
      LeadersCount(entities, key, ids, keys[..|keys| - 1]);
      LeadersGrow(entities, key, ids, Members(keys[..|keys| - 1]), keys[|keys| - 1]);
    }
  }

  lemma EveryKeyDone(entities: Entities, key: Fingerprint, ids: seq<Id>, keys: seq<Key>)
    requires AllIn(entities, ids) && forall k :: k in keys <==> Group(entities, key, ids, k) != []
    ensures forall e :: e in ids ==> key(entities[e].content) in Members(keys)
  {
  }

  lemma AllLinked(entities: Entities, key: Fingerprint, ids: seq<Id>, done: set<Key>)
    requires AllIn(entities, ids) && forall e :: e in ids ==> key(entities[e].content) in done
    ensures PartlyLinked(entities, key, ids, done) == Deduped(entities, key, ids)
    ensures Followers(entities, key, ids, done) == LinkedRows(Deduped(entities, key, ids), ids)
  {
  }

  lemma LeadersAndFollowers(entities: Entities, key: Fingerprint, ids: seq<Id>, done: set<Key>)
    requires AllIn(entities, ids) && Distinct(ids) && forall e :: e in ids ==> key(entities[e].content) in done
    ensures |ids| == |Leaders(entities, key, ids, done)| + |Followers(entities, key, ids, done)|
  {
    hide Group, Leader;
    MembersSize(ids);
    var f, l := Followers(entities, key, ids, done), Leaders(entities, key, ids, done);
    assert Members(ids) == f + l && f !! l;
  }

  method Deduplicate(entities: Entities, key: Fingerprint, ids: seq<Id>) returns (r: Entities, stats: Stats)
    requires AllIn(entities, ids) && Distinct(ids)
    ensures r == Deduped(entities, key, ids)
    ensures stats.total == |ids| == stats.distinct + stats.linked
    ensures stats.distinct == |Fingerprints(entities, key, ids)|
    ensures AllIn(r, ids) && stats.linked == |LinkedRows(r, ids)|
    ensures stats.merged == |SharedKeys(entities, key, ids, Fingerprints(entities, key, ids))|
  {
    var cleared := ClearLinks(entities, ids);
    var groups, keys := GroupByFingerprint(entities, key, ids);
    hide Group, PartlyLinked, Followers, Leaders, Members, Linked, LinkedRows, SharedKeys, Fingerprints;
    var merged, linked;
    r, merged, linked := LinkGroups(entities, key, ids, cleared, groups, keys);
    EveryKeyDone(entities, key, ids, keys);
    AllLinked(entities, key, ids, Members(keys));
    LeadersAndFollowers(entities, key, ids, Members(keys));
    LeadersCount(entities, key, ids, keys);
    KeysAreFingerprints(entities, key, ids, keys);
    MergedIsShared(entities, key, ids, keys);
    stats := Stats(|ids|, |keys|, merged, linked);
  }

  function Fingerprints(entities: Entities, key: Fingerprint, ids: seq<Id>): set<Key>
    requires AllIn(entities, ids)
  {
    set e | e in ids :: key(entities[e].content)
  }

  predicate Shared(entities: Entities, key: Fingerprint, ids: seq<Id>, k: Key)
    requires AllIn(entities, ids)
  {
    |Group(entities, key, ids, k)| > 1
  }

  /** The fingerprints that more than one listed row has. */
  function SharedKeys(entities: Entities, key: Fingerprint, ids: seq<Id>, keys: set<Key>): set<Key>
    requires AllIn(entities, ids)
  {
    set k | k in keys && Shared(entities, key, ids, k)
  }

  lemma KeysAreFingerprints(entities: Entities, key: Fingerprint, ids: seq<Id>, keys: seq<Key>)
    requires AllIn(entities, ids) && Distinct(keys)
    requires forall k :: k in keys <==> Group(entities, key, ids, k) != []
    ensures Members(keys) == Fingerprints(entities, key, ids) && |keys| == |Members(keys)|
  {
    forall k | k in keys ensures k in Fingerprints(entities, key, ids) {
      var e := Group(entities, key, ids, k)[0];
      assert e in Group(entities, key, ids, k);
    }
    forall e | e in ids ensures key(entities[e].content) in keys {
      assert e in Group(entities, key, ids, key(entities[e].content));
    }
    hide Group;
    MembersSize(keys);
  }

  lemma SharedGrows(entities: Entities, key: Fingerprint, ids: seq<Id>, done: set<Key>, k: Key)
    requires AllIn(entities, ids) && k !in done
    ensures |SharedKeys(entities, key, ids, done + {k})|
         == |SharedKeys(entities, key, ids, done)| + if Shared(entities, key, ids, k) then 1 else 0
  {
    hide Shared;
    assert SharedKeys(entities, key, ids, done + {k})
        == SharedKeys(entities, key, ids, done) + if Shared(entities, key, ids, k) then {k} else {};
  }

  lemma {:induction false} MergedIsShared(entities: Entities, key: Fingerprint, ids: seq<Id>, keys: seq<Key>)
    requires AllIn(entities, ids) && Distinct(keys)
    ensures MergedCount(entities, key, ids, keys) == |SharedKeys(entities, key, ids, Members(keys))|
  {
    if keys == [] {
      assert SharedKeys(entities, key, ids, Members(keys)) == {};
    } else {
      hide Group, SharedKeys;
      MembersSnoc(keys);
      MergedIsShared(entities, key, ids, keys[..|keys| - 1]);
      LastIsNew(keys);
      SharedGrows(entities, key, ids, Members(keys[..|keys| - 1]), keys[|keys| - 1]);
    }
  }

  lemma LastIsNew(keys: seq<Key>)
    requires Distinct(keys) && keys != []
    ensures keys[|keys| - 1] !in Members(keys[..|keys| - 1]) && Distinct(keys[..|keys| - 1])
  {
  }
}
