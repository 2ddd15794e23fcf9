/**
 Which pending sources a drain takes (app/services/project_queue_service.py:277-326): the documents
 and the audios are each sorted and cut at twice the limit, then merged, sorted and cut again.
 */
module Picker {
  import opened QueueRows
  import opened Sorting
  import opened Text

  datatype Item = Item(source: Source, order: int, created: int)

  predicate Before(p: Item, q: Item) {
    p.order < q.order || (p.order == q.order && p.created < q.created)
  }

  const BEFORE: (Item, Item) -> bool := (p: Item, q: Item) => Before(p, q)

  predicate Sorted(s: seq<Item>) { SortedBy(s, BEFORE) }

  /**
   An answer to `SELECT ... ORDER BY order, created LIMIT limit` over `table`; the database is free
   to order rows with equal keys as it likes.
   */
  predicate Selection(table: set<Item>, limit: nat, out: seq<Item>) {
    && |out| == (if limit <= |table| then limit else |table|)
    && Distinct(out) && Sorted(out)
    && (forall p :: p in out ==> p in table)
    && (forall p, q :: p in table && p !in out && q in out ==> !Before(p, q))
  }

  function PendingItems(rows: Table): set<Item> {
    set s | s in rows && rows[s].status == Pending :: Item(s, rows[s].sortOrder, rows[s].createdAt)
  }

  /** Lower order first, and among equal orders the older row. */
  predicate NotAfter(p: Item, q: Item) {
    p.order < q.order || (p.order == q.order && p.created <= q.created)
  }

  method PickPending(ghost documents: set<Item>, ghost audios: set<Item>,
                     documentHits: seq<Item>, audioHits: seq<Item>, limit: nat) returns (picked: seq<Item>)
    requires documents !! audios
    requires Selection(documents, 2 * limit, documentHits) && Selection(audios, 2 * limit, audioHits)
    ensures Selection(documents + audios, limit, picked)
    ensures |picked| == Min(limit, |documents + audios|) && Distinct(picked)
    ensures forall i, j :: 0 <= i < j < |picked| ==> NotAfter(picked[i], picked[j])
    ensures forall p, q :: p in documents + audios && p !in picked && q in picked ==> NotAfter(q, p)
  {
    var pending := [];
    for i := 0 to |documentHits|
      invariant pending == documentHits[..i]
    {
      pending := pending + [documentHits[i]];
    }
    for i := 0 to |audioHits|
      invariant pending == documentHits + audioHits[..i]
    {
      pending := pending + [audioHits[i]];
    }
    assert pending == documentHits + audioHits;
    pending := Sort(pending, BEFORE);
    picked := if limit <= |pending| then pending[..limit] else pending;
    MergeOfCutsIsSelection(documents, audios, documentHits, audioHits, limit);
  }

  // ----- cutting first loses nothing

  function Cut(s: seq<Item>, limit: nat): seq<Item> {
    if limit <= |s| then s[..limit] else s
  }

  lemma SubsetCardinality(a: set<Item>, b: set<Item>)
    requires a <= b
    ensures |a| <= |b|
    ensures |a| == |b| ==> a == b
  {
    assert b == a + (b - a);
  }

  /** A table row that was not selected means the cut was full. */
  lemma MissedMeansFull(table: set<Item>, limit: nat, out: seq<Item>, p: Item)
    requires Selection(table, limit, out) && p in table && p !in out
    ensures |out| == limit
  {
    MembersSize(out);
    SubsetCardinality(Members(out), table);
  }

  /** If `limit` distinct items of a sorted list are before `q`, then `q` is not among its first `limit`. */
  lemma CrowdedOut(all: seq<Item>, crowd: seq<Item>, i: nat)
    requires Sorted(all) && i < |all| && Distinct(crowd)
    requires forall d :: d in crowd ==> d in all && Before(d, all[i])
    ensures |crowd| <= i
  {
    MembersSize(crowd);
    MembersSize(all[..i]);
    forall d | d in crowd ensures d in all[..i] {
      var j :| 0 <= j < |all| && all[j] == d;
      assert j < i;
    }
    SubsetCardinality(Members(crowd), Members(all[..i]));
  }

  lemma UnpickedIsNotBefore(table: set<Item>, hits: seq<Item>, limit: nat, all: seq<Item>, p: Item, i: nat)
    requires Selection(table, 2 * limit, hits) && p in table && p !in hits
    requires Sorted(all) && (forall d :: d in hits ==> d in all) && i < |all| && i < limit
    ensures !Before(p, all[i])
  {
    MissedMeansFull(table, 2 * limit, hits, p);
    if Before(p, all[i]) {
      forall d | d in hits ensures Before(d, all[i]) {
        assert !Before(p, d);
      }
      CrowdedOut(all, hits, i);
    }
  }

  /** A sort neither loses, repeats nor invents an item. */
  lemma SortedSelection(s: seq<Item>)
    requires Distinct(s)
    ensures var all := Sort(s, BEFORE); Sorted(all) && Distinct(all) && Members(all) == Members(s)
  {
    SortSorts(s, BEFORE);
    SortKeepsMembers(s, BEFORE);
    SortKeepsDistinct(s, BEFORE);
  }

  lemma CutKeepsSelection(all: seq<Item>, limit: nat)
    requires Sorted(all) && Distinct(all)
    ensures var out := Cut(all, limit);
            && Sorted(out) && Distinct(out) && (forall p :: p in out ==> p in all)
            && (forall p, q :: p in all && p !in out && q in out ==> !Before(p, q))
  {
  }

  lemma UnionCardinality(documents: set<Item>, audios: set<Item>)
    requires documents !! audios
    ensures |documents + audios| == |documents| + |audios|
  {
  }

  lemma MergeOfCutsIsSelection(documents: set<Item>, audios: set<Item>,
                               documentHits: seq<Item>, audioHits: seq<Item>, limit: nat)
    requires documents !! audios
    requires Selection(documents, 2 * limit, documentHits) && Selection(audios, 2 * limit, audioHits)
    ensures Selection(documents + audios, limit, Cut(Sort(documentHits + audioHits, BEFORE), limit))
  {
    var merged := documentHits + audioHits;
    var all := Sort(merged, BEFORE);
    var out := Cut(all, limit);
    ConcatDistinct(documentHits, audioHits);
    SortedSelection(merged);
    CutKeepsSelection(all, limit);
    UnionCardinality(documents, audios);
    assert forall d :: d in all <==> d in Members(all);
    assert forall d :: d in merged <==> d in Members(merged);
    forall p, q | p in documents + audios && p !in out && q in out ensures !Before(p, q) {
      if p !in all {
        var i :| 0 <= i < |out| && out[i] == q;
        assert all[i] == q;
        if p in documents {
          UnpickedIsNotBefore(documents, documentHits, limit, all, p, i);
        } else {
          UnpickedIsNotBefore(audios, audioHits, limit, all, p, i);
        }
      }
    }
  }

  // ----- what the order of the queue means

  /** With distinct keys the answer of the picker is determined. */
  lemma SelectionIsUnique(table: set<Item>, limit: nat, a: seq<Item>, b: seq<Item>)
    requires Selection(table, limit, a) && Selection(table, limit, b)
    requires forall p, q :: p in table && q in table && p != q ==> Before(p, q) || Before(q, p)
    ensures a == b
  {
    if a != b {
      var i := FirstDifference(a, b);
      assert a[i] in table && b[i] in table;
      if Before(a[i], b[i]) { NotInOther(b, a, i); } else { NotInOther(a, b, i); }
    }
  }

  lemma FirstDifference(a: seq<Item>, b: seq<Item>) returns (i: nat)
    requires |a| == |b| && a != b
    ensures i < |a| && a[i] != b[i] && a[..i] == b[..i]
  {
    i := 0;
    while a[i] == b[i]
      invariant i < |a| && a[..i] == b[..i] && a[i..] != b[i..]
      decreases |a| - i
    {
      assert a[i..] == [a[i]] + a[i + 1..] && b[i..] == [b[i]] + b[i + 1..];
      i := i + 1;
    }
  }

  lemma NotInOther(b: seq<Item>, a: seq<Item>, i: nat)
    requires i < |a| && i < |b| && a[..i] == b[..i] && Distinct(a) && Sorted(b) && Before(a[i], b[i])
    ensures a[i] !in b
  {
  }
}
