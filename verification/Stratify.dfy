/**
 Taking quotes from every source in turn (app/services/audience_portrait_service.py:66-97).

 The result is described by what it takes from each bucket: `Of(out, k)` against `Of(items, k)`.
 */
module Stratify {
  import opened Text
  import opened Evidence
  import opened Sorting

  function Bucket(q: Quote): string {
    if q.documentId != "" then "d:" + q.documentId
    else if q.audioId != "" then "a:" + q.audioId
    else if q.transcriptId != "" then "t:" + q.transcriptId
    else "z:unknown"
  }

  /** Quotes are put together by document if they have one, else by audio, else by transcript. */
  lemma SameBucketExactly(p: Quote, q: Quote)
    ensures Bucket(p) == Bucket(q) <==>
            && p.documentId == q.documentId
            && (p.documentId == "" ==> p.audioId == q.audioId && (p.audioId == "" ==> p.transcriptId == q.transcriptId))
  {
    forall prefix: string, a: string, b: string | |prefix| == 2 ensures prefix + a == prefix + b ==> a == b {
      assert (prefix + a)[2..] == a && (prefix + b)[2..] == b;
    }
    assert Bucket(p)[0] == Bucket(q)[0] || Bucket(p) != Bucket(q);
  }

  /** The quotes of one bucket, in order. */
  function Of(s: seq<Quote>, k: string): seq<Quote> {
    if s == [] then []
    else Of(s[..|s| - 1], k) + if Bucket(s[|s| - 1]) == k then [s[|s| - 1]] else []
  }

  lemma OfAppend(s: seq<Quote>, q: Quote, k: string)
    ensures Of(s + [q], k) == Of(s, k) + if Bucket(q) == k then [q] else []
  {
  }

  predicate Unknown(k: string) { "z:" <= k }

  /** Known sources first, then alphabetically. */
  const KEY_ORDER: (string, string) -> bool :=
    (a: string, b: string) => if Unknown(a) == Unknown(b) then LexLess(a, b) else Unknown(b)

  /** The buckets in use, in order of first use. */
  function KeysInUse(items: seq<Quote>): (r: seq<string>)
    ensures Distinct(r)
    ensures forall k :: k in r <==> Of(items, k) != []
  {
    if items == [] then []
    else
      var before, k := KeysInUse(items[..|items| - 1]), Bucket(items[|items| - 1]);
      if k in before then before else before + [k]
  }

  /** The order in which the buckets are visited. */
  function Keys(items: seq<Quote>): seq<string> {
    Sort(KeysInUse(items), KEY_ORDER)
  }

  lemma KeyOrderIsWeak()
    ensures WeakOrder(KEY_ORDER)
  {
    forall a, b ensures KEY_ORDER(a, b) ==> !KEY_ORDER(b, a) {
      LexTotal(a, b);
    }
    forall a, b, c ensures !KEY_ORDER(b, a) && !KEY_ORDER(c, b) ==> !KEY_ORDER(c, a) {
      LexTransitive(a, b, c);
    }
  }

  /** Each bucket in use once; those of known sources first, each kind in alphabetical order. */
  lemma KeysExactly(items: seq<Quote>)
    ensures var keys := Keys(items);
            && (forall k :: k in keys <==> exists q :: q in items && Bucket(q) == k)
            && (forall i, j :: 0 <= i < j < |keys| ==>
                  if "z:" <= keys[i] then "z:" <= keys[j] && LexLess(keys[i], keys[j])
                  else "z:" <= keys[j] || LexLess(keys[i], keys[j]))
  {
    var keys, used := Keys(items), KeysInUse(items);
    KeyOrderIsWeak();
    SortSorts(used, KEY_ORDER);
    SortKeepsMembers(used, KEY_ORDER);
    SortKeepsDistinct(used, KEY_ORDER);
    hide Keys, Sort, KeysInUse, Bucket;
    forall k ensures Of(items, k) != [] <==> exists q :: q in items && Bucket(q) == k {
      UsedExactly(items, k);
    }
    forall i, j | 0 <= i < j < |keys|
      ensures if Unknown(keys[i]) then Unknown(keys[j]) && LexLess(keys[i], keys[j])
              else Unknown(keys[j]) || LexLess(keys[i], keys[j])
    {
      LexTotal(keys[i], keys[j]);
    }
  }

  lemma {:induction false} UsedExactly(items: seq<Quote>, k: string)
    ensures Of(items, k) != [] <==> exists q :: q in items && Bucket(q) == k
  {
    hide Bucket;
    if items == [] {
    } else {
      UsedExactly(items[..|items| - 1], k);
      assert forall q :: q in items <==> q in items[..|items| - 1] || q == items[|items| - 1];
    }
  }

  function Take(s: seq<Quote>, n: nat): seq<Quote> {
    if n <= |s| then s[..n] else s
  }

  /** State inside a round: the first `visited` buckets have given `round + 1` quotes, the others `round`. */
  predicate InRound(items: seq<Quote>, out: seq<Quote>, keys: seq<string>, round: nat, visited: nat)
    requires visited <= |keys|
  {
    && (forall j :: 0 <= j < visited ==> Of(out, keys[j]) == Take(Of(items, keys[j]), round + 1))
    && (forall j :: visited <= j < |keys| ==> Of(out, keys[j]) == Take(Of(items, keys[j]), round))
  }

  /** Buckets give prefixes; a bucket with quotes left is at most one quote behind any other. */
  ghost predicate Fair(items: seq<Quote>, out: seq<Quote>) {
    && (forall k :: Of(out, k) <= Of(items, k))
    && (forall a, b :: |Of(out, a)| < |Of(items, a)| ==> |Of(out, b)| <= |Of(out, a)| + 1)
  }

  /** A bucket with quotes left is not behind one that is visited after it. */
  predicate InKeyOrder(items: seq<Quote>, out: seq<Quote>, keys: seq<string>) {
    forall i, j :: 0 <= i < j < |keys| && |Of(out, keys[i])| < |Of(items, keys[i])| ==>
      |Of(out, keys[j])| <= |Of(out, keys[i])|
  }

  /** Fair and in key order at every moment, so quotes of a round come out bucket by bucket. */
  ghost predicate FairAllAlong(items: seq<Quote>, out: seq<Quote>, keys: seq<string>) {
    forall m :: 0 <= m <= |out| ==> Fair(items, out[..m]) && InKeyOrder(items, out[..m], keys)
  }

  lemma FairStep(items: seq<Quote>, out: seq<Quote>, q: Quote, keys: seq<string>)
    requires FairAllAlong(items, out, keys)
    requires Fair(items, out + [q]) && InKeyOrder(items, out + [q], keys)
    ensures FairAllAlong(items, out + [q], keys)
  {
    hide Fair, InKeyOrder;
    forall m | 0 <= m <= |out + [q]|
      ensures Fair(items, (out + [q])[..m]) && InKeyOrder(items, (out + [q])[..m], keys)
    {
      if m <= |out| {
        assert (out + [q])[..m] == out[..m];
      } else {
        assert (out + [q])[..m] == out + [q];
      }
    }
  }

  lemma {:induction false} OfOnlyKeys(items: seq<Quote>, out: seq<Quote>, keys: seq<string>, k: string)
    requires forall q :: q in out ==> Bucket(q) in keys
    requires k !in keys
    ensures Of(out, k) == []
  {
    if out == [] {
    } else {
      OfOnlyKeys(items, out[..|out| - 1], keys, k);
      assert out[|out| - 1] in out;
    }
  }

  lemma InRoundIsFair(items: seq<Quote>, out: seq<Quote>, keys: seq<string>, round: nat, visited: nat)
    requires visited <= |keys| && InRound(items, out, keys, round, visited)
    requires forall k :: k in keys <==> Of(items, k) != []
    requires forall q :: q in out ==> Bucket(q) in keys
    ensures Fair(items, out) && InKeyOrder(items, out, keys)
  {
    hide Of, Bucket;
    forall k ensures Of(out, k) <= Of(items, k)
      ensures |Of(items, k)| <= round || round <= |Of(out, k)|
      ensures |Of(out, k)| <= round + 1
    {
      if k in keys {
        var j :| 0 <= j < |keys| && keys[j] == k;
      } else {
        OfOnlyKeys(items, out, keys, k);
      }
    }
  }

  // ----- counting

  lemma {:induction false} OfCounts(s: seq<Quote>, k: string, q: Quote)
    ensures multiset(Of(s, k))[q] == if Bucket(q) == k then multiset(s)[q] else 0
  {
    hide Bucket;
    if s == [] {
    } else {
      OfCounts(s[..|s| - 1], k, q);
      assert s == s[..|s| - 1] + [s[|s| - 1]];
    }
  }

  lemma PrefixCounts(items: seq<Quote>, out: seq<Quote>, q: Quote)
    requires Of(out, Bucket(q)) <= Of(items, Bucket(q))
    ensures multiset(out)[q] <= multiset(items)[q]
  {
    hide Of, Bucket;
    var a, b := Of(out, Bucket(q)), Of(items, Bucket(q));
    OfCounts(out, Bucket(q), q);
    OfCounts(items, Bucket(q), q);
    assert b == a + b[|a|..];
    assert multiset(b) == multiset(a) + multiset(b[|a|..]);
  }

  lemma PrefixesMakeSubset(items: seq<Quote>, out: seq<Quote>)
    requires forall k :: Of(out, k) <= Of(items, k)
    ensures |out| <= |items|
  {
    hide Of, Bucket;
    forall q ensures multiset(out)[q] <= multiset(items)[q] {
      PrefixCounts(items, out, q);
    }
    var m, n := multiset(out), multiset(items);
    assert n == m + (n - m);
    assert |n| == |m| + |n - m|;
  }

  lemma AllTaken(items: seq<Quote>, out: seq<Quote>)
    requires forall k :: Of(out, k) == Of(items, k)
    ensures |out| == |items|
  {
    PrefixesMakeSubset(items, out);
    PrefixesMakeSubset(out, items);
  }

  // ----- the loops

  method FillBuckets(items: seq<Quote>) returns (buckets: map<string, seq<Quote>>, keys: seq<string>)
    ensures keys == KeysInUse(items)
    ensures forall k :: k in buckets <==> k in keys
    ensures forall k :: k in keys ==> buckets[k] == Of(items, k)
  {
    buckets, keys := map[], [];
    for i := 0 to |items|
      invariant keys == KeysInUse(items[..i])
      invariant forall k :: k in buckets <==> k in keys
      invariant forall k :: k in keys ==> buckets[k] == Of(items[..i], k)
    {
      assert items[..i + 1][..i] == items[..i];
      var q, k := items[i], Bucket(items[i]);
      if k !in buckets {
        buckets, keys := buckets[k := []], keys + [k];
      }
      buckets := buckets[k := buckets[k] + [q]];
    }
    assert items[..|items|] == items;
  }

  method StratifyQuotesBySource(items: seq<Quote>, maxTotal: int) returns (out: seq<Quote>)
    ensures |out| == Min(Max(0, maxTotal), |items|)
    ensures FairAllAlong(items, out, Keys(items))
  {
    hide Of, Bucket, InRound, FairAllAlong, Fair, InKeyOrder, KEY_ORDER, KeysInUse, Sort;
    var buckets, keys := FillBuckets(items);
    keys := Sort(keys, KEY_ORDER);
    SortKeepsMembers(KeysInUse(items), KEY_ORDER);
    SortKeepsDistinct(KeysInUse(items), KEY_ORDER);
    out := [];
    var round := 0;
    ghost var visited := 0;
    FirstRound(items, keys);
    InRoundIsFair(items, out, keys, 0, 0);
    FairFromTheStart(items, keys);
    while |out| < maxTotal
      invariant visited <= |keys| && InRound(items, out, keys, round, visited)
      invariant |out| < maxTotal ==> visited == 0
      invariant forall q :: q in out ==> Bucket(q) in keys
      invariant |out| <= Max(0, maxTotal) && FairAllAlong(items, out, keys)
      decreases maxTotal - |out|
    {
      var progressed := false;
      ghost var before := |out|;
      var i := 0;
      while i < |keys|
        invariant 0 <= i <= |keys| && InRound(items, out, keys, round, i)
        invariant |out| < maxTotal && FairAllAlong(items, out, keys)
        invariant forall q :: q in out ==> Bucket(q) in keys
        invariant progressed <==> before < |out|
        invariant !progressed ==> |out| == before && forall j :: 0 <= j < i ==> |Of(items, keys[j])| <= round
        invariant before <= |out|
      {
        assert keys[i] in keys;
        var list := buckets[keys[i]];
        if round >= |list| {
          SkippedBucket(items, out, keys, round, i);
        }
        if round < |list| {
          OneMore(items, out, keys, round, i);
          InRoundIsFair(items, out + [list[round]], keys, round, i + 1);
          FairStep(items, out, list[round], keys);
          out := out + [list[round]];
          progressed := true;
          if |out| >= maxTotal {
            break;
          }
        }
        i := i + 1;
      }
      visited := if i < |keys| then i + 1 else i;
      if !progressed {
        NothingLeft(items, out, keys, round);
        return;
      }
      if |out| < maxTotal {
        NextRound(items, out, keys, round);
        round, visited := round + 1, 0;
      }
    }
    FairIsNotLonger(items, out, keys);
  }

  lemma FirstRound(items: seq<Quote>, keys: seq<string>)
    ensures InRound(items, [], keys, 0, 0)
  {
  }

  lemma NextRound(items: seq<Quote>, out: seq<Quote>, keys: seq<string>, round: nat)
    requires InRound(items, out, keys, round, |keys|)
    ensures InRound(items, out, keys, round + 1, 0)
  {
  }

  lemma SkippedBucket(items: seq<Quote>, out: seq<Quote>, keys: seq<string>, round: nat, i: nat)
    requires i < |keys| && InRound(items, out, keys, round, i) && |Of(items, keys[i])| <= round
    ensures InRound(items, out, keys, round, i + 1)
  {
  }

  lemma FairFromTheStart(items: seq<Quote>, keys: seq<string>)
    requires Fair(items, []) && InKeyOrder(items, [], keys)
    ensures FairAllAlong(items, [], keys)
  {
  }

  lemma FairIsNotLonger(items: seq<Quote>, out: seq<Quote>, keys: seq<string>)
    requires FairAllAlong(items, out, keys)
    ensures |out| <= |items|
  {
    assert out[..|out|] == out;
    PrefixesMakeSubset(items, out);
  }

  /** Visiting a bucket that has another quote. */
  lemma OneMore(items: seq<Quote>, out: seq<Quote>, keys: seq<string>, round: nat, i: nat)
    requires i < |keys| && Distinct(keys) && InRound(items, out, keys, round, i)
    requires round < |Of(items, keys[i])|
    ensures Bucket(Of(items, keys[i])[round]) == keys[i]
    ensures InRound(items, out + [Of(items, keys[i])[round]], keys, round, i + 1)
  {
    hide Of, Bucket;
    var q := Of(items, keys[i])[round];
    OfInBucket(items, keys[i], q);
    forall j | 0 <= j < |keys| ensures
      Of(out + [q], keys[j]) == Of(out, keys[j]) + if j == i then [q] else []
    {
      OfAppend(out, q, keys[j]);
    }
  }

  lemma {:induction false} OfInBucket(s: seq<Quote>, k: string, q: Quote)
    requires q in Of(s, k)
    ensures Bucket(q) == k
  {
    if s != [] && q in Of(s[..|s| - 1], k) {
      OfInBucket(s[..|s| - 1], k, q);
    }
  }

  /** A round without progress means every bucket is used up. */
  lemma NothingLeft(items: seq<Quote>, out: seq<Quote>, keys: seq<string>, round: nat)
    requires InRound(items, out, keys, round, |keys|)
    requires forall j :: 0 <= j < |keys| ==> |Of(items, keys[j])| <= round
    requires forall k :: k in keys <==> Of(items, k) != []
    requires forall q :: q in out ==> Bucket(q) in keys
    ensures |out| == |items|
  {
    forall k ensures Of(out, k) == Of(items, k) {
      if k in keys {
        var j :| 0 <= j < |keys| && keys[j] == k;
      } else {
        OfOnlyKeys(items, out, keys, k);
      }
    }
    AllTaken(items, out);
  }
}
