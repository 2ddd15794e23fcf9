/**
 The entities made out of one chunk (app/services/research_extraction_service.py:81-302): provider
 candidates are filtered, sparse results are supplemented from text segments, and sentences stand in
 when the provider finds too little.

 Sentence splitting and segmenting are any functions (`Tools`); where more is known of the splitter,
 `SplitterOk` says so.
 */
module Candidates {
  import opened Text
  import opened Sorting

  const MAX_CONTENT_LENGTH: nat := 300
  const SUPPORTING_FACT: string := "supporting_fact"

  datatype Span = Span(lo: int, hi: int)

  datatype Candidate = Candidate(kind: string, content: string, span: Span)

  datatype Sentence = Sentence(text: string, span: Span)

  datatype Tools = Tools(sentences: string -> seq<Sentence>, segments: (string, nat) -> seq<Span>)

  predicate Overlap(a: Span, b: Span) {
    !(a.hi <= b.lo || a.lo >= b.hi)
  }

  /** A slice bound of Python: negative ones count from the end. */
  function Bound(i: int, n: nat): (r: nat)
    ensures r <= n
    ensures 0 <= i <= n ==> r == i
    ensures i < 0 <= i + n ==> r == i + n
    ensures (i > n ==> r == n) && (i + n < 0 ==> r == 0)
  {
    if i < 0 then Max(0, i + n) else Min(i, n)
  }

  /** `text[a:b]`. */
  function Slice(text: string, s: Span): string {
    var lo, hi := Bound(s.lo, |text|), Bound(s.hi, |text|);
    if lo <= hi then text[lo..hi] else ""
  }

  const BY_SPAN: (Candidate, Candidate) -> bool := (x: Candidate, y: Candidate) =>
    x.span.lo < y.span.lo
    || (x.span.lo == y.span.lo && (x.span.hi < y.span.hi || (x.span.hi == y.span.hi && LexLess(x.kind, y.kind))))

  function FirstEight<T>(s: seq<T>): (r: seq<T>)
    ensures r <= s && |r| == Min(|s|, 8)
  {
    if |s| <= 8 then s else s[..8]
  }

  /** The horizontal ellipsis. */
  const ELLIPSIS: char := 0x2026 as char

  /** The stripped text, cut to 300 characters with an ellipsis (app/services/extraction/mock_provider.py:113-115). */
  function Clip(s: string): (r: string)
    ensures |r| <= 300
    ensures |Strip(s)| <= 300 ==> r == Strip(s)
  {
    var t := Strip(s);
    if |t| <= MAX_CONTENT_LENGTH then t
    else t[..TailStart(t, 0, MAX_CONTENT_LENGTH - 1)] + [ELLIPSIS]
  }

  /** One for every hundred characters, three at least and six at most. */
  function SegmentCount(text: string): (r: nat)
    ensures 3 <= r <= 6 && (r > 3 ==> 100 * (r - 1) < |text|) && (r < 6 ==> |text| <= 100 * r)
  {
    Min(6, Max(3, (|text| + 99) / 100))
  }

  function FromSegment(text: string, s: Span): Candidate {
    Candidate(SUPPORTING_FACT, Clip(Strip(Slice(text, s))), s)
  }

  /** A segment is used when it is clear of everything so far, not tiny, and not the whole text. */
  predicate Usable(text: string, s: Span, out: seq<Candidate>) {
    && (forall i :: 0 <= i < |out| ==> !Overlap(s, out[i].span))
    && |Strip(Slice(text, s))| >= 12 && Strip(Slice(text, s)) != text
  }

  /** Adds usable segments until there are `limit` candidates. */
  function Grow(text: string, segs: seq<Span>, out: seq<Candidate>, limit: nat): seq<Candidate> {
    if segs == [] || |out| >= limit then out
    else if Usable(text, segs[0], out)
    then Grow(text, segs[1..], out + [FromSegment(text, segs[0])], limit)
    else Grow(text, segs[1..], out, limit)
  }

  function Supplemented(text: string, entities: seq<Candidate>, tools: Tools): seq<Candidate> {
    if |entities| >= 3 || |text| < 30 then entities
    else FirstEight(Sort(Grow(text, tools.segments(text, SegmentCount(text)), entities, 3), BY_SPAN))
  }

  function FromSentence(s: Sentence): Candidate {
    Candidate(SUPPORTING_FACT, Clip(s.text), s.span)
  }

  function FromSentences(ss: seq<Sentence>): (r: seq<Candidate>)
    ensures |r| == |ss|
  {
    seq(|ss|, i requires 0 <= i < |ss| => FromSentence(ss[i]))
  }

  /** Sentences, then segments when the sentences are few, then the whole text when there is nothing. */
  function FallbackList(text: string, tools: Tools): (r: seq<Candidate>)
    ensures r != []
  {
    var fromSentences := FromSentences(FirstEight(tools.sentences(text)));
    var out := if |fromSentences| < 3 && |text| >= 30
               then Grow(text, tools.segments(text, SegmentCount(text)), fromSentences, 8)
               else fromSentences;
    if out == [] then [Candidate(SUPPORTING_FACT, Clip(text), Span(0, |text|))] else out
  }

  function Fallback(text: string, tools: Tools): seq<Candidate> {
    if text == "" then [] else FirstEight(Sort(FallbackList(text, tools), BY_SPAN))
  }

  predicate Accepted(text: string, c: Candidate) {
    |Strip(c.content)| <= MAX_CONTENT_LENGTH && !(text != "" && Strip(c.content) == text)
  }

  function Filtered(text: string, raw: seq<Candidate>): seq<Candidate> {
    if raw == [] then []
    else Filtered(text, raw[..|raw| - 1]) + if Accepted(text, raw[|raw| - 1]) then [raw[|raw| - 1]] else []
  }

  /** Provider candidates when at least two survive, the fallback otherwise; supplemented, at most eight. */
  function Finalized(chunk: string, raw: seq<Candidate>, tools: Tools): seq<Candidate> {
    var text := Strip(chunk);
    var kept := Filtered(text, raw);
    var first := if |raw| <= 1 || |kept| <= 1 then Fallback(text, tools) else Supplemented(text, kept, tools);
    FirstEight(if |first| < 3 && |text| >= 30 then Supplemented(text, first, tools) else first)
  }

  // ----- the loops

  method GrowFromSegments(text: string, segs: seq<Span>, entities: seq<Candidate>, limit: nat)
    returns (out: seq<Candidate>)
    ensures out == Grow(text, segs, entities, limit)
  {
    hide Usable, FromSegment;
    out := entities;
    for k := 0 to |segs|
      invariant Grow(text, segs, entities, limit) == Grow(text, segs[k..], out, limit)
    {
      if |out| >= limit {
        return;
      }
      assert segs[k..][0] == segs[k] && segs[k..][1..] == segs[k + 1..];
      var usable := IsUsable(text, segs[k], out);
      if !usable {
        continue;
      }
      out := out + [FromSegment(text, segs[k])];
    }
  }

  method IsUsable(text: string, s: Span, out: seq<Candidate>) returns (usable: bool)
    ensures usable <==> Usable(text, s, out)
  {
    for i := 0 to |out|
      invariant forall j :: 0 <= j < i ==> !Overlap(s, out[j].span)
    {
      if Overlap(s, out[i].span) {
        return false;
      }
    }
    var snippet := Strip(Slice(text, s));
    return |snippet| >= 12 && snippet != text;
  }

  method SupplementSparse(text: string, entities: seq<Candidate>, tools: Tools) returns (out: seq<Candidate>)
    ensures out == Supplemented(text, entities, tools)
  {
    if |entities| >= 3 || |text| < 30 {
      return entities;
    }
    out := GrowFromSegments(text, tools.segments(text, SegmentCount(text)), entities, 3);
    out := Sort(out, BY_SPAN);
    if |out| > 8 {
      out := out[..8];
    }
  }

  method SentenceLevelFallback(text: string, tools: Tools) returns (out: seq<Candidate>)
    ensures out == Fallback(text, tools)
  {
    hide Clip, Strip, Grow, Sort, Usable;
    if text == "" {
      return [];
    }
    var sentences := FirstEight(tools.sentences(text));
    out := [];
    for i := 0 to |sentences|
      invariant out == FromSentences(sentences)[..i]
    {
      out := out + [FromSentence(sentences[i])];
    }
    assert out == FromSentences(sentences);
    if |out| < 3 && |text| >= 30 {
      out := GrowFromSegments(text, tools.segments(text, SegmentCount(text)), out, 8);
    }
    if out == [] {
      out := [Candidate(SUPPORTING_FACT, Clip(text), Span(0, |text|))];
    }
    assert out == FallbackList(text, tools);
    out := Sort(out, BY_SPAN);
    if |out| > 8 {
      out := out[..8];
    }
  }

  method FilterProviderCandidates(text: string, raw: seq<Candidate>) returns (accepted: seq<Candidate>)
    ensures accepted == Filtered(text, raw)
  {
    accepted := [];
    for i := 0 to |raw|
      invariant accepted == Filtered(text, raw[..i])
    {
      assert raw[..i + 1][..i] == raw[..i];
      var content := Strip(raw[i].content);
      if |content| > MAX_CONTENT_LENGTH {
        continue;
      }
      if text != "" && content == text {
        continue;
      }
      accepted := accepted + [raw[i]];
    }
    assert raw[..|raw|] == raw;
  }

  method FinalizeChunkEntities(chunk: string, raw: seq<Candidate>, tools: Tools) returns (out: seq<Candidate>)
    ensures out == Finalized(chunk, raw, tools)
  {
    hide Strip, Fallback, Supplemented, Filtered;
    var text := Strip(chunk);
    if |raw| <= 1 {
      out := SentenceLevelFallback(text, tools);
    } else {
      out := FilterProviderCandidates(text, raw);
      if |out| <= 1 {
        out := SentenceLevelFallback(text, tools);
      } else {
        out := SupplementSparse(text, out, tools);
      }
    }
    if |out| < 3 && |text| >= 30 {
      out := SupplementSparse(text, out, tools);
    }
    if |out| > 8 {
      out := out[..8];
    }
  }

  // ----- what growing keeps

  /** The first `|out|` candidates stay; each one after them is clear of all that came before it. */
  lemma {:induction false} GrowKeeps(text: string, segs: seq<Span>, out: seq<Candidate>, limit: nat)
    ensures var r := Grow(text, segs, out, limit);
            && out <= r && |r| <= Max(limit, |out|)
            && (forall i, j :: 0 <= i < j < |r| && |out| <= j ==>
                  r[j].span.hi <= r[i].span.lo || r[j].span.lo >= r[i].span.hi)
  {
    if segs == [] || |out| >= limit {
    } else {
      if Usable(text, segs[0], out) {
        var more := out + [FromSegment(text, segs[0])];
        GrowKeeps(text, segs[1..], more, limit);
        assert out <= more;
      } else {
        GrowKeeps(text, segs[1..], out, limit);
      }
    }
  }

  /** What a segment stores: its stripped text, clipped, if that has twelve characters and is not all there is. */
  ghost predicate IsOfSegment(text: string, c: Candidate, s: Span) {
    var snippet := Strip(Slice(text, s));
    c.kind == "supporting_fact" && c.content == Clip(snippet) && c.span == s && |snippet| >= 12 && snippet != text
  }

  ghost predicate OfSegments(text: string, c: Candidate, segs: seq<Span>) {
    exists s :: s in segs && IsOfSegment(text, c, s)
  }

  /** Nothing is left of a segment: it meets a candidate, is one, or is too short or all there is. */
  ghost predicate Spent(text: string, s: Span, cs: seq<Candidate>) {
    || |Strip(Slice(text, s))| < 12 || Strip(Slice(text, s)) == text
    || (exists c :: c in cs && s.lo < c.span.hi && c.span.lo < s.hi)
    || (exists c :: c in cs && IsOfSegment(text, c, s))
  }

  /** Growing uses segments only, and stops only when there is no room or nothing left that could be used. */
  lemma {:induction false} GrowExactly(text: string, segs: seq<Span>, out: seq<Candidate>, limit: nat)
    ensures var r := Grow(text, segs, out, limit);
            && out <= r
            && (forall j :: |out| <= j < |r| ==> OfSegments(text, r[j], segs))
            && (|r| < limit ==> forall s :: s in segs ==> Spent(text, s, r))
  {
    hide OfSegments, Spent, Usable, FromSegment;
    if segs == [] || |out| >= limit {
    } else {
      var next := if Usable(text, segs[0], out) then out + [FromSegment(text, segs[0])] else out;
      var r := Grow(text, segs, out, limit);
      GrowExactly(text, segs[1..], next, limit);
      assert forall s :: s in segs <==> s == segs[0] || s in segs[1..];
      UsedOrSpent(text, segs, out, r);
      forall j | |out| <= j < |r| ensures OfSegments(text, r[j], segs) {
        if |next| <= j {
          OfMoreSegments(text, r[j], segs[1..], segs);
        }
      }
    }
  }

  lemma UsedOrSpent(text: string, segs: seq<Span>, out: seq<Candidate>, r: seq<Candidate>)
    requires segs != [] && out <= r
    requires Usable(text, segs[0], out) ==> out + [FromSegment(text, segs[0])] <= r
    ensures Spent(text, segs[0], r)
    ensures Usable(text, segs[0], out) ==> OfSegments(text, r[|out|], segs)
  {
    StripIsNotLonger(Slice(text, segs[0]));
    hide Strip, Slice, Clip;
    if Usable(text, segs[0], out) {
      assert r[|out|] == (out + [FromSegment(text, segs[0])])[|out|] && r[|out|] in r;
      assert IsOfSegment(text, r[|out|], segs[0]);
    } else if |Strip(Slice(text, segs[0]))| >= 12 && Strip(Slice(text, segs[0])) != text {
      var i :| 0 <= i < |out| && Overlap(segs[0], out[i].span);
      assert r[i] == out[i] && r[i] in r;
    }
  }

  lemma OfMoreSegments(text: string, c: Candidate, segs: seq<Span>, more: seq<Span>)
    requires OfSegments(text, c, segs) && forall s :: s in segs ==> s in more
    ensures OfSegments(text, c, more)
  {
  }

  lemma SpentByMembers(text: string, s: Span, a: seq<Candidate>, b: seq<Candidate>)
    requires Spent(text, s, a) && forall c :: c in a <==> c in b
    ensures Spent(text, s, b)
  {
  }

  predicate ClearOfAll(c: Candidate, others: seq<Candidate>) {
    forall i :: 0 <= i < |others| ==> !Overlap(c.span, others[i].span)
  }

  /**
   The supplement drops nothing: its result is the incoming candidates together with added ones, and
   every added span is clear of every incoming and every other added span.
   */
  lemma SupplementKeepsAndSeparates(text: string, entities: seq<Candidate>, tools: Tools) returns (added: seq<Candidate>)
    ensures multiset(Supplemented(text, entities, tools)) == multiset(entities) + multiset(added)
    ensures forall j :: 0 <= j < |added| ==>
              ClearOfAll(added[j], entities) && ClearOfAll(added[j], added[..j] + added[j + 1..])
    ensures |Supplemented(text, entities, tools)| == |entities| + |added| <= Max(3, |entities|)
  {
    added := [];
    if |entities| < 3 && |text| >= 30 {
      var segs := tools.segments(text, SegmentCount(text));
      var all := Grow(text, segs, entities, 3);
      GrowKeeps(text, segs, entities, 3);
      SortPermutes(all, BY_SPAN);
      added := all[|entities|..];
      assert all == entities + added;
      forall j | 0 <= j < |added| ensures
        ClearOfAll(added[j], entities) && ClearOfAll(added[j], added[..j] + added[j + 1..])
      {
        AddedIsClear(all, |entities|, j);
      }
    }
  }

  lemma AddedIsClear(all: seq<Candidate>, n: nat, j: nat)
    requires n + j < |all|
    requires forall i, k :: 0 <= i < k < |all| && n <= k ==>
               all[k].span.hi <= all[i].span.lo || all[k].span.lo >= all[i].span.hi
    ensures var added := all[n..];
            ClearOfAll(added[j], all[..n]) && ClearOfAll(added[j], added[..j] + added[j + 1..])
  {
  }

  /** A chunk with text always yields between one and eight entities, whatever the provider returned. */
  lemma OneToEight(chunk: string, raw: seq<Candidate>, tools: Tools)
    requires Strip(chunk) != ""
    ensures 1 <= |Finalized(chunk, raw, tools)| <= 8
  {
    var text := Strip(chunk);
    var kept := Filtered(text, raw);
    var added := SupplementKeepsAndSeparates(text, kept, tools);
    var first := if |raw| <= 1 || |kept| <= 1 then Fallback(text, tools) else Supplemented(text, kept, tools);
    assert first != [];
    added := SupplementKeepsAndSeparates(text, first, tools);
  }

  /** An empty chunk yields nothing unless two provider candidates survive the filter. */
  lemma EmptyChunk(chunk: string, raw: seq<Candidate>, tools: Tools)
    requires Strip(chunk) == ""
    ensures Finalized(chunk, raw, tools) == [] <==> |raw| <= 1 || |Filtered("", raw)| <= 1
  {
  }

  /** Two or more accepted provider candidates are all stored, up to the cap of eight. */
  lemma AcceptedAreStored(chunk: string, raw: seq<Candidate>, tools: Tools)
    requires |Filtered(Strip(chunk), raw)| >= 2
    ensures var kept, r := Filtered(Strip(chunk), raw), Finalized(chunk, raw, tools);
            && (|kept| >= 3 ==> r == FirstEight(kept))
            && multiset(FirstEight(kept)) <= multiset(r)
  {
    var text := Strip(chunk);
    var kept := Filtered(text, raw);
    FilteredIsNotLonger(text, raw);
    hide Strip, Filtered;
    var first := Supplemented(text, kept, tools);
    var added := SupplementKeepsAndSeparates(text, kept, tools);
    added := SupplementKeepsAndSeparates(text, first, tools);
  }

  /** Kept are exactly the candidates of at most 300 characters that are not the chunk, in order. */
  lemma {:induction false} FilteredExactly(text: string, a: seq<Candidate>, b: seq<Candidate>, c: Candidate)
    ensures Filtered(text, [c]) ==
            if |Strip(c.content)| <= 300 && (text == "" || Strip(c.content) != text) then [c] else []
    ensures Filtered(text, a + b) == Filtered(text, a) + Filtered(text, b)
    decreases |b|
  {
    hide Strip;
    assert [c][..0] == [];
    if b == [] {
      assert a + b == a;
    } else {
      assert (a + b)[..|a + b| - 1] == a + b[..|b| - 1];
      FilteredExactly(text, a, b[..|b| - 1], c);
    }
  }

  lemma {:induction false} FilteredIsNotLonger(text: string, raw: seq<Candidate>)
    ensures |Filtered(text, raw)| <= |raw|
  {
    if raw == [] {
    } else {
      FilteredIsNotLonger(text, raw[..|raw| - 1]);
    }
  }

  // ----- the stored order

  lemma BySpanIsWeakOrder()
    ensures WeakOrder(BY_SPAN)
  {
    forall x, y ensures BY_SPAN(x, y) ==> !BY_SPAN(y, x) {
      LexTotal(x.kind, y.kind);
    }
    forall x, y, z ensures !BY_SPAN(y, x) && !BY_SPAN(z, y) ==> !BY_SPAN(z, x) {
      LexTransitive(x.kind, y.kind, z.kind);
    }
  }

  /** The start of the span never falls, nor its end among equal starts. */
  ghost predicate InSpanOrder(cs: seq<Candidate>) {
    forall i, j :: 0 <= i < j < |cs| ==>
      cs[i].span.lo < cs[j].span.lo || (cs[i].span.lo == cs[j].span.lo && cs[i].span.hi <= cs[j].span.hi)
  }

  /** Sorting and cutting puts candidates in order; eight or fewer are all kept. */
  lemma SortedInSpanOrder(cs: seq<Candidate>)
    ensures InSpanOrder(FirstEight(Sort(cs, BY_SPAN)))
    ensures |cs| <= 8 ==> forall c :: c in FirstEight(Sort(cs, BY_SPAN)) <==> c in cs
  {
    SortKeepsMembers(cs, BY_SPAN);
    BySpanIsWeakOrder();
    SortSorts(cs, BY_SPAN);
    var r := Sort(cs, BY_SPAN);
    hide Sort;
    forall i, j | 0 <= i < j < |FirstEight(r)|
      ensures r[i].span.lo < r[j].span.lo || (r[i].span.lo == r[j].span.lo && r[i].span.hi <= r[j].span.hi)
    {
      assert !BY_SPAN(r[j], r[i]);
    }
  }

  /** Fewer than three candidates for thirty characters are supplemented, up to three and as far as segments go. */
  lemma SupplementExactly(text: string, entities: seq<Candidate>, tools: Tools)
    ensures var r, segs := Supplemented(text, entities, tools), tools.segments(text, SegmentCount(text));
            if |entities| >= 3 || |text| < 30 then r == entities
            else && InSpanOrder(r) && |r| <= 3 && (forall c :: c in entities ==> c in r)
                 && (forall c :: c in r ==> c in entities || OfSegments(text, c, segs))
                 && (|r| < 3 ==> forall s :: s in segs ==> Spent(text, s, r))
  {
    if |entities| < 3 && |text| >= 30 {
      var segs := tools.segments(text, SegmentCount(text));
      var all, r := Grow(text, segs, entities, 3), Supplemented(text, entities, tools);
      GrowKeeps(text, segs, entities, 3);
      GrowExactly(text, segs, entities, 3);
      SortedInSpanOrder(all);
      hide Grow, Sort, Spent, OfSegments, InSpanOrder, SegmentCount, BY_SPAN;
      assert r == FirstEight(Sort(all, BY_SPAN)) && |r| == |all|;
      hide Supplemented, FirstEight;
      forall c | c in r ensures c in entities || OfSegments(text, c, segs) {
        var j :| 0 <= j < |all| && all[j] == c;
      }
      if |r| < 3 {
        forall s | s in segs ensures Spent(text, s, r) {
          SpentByMembers(text, s, all, r);
        }
      }
    }
  }

  /** Every one of the first eight sentences stands in, and the rest are segments. */
  lemma FallbackExactly(text: string, tools: Tools)
    requires text != "" && tools.sentences(text) != []
    ensures var r, ss := Fallback(text, tools), FirstEight(tools.sentences(text));
            && InSpanOrder(r) && |ss| <= |r| <= 8
            && (forall s :: s in ss ==> Candidate("supporting_fact", Clip(s.text), s.span) in r)
            && (forall c :: c in r ==>
                  || (exists s :: s in ss && c == Candidate("supporting_fact", Clip(s.text), s.span))
                  || (|ss| < 3 && |text| >= 30 && OfSegments(text, c, tools.segments(text, SegmentCount(text)))))
  {
    var ss, segs := FirstEight(tools.sentences(text)), tools.segments(text, SegmentCount(text));
    var all, r := FallbackList(text, tools), Fallback(text, tools);
    FallbackListExactly(text, tools);
    SortedInSpanOrder(all);
    hide Sort, OfSegments, InSpanOrder, Clip, SegmentCount, FallbackList, BY_SPAN;
    assert r == FirstEight(Sort(all, BY_SPAN)) && |r| == |all|;
    hide Fallback, FirstEight;
    forall s | s in ss ensures Candidate("supporting_fact", Clip(s.text), s.span) in r {
      var i :| 0 <= i < |ss| && ss[i] == s;
      assert all[i] in all;
    }
    forall c | c in r
      ensures || (exists s :: s in ss && c == Candidate("supporting_fact", Clip(s.text), s.span))
              || (|ss| < 3 && |text| >= 30 && OfSegments(text, c, segs))
    {
      var j :| 0 <= j < |all| && all[j] == c;
      if j < |ss| {
        assert ss[j] in ss;
      }
    }
  }

  lemma FallbackListExactly(text: string, tools: Tools)
    requires tools.sentences(text) != []
    ensures var all, ss := FallbackList(text, tools), FirstEight(tools.sentences(text));
            && |ss| <= |all| <= 8
            && (forall i :: 0 <= i < |ss| ==> all[i] == Candidate("supporting_fact", Clip(ss[i].text), ss[i].span))
            && (forall j :: |ss| <= j < |all| ==>
                  |ss| < 3 && |text| >= 30 && OfSegments(text, all[j], tools.segments(text, SegmentCount(text))))
  {
    hide OfSegments, Clip, SegmentCount, Grow;
    var ss, segs := FirstEight(tools.sentences(text)), tools.segments(text, SegmentCount(text));
    var sentences, all := FromSentences(ss), FallbackList(text, tools);
    GrowKeeps(text, segs, sentences, 8);
    GrowExactly(text, segs, sentences, 8);
    assert sentences <= all;
    forall i | 0 <= i < |ss| ensures all[i] == Candidate("supporting_fact", Clip(ss[i].text), ss[i].span) {
      assert all[i] == sentences[i] == FromSentence(ss[i]);
    }
  }

  // ----- copies of the chunk

  /** What the splitter gives of a stripped, non-empty text (app/services/extraction/mock_provider.py:29-44). */
  ghost predicate SplitterOk(tools: Tools) {
    forall text :: text != "" && Stripped(text) ==>
      && tools.sentences(text) != []
      && (forall s :: s in tools.sentences(text) ==> Stripped(s.text) && s.text != "" && |s.text| <= |text|)
  }

  predicate Copies(text: string, c: Candidate) {
    Strip(c.content) == text
  }

  predicate HasCopy(text: string, cs: seq<Candidate>) {
    exists c :: c in cs && Copies(text, c)
  }

  lemma StripIsNotLonger(s: string)
    ensures |Strip(s)| <= |s| && Strip(Strip(s)) == Strip(s)
  {
    StripYieldsStripped(s);
    StripKeepsStripped(Strip(s));
  }

  lemma SliceIsNotLonger(text: string, s: Span)
    ensures |Slice(text, s)| <= |text|
  {
  }

  /** A longer text ends after the last visible one of its first 299 characters, and then an ellipsis. */
  lemma LongClip(s: string)
    requires |Strip(s)| > 300
    ensures var r, t := Clip(s), Strip(s);
            var k := |r| - 1;
            && 0 < k <= 299 && r[k] == 0x2026 as char && r[..k] == t[..k] && !IsSpace(t[k - 1]) && Blank(t, k, 299)
  {
    StripYieldsStripped(s);
  }

  /** A clipped text is a copy only of itself: a cut one is shorter than what it was cut from. */
  lemma ClippedCopy(text: string, s: string)
    requires Stripped(s) && |s| <= |text|
    ensures Strip(Clip(s)) == text <==> s == text && |text| <= MAX_CONTENT_LENGTH
  {
    StripKeepsStripped(s);
    StripIsNotLonger(Clip(s));
    hide Strip, Clip;
    assert |s| <= MAX_CONTENT_LENGTH ==> Strip(Clip(s)) == s;
  }

  lemma SegmentIsNoCopy(text: string, s: Span)
    requires Strip(Slice(text, s)) != text
    ensures !Copies(text, FromSegment(text, s))
  {
    var snippet := Strip(Slice(text, s));
    StripYieldsStripped(Slice(text, s));
    StripIsNotLonger(Slice(text, s));
    SliceIsNotLonger(text, s);
    ClippedCopy(text, snippet);
  }

  /** Segments never copy the chunk. */
  lemma {:induction false} GrowAddsNoCopy(text: string, segs: seq<Span>, out: seq<Candidate>, limit: nat)
    ensures HasCopy(text, Grow(text, segs, out, limit)) <==> HasCopy(text, out)
  {
    hide Copies, FromSegment;
    if segs == [] || |out| >= limit {
    } else if Usable(text, segs[0], out) {
      var next := FromSegment(text, segs[0]);
      SegmentIsNoCopy(text, segs[0]);
      GrowAddsNoCopy(text, segs[1..], out + [next], limit);
      assert forall c :: c in out + [next] <==> c in out || c == next;
    } else {
      GrowAddsNoCopy(text, segs[1..], out, limit);
    }
  }

  lemma SupplementAddsNoCopy(text: string, entities: seq<Candidate>, tools: Tools)
    ensures HasCopy(text, Supplemented(text, entities, tools)) <==> HasCopy(text, entities)
  {
    hide Copies;
    if |entities| < 3 && |text| >= 30 {
      var segs := tools.segments(text, SegmentCount(text));
      var all := Grow(text, segs, entities, 3);
      GrowKeeps(text, segs, entities, 3);
      GrowAddsNoCopy(text, segs, entities, 3);
      SortKeepsMembers(all, BY_SPAN);
      hide Grow, Sort;
      assert FirstEight(Sort(all, BY_SPAN)) == Sort(all, BY_SPAN);
    }
  }

  lemma {:induction false} FilteredHasNoCopy(text: string, raw: seq<Candidate>)
    requires text != ""
    ensures !HasCopy(text, Filtered(text, raw))
  {
    hide Strip;
    if raw == [] {
    } else {
      FilteredHasNoCopy(text, raw[..|raw| - 1]);
    }
  }

  /** The text is itself one of its first eight sentences, and short enough to be stored whole. */
  predicate IsOneSentence(text: string, tools: Tools) {
    |text| <= MAX_CONTENT_LENGTH && exists s :: s in FirstEight(tools.sentences(text)) && s.text == text
  }

  lemma SentenceCopy(text: string, s: Sentence)
    requires Stripped(s.text) && |s.text| <= |text|
    ensures Copies(text, FromSentence(s)) <==> s.text == text && |text| <= MAX_CONTENT_LENGTH
  {
    ClippedCopy(text, s.text);
  }

  lemma SentenceCopies(text: string, ss: seq<Sentence>)
    requires forall s :: s in ss ==> Stripped(s.text) && |s.text| <= |text|
    ensures HasCopy(text, FromSentences(ss)) <==> |text| <= MAX_CONTENT_LENGTH && exists s :: s in ss && s.text == text
  {
    hide Copies, FromSentence, Stripped;
    var out := FromSentences(ss);
    forall s | s in ss ensures FromSentence(s) in out {
      var i :| 0 <= i < |ss| && ss[i] == s;
      assert out[i] == FromSentence(s);
    }
    forall c | c in out ensures exists s :: s in ss && c == FromSentence(s) {
      var i :| 0 <= i < |out| && out[i] == c;
      assert ss[i] in ss;
    }
    forall s | s in ss ensures Copies(text, FromSentence(s)) <==> s.text == text && |text| <= MAX_CONTENT_LENGTH {
      SentenceCopy(text, s);
    }
  }

  /** The sentences are there and stay, so the whole-text candidate of lines 190-208 is never made. */
  lemma FallbackCopiesExactly(text: string, tools: Tools)
    requires text != "" && Stripped(text) && SplitterOk(tools)
    ensures HasCopy(text, Fallback(text, tools)) <==> IsOneSentence(text, tools)
    ensures 1 <= |Fallback(text, tools)| <= 8
    ensures [] != FromSentences(FirstEight(tools.sentences(text))) <= FallbackList(text, tools)
  {
    SentenceCopies(text, FirstEight(tools.sentences(text)));
    hide Copies;
    var sentences := FromSentences(FirstEight(tools.sentences(text)));
    var segs := tools.segments(text, SegmentCount(text));
    GrowKeeps(text, segs, sentences, 8);
    GrowAddsNoCopy(text, segs, sentences, 8);
    var all := FallbackList(text, tools);
    assert |sentences| > 0 && |all| <= 8 && (HasCopy(text, all) <==> HasCopy(text, sentences));
    SortKeepsMembers(all, BY_SPAN);
    hide Grow, Sort, FallbackList;
    assert FirstEight(Sort(all, BY_SPAN)) == Sort(all, BY_SPAN);
  }

  /**
   Full-chunk copies are rejected of the provider only: one is stored exactly when the fallback stands in
   for the provider and the chunk is a single sentence of at most 300 characters.
   */
  lemma CopyStoredExactly(chunk: string, raw: seq<Candidate>, tools: Tools)
    requires Strip(chunk) != "" && SplitterOk(tools)
    ensures var text := Strip(chunk);
            HasCopy(text, Finalized(chunk, raw, tools)) <==>
            (|raw| <= 1 || |Filtered(text, raw)| <= 1) && IsOneSentence(text, tools)
  {
    var text := Strip(chunk);
    var kept := Filtered(text, raw);
    StripYieldsStripped(chunk);
    FilteredHasNoCopy(text, raw);
    FallbackCopiesExactly(text, tools);
    hide Strip, Copies, IsOneSentence, Filtered, Fallback, HasCopy, SplitterOk;
    var first := if |raw| <= 1 || |kept| <= 1 then Fallback(text, tools) else Supplemented(text, kept, tools);
    SupplementAddsNoCopy(text, kept, tools);
    SupplementAddsNoCopy(text, first, tools);
    var added := SupplementKeepsAndSeparates(text, first, tools);
    hide Supplemented;
    FirstEightCopies(text, if |first| < 3 && |text| >= 30 then Supplemented(text, first, tools) else first);
  }

  /** Cutting the list adds no copy, and a list of eight or less is not cut. */
  lemma FirstEightCopies(text: string, cs: seq<Candidate>)
    ensures HasCopy(text, FirstEight(cs)) ==> HasCopy(text, cs)
    ensures |cs| <= 8 ==> FirstEight(cs) == cs
  {
    hide Copies;
    assert forall c :: c in FirstEight(cs) ==> c in cs;
  }

  /** A chunk that is one sentence, of which the provider makes nothing, is stored whole. */
  lemma OneSentenceIsStoredWhole(text: string, tools: Tools, s: Sentence)
    requires text != "" && Stripped(text) && |text| <= MAX_CONTENT_LENGTH
    requires SplitterOk(tools) && tools.sentences(text) == [s] && s.text == text
    ensures HasCopy(text, Finalized(text, [], tools))
  {
    StripKeepsStripped(text);
    CopyStoredExactly(text, [], tools);
    hide Strip, Finalized, HasCopy, SplitterOk, Filtered;
    assert s in FirstEight(tools.sentences(text));
  }

  const SLOW: string := "The service was slow and I did not like it."

  /** For one, an ordinary sentence. */
  lemma SlowServiceIsStoredWhole(tools: Tools)
    requires SplitterOk(tools) && tools.sentences(SLOW) == [Sentence(SLOW, Span(0, |SLOW|))]
    ensures HasCopy(SLOW, Finalized(SLOW, [], tools))
  {
    hide Strip, Finalized, HasCopy, SplitterOk;
    assert SLOW[0] == 'T' && SLOW[|SLOW| - 1] == '.';
    OneSentenceIsStoredWhole(SLOW, tools, Sentence(SLOW, Span(0, |SLOW|)));
  }
}
