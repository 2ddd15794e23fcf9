/**
 The character-window chunker (app/services/chunking_service.py).

 `ChunkWindows` is the loop of the source.  It is proved against `Windows`, the windows the loop
 visits, and the lemmas say what those windows guarantee: progress, size, overlap, coverage.
 */
module Chunking {
  import opened Text

  type Width = n: nat | 1 <= n witness 1

  /** The characters the loop skips in front of a window. */
  predicate SkippedBlank(c: char) {
    c == ' ' || c == '\n' || c == '\t' || c == '\r'
  }

  datatype Window = Window(lo: nat, hi: nat)

  function MinBreak(maxChars: Width): (r: nat)
    ensures 1 <= r <= maxChars
  {
    Max(1, maxChars * 4 / 10)
  }

  /** End of the window that starts at `s`: a late space or newline, or the full width. */
  function WindowEnd(t: string, maxChars: Width, s: nat): (e: nat)
    requires s < |t|
    ensures s < e <= |t| && e <= s + maxChars
    ensures e == |t| || e >= s + MinBreak(maxChars)
  {
    var end := Min(|t|, s + maxChars);
    if end < |t| then
      var segment := t[s..end];
      var brk := Max(RFind(segment, ' '), RFind(segment, '\n'));
      if brk >= MinBreak(maxChars) then s + brk else end
    else end
  }

  function SkipBlanks(t: string, i: nat): (r: nat)
    requires i <= |t|
    ensures i <= r <= |t|
    ensures forall p {:trigger SkippedBlank(t[p])} :: i <= p < r ==> SkippedBlank(t[p])
    ensures r < |t| ==> !SkippedBlank(t[r])
    decreases |t| - i
  {
    if i < |t| && SkippedBlank(t[i]) then SkipBlanks(t, i + 1) else i
  }

  /** Where the window after `[s, e)` starts. */
  function NextStart(t: string, overlap: nat, s: nat, e: nat): (r: nat)
    requires s < e < |t|
    ensures s < r <= |t|
    ensures r >= e - overlap
  {
    SkipBlanks(t, if e - overlap <= s then s + 1 else e - overlap)
  }

  /** A window with nothing visible in it, short of the end of the text: the loop jumps. */
  predicate Jumps(t: string, maxChars: Width, s: nat)
    requires s < |t|
  {
    var e := WindowEnd(t, maxChars, s);
    e < |t| && Blank(t, s, e)
  }

  /** The loop head after head `s`; `|t|` when the loop ends there. */
  function NextHead(t: string, maxChars: Width, overlap: nat, s: nat): (r: nat)
    requires s < |t|
    ensures s < r <= |t|
  {
    var e := WindowEnd(t, maxChars, s);
    if Jumps(t, maxChars, s) then Min(|t|, s + maxChars)
    else if e == |t| then |t|
    else NextStart(t, overlap, s, e)
  }

  /** Every value `start` takes at the loop head, from `s` on. */
  function Heads(t: string, maxChars: Width, overlap: nat, s: nat): seq<nat>
    decreases |t| - s
  {
    if s >= |t| then [] else [s] + Heads(t, maxChars, overlap, NextHead(t, maxChars, overlap, s))
  }

  /** The windows whose visible text becomes a chunk, from loop head `s` on. */
  function Windows(t: string, maxChars: Width, overlap: nat, s: nat): seq<Window>
    decreases |t| - s
  {
    if s >= |t| then []
    else
      var e := WindowEnd(t, maxChars, s);
      var rest := Windows(t, maxChars, overlap, NextHead(t, maxChars, overlap, s));
      if Blank(t, s, e) then rest else [Window(s, e)] + rest
  }

  predicate Within(t: string, w: Window) {
    w.lo <= w.hi <= |t|
  }

  /** The visible text of a window. */
  function Piece(t: string, w: Window): string {
    if Within(t, w) then StripRange(t, w.lo, w.hi) else []
  }

  function Pieces(t: string, ws: seq<Window>): (r: seq<string>)
    ensures |r| == |ws|
    ensures forall i :: 0 <= i < |ws| ==> r[i] == Piece(t, ws[i])
  {
    if ws == [] then [] else [Piece(t, ws[0])] + Pieces(t, ws[1..])
  }

  /** The stripped texts of the windows from loop head `s` on. */
  function ChunksFrom(t: string, maxChars: Width, overlap: nat, s: nat): seq<string> {
    Pieces(t, Windows(t, maxChars, overlap, s))
  }

  /** What `chunk_text` returns. */
  function Chunks(text: string, maxChars: Width, overlap: nat): seq<string> {
    ChunksFrom(Strip(text), maxChars, overlap, 0)
  }

  // ----- where a window ends and the next one starts

  lemma {:induction false} RFindLast(segment: string, c: char)
    ensures forall i :: RFind(segment, c) < i < |segment| ==> segment[i] != c
  {
    if segment == [] {
    } else {
      RFindLast(segment[..|segment| - 1], c);
    }
  }

  /** A space or newline where the window from `s` may end: not before four tenths of the width, rounded down. */
  predicate MayEnd(t: string, maxChars: Width, s: nat, p: nat) {
    && p < |t| && s < p < s + maxChars && 4 * maxChars < 10 * (p - s) + 10
    && (t[p] == ' ' || t[p] == '\n')
  }

  /** At the last of these, else after the full width, and never beyond the text. */
  lemma WindowEndExactly(t: string, maxChars: Width, s: nat)
    requires s < |t|
    ensures var e := WindowEnd(t, maxChars, s);
            if s + maxChars >= |t| then e == |t|
            else && (MayEnd(t, maxChars, s, e) || e == s + maxChars)
                 && forall p: nat :: e < p ==> !MayEnd(t, maxChars, s, p)
    ensures var e := WindowEnd(t, maxChars, s);
            s + maxChars < |t| && e == s + maxChars ==> forall p: nat :: !MayEnd(t, maxChars, s, p)
  {
    if s + maxChars < |t| {
      var segment := t[s..s + maxChars];
      RFindLast(segment, ' ');
      RFindLast(segment, '\n');
      var e := WindowEnd(t, maxChars, s);
      forall p: nat | MayEnd(t, maxChars, s, p) ensures p <= e && e != s + maxChars {
        assert segment[p - s] == t[p];
      }
    }
  }

  /** Back by the overlap, but past the last start, and then over spaces, newlines, tabs and returns only. */
  lemma NextStartExactly(t: string, overlap: nat, s: nat, e: nat)
    requires s < e < |t|
    ensures var r, back := NextStart(t, overlap, s, e), Max(s + 1, e - overlap);
            && back <= r <= |t|
            && (forall p :: back <= p < r ==> t[p] == ' ' || t[p] == '\n' || t[p] == '\t' || t[p] == '\r')
            && (r < |t| ==> t[r] != ' ' && t[r] != '\n' && t[r] != '\t' && t[r] != '\r')
  {
    var r, back := NextStart(t, overlap, s, e), Max(s + 1, e - overlap);
    forall p | back <= p < r ensures t[p] == ' ' || t[p] == '\n' || t[p] == '\t' || t[p] == '\r' {
      assert SkippedBlank(t[p]);
    }
  }

  // ----- the loop computes the windows

  /** One turn of the loop: what head `s` contributes in front of the chunks of the next head. */
  lemma ChunksFromStep(t: string, maxChars: Width, overlap: nat, s: nat)
    requires s < |t|
    ensures var rest := ChunksFrom(t, maxChars, overlap, NextHead(t, maxChars, overlap, s));
            var piece := StripRange(t, s, WindowEnd(t, maxChars, s));
            && (piece == [] <==> Blank(t, s, WindowEnd(t, maxChars, s)))
            && (piece == [] ==> ChunksFrom(t, maxChars, overlap, s) == rest)
            && (piece != [] ==> ChunksFrom(t, maxChars, overlap, s) == [piece] + rest)
  {
  }

  lemma ChunksFromEnd(t: string, maxChars: Width, overlap: nat)
    ensures ChunksFrom(t, maxChars, overlap, |t|) == []
  {
  }

  lemma ShortTextIsOneChunk(t: string, maxChars: Width, overlap: nat)
    requires Stripped(t) && 0 < |t| <= maxChars
    ensures ChunksFrom(t, maxChars, overlap, 0) == [t]
  {
    ChunksFromStep(t, maxChars, overlap, 0);
    ChunksFromEnd(t, maxChars, overlap);
    StripKeepsStripped(t);
  }

  class ChunkingService {
    const maxChars: Width
    const overlap: nat

    /** Any settings are accepted; the overlap ends up below the window size. */
    constructor (maxSetting: int, overlapSetting: int)
      ensures maxChars == Max(1, maxSetting)
      ensures overlap < maxChars
      ensures 0 <= overlapSetting < maxChars ==> overlap == overlapSetting
      ensures overlapSetting < 0 ==> overlap == 0
      ensures overlapSetting >= maxChars ==> overlap == maxChars - 1
    {
      var width := Max(1, maxSetting);
      var o := Max(0, overlapSetting);
      if o >= width {
        o := Max(0, width - 1);
      }
      maxChars := width;
      overlap := o;
    }

    method ChunkText(text: string) returns (chunks: seq<string>)
      ensures chunks == Chunks(text, maxChars, overlap)
    {
      var t := Strip(text);
      if t == [] {
        return [];
      }
      if |t| <= maxChars {
        StripYieldsStripped(text);
        ShortTextIsOneChunk(t, maxChars, overlap);
        return [t];
      }
      chunks := ChunkWindows(t);
    }

    /** The main loop, for a text longer than one window. */
    method ChunkWindows(t: string) returns (chunks: seq<string>)
      ensures chunks == ChunksFrom(t, maxChars, overlap, 0)
    {
      hide ChunksFrom, WindowEnd, StripRange, Blank, SkipBlanks, MinBreak;
      chunks := [];
      var start := 0;
      var n := |t|;
      ghost var rest := ChunksFrom(t, maxChars, overlap, 0);
      ChunksFromEnd(t, maxChars, overlap);
      while start < n
        invariant start <= n
        invariant rest == ChunksFrom(t, maxChars, overlap, start)
        invariant ChunksFrom(t, maxChars, overlap, 0) == chunks + rest
        decreases n - start
      {
        ChunksFromStep(t, maxChars, overlap, start);
        var end := WindowEnd(t, maxChars, start);
        var piece := StripRange(t, start, end);
        if piece != [] {
          chunks := chunks + [piece];
          rest := rest[1..];
        } else if end < n {
          start := Min(n, start + maxChars);
          continue;
        }
        if end >= n {
          break;
        }
        var nextStart := SkipFrom(t, start, if end - overlap <= start then start + 1 else end - overlap);
        if nextStart >= n {
          break;
        }
        if nextStart <= start {
          nextStart := Min(n, start + maxChars);
        }
        start := nextStart;
      }
    }

    /** The inner loop: step over blanks in front of the next window. */
    method SkipFrom(t: string, start: nat, from: nat) returns (nextStart: nat)
      requires start < from <= |t|
      ensures nextStart == SkipBlanks(t, from)
    {
      nextStart := from;
      while nextStart < |t| && SkippedBlank(t[nextStart])
        invariant from <= nextStart <= |t|
        invariant SkipBlanks(t, from) == SkipBlanks(t, nextStart)
      {
        nextStart := nextStart + 1;
      }
    }
  }

  // ----- size, place and number of the windows, for every text and every setting

  /** Every window lies in the text, is not wider than allowed and shows something. */
  lemma {:induction false} WindowsShape(t: string, maxChars: Width, overlap: nat, s: nat)
    ensures forall w :: w in Windows(t, maxChars, overlap, s) ==>
              Within(t, w) && s <= w.lo < w.hi <= w.lo + maxChars && !Blank(t, w.lo, w.hi)
    decreases |t| - s
  {
    if |t| <= s {
    } else {
      WindowsShape(t, maxChars, overlap, NextHead(t, maxChars, overlap, s));
    }
  }

  /** Lines 51-52 never break: a stripped text always has another window until one reaches its end. */
  lemma NextHeadInside(t: string, maxChars: Width, overlap: nat, s: nat)
    requires Stripped(t) && s < |t| && WindowEnd(t, maxChars, s) < |t|
    ensures NextHead(t, maxChars, overlap, s) < |t|
  {
    assert !SkippedBlank(t[|t| - 1]);
  }

  /** The last window ends where the stripped text ends. */
  lemma {:induction false} LastWindowIsSuffix(t: string, maxChars: Width, overlap: nat, s: nat)
    requires Stripped(t) && s < |t|
    ensures var ws := Windows(t, maxChars, overlap, s); ws != [] && ws[|ws| - 1].hi == |t|
    decreases |t| - s
  {
    if WindowEnd(t, maxChars, s) < |t| {
      NextHeadInside(t, maxChars, overlap, s);
      LastWindowIsSuffix(t, maxChars, overlap, NextHead(t, maxChars, overlap, s));
    } else {
      assert IsSpace(t[|t| - 1]) || !Blank(t, s, |t|);
    }
  }

  /** With a small overlap every turn gains at least `MinBreak - overlap` characters. */
  lemma HeadsAdvance(t: string, maxChars: Width, overlap: nat, s: nat)
    requires s < |t| && overlap < MinBreak(maxChars)
    ensures var r := NextHead(t, maxChars, overlap, s); r == |t| || r >= s + MinBreak(maxChars) - overlap
  {
  }

  lemma {:induction false} WindowCountFrom(t: string, maxChars: Width, overlap: nat, s: nat, gain: nat)
    requires s < |t| && overlap < MinBreak(maxChars) && gain == MinBreak(maxChars) - overlap
    ensures (|Windows(t, maxChars, overlap, s)| - 1) * gain < |t| - s
    decreases |t| - s
  {
    hide WindowEnd, NextHead, Blank, MinBreak;
    var r := NextHead(t, maxChars, overlap, s);
    var later := |Windows(t, maxChars, overlap, r)|;
    if r < |t| {
      WindowCountFrom(t, maxChars, overlap, r, gain);
      HeadsAdvance(t, maxChars, overlap, s);
      assert (later - 1) * gain + gain == later * gain;
    } else {
      assert later == 0;
      assert (0 - 1) * gain <= 0;
    }
  }

  /** A linear bound on the number of chunks. */
  lemma ChunkCount(text: string, maxChars: Width, overlap: nat)
    requires Strip(text) != [] && overlap < MinBreak(maxChars)
    ensures (|Chunks(text, maxChars, overlap)| - 1) * (MinBreak(maxChars) - overlap) < |Strip(text)|
  {
    hide Strip, MinBreak, Windows;
    WindowCountFrom(Strip(text), maxChars, overlap, 0, MinBreak(maxChars) - overlap);
  }

  // ----- coverage

  predicate CoveredBy(ws: seq<Window>, p: nat) {
    exists w :: w in ws && w.lo <= p < w.hi
  }

  /** Every visible character from `s` on lies in some window. */
  predicate Covered(t: string, ws: seq<Window>, s: nat) {
    forall p {:trigger IsSpace(t[p])} :: s <= p < |t| && !IsSpace(t[p]) ==> CoveredBy(ws, p)
  }

  /** No jump of the loop passes over a visible character. */
  predicate LossFree(t: string, maxChars: Width, overlap: nat, s: nat) {
    forall h :: h in Heads(t, maxChars, overlap, s) && h < |t| && Jumps(t, maxChars, h) ==>
      Blank(t, h, Min(|t|, h + maxChars))
  }

  lemma LossFreeStep(t: string, maxChars: Width, overlap: nat, s: nat)
    requires s < |t|
    ensures LossFree(t, maxChars, overlap, s) <==>
            && (Jumps(t, maxChars, s) ==> Blank(t, s, Min(|t|, s + maxChars)))
            && LossFree(t, maxChars, overlap, NextHead(t, maxChars, overlap, s))
  {
  }

  lemma SkippedIsBlank(t: string, overlap: nat, s: nat, e: nat)
    requires s < e < |t|
    ensures e <= NextStart(t, overlap, s, e) ==> Blank(t, e, NextStart(t, overlap, s, e))
  {
    var r := NextStart(t, overlap, s, e);
    forall p | e <= p < r ensures IsSpace(t[p]) {
      assert SkippedBlank(t[p]);
    }
  }

  lemma {:induction false} LossFreeCovers(t: string, maxChars: Width, overlap: nat, s: nat)
    requires LossFree(t, maxChars, overlap, s)
    ensures Covered(t, Windows(t, maxChars, overlap, s), s)
    decreases |t| - s
  {
    if |t| <= s {
    } else {
      var e, r := WindowEnd(t, maxChars, s), NextHead(t, maxChars, overlap, s);
      var ws, rest := Windows(t, maxChars, overlap, s), Windows(t, maxChars, overlap, r);
      LossFreeStep(t, maxChars, overlap, s);
      LossFreeCovers(t, maxChars, overlap, r);
      if e < |t| {
        SkippedIsBlank(t, overlap, s, e);
      }
      forall p | s <= p < |t| && !IsSpace(t[p]) ensures CoveredBy(ws, p) {
        if r <= p {
          assert CoveredBy(rest, p);
        } else if s <= p < e {
          assert Window(s, e) in ws;
        }
      }
    }
  }

  /**
   No jump from head `s` on passes over a visible character, unless a window made earlier shows it:
   those windows reach up to `reach`.
   */
  predicate JumpsLoseNothing(t: string, maxChars: Width, overlap: nat, s: nat, reach: nat)
    decreases |t| - s
  {
    s < |t| ==>
      var e, r := WindowEnd(t, maxChars, s), NextHead(t, maxChars, overlap, s);
      && (Jumps(t, maxChars, s) ==> Blank(t, Min(Max(s, reach), r), r))
      && JumpsLoseNothing(t, maxChars, overlap, r, if Blank(t, s, e) then reach else Max(reach, e))
  }

  lemma {:induction false} CoveredBeyond(t: string, maxChars: Width, overlap: nat, s: nat, reach: nat)
    ensures JumpsLoseNothing(t, maxChars, overlap, s, reach) <==>
            Covered(t, Windows(t, maxChars, overlap, s), Max(s, reach))
    decreases |t| - s
  {
    if |t| <= s {
    } else {
      var e, r := WindowEnd(t, maxChars, s), NextHead(t, maxChars, overlap, s);
      var further := if Blank(t, s, e) then reach else Max(reach, e);
      CoveredBeyond(t, maxChars, overlap, r, further);
      CoveredStep(t, maxChars, overlap, s, reach);
    }
  }

  lemma CoveredStep(t: string, maxChars: Width, overlap: nat, s: nat, reach: nat)
    requires s < |t|
    ensures var e, r := WindowEnd(t, maxChars, s), NextHead(t, maxChars, overlap, s);
            var further := if Blank(t, s, e) then reach else Max(reach, e);
            Covered(t, Windows(t, maxChars, overlap, s), Max(s, reach)) <==>
            && (Jumps(t, maxChars, s) ==> Blank(t, Min(Max(s, reach), r), r))
            && Covered(t, Windows(t, maxChars, overlap, r), Max(r, further))
  {
    var e, r := WindowEnd(t, maxChars, s), NextHead(t, maxChars, overlap, s);
    var rest := Windows(t, maxChars, overlap, r);
    if e < |t| {
      SkippedIsBlank(t, overlap, s, e);
    }
    WindowsShape(t, maxChars, overlap, r);
    if Blank(t, s, e) {
      assert Windows(t, maxChars, overlap, s) == rest;
    } else {
      OneMoreWindow(t, Window(s, e), rest);
    }
  }

  lemma OneMoreWindow(t: string, w: Window, rest: seq<Window>)
    ensures forall p: nat :: CoveredBy([w] + rest, p) <==> w.lo <= p < w.hi || CoveredBy(rest, p)
  {
  }

  /** Exactly when every visible character is in some window, for every text and every setting. */
  lemma CoverageExactly(t: string, maxChars: Width, overlap: nat)
    ensures Covered(t, Windows(t, maxChars, overlap, 0), 0) <==> JumpsLoseNothing(t, maxChars, overlap, 0, 0)
  {
    CoveredBeyond(t, maxChars, overlap, 0, 0);
  }

  /** All the whitespace of the text is of the four kinds the loop skips. */
  predicate OnlyPlainBlanks(t: string) {
    forall p {:trigger IsSpace(t[p])} :: 0 <= p < |t| && IsSpace(t[p]) ==> SkippedBlank(t[p])
  }

  /** In such a text every loop head shows a visible character, so lines 41-43 are never reached. */
  lemma {:induction false} PlainTextNeverJumps(t: string, maxChars: Width, overlap: nat, s: nat)
    requires OnlyPlainBlanks(t) && s < |t| && !IsSpace(t[s])
    ensures forall h :: h in Heads(t, maxChars, overlap, s) ==>
              h < |t| && !IsSpace(t[h]) && !Jumps(t, maxChars, h)
    decreases |t| - s
  {
    var r := NextHead(t, maxChars, overlap, s);
    if |t| <= r {
    } else {
      PlainTextNeverJumps(t, maxChars, overlap, r);
    }
  }

  lemma PlainTextIsLossFree(t: string, maxChars: Width, overlap: nat)
    requires OnlyPlainBlanks(t) && Stripped(t)
    ensures LossFree(t, maxChars, overlap, 0)
    ensures Covered(t, Windows(t, maxChars, overlap, 0), 0)
  {
    if t != [] {
      PlainTextNeverJumps(t, maxChars, overlap, 0);
    }
    LossFreeCovers(t, maxChars, overlap, 0);
  }

  /**
   No stretch of whitespace holds a blank of another kind and, `min_break` or more after it, a space or a
   newline at which a window could end.
   */
  predicate NoLateBreaks(t: string, maxChars: Width) {
    forall p, q {:trigger SkippedBlank(t[p]), IsSpace(t[q])} ::
      0 <= p < q < |t| && q - p >= MinBreak(maxChars) && Blank(t, p, q) && !SkippedBlank(t[p]) ==>
        t[q] != ' ' && t[q] != '\n'
  }

  /** A loop head, seen from the text: only whitespace separates it from a character outside the skip set. */
  predicate HeadAfter(t: string, p: nat, s: nat) {
    p <= s < |t| && Blank(t, p, s) && !SkippedBlank(t[p])
  }

  lemma EarlyEndIsBlank(t: string, maxChars: Width, s: nat)
    requires s < |t|
    ensures var e := WindowEnd(t, maxChars, s);
            e < |t| && e < s + maxChars ==> e - s >= MinBreak(maxChars) && (t[e] == ' ' || t[e] == '\n')
  {
  }

  /** At such a head a jump passes over whitespace only. */
  lemma HarmlessJump(t: string, maxChars: Width, overlap: nat, p: nat, s: nat)
    requires NoLateBreaks(t, maxChars) && HeadAfter(t, p, s) && Jumps(t, maxChars, s)
    ensures Blank(t, s, Min(|t|, s + maxChars))
    ensures var r := NextHead(t, maxChars, overlap, s); r < |t| ==> HeadAfter(t, p, r)
  {
    var e := WindowEnd(t, maxChars, s);
    EarlyEndIsBlank(t, maxChars, s);
    assert IsSpace(t[e]) && e - p >= MinBreak(maxChars) ==> t[e] != ' ' && t[e] != '\n';
  }

  lemma {:induction false} NoLateBreaksFrom(t: string, maxChars: Width, overlap: nat, p: nat, s: nat)
    requires NoLateBreaks(t, maxChars) && HeadAfter(t, p, s)
    ensures LossFree(t, maxChars, overlap, s)
    decreases |t| - s
  {
    var r := NextHead(t, maxChars, overlap, s);
    LossFreeStep(t, maxChars, overlap, s);
    if Jumps(t, maxChars, s) {
      HarmlessJump(t, maxChars, overlap, p, s);
    }
    if r == |t| {
      assert Heads(t, maxChars, overlap, |t|) == [];
    } else {
      NoLateBreaksFrom(t, maxChars, overlap, if Jumps(t, maxChars, s) then p else r, r);
    }
  }

  /** Coverage read off the text: whitespace of any kind does no harm in stretches without late breaks. */
  lemma NoLateBreaksIsLossFree(t: string, maxChars: Width, overlap: nat)
    requires Stripped(t) && NoLateBreaks(t, maxChars)
    ensures LossFree(t, maxChars, overlap, 0) && Covered(t, Windows(t, maxChars, overlap, 0), 0)
  {
    if t == [] {
      assert Heads(t, maxChars, overlap, 0) == [];
    } else {
      NoLateBreaksFrom(t, maxChars, overlap, 0, 0);
    }
    LossFreeCovers(t, maxChars, overlap, 0);
  }

  /** `chunk` is the part of `t` that starts at `lo`, and `p` is in that part. */
  predicate SitsAround(t: string, chunk: string, lo: nat, p: nat) {
    lo <= p < lo + |chunk| <= |t| && chunk == t[lo..lo + |chunk|]
  }

  /** Coverage on the chunks themselves: one of them is the text around each visible character. */
  lemma ChunksCover(text: string, maxChars: Width, overlap: nat, p: nat)
    requires var t := Strip(text); p < |t| && !IsSpace(t[p]) && JumpsLoseNothing(t, maxChars, overlap, 0, 0)
    ensures var t, chunks := Strip(text), Chunks(text, maxChars, overlap);
            exists i, lo :: 0 <= i < |chunks| && |chunks[i]| <= maxChars && SitsAround(t, chunks[i], lo, p)
  {
    var t := Strip(text);
    var ws := Windows(t, maxChars, overlap, 0);
    CoverageExactly(t, maxChars, overlap);
    WindowsShape(t, maxChars, overlap, 0);
    assert CoveredBy(ws, p);
    var i :| 0 <= i < |ws| && ws[i].lo <= p < ws[i].hi;
    PieceSits(t, ws[i], p);
    assert Chunks(text, maxChars, overlap)[i] == Piece(t, ws[i]);
  }

  lemma PieceSits(t: string, w: Window, p: nat)
    requires Within(t, w) && w.lo <= p < w.hi && !IsSpace(t[p])
    ensures SitsAround(t, Piece(t, w), LeadEnd(t, w.lo, w.hi), p)
    ensures |Piece(t, w)| <= w.hi - w.lo
  {
  }

  /** Neighbours overlap by at most `overlap`, or only blanks lie between them; starts increase. */
  predicate Neighbours(t: string, overlap: nat, v: Window, w: Window) {
    && v.lo < w.lo && v.hi <= w.lo + overlap
    && (v.hi < w.lo ==> w.lo <= |t| && Blank(t, v.hi, w.lo))
  }

  lemma {:induction false} BlankBeforeFirstWindow(t: string, maxChars: Width, overlap: nat, s: nat)
    requires s < |t| && LossFree(t, maxChars, overlap, s)
    ensures var ws := Windows(t, maxChars, overlap, s);
            ws != [] ==> s <= ws[0].lo <= |t| && Blank(t, s, ws[0].lo)
    decreases |t| - s
  {
    var e, r := WindowEnd(t, maxChars, s), NextHead(t, maxChars, overlap, s);
    LossFreeStep(t, maxChars, overlap, s);
    if Blank(t, s, e) && r < |t| {
      BlankBeforeFirstWindow(t, maxChars, overlap, r);
    }
  }

  lemma NextIsNeighbour(t: string, maxChars: Width, overlap: nat, s: nat)
    requires s < |t| && LossFree(t, maxChars, overlap, s) && !Blank(t, s, WindowEnd(t, maxChars, s))
    requires Windows(t, maxChars, overlap, NextHead(t, maxChars, overlap, s)) != []
    ensures Neighbours(t, overlap, Window(s, WindowEnd(t, maxChars, s)),
                       Windows(t, maxChars, overlap, NextHead(t, maxChars, overlap, s))[0])
  {
    var e, r := WindowEnd(t, maxChars, s), NextHead(t, maxChars, overlap, s);
    LossFreeStep(t, maxChars, overlap, s);
    assert e < |t|;
    BlankBeforeFirstWindow(t, maxChars, overlap, r);
    SkippedIsBlank(t, overlap, s, e);
  }

  lemma {:induction false} WindowsAreNeighbours(t: string, maxChars: Width, overlap: nat, s: nat)
    requires LossFree(t, maxChars, overlap, s)
    ensures var ws := Windows(t, maxChars, overlap, s);
            forall i :: 0 <= i < |ws| - 1 ==> Neighbours(t, overlap, ws[i], ws[i + 1])
    decreases |t| - s
  {
    if |t| <= s {
    } else {
      var e, r := WindowEnd(t, maxChars, s), NextHead(t, maxChars, overlap, s);
      var ws, rest := Windows(t, maxChars, overlap, s), Windows(t, maxChars, overlap, r);
      LossFreeStep(t, maxChars, overlap, s);
      WindowsAreNeighbours(t, maxChars, overlap, r);
      if !Blank(t, s, e) && rest != [] {
        NextIsNeighbour(t, maxChars, overlap, s);
        assert ws == [Window(s, e)] + rest;
      }
    }
  }

  /** With a small overlap the window ends strictly increase too. */
  lemma {:induction false} EndsIncrease(t: string, maxChars: Width, overlap: nat, s: nat)
    requires overlap < MinBreak(maxChars)
    ensures var ws := Windows(t, maxChars, overlap, s);
            && (forall i :: 0 <= i < |ws| - 1 ==> ws[i].hi < ws[i + 1].hi)
            && (ws != [] ==> s < |t| && WindowEnd(t, maxChars, s) <= ws[0].hi)
    decreases |t| - s
  {
    if |t| <= s {
    } else {
      EndsIncrease(t, maxChars, overlap, NextHead(t, maxChars, overlap, s));
      HeadsAdvance(t, maxChars, overlap, s);
    }
  }

  /** A text with something to see gives at least one chunk, and every chunk shows something. */
  lemma ChunksShow(text: string, maxChars: Width, overlap: nat)
    ensures Strip(text) == [] ==> Chunks(text, maxChars, overlap) == []
    ensures Strip(text) != [] ==> Chunks(text, maxChars, overlap) != []
    ensures forall i :: 0 <= i < |Chunks(text, maxChars, overlap)| ==> Strip(Chunks(text, maxChars, overlap)[i]) != []
  {
    var t := Strip(text);
    var ws := Windows(t, maxChars, overlap, 0);
    StripYieldsStripped(text);
    WindowsShape(t, maxChars, overlap, 0);
    if t != [] {
      LastWindowIsSuffix(t, maxChars, overlap, 0);
    }
    forall i | 0 <= i < |ws| ensures Strip(Pieces(t, ws)[i]) != [] {
      PieceShows(t, ws[i]);
    }
  }

  lemma PieceShows(t: string, w: Window)
    requires Within(t, w) && !Blank(t, w.lo, w.hi)
    ensures Strip(Piece(t, w)) != []
  {
  }

  // ----- the whitespace the loop does not skip

  /** With width 3 and no overlap, the first `b` of "aaa<VT> bbb" is in no chunk. */
  lemma JumpLosesText()
    ensures var t := "aaa" + [0x0B as char] + " bbb";
            Stripped(t) && !Covered(t, Windows(t, 3, 0, 0), 0)
  {
    var t := "aaa" + [0x0B as char] + " bbb";
    assert t[0..3] == "aaa" && t[3..6] == [0x0B as char, ' ', 'b'];
    assert RFind(t[0..3], ' ') == -1 && RFind(t[0..3], '\n') == -1;
    assert WindowEnd(t, 3, 0) == 3;
    assert !Blank(t, 0, 3) by { assert !IsSpace(t[0]); }
    assert NextHead(t, 3, 0, 0) == 3;
    assert RFind(t[3..6], ' ') == 1 && RFind(t[3..6], '\n') == -1;
    assert WindowEnd(t, 3, 3) == 4 && Jumps(t, 3, 3);
    assert Windows(t, 3, 0, 0) == [Window(0, 3)] + Windows(t, 3, 0, 3);
    assert Windows(t, 3, 0, 3) == Windows(t, 3, 0, 6);
    WindowsShape(t, 3, 0, 6);
    assert !IsSpace(t[5]) && !CoveredBy(Windows(t, 3, 0, 0), 5);
  }

  // ----- which settings can lose text

  /** Windows of one or two characters never break early, so no jump passes over anything visible. */
  lemma {:induction false} NarrowNeverLoses(t: string, maxChars: Width, overlap: nat, s: nat)
    requires maxChars <= 2
    ensures LossFree(t, maxChars, overlap, s)
    decreases |t| - s
  {
    if |t| <= s {
    } else {
      LossFreeStep(t, maxChars, overlap, s);
      NarrowNeverLoses(t, maxChars, overlap, NextHead(t, maxChars, overlap, s));
      EarlyEndIsBlank(t, maxChars, s);
    }
  }

  lemma RFindTheOnly(segment: string, c: char, i: nat)
    requires i < |segment| && segment[i] == c && forall k :: i < k < |segment| ==> segment[k] != c
    ensures RFind(segment, c) == i
  {
    RFindLast(segment, c);
  }

  const NO_BREAK_SPACE: char := 0xA0 as char

  /** Where heads that advance by `gain` first leave the leading `a`s. */
  function Landing(s: nat, gain: Width, maxChars: nat): (h: nat)
    ensures s <= h && maxChars <= h
    decreases maxChars - s
  {
    if s >= maxChars then s else Landing(s + gain, gain, maxChars)
  }

  /**
   A window of `a`s, no-break spaces up to the last but one place of the second blank window, a space
   there, and `b`s.
   */
  function Trap(maxChars: Width, h: nat): (t: string)
    requires maxChars >= 3 && h >= maxChars
    ensures |t| == h + 2 * maxChars + 1
  {
    seq(h + 2 * maxChars + 1, i requires 0 <= i =>
      if i < maxChars then 'a'
      else if i < h + 2 * maxChars - 2 then NO_BREAK_SPACE
      else if i == h + 2 * maxChars - 2 then ' '
      else 'b')
  }

  /** A window without a space or newline has its full width. */
  lemma FullWindow(t: string, maxChars: Width, s: nat)
    requires s + maxChars < |t| && forall p :: s <= p < s + maxChars ==> t[p] != ' ' && t[p] != '\n'
    ensures WindowEnd(t, maxChars, s) == s + maxChars
  {
    RFindLast(t[s..s + maxChars], ' ');
    RFindLast(t[s..s + maxChars], '\n');
  }

  /** In the no-break spaces the loop jumps twice, the second time over the first `b`. */
  lemma TrapSprings(maxChars: Width, overlap: nat, h: nat)
    requires maxChars >= 3 && overlap < maxChars && h >= maxChars
    ensures !CoveredBy(Windows(Trap(maxChars, h), maxChars, overlap, h), h + 2 * maxChars - 1)
  {
    var t, g := Trap(maxChars, h), h + maxChars;
    FullWindow(t, maxChars, h);
    assert Blank(t, h, h + maxChars);
    var segment := t[g..g + maxChars];
    RFindTheOnly(segment, ' ', maxChars - 2);
    RFindLast(segment, '\n');
    assert WindowEnd(t, maxChars, g) == g + maxChars - 2;
    assert Blank(t, g, g + maxChars - 2);
    WindowsShape(t, maxChars, overlap, g + maxChars);
  }

  /** On the way there no window reaches the first `b`. */
  lemma {:induction false} HeadsLand(maxChars: Width, overlap: nat, h: nat, s: nat)
    requires maxChars >= 3 && overlap < maxChars && h == Landing(s, maxChars - overlap, maxChars)
    ensures !CoveredBy(Windows(Trap(maxChars, h), maxChars, overlap, s), h + 2 * maxChars - 1)
    decreases maxChars - s
  {
    if s >= maxChars {
      TrapSprings(maxChars, overlap, h);
    } else {
      var t, r := Trap(maxChars, h), s + maxChars - overlap;
      FullWindow(t, maxChars, s);
      assert !IsSpace(t[s]) && !SkippedBlank(t[r]);
      assert NextHead(t, maxChars, overlap, s) == r;
      HeadsLand(maxChars, overlap, h, r);
      OneMoreWindow(t, Window(s, s + maxChars), Windows(t, maxChars, overlap, r));
    }
  }

  /** Some text loses a visible character exactly from width three on, whatever the overlap below it. */
  lemma LossPossibleExactly(maxChars: Width, overlap: nat)
    requires overlap < maxChars
    ensures (exists t :: Stripped(t) && !Covered(t, Windows(t, maxChars, overlap, 0), 0)) <==> maxChars >= 3
  {
    if maxChars >= 3 {
      var h := Landing(0, maxChars - overlap, maxChars);
      var t := Trap(maxChars, h);
      HeadsLand(maxChars, overlap, h, 0);
      assert Stripped(t) && !IsSpace(t[h + 2 * maxChars - 1]);
      assert !Covered(t, Windows(t, maxChars, overlap, 0), 0);
    } else {
      forall t | Stripped(t) ensures Covered(t, Windows(t, maxChars, overlap, 0), 0) {
        NarrowNeverLoses(t, maxChars, overlap, 0);
        LossFreeCovers(t, maxChars, overlap, 0);
      }
    }
  }
}
