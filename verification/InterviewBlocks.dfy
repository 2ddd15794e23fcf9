/**
 Splitting a long interview file at blank lines and grouping the paragraphs into blocks
 (app/services/interview_unit_split_service.py:103-131).
 */
module InterviewBlocks {
  import opened Text

  const BLANK_LINE: string := "\n\n"

  function Glue(a: string, b: string): string {
    a + BLANK_LINE + b
  }

  /** `"\n\n".join(parts)`. */
  function Join(parts: seq<string>): string {
    if parts == [] then ""
    else if |parts| == 1 then parts[0]
    else Glue(Join(parts[..|parts| - 1]), parts[|parts| - 1])
  }

  lemma JoinAppend(parts: seq<string>, p: string)
    ensures Join(parts + [p]) == if parts == [] then p else Glue(Join(parts), p)
  {
  }

  /** Growing the last part by a blank line and `p` is the same as adding the part `p`. */
  lemma JoinGrowLast(parts: seq<string>, last: string, p: string)
    ensures Join(parts + [Glue(last, p)]) == Join(parts + [last] + [p])
  {
  }

  // ----- from the text to its paragraphs

  /** Where the run of newlines at `i` ends. */
  function NewlinesEnd(t: string, i: nat): (j: nat)
    requires i <= |t|
    ensures i <= j <= |t| && Blank(t, i, j)
    ensures i < |t| ==> (i < j <==> t[i] == '\n')
    decreases |t| - i
  {
    if i < |t| && t[i] == '\n' then NewlinesEnd(t, i + 1) else i
  }

  /** `re.split(r"\n{2,}", t)` from the piece that starts at `start` on, no run before `i` being left. */
  function SplitFrom(t: string, start: nat, i: nat): (r: seq<string>)
    requires start <= i <= |t|
    ensures r != []
    decreases |t| - i
  {
    if i == |t| then [t[start..]]
    else
      var j := NewlinesEnd(t, i);
      if j >= i + 2 then [t[start..i]] + SplitFrom(t, j, j) else SplitFrom(t, start, i + 1)
  }

  lemma {:induction false} NewlinesEndExactly(t: string, i: nat)
    requires i <= |t|
    ensures var j := NewlinesEnd(t, i);
            (forall p :: i <= p < j ==> t[p] == '\n') && (j < |t| ==> t[j] != '\n')
    decreases |t| - i
  {
    if i < |t| && t[i] == '\n' {
      NewlinesEndExactly(t, i + 1);
    }
  }

  function Newlines(n: nat): string {
    seq(n, i requires 0 <= i < n => '\n')
  }

  /** The pieces with so many newlines between them. */
  function Weave(pieces: seq<string>, gaps: seq<nat>): string
    requires |pieces| == |gaps| + 1
  {
    if gaps == [] then pieces[0] else pieces[0] + Newlines(gaps[0]) + Weave(pieces[1..], gaps[1..])
  }

  predicate NoBlankLine(p: string) {
    forall k :: 0 <= k < |p| - 1 ==> !(p[k] == '\n' && p[k + 1] == '\n')
  }

  /** Runs of two newlines or more are cut out whole, and nothing else is. */
  ghost predicate SplitAtRuns(t: string, pieces: seq<string>, gaps: seq<nat>) {
    && |pieces| == |gaps| + 1 && Weave(pieces, gaps) == t
    && (forall k :: 0 <= k < |gaps| ==> gaps[k] >= 2)
    && (forall k :: 0 <= k < |pieces| ==> NoBlankLine(pieces[k]))
    && (forall k :: 0 <= k < |gaps| ==> pieces[k] != "" ==> pieces[k][|pieces[k]| - 1] != '\n')
    && (forall k :: 0 < k <= |gaps| ==> pieces[k] != "" ==> pieces[k][0] != '\n')
  }

  lemma WeaveMore(piece: string, gap: nat, pieces: seq<string>, gaps: seq<nat>)
    requires |pieces| == |gaps| + 1
    ensures Weave([piece] + pieces, [gap] + gaps) == piece + Newlines(gap) + Weave(pieces, gaps)
  {
    assert ([piece] + pieces)[1..] == pieces && ([gap] + gaps)[1..] == gaps;
  }

  lemma SplitMore(t: string, rest: string, piece: string, gap: nat, pieces: seq<string>, gaps: seq<nat>)
    requires SplitAtRuns(rest, pieces, gaps) && t == piece + Newlines(gap) + rest
    requires gap >= 2 && NoBlankLine(piece) && (piece != "" ==> piece[|piece| - 1] != '\n')
    requires pieces[0] != "" ==> pieces[0][0] != '\n'
    ensures SplitAtRuns(t, [piece] + pieces, [gap] + gaps)
  {
    WeaveMore(piece, gap, pieces, gaps);
    hide Weave, Newlines, NoBlankLine;
  }

  lemma StillNoBlankLine(t: string, start: nat, i: nat)
    requires start <= i < |t| && NoBlankLine(t[start..i])
    requires start < i ==> !(t[i - 1] == '\n' && t[i] == '\n')
    ensures NoBlankLine(t[start..i + 1])
  {
    var p, q := t[start..i], t[start..i + 1];
    forall k | 0 <= k < |q| - 1 ensures !(q[k] == '\n' && q[k + 1] == '\n') {
      if k < |p| - 1 {
        assert q[k] == p[k] && q[k + 1] == p[k + 1];
      }
    }
  }

  /** What `re.split` gives. */
  lemma {:induction false} SplitExactly(t: string, start: nat, i: nat) returns (gaps: seq<nat>)
    requires start <= i <= |t| && NoBlankLine(t[start..i])
    requires start < i < |t| ==> !(t[i - 1] == '\n' && t[i] == '\n')
    ensures SplitAtRuns(t[start..], SplitFrom(t, start, i), gaps)
    ensures var first := SplitFrom(t, start, i)[0];
            start < |t| && t[start] != '\n' && first != "" ==> first[0] != '\n'
    decreases |t| - i
  {
    hide NoBlankLine, SplitAtRuns, Newlines;
    gaps := [];
    if i == |t| {
      assert t[start..] == t[start..i];
      OnePiece(t[start..]);
    } else {
      var j := NewlinesEnd(t, i);
      NewlinesEndExactly(t, i);
      if j >= i + 2 {
        CutRun(t, start, i, j);
        var rest := SplitExactly(t, j, j);
        gaps := [j - i] + rest;
        SplitMore(t[start..], t[j..], t[start..i], j - i, SplitFrom(t, j, j), rest);
      } else {
        StillNoBlankLine(t, start, i);
        gaps := SplitExactly(t, start, i + 1);
      }
    }
  }

  lemma OnePiece(t: string)
    requires NoBlankLine(t)
    ensures SplitAtRuns(t, [t], [])
  {
  }

  lemma CutRun(t: string, start: nat, i: nat, j: nat)
    requires start <= i <= j <= |t| && forall p :: i <= p < j ==> t[p] == '\n'
    ensures t[start..] == t[start..i] + Newlines(j - i) + t[j..] && NoBlankLine(t[j..j])
    ensures t[start..i] != "" ==> t[start..i][|t[start..i]| - 1] == t[i - 1]
  {
    assert t[i..j] == Newlines(j - i);
    assert t[start..] == t[start..i] + t[i..j] + t[j..];
  }

  /** The pieces that show something, stripped. */
  function Kept(pieces: seq<string>): seq<string> {
    if pieces == [] then []
    else (if Strip(pieces[0]) != "" then [Strip(pieces[0])] else []) + Kept(pieces[1..])
  }

  lemma {:induction false} KeptExactly(a: seq<string>, b: seq<string>, p: string)
    ensures Kept([p]) == if Strip(p) != "" then [Strip(p)] else []
    ensures Kept(a + b) == Kept(a) + Kept(b)
  {
    hide Strip;
    assert [p][1..] == [];
    if a == [] {
      assert a + b == b;
    } else {
      assert (a + b)[1..] == a[1..] + b;
      KeptExactly(a[1..], b, p);
    }
  }

  function ParagraphsOf(text: string): seq<string> {
    Kept(SplitFrom(text, 0, 0))
  }

  /** The visible characters of a text, in order. */
  function Ink(t: string): string {
    if t == "" then "" else Ink(t[..|t| - 1]) + if IsSpace(t[|t| - 1]) then "" else [t[|t| - 1]]
  }

  function InkOfAll(parts: seq<string>): string {
    if parts == [] then "" else Ink(parts[0]) + InkOfAll(parts[1..])
  }

  lemma {:induction false} InkConcat(a: string, b: string)
    ensures Ink(a + b) == Ink(a) + Ink(b)
  {
    if b == "" {
      assert a + b == a;
    } else {
      var c := b[|b| - 1];
      InkConcat(a, b[..|b| - 1]);
      assert (a + b)[..|a + b| - 1] == a + b[..|b| - 1] && (a + b)[|a + b| - 1] == c;
    }
  }

  lemma {:induction false} InkOfBlank(t: string)
    requires Blank(t, 0, |t|)
    ensures Ink(t) == ""
  {
    if t == "" {
    } else {
      InkOfBlank(t[..|t| - 1]);
    }
  }

  lemma InkOfTail(t: string, i: nat)
    requires i <= |t| && Blank(t, 0, i)
    ensures Ink(t[i..]) == Ink(t)
  {
    InkOfBlank(t[..i]);
    hide Ink;
    InkConcat(t[..i], t[i..]);
    assert t == t[..i] + t[i..];
  }

  lemma InkOfFront(t: string, j: nat)
    requires j <= |t| && Blank(t, j, |t|)
    ensures Ink(t[..j]) == Ink(t)
  {
    InkOfBlank(t[j..]);
    hide Ink;
    InkConcat(t[..j], t[j..]);
    assert t == t[..j] + t[j..];
  }

  lemma InkOfStrip(t: string)
    ensures Ink(Strip(t)) == Ink(t)
  {
    hide Ink;
    var i := LeadEnd(t, 0, |t|);
    var j := TailStart(t, i, |t|);
    InkOfFront(t, j);
    InkOfTail(t[..j], i);
    assert t[i..j] == t[..j][i..];
  }

  lemma {:induction false} InkOfKept(pieces: seq<string>)
    ensures InkOfAll(Kept(pieces)) == InkOfAll(pieces)
  {
    hide Ink, Strip;
    if pieces == [] {
    } else {
      var head, rest := Strip(pieces[0]), Kept(pieces[1..]);
      InkOfKept(pieces[1..]);
      InkOfStrip(pieces[0]);
      NoInk();
      assert ([head] + rest)[0] == head && ([head] + rest)[1..] == rest;
      assert "" + InkOfAll(rest) == InkOfAll(rest) && [] + rest == rest;
      assert Kept(pieces) == (if head != "" then [head] else []) + rest;
    }
  }

  lemma NoInk()
    ensures Ink("") == ""
  {
  }

  lemma {:induction false} InkOfSplit(t: string, start: nat, i: nat)
    requires start <= i <= |t|
    ensures InkOfAll(SplitFrom(t, start, i)) == Ink(t[start..])
    decreases |t| - i
  {
    hide Ink;
    if i < |t| {
      var j := NewlinesEnd(t, i);
      if j >= i + 2 {
        InkOfSplit(t, j, j);
        InkOfBlank(t[i..j]);
        InkConcat(t[start..i], t[i..j]);
        InkConcat(t[start..j], t[j..]);
        assert t[start..] == t[start..j] + t[j..] && t[start..j] == t[start..i] + t[i..j];
        assert ([t[start..i]] + SplitFrom(t, j, j))[1..] == SplitFrom(t, j, j);
      } else {
        InkOfSplit(t, start, i + 1);
      }
    } else {
      assert InkOfAll([t[start..]]) == Ink(t[start..]) + "";
    }
  }

  lemma {:induction false} InkOfJoin(parts: seq<string>)
    ensures Ink(Join(parts)) == InkOfAll(parts)
  {
    hide Ink;
    if |parts| > 1 {
      var front, last := parts[..|parts| - 1], parts[|parts| - 1];
      InkOfJoin(front);
      InkOfBlank(BLANK_LINE);
      InkConcat(Join(front), BLANK_LINE);
      InkConcat(Join(front) + BLANK_LINE, last);
      InkOfAllSnoc(front, last);
      assert parts == front + [last];
    } else {
      NoInk();
    }
  }

  lemma {:induction false} InkOfAllSnoc(parts: seq<string>, p: string)
    ensures InkOfAll(parts + [p]) == InkOfAll(parts) + Ink(p)
  {
    hide Ink;
    if parts == [] {
      assert [] + [p] == [p] && Ink(p) + "" == Ink(p);
    } else {
      InkOfAllSnoc(parts[1..], p);
      assert (parts + [p])[1..] == parts[1..] + [p];
    }
  }

  /** Splitting and stripping lose no visible character. */
  lemma ParagraphsLoseNothing(text: string)
    ensures Ink(Join(ParagraphsOf(text))) == Ink(text)
  {
    hide Ink;
    InkOfJoin(ParagraphsOf(text));
    InkOfKept(SplitFrom(text, 0, 0));
    InkOfSplit(text, 0, 0);
    assert text[0..] == text;
  }

  lemma {:induction false} KeptIsVisible(pieces: seq<string>)
    ensures Paragraphs(Kept(pieces))
  {
    if pieces == [] {
    } else {
      KeptIsVisible(pieces[1..]);
      StripYieldsStripped(pieces[0]);
    }
  }

  /** A stripped text has no paragraph only when it is empty, so line 109 never answers. */
  lemma SomeParagraph(text: string)
    requires Stripped(text)
    ensures ParagraphsOf(text) == [] <==> text == ""
  {
    ParagraphsLoseNothing(text);
    NoInk();
    if text != "" {
      assert Ink(text) != "";
    }
  }

  /** The text starts with a visible character. */
  predicate Visible(s: string) {
    s != "" && !IsSpace(s[0])
  }

  predicate Paragraphs(paras: seq<string>) {
    forall p :: p in paras ==> Visible(p)
  }

  function Pending(buf: seq<string>): seq<string> {
    if buf == [] then [] else [Join(buf)]
  }

  /** The blocks that are finished, and the paragraphs still in the buffer, are the first `i` paragraphs. */
  predicate Accounted(paras: seq<string>, blocks: seq<string>, buf: seq<string>, i: nat)
    requires i <= |paras|
  {
    && Join(blocks + Pending(buf)) == Join(paras[..i])
    && (i == 0 <==> blocks + Pending(buf) == [])
  }

  /** A finished block is one paragraph or not much longer than allowed. */
  predicate Bounded(b: string, paras: seq<string>, maxBlock: nat) {
    b in paras || |b| <= maxBlock + 2
  }

  predicate BufferOk(buf: seq<string>, length: int, paras: seq<string>, maxBlock: nat) {
    && (buf == [] ==> length == 0)
    && (buf != [] ==> Visible(Join(buf)) && |Join(buf)| <= length <= |Join(buf)| + 2)
    && (buf != [] ==> Bounded(Join(buf), paras, maxBlock))
  }

  /** A paragraph that opens a new buffer. */
  lemma OpenBuffer(paras: seq<string>, blocks: seq<string>, i: nat)
    requires i < |paras| && Accounted(paras, blocks, [], i) && Paragraphs(paras)
    ensures Accounted(paras, blocks, [paras[i]], i + 1)
    ensures Join([paras[i]]) == paras[i] && Visible(paras[i]) && paras[i] in paras
  {
    assert paras[..i + 1] == paras[..i] + [paras[i]];
    assert blocks + [] == blocks;
    JoinAppend(paras[..i], paras[i]);
    JoinAppend(blocks, paras[i]);
  }

  /** A paragraph that joins the buffer. */
  lemma GrowBuffer(paras: seq<string>, blocks: seq<string>, buf: seq<string>, i: nat)
    requires i < |paras| && buf != [] && Accounted(paras, blocks, buf, i)
    ensures Accounted(paras, blocks, buf + [paras[i]], i + 1)
    ensures Join(buf + [paras[i]]) == Glue(Join(buf), paras[i])
  {
    assert paras[..i + 1] == paras[..i] + [paras[i]];
    JoinAppend(paras[..i], paras[i]);
    JoinAppend(buf, paras[i]);
    JoinGrowLast(blocks, Join(buf), paras[i]);
    JoinAppend(blocks + [Join(buf)], paras[i]);
  }

  /** Blocks are not cut early: each is long enough, or the one after it would not have fitted. */
  predicate Spaced(parts: seq<string>, minBlock: nat, maxBlock: nat) {
    forall i :: 0 <= i < |parts| - 1 ==>
      |parts[i]| + 2 >= minBlock || |parts[i]| + 2 + |parts[i + 1]| > maxBlock
  }

  predicate CutLate(blocks: seq<string>, buf: seq<string>, minBlock: nat, maxBlock: nat) {
    && Spaced(blocks + Pending(buf), minBlock, maxBlock)
    && (buf == [] && blocks != [] ==> |blocks[|blocks| - 1]| + 2 >= minBlock)
  }

  lemma SpacedSnoc(parts: seq<string>, p: string, minBlock: nat, maxBlock: nat)
    requires Spaced(parts, minBlock, maxBlock)
    requires parts != [] ==> var last := parts[|parts| - 1]; |last| + 2 >= minBlock || |last| + 2 + |p| > maxBlock
    ensures Spaced(parts + [p], minBlock, maxBlock)
  {
  }

  /** The buffer is full: it becomes a block and `p` opens the next. */
  lemma CutWhenFull(blocks: seq<string>, buf: seq<string>, length: int, p: string, minBlock: nat, maxBlock: nat)
    requires CutLate(blocks, buf, minBlock, maxBlock) && buf != [] && length <= |Join(buf)| + 2 && length + |p| > maxBlock
    ensures CutLate(blocks + [Join(buf)], [p], minBlock, maxBlock)
  {
  }

  lemma CutOpens(blocks: seq<string>, p: string, minBlock: nat, maxBlock: nat)
    requires CutLate(blocks, [], minBlock, maxBlock)
    ensures CutLate(blocks, [p], minBlock, maxBlock)
  {
    assert blocks + [] == blocks;
    SpacedSnoc(blocks, p, minBlock, maxBlock);
  }

  lemma CutGrows(blocks: seq<string>, buf: seq<string>, p: string, minBlock: nat, maxBlock: nat)
    requires CutLate(blocks, buf, minBlock, maxBlock) && buf != []
    ensures CutLate(blocks, buf + [p], minBlock, maxBlock)
  {
    JoinAppend(buf, p);
    hide Join;
    var a, b := blocks + [Join(buf)], blocks + [Join(buf + [p])];
    forall i | 0 <= i < |b| - 1 ensures |b[i]| + 2 >= minBlock || |b[i]| + 2 + |b[i + 1]| > maxBlock {
      assert b[i] == a[i] && |a[i + 1]| <= |b[i + 1]|;
    }
  }

  lemma CutWhenLong(blocks: seq<string>, buf: seq<string>, length: int, minBlock: nat, maxBlock: nat)
    requires CutLate(blocks, buf, minBlock, maxBlock) && buf != [] && minBlock <= length <= |Join(buf)| + 2
    ensures CutLate(blocks + [Join(buf)], [], minBlock, maxBlock)
  {
  }

  lemma LengthOfBuffer(buf: seq<string>, length: int, paras: seq<string>, maxBlock: nat)
    requires BufferOk(buf, length, paras, maxBlock) && buf != []
    ensures length <= |Join(buf)| + 2
  {
  }

  lemma StartEmpty(paras: seq<string>, maxBlock: nat)
    ensures Accounted(paras, [], [], 0) && BufferOk([], 0, paras, maxBlock)
  {
  }

  lemma EmptyBuffer(paras: seq<string>, blocks: seq<string>, buf: seq<string>, length: int, maxBlock: nat, i: nat)
    requires i <= |paras| && Accounted(paras, blocks, buf, i) && BufferOk(buf, length, paras, maxBlock) && buf == []
    ensures Accounted(paras, blocks, [], i) && length == 0
  {
  }

  lemma BufferIsVisible(buf: seq<string>, length: int, paras: seq<string>, maxBlock: nat)
    requires BufferOk(buf, length, paras, maxBlock)
    ensures buf != [] ==> Visible(Join(buf))
  {
  }

  /** The joined buffer can become a block, and the buffer starts over. */
  lemma Flush(paras: seq<string>, blocks: seq<string>, buf: seq<string>, length: int, maxBlock: nat, i: nat)
    requires i <= |paras| && buf != [] && Accounted(paras, blocks, buf, i) && BufferOk(buf, length, paras, maxBlock)
    ensures Accounted(paras, blocks + [Join(buf)], [], i) && BufferOk([], 0, paras, maxBlock)
    ensures Visible(Join(buf)) && Bounded(Join(buf), paras, maxBlock)
  {
    assert blocks + [Join(buf)] + [] == blocks + [Join(buf)];
  }

  lemma Opened(paras: seq<string>, blocks: seq<string>, maxBlock: nat, i: nat)
    requires i < |paras| && Accounted(paras, blocks, [], i) && Paragraphs(paras)
    ensures Accounted(paras, blocks, [paras[i]], i + 1)
    ensures BufferOk([paras[i]], |paras[i]|, paras, maxBlock) && BufferOk([paras[i]], |paras[i]| + 2, paras, maxBlock)
  {
    OpenBuffer(paras, blocks, i);
  }

  lemma Grown(paras: seq<string>, blocks: seq<string>, buf: seq<string>, length: int, maxBlock: nat, i: nat)
    requires i < |paras| && buf != [] && Accounted(paras, blocks, buf, i) && BufferOk(buf, length, paras, maxBlock)
    requires length + |paras[i]| <= maxBlock
    ensures Accounted(paras, blocks, buf + [paras[i]], i + 1)
    ensures BufferOk(buf + [paras[i]], length + |paras[i]| + 2, paras, maxBlock)
  {
    GrowBuffer(paras, blocks, buf, i);
  }

  /** The last block is not a small rest. */
  predicate EndsLong(parts: seq<string>, minBlock: nat, maxBlock: nat) {
    |parts| >= 2 ==>
      var last := parts[|parts| - 1]; |last| >= minBlock / 2 || |last| + 2 >= minBlock || |last| > maxBlock
  }

  /** What is asked of the blocks of `paras`. */
  predicate GoodBlocks(r: seq<string>, paras: seq<string>, minBlock: nat, maxBlock: nat) {
    && Join(r) == Join(paras)
    && (forall i :: 0 <= i < |r| ==> Visible(r[i]))
    && (forall i :: 0 <= i < |r| - 1 ==> Bounded(r[i], paras, maxBlock))
    && Spaced(r, minBlock, maxBlock) && EndsLong(r, minBlock, maxBlock)
  }

  // ----- where exactly the blocks are cut

  /**
   The paragraphs from `from` up to `to` in one buffer; `extra` is what its length counts beyond the joined
   text: 2 after a fresh start, 0 when the paragraph before overflowed.
   */
  datatype Run = Run(from: nat, to: nat, extra: nat)

  predicate InRange(paras: seq<string>, run: Run) {
    run.from < run.to <= |paras|
  }

  function TextOf(paras: seq<string>, run: Run): string {
    if InRange(paras, run) then Join(paras[run.from..run.to]) else ""
  }

  /** Two paragraphs and long enough: the block is finished. */
  predicate Long(paras: seq<string>, run: Run, minBlock: nat) {
    run.to >= run.from + 2 && |TextOf(paras, run)| + run.extra >= minBlock
  }

  /** The next paragraph does not fit any more. */
  predicate Full(paras: seq<string>, run: Run, maxBlock: nat) {
    run.to < |paras| && |TextOf(paras, run)| + run.extra + |paras[run.to]| > maxBlock
  }

  /** The buffer was neither long nor full before its last paragraph. */
  predicate GrewTo(paras: seq<string>, run: Run, minBlock: nat, maxBlock: nat) {
    && InRange(paras, run)
    && (forall c {:trigger run.(to := c)} :: run.from < c < run.to ==>
          !Long(paras, run.(to := c), minBlock) && !Full(paras, run.(to := c), maxBlock))
  }

  /** Runs one after the other from the first paragraph on, each but the last cut because it was long or full. */
  predicate Chain(paras: seq<string>, runs: seq<Run>, minBlock: nat, maxBlock: nat) {
    && (forall k :: 0 <= k < |runs| ==> GrewTo(paras, runs[k], minBlock, maxBlock))
    && (runs != [] ==> runs[0].from == 0 && runs[0].extra == 2)
    && (forall k :: 0 < k < |runs| ==> Follows(paras, runs[k - 1], runs[k], minBlock, maxBlock))
  }

  predicate Follows(paras: seq<string>, run: Run, next: Run, minBlock: nat, maxBlock: nat) {
    && next.from == run.to && (Long(paras, run, minBlock) || Full(paras, run, maxBlock))
    && next.extra == if Long(paras, run, minBlock) then 2 else 0
  }

  function EndOf(runs: seq<Run>): nat {
    if runs == [] then 0 else runs[|runs| - 1].to
  }

  function Texts(paras: seq<string>, runs: seq<Run>): (r: seq<string>)
    ensures |r| == |runs|
  {
    seq(|runs|, k requires 0 <= k < |runs| => TextOf(paras, runs[k]))
  }

  /** The blocks are the runs; a short rest at the end goes to the block before it. */
  ghost predicate Grouped(paras: seq<string>, runs: seq<Run>, blocks: seq<string>, minBlock: nat, maxBlock: nat) {
    && Chain(paras, runs, minBlock, maxBlock) && EndOf(runs) == |paras|
    && var texts, n := Texts(paras, runs), |runs|;
       blocks == if n >= 2 && !Long(paras, runs[n - 1], minBlock) && |texts[n - 1]| < minBlock / 2
                 then texts[..n - 2] + [texts[n - 2] + "\n\n" + texts[n - 1]] else texts
  }

  /** Blocks, buffer and length are those of the runs; an empty buffer means that the last run was long. */
  ghost predicate Tracks(paras: seq<string>, runs: seq<Run>, blocks: seq<string>, buf: seq<string>, length: int, i: nat,
                         minBlock: nat, maxBlock: nat) {
    && i <= |paras| && Chain(paras, runs, minBlock, maxBlock) && EndOf(runs) == i
    && if buf == [] then length == 0 && blocks == Texts(paras, runs) && (runs != [] ==> Long(paras, runs[|runs| - 1], minBlock))
       else && runs != []
            && var last := runs[|runs| - 1];
            && buf == paras[last.from..i] && length == |Join(buf)| + last.extra
            && blocks == Texts(paras, runs[..|runs| - 1])
  }

  lemma ChainMore(paras: seq<string>, runs: seq<Run>, minBlock: nat, maxBlock: nat)
    requires Chain(paras, runs, minBlock, maxBlock) && EndOf(runs) < |paras|
    requires runs != [] ==> Long(paras, runs[|runs| - 1], minBlock) || Full(paras, runs[|runs| - 1], maxBlock)
    ensures var i := EndOf(runs);
            var extra := if runs != [] && !Long(paras, runs[|runs| - 1], minBlock) then 0 else 2;
            Chain(paras, runs + [Run(i, i + 1, extra)], minBlock, maxBlock)
  {
    hide Long, Full;
    var i := EndOf(runs);
    var next := Run(i, i + 1, if runs != [] && !Long(paras, runs[|runs| - 1], minBlock) then 0 else 2);
    assert GrewTo(paras, next, minBlock, maxBlock);
    assert runs != [] ==> Follows(paras, runs[|runs| - 1], next, minBlock, maxBlock);
    hide GrewTo, Follows;
  }

  lemma ChainGrows(paras: seq<string>, runs: seq<Run>, minBlock: nat, maxBlock: nat)
    requires Chain(paras, runs, minBlock, maxBlock) && runs != [] && EndOf(runs) < |paras|
    requires !Long(paras, runs[|runs| - 1], minBlock) && !Full(paras, runs[|runs| - 1], maxBlock)
    ensures var last := runs[|runs| - 1];
            Chain(paras, runs[..|runs| - 1] + [last.(to := last.to + 1)], minBlock, maxBlock)
  {
    hide Long, Full;
    var last := runs[|runs| - 1];
    var next := last.(to := last.to + 1);
    forall c {:trigger next.(to := c)} | next.from < c < next.to
      ensures !Long(paras, next.(to := c), minBlock) && !Full(paras, next.(to := c), maxBlock)
    {
      assert next.(to := c) == last.(to := c);
      assert c == last.to ==> last.(to := c) == last;
    }
    assert GrewTo(paras, next, minBlock, maxBlock);
    var more := runs[..|runs| - 1] + [next];
    hide GrewTo;
    forall k | 0 < k < |more| ensures Follows(paras, more[k - 1], more[k], minBlock, maxBlock) {
      assert Follows(paras, runs[k - 1], runs[k], minBlock, maxBlock);
    }
  }

  lemma TrackStart(paras: seq<string>, minBlock: nat, maxBlock: nat)
    ensures Tracks(paras, [], [], [], 0, 0, minBlock, maxBlock)
  {
  }

  /** What the buffer says about the last run. */
  lemma LastRun(paras: seq<string>, runs: seq<Run>, blocks: seq<string>, buf: seq<string>, length: int, i: nat,
                minBlock: nat, maxBlock: nat)
    requires Tracks(paras, runs, blocks, buf, length, i, minBlock, maxBlock) && buf != []
    ensures runs != [] && runs[|runs| - 1].from < runs[|runs| - 1].to == i
    ensures Long(paras, runs[|runs| - 1], minBlock) <==> length >= minBlock && |buf| >= 2
    ensures i < |paras| ==> (Full(paras, runs[|runs| - 1], maxBlock) <==> length + |paras[i]| > maxBlock)
    ensures blocks + [Join(buf)] == Texts(paras, runs)
  {
    hide Join, Follows;
    var last := runs[|runs| - 1];
    assert GrewTo(paras, last, minBlock, maxBlock);
    assert InRange(paras, last);
    hide GrewTo, Texts;
    LastText(paras, runs);
  }

  lemma LastText(paras: seq<string>, runs: seq<Run>)
    requires runs != []
    ensures Texts(paras, runs) == Texts(paras, runs[..|runs| - 1]) + [TextOf(paras, runs[|runs| - 1])]
  {
    hide TextOf;
    TextsSnoc(paras, runs[..|runs| - 1], runs[|runs| - 1]);
    assert runs == runs[..|runs| - 1] + [runs[|runs| - 1]];
  }

  /** The next paragraph overflows: the buffer becomes a block, and the paragraph opens the next run. */
  lemma TrackOverflow(paras: seq<string>, runs: seq<Run>, blocks: seq<string>, buf: seq<string>, length: int, i: nat,
                      minBlock: nat, maxBlock: nat)
    requires Tracks(paras, runs, blocks, buf, length, i, minBlock, maxBlock) && i < |paras| && buf != []
    requires !(length >= minBlock && |buf| >= 2) && length + |paras[i]| > maxBlock
    ensures Tracks(paras, runs + [Run(i, i + 1, 0)], blocks + [Join(buf)], [paras[i]], |paras[i]|, i + 1, minBlock, maxBlock)
  {
    LastRun(paras, runs, blocks, buf, length, i, minBlock, maxBlock);
    hide Long, Full;
    ChainMore(paras, runs, minBlock, maxBlock);
    hide Chain, Texts;
    assert (runs + [Run(i, i + 1, 0)])[..|runs|] == runs;
    assert paras[i..i + 1] == [paras[i]];
  }

  lemma TextsSnoc(paras: seq<string>, runs: seq<Run>, run: Run)
    ensures Texts(paras, runs + [run]) == Texts(paras, runs) + [TextOf(paras, run)]
  {
  }

  /** A paragraph that opens a run after a fresh start. */
  lemma TrackOpen(paras: seq<string>, runs: seq<Run>, blocks: seq<string>, i: nat, minBlock: nat, maxBlock: nat)
    requires Tracks(paras, runs, blocks, [], 0, i, minBlock, maxBlock) && i < |paras|
    ensures Tracks(paras, runs + [Run(i, i + 1, 2)], blocks, [paras[i]], |paras[i]| + 2, i + 1, minBlock, maxBlock)
  {
    ChainMore(paras, runs, minBlock, maxBlock);
    assert (runs + [Run(i, i + 1, 2)])[..|runs|] == runs;
    assert paras[i..i + 1] == [paras[i]];
  }

  lemma SliceSnoc<T>(s: seq<T>, from: nat, i: nat)
    requires from <= i < |s|
    ensures s[from..i + 1] == s[from..i] + [s[i]]
  {
  }

  lemma FrontOfSnoc<T>(front: seq<T>, x: T)
    ensures (front + [x])[..|front|] == front && |front + [x]| == |front| + 1
  {
  }

  /** A paragraph that joins the buffer. */
  lemma TrackGrow(paras: seq<string>, runs: seq<Run>, blocks: seq<string>, buf: seq<string>, length: int, i: nat,
                  minBlock: nat, maxBlock: nat) returns (more: seq<Run>)
    requires Tracks(paras, runs, blocks, buf, length, i, minBlock, maxBlock) && i < |paras| && buf != []
    requires !(length >= minBlock && |buf| >= 2) && length + |paras[i]| <= maxBlock
    ensures Tracks(paras, more, blocks, buf + [paras[i]], length + |paras[i]| + 2, i + 1, minBlock, maxBlock)
  {
    hide Long, Full, Join, GrewTo, Follows, TextOf;
    LastRun(paras, runs, blocks, buf, length, i, minBlock, maxBlock);
    JoinAppend(buf, paras[i]);
    ChainGrows(paras, runs, minBlock, maxBlock);
    hide Chain, Texts;
    var last := runs[|runs| - 1];
    more := runs[..|runs| - 1] + [last.(to := i + 1)];
    FrontOfSnoc(runs[..|runs| - 1], last.(to := i + 1));
    SliceSnoc(paras, last.from, i);
  }

  /** The buffer is long: it becomes a block, and the next run starts fresh. */
  lemma TrackCut(paras: seq<string>, runs: seq<Run>, blocks: seq<string>, buf: seq<string>, length: int, i: nat,
                 minBlock: nat, maxBlock: nat)
    requires Tracks(paras, runs, blocks, buf, length, i, minBlock, maxBlock) && buf != []
    requires length >= minBlock && |buf| >= 2
    ensures Tracks(paras, runs, blocks + [Join(buf)], [], 0, i, minBlock, maxBlock)
  {
    LastRun(paras, runs, blocks, buf, length, i, minBlock, maxBlock);
    hide Long, Full, Chain, Texts;
  }

  /** What becomes of the rest. */
  function WithRest(blocks: seq<string>, buf: seq<string>, minBlock: nat): seq<string> {
    if buf == [] then blocks
    else if blocks != [] && |Join(buf)| < minBlock / 2
    then blocks[..|blocks| - 1] + [Glue(blocks[|blocks| - 1], Join(buf))]
    else blocks + [Join(buf)]
  }

  lemma TrackEnd(paras: seq<string>, runs: seq<Run>, blocks: seq<string>, buf: seq<string>, length: int,
                 minBlock: nat, maxBlock: nat)
    requires Tracks(paras, runs, blocks, buf, length, |paras|, minBlock, maxBlock)
    requires buf != [] ==> !(length >= minBlock && |buf| >= 2)
    ensures Grouped(paras, runs, WithRest(blocks, buf, minBlock), minBlock, maxBlock)
  {
    if buf != [] {
      LastRun(paras, runs, blocks, buf, length, |paras|, minBlock, maxBlock);
      hide Chain, Long, Full, Texts;
      var texts, n := Texts(paras, runs), |runs|;
      assert texts == blocks + [Join(buf)] && |blocks| == n - 1;
      if n >= 2 {
        assert texts[..n - 2] == blocks[..n - 2] && texts[n - 2] == blocks[n - 2];
      }
    }
  }

  method SplitHeuristicBlocks(raw: string, minBlock: nat, maxBlock: nat) returns (result: seq<string>)
    ensures GoodBlocks(result, ParagraphsOf(Strip(raw)), minBlock, maxBlock)
    ensures exists runs :: Grouped(ParagraphsOf(Strip(raw)), runs, result, minBlock, maxBlock)
    ensures Ink(Join(result)) == Ink(raw)
    ensures result == [] <==> Strip(raw) == ""
  {
    hide Ink, Strip, Kept, SplitFrom;
    var text := Strip(raw);
    InkOfStrip(raw);
    NoInk();
    StripYieldsStripped(raw);
    SomeParagraph(text);
    ParagraphsLoseNothing(text);
    if text == "" {
      assert Grouped([], [], [], minBlock, maxBlock);
      return [];
    }
    var paras := ParagraphsOf(text);
    KeptIsVisible(SplitFrom(text, 0, 0));
    ghost var runs;
    result, runs := GroupParagraphs(paras, minBlock, maxBlock);
  }

  method GroupParagraphs(paras: seq<string>, minBlock: nat, maxBlock: nat) returns (result: seq<string>, ghost runs: seq<Run>)
    requires Paragraphs(paras) && paras != []
    ensures GoodBlocks(result, paras, minBlock, maxBlock) && result != []
    ensures Grouped(paras, runs, result, minBlock, maxBlock)
  {
    hide Join, Accounted, BufferOk, Visible, Bounded, CutLate, Tracks, Grouped, WithRest;
    runs := [];
    TrackStart(paras, minBlock, maxBlock);
    var blocks: seq<string>, buf: seq<string>, bufLength: int := [], [], 0;
    StartEmpty(paras, maxBlock);
    NothingCut(minBlock, maxBlock);
    for i := 0 to |paras|
      invariant Accounted(paras, blocks, buf, i) && BufferOk(buf, bufLength, paras, maxBlock)
      invariant forall b :: b in blocks ==> Visible(b) && Bounded(b, paras, maxBlock)
      invariant CutLate(blocks, buf, minBlock, maxBlock)
      invariant Tracks(paras, runs, blocks, buf, bufLength, i, minBlock, maxBlock)
      invariant !(bufLength >= minBlock && |buf| >= 2)
    {
      var p, length := paras[i], |paras[i]|;
      if bufLength + length > maxBlock && buf != [] {
        LengthOfBuffer(buf, bufLength, paras, maxBlock);
        CutWhenFull(blocks, buf, bufLength, p, minBlock, maxBlock);
        Flush(paras, blocks, buf, bufLength, maxBlock, i);
        TrackOverflow(paras, runs, blocks, buf, bufLength, i, minBlock, maxBlock);
        runs := runs + [Run(i, i + 1, 0)];
        blocks := blocks + [Join(buf)];
        Opened(paras, blocks, maxBlock, i);
        buf := [p];
        bufLength := length;
        continue;
      }
      if buf == [] {
        EmptyBuffer(paras, blocks, buf, bufLength, maxBlock, i);
        Opened(paras, blocks, maxBlock, i);
        CutOpens(blocks, p, minBlock, maxBlock);
        TrackOpen(paras, runs, blocks, i, minBlock, maxBlock);
        runs := runs + [Run(i, i + 1, 2)];
        assert buf + [p] == [p];
      } else {
        Grown(paras, blocks, buf, bufLength, maxBlock, i);
        CutGrows(blocks, buf, p, minBlock, maxBlock);
        runs := TrackGrow(paras, runs, blocks, buf, bufLength, i, minBlock, maxBlock);
      }
      buf := buf + [p];
      bufLength := bufLength + length + 2;
      if bufLength >= minBlock && |buf| >= 2 {
        LengthOfBuffer(buf, bufLength, paras, maxBlock);
        CutWhenLong(blocks, buf, bufLength, minBlock, maxBlock);
        TrackCut(paras, runs, blocks, buf, bufLength, i + 1, minBlock, maxBlock);
        Flush(paras, blocks, buf, bufLength, maxBlock, i + 1);
        blocks := blocks + [Join(buf)];
        buf, bufLength := [], 0;
      }
    }
    BufferIsVisible(buf, bufLength, paras, maxBlock);
    TrackEnd(paras, runs, blocks, buf, bufLength, minBlock, maxBlock);
    blocks := FlushRest(paras, blocks, buf, minBlock, maxBlock);
    result := KeepVisible(blocks);
  }

  lemma NothingCut(minBlock: nat, maxBlock: nat)
    ensures CutLate([], [], minBlock, maxBlock)
  {
  }

  lemma NoRestIsGood(paras: seq<string>, blocks: seq<string>, minBlock: nat, maxBlock: nat)
    requires paras != [] && Accounted(paras, blocks, [], |paras|) && CutLate(blocks, [], minBlock, maxBlock)
    requires forall b :: b in blocks ==> Visible(b) && Bounded(b, paras, maxBlock)
    ensures GoodBlocks(blocks, paras, minBlock, maxBlock) && blocks != []
  {
    hide Join, Visible, Bounded;
    assert paras[..|paras|] == paras && blocks + [] == blocks;
  }

  lemma RestIsPart(paras: seq<string>, blocks: seq<string>, buf: seq<string>, minBlock: nat, maxBlock: nat)
    requires Accounted(paras, blocks, buf, |paras|) && CutLate(blocks, buf, minBlock, maxBlock) && buf != []
    ensures Join(blocks + [Join(buf)]) == Join(paras) && Spaced(blocks + [Join(buf)], minBlock, maxBlock)
  {
    hide Join, Spaced;
    assert paras[..|paras|] == paras;
  }

  lemma AppendedIsGood(paras: seq<string>, blocks: seq<string>, rest: string, minBlock: nat, maxBlock: nat)
    requires Join(blocks + [rest]) == Join(paras) && Visible(rest) && (blocks != [] ==> |rest| >= minBlock / 2)
    requires forall b :: b in blocks ==> Visible(b) && Bounded(b, paras, maxBlock)
    requires Spaced(blocks + [rest], minBlock, maxBlock)
    ensures GoodBlocks(blocks + [rest], paras, minBlock, maxBlock)
  {
    hide Join, Visible, Bounded, Spaced;
  }

  lemma MergedIsGood(paras: seq<string>, front: seq<string>, last: string, rest: string, minBlock: nat, maxBlock: nat)
    requires Join(front + [last] + [rest]) == Join(paras) && Visible(last) && |rest| < minBlock / 2
    requires forall b :: b in front ==> Visible(b) && Bounded(b, paras, maxBlock)
    requires Spaced(front + [last] + [rest], minBlock, maxBlock)
    ensures GoodBlocks(front + [Glue(last, rest)], paras, minBlock, maxBlock)
  {
    JoinGrowLast(front, last, rest);
    VisibleGrows(last, rest);
    SpacedMerges(front, last, rest, minBlock, maxBlock);
    hide Join, Visible, Bounded, Glue, Spaced, EndsLong;
  }

  /** What is left in the buffer becomes a block, or grows the last one when it is short. */
  method FlushRest(ghost paras: seq<string>, blocks: seq<string>, buf: seq<string>, minBlock: nat, ghost maxBlock: nat)
    returns (r: seq<string>)
    requires paras != [] && Accounted(paras, blocks, buf, |paras|) && (buf != [] ==> Visible(Join(buf)))
    requires forall b :: b in blocks ==> Visible(b) && Bounded(b, paras, maxBlock)
    requires CutLate(blocks, buf, minBlock, maxBlock)
    ensures GoodBlocks(r, paras, minBlock, maxBlock) && r != []
    ensures r == WithRest(blocks, buf, minBlock)
  {
    hide Join, Visible, Bounded, Glue, Accounted, CutLate, GoodBlocks, Spaced;
    if buf == [] {
      NoRestIsGood(paras, blocks, minBlock, maxBlock);
      return blocks;
    }
    RestIsPart(paras, blocks, buf, minBlock, maxBlock);
    if blocks != [] && |Join(buf)| < minBlock / 2 {
      var front, last := blocks[..|blocks| - 1], blocks[|blocks| - 1];
      assert blocks == front + [last] && last in blocks;
      MergedIsGood(paras, front, last, Join(buf), minBlock, maxBlock);
      return front + [Glue(last, Join(buf))];
    }
    AppendedIsGood(paras, blocks, Join(buf), minBlock, maxBlock);
    return blocks + [Join(buf)];
  }

  lemma SpacedMerges(front: seq<string>, last: string, rest: string, minBlock: nat, maxBlock: nat)
    requires Spaced(front + [last] + [rest], minBlock, maxBlock) && |rest| < minBlock / 2
    ensures Spaced(front + [Glue(last, rest)], minBlock, maxBlock)
    ensures EndsLong(front + [Glue(last, rest)], minBlock, maxBlock)
  {
    assert (front + [last] + [rest])[|front|] == last && (front + [last] + [rest])[|front| + 1] == rest;
    var a, b := front + [last] + [rest], front + [Glue(last, rest)];
    forall i | 0 <= i < |b| - 1 ensures |b[i]| + 2 >= minBlock || |b[i]| + 2 + |b[i + 1]| > maxBlock {
      assert b[i] == a[i] && |a[i + 1]| <= |b[i + 1]|;
    }
  }

  lemma VisibleGrows(s: string, more: string)
    requires Visible(s)
    ensures Visible(Glue(s, more))
  {
  }

  method KeepVisible(blocks: seq<string>) returns (r: seq<string>)
    requires forall i :: 0 <= i < |blocks| ==> Visible(blocks[i])
    ensures r == blocks
  {
    hide Strip;
    r := [];
    for i := 0 to |blocks|
      invariant r == blocks[..i]
    {
      VisibleIsNotBlank(blocks[i]);
      if Strip(blocks[i]) != "" {
        r := r + [blocks[i]];
      }
    }
    assert r == blocks;
  }

  lemma VisibleIsNotBlank(s: string)
    requires Visible(s)
    ensures Strip(s) != ""
  {
  }
}
