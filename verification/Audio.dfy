/**
 Cutting interview audio into overlapping windows, and halving the window until every file fits
 (app/services/audio_segment_split_service.py:76-202).  Times are in milliseconds.

 `encode` stands for ffmpeg: what file the slice `[start, start + length)` becomes.
 */
module Audio {
  import opened Text
  import opened Wrappers

  const MIN_CHUNK_SECONDS: real := 60.0
  const MAX_ATTEMPTS: nat := 12

  datatype Segment = Segment(index: nat, start: nat, end: nat)

  datatype Encoded = Crashed | File(bytes: nat)

  datatype Failure = ChunkNotPositive | DurationZero | EncoderFailed(index: nat)
    | EmptySegment(index: nat) | SegmentTooLarge(index: nat) | CouldNotFit

  type Encoder = (nat, nat) -> Encoded

  type Plan = Result<seq<Segment>, Failure>

  function WindowStart(overlap: int, pos: nat): nat {
    if pos > 0 then Max(0, pos - overlap) else 0
  }

  function WindowEnd(total: nat, chunk: nat, overlap: int, pos: nat): int {
    Min(total, pos + chunk + if pos + chunk < total then overlap else 0)
  }

  /** A negative overlap can leave nothing of a window; the loop then stops. */
  predicate Empty(total: nat, chunk: nat, overlap: int, pos: nat) {
    WindowEnd(total, chunk, overlap, pos) <= WindowStart(overlap, pos)
  }

  /** The window of the chunk that starts at `pos`. */
  function Window(total: nat, chunk: nat, overlap: int, index: nat, pos: nat): Segment
    requires !Empty(total, chunk, overlap, pos)
  {
    Segment(index, WindowStart(overlap, pos), WindowEnd(total, chunk, overlap, pos))
  }

  /** The windows from the one at `pos` on, up to the first empty one. */
  function Windows(total: nat, chunk: nat, overlap: int, index: nat, pos: nat): seq<Segment>
    requires chunk > 0
    decreases total - pos
  {
    if pos >= total || Empty(total, chunk, overlap, pos) then []
    else [Window(total, chunk, overlap, index, pos)] + Windows(total, chunk, overlap, index + 1, pos + chunk)
  }

  function SliceLength(w: Segment): nat {
    Max(10, w.end - w.start)
  }

  function Check(w: Segment, maxBytes: nat, encode: Encoder): Option<Failure> {
    match encode(w.start, SliceLength(w))
    case Crashed => Some(EncoderFailed(w.index))
    case File(bytes) =>
      if bytes == 0 then Some(EmptySegment(w.index))
      else if bytes > maxBytes then Some(SegmentTooLarge(w.index))
      else None
  }

  /** The first window that cannot be used decides. */
  function FirstFailure(ws: seq<Segment>, maxBytes: nat, encode: Encoder): Option<Failure> {
    if ws == [] then None
    else
      var here := Check(ws[0], maxBytes, encode);
      if here.Some? then here else FirstFailure(ws[1..], maxBytes, encode)
  }

  function PlanFor(total: nat, chunk: int, overlap: int, maxBytes: nat, encode: Encoder): Plan {
    if chunk <= 0 then Err(ChunkNotPositive)
    else if total == 0 then Err(DurationZero)
    else
      var ws := Windows(total, chunk, overlap, 0, 0);
      var failure := FirstFailure(ws, maxBytes, encode);
      if failure.Some? then Err(failure.value) else Ok(ws)
  }

  /** The plan, when `out` is made and the windows in `rest` are still to come. */
  function Finish(out: seq<Segment>, rest: seq<Segment>, maxBytes: nat, encode: Encoder): Plan {
    var failure := FirstFailure(rest, maxBytes, encode);
    if failure.Some? then Err(failure.value) else Ok(out + rest)
  }

  lemma FinishFromStart(total: nat, chunk: nat, overlap: int, maxBytes: nat, encode: Encoder)
    requires chunk > 0 && total > 0
    ensures PlanFor(total, chunk, overlap, maxBytes, encode)
         == Finish([], Windows(total, chunk, overlap, 0, 0), maxBytes, encode)
  {
    hide Windows, FirstFailure;
    assert [] + Windows(total, chunk, overlap, 0, 0) == Windows(total, chunk, overlap, 0, 0);
  }

  /** The window at `pos` fails the plan or joins the segments made. */
  lemma FinishStep(total: nat, chunk: nat, overlap: int, index: nat, pos: nat, maxBytes: nat, encode: Encoder,
                   out: seq<Segment>)
    requires chunk > 0 && pos < total && !Empty(total, chunk, overlap, pos)
    ensures var w, rest := Window(total, chunk, overlap, index, pos), Windows(total, chunk, overlap, index + 1, pos + chunk);
            var here := Check(w, maxBytes, encode);
            Finish(out, Windows(total, chunk, overlap, index, pos), maxBytes, encode)
            == if here.Some? then Err(here.value) else Finish(out + [w], rest, maxBytes, encode)
  {
    hide Empty, Window, Check;
    var w, rest := Window(total, chunk, overlap, index, pos), Windows(total, chunk, overlap, index + 1, pos + chunk);
    assert Windows(total, chunk, overlap, index, pos) == [w] + rest;
    hide Windows;
    assert ([w] + rest)[1..] == rest && out + ([w] + rest) == out + [w] + rest;
  }

  lemma FinishAtEnd(total: nat, chunk: nat, overlap: int, index: nat, pos: nat, maxBytes: nat, encode: Encoder,
                    out: seq<Segment>)
    requires chunk > 0 && (pos >= total || Empty(total, chunk, overlap, pos))
    ensures Finish(out, Windows(total, chunk, overlap, index, pos), maxBytes, encode) == Ok(out)
  {
    assert out + [] == out;
  }

  lemma TheWindow(total: nat, chunk: nat, overlap: int, index: nat, pos: nat)
    ensures Empty(total, chunk, overlap, pos) <==> WindowEnd(total, chunk, overlap, pos) <= WindowStart(overlap, pos)
    ensures !Empty(total, chunk, overlap, pos) ==>
              Window(total, chunk, overlap, index, pos)
              == Segment(index, WindowStart(overlap, pos), WindowEnd(total, chunk, overlap, pos))
  {
  }

  lemma FailuresOfWindows(total: nat, chunk: int, overlap: int, maxBytes: nat, encode: Encoder)
    ensures var plan := PlanFor(total, chunk, overlap, maxBytes, encode);
            && (plan == Err(ChunkNotPositive) <==> chunk <= 0)
            && (plan == Err(DurationZero) <==> chunk > 0 && total == 0)
  {
    if chunk > 0 {
      FailureIsOfWindow(Windows(total, chunk, overlap, 0, 0), maxBytes, encode);
      hide Windows, FirstFailure;
    }
  }

  lemma {:induction false} FailureIsOfWindow(ws: seq<Segment>, maxBytes: nat, encode: Encoder)
    ensures var f := FirstFailure(ws, maxBytes, encode);
            f.Some? ==> f.value.EncoderFailed? || f.value.EmptySegment? || f.value.SegmentTooLarge?
  {
    if ws == [] {
    } else {
      FailureIsOfWindow(ws[1..], maxBytes, encode);
    }
  }

  /** A slice is at least 10 ms long; which failure it is depends on the file alone. */
  lemma CheckExactly(w: Segment, maxBytes: nat, encode: Encoder)
    ensures var file := encode(w.start, if w.end < w.start + 10 then 10 else w.end - w.start);
            && (Check(w, maxBytes, encode) == Some(EncoderFailed(w.index)) <==> file.Crashed?)
            && (Check(w, maxBytes, encode) == Some(EmptySegment(w.index)) <==> file == File(0))
            && (Check(w, maxBytes, encode) == Some(SegmentTooLarge(w.index)) <==> file.File? && file.bytes > maxBytes && file.bytes > 0)
            && (Check(w, maxBytes, encode) == None <==> file.File? && 0 < file.bytes <= maxBytes)
  {
  }

  /** Encodes one slice and looks at the file. */
  method EncodeSegment(w: Segment, maxBytes: nat, encode: Encoder) returns (failure: Option<Failure>)
    ensures failure == Check(w, maxBytes, encode)
  {
    match encode(w.start, Max(10, w.end - w.start)) {
      case Crashed => return Some(EncoderFailed(w.index));
      case File(bytes) =>
        if bytes == 0 {
          return Some(EmptySegment(w.index));
        }
        if bytes > maxBytes {
          return Some(SegmentTooLarge(w.index));
        }
    }
    return None;
  }

  /** One pass over the file. */
  method BuildSegmentPlan(total: nat, chunk: int, overlap: int, maxBytes: nat, encode: Encoder)
    returns (plan: Plan)
    ensures plan == PlanFor(total, chunk, overlap, maxBytes, encode)
    ensures plan == Err(ChunkNotPositive) <==> chunk <= 0
    ensures plan == Err(DurationZero) <==> chunk > 0 && total == 0
  {
    FailuresOfWindows(total, chunk, overlap, maxBytes, encode);
    if chunk <= 0 {
      return Err(ChunkNotPositive);
    }
    if total == 0 {
      return Err(DurationZero);
    }
    hide PlanFor, Finish, Windows, Empty, Window, Check;
    FinishFromStart(total, chunk, overlap, maxBytes, encode);
    var out: seq<Segment> := [];
    var pos, index := 0, 0;
    while pos < total
      invariant PlanFor(total, chunk, overlap, maxBytes, encode)
             == Finish(out, Windows(total, chunk, overlap, index, pos), maxBytes, encode)
      decreases total - pos
    {
      var start := if pos > 0 then Max(0, pos - overlap) else 0;
      var rawEnd := pos + chunk;
      if rawEnd < total {
        rawEnd := rawEnd + overlap;
      }
      var end := Min(total, rawEnd);
      TheWindow(total, chunk, overlap, index, pos);
      if end <= start {
        break;
      }
      FinishStep(total, chunk, overlap, index, pos, maxBytes, encode, out);
      var w := Segment(index, start, end);
      var failure := EncodeSegment(w, maxBytes, encode);
      if failure.Some? {
        return Err(failure.value);
      }
      out := out + [w];
      index := index + 1;
      pos := pos + chunk;
    }
    FinishAtEnd(total, chunk, overlap, index, pos, maxBytes, encode, out);
    return Ok(out);
  }

  // ----- the windows

  function Ceiling(total: nat, chunk: nat): nat
    requires chunk > 0
  {
    (total + chunk - 1) / chunk
  }

  lemma Scale(a: nat, b: nat, factor: nat)
    requires a <= b
    ensures a * factor <= b * factor
  {
  }

  lemma CeilingBounds(total: nat, chunk: nat)
    requires chunk > 0
    ensures var c := Ceiling(total, chunk); total <= c * chunk < total + chunk
  {
  }

  lemma CeilingStep(total: nat, chunk: nat, index: nat)
    requires chunk > 0
    ensures index * chunk < total <==> index < Ceiling(total, chunk)
  {
    hide Ceiling;
    var c := Ceiling(total, chunk);
    CeilingBounds(total, chunk);
    if index < c {
      Scale(index + 1, c, chunk);
      assert (index + 1) * chunk == index * chunk + chunk;
    } else {
      Scale(c, index, chunk);
    }
  }

  predicate EmptyAt(total: nat, chunk: nat, overlap: int, i: nat) {
    Empty(total, chunk, overlap, i * chunk)
  }

  function WindowAt(total: nat, chunk: nat, overlap: int, i: nat): Segment
    requires !EmptyAt(total, chunk, overlap, i)
  {
    Window(total, chunk, overlap, i, i * chunk)
  }

  /** The windows from the i-th on. */
  function WindowsAt(total: nat, chunk: nat, overlap: int, i: nat): seq<Segment>
    requires chunk > 0
  {
    Windows(total, chunk, overlap, i, i * chunk)
  }

  lemma WindowsAtStep(total: nat, chunk: nat, overlap: int, i: nat)
    requires chunk > 0
    ensures WindowsAt(total, chunk, overlap, i) ==
            if i >= Ceiling(total, chunk) || EmptyAt(total, chunk, overlap, i) then []
            else [WindowAt(total, chunk, overlap, i)] + WindowsAt(total, chunk, overlap, i + 1)
  {
    hide Ceiling, Empty, Window;
    CeilingStep(total, chunk, i);
    assert (i + 1) * chunk == i * chunk + chunk;
  }

  lemma {:induction false} WindowsFrom(total: nat, chunk: nat, overlap: int, index: nat)
    requires chunk > 0 && index <= Ceiling(total, chunk)
    ensures var ws, n := WindowsAt(total, chunk, overlap, index), Ceiling(total, chunk);
            && |ws| <= n - index
            && (|ws| == n - index <==> forall i :: index <= i < n ==> !EmptyAt(total, chunk, overlap, i))
            && (forall i :: index <= i < index + |ws| ==>
                  !EmptyAt(total, chunk, overlap, i) && ws[i - index] == WindowAt(total, chunk, overlap, i))
    decreases Ceiling(total, chunk) - index
  {
    hide EmptyAt, Ceiling, WindowAt, WindowsAt;
    WindowsAtStep(total, chunk, overlap, index);
    if Ceiling(total, chunk) <= index {
    } else {
      WindowsFrom(total, chunk, overlap, index + 1);
    }
  }

  /** What a negative overlap cuts away leaves a hole that ends the plan early. */
  predicate CutsShort(total: nat, chunk: nat, overlap: int)
    requires chunk > 0
  {
    var n := Ceiling(total, chunk);
    && total > chunk
    && (-overlap >= chunk || (n >= 3 && -2 * overlap >= chunk) || -overlap >= total - (n - 1) * chunk)
  }

  lemma EmptyExactly(total: nat, chunk: nat, overlap: int, i: nat)
    requires chunk > 0 && i < Ceiling(total, chunk)
    ensures var n := Ceiling(total, chunk);
            EmptyAt(total, chunk, overlap, i) <==>
            if i == 0 then total > chunk && -overlap >= chunk
            else if i < n - 1 then -2 * overlap >= chunk
            else -overlap >= total - i * chunk
  {
    hide Ceiling;
    CeilingStep(total, chunk, i);
    CeilingStep(total, chunk, i + 1);
    assert (i + 1) * chunk == i * chunk + chunk;
    if i > 0 {
      Scale(1, i, chunk);
    }
  }

  /** The i-th window is that of the i-th chunk, and none is missing exactly when none is empty. */
  lemma AllWindows(total: nat, chunk: nat, overlap: int)
    requires chunk > 0
    ensures var ws, n := Windows(total, chunk, overlap, 0, 0), Ceiling(total, chunk);
            && |ws| <= n
            && (|ws| == n <==> forall i :: 0 <= i < n ==> !EmptyAt(total, chunk, overlap, i))
            && (forall i :: 0 <= i < |ws| ==>
                  !EmptyAt(total, chunk, overlap, i) && ws[i] == WindowAt(total, chunk, overlap, i))
  {
    assert Windows(total, chunk, overlap, 0, 0) == WindowsAt(total, chunk, overlap, 0);
    hide Windows, WindowsAt, WindowAt, EmptyAt, Ceiling;
    WindowsFrom(total, chunk, overlap, 0);
    var ws := Windows(total, chunk, overlap, 0, 0);
    assert forall i :: 0 <= i < |ws| ==> ws[i - 0] == ws[i];
  }

  /** The early exit is reached exactly for these negative overlaps. */
  lemma ExitReachedExactly(total: nat, chunk: nat, overlap: int)
    requires chunk > 0
    ensures |Windows(total, chunk, overlap, 0, 0)| < Ceiling(total, chunk) <==> CutsShort(total, chunk, overlap)
  {
    hide Ceiling, EmptyAt;
    var n := Ceiling(total, chunk);
    CeilingStep(total, chunk, 0);
    CeilingStep(total, chunk, 1);
    AllWindows(total, chunk, overlap);
    hide Windows, WindowAt;
    forall i | 0 <= i < n ensures EmptyAt(total, chunk, overlap, i) ==> CutsShort(total, chunk, overlap) {
      EmptyExactly(total, chunk, overlap, i);
    }
    if CutsShort(total, chunk, overlap) {
      EmptyExactly(total, chunk, overlap, 0);
      EmptyExactly(total, chunk, overlap, 1);
      EmptyExactly(total, chunk, overlap, n - 1);
    }
  }

  /** A segment holds its core. */
  predicate HoldsCore(w: Segment, total: nat, chunk: nat) {
    w.start <= w.index * chunk < Min(total, (w.index + 1) * chunk) <= w.end
  }

  predicate IsShort(w: Segment, total: nat, chunk: nat, overlap: int) {
    w.start < w.end <= total && w.end - w.start <= chunk + 2 * Max(0, overlap)
  }

  lemma WindowAtIsShort(total: nat, chunk: nat, overlap: int, i: nat)
    requires !EmptyAt(total, chunk, overlap, i)
    ensures var w := WindowAt(total, chunk, overlap, i);
            w.index == i && IsShort(w, total, chunk, overlap)
  {
  }

  /** Segment `i` holds exactly the milliseconds within `overlap` of its core, for every overlap. */
  lemma SegmentsExactly(total: nat, chunk: nat, overlap: int, i: nat, p: nat)
    requires chunk > 0 && i < |Windows(total, chunk, overlap, 0, 0)|
    ensures var w := Windows(total, chunk, overlap, 0, 0)[i];
            w.start <= p < w.end <==>
            && p < total
            && (i == 0 || i * chunk - overlap <= p)
            && ((i + 1) * chunk >= total || p < (i + 1) * chunk + overlap)
  {
    AllWindows(total, chunk, overlap);
    hide Windows, Ceiling;
    assert (i + 1) * chunk == i * chunk + chunk;
    if i > 0 {
      Scale(1, i, chunk);
    }
  }

  /** Whatever the overlap: numbered from 0, inside the recording, at most `2 * overlap` longer than a chunk. */
  lemma SegmentsAreShort(total: nat, chunk: nat, overlap: int)
    requires chunk > 0
    ensures var ws := Windows(total, chunk, overlap, 0, 0);
            forall i :: 0 <= i < |ws| ==> ws[i].index == i && IsShort(ws[i], total, chunk, overlap)
  {
    AllWindows(total, chunk, overlap);
    hide Windows, WindowAt, EmptyAt, Ceiling, IsShort;
    var ws := Windows(total, chunk, overlap, 0, 0);
    forall i | 0 <= i < |ws| ensures ws[i].index == i && IsShort(ws[i], total, chunk, overlap) {
      WindowAtIsShort(total, chunk, overlap, i);
    }
  }

  lemma CoreOfWindow(total: nat, chunk: nat, overlap: int, i: nat)
    requires chunk > 0 && i < Ceiling(total, chunk) && !EmptyAt(total, chunk, overlap, i)
    ensures overlap >= 0 ==> HoldsCore(WindowAt(total, chunk, overlap, i), total, chunk)
    ensures i == 0 && total <= chunk ==> HoldsCore(WindowAt(total, chunk, overlap, i), total, chunk)
    ensures i == 1 && overlap < 0 ==> !HoldsCore(WindowAt(total, chunk, overlap, i), total, chunk)
  {
    hide Ceiling;
    CeilingStep(total, chunk, i);
    assert (i + 1) * chunk == i * chunk + chunk;
    if i > 0 {
      Scale(1, i, chunk);
    }
  }

  /** All ceil(total / chunk) segments are there, each around its core. */
  predicate AllCoresHeld(total: nat, chunk: nat, overlap: int)
    requires chunk > 0
  {
    var ws := Windows(total, chunk, overlap, 0, 0);
    |ws| == Ceiling(total, chunk) && forall i :: 0 <= i < |ws| ==> HoldsCore(ws[i], total, chunk)
  }

  /** That is so exactly when the overlap is not negative or one segment holds everything. */
  lemma SegmentsHoldCoresExactly(total: nat, chunk: nat, overlap: int)
    requires chunk > 0
    ensures AllCoresHeld(total, chunk, overlap) <==> overlap >= 0 || total <= chunk
  {
    hide Ceiling, CutsShort, Windows, WindowAt, EmptyAt, HoldsCore;
    var ws, n := Windows(total, chunk, overlap, 0, 0), Ceiling(total, chunk);
    AllWindows(total, chunk, overlap);
    ExitReachedExactly(total, chunk, overlap);
    if CutsShort(total, chunk, overlap) {
      CutsShortIsNegative(total, chunk, overlap);
    }
    CeilingStep(total, chunk, 1);
    forall i | 0 <= i < |ws| ensures overlap >= 0 || total <= chunk ==> HoldsCore(ws[i], total, chunk) {
      CoreOfWindow(total, chunk, overlap, i);
    }
    if overlap < 0 && total > chunk && |ws| == n {
      CoreOfWindow(total, chunk, overlap, 1);
      assert !HoldsCore(ws[1], total, chunk);
    }
  }

  lemma CutsShortIsNegative(total: nat, chunk: nat, overlap: int)
    requires chunk > 0 && CutsShort(total, chunk, overlap)
    ensures overlap < 0 && total > chunk
  {
    hide Ceiling;
    CeilingStep(total, chunk, 0);
    CeilingStep(total, chunk, Ceiling(total, chunk) - 1);
  }

  /** The cores partition the recording: every millisecond is in exactly one. */
  lemma CoresPartition(total: nat, chunk: nat, p: nat)
    requires chunk > 0 && p < total
    ensures var i := p / chunk;
            && i < Ceiling(total, chunk) && i * chunk <= p < Min(total, (i + 1) * chunk)
            && (forall j: nat :: j * chunk <= p < Min(total, (j + 1) * chunk) ==> j == i)
  {
    hide Ceiling;
    var i := p / chunk;
    assert p == i * chunk + p % chunk;
    assert (i + 1) * chunk == i * chunk + chunk;
    CeilingStep(total, chunk, i);
    forall j: nat | j * chunk <= p < Min(total, (j + 1) * chunk) ensures j == i {
      if j < i {
        Scale(j + 1, i, chunk);
      } else if j > i {
        Scale(i + 1, j, chunk);
      }
    }
  }

  // ----- the retry

  /** Rounded down. */
  function Milliseconds(seconds: real): (r: int)
    ensures r as real <= seconds * 1000.0 < r as real + 1.0
  {
    (seconds * 1000.0).Floor
  }

  function AtLeastMinimum(seconds: real): real {
    if seconds < MIN_CHUNK_SECONDS then MIN_CHUNK_SECONDS else seconds
  }

  function Halved(seconds: real): real {
    AtLeastMinimum(seconds / 2.0)
  }

  /** Chunk length of attempt `k`. */
  function LengthAt(first: real, k: nat): real {
    if k == 0 then first else Halved(LengthAt(first, k - 1))
  }

  function Attempt(total: nat, seconds: real, overlap: int, maxBytes: nat, encode: Encoder): Plan {
    PlanFor(total, Milliseconds(seconds), overlap, maxBytes, encode)
  }

  predicate TooLarge(plan: Plan) {
    plan.Err? && plan.error.SegmentTooLarge?
  }

  /** The smaller of the requested length and the cap, but not below a minute. */
  function FirstLength(requested: real, cap: real): (r: real)
    ensures requested < 60.0 || cap < 60.0 ==> r == 60.0
    ensures requested >= 60.0 && cap >= 60.0 ==> (r == requested || r == cap) && r <= requested && r <= cap
  {
    AtLeastMinimum(if requested <= cap then requested else cap)
  }

  /** What the retry loop makes of the attempts from `k` on. */
  function Retry(total: nat, first: real, overlap: int, maxBytes: nat, encode: Encoder, k: nat): Plan
    decreases MAX_ATTEMPTS - k
  {
    if k >= MAX_ATTEMPTS then Err(CouldNotFit)
    else
      var plan := Attempt(total, LengthAt(first, k), overlap, maxBytes, encode);
      if TooLarge(plan) then Retry(total, first, overlap, maxBytes, encode, k + 1) else plan
  }

  method SplitAudio(total: nat, requested: real, cap: real, overlap: int, maxBytes: nat, encode: Encoder)
    returns (plan: Plan)
    ensures plan == Retry(total, FirstLength(requested, cap), overlap, maxBytes, encode, 0)
  {
    hide PlanFor, FirstLength, Milliseconds;
    var seconds := FirstLength(requested, cap);
    ghost var first := seconds;
    for attempt := 0 to MAX_ATTEMPTS
      invariant seconds == LengthAt(first, attempt)
      invariant Retry(total, first, overlap, maxBytes, encode, 0)
             == Retry(total, first, overlap, maxBytes, encode, attempt)
    {
      plan := BuildSegmentPlan(total, Milliseconds(seconds), overlap, maxBytes, encode);
      if plan.Ok? {
        return plan;
      }
      if !plan.error.SegmentTooLarge? {
        return plan;
      }
      seconds := Halved(seconds);
    }
    return Err(CouldNotFit);
  }

  /** The result is that of the first attempt that is not too large, when one of the twelve is not. */
  lemma {:induction false} FirstUsableAttempt(total: nat, first: real, overlap: int, maxBytes: nat, encode: Encoder,
                                              k: nat, j: nat)
    requires k <= j <= 12
    requires forall i :: k <= i < j ==> TooLarge(Attempt(total, LengthAt(first, i), overlap, maxBytes, encode))
    requires j < 12 ==> !TooLarge(Attempt(total, LengthAt(first, j), overlap, maxBytes, encode))
    ensures Retry(total, first, overlap, maxBytes, encode, k)
         == if j < 12 then Attempt(total, LengthAt(first, j), overlap, maxBytes, encode) else Err(CouldNotFit)
    decreases j - k
  {
    hide PlanFor, Milliseconds, LengthAt;
    if j <= k {
    } else {
      FirstUsableAttempt(total, first, overlap, maxBytes, encode, k + 1, j);
    }
  }

  /** Tried lengths never increase and never fall below a minute. */
  lemma {:induction false} LengthsFall(first: real, k: nat)
    requires first >= 60.0
    ensures 60.0 <= LengthAt(first, k + 1) <= LengthAt(first, k)
  {
  }

  function PowerOfTwo(k: nat): real { if k == 0 then 1.0 else 2.0 * PowerOfTwo(k - 1) }

  lemma HalfOfQuotient(x: real, p: real)
    requires p > 0.0
    ensures x / p / 2.0 == x / (2.0 * p)
    ensures x / p <= MIN_CHUNK_SECONDS <==> x <= MIN_CHUNK_SECONDS * p
  {
  }

  /** Attempt `k` is down to a minute exactly when the first length was at most `60 * 2^k` seconds. */
  lemma {:induction false} ReachesMinimum(first: real, k: nat)
    requires first >= 60.0
    ensures PowerOfTwo(k) >= 1.0 && LengthAt(first, k) == (if first / PowerOfTwo(k) < 60.0 then 60.0 else first / PowerOfTwo(k))
    ensures LengthAt(first, k) == 60.0 <==> first <= 60.0 * PowerOfTwo(k)
  {
    if k == 0 {
    } else {
      ReachesMinimum(first, k - 1);
      HalfOfQuotient(first, PowerOfTwo(k - 1));
      HalfOfQuotient(first, PowerOfTwo(k));
    }
  }

  predicate Fits(w: Segment, maxBytes: nat, encode: Encoder) {
    encode(w.start, SliceLength(w)).File? && 0 < encode(w.start, SliceLength(w)).bytes <= maxBytes
  }

  lemma {:induction false} NoFailureWhenAllFit(ws: seq<Segment>, maxBytes: nat, encode: Encoder)
    ensures FirstFailure(ws, maxBytes, encode) == None <==> forall i :: 0 <= i < |ws| ==> Fits(ws[i], maxBytes, encode)
  {
    if ws == [] {
    } else {
      NoFailureWhenAllFit(ws[1..], maxBytes, encode);
      if Fits(ws[0], maxBytes, encode) {
        assert forall i :: 1 <= i < |ws| ==> ws[i] == ws[1..][i - 1];
      }
    }
  }

  /** The first segment that does not fit decides which failure it is. */
  lemma {:induction false} FirstFailureDecides(ws: seq<Segment>, maxBytes: nat, encode: Encoder, i: nat)
    requires i < |ws| && (forall j :: 0 <= j < i ==> Fits(ws[j], maxBytes, encode)) && !Fits(ws[i], maxBytes, encode)
    ensures var file := encode(ws[i].start, SliceLength(ws[i]));
            FirstFailure(ws, maxBytes, encode) ==
            Some(if file.Crashed? then EncoderFailed(ws[i].index)
                 else if file.bytes == 0 then EmptySegment(ws[i].index) else SegmentTooLarge(ws[i].index))
  {
    if i == 0 {
    } else {
      assert Fits(ws[0], maxBytes, encode);
      FirstFailureDecides(ws[1..], maxBytes, encode, i - 1);
    }
  }

  /** The encoder makes some file of at most `rate` bytes per millisecond out of every slice it is given. */
  ghost predicate Bounded(encode: Encoder, rate: nat) {
    forall start: nat, length: nat :: length >= 10 ==>
      encode(start, length).File? && 0 < encode(start, length).bytes <= rate * length
  }

  lemma ShortSliceFits(w: Segment, limit: nat, maxBytes: nat, encode: Encoder, rate: nat)
    requires 10 <= limit && w.end - w.start <= limit && Bounded(encode, rate) && rate * limit <= maxBytes
    ensures Fits(w, maxBytes, encode)
  {
    Scale(SliceLength(w), limit, rate);
    assert encode(w.start, SliceLength(w)).bytes <= rate * SliceLength(w);
  }

  lemma ShortChunksFit(total: nat, chunk: nat, overlap: int, maxBytes: nat, encode: Encoder, rate: nat)
    requires total > 0 && chunk >= 10 && Bounded(encode, rate) && rate * (chunk + 2 * Max(0, overlap)) <= maxBytes
    ensures PlanFor(total, chunk, overlap, maxBytes, encode).Ok?
  {
    hide Windows, Fits, Bounded;
    var ws := Windows(total, chunk, overlap, 0, 0);
    SegmentsAreShort(total, chunk, overlap);
    forall i | 0 <= i < |ws| ensures Fits(ws[i], maxBytes, encode) {
      assert IsShort(Windows(total, chunk, overlap, 0, 0)[i], total, chunk, overlap);
      ShortSliceFits(ws[i], chunk + 2 * Max(0, overlap), maxBytes, encode, rate);
    }
    NoFailureWhenAllFit(ws, maxBytes, encode);
  }

  lemma MinuteChunksFit(total: nat, overlap: int, maxBytes: nat, encode: Encoder, rate: nat)
    requires total > 0 && Bounded(encode, rate) && rate * (60000 + 2 * Max(0, overlap)) <= maxBytes
    ensures Attempt(total, MIN_CHUNK_SECONDS, overlap, maxBytes, encode).Ok?
  {
    hide PlanFor;
    assert Milliseconds(MIN_CHUNK_SECONDS) == 60000;
    ShortChunksFit(total, Milliseconds(MIN_CHUNK_SECONDS), overlap, maxBytes, encode, rate);
  }

  lemma BoundedNeverOtherwise(total: nat, seconds: real, overlap: int, maxBytes: nat, encode: Encoder, rate: nat)
    requires total > 0 && Bounded(encode, rate) && seconds >= MIN_CHUNK_SECONDS
    ensures var plan := Attempt(total, seconds, overlap, maxBytes, encode);
            && (plan.Ok? || TooLarge(plan))
            && (plan.Ok? ==> plan.value == Windows(total, Milliseconds(seconds), overlap, 0, 0)
                             && forall i :: 0 <= i < |plan.value| ==> Fits(plan.value[i], maxBytes, encode))
  {
    assert seconds * 1000.0 >= 60000.0;
    var ws := Windows(total, Milliseconds(seconds), overlap, 0, 0);
    NoFailureWhenAllFit(ws, maxBytes, encode);
    OnlyTooLarge(ws, maxBytes, encode, rate);
  }

  lemma {:induction false} OnlyTooLarge(ws: seq<Segment>, maxBytes: nat, encode: Encoder, rate: nat)
    requires Bounded(encode, rate)
    ensures var f := FirstFailure(ws, maxBytes, encode); f.Some? ==> f.value.SegmentTooLarge?
  {
    if ws == [] {
    } else {
      OnlyTooLarge(ws[1..], maxBytes, encode, rate);
    }
  }

  /**
   The retry succeeds when it can: if a one-minute window is sure to fit and eleven halvings reach a
   minute, it ends with a plan in which every segment fits.
   */
  lemma RetrySucceeds(total: nat, first: real, overlap: int, maxBytes: nat, encode: Encoder, rate: nat)
    requires total > 0 && Bounded(encode, rate) && rate * (60000 + 2 * Max(0, overlap)) <= maxBytes
    requires MIN_CHUNK_SECONDS <= first <= MIN_CHUNK_SECONDS * PowerOfTwo(MAX_ATTEMPTS - 1)
    ensures var plan := Retry(total, first, overlap, maxBytes, encode, 0);
            plan.Ok? && forall i :: 0 <= i < |plan.value| ==> Fits(plan.value[i], maxBytes, encode)
  {
    ReachesMinimum(first, MAX_ATTEMPTS - 1);
    MinuteChunksFit(total, overlap, maxBytes, encode, rate);
    RetrySucceedsFrom(total, first, overlap, maxBytes, encode, rate, 0);
  }

  lemma {:induction false} RetrySucceedsFrom(total: nat, first: real, overlap: int, maxBytes: nat, encode: Encoder,
                                             rate: nat, k: nat)
    requires total > 0 && Bounded(encode, rate) && first >= MIN_CHUNK_SECONDS && k < MAX_ATTEMPTS
    requires Attempt(total, LengthAt(first, MAX_ATTEMPTS - 1), overlap, maxBytes, encode).Ok?
    ensures var plan := Retry(total, first, overlap, maxBytes, encode, k);
            plan.Ok? && forall i :: 0 <= i < |plan.value| ==> Fits(plan.value[i], maxBytes, encode)
    decreases MAX_ATTEMPTS - k
  {
    hide Attempt, LengthAt, Bounded, Fits;
    if k > 0 {
      LengthsFall(first, k - 1);
    }
    LengthsStart(first);
    BoundedNeverOtherwise(total, LengthAt(first, k), overlap, maxBytes, encode, rate);
    if k == MAX_ATTEMPTS - 1 {
    } else {
      RetrySucceedsFrom(total, first, overlap, maxBytes, encode, rate, k + 1);
    }
  }

  lemma LengthsStart(first: real)
    ensures LengthAt(first, 0) == first
  {
  }
}
