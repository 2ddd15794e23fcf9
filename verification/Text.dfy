/** Characters, trimming and searching, as Python's `str` does them. */
module Text {

  function Min(a: int, b: int): int { if a <= b then a else b }

  function Max(a: int, b: int): int { if a <= b then b else a }

  /** The whitespace that `str.strip()` and `str.isspace()` know about. */
  predicate IsSpace(c: char) {
    var k := c as int;
    || 0x09 <= k <= 0x0D || 0x1C <= k <= 0x20 || k == 0x85 || k == 0xA0 || k == 0x1680
    || 0x2000 <= k <= 0x200A || k == 0x2028 || k == 0x2029 || k == 0x202F || k == 0x205F || k == 0x3000
  }

  predicate Blank(t: string, a: nat, b: nat)
    requires a <= b <= |t|
  {
    forall p {:trigger IsSpace(t[p])} :: a <= p < b ==> IsSpace(t[p])
  }

  /** Position of the first visible character of `t[a..b]`, or `b`. */
  function LeadEnd(t: string, a: nat, b: nat): (i: nat)
    requires a <= b <= |t|
    ensures a <= i <= b && Blank(t, a, i)
    ensures i < b ==> !IsSpace(t[i])
    decreases b - a
  {
    if a < b && IsSpace(t[a]) then LeadEnd(t, a + 1, b) else a
  }

  /** Position just after the last visible character of `t[a..b]`, or `a`. */
  function TailStart(t: string, a: nat, b: nat): (j: nat)
    requires a <= b <= |t|
    ensures a <= j <= b && Blank(t, j, b)
    ensures a < j ==> !IsSpace(t[j - 1])
    decreases b - a
  {
    if a < b && IsSpace(t[b - 1]) then TailStart(t, a, b - 1) else b
  }

  /** `t[a..b].strip()`. */
  function StripRange(t: string, a: nat, b: nat): string
    requires a <= b <= |t|
  {
    var i := LeadEnd(t, a, b);
    t[i..TailStart(t, i, b)]
  }

  /** `t.strip()`. */
  function Strip(t: string): string {
    StripRange(t, 0, |t|)
  }

  /** A text that `strip()` would leave alone. */
  predicate Stripped(t: string) {
    t != [] ==> !IsSpace(t[0]) && !IsSpace(t[|t| - 1])
  }

  lemma StripYieldsStripped(t: string)
    ensures Stripped(Strip(t))
    ensures Strip(t) == [] <==> Blank(t, 0, |t|)
  {
  }

  lemma StripKeepsStripped(t: string)
    requires Stripped(t)
    ensures Strip(t) == t
  {
  }

  /** `segment.rfind(c)`. */
  function RFind(segment: string, c: char): (r: int)
    ensures -1 <= r < |segment|
    ensures r >= 0 ==> segment[r] == c
  {
    if segment == [] then -1
    else if segment[|segment| - 1] == c then |segment| - 1
    else RFind(segment[..|segment| - 1], c)
  }

  /** Python's `a < b` on strings. */
  predicate LexLess(a: string, b: string) {
    b != [] && (a == [] || a[0] < b[0] || (a[0] == b[0] && LexLess(a[1..], b[1..])))
  }

  /** It is decided by the first difference, and a beginning is smaller than the whole. */
  lemma {:induction false} LexExactly(a: string, b: string)
    ensures LexLess(a, b) <==> a < b || exists i :: 0 <= i < |a| && i < |b| && a[..i] == b[..i] && a[i] < b[i]
  {
    if a == [] || b == [] {
    } else {
      LexExactly(a[1..], b[1..]);
      assert a == [a[0]] + a[1..] && b == [b[0]] + b[1..];
      if LexLess(a, b) && a[0] == b[0] && !(a[1..] < b[1..]) {
        var i :| 0 <= i < |a[1..]| && i < |b[1..]| && a[1..][..i] == b[1..][..i] && a[1..][i] < b[1..][i];
        assert a[..i + 1] == [a[0]] + a[1..][..i] && b[..i + 1] == [b[0]] + b[1..][..i];
        assert a[i + 1] < b[i + 1];
      }
      if i :| 0 <= i < |a| && i < |b| && a[..i] == b[..i] && a[i] < b[i] {
        if i > 0 {
          assert a[0] == a[..i][0] == b[..i][0] == b[0];
          assert a[1..][..i - 1] == a[..i][1..] && b[1..][..i - 1] == b[..i][1..];
          assert a[1..][i - 1] < b[1..][i - 1];
        }
      }
    }
  }

  lemma {:induction false} LexTotal(a: string, b: string)
    ensures LexLess(a, b) ==> !LexLess(b, a)
    ensures a != b ==> LexLess(a, b) || LexLess(b, a)
  {
    if a == [] || b == [] {
    } else {
      LexTotal(a[1..], b[1..]);
      assert a == [a[0]] + a[1..] && b == [b[0]] + b[1..];
    }
  }

  lemma {:induction false} LexTransitive(a: string, b: string, c: string)
    ensures !LexLess(b, a) && !LexLess(c, b) ==> !LexLess(c, a)
  {
    if a == [] || b == [] || c == [] {
    } else {
      LexTransitive(a[1..], b[1..], c[1..]);
    }
  }
}
