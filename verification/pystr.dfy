/**
 * The parts of Python's `str` semantics the ping tools rely on: the `in`
 * operator, `str.index`, slicing with a step of one, and `str()` of an int.
 * Strings are sequences of characters; no encoding is involved.
 */
module PyStr {
  import opened Wrappers

  /** `sub` occurs in `s` starting at position `i`. */
  predicate OccursAt(s: string, sub: string, i: int) {
    0 <= i && i + |sub| <= |s| && s[i..i + |sub|] == sub
  }

  /** Python's `sub in s`. */
  predicate Contains(s: string, sub: string) {
    exists i :: 0 <= i <= |s| - |sub| && OccursAt(s, sub, i)
  }

  /** Scans `s` for `sub` from position `from` onwards. */
  function IndexFrom(s: string, sub: string, from: nat): (r: Option<nat>)
    ensures r.Some? ==> from <= r.value && OccursAt(s, sub, r.value)
    ensures r.Some? ==> forall j :: from <= j < r.value ==> !OccursAt(s, sub, j)
    ensures r.None? ==> forall j :: from <= j ==> !OccursAt(s, sub, j)
    decreases |s| - from
  {
    if from + |sub| > |s| then None
    else if s[from..from + |sub|] == sub then Some(from)
    else IndexFrom(s, sub, from + 1)
  }

  /**
   * Python's `s.index(sub)`: the lowest position at which `sub` occurs.
   * Python raises `ValueError` when there is none; that is `None` here.
   */
  function IndexOf(s: string, sub: string): (r: Option<nat>)
    ensures r.Some? <==> Contains(s, sub)
    ensures r.Some? ==> OccursAt(s, sub, r.value)
    ensures r.Some? ==> forall j :: 0 <= j < r.value ==> !OccursAt(s, sub, j)
  {
    IndexFrom(s, sub, 0)
  }

  /** An occurrence with none before it is the one `IndexOf` reports. */
  lemma FirstOccurrence(s: string, sub: string, i: nat)
    requires OccursAt(s, sub, i)
    requires forall j :: 0 <= j < i ==> !OccursAt(s, sub, j)
    ensures IndexOf(s, sub) == Some(i)
  {
    assert 0 <= i <= |s| - |sub|;
  }

  /** Appending text after the first occurrence does not move it. */
  lemma IndexOfExtend(a: string, b: string, sub: string)
    requires IndexOf(a, sub).Some?
    ensures IndexOf(a + b, sub) == IndexOf(a, sub)
  {
    var i := IndexOf(a, sub).value;
    assert (a + b)[i..i + |sub|] == a[i..i + |sub|];
    forall j | 0 <= j < i
      ensures !OccursAt(a + b, sub, j)
    {
      assert (a + b)[j..j + |sub|] == a[j..j + |sub|];
      assert !OccursAt(a, sub, j);
    }
    FirstOccurrence(a + b, sub, i);
  }

  /** `s` never holds `x` immediately followed by `y`. */
  predicate NoPair(s: string, x: char, y: char) {
    forall i :: 0 <= i < |s| - 1 ==> !(s[i] == x && s[i + 1] == y)
  }

  /** Joining two texts keeps a pair out when it does not form at the seam. */
  lemma NoPairConcat(a: string, b: string, x: char, y: char)
    requires NoPair(a, x, y) && NoPair(b, x, y)
    requires |a| == 0 || |b| == 0 || !(a[|a| - 1] == x && b[0] == y)
    ensures NoPair(a + b, x, y)
  {
    forall i | 0 <= i < |a + b| - 1
      ensures !((a + b)[i] == x && (a + b)[i + 1] == y)
    {
      if i + 1 < |a| {
        assert (a + b)[i] == a[i] && (a + b)[i + 1] == a[i + 1];
      } else if i >= |a| {
        assert (a + b)[i] == b[i - |a|] && (a + b)[i + 1] == b[i - |a| + 1];
      }
    }
  }

  /**
   * Prepending text in which `sub` cannot start (it never shows the first two
   * characters of `sub` side by side, not even across the seam) shifts the first
   * occurrence by the length of that text.
   */
  lemma IndexOfAfter(a: string, b: string, sub: string)
    requires |sub| >= 2
    requires NoPair(a, sub[0], sub[1])
    requires |a| == 0 || |b| == 0 || !(a[|a| - 1] == sub[0] && b[0] == sub[1])
    requires IndexOf(b, sub).Some?
    ensures IndexOf(a + b, sub) == Some(|a| + IndexOf(b, sub).value)
  {
    var k := IndexOf(b, sub).value;
    assert (a + b)[|a| + k..|a| + k + |sub|] == b[k..k + |sub|];
    forall j | 0 <= j < |a| + k
      ensures !OccursAt(a + b, sub, j)
    {
      if j < |a| {
        NoStartInPrefix(a, b, sub, j);
      } else {
        NoStartBefore(a, b, sub, j);
      }
    }
    FirstOccurrence(a + b, sub, |a| + k);
  }

  lemma NoStartBefore(a: string, b: string, sub: string, j: nat)
    requires IndexOf(b, sub).Some?
    requires |a| <= j < |a| + IndexOf(b, sub).value
    ensures !OccursAt(a + b, sub, j)
  {
    assert !OccursAt(b, sub, j - |a|);
    if j + |sub| <= |a + b| {
      assert (a + b)[j..j + |sub|] == b[j - |a|..j - |a| + |sub|];
    }
  }

  lemma NoStartInPrefix(a: string, b: string, sub: string, j: nat)
    requires |sub| >= 2
    requires NoPair(a, sub[0], sub[1])
    requires |a| == 0 || |b| == 0 || !(a[|a| - 1] == sub[0] && b[0] == sub[1])
    requires j < |a|
    ensures !OccursAt(a + b, sub, j)
  {
  }

  /** Python's normalisation of a slice bound for a sequence of length `n`. */
  function SliceBound(i: int, n: nat): (b: nat)
    ensures b <= n
  {
    if i < 0 then (if i + n < 0 then 0 else i + n)
    else if i > n then n
    else i
  }

  /**
   * Python's `s[start:end]`: negative bounds count from the end, bounds are
   * clamped to the string, and an end at or before the start gives "".
   */
  function Slice(s: string, start: int, end: int): (r: string)
    ensures SliceBound(start, |s|) + |r| <= |s|
    ensures forall k :: 0 <= k < |r| ==> r[k] == s[SliceBound(start, |s|) + k]
    ensures 0 <= start <= end <= |s| ==> r == s[start..end]
    ensures 0 <= end <= start ==> r == []
    ensures start == 0 ==> r <= s
    ensures start == 0 && -|s| <= end < 0 ==> r == s[..|s| + end]
    ensures start == 0 && end < -|s| ==> r == []
    ensures start == 0 && end > |s| ==> r == s
  {
    var lo := SliceBound(start, |s|);
    var hi := SliceBound(end, |s|);
    if hi <= lo then [] else s[lo..hi]
  }

  predicate IsDigit(c: char) {
    '0' <= c <= '9'
  }

  function DigitChar(d: nat): (c: char)
    requires d < 10
    ensures IsDigit(c)
  {
    ('0' as int + d) as char
  }

  function DigitValue(c: char): nat
    requires IsDigit(c)
  {
    c as int - '0' as int
  }

  /** The number a non-empty run of decimal digits denotes (as Python's `int()` reads it). */
  function DigitsValue(s: string): nat
    requires forall i :: 0 <= i < |s| ==> IsDigit(s[i])
  {
    if |s| == 0 then 0 else DigitsValue(s[..|s| - 1]) * 10 + DigitValue(s[|s| - 1])
  }

  /** Python's `int()` on a string made of an optional '-' and at least one digit. */
  function ParseInt(s: string): Option<int> {
    if |s| > 0 && s[0] == '-' then
      if |s| > 1 && forall i :: 1 <= i < |s| ==> IsDigit(s[i])
      then Some(-(DigitsValue(s[1..]) as int)) else None
    else if |s| > 0 && forall i :: 0 <= i < |s| ==> IsDigit(s[i])
    then Some(DigitsValue(s))
    else None
  }

  /** The decimal digits of `n`, most significant first, without leading zeros. */
  function NatStr(n: nat): (r: string)
    ensures |r| >= 1
    ensures forall i :: 0 <= i < |r| ==> IsDigit(r[i])
    ensures r[0] == '0' ==> r == "0"
    ensures DigitsValue(r) == n
  {
    if n < 10 then [DigitChar(n)]
    else
      var r := NatStr(n / 10) + [DigitChar(n % 10)];
      assert r[..|r| - 1] == NatStr(n / 10);
      r
  }

  /** Python's `str(n)` (and `"%s" % n`) for an int. */
  function Str(n: int): (r: string)
    ensures |r| >= 1
    ensures r[0] == '-' <==> n < 0
    ensures ParseInt(r) == Some(n)
    ensures n >= 0 ==> (r[0] == '0' ==> r == "0")
    ensures n < 0 ==> |r| >= 2 && r[1] != '0'
  {
    if n < 0 then
      var r := "-" + NatStr(-n);
      assert r[1..] == NatStr(-n);
      r
    else NatStr(n)
  }
}
