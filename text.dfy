/** String operations of Python used by the modelled code: `in` on strings,
    slicing with clamped bounds, `str.split` and fixed-width decimal fields. */
module Text {

  /** Python's `pat in s` on two strings. */
  predicate IsSubstring(pat: string, s: string)
    decreases |s|
  {
    (|pat| <= |s| && s[..|pat|] == pat) || (|s| > 0 && IsSubstring(pat, s[1..]))
  }

  /** `pat` occurs in `s` starting at offset `i`. */
  predicate OccursAt(pat: string, s: string, i: int)
  {
    0 <= i <= |s| - |pat| && s[i..i + |pat|] == pat
  }

  lemma SliceOfTail(s: string, i: int, j: int)
    requires 0 <= i <= j < |s|
    ensures s[1..][i..j] == s[i + 1..j + 1]
  {
    assert forall k :: 0 <= k < j - i ==> s[1..][i..j][k] == s[i + 1..j + 1][k];
  }

  /** `IsSubstring` is exactly "occurs at some offset". */
  lemma {:induction false} SubstringOccurs(pat: string, s: string)
    ensures IsSubstring(pat, s) <==> exists i :: OccursAt(pat, s, i)
    decreases |s|
  {
    if IsSubstring(pat, s) {
      if |pat| <= |s| && s[..|pat|] == pat {
        assert OccursAt(pat, s, 0);
      } else {
        SubstringOccurs(pat, s[1..]);
        var i :| OccursAt(pat, s[1..], i);
        SliceOfTail(s, i, i + |pat|);
        assert OccursAt(pat, s, i + 1);
      }
    }
    if exists i :: OccursAt(pat, s, i) {
      var i :| OccursAt(pat, s, i);
      if i == 0 {
        assert s[..|pat|] == s[0..0 + |pat|];
      } else {
        SliceOfTail(s, i - 1, i - 1 + |pat|);
        assert OccursAt(pat, s[1..], i - 1);
        SubstringOccurs(pat, s[1..]);
      }
    }
  }

  /** Python's `s[lo:hi]` for non-negative bounds: both bounds are clamped to the length. */
  function Slice(s: string, lo: nat, hi: nat): (r: string)
    ensures |r| <= |s|
  {
    var a := if lo <= |s| then lo else |s|;
    var b := if hi <= |s| then hi else |s|;
    if a <= b then s[a..b] else ""
  }

  /** Python's `s[:-n]` for n > 0: everything but the last n characters, or "" when s is shorter. */
  function DropLast(s: string, n: nat): (r: string)
  {
    if n <= |s| then s[..|s| - n] else ""
  }

  /** Python's `s.split(c)` with a one-character separator. */
  function Split(s: string, c: char): (parts: seq<string>)
    ensures |parts| >= 1
    decreases |s|
  {
    if |s| == 0 then [""]
    else
      var rest := Split(s[1..], c);
      if s[0] == c then [""] + rest else [[s[0]] + rest[0]] + rest[1..]
  }

  /** `c.join(parts)`, the inverse of `Split`. */
  function Join(parts: seq<string>, c: char): string
    decreases |parts|
  {
    if |parts| == 0 then ""
    else if |parts| == 1 then parts[0]
    else parts[0] + [c] + Join(parts[1..], c)
  }

  lemma {:induction false} JoinSplit(s: string, c: char)
    ensures Join(Split(s, c), c) == s
    decreases |s|
  {
    if |s| > 0 {
      JoinSplit(s[1..], c);
      var rest := Split(s[1..], c);
      assert s == [s[0]] + s[1..];
      if s[0] == c {
        assert Join([""] + rest, c) == "" + [c] + Join(rest, c);
      } else if |rest| == 1 {
        assert Split(s, c) == [[s[0]] + rest[0]];
      } else {
        var parts := Split(s, c);
        assert parts[1..] == rest[1..];
        assert Join(rest, c) == rest[0] + [c] + Join(rest[1..], c);
      }
    }
  }

  lemma {:induction false} SplitPartsFree(s: string, c: char)
    ensures forall k :: 0 <= k < |Split(s, c)| ==> c !in Split(s, c)[k]
    decreases |s|
  {
    if |s| > 0 {
      SplitPartsFree(s[1..], c);
      var rest := Split(s[1..], c);
      if s[0] != c {
        var parts := Split(s, c);
        assert forall k :: 1 <= k < |parts| ==> parts[k] == rest[k];
      }
    }
  }

  lemma {:induction false} SplitCount(s: string, c: char)
    ensures |Split(s, c)| >= 2 <==> c in s
    decreases |s|
  {
    if |s| > 0 {
      SplitCount(s[1..], c);
      assert s == [s[0]] + s[1..];
      assert c in s <==> s[0] == c || c in s[1..];
    }
  }

  /** Splitting and joining again gives back the string, no part holds the separator,
      and there is more than one part exactly when the separator occurs. */
  lemma SplitJoin(s: string, c: char)
    ensures Join(Split(s, c), c) == s
    ensures forall k :: 0 <= k < |Split(s, c)| ==> c !in Split(s, c)[k]
    ensures |Split(s, c)| >= 2 <==> c in s
  {
    JoinSplit(s, c);
    SplitPartsFree(s, c);
    SplitCount(s, c);
  }

  /** A string without the separator is a single part. */
  lemma {:induction false} SplitNoSeparator(s: string, c: char)
    requires c !in s
    ensures Split(s, c) == [s]
    decreases |s|
  {
    if |s| > 0 {
      assert c !in s[1..];
      SplitNoSeparator(s[1..], c);
      assert [s[0]] + s[1..] == s;
    }
  }

  /** The first part is the text before the first separator; the rest is the split of what follows it. */
  lemma {:induction false} SplitFirst(a: string, c: char, rest: string)
    requires c !in a
    ensures Split(a + [c] + rest, c) == [a] + Split(rest, c)
    decreases |a|
  {
    if |a| == 0 {
      assert a + [c] + rest == [c] + rest && ([c] + rest)[1..] == rest;
    } else {
      var s := a + [c] + rest;
      assert s[0] == a[0] && s[1..] == a[1..] + [c] + rest;
      assert c !in a[1..];
      SplitFirst(a[1..], c, rest);
      assert [a[0]] + a[1..] == a;
    }
  }

  predicate IsDigit(ch: char) { '0' <= ch <= '9' }

  predicate AllDigits(s: string) { forall i :: 0 <= i < |s| ==> IsDigit(s[i]) }

  function DigitChar(d: nat): (ch: char)
    requires d < 10
    ensures IsDigit(ch)
  {
    (('0' as int) + d) as char
  }

  function DigitValue(ch: char): (d: nat)
    requires IsDigit(ch)
    ensures d < 10 && DigitChar(d) == ch
  {
    (ch as int) - ('0' as int)
  }

  /** The value of a string of decimal digits, most significant first. */
  function DecimalValue(s: string): nat
    requires AllDigits(s)
    decreases |s|
  {
    if |s| == 0 then 0 else DecimalValue(s[..|s| - 1]) * 10 + DigitValue(s[|s| - 1])
  }

  /** `%02d`: two digits, zero-padded. */
  function Pad2(n: nat): (r: string)
    requires n < 100
    ensures |r| == 2 && AllDigits(r)
  {
    [DigitChar(n / 10), DigitChar(n % 10)]
  }

  /** `%04d`: four digits, zero-padded. */
  function Pad4(n: nat): (r: string)
    requires n < 10000
    ensures |r| == 4 && AllDigits(r)
  {
    Pad2(n / 100) + Pad2(n % 100)
  }

  lemma Pad2RoundTrip(n: nat)
    requires n < 100
    ensures DecimalValue(Pad2(n)) == n
  {
    var s := Pad2(n);
    assert s[..1] == [DigitChar(n / 10)];
    assert DecimalValue(s[..1]) == DecimalValue(s[..1][..0]) * 10 + n / 10;
  }

  lemma Pad2OfValue(s: string)
    requires |s| == 2 && AllDigits(s)
    ensures DecimalValue(s) < 100 && Pad2(DecimalValue(s)) == s
  {
    var hi, lo := DigitValue(s[0]), DigitValue(s[1]);
    assert s[..1][..0] == "";
    assert DecimalValue(s[..1]) == hi;
    assert DecimalValue(s) == hi * 10 + lo;
    assert (hi * 10 + lo) / 10 == hi && (hi * 10 + lo) % 10 == lo;
  }

  /** Four digits are two two-digit groups. */
  lemma DecimalValue4(s: string)
    requires |s| == 4 && AllDigits(s)
    ensures DecimalValue(s) == DecimalValue(s[..2]) * 100 + DecimalValue(s[2..])
  {
    var a, b, c, d := DigitValue(s[0]), DigitValue(s[1]), DigitValue(s[2]), DigitValue(s[3]);
    assert s[..1][..0] == "" && s[..2][..1] == s[..1] && s[..3][..2] == s[..2] && s[..4] == s && s[..3] == s[..4][..3];
    assert DecimalValue(s[..1]) == a;
    assert DecimalValue(s[..2]) == a * 10 + b;
    assert DecimalValue(s[..3]) == (a * 10 + b) * 10 + c;
    assert DecimalValue(s) == ((a * 10 + b) * 10 + c) * 10 + d;
    var t := s[2..];
    assert t[..1][..0] == "" && t[..1] == [s[2]] && t[..2] == t;
    assert DecimalValue(t[..1]) == c;
    assert DecimalValue(t) == c * 10 + d;
  }

  lemma Pad4RoundTrip(n: nat)
    requires n < 10000
    ensures DecimalValue(Pad4(n)) == n
  {
    var s := Pad4(n);
    assert s[..2] == Pad2(n / 100) && s[2..] == Pad2(n % 100);
    DecimalValue4(s);
    Pad2RoundTrip(n / 100);
    Pad2RoundTrip(n % 100);
  }

  lemma Pad4OfValue(s: string)
    requires |s| == 4 && AllDigits(s)
    ensures DecimalValue(s) < 10000 && Pad4(DecimalValue(s)) == s
  {
    DecimalValue4(s);
    Pad2OfValue(s[..2]);
    Pad2OfValue(s[2..]);
    var hi, lo := DecimalValue(s[..2]), DecimalValue(s[2..]);
    assert (hi * 100 + lo) / 100 == hi && (hi * 100 + lo) % 100 == lo;
    assert s == s[..2] + s[2..];
  }
}
