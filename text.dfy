/** The string building blocks Go's formatting offers the core: `strings.Join`,
    the `%d` rendering of an integer, and their inverses (splitting on the
    separator, reading a decimal back). */
module Text {
  import opened Substring

  /** `strings.Join`: the parts with `sep` between consecutive ones. */
  function Join(parts: seq<string>, sep: string): string
  {
    if |parts| == 0 then ""
    else if |parts| == 1 then parts[0]
    else parts[0] + sep + Join(parts[1..], sep)
  }

  lemma {:induction false} JoinSnoc(parts: seq<string>, x: string, sep: string)
    requires |parts| > 0
    ensures Join(parts + [x], sep) == Join(parts, sep) + sep + x
  {
    if |parts| == 1 {
      assert (parts + [x])[1..] == [x];
    } else {
      assert (parts + [x])[1..] == parts[1..] + [x];
      JoinSnoc(parts[1..], x, sep);
    }
  }

  /** Where part `k` starts inside `Join(parts, sep)`. */
  function PartOffset(parts: seq<string>, sep: string, k: nat): nat
    requires k < |parts|
  {
    if k == 0 then 0 else |parts[0]| + |sep| + PartOffset(parts[1..], sep, k - 1)
  }

  /** Every part occurs in the joined string, at its offset. */
  lemma {:induction false} JoinPartAt(parts: seq<string>, sep: string, k: nat)
    requires k < |parts|
    ensures OccursAt(Join(parts, sep), parts[k], PartOffset(parts, sep, k))
  {
    var s := Join(parts, sep);
    if |parts| == 1 {
    } else if k == 0 {
      assert s == parts[0] + (sep + Join(parts[1..], sep));
      assert s[..|parts[0]|] == parts[0];
    } else {
      var head := parts[0] + sep;
      var tail := Join(parts[1..], sep);
      var i := PartOffset(parts[1..], sep, k - 1);
      JoinPartAt(parts[1..], sep, k - 1);
      assert s == head + tail;
      assert s[|head| + i..|head| + i + |parts[k]|] == tail[i..i + |parts[k]|];
    }
  }

  /** Parts appear in the joined string in their own order. */
  lemma {:induction false} PartOffsetsIncrease(parts: seq<string>, sep: string, k: nat)
    requires k + 1 < |parts|
    ensures PartOffset(parts, sep, k + 1) == PartOffset(parts, sep, k) + |parts[k]| + |sep|
  {
    if k > 0 {
      PartOffsetsIncrease(parts[1..], sep, k - 1);
    }
  }

  /** A prefix of an occurrence is an occurrence at the same place. */
  lemma PrefixOccurs(str: string, p: string, q: string, i: int)
    requires OccursAt(str, p + q, i)
    ensures OccursAt(str, p, i)
  {
    assert str[i..i + |p|] == (p + q)[..|p|];
  }

  /** An occurrence inside `t` is an occurrence inside `p + t`, shifted by `|p|`. */
  lemma ShiftOccurs(p: string, t: string, sub: string, i: int)
    requires OccursAt(t, sub, i)
    ensures OccursAt(p + t, sub, |p| + i)
  {
    assert (p + t)[|p| + i..|p| + i + |sub|] == t[i..i + |sub|];
  }

  /** The inverse of `Join`: cut at every leftmost occurrence of `sep`. */
  function Split(s: string, sep: string): seq<string>
    requires |sep| > 0
    decreases |s|
  {
    LeftmostIsFirst(s, sep);
    var i := Leftmost(s, sep);
    if i == -1 then [s] else [s[..i]] + Split(s[i + |sep|..], sep)
  }

  /** A string without the separator's first character holds no separator. */
  lemma NoSeparator(p: string, sep: string)
    requires |sep| > 0 && sep[0] !in p
    ensures Leftmost(p, sep) == -1
  {
    forall j ensures !OccursAt(p, sep, j) {
      if 0 <= j && j + |sep| <= |p| {
        assert p[j..j + |sep|][0] == p[j];
      }
    }
    LeftmostIsFirst(p, sep);
  }

  /** Behind a separator-free prefix, the first separator is the one placed there. */
  lemma FirstSeparator(p: string, sep: string, t: string)
    requires |sep| > 0 && sep[0] !in p
    ensures Leftmost(p + sep + t, sep) == |p|
  {
    var s := p + sep + t;
    assert s[|p|..|p| + |sep|] == sep;
    assert OccursAt(s, sep, |p|);
    forall j | 0 <= j < |p| ensures !OccursAt(s, sep, j) {
      if j + |sep| <= |s| {
        assert s[j..j + |sep|][0] == s[j] == p[j];
      }
    }
    LeftmostIsFirst(s, sep);
  }

  /** Splitting behind a separator-free first part cuts that part off. */
  lemma SplitCutsFirstPart(p: string, sep: string, t: string)
    requires |sep| > 0 && sep[0] !in p
    ensures Split(p + sep + t, sep) == [p] + Split(t, sep)
  {
    var s := p + sep + t;
    FirstSeparator(p, sep, t);
    assert s[..|p|] == p;
    assert s[|p| + |sep|..] == t;
  }

  /** `Split` undoes `Join` on a non-empty list whose parts avoid the
      separator's first character. */
  lemma {:induction false} SplitJoin(parts: seq<string>, sep: string)
    requires |parts| > 0 && |sep| > 0
    requires forall k :: 0 <= k < |parts| ==> sep[0] !in parts[k]
    ensures Split(Join(parts, sep), sep) == parts
  {
    if |parts| == 1 {
      NoSeparator(parts[0], sep);
    } else {
      SplitCutsFirstPart(parts[0], sep, Join(parts[1..], sep));
      SplitJoin(parts[1..], sep);
      assert parts == [parts[0]] + parts[1..];
    }
  }

  predicate IsDigit(c: char)
  {
    '0' <= c <= '9'
  }

  function DigitChar(d: nat): (c: char)
    requires d < 10
    ensures IsDigit(c)
  {
    ('0' as int + d) as char
  }

  function DigitValue(c: char): nat
  {
    if IsDigit(c) then c as int - '0' as int else 0
  }

  /** The decimal digits of `n`, without leading zeros. */
  function Digits(n: nat): string
  {
    if n < 10 then [DigitChar(n)] else Digits(n / 10) + [DigitChar(n % 10)]
  }

  /** Go's `%d`: the digits, with a leading '-' for a negative number. */
  function Decimal(n: int): string
  {
    if n < 0 then "-" + Digits(-n) else Digits(n)
  }

  /** The number a string of decimal digits denotes. */
  function DigitsValue(s: string): nat
  {
    if |s| == 0 then 0 else DigitsValue(s[..|s| - 1]) * 10 + DigitValue(s[|s| - 1])
  }

  /** Reads back what `Decimal` writes. */
  function ParseDecimal(s: string): int
  {
    if |s| > 0 && s[0] == '-' then -(DigitsValue(s[1..]) as int) else DigitsValue(s)
  }

  lemma {:induction false} DigitsRoundTrip(n: nat)
    ensures |Digits(n)| > 0
    ensures forall i :: 0 <= i < |Digits(n)| ==> IsDigit(Digits(n)[i])
    ensures DigitsValue(Digits(n)) == n
  {
    if n >= 10 {
      DigitsRoundTrip(n / 10);
      var s := Digits(n);
      assert s[..|s| - 1] == Digits(n / 10);
    }
  }

  /** `%d` round-trips: parsing the rendering gives the number back, a
      negative number and only a negative one starts with '-', and no
      character other than a digit or that sign is written. */
  lemma DecimalRoundTrip(n: int)
    ensures ParseDecimal(Decimal(n)) == n
    ensures |Decimal(n)| > 0 && (Decimal(n)[0] == '-' <==> n < 0)
    ensures forall i :: 0 <= i < |Decimal(n)| ==> IsDigit(Decimal(n)[i]) || (i == 0 && n < 0)
  {
    if n < 0 {
      DigitsRoundTrip(-n);
      assert Decimal(n)[1..] == Digits(-n);
    } else {
      DigitsRoundTrip(n);
    }
  }

  /** The prefix of `s` before the first `c` (all of `s` if there is none). */
  function Before(s: string, c: char): string
  {
    if |s| == 0 || s[0] == c then "" else [s[0]] + Before(s[1..], c)
  }

  lemma {:induction false} BeforeMarker(a: string, b: string, c: char)
    requires c !in a && |b| > 0 && b[0] == c
    ensures Before(a + b, c) == a
  {
    if |a| > 0 {
      assert (a + b)[1..] == a[1..] + b;
      BeforeMarker(a[1..], b, c);
    } else {
      assert a + b == b;
    }
  }
}
