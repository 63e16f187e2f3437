/** Text utilities shared by the engine side and the training client: bytes,
    Python's notion of whitespace, `strip`, ASCII lower-casing, splitting and
    joining on a separator character, and decimal rendering of integers. */
module Text {
  import opened Maybe

  newtype byte = b: int | 0 <= b < 256

  /** True when every character is 7-bit ASCII. */
  predicate IsAscii(s: string) {
    forall i :: 0 <= i < |s| ==> (s[i] as int) < 128
  }

  // ---------------------------------------------------------------------
  // Whitespace and strip

  /** Python's `str.isspace` for one character: the ASCII controls TAB..CR and
      FS..US, the space, and the Unicode separators Python treats as space. */
  predicate IsSpace(c: char) {
    || ('\t' <= c <= '\r')
    || ('\U{1C}' <= c <= '\U{1F}')
    || c == ' '
    || c == '\U{85}'
    || c == '\U{A0}'
    || c == '\U{1680}'
    || ('\U{2000}' <= c <= '\U{200A}')
    || c == '\U{2028}'
    || c == '\U{2029}'
    || c == '\U{202F}'
    || c == '\U{205F}'
    || c == '\U{3000}'
  }

  predicate AllSpace(s: string) {
    forall i :: 0 <= i < |s| ==> IsSpace(s[i])
  }

  /** True when `s` neither starts nor ends with whitespace. */
  predicate Trimmed(s: string) {
    |s| == 0 || (!IsSpace(s[0]) && !IsSpace(s[|s| - 1]))
  }

  /** Python's `str.strip()` with no argument: drops whitespace from both ends. */
  function Strip(s: string): (r: string)
    ensures Trimmed(r)
    ensures |r| <= |s|
    decreases |s|
  {
    if |s| > 0 && IsSpace(s[0]) then Strip(s[1..])
    else if |s| > 0 && IsSpace(s[|s| - 1]) then Strip(s[..|s| - 1])
    else s
  }

  /** Strip leaves a text with no whitespace at its ends as it is. */
  lemma StripTrimmed(t: string)
    requires Trimmed(t)
    ensures Strip(t) == t
  {
  }

  /** How many leading characters strip drops. */
  function StripOffset(s: string): nat
    decreases |s|
  {
    if |s| > 0 && IsSpace(s[0]) then 1 + StripOffset(s[1..])
    else if |s| > 0 && IsSpace(s[|s| - 1]) then StripOffset(s[..|s| - 1])
    else 0
  }

  /** `r` sits in `s` at offset `k` with only whitespace before and after it. */
  predicate PaddedSlice(s: string, k: nat, r: string) {
    && k + |r| <= |s|
    && s[k..k + |r|] == r
    && AllSpace(s[..k])
    && AllSpace(s[k + |r|..])
  }

  lemma PaddedSliceFront(s: string, k: nat, r: string)
    requires |s| > 0 && IsSpace(s[0]) && PaddedSlice(s[1..], k, r)
    ensures PaddedSlice(s, k + 1, r)
  {
    var q := s[1..];
    assert s[k + 1..k + 1 + |r|] == q[k..k + |r|];
    assert s[..k + 1] == [s[0]] + q[..k];
    assert s[k + 1 + |r|..] == q[k + |r|..];
  }

  lemma PaddedSliceBack(s: string, k: nat, r: string)
    requires |s| > 0 && IsSpace(s[|s| - 1]) && PaddedSlice(s[..|s| - 1], k, r)
    ensures PaddedSlice(s, k, r)
  {
    var p := s[..|s| - 1];
    assert s[k..k + |r|] == p[k..k + |r|];
    assert s[..k] == p[..k];
    assert s[k + |r|..] == p[k + |r|..] + [s[|s| - 1]];
  }

  /** What strip keeps is the slice of its input that starts at the offset,
      with only whitespace before and after it. */
  lemma {:induction false} StripIsPaddedSlice(s: string)
    ensures PaddedSlice(s, StripOffset(s), Strip(s))
    decreases |s|
  {
    if |s| > 0 && IsSpace(s[0]) {
      StripIsPaddedSlice(s[1..]);
      PaddedSliceFront(s, StripOffset(s[1..]), Strip(s[1..]));
    } else if |s| > 0 && IsSpace(s[|s| - 1]) {
      StripIsPaddedSlice(s[..|s| - 1]);
      PaddedSliceBack(s, StripOffset(s[..|s| - 1]), Strip(s[..|s| - 1]));
    } else {
      assert s[0..0 + |s|] == s;
    }
  }

  lemma {:induction false} StripLeading(w: string, t: string)
    requires AllSpace(w) && Trimmed(t)
    ensures Strip(w + t) == t
    decreases |w|
  {
    if |w| == 0 {
      assert w + t == t;
      if |t| > 0 {
        assert !IsSpace(t[0]) && !IsSpace(t[|t| - 1]);
      }
    } else {
      assert (w + t)[0] == w[0];
      assert (w + t)[1..] == w[1..] + t;
      StripLeading(w[1..], t);
    }
  }

  lemma {:induction false} StripTrailing(w: string, t: string)
    requires AllSpace(w) && Trimmed(t)
    ensures Strip(t + w) == t
    decreases |w|
  {
    if |w| == 0 {
      assert t + w == t;
    } else if |t| == 0 {
      assert t + w == w;
      StripLeading(w, t);
      assert w + t == w;
    } else {
      var s := t + w;
      assert s[0] == t[0];
      assert s[|s| - 1] == w[|w| - 1];
      assert s[..|s| - 1] == t + w[..|w| - 1];
      StripTrailing(w[..|w| - 1], t);
    }
  }

  /** Strip removes exactly the whitespace padding around a trimmed text. */
  lemma {:induction false} StripPadded(w1: string, t: string, w2: string)
    requires AllSpace(w1) && AllSpace(w2) && Trimmed(t)
    ensures Strip(w1 + t + w2) == t
    decreases |w1|
  {
    if |w1| == 0 {
      assert w1 + t + w2 == t + w2;
      StripTrailing(w2, t);
    } else if |t| == 0 && |w2| > 0 {
      assert w1 + t + w2 == w1 + w2;
      assert AllSpace(w1 + w2);
      StripLeading(w1 + w2, t);
      assert w1 + w2 + t == w1 + w2;
    } else {
      var s := w1 + t + w2;
      assert s[0] == w1[0];
      assert s[1..] == w1[1..] + t + w2;
      StripPadded(w1[1..], t, w2);
    }
  }

  // ---------------------------------------------------------------------
  // Lower-casing

  function LowerChar(c: char): char {
    if 'A' <= c <= 'Z' then (c as int + 32) as char else c
  }

  /** ASCII lower-casing, character by character. */
  function Lower(s: string): (r: string)
    ensures |r| == |s|
    ensures forall i :: 0 <= i < |s| ==> r[i] == LowerChar(s[i])
  {
    seq(|s|, i requires 0 <= i < |s| => LowerChar(s[i]))
  }

  // ---------------------------------------------------------------------
  // Split and join on one separator character

  /** The fields joined with `sep` between neighbours (Python's `sep.join`). */
  function Join(fields: seq<string>, sep: char): string
  {
    if |fields| == 0 then ""
    else if |fields| == 1 then fields[0]
    else fields[0] + [sep] + Join(fields[1..], sep)
  }

  /** True when no field contains the separator. */
  predicate FreeOf(fields: seq<string>, sep: char) {
    forall i :: 0 <= i < |fields| ==> sep !in fields[i]
  }

  /** Python's `s.split(sep)` for a one-character separator: there is always
      at least one field, no field contains the separator, and joining the
      fields back gives `s`. */
  function Split(s: string, sep: char): (r: seq<string>)
    ensures |r| >= 1
    ensures FreeOf(r, sep)
    ensures Join(r, sep) == s
    decreases |s|
  {
    if |s| == 0 then [""]
    else
      var rest := Split(s[1..], sep);
      if s[0] == sep then
        var r := [""] + rest;
        assert r[1..] == rest;
        assert Join(r, sep) == "" + [sep] + Join(rest, sep);
        assert [sep] + s[1..] == s;
        r
      else
        var r := [[s[0]] + rest[0]] + rest[1..];
        assert forall i :: 1 <= i < |r| ==> r[i] == rest[i];
        assert |rest| > 1 ==> Join(rest, sep) == rest[0] + [sep] + Join(rest[1..], sep);
        assert |r| > 1 ==> r[1..] == rest[1..];
        assert [s[0]] + s[1..] == s;
        r
  }

  /** A separator-free field followed by the separator is recognisable: two
      such decompositions of one string agree. */
  lemma FirstFieldUnique(x: string, p: string, y: string, q: string, sep: char)
    requires sep !in x && sep !in y
    requires x + [sep] + p == y + [sep] + q
    ensures x == y && p == q
  {
    var s := x + [sep] + p;
    assert s[|x|] == sep && s[|y|] == sep;
    assert forall i :: 0 <= i < |x| ==> s[i] == x[i] != sep;
    assert forall i :: 0 <= i < |y| ==> s[i] == y[i] != sep;
    assert |x| == |y|;
    assert x == s[..|x|] == y;
    assert p == s[|x| + 1..] == q;
  }

  lemma {:induction false} JoinInjective(a: seq<string>, b: seq<string>, sep: char)
    requires |a| >= 1 && |b| >= 1
    requires FreeOf(a, sep) && FreeOf(b, sep)
    requires Join(a, sep) == Join(b, sep)
    ensures a == b
    decreases |a|
  {
    if |a| == 1 && |b| == 1 {
    } else if |a| == 1 {
      assert false;
    } else if |b| == 1 {
      assert false;
    } else {
      FirstFieldUnique(a[0], Join(a[1..], sep), b[0], Join(b[1..], sep), sep);
      assert FreeOf(a[1..], sep) && FreeOf(b[1..], sep);
      JoinInjective(a[1..], b[1..], sep);
      assert a == [a[0]] + a[1..];
      assert b == [b[0]] + b[1..];
    }
  }

  /** Splitting undoes joining whenever no field holds the separator. */
  lemma SplitJoin(fields: seq<string>, sep: char)
    requires |fields| >= 1 && FreeOf(fields, sep)
    ensures Split(Join(fields, sep), sep) == fields
  {
    JoinInjective(Split(Join(fields, sep), sep), fields, sep);
  }

  /** Separator-free fields joined by `sep` hold exactly one separator
      between each pair of neighbours. */
  lemma {:induction false} JoinSeparatorCount(fields: seq<string>, sep: char)
    requires |fields| >= 1 && FreeOf(fields, sep)
    ensures multiset(Join(fields, sep))[sep] == |fields| - 1
    decreases |fields|
  {
    if |fields| > 1 {
      var rest := fields[1..];
      assert FreeOf(rest, sep) by {
        assert forall i :: 0 <= i < |rest| ==> rest[i] == fields[i + 1];
      }
      JoinSeparatorCount(rest, sep);
      assert multiset(fields[0] + [sep] + Join(rest, sep))
             == multiset(fields[0]) + multiset([sep]) + multiset(Join(rest, sep));
    }
  }

  /** Python's `split` gives one field more than the text has separators. */
  lemma SplitSeparatorCount(s: string, sep: char)
    ensures multiset(s)[sep] == |Split(s, sep)| - 1
  {
    JoinSeparatorCount(Split(s, sep), sep);
  }

  lemma AsciiConcat(a: string, b: string)
    requires IsAscii(a) && IsAscii(b)
    ensures IsAscii(a + b)
  {
    assert forall i :: |a| <= i < |a + b| ==> (a + b)[i] == b[i - |a|];
  }

  /** ASCII fields joined by an ASCII separator give ASCII text. */
  lemma {:induction false} JoinAscii(fields: seq<string>, sep: char)
    requires forall i :: 0 <= i < |fields| ==> IsAscii(fields[i])
    requires (sep as int) < 128
    ensures IsAscii(Join(fields, sep))
    decreases |fields|
  {
    if |fields| > 1 {
      var rest := fields[1..];
      assert forall i :: 0 <= i < |rest| ==> rest[i] == fields[i + 1];
      JoinAscii(rest, sep);
      AsciiConcat(fields[0], [sep]);
      AsciiConcat(fields[0] + [sep], Join(rest, sep));
    }
  }

  // ---------------------------------------------------------------------
  // Decimal text of integers

  predicate IsDigit(c: char) { '0' <= c <= '9' }

  predicate AllDigits(s: string) {
    forall i :: 0 <= i < |s| ==> IsDigit(s[i])
  }

  function DigitChar(d: nat): (c: char)
    requires d < 10
    ensures IsDigit(c) && (c as int) - ('0' as int) == d
  {
    (('0' as int) + d) as char
  }

  /** The decimal digits of `n`, most significant first, without leading zeros. */
  function Digits(n: nat): (r: string)
    ensures |r| >= 1 && AllDigits(r)
    decreases n
  {
    if n < 10 then [DigitChar(n)] else Digits(n / 10) + [DigitChar(n % 10)]
  }

  /** Decimal text of an integer: an optional minus sign, then the digits. */
  function NumText(n: int): (r: string)
    ensures |r| >= 1
    ensures ',' !in r
    ensures IsAscii(r)
  {
    var d := if n < 0 then Digits(-n) else Digits(n);
    assert forall i :: 0 <= i < |d| ==> d[i] != ',' && (d[i] as int) < 128;
    if n < 0 then "-" + d else d
  }

  /** The value of a non-empty digit string. */
  function DigitsValue(s: string): nat
    requires |s| >= 1 && AllDigits(s)
    decreases |s|
  {
    var last := (s[|s| - 1] as int) - ('0' as int);
    if |s| == 1 then last else DigitsValue(s[..|s| - 1]) * 10 + last
  }

  /** Reads an optional minus sign followed by at least one decimal digit. */
  function ParseDecimal(s: string): (r: Option<int>)
    ensures r.Some? ==> |s| >= 1
  {
    if |s| >= 2 && s[0] == '-' && AllDigits(s[1..]) then Some(0 - DigitsValue(s[1..]) as int)
    else if |s| >= 1 && AllDigits(s) then Some(DigitsValue(s))
    else None
  }

  lemma {:induction false} DigitsRoundTrip(n: nat)
    ensures DigitsValue(Digits(n)) == n
    decreases n
  {
    if n >= 10 {
      var d := Digits(n);
      assert d[..|d| - 1] == Digits(n / 10);
      DigitsRoundTrip(n / 10);
    }
  }

  /** Reading back the decimal text of any integer gives that integer. */
  lemma NumTextRoundTrip(n: int)
    ensures ParseDecimal(NumText(n)) == Some(n)
  {
    if n < 0 {
      var d := Digits(-n);
      assert NumText(n)[1..] == d;
      DigitsRoundTrip(-n);
    } else {
      DigitsRoundTrip(n);
      assert NumText(n)[0] != '-';
    }
  }
}
