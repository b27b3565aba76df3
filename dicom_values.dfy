/** How the server scripts turn the Window Center (0028,1050) and Window
    Width (0028,1051) element values into a lookup-table range: keep the
    first of the backslash-separated values (`split("\\")[0]`), convert it
    with Python's `int()`, and centre a range of the window's width on the
    level. A value `int()` rejects (a decimal string such as "40.5", an
    empty value) raises ValueError in the source; here it is `None`. */
module DicomValues {
  import opened Wrappers
  import opened WindowLevel

  /** The value delimiter of a multi-valued DICOM string element. */
  const Backslash: char := '\\'

  /** `text.split("\\")[0]`: everything before the first backslash. */
  function FirstValue(text: string): (first: string)
    ensures first <= text
    ensures Backslash !in first
    ensures |first| < |text| ==> text[|first|] == Backslash
  {
    if text == [] || text[0] == Backslash then [] else [text[0]] + FirstValue(text[1..])
  }

  /** Only the first of several values is kept, whatever follows it. */
  lemma {:induction false} FirstValueOfMultiValued(first: string, rest: string)
    requires Backslash !in first
    ensures FirstValue(first + [Backslash] + rest) == first
  {
    var text := first + [Backslash] + rest;
    if first != [] {
      assert text[1..] == first[1..] + [Backslash] + rest;
      FirstValueOfMultiValued(first[1..], rest);
    }
  }

  /** A single-valued element is kept whole. */
  lemma {:induction false} FirstValueOfSingleValued(text: string)
    requires Backslash !in text
    ensures FirstValue(text) == text
  {
    if text != [] {
      FirstValueOfSingleValued(text[1..]);
    }
  }

  // ---------------------------------------------------------------------
  // Python's int() on a str, base 10

  /** The white space `int()` skips at both ends of its argument: ASCII
      tab to carriage return and space, and the non-ASCII characters
      `str.isspace()` accepts, which `int()` turns into spaces first. The
      information separators U+001C to U+001F pass `str.isspace()` but
      are not skipped by `int()`. */
  predicate IsPySpace(c: char)
  {
    c == ' ' || ('\t' <= c <= '\r') ||
    c == '\U{85}' || c == '\U{a0}' || c == '\U{1680}' ||
    ('\U{2000}' <= c <= '\U{200a}') || c == '\U{2028}' || c == '\U{2029}' ||
    c == '\U{202f}' || c == '\U{205f}' || c == '\U{3000}'
  }

  predicate AllPySpace(s: string)
  {
    forall i :: 0 <= i < |s| ==> IsPySpace(s[i])
  }

  /** Leading white space removed. */
  function TrimStart(s: string): (r: string)
    ensures |r| <= |s| && r == s[|s| - |r|..]
    ensures AllPySpace(s[..|s| - |r|])
    ensures r == [] || !IsPySpace(r[0])
  {
    if s != [] && IsPySpace(s[0]) then TrimStart(s[1..]) else s
  }

  /** Trailing white space removed. */
  function TrimEnd(s: string): (r: string)
    ensures r <= s
    ensures AllPySpace(s[|r|..])
    ensures r == [] || !IsPySpace(r[|r| - 1])
  {
    if s != [] && IsPySpace(s[|s| - 1]) then TrimEnd(s[..|s| - 1]) else s
  }

  /** White space removed at both ends: what remains starts and ends
      with a non-space, and keeps every character of `s` that is not
      white space. */
  function Strip(s: string): (r: string)
    ensures r == [] || (!IsPySpace(r[0]) && !IsPySpace(r[|r| - 1]))
    ensures forall i :: 0 <= i < |s| ==> IsPySpace(s[i]) || s[i] in r
  {
    forall i | 0 <= i < |s| && !IsPySpace(s[i])
      ensures s[i] in TrimEnd(TrimStart(s))
    {
      TrimStartKeeps(s, s[i]);
      TrimEndKeeps(TrimStart(s), s[i]);
    }
    TrimEnd(TrimStart(s))
  }

  /** What `Strip` keeps is one contiguous run of `s`, with only white
      space before and after it. */
  lemma StripIsInfix(s: string)
    ensures var r := Strip(s);
      exists a :: 0 <= a && a + |r| <= |s| && r == s[a..a + |r|] && AllPySpace(s[..a]) && AllPySpace(s[a + |r|..])
  {
    var t := TrimStart(s);
    var r := TrimEnd(t);
    var a := |s| - |t|;
    assert AllPySpace(s[..a]);
    assert r == s[a..a + |r|] by {
      assert t == s[a..] && r <= t;
    }
    assert AllPySpace(s[a + |r|..]) by {
      assert s[a + |r|..] == t[|r|..];
    }
    assert Strip(s) == r;
  }

  lemma {:induction false} TrimStartPadded(pre: string, core: string)
    requires AllPySpace(pre)
    requires core != [] && !IsPySpace(core[0])
    ensures TrimStart(pre + core) == core
  {
    if pre != [] {
      assert (pre + core)[1..] == pre[1..] + core;
      TrimStartPadded(pre[1..], core);
    }
  }

  lemma {:induction false} TrimEndPadded(core: string, post: string)
    requires AllPySpace(post)
    requires core != [] && !IsPySpace(core[|core| - 1])
    ensures TrimEnd(core + post) == core
  {
    if post != [] {
      assert (core + post)[..|core + post| - 1] == core + post[..|post| - 1];
      TrimEndPadded(core, post[..|post| - 1]);
    }
  }

  /** Padding with white space on either side is stripped exactly. */
  lemma StripPadded(pre: string, core: string, post: string)
    requires AllPySpace(pre) && AllPySpace(post)
    requires core != [] && !IsPySpace(core[0]) && !IsPySpace(core[|core| - 1])
    ensures Strip(pre + core + post) == core
  {
    assert pre + core + post == pre + (core + post);
    TrimStartPadded(pre, core + post);
    TrimEndPadded(core, post);
  }

  lemma {:induction false} TrimStartKeeps(s: string, c: char)
    requires c in s && !IsPySpace(c)
    ensures c in TrimStart(s)
  {
    if IsPySpace(s[0]) {
      assert c in s[1..];
      TrimStartKeeps(s[1..], c);
    }
  }

  lemma {:induction false} TrimEndKeeps(s: string, c: char)
    requires c in s && !IsPySpace(c)
    ensures c in TrimEnd(s)
  {
    if IsPySpace(s[|s| - 1]) {
      assert c in s[..|s| - 1];
      TrimEndKeeps(s[..|s| - 1], c);
    }
  }

  lemma {:induction false} TrimStartBlank(s: string)
    requires AllPySpace(s)
    ensures TrimStart(s) == []
  {
    if s != [] {
      TrimStartBlank(s[1..]);
    }
  }

  predicate IsDigit(c: char)
  {
    '0' <= c <= '9'
  }

  function DigitValue(c: char): (d: nat)
    requires IsDigit(c)
    ensures d < 10
  {
    (c as int) - ('0' as int)
  }

  function DigitChar(d: nat): (c: char)
    requires d < 10
    ensures IsDigit(c) && DigitValue(c) == d
  {
    (('0' as int) + d) as char
  }

  /** Python 3's digit syntax for `int()`: decimal digits, where a single
      underscore may separate two digits. */
  predicate WellFormedDigits(s: string)
  {
    |s| > 0 && IsDigit(s[0]) && IsDigit(s[|s| - 1]) &&
    (forall i :: 0 <= i < |s| ==> IsDigit(s[i]) || s[i] == '_') &&
    (forall i :: 0 <= i < |s| - 1 && s[i] == '_' ==> s[i + 1] != '_')
  }

  /** The number the digits spell, underscores ignored. */
  function DigitsValue(s: string): nat
    requires forall i :: 0 <= i < |s| ==> IsDigit(s[i]) || s[i] == '_'
  {
    if s == [] then 0
    else if s[|s| - 1] == '_' then DigitsValue(s[..|s| - 1])
    else 10 * DigitsValue(s[..|s| - 1]) + DigitValue(s[|s| - 1])
  }

  /** `int(text)`: `None` where Python raises ValueError. Text that parses
      holds nothing but white space, digits, signs and underscores. */
  function ParsePyInt(text: string): (r: Option<int>)
    ensures r.Some? ==> Strip(text) != []
    ensures r.Some? ==> forall i :: 0 <= i < |text| ==>
      IsPySpace(text[i]) || IsDigit(text[i]) || text[i] == '+' || text[i] == '-' || text[i] == '_'
  {
    var t := Strip(text);
    if t != [] && (t[0] == '+' || t[0] == '-') then
      if WellFormedDigits(t[1..]) then
        Some(if t[0] == '-' then -(DigitsValue(t[1..]) as int) else DigitsValue(t[1..]))
      else None
    else if WellFormedDigits(t) then Some(DigitsValue(t))
    else None
  }

  /** The decimal digits of a natural number, as `str()` writes them. */
  function Digits(k: nat): (s: string)
    ensures s != [] && forall i :: 0 <= i < |s| ==> IsDigit(s[i])
  {
    if k < 10 then [DigitChar(k)] else Digits(k / 10) + [DigitChar(k % 10)]
  }

  /** `str(n)` for an integer. */
  function DecimalText(n: int): string
  {
    if n < 0 then "-" + Digits(-n) else Digits(n)
  }

  lemma {:induction false} DigitsValueOfDigits(k: nat)
    ensures DigitsValue(Digits(k)) == k
  {
    var s := Digits(k);
    if k >= 10 {
      DigitsValueOfDigits(k / 10);
      assert s[..|s| - 1] == Digits(k / 10);
    }
  }

  lemma DigitsWellFormed(k: nat)
    ensures WellFormedDigits(Digits(k))
  {
    var ds := Digits(k);
    assert forall i | 0 <= i < |ds| - 1 :: ds[i] != '_';
  }

  /** What `int()` returns for a value whose stripped form is known. */
  lemma ParsePyIntOfStripped(text: string, core: string)
    requires Strip(text) == core
    requires WellFormedDigits(core)
    ensures ParsePyInt(text) == Some(DigitsValue(core))
  {
    assert core[0] != '+' && core[0] != '-';
  }

  lemma ParsePyIntOfStrippedNegative(text: string, core: string)
    requires Strip(text) == "-" + core
    requires WellFormedDigits(core)
    ensures ParsePyInt(text) == Some(-(DigitsValue(core) as int))
  {
    assert ("-" + core)[1..] == core;
  }

  /** `int()` reads back what `str()` writes, also when the value is
      padded with spaces (DICOM pads string values to an even length). */
  lemma ParsePyIntOfDecimalText(n: int, pre: string, post: string)
    requires AllPySpace(pre) && AllPySpace(post)
    ensures ParsePyInt(pre + DecimalText(n) + post) == Some(n)
  {
    var d := if n < 0 then -n else n;
    var ds := Digits(d);
    var t := DecimalText(n);
    DigitsValueOfDigits(d);
    DigitsWellFormed(d);
    assert t[|t| - 1] == ds[|ds| - 1];
    StripPadded(pre, t, post);
    if n < 0 {
      ParsePyIntOfStrippedNegative(pre + t + post, ds);
    } else {
      ParsePyIntOfStripped(pre + t + post, ds);
    }
  }

  /** A decimal string such as "40.5" (a Window Center may be one) is
      rejected: `int()` raises on it. */
  lemma ParsePyIntRejectsDecimalPoint(text: string)
    requires '.' in text
    ensures ParsePyInt(text) == None
  {
    var i :| 0 <= i < |text| && text[i] == '.';
    assert !IsPySpace(text[i]) && !IsDigit(text[i]);
  }

  /** An empty or blank value (a missing element) is rejected. */
  lemma ParsePyIntRejectsBlank(text: string)
    requires AllPySpace(text)
    ensures ParsePyInt(text) == None
  {
    TrimStartBlank(text);
  }
  /** An information separator (U+001C to U+001F) before a number is
      not skipped: `int("\x1c40")` raises. */
  lemma ParsePyIntRejectsSeparator(text: string)
    requires text != [] && '\U{1c}' <= text[0] <= '\U{1f}'
    ensures ParsePyInt(text) == None
  {
  }


  /** The range the lookup table receives: `int(level) ∓ int(window)/2`
      over the first values of the two elements, or `None` where either
      `int()` raises. */
  function LookupTableRange(levelValue: string, windowValue: string): (r: Option<Range>)
    ensures r.Some? <==> ParsePyInt(FirstValue(levelValue)).Some? && ParsePyInt(FirstValue(windowValue)).Some?
    ensures r.Some? ==> r.value.high - r.value.low == ParsePyInt(FirstValue(windowValue)).value as real
    ensures r.Some? ==> (r.value.low + r.value.high) / 2.0 == ParsePyInt(FirstValue(levelValue)).value as real
  {
    match (ParsePyInt(FirstValue(levelValue)), ParsePyInt(FirstValue(windowValue)))
    case (Some(level), Some(window)) => Some(WindowRange(level as real, window as real))
    case _ => None
  }

  /** Integer level and window values, each padded with spaces and
      possibly followed by further values, give the range
      `level ∓ window/2`. */
  lemma LookupTableRangeOfIntegers(level: int, window: int, levelPre: string, levelPost: string, levelRest: string,
                                   windowPre: string, windowPost: string, windowRest: string)
    requires AllPySpace(levelPre) && AllPySpace(levelPost) && AllPySpace(windowPre) && AllPySpace(windowPost)
    ensures LookupTableRange(levelPre + DecimalText(level) + levelPost + [Backslash] + levelRest,
                             windowPre + DecimalText(window) + windowPost + [Backslash] + windowRest)
            == Some(Range(level as real - window as real / 2.0, level as real + window as real / 2.0))
  {
    FirstPaddedInteger(level, levelPre, levelPost, levelRest);
    FirstPaddedInteger(window, windowPre, windowPost, windowRest);
  }

  lemma FirstPaddedInteger(n: int, pre: string, post: string, rest: string)
    requires AllPySpace(pre) && AllPySpace(post)
    ensures ParsePyInt(FirstValue(pre + DecimalText(n) + post + [Backslash] + rest)) == Some(n)
  {
    FirstValueOfPadded(n, pre, post, rest);
    ParsePyIntOfDecimalText(n, pre, post);
  }

  lemma FirstValueOfPadded(n: int, pre: string, post: string, rest: string)
    requires AllPySpace(pre) && AllPySpace(post)
    ensures FirstValue(pre + DecimalText(n) + post + [Backslash] + rest) == pre + DecimalText(n) + post
  {
    var t := DecimalText(n);
    var first := pre + t + post;
    DigitsNoBackslash(n);
    assert forall i | 0 <= i < |first| :: first[i] != Backslash by {
      assert forall i | 0 <= i < |pre| :: first[i] == pre[i];
      assert forall i | |pre| <= i < |pre| + |t| :: first[i] == t[i - |pre|];
      assert forall i | |pre| + |t| <= i < |first| :: first[i] == post[i - |pre| - |t|];
    }
    FirstValueOfMultiValued(first, rest);
  }

  lemma DigitsNoBackslash(n: int)
    ensures Backslash !in DecimalText(n)
  {
    var t := DecimalText(n);
    var d := if n < 0 then -n else n;
    assert forall i | 0 <= i < |Digits(d)| :: Digits(d)[i] != Backslash;
    assert forall i | 0 <= i < |t| :: t[i] != Backslash;
  }
}
