/** The slice of Python's runtime semantics the wrapper relies on: the
    exceptions it lets escape, `str.strip`, `str.split` and `str.join`, and
    the conversions between integers and their decimal text (`str(int)`,
    `'%d'` and `int(str)`). */
module Py {
  import opened Wrappers

  /** Exceptions raised inside the wrapper and not caught by it. */
  datatype Exception =
    | KeyError(key: string)
    | ValueError(message: string)
    | NameError(name: string)

  // ---------------------------------------------------------------------------
  // Whitespace and str.strip()
  // ---------------------------------------------------------------------------

  /** `c.isspace()`: the characters Python's argument-less `strip` removes. */
  predicate IsSpace(c: char) {
    || c == ' '
    || ('\t' <= c <= '\r')
    || ('\U{1c}' <= c <= '\U{1f}')
    || c == '\U{85}' || c == '\U{a0}' || c == '\U{1680}'
    || ('\U{2000}' <= c <= '\U{200a}')
    || c == '\U{2028}' || c == '\U{2029}' || c == '\U{202f}'
    || c == '\U{205f}' || c == '\U{3000}'
  }

  /** The two trims the wrapper relies on. `str.strip()` removes every
      character for which `isspace()` holds. `int()` turns each non-ASCII
      space into ' ' and then skips only ' ' and '\t'..'\r', so it keeps the
      ASCII separators '\U{1c}'..'\U{1f}' and rejects them as non-digits. */
  datatype Trim = StrStrip | IntStrip

  /** `c` is whitespace that trim `w` removes. */
  predicate Trims(w: Trim, c: char) {
    IsSpace(c) && !(w == IntStrip && '\U{1c}' <= c <= '\U{1f}')
  }

  predicate AllSpace(w: Trim, s: string) {
    forall i :: 0 <= i < |s| ==> Trims(w, s[i])
  }

  /** A string `strip` leaves alone: empty, or no whitespace at either end. */
  predicate IsStripped(w: Trim, t: string) {
    t == [] || (!Trims(w, t[0]) && !Trims(w, t[|t| - 1]))
  }

  lemma AllSpaceCons(w: Trim, c: char, s: string)
    requires Trims(w, c) && AllSpace(w, s)
    ensures AllSpace(w, [c] + s)
  {
    assert forall i :: 1 <= i < |[c] + s| ==> ([c] + s)[i] == s[i - 1];
  }

  lemma AllSpaceSnoc(w: Trim, s: string, c: char)
    requires AllSpace(w, s) && Trims(w, c)
    ensures AllSpace(w, s + [c])
  {
    assert forall i :: 0 <= i < |s| ==> (s + [c])[i] == s[i];
  }

  /** Length of the run of whitespace that starts `s`. */
  function LeadingSpace(w: Trim, s: string): (n: nat)
    ensures n <= |s|
    ensures AllSpace(w, s[..n])
    ensures n < |s| ==> !Trims(w, s[n])
  {
    if |s| == 0 || !Trims(w, s[0]) then 0
    else
      var m := LeadingSpace(w, s[1..]);
      AllSpaceCons(w, s[0], s[1..][..m]);
      assert s[..1 + m] == [s[0]] + s[1..][..m];
      1 + m
  }

  /** Length of the run of whitespace that ends `s`. */
  function TrailingSpace(w: Trim, s: string): (n: nat)
    ensures n <= |s|
    ensures AllSpace(w, s[|s| - n..])
    ensures n < |s| ==> !Trims(w, s[|s| - n - 1])
  {
    if |s| == 0 || !Trims(w, s[|s| - 1]) then 0
    else
      var pre := s[..|s| - 1];
      var m := TrailingSpace(w, pre);
      AllSpaceSnoc(w, pre[|pre| - m..], s[|s| - 1]);
      assert s[|s| - (1 + m)..] == pre[|pre| - m..] + [s[|s| - 1]];
      1 + m
  }

  /** `s` without the leading and trailing whitespace trim `w` removes. */
  function StripBy(w: Trim, s: string): (t: string)
    ensures |t| <= |s|
    ensures IsStripped(w, t)
    ensures t == [] <==> AllSpace(w, s)
  {
    var a := LeadingSpace(w, s);
    var rest := s[a..];
    var b := TrailingSpace(w, rest);
    assert a < |s| ==> rest[0] == s[a];
    assert a == |s| ==> s[..a] == s;
    assert b == |rest| ==> rest[|rest| - b..] == rest;
    rest[..|rest| - b]
  }

  lemma {:induction false} LeadingSpaceOfPadded(w: Trim, p: string, r: string)
    requires AllSpace(w, p)
    requires r == [] || !Trims(w, r[0])
    ensures LeadingSpace(w, p + r) == |p|
    decreases |p|
  {
    if |p| == 0 {
      assert p + r == r;
    } else {
      assert (p + r)[1..] == p[1..] + r;
      LeadingSpaceOfPadded(w, p[1..], r);
    }
  }

  lemma {:induction false} TrailingSpaceOfPadded(w: Trim, r: string, q: string)
    requires AllSpace(w, q)
    requires r == [] || !Trims(w, r[|r| - 1])
    ensures TrailingSpace(w, r + q) == |q|
    decreases |q|
  {
    if |q| == 0 {
      assert r + q == r;
    } else {
      assert (r + q)[..|r + q| - 1] == r + q[..|q| - 1];
      TrailingSpaceOfPadded(w, r, q[..|q| - 1]);
    }
  }

  /** `s.strip()`. */
  function Strip(s: string): string {
    StripBy(StrStrip, s)
  }

  /** Stripping removes exactly the whitespace padding around a stripped
      core. */
  lemma StripPadded(w: Trim, p: string, t: string, q: string)
    requires AllSpace(w, p) && AllSpace(w, q)
    requires t != [] && IsStripped(w, t)
    ensures StripBy(w, p + t + q) == t
  {
    var s := p + t + q;
    assert s == p + (t + q);
    LeadingSpaceOfPadded(w, p, t + q);
    assert s[|p|..] == t + q;
    TrailingSpaceOfPadded(w, t, q);
  }

  /** A string without whitespace at either end is left alone. */
  lemma StripOfStripped(w: Trim, t: string)
    requires IsStripped(w, t)
    ensures StripBy(w, t) == t
  {
    assert LeadingSpace(w, t) == 0;
    assert t[0..] == t;
    assert TrailingSpace(w, t) == 0;
    assert t[..|t|] == t;
  }

  /** Stripping twice is stripping once. */
  lemma StripIdempotent(w: Trim, s: string)
    ensures StripBy(w, StripBy(w, s)) == StripBy(w, s)
  {
    StripOfStripped(w, StripBy(w, s));
  }

  // ---------------------------------------------------------------------------
  // Substring search, str.split(sep) and sep.join(parts)
  // ---------------------------------------------------------------------------

  /** `sep` occurs in `s` starting at index `i`. */
  predicate OccursAt(s: string, sep: string, i: int) {
    0 <= i && i + |sep| <= |s| && s[i..i + |sep|] == sep
  }

  /** `sep in s`. */
  predicate Contains(s: string, sep: string) {
    exists i :: 0 <= i <= |s| && OccursAt(s, sep, i)
  }

  function FindFrom(s: string, sep: string, i: nat): (r: Option<nat>)
    requires forall j :: 0 <= j < i ==> !OccursAt(s, sep, j)
    ensures r.Some? ==> OccursAt(s, sep, r.value)
    ensures r.Some? ==> forall j :: 0 <= j < r.value ==> !OccursAt(s, sep, j)
    ensures r.None? ==> !Contains(s, sep)
    decreases |s| - i
  {
    if i + |sep| > |s| then None
    else if s[i..i + |sep|] == sep then Some(i)
    else FindFrom(s, sep, i + 1)
  }

  /** `s.find(sep)`: the leftmost occurrence of `sep` in `s`, if any. */
  function Find(s: string, sep: string): (r: Option<nat>)
    ensures r.Some? ==> OccursAt(s, sep, r.value)
    ensures r.Some? ==> forall j :: 0 <= j < r.value ==> !OccursAt(s, sep, j)
    ensures r.None? ==> !Contains(s, sep)
  {
    FindFrom(s, sep, 0)
  }

  /** `sep.join(parts)`. */
  function Join(parts: seq<string>, sep: string): string
  {
    if |parts| == 0 then ""
    else if |parts| == 1 then parts[0]
    else parts[0] + sep + Join(parts[1..], sep)
  }

  lemma JoinCons(x: string, rest: seq<string>, sep: string)
    requires |rest| >= 1
    ensures Join([x] + rest, sep) == x + sep + Join(rest, sep)
  {
    assert ([x] + rest)[1..] == rest;
  }

  /** A prefix of `s` that ends before the first occurrence of `sep` holds no
      occurrence of `sep`. */
  lemma PrefixBeforeFirstOccurrence(s: string, sep: string, i: nat)
    requires |sep| > 0 && i <= |s|
    requires forall j :: 0 <= j < i ==> !OccursAt(s, sep, j)
    ensures !Contains(s[..i], sep)
  {
    forall j | 0 <= j <= i
      ensures !OccursAt(s[..i], sep, j)
    {
      if j + |sep| <= i {
        assert !OccursAt(s, sep, j);
        assert s[..i][j..j + |sep|] == s[j..j + |sep|];
      }
    }
  }

  /** `s.split(sep)`: the pieces between non-overlapping occurrences of a
      non-empty separator, scanned from the left. No piece contains the
      separator and joining the pieces with it gives back `s`. */
  function Split(s: string, sep: string): (parts: seq<string>)
    requires |sep| > 0
    ensures |parts| >= 1
    ensures forall k :: 0 <= k < |parts| ==> !Contains(parts[k], sep)
    ensures Join(parts, sep) == s
    decreases |s|
  {
    match Find(s, sep)
    case None => [s]
    case Some(i) =>
      var rest := Split(s[i + |sep|..], sep);
      PrefixBeforeFirstOccurrence(s, sep, i);
      JoinCons(s[..i], rest, sep);
      assert s == s[..i] + sep + s[i + |sep|..];
      [s[..i]] + rest
  }

  lemma SingleCharAbsent(s: string, c: char, i: int)
    requires 0 <= i < |s| && s[i] != c
    ensures !OccursAt(s, [c], i)
  {
    assert s[i..i + 1][0] == s[i];
  }

  /** With a one-character separator, splitting undoes joining whenever no
      part contains the separator. */
  lemma {:induction false} SplitJoin(parts: seq<string>, c: char)
    requires |parts| >= 1
    requires forall k :: 0 <= k < |parts| ==> c !in parts[k]
    ensures Split(Join(parts, [c]), [c]) == parts
    decreases |parts|
  {
    var sep := [c];
    var p := parts[0];
    if |parts| == 1 {
      forall j | 0 <= j <= |p|
        ensures !OccursAt(p, sep, j)
      {
        if j < |p| {
          SingleCharAbsent(p, c, j);
        }
      }
    } else {
      var rest := parts[1..];
      var s := Join(parts, sep);
      assert s == p + sep + Join(rest, sep);
      assert OccursAt(s, sep, |p|) by {
        assert s[|p|..|p| + 1] == sep;
      }
      forall j | 0 <= j < |p|
        ensures !OccursAt(s, sep, j)
      {
        assert s[j] == p[j];
        SingleCharAbsent(s, c, j);
      }
      assert Find(s, sep) == Some(|p|);
      assert s[|p| + 1..] == Join(rest, sep);
      assert s[..|p|] == p;
      SplitJoin(rest, c);
    }
  }

  // ---------------------------------------------------------------------------
  // Decimal text: str(int), '%d' and int(str)
  // ---------------------------------------------------------------------------

  predicate IsDigit(c: char) {
    '0' <= c <= '9'
  }

  function DigitChar(d: nat): (c: char)
    requires d < 10
    ensures IsDigit(c)
  {
    ('0' as int + d) as char
  }

  function DigitValue(c: char): (d: nat)
    requires IsDigit(c)
    ensures d < 10
  {
    c as int - '0' as int
  }

  /** Decimal digits of a natural number, most significant first. */
  function NatToString(n: nat): (s: string)
    ensures |s| >= 1
    ensures forall i :: 0 <= i < |s| ==> IsDigit(s[i])
    decreases n
  {
    if n < 10 then [DigitChar(n)]
    else NatToString(n / 10) + [DigitChar(n % 10)]
  }

  /** `str(i)` and `'%d' % i` for an integer. */
  function IntToString(i: int): string
  {
    if i < 0 then "-" + NatToString(-i) else NatToString(i)
  }

  /** The digits-and-underscores body `int()` accepts: starts and ends with a
      digit and never has two underscores in a row. */
  predicate IsDigitRun(s: string) {
    && |s| > 0
    && IsDigit(s[0])
    && IsDigit(s[|s| - 1])
    && (forall i :: 0 <= i < |s| ==> IsDigit(s[i]) || s[i] == '_')
    && (forall i :: 0 <= i < |s| - 1 ==> !(s[i] == '_' && s[i + 1] == '_'))
  }

  /** The number a digit run denotes, underscores ignored. */
  function DigitsValue(s: string): nat
    requires forall i :: 0 <= i < |s| ==> IsDigit(s[i]) || s[i] == '_'
  {
    if |s| == 0 then 0
    else if s[|s| - 1] == '_' then DigitsValue(s[..|s| - 1])
    else 10 * DigitsValue(s[..|s| - 1]) + DigitValue(s[|s| - 1])
  }

  /** `int(s)` for a string: `None` where Python raises `ValueError`.
      Surrounding whitespace, as `int()` trims it, and one sign are
      allowed. */
  function ParseInt(s: string): Option<int>
  {
    var t := StripBy(IntStrip, s);
    if |t| > 0 && (t[0] == '+' || t[0] == '-') then
      if IsDigitRun(t[1..]) then
        var v: int := DigitsValue(t[1..]);
        Some(if t[0] == '-' then -v else v)
      else None
    else if IsDigitRun(t) then Some(DigitsValue(t))
    else None
  }

  /** `int()` does not trim the ASCII separators '\U{1c}'..'\U{1f}',
      although `strip()` does: a value that starts with one is rejected,
      while `strip()` drops it. */
  lemma ParseIntKeepsSeparators(s: string)
    requires |s| > 0 && '\U{1c}' <= s[0] <= '\U{1f}'
    ensures ParseInt(s).None?
    ensures |Strip(s)| < |s|
  {
    var t := StripBy(IntStrip, s);
    assert LeadingSpace(IntStrip, s) == 0;
    assert s[0..] == s;
    assert t[0] == s[0];
    assert !IsDigit(t[0]);
    assert LeadingSpace(StrStrip, s) > 0;
  }

  lemma {:induction false} DigitsValueOfNatToString(n: nat)
    ensures DigitsValue(NatToString(n)) == n
    decreases n
  {
    var s := NatToString(n);
    if n < 10 {
      assert s[..|s| - 1] == [];
    } else {
      assert s[..|s| - 1] == NatToString(n / 10);
      DigitsValueOfNatToString(n / 10);
    }
  }

  lemma NatToStringIsDigitRun(w: Trim, n: nat)
    ensures IsDigitRun(NatToString(n))
    ensures IsStripped(w, NatToString(n))
  {
    var s := NatToString(n);
    assert IsDigit(s[0]) && IsDigit(s[|s| - 1]);
  }

  /** A decimal rendering has no whitespace to strip. */
  lemma IntToStringStripped(w: Trim, i: int)
    ensures StripBy(w, IntToString(i)) == IntToString(i)
  {
    var s := IntToString(i);
    var n: nat := if i < 0 then -i else i;
    var digits := NatToString(n);
    NatToStringIsDigitRun(w, n);
    assert IsStripped(w, s) by {
      if i < 0 {
        assert s[|s| - 1] == digits[|digits| - 1];
      }
    }
    StripOfStripped(w, s);
  }

  /** Every integer's decimal rendering is accepted by `int()` and parses
      back to the same integer. */
  lemma IntToStringParses(i: int)
    ensures ParseInt(IntToString(i)) == Some(i)
  {
    var s := IntToString(i);
    var n: nat := if i < 0 then -i else i;
    var digits := NatToString(n);
    IntToStringStripped(IntStrip, i);
    NatToStringIsDigitRun(IntStrip, n);
    DigitsValueOfNatToString(n);
    if i < 0 {
      assert s[0] == '-';
      assert s[1..] == digits;
    } else {
      assert s == digits;
      assert IsDigit(s[0]);
    }
  }
}
