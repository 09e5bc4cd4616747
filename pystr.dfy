/**
 * The parts of Python's `str` that the bot relies on: `strip()`, `lstrip("@")`,
 * `lower()`, the substring test `a in b`, `split("|")`, `int()` on a digit string
 * and the `f"{n}"` rendering of a non-negative integer, plus string truthiness.
 */
module PyStr {
  import opened Common

  /** The characters for which Python's `str.isspace()` is true. */
  predicate IsSpace(c: char)
  {
    || c == ' '
    || ('\t' <= c <= '\r')
    || ('\U{1C}' <= c <= '\U{1F}')
    || c == '\U{85}' || c == '\U{A0}' || c == '\U{1680}'
    || ('\U{2000}' <= c <= '\U{200A}')
    || c == '\U{2028}' || c == '\U{2029}' || c == '\U{202F}' || c == '\U{205F}' || c == '\U{3000}'
  }

  predicate IsAt(c: char)
  {
    c == '@'
  }

  /** The first index at or after `i` whose character does not satisfy `drop`, or `|s|`. */
  function SkipForward(s: string, drop: char -> bool, i: nat): (n: nat)
    requires i <= |s|
    ensures i <= n <= |s|
    ensures forall k | i <= k < n :: drop(s[k])
    ensures n == |s| || !drop(s[n])
    decreases |s| - i
  {
    if i == |s| || !drop(s[i]) then i else SkipForward(s, drop, i + 1)
  }

  /** Moves the end `j` back over characters satisfying `drop`, but not below `lo`. */
  function SkipBackward(s: string, drop: char -> bool, lo: nat, j: nat): (n: nat)
    requires lo <= j <= |s|
    ensures lo <= n <= j
    ensures forall k | n <= k < j :: drop(s[k])
    ensures n == lo || !drop(s[n - 1])
    decreases j
  {
    if j == lo || !drop(s[j - 1]) then j else SkipBackward(s, drop, lo, j - 1)
  }

  /** The skip stops exactly at the first character from `i` on that it does not drop. */
  lemma SkipForwardStops(s: string, drop: char -> bool, n: nat)
    requires n <= |s|
    requires forall k | 0 <= k < n :: drop(s[k])
    requires n == |s| || !drop(s[n])
    ensures SkipForward(s, drop, 0) == n
  {
  }

  /** Python's `s.lstrip("@")`. */
  function LStripAt(s: string): string
  {
    s[SkipForward(s, IsAt, 0)..]
  }

  /** How many leading characters `strip()` removes. */
  function StripStart(s: string): nat
  {
    SkipForward(s, IsSpace, 0)
  }

  /** Where the part that `strip()` keeps ends. */
  function StripEnd(s: string): nat
  {
    SkipBackward(s, IsSpace, StripStart(s), |s|)
  }

  /** Python's `s.strip()`: leading whitespace is skipped first, then trailing whitespace down to that point. */
  function Strip(s: string): string
  {
    s[StripStart(s)..StripEnd(s)]
  }

  /**
   * `strip()` keeps exactly a slice of its input: everything before it and after
   * it is whitespace, and it neither starts nor ends with whitespace.
   */
  lemma StripSlice(s: string)
    ensures var i, j := StripStart(s), StripEnd(s);
            && i <= j <= |s| && Strip(s) == s[i..j]
            && (forall k :: 0 <= k < i ==> IsSpace(s[k]))
            && (forall k :: j <= k < |s| ==> IsSpace(s[k]))
            && (i == j || (!IsSpace(s[i]) && !IsSpace(s[j - 1])))
  {
  }

  /** `lstrip("@")` removes exactly the leading run of `@`. */
  lemma LStripAtSlice(s: string)
    ensures var i := SkipForward(s, IsAt, 0);
            && LStripAt(s) == s[i..]
            && (forall k :: 0 <= k < i ==> s[k] == '@')
            && (LStripAt(s) == [] || LStripAt(s)[0] != '@')
  {
  }

  /** `strip()` leaves a string alone that neither starts nor ends with whitespace. */
  lemma StripTrimmed(s: string)
    requires s == [] || (!IsSpace(s[0]) && !IsSpace(s[|s| - 1]))
    ensures Strip(s) == s
  {
  }

  /** `lstrip("@")` removes a leading run of `@` up to the first other character. */
  lemma LStripAtRun(ats: string, h: string)
    requires forall k | 0 <= k < |ats| :: ats[k] == '@'
    requires h == [] || h[0] != '@'
    ensures LStripAt(ats + h) == h
  {
    var s := ats + h;
    assert forall k | 0 <= k < |ats| :: IsAt(s[k]);
    assert |ats| == |s| || !IsAt(s[|ats|]);
    SkipForwardStops(s, IsAt, |ats|);
    assert s[|ats|..] == h;
  }

  /** A slice of a slice is a slice of the original string. */
  lemma SliceOfSlice(t: string, lo: nat, hi: nat, i: nat, j: nat)
    requires lo <= hi <= |t| && i <= j <= hi - lo
    ensures t[lo..hi][i..j] == t[lo + i..lo + j]
  {
    var x := t[lo..hi];
    forall k | 0 <= k < j - i ensures x[i..j][k] == t[lo + i..lo + j][k] {
      assert x[i..j][k] == x[i + k] == t[lo + i + k];
    }
  }

  /** Stripping the slice `text[lo..hi]` keeps a slice of `text` itself. */
  lemma StripWithinSlice(text: string, x: string, lo: nat, hi: nat)
    requires lo <= hi <= |text| && x == text[lo..hi]
    ensures lo + StripEnd(x) <= hi && Strip(x) == text[lo + StripStart(x)..lo + StripEnd(x)]
  {
    SliceOfSlice(text, lo, hi, StripStart(x), StripEnd(x));
  }

  /** What stripping the slice `text[lo..hi]` drops is whitespace of `text`. */
  lemma StripWithin(text: string, x: string, lo: nat, hi: nat)
    requires lo <= hi <= |text| && x == text[lo..hi]
    ensures lo + StripEnd(x) <= hi
    ensures forall k | lo <= k < lo + StripStart(x) :: IsSpace(text[k])
    ensures forall k | lo + StripEnd(x) <= k < hi :: IsSpace(text[k])
  {
    StripSlice(x);
    forall k | lo <= k < lo + StripStart(x) ensures IsSpace(text[k]) {
      assert text[k] == x[k - lo];
    }
    forall k | lo + StripEnd(x) <= k < hi ensures IsSpace(text[k]) {
      assert text[k] == x[k - lo];
    }
  }

  /** ASCII case folding; Python's `str.lower()` folds all of Unicode. */
  function LowerChar(c: char): char
  {
    if 'A' <= c <= 'Z' then (c as int + 32) as char else c
  }

  /** Python's `s.lower()`, restricted to ASCII letters. */
  function Lower(s: string): (r: string)
    ensures |r| == |s|
  {
    seq(|s|, i requires 0 <= i < |s| => LowerChar(s[i]))
  }

  /** Python's `sub in s` on strings: `sub` occurs contiguously in `s` (the empty string occurs everywhere). */
  predicate Contains(s: string, sub: string)
  {
    exists i | 0 <= i <= |s| - |sub| :: OccursAt(s, sub, i)
  }

  /** `sub` starts at index `i` of `s`. */
  predicate OccursAt(s: string, sub: string, i: nat)
  {
    i + |sub| <= |s| && s[i..i + |sub|] == sub
  }

  /** Python truthiness of an optional string: present and non-empty. */
  predicate Truthy(o: Option<string>)
  {
    o.Some? && o.value != ""
  }

  /** `sep.join(fields)`. */
  function Join(fields: seq<string>, sep: char): string
    requires |fields| >= 1
  {
    if |fields| == 1 then fields[0] else fields[0] + [sep] + Join(fields[1..], sep)
  }

  /** Python's `s.split(sep)` for a one-character separator: always at least one field, none holding `sep`, and joining them back gives `s`. */
  function Split(s: string, sep: char): (fields: seq<string>)
    ensures |fields| >= 1
    ensures forall i :: 0 <= i < |fields| ==> sep !in fields[i]
    ensures Join(fields, sep) == s
  {
    if s == [] then [[]]
    else if s[0] == sep then [[]] + Split(s[1..], sep)
    else
      var rest := Split(s[1..], sep);
      [[s[0]] + rest[0]] + rest[1..]
  }

  /** Splitting undoes joining: fields free of the separator come back unchanged. */
  lemma {:induction false} SplitJoin(fields: seq<string>, sep: char)
    requires |fields| >= 1
    requires forall i :: 0 <= i < |fields| ==> sep !in fields[i]
    ensures Split(Join(fields, sep), sep) == fields
  {
    if |fields| == 1 {
      SplitField(fields[0], sep);
    } else {
      SplitJoin(fields[1..], sep);
      SplitPrefix(fields[0], Join(fields[1..], sep), sep);
    }
  }

  /** A string free of `sep` splits into itself alone. */
  lemma {:induction false} SplitField(f: string, sep: char)
    requires sep !in f
    ensures Split(f, sep) == [f]
  {
    if f != [] {
      SplitField(f[1..], sep);
    }
  }

  /** A separator-free prefix followed by the separator becomes the first field. */
  lemma {:induction false} SplitPrefix(f: string, rest: string, sep: char)
    requires sep !in f
    ensures Split(f + [sep] + rest, sep) == [f] + Split(rest, sep)
  {
    if f == [] {
      assert f + [sep] + rest == [sep] + rest;
    } else {
      var s := f + [sep] + rest;
      assert s[0] == f[0] && s[1..] == f[1..] + [sep] + rest;
      SplitPrefix(f[1..], rest, sep);
      var tail := Split(s[1..], sep);
      assert tail == [f[1..]] + Split(rest, sep);
      assert [f[0]] + tail[0] == f;
    }
  }

  predicate IsDigit(c: char)
  {
    '0' <= c <= '9'
  }

  predicate AllDigits(s: string)
  {
    forall i :: 0 <= i < |s| ==> IsDigit(s[i])
  }

  /** The decimal value of a string of digits (leading zeros allowed). */
  function DigitsValue(s: string): nat
    requires AllDigits(s)
  {
    if s == [] then 0 else DigitsValue(s[..|s| - 1]) * 10 + (s[|s| - 1] as int - '0' as int)
  }

  /** Python's `int(s)` on strings made only of ASCII digits; anything else is the ValueError case. */
  function ParseNat(s: string): (r: Option<nat>)
    ensures r.Some? <==> s != [] && AllDigits(s)
  {
    if s != [] && AllDigits(s) then Some(DigitsValue(s)) else None
  }

  /** Python's `str(n)` for a non-negative integer: its shortest decimal digits. */
  function NatToString(n: nat): (s: string)
    ensures s != [] && AllDigits(s)
    ensures |s| > 1 ==> s[0] != '0'
  {
    if n < 10 then [('0' as int + n) as char]
    else NatToString(n / 10) + [('0' as int + n % 10) as char]
  }

  /** `int(str(n)) == n`. */
  lemma {:induction false} ParseNatToString(n: nat)
    ensures ParseNat(NatToString(n)) == Some(n)
  {
    var s := NatToString(n);
    if n < 10 {
      assert s[..|s| - 1] == [];
    } else {
      ParseNatToString(n / 10);
      assert s[..|s| - 1] == NatToString(n / 10);
      assert DigitsValue(s) == DigitsValue(NatToString(n / 10)) * 10 + n % 10;
    }
  }
}
