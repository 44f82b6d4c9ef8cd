/**
 * String helpers shared by the format codecs, the path helpers and the
 * accelerator formatter.  Strings are `seq<char>`; the JavaScript string
 * operations the editor relies on (`parseInt(s, 10)`, `trim`, `split`,
 * `join`, `startsWith`, `endsWith`, `replace`) are written out here.
 */
module Text {
  import opened Wrappers

  predicate IsDigit(c: char)
  {
    '0' <= c <= '9'
  }

  function DigitValue(c: char): (d: nat)
    requires IsDigit(c)
    ensures d < 10
  {
    (c as int - '0' as int) as nat
  }

  function DigitChar(d: nat): (c: char)
    requires d < 10
    ensures IsDigit(c) && DigitValue(c) == d
  {
    ('0' as int + d) as char
  }

  predicate AllDigits(s: string)
  {
    forall i :: 0 <= i < |s| ==> IsDigit(s[i])
  }

  /**
   * The white space JavaScript's `trim`, `\s` and `parseInt` skip: the ASCII
   * controls tab to carriage return, the space separators of Unicode (space,
   * NBSP, U+1680, U+2000 to U+200A, U+202F, U+205F, U+3000), the line and
   * paragraph separators and the BOM.
   */
  predicate IsSpace(c: char)
  {
    c == ' ' || c == '\t' || c == '\n' || c == '\r' || c == '\U{0B}' || c == '\U{0C}'
    || c == '\U{A0}' || c == '\U{1680}' || '\U{2000}' <= c <= '\U{200A}'
    || c == '\U{202F}' || c == '\U{205F}' || c == '\U{3000}'
    || c == '\U{2028}' || c == '\U{2029}' || c == '\U{FEFF}'
  }

  function TrimStart(s: string): (r: string)
    ensures |r| <= |s| && r == s[|s| - |r|..]
    ensures |r| > 0 ==> !IsSpace(r[0])
    ensures forall i :: 0 <= i < |s| - |r| ==> IsSpace(s[i])
  {
    if |s| > 0 && IsSpace(s[0]) then TrimStart(s[1..]) else s
  }

  function TrimEnd(s: string): (r: string)
    ensures r <= s
    ensures |r| > 0 ==> !IsSpace(r[|r| - 1])
    ensures forall i :: |r| <= i < |s| ==> IsSpace(s[i])
  {
    if |s| > 0 && IsSpace(s[|s| - 1]) then TrimEnd(s[..|s| - 1]) else s
  }

  /** `s.trim()`. */
  function Trim(s: string): string
  {
    TrimEnd(TrimStart(s))
  }

  // ---------------------------------------------------------------------
  // Decimal integers: `String(n)` and `parseInt(s, 10)`

  function NatToString(n: nat): (s: string)
    ensures |s| > 0 && AllDigits(s)
  {
    if n < 10 then [DigitChar(n)] else NatToString(n / 10) + [DigitChar(n % 10)]
  }

  /** The value of a run of decimal digits, most significant first. */
  function DigitsValue(s: string): nat
    requires AllDigits(s)
  {
    if s == [] then 0 else DigitsValue(s[..|s| - 1]) * 10 + DigitValue(s[|s| - 1])
  }

  lemma {:induction false} DigitsValueOfNatToString(n: nat)
    ensures DigitsValue(NatToString(n)) == n
  {
    if n >= 10 {
      var s := NatToString(n);
      assert s[..|s| - 1] == NatToString(n / 10);
      DigitsValueOfNatToString(n / 10);
    }
  }

  /** `String(i)` for an integer. */
  function IntToString(i: int): (s: string)
    ensures |s| > 0
  {
    if i < 0 then "-" + NatToString(-i) else NatToString(i)
  }

  /** The longest prefix of `s` made of decimal digits. */
  function DigitPrefix(s: string): (d: string)
    ensures d <= s && AllDigits(d)
    ensures |d| < |s| ==> !IsDigit(s[|d|])
  {
    if |s| > 0 && IsDigit(s[0]) then [s[0]] + DigitPrefix(s[1..]) else []
  }

  lemma DigitPrefixOfDigits(s: string, rest: string)
    requires AllDigits(s)
    requires |rest| > 0 ==> !IsDigit(rest[0])
    ensures DigitPrefix(s + rest) == s
  {
    if |s| > 0 {
      assert (s + rest)[1..] == s[1..] + rest;
      DigitPrefixOfDigits(s[1..], rest);
    }
  }

  /**
   * `parseInt(s, 10)`: leading white space is skipped, one optional sign is
   * read, then the longest run of digits; `None` is JavaScript's `NaN`
   * (no digit at all).
   */
  function ParseInt(s: string): (r: Option<int>)
    ensures r.None? <==> DigitPrefix(SkipSign(TrimStart(s))) == []
  {
    var t := TrimStart(s);
    var digits := DigitPrefix(SkipSign(t));
    if digits == [] then None
    else if |t| > 0 && t[0] == '-' then Some(-(DigitsValue(digits) as int))
    else Some(DigitsValue(digits))
  }

  function SkipSign(t: string): string
  {
    if |t| > 0 && (t[0] == '-' || t[0] == '+') then t[1..] else t
  }

  /** `parseInt(s, 10) || 0`: `NaN` (and zero) become 0. */
  function ParseIntOrZero(s: string): int
  {
    ParseInt(s).GetOr(0)
  }

  /** `parseInt` reads back what `String` writes, whatever follows the number. */
  lemma ParseIntOfIntToString(i: int, rest: string)
    requires |rest| > 0 ==> !IsDigit(rest[0])
    ensures ParseInt(IntToString(i) + rest) == Some(i)
  {
    if i < 0 {
      ParseIntOfNegative(-i, rest);
      NegativeIntToString(i, rest);
    } else {
      ParseIntOfNatToString(i, rest);
    }
  }

  lemma NegativeIntToString(i: int, rest: string)
    requires i < 0
    ensures IntToString(i) + rest == "-" + (NatToString(-i) + rest)
  {
  }

  lemma ParseIntOfNatToString(n: nat, rest: string)
    requires |rest| > 0 ==> !IsDigit(rest[0])
    ensures ParseInt(IntToString(n) + rest) == Some(n)
  {
    assert IntToString(n) == NatToString(n);
    DigitsValueOfNatToString(n);
    DigitPrefixOfDigits(NatToString(n), rest);
    ParseIntOfDigits(NatToString(n), n, rest);
  }

  lemma ParseIntOfNegative(n: nat, rest: string)
    requires |rest| > 0 ==> !IsDigit(rest[0])
    ensures ParseInt("-" + (NatToString(n) + rest)) == Some(-(n as int))
  {
    DigitsValueOfNatToString(n);
    DigitPrefixOfDigits(NatToString(n), rest);
    ParseIntOfNegativeDigits(NatToString(n), n, rest);
  }

  lemma ParseIntOfDigits(digits: string, v: nat, rest: string)
    requires |digits| > 0 && AllDigits(digits) && DigitsValue(digits) == v
    requires DigitPrefix(digits + rest) == digits
    ensures ParseInt(digits + rest) == Some(v)
  {
    var s := digits + rest;
    assert s[0] == digits[0];
    NoSpaceFirst(s);
    assert SkipSign(s) == s;
  }

  /** A string starting with a digit has no leading white space to skip. */
  lemma NoSpaceFirst(s: string)
    requires |s| > 0 && IsDigit(s[0])
    ensures TrimStart(s) == s
  {
    assert !IsSpace(s[0]);
  }

  lemma ParseIntOfNegativeDigits(digits: string, v: nat, rest: string)
    requires |digits| > 0 && AllDigits(digits) && DigitsValue(digits) == v
    requires DigitPrefix(digits + rest) == digits
    ensures ParseInt("-" + (digits + rest)) == Some(-(v as int))
  {
    var s := "-" + (digits + rest);
    assert TrimStart(s) == s;
    assert SkipSign(s) == digits + rest;
  }

  // ---------------------------------------------------------------------
  // Prefixes, suffixes and search

  predicate StartsWith(s: string, prefix: string)
  {
    |prefix| <= |s| && s[..|prefix|] == prefix
  }

  predicate EndsWith(s: string, suffix: string)
  {
    |suffix| <= |s| && s[|s| - |suffix|..] == suffix
  }

  /** Whether `pat` occurs in `s` at position `i`. */
  predicate OccursAt(s: string, pat: string, i: nat)
  {
    i + |pat| <= |s| && s[i..i + |pat|] == pat
  }

  /** `s.indexOf(pat)`: the first position where `pat` occurs, `None` for -1. */
  function IndexOf(s: string, pat: string, from: nat := 0): (r: Option<nat>)
    requires from <= |s|
    ensures r.Some? ==> from <= r.value && OccursAt(s, pat, r.value)
    ensures forall i :: from <= i < (if r.Some? then r.value else |s| + 1) ==> !OccursAt(s, pat, i)
    decreases |s| - from
  {
    if OccursAt(s, pat, from) then Some(from)
    else if from == |s| then None
    else IndexOf(s, pat, from + 1)
  }

  /** `s.replace(pat, rep)` with a string pattern: only the first occurrence. */
  function ReplaceFirst(s: string, pat: string, rep: string): string
  {
    match IndexOf(s, pat)
    case None => s
    case Some(i) => s[..i] + rep + s[i + |pat|..]
  }

  /** `s.replace(/c/g, rep)` for a single character `c`. */
  function ReplaceChar(s: string, c: char, rep: string): (r: string)
    ensures c !in rep ==> c !in r
    ensures c !in s ==> r == s
    ensures forall x :: x in r ==> x in s || x in rep
  {
    if s == [] then []
    else (if s[0] == c then rep else [s[0]]) + ReplaceChar(s[1..], c, rep)
  }

  /** Replacing a character works piecewise over a concatenation. */
  lemma {:induction false} ReplaceCharConcat(a: string, b: string, c: char, rep: string)
    ensures ReplaceChar(a + b, c, rep) == ReplaceChar(a, c, rep) + ReplaceChar(b, c, rep)
  {
    if a == [] {
      assert a + b == b;
    } else {
      assert (a + b)[0] == a[0];
      assert (a + b)[1..] == a[1..] + b;
      ReplaceCharConcat(a[1..], b, c, rep);
    }
  }

  // ---------------------------------------------------------------------
  // `split` and `join` on a one-character separator

  /** `s.split(sep)`: there is always at least one part; no part holds `sep`. */
  function Split(s: string, sep: char): (parts: seq<string>)
    ensures |parts| >= 1
    ensures forall k :: 0 <= k < |parts| ==> sep !in parts[k]
  {
    if s == [] then [""]
    else
      var rest := Split(s[1..], sep);
      if s[0] == sep then [""] + rest else [[s[0]] + rest[0]] + rest[1..]
  }

  /** `parts.join(sep)`. */
  function Join(parts: seq<string>, sep: string): string
  {
    if parts == [] then ""
    else if |parts| == 1 then parts[0]
    else parts[0] + sep + Join(parts[1..], sep)
  }

  lemma {:induction false} JoinSplit(s: string, sep: char)
    ensures Join(Split(s, sep), [sep]) == s
  {
    if s != [] {
      var rest := Split(s[1..], sep);
      JoinSplit(s[1..], sep);
      if s[0] != sep {
        if |rest| == 1 {
          assert Split(s, sep) == [[s[0]] + rest[0]];
        } else {
          assert Split(s, sep)[1..] == rest[1..];
          assert Join(rest, [sep]) == rest[0] + [sep] + Join(rest[1..], [sep]);
        }
      }
    }
  }

  lemma {:induction false} SplitJoin(parts: seq<string>, sep: char)
    requires |parts| >= 1
    requires forall k :: 0 <= k < |parts| ==> sep !in parts[k]
    ensures Split(Join(parts, [sep]), sep) == parts
    decreases |parts|, |parts[0]|
  {
    var head := parts[0];
    if head == [] {
      if |parts| > 1 {
        assert Join(parts, [sep]) == [sep] + Join(parts[1..], [sep]);
        assert (Join(parts, [sep]))[1..] == Join(parts[1..], [sep]);
        SplitJoin(parts[1..], sep);
      }
    } else {
      var shorter := [head[1..]] + parts[1..];
      assert Join(parts, [sep]) == [head[0]] + Join(shorter, [sep]) by {
        if |parts| > 1 {
          assert shorter[1..] == parts[1..];
        }
      }
      assert sep !in head[1..] by {
        assert forall x :: x in head[1..] ==> x in head;
      }
      assert Join(parts, [sep])[1..] == Join(shorter, [sep]);
      SplitJoin(shorter, sep);
      assert [head[0]] + head[1..] == head;
    }
  }
}
