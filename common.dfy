/**
 * String and sequence helpers shared by every module: the subset of Python's
 * `str` methods, slicing and `int()` that the repository's scripts rely on,
 * restricted to ASCII (see README, "Left out").
 */
module Common {

  datatype Option<T> = None | Some(value: T)

  datatype Result<T, E> = Ok(value: T) | Err(error: E)

  // ---------------------------------------------------------------------------
  // Characters
  // ---------------------------------------------------------------------------

  /** The ASCII characters for which Python's `str.isspace()` holds; `\s` in a
      regular expression and the argument-less `strip()` use the same set. */
  predicate IsSpace(c: char)
  {
    // space, tab, line feed, vertical tab, form feed, carriage return, and the
    // four information separators 0x1c-0x1f
    c == ' ' || 9 <= c as int <= 13 || 28 <= c as int <= 31
  }

  predicate IsDigit(c: char)
  {
    '0' <= c <= '9'
  }

  predicate IsUpper(c: char)
  {
    'A' <= c <= 'Z'
  }

  predicate IsLowerAlnum(c: char)
  {
    'a' <= c <= 'z' || IsDigit(c)
  }

  function LowerChar(c: char): (r: char)
    ensures !IsUpper(r)
    ensures IsUpper(c) ==> r as int == c as int + 32
    ensures !IsUpper(c) ==> r == c
  {
    if IsUpper(c) then (c as int + 32) as char else c
  }

  /** Python's `str.lower()` on ASCII letters. */
  function ToLower(s: string): (r: string)
    ensures |r| == |s|
    ensures forall i :: 0 <= i < |s| ==> r[i] == LowerChar(s[i])
  {
    seq(|s|, i requires 0 <= i < |s| => LowerChar(s[i]))
  }

  lemma ToLowerIdempotent(s: string)
    ensures ToLower(ToLower(s)) == ToLower(s)
  {
  }

  lemma ToLowerConcat(a: string, b: string)
    ensures ToLower(a + b) == ToLower(a) + ToLower(b)
  {
  }

  // ---------------------------------------------------------------------------
  // Stripping
  // ---------------------------------------------------------------------------

  /** Number of leading characters of `s` satisfying `drop`. */
  function LeadCount(s: string, drop: char -> bool): (n: nat)
    ensures n <= |s|
    ensures forall i :: 0 <= i < n ==> drop(s[i])
    ensures n < |s| ==> !drop(s[n])
  {
    if |s| > 0 && drop(s[0]) then 1 + LeadCount(s[1..], drop) else 0
  }

  /** Number of trailing characters of `s` satisfying `drop`. */
  function TrailCount(s: string, drop: char -> bool): (n: nat)
    ensures n <= |s|
    ensures forall i :: |s| - n <= i < |s| ==> drop(s[i])
    ensures n < |s| ==> !drop(s[|s| - n - 1])
  {
    if |s| > 0 && drop(s[|s| - 1]) then 1 + TrailCount(s[..|s| - 1], drop) else 0
  }

  /** Python's `lstrip`: drops the longest prefix of dropped characters. */
  function LStripBy(s: string, drop: char -> bool): (r: string)
  {
    s[LeadCount(s, drop)..]
  }

  /** Python's `rstrip`: drops the longest suffix of dropped characters. */
  function RStripBy(s: string, drop: char -> bool): (r: string)
  {
    s[..|s| - TrailCount(s, drop)]
  }

  function StripBy(s: string, drop: char -> bool): (r: string)
  {
    RStripBy(LStripBy(s, drop), drop)
  }

  /** Python's argument-less `str.strip()`. */
  function Strip(s: string): (r: string)
  {
    StripBy(s, IsSpace)
  }

  /** Python's `str.strip(c)` for a single character `c`. */
  function StripChar(s: string, c: char): (r: string)
  {
    StripBy(s, x => x == c)
  }

  lemma LeadCountZero(s: string, drop: char -> bool)
    requires s == [] || !drop(s[0])
    ensures LeadCount(s, drop) == 0
  {
  }

  lemma TrailCountZero(s: string, drop: char -> bool)
    requires s == [] || !drop(s[|s| - 1])
    ensures TrailCount(s, drop) == 0
  {
  }

  /** A string that neither starts nor ends with a dropped character is its own strip. */
  lemma StripByNoop(r: string, drop: char -> bool)
    requires r == [] || (!drop(r[0]) && !drop(r[|r| - 1]))
    ensures StripBy(r, drop) == r
  {
    LeadCountZero(r, drop);
    assert LStripBy(r, drop) == r[0..] == r;
    TrailCountZero(r, drop);
    assert RStripBy(r, drop) == r[..|r|] == r;
  }

  /** `strip` removes exactly the surrounding runs of dropped characters: the
      result is the slice of the input between them, it neither starts nor
      ends with a dropped character, and stripping it again changes nothing. */
  lemma {:induction false} StripByShape(s: string, drop: char -> bool)
    ensures LeadCount(s, drop) + |StripBy(s, drop)| <= |s|
    ensures StripBy(s, drop) == s[LeadCount(s, drop)..LeadCount(s, drop) + |StripBy(s, drop)|]
    ensures forall i :: LeadCount(s, drop) + |StripBy(s, drop)| <= i < |s| ==> drop(s[i])
    ensures var r := StripBy(s, drop); r == [] || (!drop(r[0]) && !drop(r[|r| - 1]))
    ensures StripBy(StripBy(s, drop), drop) == StripBy(s, drop)
  {
    StripBySlice(s, drop);
    StripByEnds(s, drop);
    StripByNoop(StripBy(s, drop), drop);
  }

  lemma StripBySlice(s: string, drop: char -> bool)
    ensures LeadCount(s, drop) + |StripBy(s, drop)| <= |s|
    ensures StripBy(s, drop) == s[LeadCount(s, drop)..LeadCount(s, drop) + |StripBy(s, drop)|]
    ensures forall i :: LeadCount(s, drop) + |StripBy(s, drop)| <= i < |s| ==> drop(s[i])
  {
    var a := LeadCount(s, drop);
    var l := s[a..];
    var r := l[..|l| - TrailCount(l, drop)];
    assert StripBy(s, drop) == r;
    assert r == s[a..a + |r|];
    forall i | a + |r| <= i < |s| ensures drop(s[i]) {
      assert s[i] == l[i - a];
    }
  }

  lemma StripByEnds(s: string, drop: char -> bool)
    ensures var r := StripBy(s, drop); r == [] || (!drop(r[0]) && !drop(r[|r| - 1]))
  {
    var l := s[LeadCount(s, drop)..];
    var b := TrailCount(l, drop);
    var r := l[..|l| - b];
    assert StripBy(s, drop) == r;
    if r != [] {
      assert r[0] == l[0];
      assert r[|r| - 1] == l[|l| - b - 1];
    }
  }

  /** The characters of a stripped text come from the text. */
  lemma StripChars(s: string)
    ensures forall k :: 0 <= k < |Strip(s)| ==> Strip(s)[k] in s
  {
    StripByShape(s, IsSpace);
    var a := LeadCount(s, IsSpace);
    forall k | 0 <= k < |Strip(s)| ensures Strip(s)[k] in s {
      assert Strip(s)[k] == s[a + k];
    }
  }

  lemma StripIdempotent(s: string)
    ensures Strip(Strip(s)) == Strip(s)
  {
    StripByShape(s, IsSpace);
  }

  /** Text without upper-case letters is its own `lower()`. */
  lemma ToLowerNoUpper(s: string)
    requires forall i :: 0 <= i < |s| ==> !IsUpper(s[i])
    ensures ToLower(s) == s
  {
  }

  lemma {:induction false} LeadCountLower(s: string)
    ensures LeadCount(ToLower(s), IsSpace) == LeadCount(s, IsSpace)
  {
    if |s| > 0 {
      assert ToLower(s)[1..] == ToLower(s[1..]);
      LeadCountLower(s[1..]);
    }
  }

  lemma {:induction false} TrailCountLower(s: string)
    ensures TrailCount(ToLower(s), IsSpace) == TrailCount(s, IsSpace)
  {
    if |s| > 0 {
      assert ToLower(s)[..|s| - 1] == ToLower(s[..|s| - 1]);
      TrailCountLower(s[..|s| - 1]);
    }
  }

  lemma ToLowerSlice(s: string, i: nat, j: nat)
    requires i <= j <= |s|
    ensures ToLower(s)[i..j] == ToLower(s[i..j])
  {
  }

  lemma LStripLower(s: string)
    ensures LStripBy(ToLower(s), IsSpace) == ToLower(LStripBy(s, IsSpace))
  {
    var a := LeadCount(s, IsSpace);
    LeadCountLower(s);
    ToLowerSlice(s, a, |s|);
    assert s[a..|s|] == s[a..];
    assert ToLower(s)[a..|s|] == ToLower(s)[a..];
  }

  lemma RStripLower(s: string)
    ensures RStripBy(ToLower(s), IsSpace) == ToLower(RStripBy(s, IsSpace))
  {
    var b := TrailCount(s, IsSpace);
    TrailCountLower(s);
    ToLowerSlice(s, 0, |s| - b);
    assert s[0..|s| - b] == s[..|s| - b];
    assert ToLower(s)[0..|s| - b] == ToLower(s)[..|s| - b];
  }

  /** Lower-casing and stripping commute: case changes no whitespace. */
  lemma StripToLower(s: string)
    ensures Strip(ToLower(s)) == ToLower(Strip(s))
  {
    LStripLower(s);
    RStripLower(LStripBy(s, IsSpace));
  }

  /** A string with no whitespace is its own `strip()`. */
  lemma StripNoSpace(s: string)
    requires forall i :: 0 <= i < |s| ==> !IsSpace(s[i])
    ensures Strip(s) == s
  {
    LeadCountZero(s, IsSpace);
    assert s[0..] == s;
    TrailCountZero(s, IsSpace);
    assert s[..|s|] == s;
  }

  // ---------------------------------------------------------------------------
  // Replacing, filtering, splitting
  // ---------------------------------------------------------------------------

  /** Python's `str.replace(pat, rep)`: every non-overlapping occurrence of
      `pat`, found left to right, is replaced by `rep`. */
  function Replace(s: string, pat: string, rep: string): (r: string)
    requires |pat| > 0
    decreases |s|
  {
    if |s| < |pat| then s
    else if s[..|pat|] == pat then rep + Replace(s[|pat|..], pat, rep)
    else [s[0]] + Replace(s[1..], pat, rep)
  }

  /** The characters of `s` other than `c`, in order. */
  function RemoveChar(s: string, c: char): (r: string)
    ensures c !in r
    ensures |r| <= |s|
    ensures c !in s ==> r == s
  {
    if s == [] then [] else (if s[0] == c then [] else [s[0]]) + RemoveChar(s[1..], c)
  }

  /** Every character `c` of `s` replaced by `d`. */
  function MapChar(s: string, c: char, d: char): (r: string)
    ensures |r| == |s|
    ensures forall i :: 0 <= i < |s| ==> r[i] == if s[i] == c then d else s[i]
  {
    seq(|s|, i requires 0 <= i < |s| => if s[i] == c then d else s[i])
  }

  /** Replacing a one-character pattern by nothing removes that character. */
  lemma {:induction false} ReplaceCharByNothing(s: string, c: char)
    ensures Replace(s, [c], "") == RemoveChar(s, c)
  {
    if |s| > 0 {
      ReplaceCharByNothing(s[1..], c);
      assert s[..1] == [s[0]];
    }
  }

  /** Replacing a one-character pattern by one character maps that character. */
  lemma {:induction false} ReplaceCharByChar(s: string, c: char, d: char)
    ensures Replace(s, [c], [d]) == MapChar(s, c, d)
  {
    if |s| > 0 {
      ReplaceCharByChar(s[1..], c, d);
      assert s[..1] == [s[0]];
      assert MapChar(s, c, d) == [if s[0] == c then d else s[0]] + MapChar(s[1..], c, d);
    }
  }

  lemma {:induction false} RemoveCharConcat(a: string, b: string, c: char)
    ensures RemoveChar(a + b, c) == RemoveChar(a, c) + RemoveChar(b, c)
  {
    if a != [] {
      var head: string := if a[0] == c then [] else [a[0]];
      assert (a + b)[0] == a[0];
      assert (a + b)[1..] == a[1..] + b;
      assert RemoveChar(a + b, c) == head + RemoveChar(a[1..] + b, c);
      RemoveCharConcat(a[1..], b, c);
      assert RemoveChar(a, c) == head + RemoveChar(a[1..], c);
    } else {
      assert a + b == b;
    }
  }

  /** Python's `str.split(sep)` for a single-character separator. */
  function Split(s: string, sep: char): (r: seq<string>)
    ensures |r| >= 1
    ensures forall k :: 0 <= k < |r| ==> sep !in r[k]
  {
    if s == [] then [""]
    else
      var rest := Split(s[1..], sep);
      if s[0] == sep then [""] + rest
      else [[s[0]] + rest[0]] + rest[1..]
  }

  /** Python's `sep.join(parts)`. */
  function Join(parts: seq<string>, sep: char): string
  {
    if |parts| == 0 then ""
    else if |parts| == 1 then parts[0]
    else parts[0] + [sep] + Join(parts[1..], sep)
  }

  /** Joining the parts of a split with the same separator gives the input back. */
  lemma {:induction false} JoinSplit(s: string, sep: char)
    ensures Join(Split(s, sep), sep) == s
  {
    if s != [] {
      var rest := Split(s[1..], sep);
      JoinSplit(s[1..], sep);
      if s[0] == sep {
        assert Split(s, sep) == [""] + rest;
        assert ([""] + rest)[1..] == rest;
      } else {
        var r := [[s[0]] + rest[0]] + rest[1..];
        assert Split(s, sep) == r;
        if |rest| == 1 {
          assert Join(r, sep) == [s[0]] + rest[0];
        } else {
          assert r[1..] == rest[1..];
          assert Join(r, sep) == [s[0]] + rest[0] + [sep] + Join(rest[1..], sep);
          assert Join(rest, sep) == rest[0] + [sep] + Join(rest[1..], sep);
        }
      }
    }
  }

  /** A string without the separator splits into itself alone. */
  lemma {:induction false} SplitNoSep(s: string, sep: char)
    requires sep !in s
    ensures Split(s, sep) == [s]
  {
    if s != [] {
      SplitNoSep(s[1..], sep);
      assert [s[0]] + s[1..] == s;
    }
  }

  /** The text before the first separator is the first part; the rest splits
      on its own. */
  lemma {:induction false} SplitAround(a: string, b: string, sep: char)
    requires sep !in a
    ensures Split(a + [sep] + b, sep) == [a] + Split(b, sep)
  {
    if a == [] {
      assert (a + [sep] + b)[1..] == b;
    } else {
      assert (a + [sep] + b)[1..] == a[1..] + [sep] + b;
      SplitAround(a[1..], b, sep);
      assert [a[0]] + a[1..] == a;
    }
  }

  /** A string holding the separator splits into at least two parts. */
  lemma {:induction false} SplitHasSep(s: string, sep: char)
    requires sep in s
    ensures |Split(s, sep)| >= 2
  {
    if s[0] != sep {
      SplitHasSep(s[1..], sep);
    }
  }

  // ---------------------------------------------------------------------------
  // Python slicing and pandas head/tail
  // ---------------------------------------------------------------------------

  /** `s[:n]` in Python, for any integer `n` (also pandas `head(n)`). */
  function Prefix<T>(s: seq<T>, n: int): (r: seq<T>)
    ensures n >= 0 ==> r == s[..if n < |s| then n else |s|]
    ensures n < 0 ==> r == s[..if |s| + n > 0 then |s| + n else 0]
    ensures |r| <= |s|
  {
    if n >= |s| then s
    else if n >= 0 then s[..n]
    else if |s| + n > 0 then s[..|s| + n]
    else []
  }

  /** pandas `tail(n)`: the last `n` rows, nothing for 0, and for a negative
      `n` every row but the first `-n`. */
  function Tail<T>(s: seq<T>, n: int): (r: seq<T>)
    ensures n >= 0 ==> |r| == (if n < |s| then n else |s|)
    ensures n < 0 ==> |r| == (if |s| + n > 0 then |s| + n else 0)
    ensures r == s[|s| - |r|..]
  {
    if n == 0 then []
    else if n > 0 then (if n >= |s| then s else s[|s| - n..])
    else if -n >= |s| then []
    else s[-n..]
  }

  // ---------------------------------------------------------------------------
  // Integers and their decimal text
  // ---------------------------------------------------------------------------

  function DigitChar(d: nat): (c: char)
    requires d < 10
    ensures IsDigit(c)
  {
    ('0' as int + d) as char
  }

  function DigitValue(c: char): (d: nat)
    requires IsDigit(c)
    ensures d < 10
  {
    c as int - '0' as int
  }

  /** Value of a string of decimal digits. */
  function DigitsValue(ds: string): nat
    requires forall i :: 0 <= i < |ds| ==> IsDigit(ds[i])
  {
    if ds == [] then 0 else DigitsValue(ds[..|ds| - 1]) * 10 + DigitValue(ds[|ds| - 1])
  }

  /** Python's `str(n)` for a natural number: its decimal digits, no leading zero. */
  function NatToString(n: nat): (s: string)
    ensures |s| >= 1
    ensures forall i :: 0 <= i < |s| ==> IsDigit(s[i])
    ensures DigitsValue(s) == n
  {
    if n < 10 then [DigitChar(n)] else
      var s := NatToString(n / 10) + [DigitChar(n % 10)];
      assert s[..|s| - 1] == NatToString(n / 10);
      s
  }

  /** Python's `str(i)` for an integer. */
  function IntToString(i: int): (s: string)
  {
    if i < 0 then "-" + NatToString(-i) else NatToString(i)
  }

  /** Python's `int(x)` for a float: the integer part, rounded toward zero. */
  function Trunc(x: real): (i: int)
    ensures x >= 0.0 ==> 0 <= i && i as real <= x < i as real + 1.0
    ensures x < 0.0 ==> i <= 0 && i as real - 1.0 < x <= i as real
  {
    if x >= 0.0 then x.Floor else -((-x).Floor)
  }

  /** The body of a Python integer literal after the sign: digits, single
      underscores allowed between two digits. */
  predicate IsDigitGroups(s: string)
  {
    && |s| > 0 && IsDigit(s[0]) && IsDigit(s[|s| - 1])
    && (forall i :: 0 <= i < |s| ==> IsDigit(s[i]) || s[i] == '_')
    && (forall i :: 0 <= i < |s| - 1 ==> !(s[i] == '_' && s[i + 1] == '_'))
  }

  lemma {:induction false} RemoveCharDigits(s: string)
    requires forall i :: 0 <= i < |s| ==> IsDigit(s[i]) || s[i] == '_'
    ensures forall i :: 0 <= i < |RemoveChar(s, '_')| ==> IsDigit(RemoveChar(s, '_')[i])
  {
    if s != [] {
      RemoveCharDigits(s[1..]);
    }
  }

  function UnsignedValue(s: string): nat
    requires IsDigitGroups(s)
  {
    RemoveCharDigits(s);
    DigitsValue(RemoveChar(s, '_'))
  }

  /** Python's `int(s)` for a base-10 string: `None` where Python raises
      `ValueError`. Surrounding whitespace and one sign are accepted. */
  function ParseInt(s: string): (r: Option<int>)
  {
    var t := Strip(s);
    if |t| > 0 && (t[0] == '-' || t[0] == '+') then
      (if IsDigitGroups(t[1..]) then
         var v: int := UnsignedValue(t[1..]);
         Some(if t[0] == '-' then -v else v)
       else None)
    else if IsDigitGroups(t) then Some(UnsignedValue(t))
    else None
  }

  /** A non-empty run of digits is a valid literal body worth its digits. */
  lemma DigitsAreGroups(ds: string)
    requires |ds| > 0
    requires forall i :: 0 <= i < |ds| ==> IsDigit(ds[i])
    ensures IsDigitGroups(ds)
    ensures UnsignedValue(ds) == DigitsValue(ds)
  {
    assert '_' !in ds by {
      forall k | 0 <= k < |ds| ensures ds[k] != '_' {
        assert IsDigit(ds[k]);
      }
    }
  }

  /** `int(str(i)) == i`: the decimal text of an integer parses back to it. */
  lemma IntToStringRoundTrip(i: int)
    ensures ParseInt(IntToString(i)) == Some(i)
  {
    if i < 0 {
      NegativeRoundTrip(-i);
    } else {
      var ds := NatToString(i);
      ParseIntDigitsOnly(ds);
    }
  }

  /** A minus sign before digits leaves no whitespace to strip. */
  lemma SignedNoSpace(ds: string)
    requires forall i :: 0 <= i < |ds| ==> IsDigit(ds[i])
    ensures Strip("-" + ds) == "-" + ds
  {
    var s := "-" + ds;
    forall k | 0 <= k < |s| ensures !IsSpace(s[k]) {
      if k > 0 { assert s[k] == ds[k - 1]; }
    }
    StripNoSpace(s);
  }

  lemma ParseIntMinus(s: string, ds: string)
    requires Strip(s) == s && |s| > 0 && s[0] == '-' && s[1..] == ds && IsDigitGroups(ds)
    ensures ParseInt(s) == Some(-(UnsignedValue(ds) as int))
  {
  }

  lemma NegativeRoundTrip(n: nat)
    requires n > 0
    ensures ParseInt("-" + NatToString(n)) == Some(-(n as int))
  {
    var ds := NatToString(n);
    DigitsAreGroups(ds);
    SignedNoSpace(ds);
    var s := "-" + ds;
    assert s[1..] == ds;
    ParseIntMinus(s, ds);
  }

  /** A plain run of digits parses to its value. */
  lemma ParseIntDigitsOnly(s: string)
    requires forall i :: 0 <= i < |s| ==> IsDigit(s[i])
    requires |s| > 0
    ensures ParseInt(s) == Some(DigitsValue(s))
  {
    StripNoSpace(s);
    DigitsAreGroups(s);
  }
}
