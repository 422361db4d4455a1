/**
 * Character classes and string operations with the semantics of Python's
 * `str` methods and of JavaScript's `trim`/`parseInt`, on strings of Unicode
 * scalar values.  Case mapping and digit classes are ASCII only.
 */
module Strs {
  import opened Wrappers

  predicate IsDigit(c: char) { '0' <= c <= '9' }
  predicate IsUpper(c: char) { 'A' <= c <= 'Z' }
  predicate IsLower(c: char) { 'a' <= c <= 'z' }
  predicate IsLetter(c: char) { IsUpper(c) || IsLower(c) }

  predicate AllDigits(s: string) { forall i :: 0 <= i < |s| ==> IsDigit(s[i]) }

  function UpperChar(c: char): char { if IsLower(c) then (c as int - 32) as char else c }
  function LowerChar(c: char): char { if IsUpper(c) then (c as int + 32) as char else c }

  /** `str.upper()` restricted to ASCII letters. */
  function Upper(s: string): string { seq(|s|, i requires 0 <= i < |s| => UpperChar(s[i])) }
  /** `str.lower()` restricted to ASCII letters. */
  function Lower(s: string): string { seq(|s|, i requires 0 <= i < |s| => LowerChar(s[i])) }

  /** Upper-casing twice is upper-casing once. */
  lemma UpperIdempotent(s: string)
    ensures Upper(Upper(s)) == Upper(s)
  {
  }

  /** Python's `str.isspace()` character class (the characters `str.strip()` removes). */
  predicate IsPySpace(c: char) {
    c == ' ' || ('\t' <= c <= '\r') || ('\U{1C}' <= c <= '\U{1F}') || c == '\U{85}' || c == '\U{A0}'
    || c == '\U{1680}' || ('\U{2000}' <= c <= '\U{200A}') || c == '\U{2028}' || c == '\U{2029}'
    || c == '\U{202F}' || c == '\U{205F}' || c == '\U{3000}'
  }

  /** The WhiteSpace and LineTerminator characters of ECMAScript, which `trim` and `parseInt` skip. */
  predicate IsJsSpace(c: char) {
    ('\t' <= c <= '\r') || c == ' ' || c == '\U{A0}' || c == '\U{1680}' || ('\U{2000}' <= c <= '\U{200A}')
    || c == '\U{2028}' || c == '\U{2029}' || c == '\U{202F}' || c == '\U{205F}' || c == '\U{3000}' || c == '\U{FEFF}'
  }

  /** Drops the leading characters satisfying `ws`. */
  function TrimLeft(s: string, ws: char -> bool): (r: string)
    ensures |r| <= |s| && r == s[|s| - |r|..]
    ensures r != [] ==> !ws(r[0])
    ensures forall i :: 0 <= i < |s| - |r| ==> ws(s[i])
    decreases |s|
  {
    if |s| > 0 && ws(s[0]) then TrimLeft(s[1..], ws) else s
  }

  /** Drops the trailing characters satisfying `ws`. */
  function TrimRight(s: string, ws: char -> bool): (r: string)
    ensures |r| <= |s| && r == s[..|r|]
    ensures r != [] ==> !ws(r[|r| - 1])
    ensures forall i :: |r| <= i < |s| ==> ws(s[i])
    decreases |s|
  {
    if |s| > 0 && ws(s[|s| - 1]) then TrimRight(s[..|s| - 1], ws) else s
  }

  /** Python's `str.strip()`. */
  function PyStrip(s: string): string { TrimRight(TrimLeft(s, IsPySpace), IsPySpace) }

  /** JavaScript's `String.prototype.trim()`. */
  function JsTrim(s: string): string { TrimRight(TrimLeft(s, IsJsSpace), IsJsSpace) }

  /** A stripped string is a slice of its input. */
  lemma PyStripSlice(s: string) returns (i: nat)
    ensures i + |PyStrip(s)| <= |s| && PyStrip(s) == s[i..i + |PyStrip(s)|]
  {
    var l := TrimLeft(s, IsPySpace);
    i := |s| - |l|;
  }

  /** A stripped string has no whitespace at either end. */
  lemma PyStripEnds(s: string)
    ensures var r := PyStrip(s); r != [] ==> !IsPySpace(r[0]) && !IsPySpace(r[|r| - 1])
  {
    var l := TrimLeft(s, IsPySpace);
    var r := TrimRight(l, IsPySpace);
    if r != [] {
      assert r[0] == l[0];
    }
  }

  /** `PyStrip` removes nothing from a string with no whitespace at either end. */
  lemma PyStripNoOp(s: string)
    requires s == [] || (!IsPySpace(s[0]) && !IsPySpace(s[|s| - 1]))
    ensures PyStrip(s) == s
  {
  }

  /** Stripping twice is stripping once. */
  lemma PyStripIdempotent(s: string)
    ensures PyStrip(PyStrip(s)) == PyStrip(s)
  {
    PyStripEnds(s);
    PyStripNoOp(PyStrip(s));
  }

  predicate StartsWith(s: string, p: string) { |p| <= |s| && s[..|p|] == p }

  /** `p in s` for strings. */
  predicate Contains(s: string, p: string)
    decreases |s|
  {
    StartsWith(s, p) || (|s| > 0 && Contains(s[1..], p))
  }

  /** A string that contains `p` from position `i` on contains `p`. */
  lemma {:induction false} ContainsFrom(s: string, p: string, i: int)
    requires 0 <= i <= |s| && StartsWith(s[i..], p)
    ensures Contains(s, p)
    decreases i
  {
    if i > 0 {
      assert s[1..][i - 1..] == s[i..];
      ContainsFrom(s[1..], p, i - 1);
    }
  }

  /** A string contains whatever any of its slices contains. */
  lemma {:induction false} ContainsSlice(s: string, p: string, i: int, j: int)
    requires 0 <= i <= j <= |s| && Contains(s[i..j], p)
    ensures Contains(s, p)
    decreases j - i
  {
    var t := s[i..j];
    if StartsWith(t, p) {
      assert s[i..][..|p|] == t[..|p|];
      ContainsFrom(s, p, i);
    } else {
      assert t[1..] == s[i + 1..j];
      ContainsSlice(s, p, i + 1, j);
    }
  }

  /** Stripping cannot create an occurrence of a pattern. */
  lemma StripKeepsAbsent(s: string, p: string)
    requires !Contains(s, p)
    ensures !Contains(PyStrip(s), p)
  {
    var i := PyStripSlice(s);
    var t := PyStrip(s);
    if Contains(t, p) {
      assert s[i..i + |t|] == t;
      ContainsSlice(s, p, i, i + |t|);
    }
  }

  /** Python's `s.split(sep)` for a non-empty separator: split at every occurrence, left to right. */
  function SplitOn(s: string, sep: string): (parts: seq<string>)
    requires |sep| > 0
    ensures |parts| >= 1
    decreases |s|
  {
    if |s| < |sep| then [s]
    else if s[..|sep|] == sep then [""] + SplitOn(s[|sep|..], sep)
    else var r := SplitOn(s[1..], sep); [[s[0]] + r[0]] + r[1..]
  }

  /** A string without the separator splits into itself alone. */
  lemma {:induction false} SplitAbsent(s: string, sep: string)
    requires |sep| > 0 && !Contains(s, sep)
    ensures SplitOn(s, sep) == [s]
    decreases |s|
  {
    if |s| >= |sep| {
      assert !StartsWith(s, sep);
      SplitAbsent(s[1..], sep);
      assert [s[0]] + s[1..] == s;
    }
  }

  /** Python's `sep.join(parts)`. */
  function Join(parts: seq<string>, sep: string): string
  {
    if |parts| == 0 then "" else if |parts| == 1 then parts[0] else parts[0] + sep + Join(parts[1..], sep)
  }

  /** Joining the pieces of a split with the same separator gives the string back. */
  lemma {:induction false} JoinSplit(s: string, sep: string)
    requires |sep| > 0
    ensures Join(SplitOn(s, sep), sep) == s
    decreases |s|
  {
    if |s| < |sep| {
    } else if s[..|sep|] == sep {
      JoinSplit(s[|sep|..], sep);
      JoinSplitSep(s, sep);
    } else {
      JoinSplit(s[1..], sep);
      JoinSplitStep(s, sep);
    }
  }

  /** The step of `JoinSplit` at a character that does not start the separator. */
  lemma JoinSplitStep(s: string, sep: string)
    requires |sep| > 0 && |s| >= |sep| && s[..|sep|] != sep
    requires Join(SplitOn(s[1..], sep), sep) == s[1..]
    ensures Join(SplitOn(s, sep), sep) == s
  {
    var r := SplitOn(s[1..], sep);
    assert SplitOn(s, sep) == [[s[0]] + r[0]] + r[1..];
    JoinCons(s[0], r, sep);
    assert s == [s[0]] + s[1..];
  }

  /** The step of `JoinSplit` at an occurrence of the separator. */
  lemma JoinSplitSep(s: string, sep: string)
    requires |sep| > 0 && |s| >= |sep| && s[..|sep|] == sep
    requires Join(SplitOn(s[|sep|..], sep), sep) == s[|sep|..]
    ensures Join(SplitOn(s, sep), sep) == s
  {
    var r := SplitOn(s[|sep|..], sep);
    assert SplitOn(s, sep) == [""] + r;
    JoinEmptyHead(r, sep);
    PrefixThenRest(s, sep);
  }

  /** A string that starts with `p` is `p` followed by the rest. */
  lemma PrefixThenRest(s: string, p: string)
    requires |p| <= |s| && s[..|p|] == p
    ensures s == p + s[|p|..]
  {
    assert s == s[..|p|] + s[|p|..];
  }

  /** An empty first piece joins to the separator in front of the rest. */
  lemma JoinEmptyHead(r: seq<string>, sep: string)
    requires |r| >= 1
    ensures Join([""] + r, sep) == sep + Join(r, sep)
  {
    assert ([""] + r)[1..] == r;
    assert "" + sep + Join(r, sep) == sep + Join(r, sep);
  }

  /** Putting a character in front of the first piece puts it in front of the joined string. */
  lemma JoinCons(c: char, r: seq<string>, sep: string)
    requires |r| >= 1
    ensures Join([[c] + r[0]] + r[1..], sep) == [c] + Join(r, sep)
  {
    var parts := [[c] + r[0]] + r[1..];
    if |r| > 1 {
      var x, j := r[0], Join(r[1..], sep);
      assert parts[1..] == r[1..];
      assert ([c] + x) + sep + j == [c] + (x + sep + j);
    }
  }

  function Count(s: string, c: char): nat
  {
    if |s| == 0 then 0 else (if s[0] == c then 1 else 0) + Count(s[1..], c)
  }

  lemma {:induction false} CountAppend(a: string, b: string, c: char)
    ensures Count(a + b, c) == Count(a, c) + Count(b, c)
    decreases |a|
  {
    if |a| == 0 {
      assert a + b == b;
    } else {
      assert (a + b)[1..] == a[1..] + b;
      CountAppend(a[1..], b, c);
    }
  }

  lemma {:induction false} CountZero(s: string, c: char)
    ensures Count(s, c) == 0 <==> c !in s
    decreases |s|
  {
    if |s| > 0 {
      CountZero(s[1..], c);
      assert s == [s[0]] + s[1..];
    }
  }

  /** Splitting a string that does not contain the separator character gives the string alone. */
  lemma {:induction false} SplitNoSep(s: string, c: char)
    requires c !in s
    ensures SplitOn(s, [c]) == [s]
    decreases |s|
  {
    if |s| >= 1 {
      assert s[..1] != [c] by { assert s[..1][0] == s[0]; }
      SplitNoSep(s[1..], c);
      assert [s[0]] + s[1..] == s;
    }
  }

  /** Splitting `a + [c] + b`, where `a` has no `c`, yields `a` and then the pieces of `b`. */
  lemma {:induction false} SplitFirst(a: string, c: char, b: string)
    requires c !in a
    ensures SplitOn(a + [c] + b, [c]) == [a] + SplitOn(b, [c])
    decreases |a|
  {
    var s := a + [c] + b;
    if |a| == 0 {
      assert s[..1] == [c];
      assert s[1..] == b;
    } else {
      assert s[..1] != [c] by { assert s[..1][0] == a[0]; }
      assert s[1..] == a[1..] + [c] + b;
      SplitFirst(a[1..], c, b);
      assert [a[0]] + a[1..] == a;
    }
  }

  lemma PieceFree(a: string, b: string, c: char)
    requires c !in a
    requires forall k :: 0 <= k < |SplitOn(b, [c])| ==> c !in SplitOn(b, [c])[k]
    ensures forall k :: 0 <= k < |[a] + SplitOn(b, [c])| ==> c !in ([a] + SplitOn(b, [c]))[k]
  {
    forall k | 0 <= k < |[a] + SplitOn(b, [c])|
      ensures c !in ([a] + SplitOn(b, [c]))[k]
    {
      if k > 0 {
        assert ([a] + SplitOn(b, [c]))[k] == SplitOn(b, [c])[k - 1];
      }
    }
  }

  /** Splitting on one character gives one more piece than there are occurrences, none containing it. */
  lemma {:induction false} SplitCount(s: string, c: char)
    ensures |SplitOn(s, [c])| == Count(s, c) + 1
    ensures forall k :: 0 <= k < |SplitOn(s, [c])| ==> c !in SplitOn(s, [c])[k]
    decreases |s|
  {
    if |s| > 0 {
      SplitCount(s[1..], c);
      var r := SplitOn(s[1..], [c]);
      if s[0] == c {
        assert s == "" + [c] + s[1..];
        SplitFirst("", c, s[1..]);
        PieceFree("", s[1..], c);
      } else {
        assert s[..1] != [c] by { assert s[..1][0] == s[0]; }
        assert SplitOn(s, [c]) == [[s[0]] + r[0]] + r[1..];
        forall k | 0 <= k < |SplitOn(s, [c])|
          ensures c !in SplitOn(s, [c])[k]
        {
          if k > 0 {
            assert SplitOn(s, [c])[k] == r[k];
          }
        }
      }
    }
  }

  /** Splitting a join of pieces free of the separator character gives the pieces back. */
  lemma {:induction false} SplitJoin(parts: seq<string>, c: char)
    requires |parts| >= 1
    requires forall k :: 0 <= k < |parts| ==> c !in parts[k]
    ensures SplitOn(Join(parts, [c]), [c]) == parts
    decreases |parts|
  {
    if |parts| == 1 {
      SplitNoSep(parts[0], c);
    } else {
      SplitJoin(parts[1..], c);
      assert Join(parts, [c]) == parts[0] + [c] + Join(parts[1..], [c]);
      SplitFirst(parts[0], c, Join(parts[1..], [c]));
      assert parts == [parts[0]] + parts[1..];
    }
  }

  /** Python's `s.replace(pat, repl)` for a non-empty `pat`: every occurrence, left to right, without overlap. */
  function ReplaceAll(s: string, pat: string, repl: string): string
    requires |pat| > 0
    decreases |s|
  {
    if |s| < |pat| then s
    else if s[..|pat|] == pat then repl + ReplaceAll(s[|pat|..], pat, repl)
    else [s[0]] + ReplaceAll(s[1..], pat, repl)
  }

  /** Replacing a pattern that does not occur changes nothing. */
  lemma {:induction false} ReplaceAbsent(s: string, pat: string, repl: string)
    requires |pat| > 0 && !Contains(s, pat)
    ensures ReplaceAll(s, pat, repl) == s
    decreases |s|
  {
    if |s| >= |pat| {
      ReplaceAbsent(s[1..], pat, repl);
      assert [s[0]] + s[1..] == s;
    }
  }

  function DigitChar(d: nat): char
    requires d < 10
  {
    (('0' as int) + d) as char
  }

  function DigitVal(c: char): nat
    requires IsDigit(c)
  {
    c as int - '0' as int
  }

  /** The decimal digits of `n` without leading zeros (`str(n)` for a non-negative int). */
  function NatToString(n: nat): (s: string)
    ensures |s| >= 1 && AllDigits(s)
    decreases n
  {
    if n < 10 then [DigitChar(n)] else NatToString(n / 10) + [DigitChar(n % 10)]
  }

  /** `str(i)` for a Python int. */
  function IntToString(i: int): string
  {
    if i < 0 then "-" + NatToString(-i) else NatToString(i)
  }

  /** The value of a string of ASCII digits read in base 10. */
  function DigitsValue(s: string): nat
    requires AllDigits(s)
    decreases |s|
  {
    if |s| == 0 then 0 else DigitsValue(s[..|s| - 1]) * 10 + DigitVal(s[|s| - 1])
  }

  /** Reading back the decimal text of `n` gives `n`. */
  lemma {:induction false} NatToStringValue(n: nat)
    ensures DigitsValue(NatToString(n)) == n
    decreases n
  {
    if n >= 10 {
      NatToStringValue(n / 10);
      var s := NatToString(n);
      assert s[..|s| - 1] == NatToString(n / 10);
    }
  }

  /** The length of the decimal text of `n` is the number of its decimal digits. */
  lemma {:induction false} NatToStringLength(n: nat)
    ensures n < 10 ==> |NatToString(n)| == 1
    ensures 10 <= n < 100 ==> |NatToString(n)| == 2
    ensures 100 <= n < 1000 ==> |NatToString(n)| == 3
    ensures 1000 <= n < 10000 ==> |NatToString(n)| == 4
    ensures n >= 1000 ==> |NatToString(n)| >= 4
    decreases n
  {
    if n >= 10 {
      NatToStringLength(n / 10);
    }
  }

  /** The leading digit of a multi-digit `str(n)` is not zero. */
  lemma NatToStringLead(n: nat)
    requires n >= 10
    ensures NatToString(n)[0] != '0'
  {
    NatToStringLeadRec(n);
  }

  lemma {:induction false} NatToStringLeadRec(n: nat)
    requires n >= 1
    ensures NatToString(n)[0] != '0'
    decreases n
  {
    if n >= 10 {
      NatToStringLeadRec(n / 10);
    }
  }

  /** The longest prefix of `s` made of ASCII digits. */
  function DigitPrefix(s: string): (d: string)
    ensures |d| <= |s| && d == s[..|d|] && AllDigits(d)
    ensures |d| < |s| ==> !IsDigit(s[|d|])
    decreases |s|
  {
    if |s| > 0 && IsDigit(s[0]) then [s[0]] + DigitPrefix(s[1..]) else ""
  }

  /**
   * Python's `int(s)` on a string: surrounding whitespace, an optional sign and at
   * least one ASCII digit; None where `int` raises ValueError. The underscores `int`
   * accepts between digits ("1_0") are not modelled: such text gives None too.
   */
  function PyInt(s: string): (r: Option<int>)
  {
    var t := PyStrip(s);
    if |t| > 0 && (t[0] == '-' || t[0] == '+') then
      (if |t| > 1 && AllDigits(t[1..]) then (var v: int := DigitsValue(t[1..]); Some(if t[0] == '-' then -v else v)) else None)
    else if |t| > 0 && AllDigits(t) then Some(DigitsValue(t))
    else None
  }

  /** A stripped minus sign followed by digits reads as the negated digits. */
  lemma PyIntNegative(s: string)
    requires |s| > 1 && s[0] == '-' && AllDigits(s[1..]) && PyStrip(s) == s
    ensures PyInt(s) == Some(-(DigitsValue(s[1..]) as int))
  {
  }

  /** Digits read as their value. */
  lemma PyIntOfDigits(t: string)
    requires |t| > 0 && AllDigits(t)
    ensures PyInt(t) == Some(DigitsValue(t))
  {
    assert !IsPySpace(t[0]) && !IsPySpace(t[|t| - 1]);
    PyStripNoOp(t);
    PyIntUnsigned(t);
  }

  /** A stripped run of digits reads as its value. */
  lemma PyIntUnsigned(s: string)
    requires |s| > 0 && AllDigits(s) && PyStrip(s) == s
    ensures PyInt(s) == Some(DigitsValue(s))
  {
    assert s[0] != '-' && s[0] != '+';
  }

  /** A minus sign and digits read as the negated value. */
  lemma PyIntOfNegatedDigits(t: string, n: int)
    requires |t| > 0 && AllDigits(t) && DigitsValue(t) == -n
    ensures PyInt("-" + t) == Some(n)
  {
    var s := "-" + t;
    StripSigned(t);
    assert s[1..] == t;
    PyIntNegative(s);
  }

  /** A minus sign and digits have nothing to strip. */
  lemma StripSigned(t: string)
    requires |t| > 0 && AllDigits(t)
    ensures PyStrip("-" + t) == "-" + t
  {
    var s := "-" + t;
    assert s[|s| - 1] == t[|t| - 1];
    PyStripNoOp(s);
  }

  /** `str(i)` has nothing to strip. */
  lemma StripIntToString(i: int)
    ensures PyStrip(IntToString(i)) == IntToString(i)
  {
    if i < 0 {
      StripSigned(NatToString(-i));
    } else {
      var t := NatToString(i);
      assert !IsPySpace(t[0]) && !IsPySpace(t[|t| - 1]);
      PyStripNoOp(t);
    }
  }

  /** `int(str(i))` is `i`. */
  lemma PyIntOfIntToString(i: int)
    ensures PyInt(IntToString(i)) == Some(i)
  {
    if i < 0 {
      NatToStringValue(-i);
      PyIntOfNegatedDigits(NatToString(-i), i);
    } else {
      NatToStringValue(i);
      PyIntOfDigits(NatToString(i));
    }
  }

  /** The outcome of JavaScript's `parseInt`: a number or NaN. */
  datatype JsNumber = NaN | Num(n: int)

  /**
   * JavaScript's `parseInt(s, 10)`: skip leading whitespace, read an optional sign
   * and the longest run of decimal digits; NaN when there is none.
   */
  function JsParseInt(s: string): (r: JsNumber)
  {
    var t := TrimLeft(s, IsJsSpace);
    var neg := |t| > 0 && t[0] == '-';
    var body := if |t| > 0 && (t[0] == '-' || t[0] == '+') then t[1..] else t;
    var d := DigitPrefix(body);
    var v: int := DigitsValue(d);
    if d == "" then NaN else Num(if neg then -v else v)
  }

  /** `parseInt(String(n), 10)` is `n` for every integer. */
  lemma JsParseIntOfIntToString(i: int)
    ensures JsParseInt(IntToString(i)) == Num(i)
  {
    if i < 0 {
      NatToStringValue(-i);
      JsParseIntNegated(NatToString(-i), i);
    } else {
      NatToStringValue(i);
      JsParseIntDigits(NatToString(i));
    }
  }

  /** `parseInt` of digits is their value. */
  lemma JsParseIntDigits(t: string)
    requires |t| > 0 && AllDigits(t)
    ensures JsParseInt(t) == Num(DigitsValue(t))
  {
    assert !IsJsSpace(t[0]) && t[0] != '-' && t[0] != '+';
    TrimLeftNone(t, IsJsSpace);
    DigitPrefixAll(t);
    JsParseIntUnsigned(t);
  }

  /** `parseInt` of a string with no leading space or sign whose digit prefix is all of it. */
  lemma JsParseIntUnsigned(t: string)
    requires |t| > 0 && TrimLeft(t, IsJsSpace) == t && t[0] != '-' && t[0] != '+'
    requires AllDigits(t) && DigitPrefix(t) == t
    ensures JsParseInt(t) == Num(DigitsValue(t))
  {
  }

  /** Nothing is trimmed from a string that does not start with trimmed characters. */
  lemma TrimLeftNone(s: string, ws: char -> bool)
    requires |s| > 0 ==> !ws(s[0])
    ensures TrimLeft(s, ws) == s
  {
  }

  /** `parseInt` of a minus sign and digits is the negated value. */
  lemma JsParseIntNegated(t: string, n: int)
    requires |t| > 0 && AllDigits(t) && DigitsValue(t) == -n
    ensures JsParseInt("-" + t) == Num(n)
  {
    var s := "-" + t;
    assert s[0] == '-' && !IsJsSpace(s[0]);
    assert TrimLeft(s, IsJsSpace) == s;
    assert s[1..] == t;
    DigitPrefixAll(t);
  }

  lemma {:induction false} DigitPrefixAll(s: string)
    requires AllDigits(s)
    ensures DigitPrefix(s) == s
    decreases |s|
  {
    if |s| > 0 {
      DigitPrefixAll(s[1..]);
      assert s == [s[0]] + s[1..];
    }
  }

  predicate IsHexDigit(c: char) { IsDigit(c) || 'a' <= c <= 'f' || 'A' <= c <= 'F' }

  predicate AllHexDigits(s: string) { forall i :: 0 <= i < |s| ==> IsHexDigit(s[i]) }

  function HexDigitVal(c: char): nat
    requires IsHexDigit(c)
  {
    if IsDigit(c) then DigitVal(c) else if 'a' <= c <= 'f' then c as int - 'a' as int + 10 else c as int - 'A' as int + 10
  }

  /** The value of a string of hexadecimal digits. */
  function HexValue(s: string): nat
    requires AllHexDigits(s)
    decreases |s|
  {
    if |s| == 0 then 0 else HexValue(s[..|s| - 1]) * 16 + HexDigitVal(s[|s| - 1])
  }

  /** The longest prefix of `s` made of hexadecimal digits. */
  function HexPrefix(s: string): (h: string)
    ensures |h| <= |s| && h == s[..|h|] && AllHexDigits(h)
    ensures |h| < |s| ==> !IsHexDigit(s[|h|])
    decreases |s|
  {
    if |s| > 0 && IsHexDigit(s[0]) then [s[0]] + HexPrefix(s[1..]) else ""
  }

  /** After the sign, the text starts with `0x` or `0X`. */
  predicate HexPrefixed(body: string)
  {
    |body| >= 2 && body[0] == '0' && (body[1] == 'x' || body[1] == 'X')
  }

  /**
   * JavaScript's `parseInt(s)` with no radix: as `parseInt(s, 10)`, except that a `0x`
   * or `0X` after the optional sign switches to base 16, and NaN when no hexadecimal
   * digit follows it.
   */
  function JsParseIntNoRadix(s: string): (r: JsNumber)
  {
    var t := TrimLeft(s, IsJsSpace);
    var neg := |t| > 0 && t[0] == '-';
    var body := if |t| > 0 && (t[0] == '-' || t[0] == '+') then t[1..] else t;
    if HexPrefixed(body) then
      var h := HexPrefix(body[2..]);
      var v: int := HexValue(h);
      if h == "" then NaN else Num(if neg then -v else v)
    else JsParseInt(s)
  }

  /** Without a `0x` prefix the radix-less `parseInt` reads in base 10. */
  lemma JsParseIntNoRadixDecimal(s: string)
    requires var t := TrimLeft(s, IsJsSpace);
      !HexPrefixed(if |t| > 0 && (t[0] == '-' || t[0] == '+') then t[1..] else t)
    ensures JsParseIntNoRadix(s) == JsParseInt(s)
  {
  }

  /** `parseInt(String(n))` is `n`: decimal text never starts with `0x`. */
  lemma JsParseIntNoRadixOfIntToString(i: int)
    ensures JsParseIntNoRadix(IntToString(i)) == Num(i)
  {
    var s := IntToString(i);
    var d := NatToString(if i < 0 then -i else i);
    assert s == if i < 0 then "-" + d else d;
    assert !IsJsSpace(s[0]);
    TrimLeftNone(s, IsJsSpace);
    var body := if i < 0 then s[1..] else s;
    assert body == d;
    assert |d| >= 2 ==> IsDigit(d[1]);
    JsParseIntNoRadixDecimal(s);
    JsParseIntOfIntToString(i);
  }

  /** `parseInt("0x" + t)` reads the hexadecimal digits `t`, and `parseInt("0x")` is NaN. */
  lemma JsParseIntNoRadixHex(t: string)
    requires AllHexDigits(t)
    ensures JsParseIntNoRadix("0x" + t) == if t == "" then NaN else Num(HexValue(t))
  {
    var s := "0x" + t;
    assert s[0] == '0' && s[1] == 'x' && !IsJsSpace(s[0]);
    TrimLeftNone(s, IsJsSpace);
    assert TrimLeft(s, IsJsSpace) == s;
    assert HexPrefixed(s);
    assert s[2..] == t;
    HexPrefixAll(t);
    assert HexPrefix(s[2..]) == t;
  }

  lemma {:induction false} HexPrefixAll(s: string)
    requires AllHexDigits(s)
    ensures HexPrefix(s) == s
    decreases |s|
  {
    if |s| > 0 {
      HexPrefixAll(s[1..]);
      assert s == [s[0]] + s[1..];
    }
  }

  /** `parseInt("0x10")` is 16 where `parseInt("0x10", 10)` is 0. */
  lemma HexDiffersFromDecimal()
    ensures JsParseIntNoRadix("0x10") == Num(16) && JsParseInt("0x10") == Num(0)
  {
    HexOneZero();
    JsParseIntNoRadixHex("10");
    assert "0x" + "10" == "0x10";
    DecimalStopsAtX("10");
  }

  lemma HexOneZero()
    ensures AllHexDigits("10") && HexValue("10") == 16
  {
    var s := "10";
    assert s[..1] == "1";
    assert s[..1][..0] == "";
  }

  /** Base 10 stops at the `x` of `0x`: the value is 0. */
  lemma DecimalStopsAtX(t: string)
    ensures JsParseInt("0x" + t) == Num(0)
  {
    var s := "0x" + t;
    assert !IsJsSpace(s[0]);
    TrimLeftNone(s, IsJsSpace);
    assert s[1..] == "x" + t;
    assert DigitPrefix(s) == [s[0]] + DigitPrefix(s[1..]);
    assert DigitPrefix(s[1..]) == "";
    assert DigitPrefix(s) == "0";
    assert DigitsValue("0") == 0 by { assert "0"[..0] == ""; }
  }
}
