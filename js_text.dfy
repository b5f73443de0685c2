/**
  The few JavaScript string and number built-ins that the focus-session code
  relies on, stated over Dafny strings: `String.prototype.split` with a
  non-empty separator, `Number(str)` for hour fields, the decimal rendering of
  a non-negative integer (`'uid_' + Date.now()`), and `String.prototype.trim`.
*/
module JsText {

  /** A number as `Number(str)` produces it, restricted to integers and NaN. */
  datatype JsNumber = NaN | Num(value: int)

  /** `sep` occurs in `s` starting at index `i`. */
  predicate OccursAt(s: string, sep: string, i: int)
  {
    0 <= i && i + |sep| <= |s| && s[i..i + |sep|] == sep
  }

  /** No occurrence of `sep` starts anywhere in `s`. */
  predicate Free(s: string, sep: string)
  {
    forall i | 0 <= i < |s| :: !OccursAt(s, sep, i)
  }

  /**
    `s.split(sep)` for a non-empty separator: the pieces between the
    non-overlapping occurrences of `sep`, found left to right.
  */
  function Split(s: string, sep: string): (parts: seq<string>)
    requires sep != ""
    ensures |parts| >= 1
    decreases |s|
  {
    if |s| < |sep| then [s]
    else if s[..|sep|] == sep then [""] + Split(s[|sep|..], sep)
    else
      var rest := Split(s[1..], sep);
      [[s[0]] + rest[0]] + rest[1..]
  }

  /** `parts.join(sep)`. */
  function Join(parts: seq<string>, sep: string): (joined: string)
    requires |parts| >= 1
    decreases |parts|
  {
    if |parts| == 1 then parts[0] else parts[0] + sep + Join(parts[1..], sep)
  }

  /** Splitting loses nothing: joining the pieces gives the string back. */
  lemma {:induction false} JoinSplit(s: string, sep: string)
    requires sep != ""
    ensures Join(Split(s, sep), sep) == s
    decreases |s|
  {
    if |s| < |sep| {
    } else if s[..|sep|] == sep {
      JoinSplit(s[|sep|..], sep);
      var rest := Split(s[|sep|..], sep);
      assert Split(s, sep) == [""] + rest;
      assert ([""] + rest)[1..] == rest;
      assert s == s[..|sep|] + s[|sep|..];
    } else {
      JoinSplit(s[1..], sep);
      var rest := Split(s[1..], sep);
      var parts := Split(s, sep);
      assert parts == [[s[0]] + rest[0]] + rest[1..];
      if |rest| == 1 {
        assert s == [s[0]] + s[1..];
      } else {
        assert parts[1..] == rest[1..];
        assert Join(rest, sep) == rest[0] + sep + Join(rest[1..], sep);
        assert s == [s[0]] + s[1..];
      }
    }
  }

  /** Occurrences in a suffix are occurrences in the whole string, shifted. */
  lemma OccursAtTail(s: string, sep: string, i: int)
    requires |s| >= 1 && 0 <= i
    ensures OccursAt(s[1..], sep, i) <==> OccursAt(s, sep, i + 1)
  {
    if i + |sep| <= |s| - 1 {
      assert s[1..][i..i + |sep|] == s[i + 1..i + 1 + |sep|];
    }
  }

  /** A string free of the separator is not cut at all. */
  lemma {:induction false} SplitFree(s: string, sep: string)
    requires sep != "" && Free(s, sep)
    ensures Split(s, sep) == [s]
    decreases |s|
  {
    if |s| < |sep| {
    } else {
      assert !OccursAt(s, sep, 0);
      assert s[0..|sep|] == s[..|sep|];
      forall i | 0 <= i < |s[1..]| ensures !OccursAt(s[1..], sep, i) {
        OccursAtTail(s, sep, i);
      }
      SplitFree(s[1..], sep);
      assert [s[0]] + s[1..] == s;
    }
  }

  /** The first piece is everything before the first occurrence of the separator. */
  lemma {:induction false} SplitFirst(a: string, sep: string, b: string)
    requires sep != ""
    requires forall i | 0 <= i < |a| :: !OccursAt(a + sep + b, sep, i)
    ensures Split(a + sep + b, sep) == [a] + Split(b, sep)
    decreases |a|
  {
    var s := a + sep + b;
    if a == [] {
      assert s == sep + b;
      assert s[..|sep|] == sep;
      assert s[|sep|..] == b;
    } else {
      assert !OccursAt(s, sep, 0);
      assert |s| >= |sep|;
      assert s[0..|sep|] == s[..|sep|];
      assert s[1..] == a[1..] + sep + b;
      forall i | 0 <= i < |a[1..]| ensures !OccursAt(a[1..] + sep + b, sep, i) {
        OccursAtTail(s, sep, i);
      }
      SplitFirst(a[1..], sep, b);
      assert [a[0]] + a[1..] == a;
    }
  }

  /**
    A sufficient condition for `SplitFirst`: some character of the separator,
    different from every character before it, does not occur in `a`.
  */
  lemma NoEarlyOccurrence(a: string, sep: string, b: string, j: nat)
    requires j < |sep| && sep[j] !in a
    requires forall k | 0 <= k < j :: sep[k] != sep[j]
    ensures forall i | 0 <= i < |a| :: !OccursAt(a + sep + b, sep, i)
  {
    var s := a + sep + b;
    forall i | 0 <= i < |a| ensures !OccursAt(s, sep, i) {
      if i + |sep| <= |s| {
        var c := s[i + j];
        assert s[i..i + |sep|][j] == c;
        if i + j < |a| {
          assert c == a[i + j];
        } else {
          assert c == sep[i + j - |a|];
        }
        assert c != sep[j];
      }
    }
  }

  /** With a one-character separator, the first piece is the text before the first occurrence. */
  lemma {:induction false} SplitCharHead(s: string, c: char)
    ensures var h := Split(s, [c])[0];
      && |h| <= |s| && h == s[..|h|] && c !in h
      && (|h| < |s| ==> s[|h|] == c)
    decreases |s|
  {
    if |s| >= 1 && s[..1] != [c] {
      SplitCharHead(s[1..], c);
      var h := Split(s, [c])[0];
      var t := Split(s[1..], [c])[0];
      assert h == [s[0]] + t;
      assert s[0] != c by { assert s[..1] == [s[0]]; }
      assert s[..|h|] == [s[0]] + s[1..][..|t|];
    }
  }

  // ---------------------------------------------------------------------
  // Digits and Number()

  predicate IsDigit(c: char)
  {
    '0' <= c <= '9'
  }

  predicate IsDigits(s: string)
  {
    forall i | 0 <= i < |s| :: IsDigit(s[i])
  }

  function DigitValue(c: char): (d: nat)
    requires IsDigit(c)
    ensures d < 10
  {
    (c as int) - ('0' as int)
  }

  function DigitChar(d: nat): (c: char)
    requires d < 10
    ensures IsDigit(c) && DigitValue(c) == d
  {
    (('0' as int) + d) as char
  }

  /** The value of a string of decimal digits, most significant first. */
  function DigitsValue(s: string): (v: nat)
    requires IsDigits(s)
    decreases |s|
  {
    if s == "" then 0 else DigitsValue(s[..|s| - 1]) * 10 + DigitValue(s[|s| - 1])
  }

  /**
    `Number(s)` for the hour fields of a clock string: the empty string is 0,
    a string of decimal digits is its value, anything else is NaN.
  */
  function ToNumber(s: string): (n: JsNumber)
    ensures n.Num? ==> n.value >= 0
    ensures s == "" ==> n == Num(0)
    ensures s != "" && !IsDigits(s) ==> n == NaN
  {
    if s == "" then Num(0)
    else if IsDigits(s) then Num(DigitsValue(s))
    else NaN
  }

  /** `s.length`: the number of UTF-16 code units, two for each character beyond U+FFFF. */
  function Utf16Length(s: string): (n: nat)
    ensures n >= |s|
    decreases |s|
  {
    if s == "" then 0 else (if s[0] as int > 0xFFFF then 2 else 1) + Utf16Length(s[1..])
  }

  /** On text of the Basic Multilingual Plane, `length` counts characters. */
  lemma {:induction false} Utf16LengthBmp(s: string)
    requires forall i | 0 <= i < |s| :: s[i] as int <= 0xFFFF
    ensures Utf16Length(s) == |s|
    decreases |s|
  {
    if s != "" {
      Utf16LengthBmp(s[1..]);
    }
  }

  /** The decimal rendering of a non-negative integer, as `String(n)` gives it. */
  function NatToString(n: nat): (digits: string)
    decreases n
  {
    if n < 10 then [DigitChar(n)] else NatToString(n / 10) + [DigitChar(n % 10)]
  }

  /** Rendering a number and reading it back with `Number` gives the number. */
  lemma {:induction false} NatToStringRoundTrip(n: nat)
    ensures NatToString(n) != "" && IsDigits(NatToString(n))
    ensures ToNumber(NatToString(n)) == Num(n)
    ensures DigitsValue(NatToString(n)) == n
    decreases n
  {
    var s := NatToString(n);
    if n < 10 {
      assert s == [DigitChar(n)];
      assert s[..|s| - 1] == "";
      assert IsDigits(s);
      assert DigitsValue(s) == DigitsValue(s[..|s| - 1]) * 10 + DigitValue(s[0]);
    } else {
      NatToStringRoundTrip(n / 10);
      var p := NatToString(n / 10);
      assert s == p + [DigitChar(n % 10)];
      assert s[..|s| - 1] == p;
      assert IsDigits(s) by {
        forall i | 0 <= i < |s| ensures IsDigit(s[i]) {
          if i < |p| { assert s[i] == p[i]; }
        }
      }
    }
  }

  /** Distinct numbers render to distinct strings. */
  lemma NatToStringInjective(m: nat, n: nat)
    requires NatToString(m) == NatToString(n)
    ensures m == n
  {
    NatToStringRoundTrip(m);
    NatToStringRoundTrip(n);
  }

  // ---------------------------------------------------------------------
  // trim()

  /** The characters `String.prototype.trim` removes (WhiteSpace and LineTerminator). */
  predicate IsJsSpace(c: char)
  {
    c == ' ' || c == '\t' || c == '\n' || c == '\r' || c == '\U{000B}' || c == '\U{000C}'
    || c == '\U{00A0}' || c == '\U{1680}' || ('\U{2000}' <= c <= '\U{200A}')
    || c == '\U{2028}' || c == '\U{2029}' || c == '\U{202F}' || c == '\U{205F}'
    || c == '\U{3000}' || c == '\U{FEFF}'
  }

  function TrimStart(s: string): (t: string)
    decreases |s|
  {
    if s != "" && IsJsSpace(s[0]) then TrimStart(s[1..]) else s
  }

  function TrimEnd(s: string): (t: string)
    decreases |s|
  {
    if s != "" && IsJsSpace(s[|s| - 1]) then TrimEnd(s[..|s| - 1]) else s
  }

  /** `s.trim()`. */
  function Trim(s: string): (t: string)
  {
    TrimEnd(TrimStart(s))
  }

  predicate AllSpace(s: string)
  {
    forall i | 0 <= i < |s| :: IsJsSpace(s[i])
  }

  lemma {:induction false} TrimStartAllSpace(s: string)
    ensures TrimStart(s) == "" <==> AllSpace(s)
    decreases |s|
  {
    if s != "" {
      TrimStartAllSpace(s[1..]);
      if IsJsSpace(s[0]) {
        if AllSpace(s[1..]) {
          forall i | 0 <= i < |s| ensures IsJsSpace(s[i]) {
            if i > 0 { assert s[i] == s[1..][i - 1]; }
          }
        } else {
          var k :| 0 <= k < |s[1..]| && !IsJsSpace(s[1..][k]);
          assert !IsJsSpace(s[k + 1]);
        }
      }
    }
  }

  /** `trim` keeps a string that neither starts nor ends with white space. */
  lemma {:induction false} TrimEndEmpty(s: string)
    ensures TrimEnd(s) == "" ==> AllSpace(s)
    ensures s != "" && !IsJsSpace(s[0]) ==> TrimEnd(s) != ""
    decreases |s|
  {
    if s != "" && IsJsSpace(s[|s| - 1]) {
      var p := s[..|s| - 1];
      TrimEndEmpty(p);
      if TrimEnd(s) == "" {
        forall i | 0 <= i < |s| ensures IsJsSpace(s[i]) {
          if i < |s| - 1 { assert s[i] == p[i]; }
        }
      }
      if !IsJsSpace(s[0]) {
        assert p != "" && p[0] == s[0];
      }
    }
  }

  /** A prompt is blank for `!prompt.trim()` exactly when it is all white space. */
  lemma TrimEmptyIffAllSpace(s: string)
    ensures Trim(s) == "" <==> AllSpace(s)
  {
    TrimStartAllSpace(s);
    var t := TrimStart(s);
    TrimEndEmpty(t);
    TrimStartShape(s);
    if AllSpace(s) {
      assert t == "";
    }
  }

  lemma {:induction false} TrimStartShape(s: string)
    ensures TrimStart(s) == "" || !IsJsSpace(TrimStart(s)[0])
    decreases |s|
  {
    if s != "" && IsJsSpace(s[0]) {
      TrimStartShape(s[1..]);
    }
  }
}
