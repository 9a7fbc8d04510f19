/**
 * The JavaScript string and number primitives the client relies on:
 * `String.prototype.trim`, `String.prototype.split` with a one-character
 * separator, and `Number(...)` applied to a string (ECMA-262, section 7.1.4.1.1,
 * StringToNumber), restricted to decimal integers.
 */
module JsText {
  import opened Wrappers
  import Decimal

  /** WhiteSpace and LineTerminator code points (ECMA-262, sections 12.2 and 12.3). */
  predicate IsWhiteSpace(c: char) {
    || c == '\t' || c == '\U{000B}' || c == '\U{000C}' || c == ' ' || c == '\U{00A0}' || c == '\U{FEFF}'
    || c == '\U{1680}' || ('\U{2000}' <= c <= '\U{200A}') || c == '\U{202F}' || c == '\U{205F}' || c == '\U{3000}'
    || c == '\n' || c == '\r' || c == '\U{2028}' || c == '\U{2029}'
  }

  predicate IsBlank(s: string) {
    forall i :: 0 <= i < |s| ==> IsWhiteSpace(s[i])
  }

  /** Drops the leading white space: the result is a suffix of `s`. */
  function TrimStart(s: string): (r: string)
    ensures |r| <= |s| && r == s[|s| - |r|..]
    ensures IsBlank(s[..|s| - |r|])
    ensures r != [] ==> !IsWhiteSpace(r[0])
  {
    if s != [] && IsWhiteSpace(s[0]) then
      var r := TrimStart(s[1..]);
      var k := |s| - |r|;
      assert s[1..][k - 1..] == s[k..];
      assert s[..k] == [s[0]] + s[1..][..k - 1];
      r
    else s
  }

  /** Drops the trailing white space: the result is a prefix of `s`. */
  function TrimEnd(s: string): (r: string)
    ensures |r| <= |s| && r == s[..|r|]
    ensures IsBlank(s[|r|..])
    ensures r != [] ==> !IsWhiteSpace(r[|r| - 1])
  {
    if s != [] && IsWhiteSpace(s[|s| - 1]) then TrimEnd(s[..|s| - 1]) else s
  }

  /**
   * `s.trim()`: `s` without its leading and trailing white space. It is empty
   * exactly when `s` is blank, which is when `!s.trim()` holds, and a string
   * that neither starts nor ends with white space is its own trim.
   */
  function Trim(s: string): (r: string)
    ensures |r| <= |s|
    ensures r != [] ==> !IsWhiteSpace(r[0]) && !IsWhiteSpace(r[|r| - 1])
    ensures r == [] <==> IsBlank(s)
    ensures s != [] && !IsWhiteSpace(s[0]) && !IsWhiteSpace(s[|s| - 1]) ==> r == s
  {
    var t := TrimStart(s);
    var r := TrimEnd(t);
    assert r == [] ==> IsBlank(s) by {
      if r == [] {
        BlankConcat(s[..|s| - |t|], t);
        assert s == s[..|s| - |t|] + t;
      }
    }
    r
  }

  lemma BlankConcat(a: string, b: string)
    requires IsBlank(a) && IsBlank(b)
    ensures IsBlank(a + b)
  {
  }

  /** `s.split(sep)`: the pieces between occurrences of `sep`; "" splits into [""]. */
  function Split(s: string, sep: char): (parts: seq<string>)
    ensures |parts| >= 1
    ensures forall i :: 0 <= i < |parts| ==> sep !in parts[i]
  {
    if s == [] then [[]]
    else
      var rest := Split(s[1..], sep);
      if s[0] == sep then [[]] + rest
      else [[s[0]] + rest[0]] + rest[1..]
  }

  /** `parts.join(sep)`, the inverse of `Split`. */
  function Join(parts: seq<string>, sep: char): (s: string)
    requires |parts| >= 1
  {
    if |parts| == 1 then parts[0] else parts[0] + [sep] + Join(parts[1..], sep)
  }

  /** Joining the pieces of a split gives back the string. */
  lemma {:induction false} JoinSplit(s: string, sep: char)
    ensures Join(Split(s, sep), sep) == s
  {
    if s != [] {
      var rest := Split(s[1..], sep);
      JoinSplit(s[1..], sep);
      if s[0] != sep {
        if |rest| == 1 {
        } else {
          assert Join(Split(s, sep), sep) == [s[0]] + rest[0] + [sep] + Join(rest[1..], sep);
        }
      }
    }
  }

  /** A piece free of `sep` in front of the rest joins into the first piece. */
  lemma {:induction false} SplitPrefix(a: string, b: string, sep: char)
    requires sep !in a
    ensures Split(a + b, sep) == [a + Split(b, sep)[0]] + Split(b, sep)[1..]
  {
    if a != [] {
      assert (a + b)[0] == a[0] != sep;
      assert (a + b)[1..] == a[1..] + b;
      SplitPrefix(a[1..], b, sep);
      assert [a[0]] + (a[1..] + Split(b, sep)[0]) == a + Split(b, sep)[0];
    } else {
      var parts := Split(b, sep);
      assert a + b == b;
      assert a + parts[0] == parts[0];
      assert parts == [parts[0]] + parts[1..];
    }
  }

  /** A string without `sep` splits into itself alone. */
  lemma SplitWithoutSep(s: string, sep: char)
    requires sep !in s
    ensures Split(s, sep) == [s]
  {
    SplitPrefix(s, [], sep);
    assert s + [] == s;
  }

  /** Splitting joined pieces that are free of `sep` gives back the pieces. */
  lemma {:induction false} SplitJoin(parts: seq<string>, sep: char)
    requires |parts| >= 1
    requires forall i :: 0 <= i < |parts| ==> sep !in parts[i]
    ensures Split(Join(parts, sep), sep) == parts
  {
    if |parts| == 1 {
      SplitPrefix(parts[0], [], sep);
      assert parts[0] + [] == parts[0];
    } else {
      var tail := Join(parts[1..], sep);
      SplitJoin(parts[1..], sep);
      SplitPrefix(parts[0], [sep] + tail, sep);
      assert parts[0] + [sep] + tail == parts[0] + ([sep] + tail);
      assert ([sep] + tail)[1..] == tail;
      assert Split([sep] + tail, sep) == [[]] + parts[1..];
      assert parts[0] + [] == parts[0];
      assert parts == [parts[0]] + parts[1..];
    }
  }

  /** A JavaScript number, restricted to the integers and NaN. */
  datatype JsNumber = NaN | Int(value: int)

  /** `s` is a decimal integer literal: digits, optionally after one `-` or `+`. */
  predicate IsDecimalLiteral(s: string) {
    || (s != [] && Decimal.AllDigits(s))
    || (|s| >= 2 && (s[0] == '-' || s[0] == '+') && Decimal.AllDigits(s[1..]))
  }

  /** The value of the decimal integer literal `s` with an optional sign, if it is one. */
  function SignedDecimal(s: string): (r: Option<int>)
    ensures r.Some? <==> IsDecimalLiteral(s)
    ensures Decimal.AllDigits(s) && s != [] ==> r == Some(Decimal.DigitsValue(s))
    ensures |s| >= 2 && s[0] == '-' && Decimal.AllDigits(s[1..]) ==> r == Some(-(Decimal.DigitsValue(s[1..]) as int))
    ensures |s| >= 2 && s[0] == '+' && Decimal.AllDigits(s[1..]) ==> r == Some(Decimal.DigitsValue(s[1..]))
  {
    if s == [] then None
    else if (s[0] == '-' || s[0] == '+') && |s| >= 2 && Decimal.AllDigits(s[1..]) then
      Some(if s[0] == '-' then -(Decimal.DigitsValue(s[1..]) as int) else Decimal.DigitsValue(s[1..]))
    else if Decimal.AllDigits(s) then Some(Decimal.DigitsValue(s))
    else None
  }

  /** A literal neither starts nor ends with white space. */
  lemma LiteralEnds(s: string)
    requires IsDecimalLiteral(s)
    ensures !IsWhiteSpace(s[0]) && !IsWhiteSpace(s[|s| - 1])
  {
    assert Decimal.IsDigit(s[|s| - 1]) by {
      if !Decimal.AllDigits(s) {
        assert s[|s| - 1] == s[1..][|s| - 2];
      }
    }
  }

  /** White space in front of a string that does not start with it is all `TrimStart` drops. */
  lemma {:induction false} TrimStartPast(a: string, t: string)
    requires IsBlank(a)
    requires t != [] ==> !IsWhiteSpace(t[0])
    ensures TrimStart(a + t) == t
  {
    if a == [] {
      assert a + t == t;
    } else {
      assert (a + t)[0] == a[0];
      assert (a + t)[1..] == a[1..] + t;
      TrimStartPast(a[1..], t);
    }
  }

  /** White space after a string that does not end with it is all `TrimEnd` drops. */
  lemma {:induction false} TrimEndPast(t: string, b: string)
    requires IsBlank(b)
    requires t != [] ==> !IsWhiteSpace(t[|t| - 1])
    ensures TrimEnd(t + b) == t
  {
    if b == [] {
      assert t + b == t;
    } else {
      var b' := b[..|b| - 1];
      assert (t + b)[|t + b| - 1] == b[|b| - 1];
      assert (t + b)[..|t + b| - 1] == t + b';
      TrimEndPast(t, b');
    }
  }

  /**
   * A window of `s` with only white space around it, whose own ends are not
   * white space, is what `Trim` keeps.
   */
  lemma TrimWindow(s: string, i: int, j: int)
    requires 0 <= i < j <= |s|
    requires IsBlank(s[..i]) && IsBlank(s[j..])
    requires !IsWhiteSpace(s[i]) && !IsWhiteSpace(s[j - 1])
    ensures Trim(s) == s[i..j]
  {
    var a, w, b := s[..i], s[i..j], s[j..];
    assert s[i..] == w + b;
    assert w[0] == s[i] && w[|w| - 1] == s[j - 1];
    assert s == a + (w + b);
    TrimStartPast(a, w + b);
    TrimEndPast(w, b);
    assert Trim(s) == TrimEnd(TrimStart(s));
  }

  /** A blank-ended prefix `t` of the suffix `u == s[i..]` is a blank-ended window of `s`. */
  lemma WindowInSuffix(s: string, i: nat, u: string, t: string)
    requires i <= |s| && u == s[i..]
    requires |t| <= |u| && t == u[..|t|] && IsBlank(u[|t|..])
    ensures i + |t| <= |s| && s[i..i + |t|] == t && IsBlank(s[i + |t|..])
  {
    assert u[|t|..] == s[i + |t|..];
  }

  /** `TrimStart(s)` is `s` from `i` on, and what comes before `i` is blank. */
  lemma TrimStartSplit(s: string, i: int)
    requires i == |s| - |TrimStart(s)|
    ensures 0 <= i <= |s| && IsBlank(s[..i]) && s[i..] == TrimStart(s)
  {
  }

  /** `TrimEnd(u)` is `u` up to `k`, and what comes from `k` on is blank. */
  lemma TrimEndSplit(u: string, k: int)
    requires k == |TrimEnd(u)|
    ensures 0 <= k <= |u| && IsBlank(u[k..]) && u[..k] == TrimEnd(u)
  {
  }

  /** Every literal window of `s` with only white space around it is `Trim(s)`. */
  lemma LiteralWindowIsTrim(s: string)
    ensures forall i, j | 0 <= i <= j <= |s| && IsBlank(s[..i]) && IsBlank(s[j..]) && IsDecimalLiteral(s[i..j])
              :: Trim(s) == s[i..j]
  {
    forall i, j | 0 <= i <= j <= |s| && IsBlank(s[..i]) && IsBlank(s[j..]) && IsDecimalLiteral(s[i..j])
      ensures Trim(s) == s[i..j]
    {
      LiteralEnds(s[i..j]);
      TrimWindow(s, i, j);
    }
  }

  /**
   * `Number(s)` for a string: surrounding white space is ignored, a blank
   * string is 0, a signed decimal integer is its value, anything else is NaN.
   */
  function StringToNumber(s: string): (n: JsNumber)
    ensures IsBlank(s) ==> n == Int(0)
    ensures !IsBlank(s) ==> (n.Int? <==> IsDecimalLiteral(Trim(s)))
  {
    var t := Trim(s);
    if t == [] then Int(0)
    else match SignedDecimal(t)
      case Some(v) => Int(v)
      case None => NaN
  }

  /**
   * `Number` stated over windows of `s`: when `s` is white space, a literal
   * and white space, the result is the literal's value; it is NaN exactly
   * when `s` is not blank and no window of it is a literal with only white
   * space around it.
   */
  lemma StringToNumberWindows(s: string)
    ensures forall i, j | 0 <= i <= j <= |s| && IsBlank(s[..i]) && IsBlank(s[j..]) && IsDecimalLiteral(s[i..j])
              :: StringToNumber(s) == Int(SignedDecimal(s[i..j]).value)
    ensures StringToNumber(s) == NaN <==>
              !IsBlank(s) &&
              forall i, j | 0 <= i <= j <= |s| && IsBlank(s[..i]) && IsBlank(s[j..]) :: !IsDecimalLiteral(s[i..j])
  {
    var t := Trim(s);
    var i0 := |s| - |TrimStart(s)|;
    TrimStartSplit(s, i0);
    TrimEndSplit(TrimStart(s), |t|);
    WindowInSuffix(s, i0, TrimStart(s), t);
    LiteralWindowIsTrim(s);
  }

  /** `trim` keeps the literal between a space and a line feed. */
  lemma TrimExample()
    ensures Trim(" +42\n") == "+42"
  {
    var s := " +42\n";
    assert s[..1] == " " && s[4..] == "\n" && s[1..4] == "+42";
    TrimWindow(s, 1, 4);
  }

  /** A literal with either sign reads as its signed value. */
  lemma SignedExample()
    ensures SignedDecimal("-7") == Some(-7)
    ensures SignedDecimal("+42") == Some(42)
  {
    assert "-7"[1..] == "7";
    assert Decimal.DigitsValue("7") == 7;
    assert "+42"[1..] == "42";
    assert Decimal.DigitsValue("42") == 42 by {
      assert "42"[..1] == "4";
    }
  }

  /** A signed literal inside white space reads as its value. */
  lemma NumberExample()
    ensures StringToNumber(" +42\n") == Int(42)
  {
    TrimExample();
    SignedExample();
  }

  /** A word is NaN. */
  lemma WordIsNaN()
    ensures StringToNumber("abc") == NaN
  {
    assert Trim("abc") == "abc";
    assert !Decimal.IsDigit("abc"[0]);
  }

  /** Digits with a space between them are NaN, not the first number. */
  lemma SpacedDigitsAreNaN()
    ensures StringToNumber("1 2") == NaN
  {
    assert Trim("1 2") == "1 2";
    assert !Decimal.IsDigit("1 2"[1]);
  }

  /** `Number(String(n))` is `n`: what Python's `str` writes, `Number` reads back. */
  lemma NumberOfShow(n: int)
    ensures StringToNumber(Decimal.Show(n)) == Int(n)
  {
    var s := Decimal.Show(n);
    assert !IsWhiteSpace(s[0]) && !IsWhiteSpace(s[|s| - 1]);
    assert Trim(s) == s;
    if n >= 0 {
      Decimal.DigitsRoundTrip(n);
      assert SignedDecimal(s) == Some(n);
    } else {
      assert s[1..] == Decimal.Digits(-n);
      Decimal.DigitsRoundTrip(-n);
      assert SignedDecimal(s) == Some(n);
    }
  }
}
