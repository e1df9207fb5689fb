/** Characters and strings as the donation scripts see them: the character
    classes their regular expressions use (`\s`, `\d`, `\w`), `String.prototype.trim`,
    lower-casing, and `replace(/\D/g, '')`. Strings are `seq<char>`. */
module JsText {

  datatype Option<T> = None | Some(value: T)

  /** A number as `parseFloat` hands it to the validators. */
  datatype JsNumber = NaN | Finite(value: real) | PosInfinity | NegInfinity

  /** The characters JavaScript treats as white space: `\s` in a regular
      expression and what `trim` removes (WhiteSpace and LineTerminator). */
  predicate IsWhitespace(c: char)
  {
    var n := c as int;
    (0x09 <= n <= 0x0D) || n == 0x20 || n == 0xA0 || n == 0x1680 ||
    (0x2000 <= n <= 0x200A) || n == 0x2028 || n == 0x2029 || n == 0x202F ||
    n == 0x205F || n == 0x3000 || n == 0xFEFF
  }

  /** `\d` */
  predicate IsDigit(c: char)
  {
    '0' <= c <= '9'
  }

  predicate IsAsciiLetter(c: char)
  {
    ('a' <= c <= 'z') || ('A' <= c <= 'Z')
  }

  predicate IsAsciiAlnum(c: char)
  {
    IsAsciiLetter(c) || IsDigit(c)
  }

  /** `\w` (without the `u` flag): ASCII letters, digits and underscore. */
  predicate IsWordChar(c: char)
  {
    IsAsciiAlnum(c) || c == '_'
  }

  predicate AllWhitespace(s: string)
  {
    forall i :: 0 <= i < |s| ==> IsWhitespace(s[i])
  }

  /** Case-insensitive comparison of one character, as a regular expression
      with the `i` flag (and without `u`) does it: only ASCII letters fold. */
  function LowerChar(c: char): char
  {
    if 'A' <= c <= 'Z' then (c as int + 32) as char else c
  }

  /** U+212A KELVIN SIGN, the one character outside ASCII that
      `toLowerCase` turns into an ASCII letter. */
  const KelvinSign: char := '\U{212A}'

  /** `toLowerCase` on one character, for the characters that matter to the
      ASCII patterns downstream: the ASCII capitals and the Kelvin sign. */
  function ToLowerChar(c: char): char
  {
    if c == KelvinSign then 'k' else LowerChar(c)
  }

  /** `toLowerCase` (see README for the characters it leaves alone): no
      ASCII capital and no Kelvin sign survive, each capital becomes its
      small letter, the Kelvin sign becomes `k`, and every other character
      is kept in place. */
  function ToLower(s: string): (r: string)
    ensures |r| == |s|
    ensures forall i :: 0 <= i < |r| ==> !('A' <= r[i] <= 'Z') && r[i] != KelvinSign
    ensures forall i :: 0 <= i < |s| && 'A' <= s[i] <= 'Z' ==> 'a' <= r[i] <= 'z' && r[i] as int - s[i] as int == 32
    ensures forall i :: 0 <= i < |s| && s[i] == KelvinSign ==> r[i] == 'k'
    ensures forall i :: 0 <= i < |s| && !('A' <= s[i] <= 'Z') && s[i] != KelvinSign ==> r[i] == s[i]
  {
    seq(|s|, i requires 0 <= i < |s| => ToLowerChar(s[i]))
  }

  /** Lower-casing twice is lower-casing once. */
  lemma ToLowerIdempotent(s: string)
    ensures ToLower(ToLower(s)) == ToLower(s)
  {
    var r := ToLower(s);
    forall i | 0 <= i < |r| ensures ToLower(r)[i] == r[i] {
      assert !('A' <= r[i] <= 'Z') && r[i] != KelvinSign;
    }
  }

  /** Lower-casing never creates or removes white space, so it commutes
      with `trim()`. */
  lemma {:induction false} ToLowerTrim(s: string)
    ensures ToLower(Trim(s)) == Trim(ToLower(s))
  {
    ToLowerTrimStart(s);
    ToLowerTrimEnd(TrimStart(s));
  }

  lemma {:induction false} ToLowerTrimStart(s: string)
    ensures ToLower(TrimStart(s)) == TrimStart(ToLower(s))
    decreases |s|
  {
    if s != [] {
      assert ToLower(s)[0] == ToLowerChar(s[0]);
      assert ToLower(s)[1..] == ToLower(s[1..]);
      if IsWhitespace(s[0]) {
        ToLowerTrimStart(s[1..]);
      }
    }
  }

  lemma {:induction false} ToLowerTrimEnd(s: string)
    ensures ToLower(TrimEnd(s)) == TrimEnd(ToLower(s))
    decreases |s|
  {
    if s != [] {
      var n := |s| - 1;
      var t := ToLower(s);
      assert t[..n] == ToLower(s[..n]);
      assert IsWhitespace(t[n]) <==> IsWhitespace(s[n]);
      if IsWhitespace(s[n]) {
        ToLowerTrimEnd(s[..n]);
      } else {
        assert TrimEnd(s) == s && TrimEnd(t) == t;
      }
    }
  }

  /** Leading white space removed. */
  function TrimStart(s: string): (r: string)
    ensures |r| <= |s|
  {
    if s != [] && IsWhitespace(s[0]) then TrimStart(s[1..]) else s
  }

  /** Trailing white space removed. */
  function TrimEnd(s: string): (r: string)
    ensures |r| <= |s|
  {
    if s != [] && IsWhitespace(s[|s| - 1]) then TrimEnd(s[..|s| - 1]) else s
  }

  /** `TrimStart` keeps a suffix, cuts off only white space, and stops at
      the first character that is not white space. */
  lemma {:induction false} TrimStartSpec(s: string)
    ensures var r := TrimStart(s);
      r == s[|s| - |r|..] && AllWhitespace(s[..|s| - |r|]) && (r == [] || !IsWhitespace(r[0]))
    decreases |s|
  {
    if s != [] && IsWhitespace(s[0]) {
      TrimStartSpec(s[1..]);
      var r := TrimStart(s);
      assert s[1..][|s| - 1 - |r|..] == s[|s| - |r|..];
      assert s[..|s| - |r|] == [s[0]] + s[1..][..|s| - 1 - |r|];
    }
  }

  /** `TrimEnd` keeps a prefix, cuts off only white space, and stops at the
      last character that is not white space. */
  lemma {:induction false} TrimEndSpec(s: string)
    ensures var r := TrimEnd(s);
      r == s[..|r|] && AllWhitespace(s[|r|..]) && (r == [] || !IsWhitespace(r[|r| - 1]))
    decreases |s|
  {
    if s != [] && IsWhitespace(s[|s| - 1]) {
      var p := s[..|s| - 1];
      TrimEndSpec(p);
      var r := TrimEnd(s);
      assert p[..|r|] == s[..|r|];
      assert s[|r|..] == p[|r|..] + [s[|s| - 1]];
    }
  }

  /** `String.prototype.trim`. */
  function Trim(s: string): string
  {
    TrimEnd(TrimStart(s))
  }

  /** The trimmed string is the middle of the input, it neither starts nor
      ends with white space, and only white space was cut off either side. */
  lemma TrimIsMiddle(s: string)
    ensures var r := Trim(s);
      exists i :: 0 <= i <= i + |r| <= |s| && r == s[i..i + |r|] &&
        AllWhitespace(s[..i]) && AllWhitespace(s[i + |r|..])
    ensures Trim(s) == [] || (!IsWhitespace(Trim(s)[0]) && !IsWhitespace(Trim(s)[|Trim(s)| - 1]))
  {
    var t := TrimStart(s);
    var r := TrimEnd(t);
    TrimStartSpec(s);
    TrimEndSpec(t);
    var i := |s| - |t|;
    assert r == s[i..i + |r|];
    assert s[i + |r|..] == t[|r|..];
    assert AllWhitespace(s[..i]) && AllWhitespace(s[i + |r|..]);
    if r != [] {
      assert r[0] == t[0];
    }
  }

  /** A string trims to nothing exactly when it is all white space. */
  lemma {:induction false} TrimEmptyIff(s: string)
    ensures Trim(s) == [] <==> AllWhitespace(s)
  {
    var t := TrimStart(s);
    TrimStartSpec(s);
    TrimEndSpec(t);
    if !AllWhitespace(s) {
      assert s == s[..|s| - |t|] + t;
      assert t != [];
      assert TrimEnd(t) == t[..|TrimEnd(t)|] && !IsWhitespace(t[0]);
    }
  }

  /** Trimming twice trims no more than once. */
  lemma TrimIdempotent(s: string)
    ensures Trim(Trim(s)) == Trim(s)
  {
    TrimIsMiddle(s);
  }

  /** `replace(/\D/g, '')`: the digits of `s`, in order. */
  function Digits(s: string): (r: string)
    ensures |r| <= |s|
    ensures forall i :: 0 <= i < |r| ==> IsDigit(r[i])
  {
    if s == [] then []
    else if IsDigit(s[0]) then [s[0]] + Digits(s[1..])
    else Digits(s[1..])
  }

  lemma {:induction false} DigitsAppend(a: string, b: string)
    ensures Digits(a + b) == Digits(a) + Digits(b)
  {
    if a == [] {
      assert a + b == b;
    } else {
      assert (a + b)[1..] == a[1..] + b;
      DigitsAppend(a[1..], b);
    }
  }

  /** A string made of digits only is its own digit string. */
  lemma {:induction false} DigitsOfDigits(s: string)
    requires forall i :: 0 <= i < |s| ==> IsDigit(s[i])
    ensures Digits(s) == s
  {
    if s != [] {
      DigitsOfDigits(s[1..]);
    }
  }

  /** The decimal value of a short digit string, as `parseInt` reads it. */
  function DigitValue(c: char): nat
    requires IsDigit(c)
  {
    c as int - '0' as int
  }
}
