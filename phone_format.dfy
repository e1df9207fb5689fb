/** `formatPhone` (donation-form.js:625-641, and the same code at
    script.js:685-704) and the Brazilian phone pattern `^\(\d{2}\)\s\d{4,5}-\d{4}$`
    both copies test against (donation-form.js:231, script.js:718). */
module PhoneFormat {
  import opened JsText
  import Dom

  /** Brazilian numbers have at most 11 digits: two of area code, then 8 or 9. */
  const MaxPhoneDigits := 11

  /** The digit string `formatPhone` works from: all digits, cut to 11. */
  function PhoneDigits(s: string): (d: string)
    ensures |d| <= MaxPhoneDigits
  {
    var d := Digits(s);
    if |d| > MaxPhoneDigits then d[..MaxPhoneDigits] else d
  }

  /** Where `formatPhone` puts the separators for a given number of digits:
      up to 2 digits bare, up to 6 as `(DD) rest`, up to 10 with a 4-digit
      middle block `(DD) DDDD-rest`, and 11 with a 5-digit middle block. */
  function Layout(d: string): string
    requires |d| <= MaxPhoneDigits
  {
    if |d| <= 2 then d
    else if |d| <= 6 then "(" + d[..2] + ") " + d[2..]
    else if |d| <= 10 then "(" + d[..2] + ") " + d[2..6] + "-" + d[6..]
    else "(" + d[..2] + ") " + d[2..7] + "-" + d[7..]
  }

  /** The value `formatPhone` writes back into the input. */
  function FormatPhone(s: string): string
  {
    Layout(PhoneDigits(s))
  }

  /** `^\(\d{2}\)\s\d{4,5}-\d{4}$`: 14 or 15 characters, `(`, two digits, `)`,
      one white-space character, 4 or 5 digits, `-`, 4 digits. */
  predicate MatchesPhonePattern(v: string)
  {
    (|v| == 14 || |v| == 15) &&
    v[0] == '(' && IsDigit(v[1]) && IsDigit(v[2]) && v[3] == ')' && IsWhitespace(v[4]) &&
    (forall i :: 5 <= i < |v| - 5 ==> IsDigit(v[i])) &&
    v[|v| - 5] == '-' &&
    (forall i :: |v| - 4 <= i < |v| ==> IsDigit(v[i]))
  }

  /** The separators `formatPhone` inserts carry no digits. */
  lemma SeparatorsHaveNoDigits()
    ensures Digits("(") == [] && Digits(") ") == [] && Digits("-") == []
  {
    assert Digits(") ") == Digits(" ");
  }

  /** The digits of the formatted value are the first (at most 11) digits of
      the input, in order: formatting only inserts separators. */
  lemma FormatPhoneKeepsDigits(s: string)
    ensures Digits(FormatPhone(s)) == PhoneDigits(s)
  {
    var d := PhoneDigits(s);
    assert forall i :: 0 <= i < |d| ==> IsDigit(d[i]);
    DigitsOfLayout(d);
  }

  /** Laying out a digit string keeps exactly its digits. */
  lemma DigitsOfLayout(d: string)
    requires |d| <= MaxPhoneDigits
    requires forall i :: 0 <= i < |d| ==> IsDigit(d[i])
    ensures Digits(Layout(d)) == d
  {
    if |d| <= 2 {
      DigitsOfDigits(d);
    } else if |d| <= 6 {
      DigitsOfAreaCode(d[..2], d[2..]);
      assert d[..2] + d[2..] == d;
    } else {
      var k := if |d| <= 10 then 6 else 7;
      DigitsOfHyphenLayout(d, k);
    }
  }

  lemma DigitsOfHyphenLayout(d: string, k: nat)
    requires 2 < k <= |d|
    requires forall i :: 0 <= i < |d| ==> IsDigit(d[i])
    ensures Digits("(" + d[..2] + ") " + d[2..k] + "-" + d[k..]) == d
  {
    var head := "(" + d[..2] + ") " + d[2..k];
    DigitsOfAreaCode(d[..2], d[2..k]);
    DigitsAroundHyphen(head, d[k..]);
    DigitsOfDigits(d[k..]);
    assert d[..2] + d[2..k] + d[k..] == d;
  }

  /** `(DD) rest` carries the digits of `DD` and then those of `rest`. */
  lemma DigitsOfAreaCode(area: string, rest: string)
    requires forall i :: 0 <= i < |area| ==> IsDigit(area[i])
    requires forall i :: 0 <= i < |rest| ==> IsDigit(rest[i])
    ensures Digits("(" + area + ") " + rest) == area + rest
  {
    SeparatorsHaveNoDigits();
    DigitsOfDigits(area);
    DigitsOfDigits(rest);
    var a := "(" + area;
    DigitsAppend("(", area);
    assert Digits(a) == area;
    var b := a + ") ";
    DigitsAppend(a, ") ");
    assert Digits(b) == area;
    DigitsAppend(b, rest);
  }

  /** A hyphen adds no digit. */
  lemma DigitsAroundHyphen(a: string, b: string)
    ensures Digits(a + "-" + b) == Digits(a) + Digits(b)
  {
    SeparatorsHaveNoDigits();
    DigitsAppend(a, "-");
    DigitsAppend(a + "-", b);
  }

  /** Formatting an already formatted value changes nothing. */
  lemma FormatPhoneIdempotent(s: string)
    ensures FormatPhone(FormatPhone(s)) == FormatPhone(s)
  {
    FormatPhoneKeepsDigits(s);
  }

  /** A formatted value passes the phone pattern exactly when the input had
      10 or 11 digits (after the cut to 11). */
  lemma FormatPhoneMatchesIff(s: string)
    ensures MatchesPhonePattern(FormatPhone(s)) <==> |PhoneDigits(s)| == 10 || |PhoneDigits(s)| == 11
  {
    var d := PhoneDigits(s);
    var v := FormatPhone(s);
    if |d| == 10 || |d| == 11 {
      var k := if |d| == 10 then 6 else 7;
      assert v == "(" + d[..2] + ") " + d[2..k] + "-" + d[k..];
      assert |v| == |d| + 4;
      forall i | 5 <= i < |v| - 5 ensures IsDigit(v[i]) {
        assert v[i] == d[i - 3];
      }
      forall i | |v| - 4 <= i < |v| ensures IsDigit(v[i]) {
        assert v[i] == d[i - 4];
      }
    } else if 7 <= |d| <= 9 {
      assert |v| == |d| + 4;
    }
  }

  /** The formatted value is empty exactly when the input holds no digit,
      and it never starts or ends with white space, so `trim()` leaves it
      as it is. */
  lemma FormatPhoneIsTrimmed(s: string)
    ensures Trim(FormatPhone(s)) == FormatPhone(s)
    ensures FormatPhone(s) == [] <==> PhoneDigits(s) == []
  {
    var d := PhoneDigits(s);
    var v := FormatPhone(s);
    if v != [] {
      assert IsDigit(d[|d| - 1]);
      assert v[|v| - 1] == d[|d| - 1];
      assert v[0] == d[0] || v[0] == '(';
      assert TrimStart(v) == v;
    }
  }

  /** `formatPhone(input)`: the input's value is replaced by its formatted
      form; nothing else about the input changes. */
  method FormatPhoneInput(input: Dom.Field)
    modifies input
    ensures input.value == FormatPhone(old(input.value))
    ensures input.classes == old(input.classes)
    ensures input.errorText == old(input.errorText) && input.errorShown == old(input.errorShown)
  {
    var d := Digits(input.value);
    if |d| > 11 {
      d := d[..11];
    }
    if |d| <= 2 {
      input.value := d;
    } else if |d| <= 6 {
      input.value := "(" + d[..2] + ") " + d[2..];
    } else if |d| <= 10 {
      input.value := "(" + d[..2] + ") " + d[2..6] + "-" + d[6..];
    } else {
      input.value := "(" + d[..2] + ") " + d[2..7] + "-" + d[7..];
    }
  }
}
