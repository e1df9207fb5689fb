/** The field validators of donation-form.js (lines 157-249): each maps the
    raw field value to `{valid, message}`, running its checks in a fixed
    order and reporting the message of the first check that fails. The
    amount is taken already parsed. script.js runs the same checks (its
    `validateAmount` is identical; its name, e-mail and phone validators
    are modelled in DonationPage against these functions). */
module Validators {
  import opened JsText
  import opened Sanitizer
  import opened EmailGrammar
  import opened PhoneFormat

  datatype ValidationResult = ValidationResult(valid: bool, message: string)

  const Accepted := ValidationResult(true, "")

  function Rejected(message: string): ValidationResult
  {
    ValidationResult(false, message)
  }

  // ----- amount -----

  const MinDonation: real := 5.0
  const MaxDonation: real := 10000.0

  const MsgAmountInvalid := "Por favor, insira um valor válido"
  const MsgAmountBelowMinimum := "O valor mínimo para doação é R$ 5,00"
  const MsgAmountAboveMaximum := "Para doações acima de R$ 10.000, entre em contato conosco"

  /** JavaScript's `a <= x` for a finite `x`; false for NaN. */
  predicate AtMost(a: JsNumber, x: real)
  {
    match a
    case NaN => false
    case Finite(v) => v <= x
    case PosInfinity => false
    case NegInfinity => true
  }

  /** JavaScript's `a < x` for a finite `x`; false for NaN. */
  predicate Below(a: JsNumber, x: real)
  {
    match a
    case NaN => false
    case Finite(v) => v < x
    case PosInfinity => false
    case NegInfinity => true
  }

  /** JavaScript's `a > x` for a finite `x`; false for NaN. */
  predicate Above(a: JsNumber, x: real)
  {
    match a
    case NaN => false
    case Finite(v) => v > x
    case PosInfinity => true
    case NegInfinity => false
  }

  /** `validateAmount`. Accepted exactly on [5, 10000], both bounds included;
      NaN and everything up to 0 get the "valor válido" message, what lies
      strictly between 0 and 5 the minimum message, and what exceeds 10000
      (infinity included) the "entre em contato" message. */
  function ValidateAmount(a: JsNumber): (r: ValidationResult)
    ensures r.valid <==> a.Finite? && MinDonation <= a.value <= MaxDonation
    ensures r.valid ==> r.message == ""
    ensures r.message == MsgAmountInvalid <==>
      a.NaN? || a.NegInfinity? || (a.Finite? && a.value <= 0.0)
    ensures r.message == MsgAmountBelowMinimum <==> a.Finite? && 0.0 < a.value < MinDonation
    ensures r.message == MsgAmountAboveMaximum <==>
      a.PosInfinity? || (a.Finite? && a.value > MaxDonation)
  {
    if a.NaN? || AtMost(a, 0.0) then Rejected(MsgAmountInvalid)
    else if Below(a, MinDonation) then Rejected(MsgAmountBelowMinimum)
    else if Above(a, MaxDonation) then Rejected(MsgAmountAboveMaximum)
    else Accepted
  }

  // ----- name -----

  const MinNameLength := 2
  const MaxNameLength := 100

  const MsgNameTooShort := "Nome deve ter pelo menos 2 caracteres"
  const MsgNameTooLong := "Nome muito longo (máximo 100 caracteres)"
  const MsgNameCharacters := "Nome deve conter apenas letras, espaços e hífens"
  const MsgNameNeedsLetter := "Nome deve conter pelo menos uma letra"

  /** `[a-zA-ZÀ-ÿ]`: ASCII letters and the code points U+00C0 to U+00FF. */
  predicate IsNameLetter(c: char)
  {
    IsAsciiLetter(c) || ('À' <= c <= 'ÿ')
  }

  /** `[a-zA-ZÀ-ÿ\s\-']` */
  predicate IsNameChar(c: char)
  {
    IsNameLetter(c) || IsWhitespace(c) || c == '-' || c == '\''
  }

  /** Scan for `^[a-zA-ZÀ-ÿ\s\-']+$` (without the non-emptiness). */
  predicate ScanNameChars(s: string)
  {
    s == [] || (IsNameChar(s[0]) && ScanNameChars(s[1..]))
  }

  /** Scan for `/[a-zA-ZÀ-ÿ]/.test(s)`. */
  predicate ScanNameLetter(s: string)
  {
    s != [] && (IsNameLetter(s[0]) || ScanNameLetter(s[1..]))
  }

  lemma {:induction false} ScanNameCharsIff(s: string)
    ensures ScanNameChars(s) <==> forall i :: 0 <= i < |s| ==> IsNameChar(s[i])
  {
    if s != [] {
      ScanNameCharsIff(s[1..]);
      assert forall i :: 1 <= i < |s| ==> s[i] == s[1..][i - 1];
    }
  }

  lemma {:induction false} ScanNameLetterIff(s: string)
    ensures ScanNameLetter(s) <==> exists i :: 0 <= i < |s| && IsNameLetter(s[i])
  {
    if s != [] {
      ScanNameLetterIff(s[1..]);
      if ScanNameLetter(s[1..]) {
        var i :| 0 <= i < |s[1..]| && IsNameLetter(s[1..][i]);
        assert IsNameLetter(s[i + 1]);
      }
      if exists i :: 0 <= i < |s| && IsNameLetter(s[i]) {
        var i :| 0 <= i < |s| && IsNameLetter(s[i]);
        if i > 0 { assert s[1..][i - 1] == s[i]; }
      }
    }
  }

  /** The string the name checks look at: trimmed, then sanitised. */
  function NameToCheck(value: string): string
  {
    Sanitize(Trim(value))
  }

  /** `validateName` */
  function ValidateName(value: string): ValidationResult
  {
    var s := NameToCheck(value);
    if |s| < MinNameLength then Rejected(MsgNameTooShort)
    else if |s| > MaxNameLength then Rejected(MsgNameTooLong)
    else if !ScanNameChars(s) then Rejected(MsgNameCharacters)
    else if !ScanNameLetter(s) then Rejected(MsgNameNeedsLetter)
    else Accepted
  }

  /** A name is accepted exactly when its sanitised form has 2 to 100
      characters, all letters, white space, hyphens or apostrophes, at least
      one of them a letter; otherwise the message names the first of these
      checks, in that order, that fails. */
  lemma ValidateNameSpec(value: string)
    ensures var s := NameToCheck(value);
      var allowed := forall i :: 0 <= i < |s| ==> IsNameChar(s[i]);
      var hasLetter := exists i :: 0 <= i < |s| && IsNameLetter(s[i]);
      var r := ValidateName(value);
      (r.valid <==> MinNameLength <= |s| <= MaxNameLength && allowed && hasLetter) &&
      (r.message == MsgNameTooShort <==> |s| < MinNameLength) &&
      (r.message == MsgNameTooLong <==> |s| > MaxNameLength) &&
      (r.message == MsgNameCharacters <==> MinNameLength <= |s| <= MaxNameLength && !allowed) &&
      (r.message == MsgNameNeedsLetter <==>
        MinNameLength <= |s| <= MaxNameLength && allowed && !hasLetter) &&
      (r.valid ==> r.message == "")
  {
    var s := NameToCheck(value);
    ScanNameCharsIff(s);
    ScanNameLetterIff(s);
  }

  // ----- e-mail -----

  const MaxEmailLength := 254

  const MsgEmailRequired := "E-mail é obrigatório"
  const MsgEmailTooLong := "E-mail muito longo"
  const MsgEmailInvalid := "Por favor, insira um e-mail válido"
  const MsgEmailCheckTypo := "Verifique se o e-mail está correto"

  /** Common misspellings of popular mail domains, rejected outright. */
  const SuspiciousDomains: seq<string> := ["gmial.com", "gmai.com", "hotmial.com", "yahooo.com"]

  /** The string the e-mail checks look at: trimmed, lower-cased, sanitised. */
  function EmailToCheck(value: string): string
  {
    Sanitize(ToLower(Trim(value)))
  }

  /** `suspiciousDomains.includes(sanitized.split('@')[1])` */
  predicate HasSuspiciousDomain(s: string)
  {
    var d := DomainOf(s);
    d.Some? && d.value in SuspiciousDomains
  }

  /** `validateEmail` */
  function ValidateEmail(value: string): ValidationResult
  {
    var s := EmailToCheck(value);
    if |s| == 0 then Rejected(MsgEmailRequired)
    else if |s| > MaxEmailLength then Rejected(MsgEmailTooLong)
    else if !MatchesEmailPattern(s) then Rejected(MsgEmailInvalid)
    else if HasSuspiciousDomain(s) then Rejected(MsgEmailCheckTypo)
    else Accepted
  }

  /** An e-mail is accepted exactly when its sanitised form is non-empty, at
      most 254 characters, a valid address by the WHATWG grammar, and its
      domain is not on the typo list. An empty value is "obrigatório"; the
      length is checked before the grammar; a grammatical address on a
      listed domain is still rejected. */
  lemma ValidateEmailSpec(value: string)
    ensures var s := EmailToCheck(value);
      var r := ValidateEmail(value);
      (r.valid <==>
        0 < |s| <= MaxEmailLength && IsValidEmailAddress(s) &&
        Split(s, '@')[1] !in SuspiciousDomains) &&
      (r.message == MsgEmailRequired <==> |s| == 0) &&
      (r.message == MsgEmailTooLong <==> |s| > MaxEmailLength) &&
      (r.message == MsgEmailInvalid <==> 0 < |s| <= MaxEmailLength && !IsValidEmailAddress(s)) &&
      (r.message == MsgEmailCheckTypo <==>
        0 < |s| <= MaxEmailLength && IsValidEmailAddress(s) && Split(s, '@')[1] in SuspiciousDomains) &&
      (r.valid ==> r.message == "")
  {
    var s := EmailToCheck(value);
    EmailPatternIsGrammar(s);
    if IsValidEmailAddress(s) {
      ValidAddressHasDomain(s);
    }
  }

  /** Lower-casing an address before validating it changes nothing: the
      validator lower-cases anyway. */
  lemma ValidateEmailIgnoresCase(value: string)
    ensures ValidateEmail(ToLower(value)) == ValidateEmail(value)
  {
    ToLowerTrim(value);
    ToLowerIdempotent(Trim(value));
  }

  // ----- phone -----

  const MsgPhoneFormat := "Formato: (21) 99999-9999"
  const MsgPhoneAreaCode := "Código de área inválido"
  const MsgPhoneMobileNine := "Número de celular deve começar com 9"

  /** `parseInt(digits.substring(0, 2))` on a string of digits; `None`
      stands for the `NaN` an empty string parses to. */
  function AreaCode(d: string): Option<nat>
    requires forall i :: 0 <= i < |d| ==> IsDigit(d[i])
  {
    if |d| == 0 then None
    else if |d| == 1 then Some(DigitValue(d[0]))
    else Some(10 * DigitValue(d[0]) + DigitValue(d[1]))
  }

  /** `areaCode < 11 || areaCode > 99`: both comparisons are false for `NaN`. */
  predicate AreaCodeOutOfRange(code: Option<nat>)
  {
    code.Some? && (code.value < 11 || code.value > 99)
  }

  /** The digits of a value that matches the phone pattern: the two of the
      area code, then those of the two blocks. */
  lemma PatternDigits(v: string)
    requires MatchesPhonePattern(v)
    ensures Digits(v) == v[1..3] + v[5..|v| - 5] + v[|v| - 4..]
  {
    PatternHeadDigits(v);
    PatternTailDigits(v);
  }

  lemma PatternHeadDigits(v: string)
    requires MatchesPhonePattern(v)
    ensures Digits(v) == v[1..3] + Digits(v[5..])
  {
    assert Digits(v) == Digits(v[1..]);
    assert Digits(v[1..]) == [v[1]] + Digits(v[2..]) by { assert v[1..][0] == v[1] && v[1..][1..] == v[2..]; }
    assert Digits(v[2..]) == [v[2]] + Digits(v[3..]) by { assert v[2..][0] == v[2] && v[2..][1..] == v[3..]; }
    assert Digits(v[3..]) == Digits(v[4..]) by { assert v[3..][0] == v[3] && v[3..][1..] == v[4..]; }
    assert Digits(v[4..]) == Digits(v[5..]) by { assert v[4..][0] == v[4] && v[4..][1..] == v[5..]; }
    assert v[1..3] == [v[1], v[2]];
  }

  lemma PatternTailDigits(v: string)
    requires MatchesPhonePattern(v)
    ensures Digits(v[5..]) == v[5..|v| - 5] + v[|v| - 4..]
  {
    var n := |v|;
    var rest := v[5..];
    assert rest == rest[..n - 10] + rest[n - 10..];
    DigitsAppend(rest[..n - 10], rest[n - 10..]);
    assert rest[..n - 10] == v[5..n - 5];
    assert rest[n - 10..] == v[n - 5..];
    assert Digits(v[n - 5..]) == Digits(v[n - 4..]) by {
      assert v[n - 5..][0] == '-' && v[n - 5..][1..] == v[n - 4..];
    }
    DigitsOfDigits(v[5..n - 5]);
    DigitsOfDigits(v[n - 4..]);
  }

  /** `validatePhone` */
  function ValidatePhone(value: string): ValidationResult
  {
    if Trim(value) == [] then Accepted
    else if !MatchesPhonePattern(value) then Rejected(MsgPhoneFormat)
    else
      var d := Digits(value);
      if AreaCodeOutOfRange(AreaCode(d)) then Rejected(MsgPhoneAreaCode)
      else if |d| == 11 && d[2] != '9' then Rejected(MsgPhoneMobileNine)
      else Accepted
  }

  /** The area code of a value that matches the phone pattern. */
  function PatternAreaCode(v: string): nat
    requires MatchesPhonePattern(v)
  {
    10 * DigitValue(v[1]) + DigitValue(v[2])
  }

  /** The phone is optional: blank or all white space is accepted. Otherwise
      it must be written `(DD) DDDD-DDDD` or `(DD) DDDDD-DDDD`, with an area
      code of at least 11, and a 9-digit (mobile) number must start with 9;
      the message names the first of these checks that fails. */
  lemma ValidatePhoneSpec(value: string)
    ensures AllWhitespace(value) ==> ValidatePhone(value) == Accepted
    ensures !AllWhitespace(value) ==>
      var r := ValidatePhone(value);
      (r.valid <==>
        MatchesPhonePattern(value) && PatternAreaCode(value) >= 11 &&
        (|value| == 15 ==> value[5] == '9')) &&
      (r.valid ==> r.message == "") &&
      (!MatchesPhonePattern(value) ==> r == Rejected(MsgPhoneFormat)) &&
      (MatchesPhonePattern(value) && PatternAreaCode(value) < 11 ==> r == Rejected(MsgPhoneAreaCode)) &&
      (MatchesPhonePattern(value) && PatternAreaCode(value) >= 11 && |value| == 15 && value[5] != '9' ==>
        r == Rejected(MsgPhoneMobileNine))
  {
    TrimEmptyIff(value);
    if !AllWhitespace(value) && MatchesPhonePattern(value) {
      PatternPhoneChecks(value);
    }
  }

  /** On a value that matches the pattern, the digit checks of
      `validatePhone` read the area code and the first digit of the number
      straight off the pattern's positions. */
  lemma PatternPhoneChecks(value: string)
    requires MatchesPhonePattern(value) && Trim(value) != []
    ensures var r := ValidatePhone(value);
      (r.valid <==> PatternAreaCode(value) >= 11 && (|value| == 15 ==> value[5] == '9')) &&
      (PatternAreaCode(value) < 11 ==> r == Rejected(MsgPhoneAreaCode)) &&
      (PatternAreaCode(value) >= 11 && |value| == 15 && value[5] != '9' ==>
        r == Rejected(MsgPhoneMobileNine))
  {
    PatternDigits(value);
    var d := Digits(value);
    assert d[0] == value[1] && d[1] == value[2];
    assert |d| == |value| - 4;
    assert |d| == 11 ==> d[2] == value[5];
    assert AreaCode(d) == Some(PatternAreaCode(value));
  }

  /** A value `formatPhone` produced passes the phone checks exactly when it
      holds 10 or 11 digits, the area code is at least 11 and an 11-digit
      number has 9 as its third digit; with no digits at all it is blank. */
  lemma FormattedPhoneValidIff(s: string)
    ensures var d := PhoneDigits(s);
      ValidatePhone(FormatPhone(s)).valid <==>
        |d| == 0 ||
        ((|d| == 10 || |d| == 11) && 10 * DigitValue(d[0]) + DigitValue(d[1]) >= 11 &&
         (|d| == 11 ==> d[2] == '9'))
  {
    var d := PhoneDigits(s);
    var v := FormatPhone(s);
    FormatPhoneMatchesIff(s);
    FormatPhoneKeepsDigits(s);
    if |d| == 0 {
      assert v == [];
    } else {
      assert !AllWhitespace(v) by {
        assert v[0] == d[0] || v[0] == '(';
      }
      TrimEmptyIff(v);
      if MatchesPhonePattern(v) {
        PatternDigits(v);
      }
    }
  }
}
