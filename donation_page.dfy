/** The donation block of script.js (lines 167-1000): the `selectedAmount`
    and `selectedPaymentMethod` variables the handlers update, the preset
    amount and payment method buttons with their `selected` class, the
    custom amount, name, e-mail and phone inputs, the donate button's
    `disabled` flag and the validation summary on screen. Event handlers
    become methods of `Page`; the three input validators, which read and
    mark one input, are methods over a `Dom.Field`. */
module DonationPage {
  import opened JsText
  import opened Sanitizer
  import opened EmailGrammar
  import opened PhoneFormat
  import opened Validators
  import opened RateLimit
  import opened SuspiciousInput
  import opened Dom

  const MsgWaitSeconds := "Aguarde alguns segundos antes de tentar novamente"

  /** An entry of the validation summary, in the order the summary lists
      them; `EntryText` is the line shown. */
  datatype SummaryEntry = SelectAmount | ChoosePayment | InvalidName | InvalidEmail | InvalidPhone

  function EntryText(e: SummaryEntry): string
  {
    match e
    case SelectAmount => "Selecione um valor para doação"
    case ChoosePayment => "Escolha uma forma de pagamento"
    case InvalidName => "Nome inválido"
    case InvalidEmail => "E-mail inválido"
    case InvalidPhone => "Telefone inválido"
  }

  /** `selectedAmount && selectedAmount > 0` */
  predicate AmountChosen(amount: Option<real>)
  {
    amount.Some? && amount.value > 0.0
  }

  /** `selectedPaymentMethod` is truthy: set and not empty. */
  predicate MethodChosen(pm: Option<string>)
  {
    pm.Some? && pm.value != ""
  }

  // ----- the three input validators -----

  /** script.js `validateName(input)`: the checks of `validateName` on the
      input's value; the input ends up marked either valid or in error, with
      the first failing check's message shown. */
  method ValidateNameField(input: Field) returns (ok: bool)
    modifies input
    ensures ok == ValidateName(old(input.value)).valid
    ensures ok ==> input.MarkedValid() && !input.errorShown
    ensures !ok ==> (input.MarkedError() && input.errorShown &&
      input.errorText == ValidateName(old(input.value)).message)
    ensures input.value == old(input.value)
    ensures input.classes - {ErrorClass, ValidClass} == old(input.classes) - {ErrorClass, ValidClass}
  {
    var value := NameToCheck(input.value);
    if |value| < MinNameLength {
      input.ShowError(MsgNameTooShort);
      return false;
    }
    if |value| > MaxNameLength {
      input.ShowError(MsgNameTooLong);
      return false;
    }
    if !ScanNameChars(value) {
      input.ShowError(MsgNameCharacters);
      return false;
    }
    if !ScanNameLetter(value) {
      input.ShowError(MsgNameNeedsLetter);
      return false;
    }
    input.ShowValid();
    return true;
  }

  /** script.js `validateEmail(input)`, likewise for `validateEmail`. */
  method ValidateEmailField(input: Field) returns (ok: bool)
    modifies input
    ensures ok == ValidateEmail(old(input.value)).valid
    ensures ok ==> input.MarkedValid() && !input.errorShown
    ensures !ok ==> (input.MarkedError() && input.errorShown &&
      input.errorText == ValidateEmail(old(input.value)).message)
    ensures input.value == old(input.value)
    ensures input.classes - {ErrorClass, ValidClass} == old(input.classes) - {ErrorClass, ValidClass}
  {
    var value := EmailToCheck(input.value);
    if |value| == 0 {
      input.ShowError(MsgEmailRequired);
      return false;
    }
    if |value| > MaxEmailLength {
      input.ShowError(MsgEmailTooLong);
      return false;
    }
    if !MatchesEmailPattern(value) {
      input.ShowError(MsgEmailInvalid);
      return false;
    }
    if HasSuspiciousDomain(value) {
      input.ShowError(MsgEmailCheckTypo);
      return false;
    }
    input.ShowValid();
    return true;
  }

  /** script.js `validatePhone(input)`: unlike the copy in donation-form.js
      it trims the value before the pattern test. A blank value is accepted
      and leaves the input with neither mark; otherwise the input ends up
      marked valid or in error. */
  method ValidatePhoneField(input: Field) returns (ok: bool)
    modifies input
    ensures ok == ValidatePhone(Trim(old(input.value))).valid
    ensures Trim(old(input.value)) == [] ==> ok && input.Unmarked() && !input.errorShown
    ensures Trim(old(input.value)) != [] && ok ==> input.MarkedValid() && !input.errorShown
    ensures !ok ==> (input.MarkedError() && input.errorShown &&
      input.errorText == ValidatePhone(Trim(old(input.value))).message)
    ensures input.value == old(input.value)
    ensures input.classes - {ErrorClass, ValidClass} == old(input.classes) - {ErrorClass, ValidClass}
  {
    var value := Trim(input.value);
    TrimEmptyIff(input.value);
    TrimIdempotent(input.value);
    if value == [] {
      input.ClearMarks();
      return true;
    }
    if !MatchesPhonePattern(value) {
      input.ShowError(MsgPhoneFormat);
      return false;
    }
    var digits := Digits(value);
    var areaCode := AreaCode(digits);
    if AreaCodeOutOfRange(areaCode) {
      input.ShowError(MsgPhoneAreaCode);
      return false;
    }
    if |digits| == 11 && digits[2] != '9' {
      input.ShowError(MsgPhoneMobileNine);
      return false;
    }
    input.ShowValid();
    return true;
  }

  /** The phone is optional: blank, or valid by `validatePhone`. */
  predicate PhoneBlankOrValid(value: string)
  {
    Trim(value) == [] || ValidatePhone(Trim(value)).valid
  }

  /** The input shows the outcome `v` of its validator: marked valid with
      its error hidden, or marked in error with `v`'s message shown. */
  predicate ShowsOutcome(input: Field, v: ValidationResult)
    reads input
  {
    (v.valid ==> input.MarkedValid() && !input.errorShown) &&
    (!v.valid ==> input.MarkedError() && input.errorShown && input.errorText == v.message)
  }

  /** Validation moved at most the `error` and `valid` marks: every other
      class of the input is kept. */
  twostate predicate KeepsOtherClasses(input: Field)
    reads input
  {
    input.classes - {ErrorClass, ValidClass} == old(input.classes) - {ErrorClass, ValidClass}
  }

  /** `phoneInput.value.trim() === '' || validatePhone(phoneInput)`, as the
      submit handler and `showValidationSummary` write it: a blank phone is
      not validated, so its marks stay as they were. */
  method ValidatePhoneIfFilled(input: Field) returns (ok: bool)
    modifies input
    ensures ok == PhoneBlankOrValid(old(input.value))
    ensures input.value == old(input.value)
    ensures Trim(old(input.value)) == [] ==> unchanged(input)
    ensures Trim(old(input.value)) != [] ==>
      ShowsOutcome(input, ValidatePhone(Trim(old(input.value)))) && KeepsOtherClasses(input)
  {
    if Trim(input.value) == [] {
      return true;
    }
    ok := ValidatePhoneField(input);
  }

  // ----- the `input` listeners of the donor fields -----

  /** The name input's `input` listener: the value is sanitised in place;
      a value left non-empty is validated and marked, an emptied one loses
      both marks and its error. The value left in the field has no angle
      brackets and no surrounding white space. */
  method NameInputHandler(input: Field)
    modifies input
    ensures input.value == Sanitize(old(input.value))
    ensures KeepsOtherClasses(input)
    ensures NoAngleBrackets(input.value) && Trim(input.value) == input.value
    ensures input.value == [] ==> input.Unmarked() && !input.errorShown
    ensures input.value != [] && ValidateName(input.value).valid ==>
      input.MarkedValid() && !input.errorShown
    ensures input.value != [] && !ValidateName(input.value).valid ==>
      input.MarkedError() && input.errorShown && input.errorText == ValidateName(input.value).message
  {
    SanitizedIsClean(input.value);
    input.value := Sanitize(input.value);
    if |input.value| > 0 {
      var ok := ValidateNameField(input);
    } else {
      input.ClearMarks();
    }
  }

  /** The e-mail input's two `input` listeners, in the order they were
      added: the first sanitises the value in place and validates it (or
      clears the marks when it is empty), the second then lower-cases it.
      Validating before lower-casing makes no difference: the marks agree
      with `validateEmail` on the value finally left in the field. */
  method EmailInputHandler(input: Field)
    modifies input
    ensures input.value == ToLower(Sanitize(old(input.value)))
    ensures KeepsOtherClasses(input)
    ensures input.value == [] ==> input.Unmarked() && !input.errorShown
    ensures input.value != [] && ValidateEmail(input.value).valid ==>
      input.MarkedValid() && !input.errorShown
    ensures input.value != [] && !ValidateEmail(input.value).valid ==>
      input.MarkedError() && input.errorShown && input.errorText == ValidateEmail(input.value).message
  {
    input.value := Sanitize(input.value);
    ValidateEmailIgnoresCase(input.value);
    if |input.value| > 0 {
      var ok := ValidateEmailField(input);
    } else {
      input.ClearMarks();
    }
    input.value := ToLower(input.value);
  }

  /** The phone input's `input` listener: the value is reformatted in
      place; a value left non-empty is validated and marked, an emptied one
      loses both marks and its error. */
  method PhoneInputHandler(input: Field)
    modifies input
    ensures input.value == FormatPhone(old(input.value))
    ensures KeepsOtherClasses(input)
    ensures input.value == [] <==> PhoneDigits(old(input.value)) == []
    ensures input.value == [] ==> input.Unmarked() && !input.errorShown
    ensures input.value != [] && ValidatePhone(input.value).valid ==>
      input.MarkedValid() && !input.errorShown
    ensures input.value != [] && !ValidatePhone(input.value).valid ==>
      input.MarkedError() && input.errorShown && input.errorText == ValidatePhone(input.value).message
  {
    FormatPhoneIsTrimmed(input.value);
    FormatPhoneInput(input);
    if Trim(input.value) != [] {
      var ok := ValidatePhoneField(input);
    } else {
      input.ClearMarks();
    }
  }

  /** A value that trimming changes has white space at one of its ends. */
  lemma PaddedValueEnds(value: string)
    requires Trim(value) != value
    ensures |value| > 0 && (IsWhitespace(value[0]) || IsWhitespace(value[|value| - 1]))
  {
    var t := TrimStart(value);
    if t != value {
      assert value[..|value| - |t|][0] == value[0];
    } else {
      var r := TrimEnd(t);
      assert value[|r|..][|value| - 1 - |r|] == value[|value| - 1];
    }
  }

  /** A value with white space at either end never matches the anchored
      phone pattern, which starts with `(` and ends with a digit. */
  lemma PaddedValueFailsPattern(value: string)
    requires Trim(value) != value
    ensures !MatchesPhonePattern(value)
  {
    PaddedValueEnds(value);
  }

  /** The two phone validators part ways on padded input: donation-form.js
      tests the untrimmed value against the anchored pattern and rejects
      it, while script.js checks the trimmed value, so a well-formed number
      with white space around it passes there (`ValidatePhoneField`). */
  lemma PhoneCopiesDisagreeOnPadding(value: string)
    requires Trim(value) != [] && Trim(value) != value
    ensures ValidatePhone(value) == Rejected(MsgPhoneFormat)
  {
    PaddedValueFailsPattern(value);
  }

  // ----- the submit gate and the summary -----

  /** The submit handler's condition, the rate limit aside: name and e-mail
      valid, phone blank or valid, an amount above 0, a payment method, and
      none of the suspicious patterns in the joined values. */
  predicate SubmissionAllowed(amount: Option<real>, pm: Option<string>,
                              name: string, email: string, phone: string)
  {
    ValidateName(name).valid && ValidateEmail(email).valid && PhoneBlankOrValid(phone) &&
    AmountChosen(amount) && MethodChosen(pm) &&
    !IsSuspicious(JoinInputs(name, email, phone))
  }

  /** The summary for the page's current selections and input values. */
  function SummaryErrors(amount: Option<real>, pm: Option<string>,
                         name: string, email: string, phone: string): seq<SummaryEntry>
  {
    SummaryList(AmountChosen(amount), MethodChosen(pm), ValidateName(name).valid,
      ValidateEmail(email).valid, PhoneBlankOrValid(phone))
  }

  /** Position of an entry in the fixed order. */
  function Rank(e: SummaryEntry): nat
  {
    match e
    case SelectAmount => 0
    case ChoosePayment => 1
    case InvalidName => 2
    case InvalidEmail => 3
    case InvalidPhone => 4
  }

  /** The list `showValidationSummary` builds from the outcome of each
      check, `phoneOk` meaning "blank or valid": one entry per failing
      check and nothing else, so it is empty exactly when every check
      passes. */
  function SummaryList(amountOk: bool, methodOk: bool, nameOk: bool, emailOk: bool, phoneOk: bool):
    (errors: seq<SummaryEntry>)
    ensures errors == [] <==> amountOk && methodOk && nameOk && emailOk && phoneOk
    ensures SelectAmount in errors <==> !amountOk
    ensures ChoosePayment in errors <==> !methodOk
    ensures InvalidName in errors <==> !nameOk
    ensures InvalidEmail in errors <==> !emailOk
    ensures InvalidPhone in errors <==> !phoneOk
  {
    EntryIf(amountOk, SelectAmount) + EntryIf(methodOk, ChoosePayment) + EntryIf(nameOk, InvalidName) +
    EntryIf(emailOk, InvalidEmail) + EntryIf(phoneOk, InvalidPhone)
  }

  /** The entry `e` when its check failed, nothing when it passed. */
  function EntryIf(ok: bool, e: SummaryEntry): seq<SummaryEntry>
  {
    if ok then [] else [e]
  }

  /** The entries' ranks strictly increase, so none is repeated. */
  predicate InRankOrder(errors: seq<SummaryEntry>)
  {
    forall i, j :: 0 <= i < j < |errors| ==> Rank(errors[i]) < Rank(errors[j])
  }

  /** Appending an entry (or nothing) ranked above everything listed keeps
      the rank order. */
  lemma AppendInRankOrder(errors: seq<SummaryEntry>, ok: bool, e: SummaryEntry)
    requires InRankOrder(errors) && forall i :: 0 <= i < |errors| ==> Rank(errors[i]) < Rank(e)
    ensures InRankOrder(errors + EntryIf(ok, e))
    ensures forall i :: 0 <= i < |errors + EntryIf(ok, e)| ==> Rank((errors + EntryIf(ok, e))[i]) <= Rank(e)
  {
    var all := errors + EntryIf(ok, e);
    forall i, j | 0 <= i < j < |all| ensures Rank(all[i]) < Rank(all[j]) {
      assert all[i] == errors[i];
      if j < |errors| { assert all[j] == errors[j]; }
    }
    forall i | 0 <= i < |all| ensures Rank(all[i]) <= Rank(e) {
      if i < |errors| { assert all[i] == errors[i]; }
    }
  }

  /** The entries come in the fixed order amount, payment, name, e-mail,
      phone, so none is repeated. */
  lemma SummaryListOrdered(amountOk: bool, methodOk: bool, nameOk: bool, emailOk: bool, phoneOk: bool)
    ensures InRankOrder(SummaryList(amountOk, methodOk, nameOk, emailOk, phoneOk))
  {
    var a := EntryIf(amountOk, SelectAmount);
    AppendInRankOrder([], amountOk, SelectAmount);
    assert [] + a == a;
    var b := EntryIf(methodOk, ChoosePayment);
    AppendInRankOrder(a, methodOk, ChoosePayment);
    var c := EntryIf(nameOk, InvalidName);
    AppendInRankOrder(a + b, nameOk, InvalidName);
    var d := EntryIf(emailOk, InvalidEmail);
    AppendInRankOrder(a + b + c, emailOk, InvalidEmail);
    AppendInRankOrder(a + b + c + d, phoneOk, InvalidPhone);
  }

  /** A submission refused only by the security check shows no summary:
      every listed check passes, so the list is empty and the user is left
      without a message. */
  lemma SecurityRefusalShowsNoSummary(amount: Option<real>, pm: Option<string>,
                                      name: string, email: string, phone: string)
    ensures !SubmissionAllowed(amount, pm, name, email, phone) &&
            SummaryErrors(amount, pm, name, email, phone) == [] <==>
      SummaryErrors(amount, pm, name, email, phone) == [] &&
      (IsSuspicious(name) || IsSuspicious(email) || IsSuspicious(phone))
  {
    JoinedSuspiciousIff(name, email, phone);
  }

  /** The data the submit handler collects, without timestamp, user agent,
      referrer and token. */
  datatype FormData = FormData(amount: real, paymentMethod: string,
                               name: string, email: string, phone: Option<string>)

  /** `formData`: the name trimmed and sanitised, the e-mail trimmed,
      lower-cased and sanitised, the phone trimmed or null when blank. */
  function FormDataFor(amount: real, pm: string, name: string, email: string, phone: string): FormData
  {
    FormData(amount, pm, NameToCheck(name), EmailToCheck(email),
      if Trim(phone) == [] then None else Some(Trim(phone)))
  }

  /** The name an accepted submission sends has 2 to 100 characters, all
      letters, white space, hyphens or apostrophes, and no angle brackets. */
  lemma AcceptedNameIsValid(name: string)
    requires ValidateName(name).valid
    ensures var sent := NameToCheck(name);
      MinNameLength <= |sent| <= MaxNameLength && NoAngleBrackets(sent) &&
      (forall i :: 0 <= i < |sent| ==> IsNameChar(sent[i]))
  {
    ValidateNameSpec(name);
    SanitizedIsClean(Trim(name));
  }

  /** The e-mail an accepted submission sends is an address of the WHATWG
      grammar, of at most 254 characters, on a domain off the typo list. */
  lemma AcceptedEmailIsValid(email: string)
    requires ValidateEmail(email).valid
    ensures var sent := EmailToCheck(email);
      0 < |sent| <= MaxEmailLength && IsValidEmailAddress(sent) &&
      Split(sent, '@')[1] !in SuspiciousDomains
  {
    ValidateEmailSpec(email);
  }

  /** The phone an accepted submission sends is absent (null) or a
      well-formed Brazilian number: it matches the pattern, its area code
      is at least 11, and an 11-digit (mobile) number starts with 9. */
  lemma AcceptedPhoneIsWellFormed(phone: string)
    requires PhoneBlankOrValid(phone)
    ensures Trim(phone) == [] <==> AllWhitespace(phone)
    ensures Trim(phone) != [] ==>
      var sent := Trim(phone);
      MatchesPhonePattern(sent) && PatternAreaCode(sent) >= 11 &&
      (|sent| == 15 ==> sent[5] == '9')
  {
    TrimEmptyIff(phone);
    TrimIdempotent(phone);
    if Trim(phone) != [] {
      TrimEmptyIff(Trim(phone));
      ValidatePhoneSpec(Trim(phone));
    }
  }

  /** What the submit handler does: refuse within the cooldown, refuse
      with the validation summary (possibly empty), or submit the data. */
  datatype SubmitOutcome = RateLimited | NotSubmitted(errors: seq<SummaryEntry>) | Submitted(data: FormData)

  /** The page: handler state, buttons and inputs. */
  class Page {
    var selectedAmount: Option<real>
    var selectedPaymentMethod: Option<string>
    var donateDisabled: bool
    /** The entries of the validation summary on screen. */
    var summary: seq<SummaryEntry>
    const limiter: SubmissionLimiter
    /** `dataset.amount` of each preset button, and its `selected` class. */
    const presetAmounts: seq<real>
    const presetSelected: array<bool>
    /** `dataset.method` of each payment button, and its `selected` class. */
    const paymentMethods: seq<string>
    const methodSelected: array<bool>
    const customAmount: Field
    const nameInput: Field
    const emailInput: Field
    const phoneInput: Field

    /** The donor inputs show what the validators make of the given
        values: the name and the e-mail always, the phone unless blank. */
    predicate ShowsDonorChecks(name: string, email: string, phone: string)
      reads nameInput, emailInput, phoneInput
    {
      ShowsOutcome(nameInput, ValidateName(name)) && ShowsOutcome(emailInput, ValidateEmail(email)) &&
      (Trim(phone) != [] ==> ShowsOutcome(phoneInput, ValidatePhone(Trim(phone))))
    }

    /** One `selected` flag per button, and distinct elements. */
    predicate Valid()
    {
      presetSelected.Length == |presetAmounts| && methodSelected.Length == |paymentMethods| &&
      presetSelected != methodSelected &&
      customAmount != nameInput && customAmount != emailInput && customAmount != phoneInput &&
      nameInput != emailInput && nameInput != phoneInput && emailInput != phoneInput
    }

    predicate NoPresetSelected()
      reads presetSelected
    {
      forall k :: 0 <= k < presetSelected.Length ==> !presetSelected[k]
    }

    predicate NoMethodSelected()
      reads methodSelected
    {
      forall k :: 0 <= k < methodSelected.Length ==> !methodSelected[k]
    }

    /** Preset and custom amounts exclude each other: at most one preset is
        selected, and then the amount is that preset's or none; a custom
        amount marked valid means no preset is selected and the amount is
        the validated one; a chosen amount comes from one of the two. */
    predicate AmountConsistent()
      reads this`selectedAmount, presetSelected, customAmount
    {
      Valid() &&
      (forall i, j :: 0 <= i < j < presetSelected.Length ==> !(presetSelected[i] && presetSelected[j])) &&
      (forall i :: 0 <= i < presetSelected.Length && presetSelected[i] ==>
        selectedAmount == None || selectedAmount == Some(presetAmounts[i])) &&
      (customAmount.MarkedValid() ==>
        NoPresetSelected() && selectedAmount.Some? &&
        MinDonation <= selectedAmount.value <= MaxDonation) &&
      (selectedAmount.Some? ==> customAmount.MarkedValid() || !NoPresetSelected())
    }

    /** Payment buttons behave like radio buttons: at most one is selected,
        it is the chosen method, and a chosen method has its button selected. */
    predicate MethodConsistent()
      reads this`selectedPaymentMethod, methodSelected
    {
      Valid() &&
      (forall i, j :: 0 <= i < j < methodSelected.Length ==> !(methodSelected[i] && methodSelected[j])) &&
      (forall i :: 0 <= i < methodSelected.Length && methodSelected[i] ==>
        selectedPaymentMethod == Some(paymentMethods[i])) &&
      (selectedPaymentMethod.Some? ==> !NoMethodSelected())
    }

    predicate Consistent()
      reads this`selectedAmount, this`selectedPaymentMethod, presetSelected, methodSelected, customAmount
    {
      AmountConsistent() && MethodConsistent()
    }

    /** The page as loaded: nothing selected, empty inputs, and the donate
        button disabled by the initial `updateDonateButton()`. */
    constructor (presets: seq<real>, methods: seq<string>)
      ensures Consistent()
      ensures presetAmounts == presets && paymentMethods == methods
      ensures selectedAmount == None && selectedPaymentMethod == None
      ensures NoPresetSelected() && NoMethodSelected()
      ensures donateDisabled && summary == []
      ensures fresh(limiter) && limiter.lastSubmissionTime == 0
    {
      selectedAmount := None;
      selectedPaymentMethod := None;
      donateDisabled := true;
      summary := [];
      limiter := new SubmissionLimiter();
      presetAmounts := presets;
      presetSelected := new bool[|presets|](_ => false);
      paymentMethods := methods;
      methodSelected := new bool[|methods|](_ => false);
      customAmount := new Field("");
      nameInput := new Field("");
      emailInput := new Field("");
      phoneInput := new Field("");
      new;
      assert NoPresetSelected() && NoMethodSelected();
      assert !customAmount.MarkedValid();
      assert AmountConsistent();
    }

    /** `updateDonateButton`: enabled exactly when an amount above 0 and a
        payment method are chosen; donor details are not consulted. */
    method UpdateDonateButton()
      modifies this`donateDisabled
      ensures donateDisabled == !(AmountChosen(selectedAmount) && MethodChosen(selectedPaymentMethod))
    {
      var isValid := AmountChosen(selectedAmount) && MethodChosen(selectedPaymentMethod);
      donateDisabled := !isValid;
    }

    /** `amountButtons.forEach(btn => btn.classList.remove('selected'))` */
    method ClearPresets()
      modifies presetSelected
      ensures NoPresetSelected()
    {
      var k := 0;
      while k < presetSelected.Length
        invariant 0 <= k <= presetSelected.Length
        invariant forall m :: 0 <= m < k ==> !presetSelected[m]
      {
        presetSelected[k] := false;
        k := k + 1;
      }
    }

    /** `paymentMethodButtons.forEach(btn => btn.classList.remove('selected'))` */
    method ClearMethods()
      modifies methodSelected
      ensures NoMethodSelected()
    {
      var k := 0;
      while k < methodSelected.Length
        invariant 0 <= k <= methodSelected.Length
        invariant forall m :: 0 <= m < k ==> !methodSelected[m]
      {
        methodSelected[k] := false;
        k := k + 1;
      }
    }

    /** `selectAmount(amount, isCustom)`: record the amount and deselect
        every preset; unless the amount comes from the custom input, also
        empty that input and clear its marks and error. */
    method SelectAmount(amount: Option<real>, isCustom: bool)
      requires Valid()
      modifies this`selectedAmount, this`donateDisabled, presetSelected, customAmount
      ensures selectedAmount == amount && NoPresetSelected()
      ensures !isCustom ==>
        customAmount.value == "" && customAmount.Unmarked() && !customAmount.errorShown &&
        KeepsOtherClasses(customAmount)
      ensures isCustom ==> unchanged(customAmount)
      ensures donateDisabled == !(AmountChosen(selectedAmount) && MethodChosen(selectedPaymentMethod))
    {
      selectedAmount := amount;
      ClearPresets();
      if !isCustom {
        customAmount.value := "";
        customAmount.ClearMarks();
      }
      UpdateDonateButton();
    }

    /** A click on preset button `i`: a selected preset is deselected and
        the amount cleared; otherwise the preset's amount is chosen, the
        custom input emptied, and this button alone selected. */
    method ClickPreset(i: nat)
      requires Consistent() && i < presetSelected.Length
      modifies this`selectedAmount, this`donateDisabled, presetSelected, customAmount
      ensures Consistent()
      ensures old(presetSelected[i]) ==>
        selectedAmount == None && NoPresetSelected() &&
        unchanged(customAmount)
      ensures !old(presetSelected[i]) ==>
        selectedAmount == Some(presetAmounts[i]) &&
        (forall k :: 0 <= k < presetSelected.Length ==> (presetSelected[k] <==> k == i)) &&
        customAmount.value == "" && customAmount.Unmarked() && !customAmount.errorShown &&
        KeepsOtherClasses(customAmount)
      ensures donateDisabled == !(AmountChosen(selectedAmount) && MethodChosen(selectedPaymentMethod))
    {
      if presetSelected[i] {
        presetSelected[i] := false;
        selectedAmount := None;
      } else {
        SelectAmount(Some(presetAmounts[i]), false);
        presetSelected[i] := true;
      }
      UpdateDonateButton();
    }

    /** The custom amount's `input` handler; `parsed` is the number the
        value parses to (`parseFloat` after the first ',' becomes '.'). A
        blank value clears the amount, the presets and the input; a valid
        amount is chosen and the presets deselected; an invalid one clears
        the amount and shows its message, leaving the presets as they were. */
    method CustomAmountInput(parsed: JsNumber)
      requires Consistent()
      modifies this`selectedAmount, this`donateDisabled, presetSelected, customAmount
      ensures Consistent()
      ensures KeepsOtherClasses(customAmount)
      ensures Trim(old(customAmount.value)) == [] ==>
        selectedAmount == None && NoPresetSelected() &&
        customAmount.value == "" && customAmount.Unmarked() && !customAmount.errorShown
      ensures Trim(old(customAmount.value)) != [] && ValidateAmount(parsed).valid ==>
        selectedAmount == Some(parsed.value) && NoPresetSelected() &&
        customAmount.value == old(customAmount.value) && customAmount.MarkedValid() &&
        !customAmount.errorShown
      ensures Trim(old(customAmount.value)) != [] && !ValidateAmount(parsed).valid ==>
        selectedAmount == None && customAmount.value == old(customAmount.value) &&
        customAmount.MarkedError() && customAmount.errorShown &&
        customAmount.errorText == ValidateAmount(parsed).message &&
        (forall k :: 0 <= k < presetSelected.Length ==> presetSelected[k] == old(presetSelected[k]))
      ensures donateDisabled == !(AmountChosen(selectedAmount) && MethodChosen(selectedPaymentMethod))
    {
      var validation := ValidateAmount(parsed);
      if Trim(customAmount.value) == [] {
        customAmount.ClearMarks();
        SelectAmount(None, false);
      } else if validation.valid {
        customAmount.ShowValid();
        SelectAmount(Some(parsed.value), true);
      } else {
        selectedAmount := None;
        customAmount.ShowError(validation.message);
        assert !customAmount.MarkedValid();
      }
      UpdateDonateButton();
    }

    /** A click on payment button `i`: it alone is selected and its method
        chosen. */
    method ClickPaymentMethod(i: nat)
      requires Consistent() && i < methodSelected.Length
      modifies this`selectedPaymentMethod, this`donateDisabled, methodSelected
      ensures Consistent()
      ensures selectedPaymentMethod == Some(paymentMethods[i])
      ensures forall k :: 0 <= k < methodSelected.Length ==> (methodSelected[k] <==> k == i)
      ensures donateDisabled == !(AmountChosen(selectedAmount) && MethodChosen(selectedPaymentMethod))
    {
      ClearMethods();
      methodSelected[i] := true;
      selectedPaymentMethod := Some(paymentMethods[i]);
      UpdateDonateButton();
    }

    /** `performSecurityChecks`: refuse when any of the five patterns occurs
        in the name, e-mail and phone values joined by spaces. */
    method PerformSecurityChecks() returns (secure: bool)
      ensures secure <==> !IsSuspicious(JoinInputs(nameInput.value, emailInput.value, phoneInput.value))
    {
      var allInputs := JoinInputs(nameInput.value, emailInput.value, phoneInput.value);
      var k := 0;
      while k < |SuspiciousPatterns|
        invariant 0 <= k <= |SuspiciousPatterns|
        invariant forall m :: 0 <= m < k ==> !Occurs(SuspiciousPatterns[m], allInputs)
      {
        if Occurs(SuspiciousPatterns[k], allInputs) {
          return false;
        }
        k := k + 1;
      }
      return true;
    }

    /** `resetFormState`: nothing selected, every input emptied and
        unmarked, every error hidden, the donate button disabled. */
    method ResetFormState()
      requires Valid()
      modifies this`selectedAmount, this`selectedPaymentMethod, this`donateDisabled
      modifies presetSelected, methodSelected, customAmount, nameInput, emailInput, phoneInput
      ensures Consistent()
      ensures selectedAmount == None && selectedPaymentMethod == None
      ensures NoPresetSelected() && NoMethodSelected()
      ensures customAmount.value == "" && customAmount.Unmarked() && !customAmount.errorShown
      ensures nameInput.value == "" && nameInput.Unmarked() && !nameInput.errorShown
      ensures emailInput.value == "" && emailInput.Unmarked() && !emailInput.errorShown
      ensures phoneInput.value == "" && phoneInput.Unmarked() && !phoneInput.errorShown
      ensures KeepsOtherClasses(customAmount) && KeepsOtherClasses(nameInput)
      ensures KeepsOtherClasses(emailInput) && KeepsOtherClasses(phoneInput)
      ensures donateDisabled
    {
      selectedAmount := None;
      selectedPaymentMethod := None;
      ClearPresets();
      ClearMethods();
      customAmount.value := "";
      customAmount.ClearMarks();
      nameInput.value := "";
      nameInput.ClearMarks();
      emailInput.value := "";
      emailInput.ClearMarks();
      phoneInput.value := "";
      phoneInput.ClearMarks();
      UpdateDonateButton();
    }

    /** The three validator calls both the submit handler and
        `showValidationSummary` make: name, e-mail, and the phone unless
        it is blank. Each marks its own input. */
    method ValidateDonorFields() returns (nameOk: bool, emailOk: bool, phoneOk: bool)
      requires Valid()
      modifies nameInput, emailInput, phoneInput
      ensures nameOk == ValidateName(old(nameInput.value)).valid
      ensures emailOk == ValidateEmail(old(emailInput.value)).valid
      ensures phoneOk == PhoneBlankOrValid(old(phoneInput.value))
      ensures nameInput.value == old(nameInput.value) && emailInput.value == old(emailInput.value)
      ensures phoneInput.value == old(phoneInput.value)
      ensures ShowsDonorChecks(old(nameInput.value), old(emailInput.value), old(phoneInput.value))
      ensures KeepsOtherClasses(nameInput) && KeepsOtherClasses(emailInput)
      ensures Trim(old(phoneInput.value)) == [] ==> unchanged(phoneInput)
      ensures Trim(old(phoneInput.value)) != [] ==> KeepsOtherClasses(phoneInput)
    {
      nameOk := ValidateNameField(nameInput);
      emailOk := ValidateEmailField(emailInput);
      phoneOk := ValidatePhoneIfFilled(phoneInput);
    }

    /** `showValidationSummary`: validate again, list the failures in the
        fixed order and show the list, unless it is empty, in which case the
        summary on screen is left as it was. */
    method ShowValidationSummary() returns (errors: seq<SummaryEntry>)
      requires Valid() && Consistent()
      modifies this`summary, nameInput, emailInput, phoneInput
      ensures Consistent()
      ensures errors == SummaryErrors(selectedAmount, selectedPaymentMethod,
        old(nameInput.value), old(emailInput.value), old(phoneInput.value))
      ensures summary == if errors == [] then old(summary) else errors
      ensures nameInput.value == old(nameInput.value) && emailInput.value == old(emailInput.value)
      ensures phoneInput.value == old(phoneInput.value)
      ensures ShowsDonorChecks(old(nameInput.value), old(emailInput.value), old(phoneInput.value))
      ensures KeepsOtherClasses(nameInput) && KeepsOtherClasses(emailInput)
      ensures Trim(old(phoneInput.value)) == [] ==> unchanged(phoneInput)
      ensures Trim(old(phoneInput.value)) != [] ==> KeepsOtherClasses(phoneInput)
    {
      var amountOk := AmountChosen(selectedAmount);
      var methodOk := MethodChosen(selectedPaymentMethod);
      var nameOk, emailOk, phoneOk := ValidateDonorFields();
      assert Consistent();
      errors := SummaryList(amountOk, methodOk, nameOk, emailOk, phoneOk);
      if |errors| > 0 {
        summary := errors;
      }
    }

    /** The checks of the submit handler: the three validators, which mark
        their inputs, the selections and `performSecurityChecks`. */
    method RunSubmitChecks() returns (allowed: bool)
      requires Valid()
      modifies nameInput, emailInput, phoneInput
      ensures allowed == SubmissionAllowed(selectedAmount, selectedPaymentMethod,
        old(nameInput.value), old(emailInput.value), old(phoneInput.value))
      ensures nameInput.value == old(nameInput.value) && emailInput.value == old(emailInput.value)
      ensures phoneInput.value == old(phoneInput.value)
      ensures ShowsDonorChecks(old(nameInput.value), old(emailInput.value), old(phoneInput.value))
      ensures KeepsOtherClasses(nameInput) && KeepsOtherClasses(emailInput)
      ensures Trim(old(phoneInput.value)) == [] ==> unchanged(phoneInput)
      ensures Trim(old(phoneInput.value)) != [] ==> KeepsOtherClasses(phoneInput)
    {
      var nameOk, emailOk, phoneOk := ValidateDonorFields();
      var amountOk := AmountChosen(selectedAmount);
      var methodOk := MethodChosen(selectedPaymentMethod);
      var secure := PerformSecurityChecks();
      allowed := nameOk && emailOk && phoneOk && amountOk && methodOk && secure;
    }

    /** The callback of the 2-second timer the submit handler starts after
        an accepted submission: `resetFormState()`, then the donate button
        is enabled again (even though nothing is selected any more). */
    method ProcessingFinished()
      requires Valid()
      modifies this`selectedAmount, this`selectedPaymentMethod, this`donateDisabled
      modifies presetSelected, methodSelected, customAmount, nameInput, emailInput, phoneInput
      ensures Consistent()
      ensures selectedAmount == None && selectedPaymentMethod == None
      ensures NoPresetSelected() && NoMethodSelected()
      ensures customAmount.value == "" && customAmount.Unmarked() && !customAmount.errorShown
      ensures nameInput.value == "" && nameInput.Unmarked() && !nameInput.errorShown
      ensures emailInput.value == "" && emailInput.Unmarked() && !emailInput.errorShown
      ensures phoneInput.value == "" && phoneInput.Unmarked() && !phoneInput.errorShown
      ensures KeepsOtherClasses(customAmount) && KeepsOtherClasses(nameInput)
      ensures KeepsOtherClasses(emailInput) && KeepsOtherClasses(phoneInput)
      ensures !donateDisabled
    {
      ResetFormState();
      donateDisabled := false;
    }

    /** The submit handler's refusal branch: the donate button is enabled
        again and `showValidationSummary` runs, validating the donor inputs
        once more. */
    method RefuseSubmission() returns (errors: seq<SummaryEntry>)
      requires Consistent()
      modifies this`donateDisabled, this`summary, nameInput, emailInput, phoneInput
      ensures Consistent() && !donateDisabled
      ensures errors == SummaryErrors(selectedAmount, selectedPaymentMethod,
        old(nameInput.value), old(emailInput.value), old(phoneInput.value))
      ensures summary == if errors == [] then old(summary) else errors
      ensures nameInput.value == old(nameInput.value) && emailInput.value == old(emailInput.value)
      ensures phoneInput.value == old(phoneInput.value)
      ensures ShowsDonorChecks(old(nameInput.value), old(emailInput.value), old(phoneInput.value))
      ensures KeepsOtherClasses(nameInput) && KeepsOtherClasses(emailInput)
      ensures Trim(old(phoneInput.value)) == [] ==> unchanged(phoneInput)
      ensures Trim(old(phoneInput.value)) != [] ==> KeepsOtherClasses(phoneInput)
    {
      donateDisabled := false;
      errors := ShowValidationSummary();
    }

    /** The submit handler once the rate limiter has let it through: every
        check runs, each validator marking its input. When all pass, the
        collected data is submitted and the donate button stays disabled
        until `ProcessingFinished`; otherwise the button is enabled again
        and the summary shown. */
    method SubmitChecked() returns (outcome: SubmitOutcome)
      requires Consistent()
      modifies this`donateDisabled, this`summary, nameInput, emailInput, phoneInput
      ensures Consistent()
      ensures !outcome.RateLimited?
      ensures outcome.Submitted? <==> SubmissionAllowed(selectedAmount, selectedPaymentMethod,
        old(nameInput.value), old(emailInput.value), old(phoneInput.value))
      ensures outcome.Submitted? ==>
        selectedAmount.Some? && selectedPaymentMethod.Some? &&
        outcome.data == FormDataFor(selectedAmount.value, selectedPaymentMethod.value,
          old(nameInput.value), old(emailInput.value), old(phoneInput.value)) &&
        donateDisabled && summary == old(summary)
      ensures outcome.NotSubmitted? ==>
        outcome.errors == SummaryErrors(selectedAmount, selectedPaymentMethod,
          old(nameInput.value), old(emailInput.value), old(phoneInput.value)) &&
        summary == (if outcome.errors == [] then old(summary) else outcome.errors) &&
        !donateDisabled
      ensures nameInput.value == old(nameInput.value) && emailInput.value == old(emailInput.value)
      ensures phoneInput.value == old(phoneInput.value)
      ensures ShowsDonorChecks(old(nameInput.value), old(emailInput.value), old(phoneInput.value))
      ensures KeepsOtherClasses(nameInput) && KeepsOtherClasses(emailInput)
      ensures Trim(old(phoneInput.value)) == [] ==> unchanged(phoneInput)
      ensures Trim(old(phoneInput.value)) != [] ==> KeepsOtherClasses(phoneInput)
    {
      donateDisabled := true;
      var allowed := RunSubmitChecks();
      assert Consistent();
      if allowed {
        var data := FormDataFor(selectedAmount.value, selectedPaymentMethod.value,
          nameInput.value, emailInput.value, phoneInput.value);
        return Submitted(data);
      }
      var errors := RefuseSubmission();
      return NotSubmitted(errors);
    }

    /** The form's `submit` handler at time `now`. Within the cooldown the
        wait message is shown under the name input and nothing else
        happens; otherwise `SubmitChecked`. */
    method Submit(now: int) returns (outcome: SubmitOutcome)
      requires Consistent()
      modifies limiter, this`donateDisabled, this`summary, nameInput, emailInput, phoneInput
      ensures Consistent()
      ensures limiter.lastSubmissionTime ==
        if CooldownElapsed(old(limiter.lastSubmissionTime), now) then now
        else old(limiter.lastSubmissionTime)
      ensures outcome.RateLimited? <==> !CooldownElapsed(old(limiter.lastSubmissionTime), now)
      ensures outcome.RateLimited? ==>
        nameInput.errorShown && nameInput.errorText == MsgWaitSeconds &&
        nameInput.classes == old(nameInput.classes) &&
        unchanged(emailInput) && unchanged(phoneInput) &&
        donateDisabled == old(donateDisabled) && summary == old(summary)
      ensures !outcome.RateLimited? ==>
        (outcome.Submitted? <==> SubmissionAllowed(selectedAmount, selectedPaymentMethod,
          old(nameInput.value), old(emailInput.value), old(phoneInput.value)))
      ensures outcome.Submitted? ==>
        selectedAmount.Some? && selectedPaymentMethod.Some? &&
        outcome.data == FormDataFor(selectedAmount.value, selectedPaymentMethod.value,
          old(nameInput.value), old(emailInput.value), old(phoneInput.value)) &&
        donateDisabled && summary == old(summary)
      ensures outcome.NotSubmitted? ==>
        outcome.errors == SummaryErrors(selectedAmount, selectedPaymentMethod,
          old(nameInput.value), old(emailInput.value), old(phoneInput.value)) &&
        summary == (if outcome.errors == [] then old(summary) else outcome.errors) &&
        !donateDisabled
      ensures nameInput.value == old(nameInput.value) && emailInput.value == old(emailInput.value)
      ensures phoneInput.value == old(phoneInput.value)
      ensures !outcome.RateLimited? ==>
        ShowsDonorChecks(old(nameInput.value), old(emailInput.value), old(phoneInput.value))
      ensures KeepsOtherClasses(nameInput) && KeepsOtherClasses(emailInput)
      ensures !outcome.RateLimited? && Trim(old(phoneInput.value)) == [] ==> unchanged(phoneInput)
      ensures !outcome.RateLimited? && Trim(old(phoneInput.value)) != [] ==> KeepsOtherClasses(phoneInput)
    {
      var ok := limiter.CanSubmit(now);
      if !ok {
        nameInput.ShowMessage(MsgWaitSeconds);
        return RateLimited;
      }
      outcome := SubmitChecked();
    }
  }
}
