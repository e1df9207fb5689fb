/** The form state of donation-form.js: the `formState` object the handlers
    update in place (donation-form.js:12-23), the step and validity
    `updateFormState` derives from it (lines 645-672), `resetForm` (lines
    929-972, its state part), the submit handler's gate (lines 789-808)
    followed synchronously by `handleFormSubmission` (lines 820-849), and
    `getPaymentMethodLabel` (lines 891-898). */
module DonationForm {
  import opened JsText
  import opened Sanitizer
  import opened Validators
  import opened RateLimit

  datatype DonorInfo = DonorInfo(name: string, email: string, phone: string)

  const EmptyDonor := DonorInfo("", "", "")

  /** The donation object `handleFormSubmission` builds, without its random
      id and its timestamps. */
  datatype DonationRecord = DonationRecord(
    amount: real, currency: string, paymentMethod: string, donor: DonorInfo, status: string)

  const Currency := "BRL"
  const PendingStatus := "pending"

  /** What the submit handler does: refuse with a form message, or submit. */
  datatype SubmitOutcome = Refused(message: string) | Submitted(donation: DonationRecord)

  const MsgWait := "Por favor, aguarde antes de enviar novamente."
  const MsgIncomplete := "Por favor, preencha todos os campos obrigatórios."

  /** `formState.amount` is truthy: set, and not 0. */
  predicate HasAmount(amount: Option<real>)
  {
    amount.Some? && amount.value != 0.0
  }

  /** `formState.paymentMethod` is truthy: set, and not the empty string. */
  predicate HasMethod(pm: Option<string>)
  {
    pm.Some? && pm.value != ""
  }

  /** `isValidDonorInfo()`: name, e-mail and phone all pass their validators. */
  predicate IsValidDonorInfo(d: DonorInfo)
  {
    ValidateName(d.name).valid && ValidateEmail(d.email).valid && ValidatePhone(d.phone).valid
  }

  /** What `updateFormState` stores in `formState.isValid`. */
  predicate IsComplete(amount: Option<real>, pm: Option<string>, d: DonorInfo)
  {
    HasAmount(amount) && HasMethod(pm) && IsValidDonorInfo(d)
  }

  /** The step `updateFormState` derives: 1 amount, 2 payment, 3 donor
      details, 4 confirmation. It is the first stage still missing: past
      stage `k` only when stages 1 to `k` are complete, and at 4 exactly
      when the form is complete. */
  function StepOf(amount: Option<real>, pm: Option<string>, d: DonorInfo): (step: int)
    ensures 1 <= step <= 4
    ensures step >= 2 <==> HasAmount(amount)
    ensures step >= 3 <==> HasAmount(amount) && HasMethod(pm)
    ensures step == 4 <==> IsComplete(amount, pm, d)
  {
    if !HasAmount(amount) then 1
    else if !HasMethod(pm) then 2
    else if !IsValidDonorInfo(d) then 3
    else 4
  }

  /** The property names every plain object inherits from
      `Object.prototype`; looking one of them up in an object literal finds
      the inherited value even though the literal does not define it. */
  const ObjectPrototypeKeys: set<string> := {
    "constructor", "hasOwnProperty", "isPrototypeOf", "propertyIsEnumerable",
    "toLocaleString", "toString", "valueOf", "__proto__",
    "__defineGetter__", "__defineSetter__", "__lookupGetter__", "__lookupSetter__"}

  /** What `getPaymentMethodLabel` returns: a string, or the inherited
      (truthy) function or object found under `key`. */
  datatype MethodLabel = Label(text: string) | Inherited(key: string)

  /** `getPaymentMethodLabel`: `labels[method] || method`. The three known
      methods get their display name; a name inherited from
      `Object.prototype` yields the inherited value; any other value is
      shown as it is. */
  function PaymentMethodLabel(pm: string): (shown: MethodLabel)
    ensures pm == "pix" ==> shown == Label("PIX")
    ensures pm == "credit_card" ==> shown == Label("Cartão de Crédito")
    ensures pm == "bank_transfer" ==> shown == Label("Transferência Bancária")
    ensures shown.Inherited? <==> pm in ObjectPrototypeKeys
    ensures shown == Label(pm) <==>
      pm !in {"pix", "credit_card", "bank_transfer"} && pm !in ObjectPrototypeKeys
  {
    if pm == "pix" then Label("PIX")
    else if pm == "credit_card" then Label("Cartão de Crédito")
    else if pm == "bank_transfer" then Label("Transferência Bancária")
    else if pm in ObjectPrototypeKeys then Inherited(pm)
    else Label(pm)
  }

  /** The donation `handleFormSubmission` records: the amount and method
      as chosen, the donor's details passed through `sanitizeInput`. */
  function DonationFor(amount: real, pm: string, d: DonorInfo): DonationRecord
  {
    DonationRecord(amount, Currency, pm,
      DonorInfo(Sanitize(d.name), Sanitize(d.email), Sanitize(d.phone)), PendingStatus)
  }

  /** A recorded donation is in BRL, pending, and its donor fields carry no
      angle brackets and no surrounding white space. */
  lemma DonationIsSanitized(amount: real, pm: string, d: DonorInfo)
    ensures var r := DonationFor(amount, pm, d);
      r.currency == Currency && r.status == PendingStatus &&
      r.amount == amount && r.paymentMethod == pm &&
      NoAngleBrackets(r.donor.name) && NoAngleBrackets(r.donor.email) &&
      NoAngleBrackets(r.donor.phone) &&
      Trim(r.donor.name) == r.donor.name && Trim(r.donor.email) == r.donor.email &&
      Trim(r.donor.phone) == r.donor.phone
  {
    SanitizedIsClean(d.name);
    SanitizedIsClean(d.email);
    SanitizedIsClean(d.phone);
  }

  /** `formState` together with the closure's `lastSubmissionTime`. */
  class FormState {
    var amount: Option<real>
    var paymentMethod: Option<string>
    var donorInfo: DonorInfo
    var isValid: bool
    var step: int
    const limiter: SubmissionLimiter

    /** `step` and `isValid` are what `updateFormState` derives from the
        rest; every handler ends by calling it. */
    predicate Valid()
      reads this
    {
      step == StepOf(amount, paymentMethod, donorInfo) &&
      isValid == IsComplete(amount, paymentMethod, donorInfo)
    }

    /** The initial `formState`, then `updateFormState()` from
        `initializeDonationForm`. */
    constructor ()
      ensures Valid()
      ensures amount == None && paymentMethod == None && donorInfo == EmptyDonor
      ensures step == 1 && !isValid
      ensures fresh(limiter) && limiter.lastSubmissionTime == 0
    {
      amount := None;
      paymentMethod := None;
      donorInfo := EmptyDonor;
      isValid := false;
      step := 1;
      limiter := new SubmissionLimiter();
    }

    /** `updateFormState`: recompute the step and the validity flag; they
        agree, the form being valid exactly at step 4. */
    method UpdateFormState()
      modifies this
      ensures Valid()
      ensures isValid <==> step == 4
      ensures amount == old(amount) && paymentMethod == old(paymentMethod)
      ensures donorInfo == old(donorInfo)
    {
      if !HasAmount(amount) {
        step := 1;
      } else if !HasMethod(paymentMethod) {
        step := 2;
      } else if !IsValidDonorInfo(donorInfo) {
        step := 3;
      } else {
        step := 4;
      }
      isValid := HasAmount(amount) && HasMethod(paymentMethod) && IsValidDonorInfo(donorInfo);
    }

    /** `resetForm`, state part: no amount, no method, empty donor details,
        back at step 1 and not valid. */
    method ResetForm()
      modifies this
      ensures Valid()
      ensures amount == None && paymentMethod == None && donorInfo == EmptyDonor
      ensures step == 1 && !isValid
    {
      amount := None;
      paymentMethod := None;
      donorInfo := EmptyDonor;
      isValid := false;
      step := 1;
      UpdateFormState();
    }

    /** The submit handler at time `now`. The rate limiter is asked first,
        so a refused incomplete form still starts the cooldown; a complete
        form is recorded and the form reset. */
    method Submit(now: int) returns (outcome: SubmitOutcome)
      requires Valid()
      modifies this, limiter
      ensures Valid()
      ensures limiter.lastSubmissionTime ==
        if CooldownElapsed(old(limiter.lastSubmissionTime), now) then now
        else old(limiter.lastSubmissionTime)
      ensures !CooldownElapsed(old(limiter.lastSubmissionTime), now) ==>
        outcome == Refused(MsgWait)
      ensures CooldownElapsed(old(limiter.lastSubmissionTime), now) && !old(isValid) ==>
        outcome == Refused(MsgIncomplete)
      ensures outcome.Refused? ==>
        amount == old(amount) && paymentMethod == old(paymentMethod) &&
        donorInfo == old(donorInfo) && step == old(step) && isValid == old(isValid)
      ensures outcome.Submitted? <==>
        CooldownElapsed(old(limiter.lastSubmissionTime), now) &&
        old(IsComplete(amount, paymentMethod, donorInfo))
      ensures outcome.Submitted? ==>
        old(amount).Some? && old(paymentMethod).Some? &&
        outcome.donation == DonationFor(old(amount).value, old(paymentMethod).value, old(donorInfo)) &&
        amount == None && paymentMethod == None && donorInfo == EmptyDonor && step == 1
    {
      var ok := limiter.CanSubmit(now);
      if !ok {
        return Refused(MsgWait);
      }
      if !isValid {
        return Refused(MsgIncomplete);
      }
      var donation := DonationFor(amount.value, paymentMethod.value, donorInfo);
      ResetForm();
      return Submitted(donation);
    }
  }
}
