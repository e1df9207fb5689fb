# Donation form model

A Dafny model of the donation form of a charity's web site. Two scripts
drive the form, and both are modelled:

- `donation-form.js` keeps a `formState` object with the chosen amount, the
  payment method, the donor's name, e-mail and phone, a step number and a
  validity flag. It validates these with pure functions, rate-limits
  submissions, and on submit records a sanitised donation and resets the
  form.
- The donation block of `script.js` (lines 167-1000) keeps the selected
  amount and payment method in two variables that click and input handlers
  update. It validates the donor inputs in place (marking each input `valid`
  or `error` and showing a message) and gates submission on the validators,
  the rate limiter and a scan for suspicious patterns. On a refusal it
  shows a summary of what is wrong.

Modules:

| module | models |
|---|---|
| `JsText` | the JavaScript string primitives the scripts rely on: `trim()` and its white-space class, `toLowerCase()` (ASCII capitals and the Kelvin sign), `\d`, `\w` and `replace(/\D/g, '')` |
| `Sanitizer` | `sanitizeInput`, a single left-to-right pass per `replace` as JavaScript does |
| `EmailGrammar` | the e-mail regular expression: a character-by-character recogniser (`Run`) proved equal to the WHATWG address grammar it encodes |
| `PhoneFormat` | `formatPhone` and the phone pattern `^\(\d{2}\)\s\d{4,5}-\d{4}$` |
| `Validators` | `validateAmount`, `validateName`, `validateEmail` and `validatePhone` of `donation-form.js` |
| `RateLimit` | `canSubmitForm` (identical in both scripts) as a class with one timestamp |
| `SuspiciousInput` | the five patterns of `performSecurityChecks` |
| `DonationForm` | `formState`, `updateFormState`, `resetForm`, the submit handler and `getPaymentMethodLabel` of `donation-form.js` |
| `Dom` | an input element with its class list and its error element |
| `DonationPage` | the page of `script.js`: its handlers, input validators, submit handler and validation summary |

Things the model makes precise about the source:

- Each `replace` in `sanitizeInput` is a single left-to-right pass, so
  removing one match can join the text around it into a new one:
  `javajavascript:script:` comes out as `javascript:`. The model keeps this
  behaviour. `Sanitizer.SanitizeFixedIff` characterises the strings the
  function leaves unchanged.
- The two phone validators differ. `donation-form.js` tests the untrimmed
  value against the anchored pattern. `script.js` tests the trimmed value.
  A well-formed number with spaces around it is therefore rejected by the
  first and accepted by the second (`DonationPage.PhoneCopiesDisagreeOnPadding`).
- When `script.js` refuses a submission only because of the security scan,
  every check in the summary passes. The summary is then empty, so no
  message is shown (`DonationPage.SecurityRefusalShowsNoSummary`).
- After a successful submission in `script.js`, the processing callback
  resets the page and then re-enables the donate button, although nothing
  is selected any more (`DonationPage.Page.ProcessingFinished`).
- An invalid custom amount clears `selectedAmount` but leaves a preset
  button marked `selected` (`DonationPage.Page.CustomAmountInput`).
- In `donation-form.js` the rate limiter is asked before the validity
  check. A refused incomplete form still starts the 3-second cooldown
  (`DonationForm.FormState.Submit`).
- `parseInt` of a phone's first two digits cannot be NaN once the pattern
  has matched. The model still carries the NaN case as `None` in
  `Validators.AreaCode`.

## Model

| member | source | states |
|---|---|---|
| JsText.ToLower | donation-form.js:199 | lower-casing keeps the length, leaves no ASCII capital and no Kelvin sign, turns each capital into its small letter and the Kelvin sign into `k`, and keeps every other character in place |
| JsText.ToLowerIdempotent | script.js:603 | lower-casing an already lower-cased value changes nothing |
| JsText.ToLowerTrim | donation-form.js:199 | lower-casing and `trim()` commute, since lower-casing neither creates nor removes white space |
| JsText.TrimIsMiddle | donation-form.js:115 | `trim()` returns a contiguous middle slice whose cut-off ends are all white space and whose own ends are not |
| JsText.TrimEmptyIff | donation-form.js:227 | a value trims to the empty string exactly when it is all white space |
| JsText.TrimIdempotent | script.js:707 | trimming a trimmed value changes nothing |
| JsText.Digits | donation-form.js:237 | `replace(/\D/g, '')` keeps only digits and never lengthens the value |
| JsText.DigitsAppend | script.js:728 | removing the non-digits distributes over concatenation |
| Sanitizer.StripAngles | donation-form.js:112 | removing `<` and `>` leaves none, changes a string exactly when it had one, and then shortens it |
| Sanitizer.WordRunEnd | donation-form.js:114 | the `\w+` run starting at a position ends at the first non-word character or at the end |
| Sanitizer.SanitizeValueSpec | donation-form.js:109-116 | non-strings pass through unchanged; a string comes back no longer, without angle brackets and with no white space at either end |
| Sanitizer.SanitizedIsClean | script.js:190-197 | the sanitised string has no angle brackets and is already trimmed |
| Sanitizer.StripLiteralIdentityIff | donation-form.js:113 | removing `javascript:` case-insensitively leaves a string unchanged exactly when it does not contain it, and otherwise shortens it |
| Sanitizer.StripHandlersIdentityIff | donation-form.js:114 | removing `on\w+=` case-insensitively leaves a string unchanged exactly when no such match occurs, and otherwise shortens it |
| Sanitizer.SanitizeFixedIff | donation-form.js:109-116 | `sanitizeInput` leaves a string unchanged exactly when it has no angle bracket, no `javascript:`, no `on\w+=` and no surrounding white space |
| EmailGrammar.SplitWithoutSeparator | donation-form.js:217 | `split('@')` of a string without `@` is the one-element list of the string |
| EmailGrammar.SplitJoin | donation-form.js:217 | the two parts of `split('@')` rejoined around `@` give back the string |
| EmailGrammar.SplitCountsSeparator | donation-form.js:217 | a string containing `@` splits into at least two parts |
| EmailGrammar.RunIsExpected | donation-form.js:209 | after reading any prefix, the recogniser's state is the one the grammar assigns to that prefix (local part, label in progress, or dead) |
| EmailGrammar.EmailPatternIsGrammar | donation-form.js:209 | the e-mail regular expression accepts a string exactly when it is a non-empty local part of allowed symbols, one `@`, and dot-separated labels of 1 to 63 letters, digits or inner hyphens |
| EmailGrammar.ValidAddressHasDomain | donation-form.js:216-219 | for a valid address, `split('@')[1]` is the domain and the two parts rejoin to the address |
| PhoneFormat.PhoneDigits | donation-form.js:626-630 | the digits kept by `formatPhone` are at most 11 |
| PhoneFormat.FormatPhoneKeepsDigits | donation-form.js:625-641 | the formatted value holds exactly the first 11 digits of the input, in order |
| PhoneFormat.DigitsOfLayout | donation-form.js:632-640 | each of the four layouts adds only separators, never digits |
| PhoneFormat.FormatPhoneIdempotent | donation-form.js:625-641 | formatting an already formatted value changes nothing |
| PhoneFormat.FormatPhoneMatchesIff | donation-form.js:231 | a formatted value matches the phone pattern exactly when the input has 10 or 11 digits |
| PhoneFormat.FormatPhoneIsTrimmed | script.js:657-661 | a formatted value never has white space at either end, and is empty exactly when the input held no digit |
| PhoneFormat.FormatPhoneInput | script.js:685-704 | the phone input's value is replaced by its formatted form; its marks and error are untouched |
| Validators.ValidateAmount | donation-form.js:157-173 | accepted exactly on [5, 10000]; NaN, -∞ and amounts up to 0 get the invalid-value message, amounts strictly between 0 and 5 the minimum message, amounts above 10000 and +∞ the contact message |
| Validators.ScanNameCharsIff | donation-form.js:186-187 | the scan for `^[a-zA-ZÀ-ÿ\s\-']+$` succeeds exactly when every character is a letter, white space, hyphen or apostrophe |
| Validators.ScanNameLetterIff | donation-form.js:191 | the scan for `[a-zA-ZÀ-ÿ]` succeeds exactly when some character is a letter |
| Validators.ValidateNameSpec | donation-form.js:175-196 | a name is accepted exactly when its sanitised form has 2 to 100 characters of the allowed kinds with at least one letter; each message corresponds exactly to the first failing check |
| Validators.ValidateEmailIgnoresCase | donation-form.js:199 | validating a lower-cased address gives the same verdict and message as validating it as typed |
| Validators.ValidateEmailSpec | donation-form.js:198-224 | an e-mail is accepted exactly when its trimmed, lower-cased, sanitised form is non-empty, at most 254 characters, grammatical, and not on one of the four typo domains; each message corresponds exactly to the first failing check |
| Validators.PatternDigits | donation-form.js:237 | on a value matching the phone pattern, its digits are the area code, the number and the last four |
| Validators.PatternPhoneChecks | donation-form.js:237-246 | on a matching value, the area-code and leading-9 checks read the pattern's positions 1-2 and 5 |
| Validators.ValidatePhoneSpec | donation-form.js:226-249 | a blank phone is accepted; otherwise it is accepted exactly when it matches the pattern, its area code is at least 11 and an 11-digit number has 9 after the area code, with an empty message when accepted and the message of the first failing check when not |
| Validators.FormattedPhoneValidIff | donation-form.js:607-612 | a value produced by `formatPhone` passes `validatePhone` exactly when it has no digits, or 10 or 11 digits with area code at least 11 and, for 11 digits, a 9 third |
| RateLimit.SubmissionLimiter.constructor | donation-form.js:119 | the last submission time starts at 0 |
| RateLimit.SubmissionLimiter.CanSubmit | donation-form.js:122-129 | a call is accepted exactly when 3000 ms have passed since the last accepted one, and only an accepted call records its time |
| RateLimit.SubmissionLimiter.CanSubmitEach | script.js:203-210 | the answers of successive `canSubmitForm()` calls at the given times are those `Replay` gives from the current timestamp, so the spacing lemmas about `Replay` hold of the limiter |
| RateLimit.AcceptedAfterStart | script.js:203-210 | every call accepted in a sequence lies at least 3000 ms after the starting timestamp |
| RateLimit.AcceptedAreSpaced | script.js:203-210 | any two accepted calls of a sequence are at least 3000 ms apart |
| RateLimit.SecondCallWithinCooldownRefused | script.js:205-207 | a call within 3000 ms of an accepted one is refused |
| SuspiciousInput.LiteralSplitIff | script.js:838-844 | a space-free pattern occurs in `x + " " + y` exactly when it occurs in `x` or in `y` |
| SuspiciousInput.HandlerSplitIff | script.js:841 | `/on\w+=/i` matches `x + " " + y` exactly when it matches `x` or `y` |
| SuspiciousInput.JoinedSuspiciousIff | script.js:846-853 | the joined inputs are suspicious exactly when the name, the e-mail or the phone is |
| DonationForm.StepOf | donation-form.js:645-656 | the step is 1 to 4; at least 2 exactly with an amount, at least 3 exactly with an amount and a method, 4 exactly when the form is complete |
| DonationForm.PaymentMethodLabel | donation-form.js:891-898 | the three known methods get their Portuguese labels; a name inherited from `Object.prototype` (`toString`, `constructor`, `valueOf`, …) yields the inherited value; any other method is shown as given |
| DonationForm.DonationIsSanitized | donation-form.js:820-835 | the recorded donation keeps the amount and method, is in BRL and pending, and every donor field is free of angle brackets and trimmed |
| DonationForm.FormState.constructor | donation-form.js:12-23 | the initial form has no amount, no method and empty donor details, is at step 1 and is not valid |
| DonationForm.FormState.UpdateFormState | donation-form.js:645-672 | step and validity are recomputed from the rest, valid exactly at step 4, and nothing else changes |
| DonationForm.FormState.ResetForm | donation-form.js:929-972 | the form is back to no amount, no method, empty donor details, step 1, not valid |
| DonationForm.FormState.Submit | donation-form.js:785-849 | within the cooldown the submission is refused with the wait message; an incomplete form is refused with the incomplete message and left unchanged; otherwise the sanitised donation is recorded and the form reset |
| Dom.Field.ShowError | script.js:544-546 | the input is marked in error, its other classes kept, and the message shown |
| Dom.Field.ShowMessage | script.js:760 | the message is shown and the input's classes are left alone |
| Dom.Field.ShowValid | script.js:575-577 | the input is marked valid, its other classes kept, and the error hidden |
| Dom.Field.ClearMarks | script.js:712-713 | both marks are removed and the error hidden |
| DonationPage.ValidateNameField | script.js:538-579 | the outcome is `validateName`'s; a valid input is marked valid with its error hidden, an invalid one marked in error with the first failing check's message |
| DonationPage.ValidateEmailField | script.js:607-653 | likewise for `validateEmail` |
| DonationPage.ValidatePhoneField | script.js:706-751 | the outcome is `validatePhone` on the trimmed value; a blank input loses both marks, otherwise it is marked valid or in error with the message |
| DonationPage.ValidatePhoneIfFilled | script.js:773 | a blank phone is accepted and the input left entirely unchanged; otherwise the input is marked valid with its error hidden, or marked in error with `validatePhone`'s message on the trimmed value, its other classes kept |
| DonationPage.NameInputHandler | script.js:514-526 | typing in the name sanitises the value in place, leaving no angle brackets and no surrounding white space; a non-empty value is marked by `validateName`, an emptied one loses both marks and its error; the input's other classes are kept |
| DonationPage.EmailInputHandler | script.js:587-604 | typing in the e-mail leaves the sanitised, lower-cased value; although validation runs before lower-casing, the marks and message agree with `validateEmail` on the final value; an emptied value loses both marks and its error; the input's other classes are kept |
| DonationPage.PhoneInputHandler | script.js:657-668 | typing in the phone leaves the formatted value, empty exactly when no digit was typed; a non-empty value is marked by `validatePhone`, an empty one loses both marks and its error; the input's other classes are kept |
| DonationPage.PaddedValueFailsPattern | donation-form.js:231-235 | a value that trimming changes never matches the anchored phone pattern |
| DonationPage.PhoneCopiesDisagreeOnPadding | donation-form.js:226-235 | a non-blank value with surrounding white space is rejected by `donation-form.js` with the format message, although `script.js` checks its trimmed form |
| DonationPage.SummaryList | script.js:943-960 | the summary lists one entry per failing check and nothing else; it is empty exactly when all five checks pass |
| DonationPage.SummaryListOrdered | script.js:943-960 | the entries come in the fixed order amount, payment, name, e-mail, phone, without repetition |
| DonationPage.SecurityRefusalShowsNoSummary | script.js:780-829 | a refused submission shows an empty summary exactly when every check passes and one of the inputs is suspicious |
| DonationPage.AcceptedNameIsValid | script.js:786 | the name sent by an accepted submission has 2 to 100 allowed characters and no angle brackets |
| DonationPage.AcceptedEmailIsValid | script.js:787 | the e-mail sent is a grammatical address of at most 254 characters on a domain off the typo list |
| DonationPage.AcceptedPhoneIsWellFormed | script.js:788 | the phone sent is null exactly for an all-white-space value; a non-blank phone that is sent, trimmed, matches the phone pattern, has an area code of at least 11, and as an 11-digit number has 9 after the area code |
| DonationPage.Page.constructor | script.js:185-186 | nothing is selected, no preset or method button is selected, the donate button is disabled (by the initial `updateDonateButton()` call at script.js:998) and no summary is shown |
| DonationPage.Page.UpdateDonateButton | script.js:483-486 | the donate button is enabled exactly when an amount above 0 and a payment method are chosen |
| DonationPage.Page.ClearPresets | script.js:217 | no preset button is left selected |
| DonationPage.Page.ClearMethods | script.js:338 | no payment method button is left selected |
| DonationPage.Page.SelectAmount | script.js:213-228 | the amount is recorded and every preset deselected; unless the amount is custom, the custom input is emptied, unmarked and its error hidden, its other classes kept; a custom amount leaves the custom input untouched |
| DonationPage.Page.ClickPreset | script.js:230-244 | a selected preset toggles off and clears the amount, leaving the custom input untouched; otherwise its amount is chosen, it alone is selected and the custom input emptied, unmarked and its error hidden, its other classes kept |
| DonationPage.Page.CustomAmountInput | script.js:289-314 | a blank input clears the amount; a valid amount is chosen, marked valid and its error hidden; an invalid one clears the amount, shows its message and leaves the presets as they were; in every case the custom input's classes other than `valid` and `error` are kept |
| DonationPage.Page.ClickPaymentMethod | script.js:336-348 | the clicked method is chosen and its button alone is selected |
| DonationPage.Page.PerformSecurityChecks | script.js:836-856 | the inputs pass exactly when none of the five patterns occurs in their space-joined values |
| DonationPage.Page.ResetFormState | script.js:895-938 | nothing is selected, every input is empty and unmarked with its error hidden, its other classes kept, and the donate button is disabled |
| DonationPage.Page.ValidateDonorFields | script.js:771-773 | each outcome is its validator's on the values as they were, and no value changes; the name and e-mail inputs, and the phone input unless blank, are marked valid with the error hidden or marked in error with the validator's message, their other classes kept; a blank phone input is left unchanged |
| DonationPage.Page.RunSubmitChecks | script.js:771-780 | the submit condition holds exactly when the donor fields, the amount, the method and the security scan all pass; the donor inputs are left marked by their validators as in `ValidateDonorFields` |
| DonationPage.Page.ShowValidationSummary | script.js:942-994 | the summary computed is the one for the current selections and values, and it replaces the shown one only when non-empty; the re-validation leaves the donor inputs marked by their validators as in `ValidateDonorFields` |
| DonationPage.Page.RefuseSubmission | script.js:817-823 | on a refusal the donate button is enabled again and the summary for the current values is computed and shown when non-empty, the donor inputs left marked by their validators |
| DonationPage.Page.ProcessingFinished | script.js:805-815 | after processing, nothing is selected, every input is empty and unmarked with its error hidden, its other classes kept, and the donate button is enabled |
| DonationPage.Page.SubmitChecked | script.js:764-831 | past the rate limit, the data is submitted exactly when the submit condition holds, with trimmed and sanitised values; otherwise the button is re-enabled and the summary shown; either way the donor inputs are left marked by their validators, so an invalid one carries `error` |
| DonationPage.Page.Submit | script.js:755-832 | the cooldown is checked before anything else: within it, the name input's error shows the wait message, its value and classes stay as they were, the e-mail and phone inputs are untouched, and the button and the summary do not change; past it, as `SubmitChecked`, including the marks left on the donor inputs |

## Left out

- Amount parsing: `parseFloat` and `parseCurrency` are not modelled; the custom amount handler and `validateAmount` take the parsed number, NaN and the infinities included, as a parameter.
- Timers: the 2-second processing delay of `donation-form.js` is taken as synchronous, so `handleFormSubmission` runs inside the submit handler; in `script.js` the callback is the separate `ProcessingFinished`. The delayed clearing of error texts and the automatic removal of messages and of the summary are not modelled.
- The clock (`Date.now()`) is a parameter of the rate limiter; security tokens, random ids, timestamps, user agent and referrer are not part of the recorded data.
- Rendering: how an inherited value returned by `getPaymentMethodLabel` prints in the success message, `innerHTML` of the donate button, ARIA attributes, focus handling, scrolling, the success modal, the progress indicator, and the payment-specific fields are not modelled; neither is logging to the console.
- Keypress filters, keyboard activation of buttons and currency formatting on blur are not modelled. The blur handlers of the donor fields only call the validators, which are modelled (`ValidateNameField`, `ValidateEmailField`, `ValidatePhoneField`).
- `donation-form.js`'s own selection and input handlers and its `updateDonateButton` are not part of this model; its `formState` is updated directly.
- JsText.ToLower: maps only the ASCII capitals and U+212A KELVIN SIGN, which `toLowerCase` turns into `k`. So the model, like the source, accepts `\u212A@a.com` as `k@a.com`. Other capitals outside ASCII (`À`, `Σ`) are kept as typed, while JavaScript lower-cases them. Every character outside ASCII fails the e-mail pattern in either case, so the verdict and the message do not change. Only the value `EmailInputHandler` leaves in the field differs, keeping `À` where the source has `à`.
- JsText.ToLower: does not model U+0130 (`İ`), which `toLowerCase` turns into two characters (`i` and a combining dot). An address containing it is rejected both by the source and by the model. When the longer lowered form passes 254 characters, the source gives the "E-mail muito longo" message and the model gives "Por favor, insira um e-mail válido".
- Lengths are counted in characters, not in UTF-16 code units, so a name with characters outside the Basic Multilingual Plane is measured differently.
- DonationForm.FormState.UpdateFormState: stores `isValid` as a boolean, while the source stores the truthy value of the `&&` chain.
- The `errors` field of `formState` is never read or written by the modelled code, so it is not modelled.
