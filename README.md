# Form helpers of the scout sign-up pages, in Dafny

The scout web application ships one browser script,
`core/static/js/main.js`. It backs the sign-up pages of candidates and
companies with these pieces:

- a digits-only normaliser for document-number and postal-code inputs;
- a "+55 (DD) NNNNN-NNNN" phone mask;
- validators for CPF, CNPJ, phone and password. Each one attaches a
  message next to its input when it fails.
- a postal-code (CEP) lookup that fills in the city, district and street;
- the submit handlers that chain those validators and send the browser to
  the next page.

This project models that logic:

- `Text`: the string primitives the script relies on. These are the `\D`
  and `[^\d+]` deletions, `startsWith` and the clamping `slice`.
- `Normalizer`: the `onlyNumbers` handler.
- `PhoneMask`: the reset guard and the keydown and input handlers of the
  phone mask.
- `Validators`: the checks behind `validateCPF`, `validateCNPJ`,
  `validateTelefone` and `validatePassword`, with the annotation returned as
  a value.
- `Postal`: the blur decision of `lookupCEP` and how its answer settles.
- `EmailCheck`: `trim` and the e-mail pattern of the candidate sign-up form.
- `Submit`: the submit handlers as chains of validation steps. It also holds
  the verification-code comparison and the focus hand-off.
- `Pages`: the same handlers acting on a page. They are methods of a class
  `Form` whose `values` (the inputs' contents) and `errors` (the annotation
  next to each input) change in place. Each method is proved against the
  functions above. The verification-code submit empties an array of code
  boxes.

Some behaviours of the code are easy to misread; the model follows the
code:

- A phone value that loses its "+55" is reset to "+55 ". The input handler
  then runs the pattern over it and writes back "+55", with no trailing
  space (`PhoneMask.ResetCollapses`).
- The password rules are tried as length, uppercase, special character,
  then confirmation. So "longenough1" is refused for its missing uppercase
  letter, not for its missing special character
  (`Validators.PasswordExamples`).
- The keydown guard suppresses Backspace and Delete whenever the caret is
  at position 3 or before. That includes the caret sitting just after
  "+55".
- `validateTelefone` only counts digits: 2 area-code digits after the first
  two, and 9 after those. It never compares the first two digits with "55".

## Model

| member | source | states |
|---|---|---|
| Text.DigitsOf | core/static/js/main.js:9 | Deleting the non-digits leaves only digits and never lengthens the value; `Text.DigitsOfDigits` shows a digit string is left as it is |
| Text.FilterAppend | core/static/js/main.js:107 | Deleting the characters outside a class distributes over concatenation, so what is kept stays in the input's order |
| Normalizer.Normalize | core/static/js/main.js:6-12 | The value written back is all digits and a prefix of the typed digits. It is at most `length` long when `length` is truthy, and is all the digits when `length` is falsy. It is cut short only at exactly `length` |
| Normalizer.NormalizeIdempotent | core/static/js/main.js:8-12 | A second input event on the normalised value changes nothing |
| Normalizer.NormalizeFixedPoints | core/static/js/main.js:9-11 | The handler leaves a value unchanged exactly when it is all digits and within the limit (or no limit is set) |
| PhoneMask.Reset | core/static/js/main.js:94 | After the guard the value starts with "+55". It is untouched when it already did, and "+55 " otherwise |
| PhoneMask.Clean | core/static/js/main.js:107 | The cleaned value holds only digits and '+', and is never longer than the input |
| PhoneMask.CleanKeepsCountryCode | core/static/js/main.js:107 | Removing everything but digits and '+' keeps a leading "+55" in front |
| PhoneMask.LeadingDigits | core/static/js/main.js:110 | The run that the digit groups can match is the longest digit-only prefix: the next character, if any, is not a digit |
| PhoneMask.DigitRun | core/static/js/main.js:103-110 | The pattern's groups draw only on digits |
| PhoneMask.Split | core/static/js/main.js:110 | The groups hold the first 11 digits of the run as 2, 5 and 4 digits. A later group is non-empty only when the one before it is full |
| PhoneMask.Render | core/static/js/main.js:111-118 | The replacement callback's string always starts with "+55". Each group is written after its separator only when it is non-empty, and ")" only after a full area code. `PhoneMask.FilterRender`, `PhoneMask.DisplayRun` and `PhoneMask.FullNumberLayout` are proved about it |
| PhoneMask.OnInput | core/static/js/main.js:102-120 | The display always starts with "+55" and is at most 19 characters long |
| PhoneMask.KeptDigits | core/static/js/main.js:109-110 | The display keeps at most 11 digits after the code, all of them digits |
| PhoneMask.MaskedDigits | core/static/js/main.js:102-120 | The digits of the display are "55" followed by exactly the kept digits, in the order typed |
| PhoneMask.ResetCollapses | core/static/js/main.js:103-119 | A value that lost its code collapses to "+55" |
| PhoneMask.DisplayRun | core/static/js/main.js:107-118 | Reading a display back through the pattern yields exactly the digits it shows |
| PhoneMask.MaskIdempotent | core/static/js/main.js:102-120 | An input event on a display leaves it unchanged |
| PhoneMask.FullNumberLayout | core/static/js/main.js:111-118 | With 11 digits kept, the display is "+55 (DD) NNNNN-NNNN" over those digits, 19 characters long |
| PhoneMask.KeydownSuppressed | core/static/js/main.js:97 | The condition under which line 98 cancels the key. Every plain Backspace that would delete a character of "+55" and every plain Delete before its end is suppressed. Other keys, and any key with the caret past the code, pass |
| PhoneMask.DefaultDeletion | core/static/js/main.js:96-100 | A plain Backspace or Delete at a collapsed caret, the browser's default action that the handler may let through, removes at most one character |
| PhoneMask.AllowedDeletionKeepsCode | core/static/js/main.js:96-100 | A plain Backspace or Delete at a collapsed caret that the keydown handler does not suppress leaves "+55" in place |
| PhoneMask.BackspaceInCodeBreaksDisplay | core/static/js/main.js:96-100 | A Backspace with the caret inside the code would break the code of every display, and the handler suppresses exactly that key |
| Validators.DigitCountCheck | core/static/js/main.js:36-57 | CPF and CNPJ pass exactly when the value holds 11 (CPF) or 14 (CNPJ) digits. Otherwise the fixed message is reported; there are no check digits |
| Validators.TelefoneCheck | core/static/js/main.js:124-136 | The phone passes exactly when it holds 13 digits, and otherwise reports the format message |
| Validators.NormalizedCpf | core/static/js/main.js:36-45 | Behind the 11-digit normaliser, a CPF passes exactly when at least 11 digits were typed |
| Validators.NormalizedCnpj | core/static/js/main.js:48-57 | Behind the 14-digit normaliser, a CNPJ passes exactly when at least 14 digits were typed |
| Validators.MaskedTelefone | core/static/js/main.js:124-136 | Behind the mask, the phone passes exactly when the mask holds its full 11 digits |
| Validators.HasUpper | core/static/js/main.js:67 | By definition: some character of the password lies between 'A' and 'Z' |
| Validators.HasSpecial | core/static/js/main.js:68 | By definition: some character of the password is one of the 20 special characters of line 68's class (`Validators.SpecialChars`) |
| Validators.PasswordCheck | core/static/js/main.js:60-88 | No failure means all four rules hold. A failure names a rule that is broken while every rule tried before it holds |
| Validators.PasswordPassesIff | core/static/js/main.js:60-88 | The password passes exactly when length ≥ 8, an uppercase letter, a special character and a matching confirmation all hold |
| Validators.PasswordExamples | core/static/js/main.js:67-85 | Sample passwords are refused for the first rule they break, in the code's order, and a good pair passes |
| Postal.OnBlur | core/static/js/main.js:140-155 | Exactly 8 digits issue one request for those digits. 1 to 7 digits give the length message. An empty field or more than 8 digits do nothing |
| Postal.OnResponse | core/static/js/main.js:146-151 | The callback runs with the address exactly when a body without `erro` arrives. Otherwise the not-found message (body) or the failure message (transport) is reported |
| Postal.NormalizedBlur | core/static/js/main.js:141-154 | Behind the 8-digit normaliser, the blur stays silent only for an empty field, and it requests exactly when at least 8 digits were typed |
| Postal.BlurExamples | core/static/js/main.js:144-154 | "01001000" asks once, "123" reports the length, and "" does nothing |
| EmailCheck.TrimStart | core/static/js/main.js:182 | Only leading white space is removed, and the result does not start with white space |
| EmailCheck.TrimEnd | core/static/js/main.js:182 | Only trailing white space is removed, and the result does not end with white space |
| EmailCheck.Trim | core/static/js/main.js:182 | The trimmed value is no longer than the input, neither starts nor ends with white space, and equals the input when the input holds no white space |
| EmailCheck.MatchesPattern | core/static/js/main.js:183 | A matching value is at least 5 characters long, and its first and last characters are neither white space nor '@' |
| EmailCheck.MatchesPatternIff | core/static/js/main.js:183 | The pattern holds exactly when there is no white space, exactly one '@' and not first, and a '.' between the '@' and the end with a character on each side |
| EmailCheck.EmailAccepted | core/static/js/main.js:182-185 | An accepted e-mail is at least 5 characters long after trimming |
| EmailCheck.AcceptedExample | core/static/js/main.js:182-185 | "ana@mail.com" is accepted |
| EmailCheck.RefusedExample | core/static/js/main.js:182-185 | "ana@mail" is refused |
| Submit.Failure | core/static/js/main.js:36-136 | A failing validator annotates one of the fields it was given |
| Submit.Annotate | core/static/js/main.js:16-33 | A validator clears its own fields' annotations and leaves every other annotation as it was. On success its fields carry none; on failure exactly the failing field carries the message |
| Submit.RunChain | core/static/js/main.js:237-239 | The validators of a submit handler (here and at lines 269-271) run in order and the first failure ends the handler. No field outside those the chain's validators are given gains an annotation, and a failed chain leaves at least one of them annotated. `Submit.ChainPassesIff`, `Submit.ChainStopsAtFirstFailure` and `Submit.ChainFrame` are proved about it |
| Submit.ChainPassesIff | core/static/js/main.js:237-241 | A submit chain passes exactly when every one of its validators passes on its own |
| Submit.ChainStopsAtFirstFailure | core/static/js/main.js:269-271 | The validators after the first failing one make no difference to the annotations, and the chain fails |
| Submit.ChainFrame | core/static/js/main.js:266-275 | The annotations of fields that no validator of the chain is given are left unchanged |
| Submit.CandidateDetailsPassesIff | core/static/js/main.js:234-242 | The candidate details submit passes exactly when the password, the 11-digit CPF and the 13-digit phone all pass |
| Submit.CompanyDetailsPassesIff | core/static/js/main.js:266-275 | The company details submit passes exactly when the 11-digit CPF, the 13-digit phone and the password all pass |
| Submit.CompanyDetailsShortCpf | core/static/js/main.js:269-271 | A three-digit CPF fails the company submit with only the CPF annotation changed |
| Submit.Join | core/static/js/main.js:294 | By definition: the boxes' values concatenated in order. `Submit.CodeAcceptedIff` is proved about it |
| Submit.CodeAcceptedIff | core/static/js/main.js:294-296 | With four one-character boxes, the code is accepted exactly when every box holds "1" |
| Submit.NextFocus | core/static/js/main.js:285-289 | The focus moves to the next box exactly when the box is non-empty and not the last |
| Submit.RegisterCandidateSubmit | core/static/js/main.js:179-191 | Navigation happens exactly when the trimmed e-mail matches, and it carries the trimmed e-mail |
| Pages.Form.ClearError | core/static/js/main.js:30-33 | The field's annotation is removed and nothing else changes |
| Pages.Form.ShowError | core/static/js/main.js:16-27 | The field's annotation is replaced by the message and nothing else changes |
| Pages.Form.OnNumbersInput | core/static/js/main.js:8-12 | Only the field's value changes, to its normalised form |
| Pages.Form.InitTelefone | core/static/js/main.js:94 | Only the phone value changes, through the reset guard, and it then starts with "+55" |
| Pages.Form.OnTelefoneInput | core/static/js/main.js:102-120 | Only the phone value changes, to the mask's display of the old value |
| Pages.Form.ValidateCpf | core/static/js/main.js:36-45 | Returns whether the CPF passes, and leaves exactly the annotations of the CPF step |
| Pages.Form.ValidateCnpj | core/static/js/main.js:48-57 | Returns whether the CNPJ passes, and leaves exactly the annotations of the CNPJ step |
| Pages.Form.ValidateTelefone | core/static/js/main.js:124-136 | Returns whether the phone passes, and leaves exactly the annotations of the phone step |
| Pages.Form.ValidatePassword | core/static/js/main.js:60-88 | Returns whether the password passes. Both fields' annotations are cleared and the first broken rule is attached to its field |
| Pages.Form.OnCepBlur | core/static/js/main.js:140-155 | Issues the request of the blur decision and annotates the field exactly for the length case |
| Pages.Form.OnCepResponse | core/static/js/main.js:146-151 | A completed lookup fills the city, district and street. A reported one annotates the postal-code field |
| Pages.Form.SubmitRegisterCompany | core/static/js/main.js:204-210 | The annotations are those of the CNPJ chain, and navigation to the company details happens exactly when it passes |
| Pages.Form.SubmitCandidateDetails | core/static/js/main.js:234-242 | The annotations are those of the password, CPF and phone chain, and navigation to the candidate home happens exactly when it passes |
| Pages.Form.SubmitCompanyDetails | core/static/js/main.js:266-275 | The annotations are those of the CPF, phone and password chain, and navigation to company verification happens exactly when it passes |
| Pages.SubmitVerifyCode | core/static/js/main.js:291-303 | Navigation happens exactly when the joined boxes equal "1111". Otherwise every box is emptied and the focus returns to the first box |

## Left out

- The DOM: element lookup, event registration and the `<small>` element's styling are not modelled. The event object is not modelled either: the cancelling of a key press (`preventDefault`) is the predicate `PhoneMask.KeydownSuppressed`. A page is a map from inputs to values plus a map from inputs to their annotation.
- Two inputs sharing one parent element would share one annotation slot, since `clearError` removes the first annotation in the parent. The model gives each input its own slot.
- The network: the request to the address service, its URL, JSON parsing and the order in which overlapping requests settle. The settled answer is a parameter (`Postal.Response`).
- An exception thrown by the address callback itself would also reach the failure annotation. The model treats the callback as total.
- The answer's `erro` property may hold any truthy value; the model takes it as a boolean. Address properties missing from an answer are not modelled.
- `alert`, `focus`, `encodeURIComponent` and `window.location`: a navigation is a `Submit.Destination` value and a focus is a box index.
- `initLogout` (lines 163-170), `initVerifyCompany` (lines 307-322) and the start-up listener (lines 328-336) are left out. They only navigate or show a message.
- The server side (views and URL routes) is not part of this model.
- Strings are sequences of characters. JavaScript's UTF-16 lengths differ only outside the Basic Multilingual Plane, which is not modelled.
- Normalizer.Normalize: a negative `length` argument, which JavaScript treats as truthy with a negative slice end, is not modelled. `length` is a natural number.
- PhoneMask.KeydownSuppressed: only a collapsed caret is modelled; a selection range that reaches into the code is not.
- PhoneMask.DefaultDeletion: only a plain one-character Backspace or Delete is modelled. A word-wise or line-wise deletion (Ctrl, Alt or Cmd with Backspace) has the same `key`, is let through past position 3 and can remove "+55"; the input handler then resets the value to the bare code.
- Pages.SubmitVerifyCode: with no boxes at all, the code throws when it focuses the missing first box. The model returns no focus instead.
