# Identity verification flow — Dafny model

This project models the decision logic of a small identity-verification web flow for Uruguayan users. The user chooses one of two ways to identify:

- by national ID (*cédula*, 8 digits), whose mobile number a mock directory supplies;
- by typing a mobile number (`09X XXX XXX`).

"Send code" then shows a code-confirmation screen for the masked number. That screen runs a 120-second countdown that gates the "resend" button, accepts a 6-digit code, and checks it against a mock value.

The model has three layers, each following a source file:

- **`Validation`** (`validation.dfy`, from `src/utils/validation.ts`): the pure validators and formatters.
  - The regular expressions become exact predicates over `seq<char>`.
  - The formatter and the masker come with their partner lemmas: what cleaning the result gives back, idempotence, validity preservation, and split/join round trips.
- **`Form`** (`verification_form.dfy`, from `src/components/VerificationForm.tsx`): the method-selection form.
  - It is a class whose fields are the component's `useState` cells, with one method per event handler.
  - The pure sanitisers and the mock lookup are functions beside it.
  - While the code screen is shown, the form holds the mounted `CodeVerification` object. Each send mounts a fresh one, as React remounts the component.
- **`CodeScreen`** (`code_verification.dfy`, from `src/components/CodeVerification.tsx`): the code-confirmation screen.
  - It is a class with `Tick` (one run of the countdown effect), the code-field handler, verify and resend.
  - The countdown is also a value, `Countdown`, with a step function `Step`, and the class's `Tick` is proved to perform exactly that step. Lemmas about `Ticks` (iterated steps) give the timer's behaviour over time.
  - `formatTime` is a function, proved to round-trip through a parser `ParseTime`.

Two supporting modules:

- **`Text`** (`text.dfy`) holds the JavaScript string operations the source uses:
  - the character classes `\d` and `\s`, and `replace` with a class;
  - `substring`, `split`/`join`, and the anchored pattern `^\d{n}$`;
  - decimal rendering of numbers.
- **`Wrappers`** holds `Option`.

`Scenarios` (`scenarios.dfy`) drives the two classes through the flow:

- a lookup miss;
- a successful send on each path;
- the countdown running out, followed by a resend;
- the two outcomes of a well-formed code;
- going back from the code screen.

Notifications are values, not text: `Toast`, `FormError` and `CodeError`. The success notification of `handleVerify`, together with its call to `onVerificationComplete`, is the `completed` result.

Three points of the source's behaviour shape the model:

- **Resend is offered one run of the effect after the clock reaches 0** (`CodeVerification.tsx:33-35`). After 120 interval firings the clock reads 0 but `canResend` is still false; the next run of the effect sets it. So resend becomes available after 121 steps, which `ExpiryAfterDuration` states.
- **`handleResend` has no guard of its own** (`CodeVerification.tsx:62-70`). Only `disabled={!canResend}` on its button (`CodeVerification.tsx:137`) keeps it from running, so `HandleResend` requires `ResendEnabled()`.
- **Completion only raises notifications** (`CodeVerification.tsx:51-56`, `VerificationForm.tsx:114-120`). No field of either component records it.

## Model

| member | source | states |
|---|---|---|
| Text.IsWhitespace | src/utils/validation.ts:8 | `\s` matches the listed white-space and line-terminator code points, none of which is a digit or the dash |
| Text.Keep | src/utils/validation.ts:8 | `replace` with a class: the result is no longer than the input and holds only accepted characters |
| Text.KeepDigits | src/components/VerificationForm.tsx:36 | `replace(/\D/g, '')` leaves only ASCII digits |
| Text.Take | src/components/VerificationForm.tsx:37 | `substring(0, n)` is a prefix of length `min(n, length)` |
| Text.Split | src/utils/validation.ts:42 | `split(' ')` yields at least one part |
| Text.SplitParts | src/utils/validation.ts:42 | no part of a split contains the separator, and joining the parts with it gives the input back |
| Text.SplitJoin | src/utils/validation.ts:42 | splitting a join of separator-free parts gives exactly those parts |
| Text.MatchesDigits | src/utils/validation.ts:10 | `^\d{n}$` holds iff the string has length `n` and only ASCII digits |
| Text.NatToString | src/components/CodeVerification.tsx:75 | a number renders as at least one digit, with no leading zero unless it is 0, and as a single digit iff it is below 10 |
| Text.IntToString | src/components/CodeVerification.tsx:75 | an integer in a template literal starts with `-` exactly when it is negative; the rest is digits without a leading zero (unless the value is 0) that read back as the magnitude |
| Validation.IsSeparator | src/utils/validation.ts:8 | `[\s-]` matches the dash and the white-space characters, and never a digit |
| Validation.Clean | src/utils/validation.ts:7-8 | removing `[\s-]` leaves no whitespace and no dash |
| Validation.CleanClean | src/utils/validation.ts:8 | cleaning twice is the same as cleaning once |
| Validation.ValidateId | src/utils/validation.ts:6-11 | an ID is valid iff its cleaned form is exactly 8 ASCII digits |
| Validation.ValidatePhone | src/utils/validation.ts:17-22 | a phone is valid iff its cleaned form has length 9, starts with `0`,`9`, and is all digits |
| Validation.FormatPhone | src/utils/validation.ts:28-35 | the input is returned unchanged unless the cleaned form has 9 characters; otherwise the result is three groups of three joined by single spaces, and dropping the two spaces gives the cleaned form |
| Validation.CleanFormat | src/utils/validation.ts:28-35 | cleaning a formatted phone gives the cleaned input |
| Validation.FormatIdempotent | src/utils/validation.ts:28-35 | formatting twice is the same as formatting once |
| Validation.FormatPreservesValidity | src/utils/validation.ts:17-35 | formatting changes neither phone validity nor ID validity |
| Validation.MaskPhone | src/utils/validation.ts:41-46 | the input is returned unchanged unless it splits on `' '` into exactly 3 parts; otherwise the result splits into the same parts with the middle one replaced by `***` |
| Validation.MaskIdempotent | src/utils/validation.ts:41-46 | masking twice is the same as masking once |
| Validation.ValidateCode | src/utils/validation.ts:52-54 | a code is valid iff it is exactly 6 ASCII digits, with no cleaning |
| Validation.FormatExample | src/utils/validation.ts:24-35 | `098765432` is valid and formats to `098 765 432`, itself valid |
| Validation.MaskExample | src/utils/validation.ts:37-46 | `098 765 432` masks to `098 *** 432` |
| Validation.MaskFormatExample | src/utils/validation.ts:28-46 | masking the formatted `098765432` gives `098 *** 432` |
| Validation.IdExamples | src/utils/validation.ts:6-11 | `12345678` is a valid ID; its 7-digit prefix, a 9-digit extension, and a version with a letter are not |
| Validation.IdDashExample | src/utils/validation.ts:7-10 | dashes are removed before the check, so `1234-5678` is valid |
| Validation.PhoneExamples | src/utils/validation.ts:17-22 | `098765432` is valid; the `01` prefix and 8 digits are not |
| Validation.CodeExamples | src/utils/validation.ts:52-54 | `123456` is valid; a leading space, 5 digits and letters are not |
| CodeScreen.Step | src/components/CodeVerification.tsx:27-40 | one run of the effect keeps the invariant, never increases the time, takes exactly one second off iff time is left and resend is not offered, and ends with resend offered iff it already was or the time is 0 |
| CodeScreen.TicksPreserveInv | src/components/CodeVerification.tsx:27-40 | any number of steps keeps `0 <= time <= 120` and (resend offered ⟹ time is 0) |
| CodeScreen.CountDownFrom | src/components/CodeVerification.tsx:29-32 | from `t` seconds with resend locked, `n <= t` steps leave `t - n` seconds, still locked |
| CodeScreen.ExpiredIsStable | src/components/CodeVerification.tsx:33-35 | once resend is offered at 0, further steps change nothing |
| CodeScreen.ResendLockedUntilExpiry | src/components/CodeVerification.tsx:22-32 | during the first 120 steps from mounting, resend stays locked and the clock reads `120 - n` |
| CodeScreen.ExpiryAfterDuration | src/components/CodeVerification.tsx:27-40 | 120 steps reach `(0, locked)`; step 121 reaches `(0, resend offered)`, which renders as `0:00` |
| CodeScreen.JsRem | src/components/CodeVerification.tsx:74 | JavaScript `%`: for a non-negative dividend it is the usual remainder; for a negative one it lies in `(-b, 0]` and is the Euclidean remainder minus the divisor, or 0 when that remainder is 0 |
| CodeScreen.PadSeconds | src/components/CodeVerification.tsx:75 | for fewer than 60 seconds, the padded seconds field is two digits that read back as the seconds |
| CodeScreen.FormatTime | src/components/CodeVerification.tsx:72-76 | for `s >= 0`, the text is at least one digit, a colon and two digits; the digits before the colon read as `s / 60`, the two after it as `s % 60` |
| CodeScreen.FormatTimeMinutes | src/components/CodeVerification.tsx:73-75 | for `s >= 0`, the minutes are written without leading zeros |
| CodeScreen.ParseTimeOf | src/components/CodeVerification.tsx:75 | a text of digits, a colon and two digits below 60 parses as those minutes and seconds |
| CodeScreen.FormatTimeRoundTrip | src/components/CodeVerification.tsx:72-76 | for `s >= 0`, parsing the text back yields `s`, so `mins*60 + secs == s` |
| CodeScreen.FormatTimeExamples | src/components/CodeVerification.tsx:72-76 | 120 → `2:00`, 65 → `1:05`, 0 → `0:00` |
| CodeScreen.CodeDigits | src/components/CodeVerification.tsx:104-107 | the code field keeps a prefix of the typed digits of length `min(6, digits)`, and it is a valid code iff it has 6 digits |
| CodeScreen.CodeVerification.constructor | src/components/CodeVerification.tsx:21-24 | a mounted screen starts with an empty code, 120 seconds, resend locked and no error |
| CodeScreen.CodeVerification.Tick | src/components/CodeVerification.tsx:27-40 | one firing performs exactly `Step` on the clock and keeps the screen invariant; the code and error are untouched |
| CodeScreen.CodeVerification.HandleCodeChange | src/components/CodeVerification.tsx:104-107 | stores the sanitised digits and clears the error; the clock is untouched |
| CodeScreen.CodeVerification.VerifyEnabled | src/components/CodeVerification.tsx:117 | the verify button is enabled iff the stored code passes the code check |
| CodeScreen.CodeVerification.HandleVerify | src/components/CodeVerification.tsx:42-60 | a malformed code sets the format error and does not complete; `123456` clears the error and completes; any other valid code sets the mismatch error; only `error` changes |
| CodeScreen.CodeVerification.ResendEnabled | src/components/CodeVerification.tsx:137 | the resend button is enabled only at `(0, resend offered)`, and never while time is left |
| CodeScreen.CodeVerification.HandleResend | src/components/CodeVerification.tsx:62-70 | restarts the countdown at `(120, locked)` and clears the error; the code is kept |
| Form.LookupPhone | src/components/VerificationForm.tsx:55-62 | there is no number exactly for `12345678`; for every other ID the number is `098 765 432` |
| Form.MockPhoneFacts | src/components/VerificationForm.tsx:61 | the mock number is a valid phone number, already formatted, and masks to `098 *** 432` |
| Form.UnlinkedIdFacts | src/components/VerificationForm.tsx:58 | the unlinked ID is well formed (sending is enabled for it), and the lookup finds no number for it |
| Form.IdDigits | src/components/VerificationForm.tsx:36-37 | the ID field keeps a prefix of the typed digits of length `min(8, digits)`, and it is a valid ID iff it has 8 digits |
| Form.PhoneDigits | src/components/VerificationForm.tsx:44-51 | when any digit was typed, the phone field keeps `09` followed by the first 7 typed digits after the prefix (a typed `09` or a lone leading `0` is absorbed into it); nothing is kept iff nothing typed was a digit; at most 9 digits, all ASCII |
| Form.PhoneDigitsComplete | src/components/VerificationForm.tsx:44-51 | a complete 9-digit number starting with `09` is kept as typed |
| Form.PhoneDigitsPrefixed | src/components/VerificationForm.tsx:47-49 | 7 digits typed without `09`, or after a lone `0`, get `09` put in front |
| Form.PhoneDigitsExample | src/components/VerificationForm.tsx:44-51 | `098765432`, `8765432` and `08765432` all give `098765432` |
| Form.PhoneField | src/components/VerificationForm.tsx:44-52 | the shown value cleans to the kept digits; it is grouped exactly when 9 digits were kept, and shown as-is with fewer; it is a valid phone iff 9 digits were kept |
| Form.IdFieldStable | src/components/VerificationForm.tsx:36-37 | re-sanitising the shown ID changes nothing |
| Form.KeepDigitsOfFormatted | src/components/VerificationForm.tsx:52 | the digits of a formatted 9-digit number are that number |
| Form.PhoneFieldStable | src/components/VerificationForm.tsx:40-53 | re-sanitising the shown phone keeps the same digits and shows the same text |
| Form.VerificationForm.constructor | src/components/VerificationForm.tsx:24-29 | the form starts on the ID method with empty inputs, no retrieved number, the code screen hidden and no alert |
| Form.VerificationForm.SendEnabled | src/components/VerificationForm.tsx:227-228 | the send button is enabled iff the input of the chosen method passes its check |
| Form.VerificationForm.HandleIdChange | src/components/VerificationForm.tsx:32-38 | `idNumber` becomes the sanitised digits and the alert is cleared; no other field changes |
| Form.VerificationForm.HandlePhoneChange | src/components/VerificationForm.tsx:40-53 | `phoneNumber` becomes the shown phone field and the alert is cleared; no other field changes |
| Form.VerificationForm.SelectMethod | src/components/VerificationForm.tsx:142-145 | the method is set and the alert is cleared; both inputs are kept |
| Form.VerificationForm.HandleSendCode | src/components/VerificationForm.tsx:64-112 | an invalid input only yields its validation toast and changes nothing; a lookup miss sets the alert and keeps the form shown and `retrievedPhone` unchanged; otherwise `retrievedPhone` becomes the number, the alert is cleared, the "code sent" toast names the masked number, and a freshly mounted code screen receives it |
| Form.VerificationForm.Back | src/components/VerificationForm.tsx:127 | hides the code screen; `retrievedPhone` and every other field are kept |
| Form.VerificationForm.HandleVerificationComplete | src/components/VerificationForm.tsx:114-120 | only yields the completion toast; no field changes |
| Scenarios.SendUnlinkedId | src/components/VerificationForm.tsx:76-81 | sending with the unlinked ID sets the "no phone" alert, keeps the form shown and leaves `retrievedPhone` as it was |
| Scenarios.UnlinkedIdStaysOnForm | src/components/VerificationForm.tsx:64-81 | typing the unlinked ID and sending starts no code screen and sets the alert |
| Scenarios.LinkedIdSendsCode | src/components/VerificationForm.tsx:83-91 | typing any other complete ID and sending shows the code screen for `098 *** 432`, with 120 seconds on the clock |
| Scenarios.PhoneSendsCode | src/components/VerificationForm.tsx:102-110 | typing nine phone digits and sending shows the code screen for the masked field |
| Scenarios.CountdownRunsOut | src/components/CodeVerification.tsx:27-40 | the returned clock after 121 firings from mounting is `(0, resend offered)`, rendered `0:00`; resending then restores the full countdown |
| Scenarios.SubmitCodes | src/components/CodeVerification.tsx:42-60 | `123456` completes; another 6-digit code is refused with the mismatch error |
| Scenarios.BackKeepsRetrievedPhone | src/components/VerificationForm.tsx:127 | going back after a send hides the code screen but keeps `retrievedPhone` and the typed ID |

## Left out

- Rendering is not modelled: JSX, CSS classes, icons, and the text and layout of toasts and alerts. Notifications are the values `Toast`, `FormError` and `CodeError`.
- The `setInterval`/`clearInterval` scheduling and the effect cleanup (`CodeVerification.tsx:28-39`) are not modelled. There is no timing, no interleaving of firings, and no React re-render scheduling. `Tick` is one run of the effect, taken as one discrete step.
- The resend notification (`CodeVerification.tsx:66-69`) is not modelled: it is presentation only.
- `onVerificationComplete` is modelled as the `completed` result of `HandleVerify`, plus the toast of `HandleVerificationComplete`. The parent only raises that toast.
- The read-only "associated phone" field on the form (`VerificationForm.tsx:174-190`) is rendering. Its content is `LookupPhone`.
- `\s` is modelled as the written-out list of ECMAScript white-space and line-terminator code points. `\d` is ASCII `0`-`9`.
- Strings are sequences of Unicode scalar values, while JavaScript strings are UTF-16 code units. A character outside the Basic Multilingual Plane counts once here and twice in the source. The sanitisers and the code and ID checks measure and cut strings only after non-digits are removed, so they are unaffected.
- Validation.FormatPhone: tests the length of the cleaned input after only `[\s-]` is removed (`validation.ts:29-31`). For input holding characters outside the Basic Multilingual Plane, the source's length is larger than the model's, so the model differs. For example, on `12345678` followed by an emoji the source returns the input while the model groups it. `CleanFormat`, `FormatIdempotent` and `FormatPreservesValidity` are proved for the model's function. The form only formats digit strings (`VerificationForm.tsx:52`), where both agree.
- Text.IntToString: integers are unbounded. JavaScript numbers are doubles, and `${n}` switches to exponent notation from `1e21`. Under the screen invariant `FormatTime` only sees `0..120`.
- `LoginForm.tsx`, `TopBar.tsx` and `Index.tsx` are not part of this model. They contain layout and one hard-coded login check outside the verification flow.
- Form.VerificationForm.HandleSendCode: requires that the code screen is not shown. The send button exists only while the form is rendered (`VerificationForm.tsx:122-130`).
- CodeScreen.CodeVerification.HandleResend: requires `ResendEnabled()`. The handler has no guard; only the button's `disabled={!canResend}` keeps it from running earlier.
- CodeScreen.CodeVerification.ResendEnabled: states only that an enabled button means the clock is at `(0, resend offered)`. Its body is `canResend`, which is the whole of the source's condition.
- CodeScreen.FormatTimeRoundTrip: proved only for `s >= 0`, as are the contracts of `FormatTime` and `FormatTimeMinutes`. A negative time never occurs under the screen invariant. `FormatTime` itself follows JavaScript for negative values.
- Text.Split: its own contract states only that there is at least one part. What the parts are is stated by `SplitParts` and `SplitJoin`, to keep the function's contract cheap to use.
- Form.VerificationForm.Back: also sets `screen` to null, so that the next send mounts a new code screen. React discards the hidden component's state in the same way.
