# dragnDropTS field validator — Dafny model

This project models the data logic of `src/app.ts` in the dragnDropTS
project-manager front end:

- the `Validatable` record and the `Validate` function, which check one form
  value (a string or a number) against optional constraints — `required`,
  `minLength`, `maxLength`, `min`, `max` — and return the conjunction of the
  constraints that apply;
- the accept/reject rule inside `ProjectInput.gatherUserInput`, which accepts
  the three raw form strings (title, description, people) only when each is
  non-empty after trimming, and then returns them as entered.

The JavaScript semantics these two rely on are written out in `JsText`:
the white space that `String.prototype.trim` removes (ECMA-262, 2024
edition, sections 12.2 and 12.3), trimming itself (ECMA-262, 2024 edition,
section 22.1.3.32), the `length`
of a string counted in UTF-16 code units, and the decimal text of an
integer, which is what `toString` gives an integral Number of magnitude up
to 2^53.

Modules:

- `Wrappers` (`wrappers.dfy`): `Option`, used for absent constraints and for
  the rejected form.
- `JsText` (`js_text.dfy`): white space, trimming, UTF-16 length, integer
  text and its inverse.
- `Validation` (`validation.dfy`): `Value`, `Validatable`, `Validate` and the
  properties of the validator.
- `ProjectInput` (`project_input.dfy`): `GatherUserInput` and its link to the
  validator.

Notes on the model:

- Each constraint step in `Validate` is switched on exactly as in the source:
  `required` by truthiness, the others by `!= null`, so a bound of `0` is still
  enforced. The length bounds only look at strings, and the numeric bounds only
  look at numbers. All four bounds are strict.
- `required` applied to a number always passes: the decimal text of a number is
  never blank (`JsText.NumberTextIsSolid`).
- The form only checks that the three fields are not blank; its
  `titleValidatable` record is built but never used.
  `ProjectInput.GatherAgreesWithRequiredRule` shows this is exactly "each
  field passes `Validate` as a required string".

## Model

| member | source | states |
|---|---|---|
| `Validation.Validate` | src/app.ts:11-29 | accepts exactly when every constraint that applies holds: a truthy `required` demands a non-blank string (numbers always pass); `minLength`/`maxLength` bound the UTF-16 length of a string strictly from below/above; `min`/`max` bound a number strictly; constraints that do not apply to the value's type impose nothing |
| `Validation.Stringify` | src/app.ts:14 | `toString` leaves a string unchanged, and turns a number into integer text that reads back as the number and is never blank |
| `Validation.UnconstrainedAcceptsAll` | src/app.ts:12-28 | with `required` falsy and no other constraint present, every value is accepted |
| `Validation.AddingConstraintsNeverAccepts` | src/app.ts:12-28 | switching on more constraints (same value) never turns a rejection into an acceptance |
| `Validation.RequiredRejectsBlank` | src/app.ts:13-15 | `required` alone accepts exactly the present values; an empty or all-white-space string is rejected |
| `Validation.RequiredIgnoresNumbers` | src/app.ts:13-15 | `required` never changes the verdict on a number |
| `Validation.MinLengthIsStrict` | src/app.ts:16-18 | `minLength` alone accepts a string iff its length is strictly greater than the bound; `minLength` 0 rejects `""` |
| `Validation.MaxLengthIsStrict` | src/app.ts:19-21 | `maxLength` alone accepts a string iff its length is strictly less than the bound |
| `Validation.NumericBoundsAreStrict` | src/app.ts:22-27 | `min` and `max` together accept a number iff it lies strictly between them |
| `Validation.LengthBoundsIgnoreNumbers` | src/app.ts:16-21 | for a numeric value, any `minLength`/`maxLength` leaves the verdict unchanged |
| `Validation.NumericBoundsIgnoreText` | src/app.ts:22-27 | for a string value, any `min`/`max` leaves the verdict unchanged |
| `Validation.RequiredExamples` | src/app.ts:13-15 | `""` and `"   "` fail `required`, and `"a"` passes |
| `Validation.MinLengthExamples` | src/app.ts:16-18 | `"abcde"` fails `minLength` 5, and `"abcdef"` passes |
| `Validation.NumericExamples` | src/app.ts:22-27 | 2 fails `min` 0 with `max` 2, and 1 passes |
| `Validation.AstralLengthExamples` | src/app.ts:16-21 | a single character above U+FFFF is two code units long: it passes `minLength` 1 and fails `maxLength` 2 |
| `JsText.TrimStart` | src/app.ts:14 | the result is the suffix of the input left after removing leading white space; it is empty or starts with non-white-space |
| `JsText.TrimEnd` | src/app.ts:14 | the result is the prefix of the input left after removing trailing white space; it is empty or ends with non-white-space |
| `JsText.Trim` | src/app.ts:14 | the result is a contiguous slice of the input with only white space outside it, and it neither starts nor ends with white space |
| `JsText.TrimEmptyIffBlank` | src/app.ts:14 | the trim is empty exactly when the string has no non-white-space character |
| `JsText.TrimPreservesContent` | src/app.ts:86-88 | trimming never changes whether a string has content |
| `JsText.TrimIdempotent` | src/app.ts:14 | trimming a trimmed string changes nothing |
| `JsText.TrimFixesSolidEnds` | src/app.ts:14 | a non-empty string whose ends are not white space is its own trim |
| `JsText.Utf16Length` | src/app.ts:17 | `length` counts UTF-16 code units: the total lies between the character count and twice it, and is zero only for the empty string |
| `JsText.Utf16LengthOfChar` | src/app.ts:17 | one character counts two code units above U+FFFF and one otherwise |
| `JsText.Utf16LengthAppend` | src/app.ts:17 | the code units of a concatenation are the sum of those of its parts, so the count is fixed character by character |
| `JsText.Utf16LengthOfBmp` | src/app.ts:17 | on text inside the Basic Multilingual Plane, `length` equals the number of characters |
| `JsText.Digits` | src/app.ts:14 | the decimal text of a natural number is a non-empty digit run without leading zeros |
| `JsText.DigitsRoundTrip` | src/app.ts:14 | reading the decimal text of `n` back gives `n` |
| `JsText.NumberToString` | src/app.ts:14 | the text of an integer is non-empty, free of white space, and starts with `-` exactly for negatives |
| `JsText.PositiveText` | src/app.ts:14 | a digit run is integer text that reads back as its decimal value |
| `JsText.NegativeText` | src/app.ts:14 | a minus sign before a digit run is integer text that reads back as the negated value |
| `JsText.NumberToStringRoundTrip` | src/app.ts:14 | the text of an integer is integer text that reads back as the integer |
| `JsText.NumberTextIsSolid` | src/app.ts:14 | the text of a number is its own trim and has content, so `required` cannot reject a number |
| `ProjectInput.GatherUserInput` | src/app.ts:75-94 | accepts exactly when title, description and people each have a non-white-space character, and then returns the three strings unchanged (untrimmed) |
| `ProjectInput.GatherAgreesWithRequiredRule` | src/app.ts:85-93 | the form accepts exactly when each field passes `Validate` as a required string |
| `ProjectInput.GatherIgnoresSurroundingWhitespace` | src/app.ts:85-89 | trimming the fields first never changes the verdict |
| `ProjectInput.GatherExamples` | src/app.ts:85-93 | `"Build an app"`, `"desc"`, `"1"` is accepted as entered (padding kept); an empty or all-blank field rejects the form |

## Left out

- Number values: modelled as integers. Fractional numbers, `NaN` and the
  infinities are not modelled. Comparisons between finite doubles are exact, so
  integral values and bounds behave as in the source.
- `JsText.NumberToString`: the model writes the exact decimal digits of the
  integer. In JavaScript, integral Numbers above 2^53 print the shortest
  round-tripping digits padded with zeros (2^64 prints `18446744073709552000`),
  and from 10^21 on in exponent form. Both texts are non-empty and free of
  white space, so `Validate` gives the same verdict.
- Strings are modelled as sequences of Unicode code points (Dafny `char`
  values). A JavaScript string is a sequence of UTF-16 code units and may hold
  unpaired surrogates (`"\uD800".length` is 1); such strings are not
  representable, so `Validate` and `GatherUserInput` are not modelled on them.
- `Validation.Truthy`: `required` is typed `Boolean`. A boxed
  `new Boolean(false)` object is truthy in JavaScript, but the model treats only
  `true` as truthy.
- The `+enteredPeople` conversion (src/app.ts:93) is JavaScript ToNumber over
  IEEE-754 doubles. The people field is carried as the raw string instead.
- The `alert` (src/app.ts:90) and `console.log` (src/app.ts:107) side effects
  are left out. Only the accept/reject outcome is modelled.
- The `AutoBind` decorator (src/app.ts:31-41) only rebinds `this` on a
  property descriptor. It has no data behaviour.
- The DOM construction and wiring of `ProjectInput` are left out because they
  are browser I/O: template import, `querySelector`, the submit listener,
  `insertAdjacentElement` and `clearInputs` (src/app.ts:43-74, 96-119).
- The unused `titleValidatable` record (src/app.ts:80-83) is dead code.
