# Haversine form: a verified model of its input validation

The Haversine calculator is a React component, `HaversineForm`. It takes
two points as `"latitude,longitude"` text and shows either the distance
between them or an error message. This project models the component's
logic in Dafny and proves what that logic accepts, the order in which it
reports failures, and how each handler changes the form's state.

There are three modules, one per file.

- `JsBuiltins` (`js_builtins.dfy`) models the JavaScript built-ins the form
  calls:
  - `indexOf` for one character, and `substring` with its clamping and
    swapping of arguments;
  - whitespace trimming over ECMAScript's whitespace and line-terminator
    characters;
  - `parseFloat`, which skips leading whitespace and reads the longest
    decimal prefix;
  - `Number` applied to a string, which is what `Math.abs(string)` does
    first; it needs the whole trimmed string to be a literal, and a blank
    string is 0;
  - `Math.abs`, and the `>` comparison, which is false for NaN.

  Numbers are exact reals or NaN.
- `Validation` (`validation.dfy`) holds the validation pipeline as pure
  functions:
  - the comma count (`CommaCheck`);
  - the split at the first comma (`Separate`);
  - the per-segment number and range checks (`SegmentCheck`,
    `SegmentsCheck`);
  - the single-input pipeline (`Validate`) and `parseUserInput`
    (`ParseUserInput`);
  - the decision for two points (`FirstFailure`, `Evaluate`).

  Its lemmas state the properties of the pipeline.
- `Form` (`haversine_form.dfy`) holds the class `HaversineForm`. Its fields
  are the component's four pieces of state: `pointA`, `pointB`, `result`
  and `errorMessage`. Its methods are the component's functions with their
  loops and early returns. Each method assigns `errorMessage` where the
  source calls `setErrorMessage`. Each is proved against the matching
  `Validation` function, so the lemmas about those functions describe the
  methods as well.

The distance is modelled as a parameter `distanceKm` of the form, a function
from the two parsed points to text. `haversine` appends `"km"` to it.

Two facts about the model's number grammar and its results:

- The grammar is `[sign] digits ['.' [digits]]` or `[sign] '.' digits`.
- `checkValidParseInputCalcDist` returns either `false` or a string. The
  model returns `Option<string>`, with `None` standing for `false`.

The component's code differs from a cleaner design in three ways. The model
follows the code:

- There is no separate check for empty input. `""` fails the comma check,
  and `","` fails as not a number.
- One "must be a number" message covers both halves.
- The range checks apply `Math.abs` to the raw half, not to the parsed
  number. So `"95abc,10"` is accepted and parses to latitude 95.

The message texts are the code's own, misspellings included.

## Model

| member | source | states |
|---|---|---|
| JsBuiltins.IndexOf | src/HaversineForm/HaversineForm.js:38 | The result is -1 exactly when the character is absent. Otherwise it is a position holding the character, and no earlier position holds it. |
| JsBuiltins.Substring | src/HaversineForm/HaversineForm.js:39-40 | With in-range, ordered arguments the result is that slice. With a start at or below 0 and an end at or beyond the length, it is the whole string. |
| JsBuiltins.TrimStartSplits | src/HaversineForm/HaversineForm.js:47 | The whitespace skip before parseFloat keeps a suffix of the input. What it drops is all whitespace, and what it keeps does not start with whitespace. |
| JsBuiltins.TrimEndSplits | src/HaversineForm/HaversineForm.js:51 | The trailing trim applied by Number keeps a prefix of the input. What it drops is all whitespace, and what it keeps does not end with whitespace. |
| JsBuiltins.LongestLiteralIsLongest | src/HaversineForm/HaversineForm.js:47 | The prefix parseFloat reads is a decimal literal, and no longer prefix is one. |
| JsBuiltins.ParseFloatReadsLiteral | src/HaversineForm/HaversineForm.js:47 | Whitespace, then a literal, then a character that cannot extend the literal: parseFloat gives the literal's value and ignores the rest. |
| JsBuiltins.ConversionsOfLiteral | src/HaversineForm/HaversineForm.js:47-51 | parseFloat and Number both give a bare literal's exact value. |
| JsBuiltins.NumberAgreesWithParseFloat | src/HaversineForm/HaversineForm.js:47-51 | Whenever Number gives a value for a non-blank string, parseFloat gives the same value. |
| Validation.MessagesIdentifyErrors | src/HaversineForm/HaversineForm.js:10-16 | Every message is non-empty, and distinct failures have distinct messages. |
| Validation.CommaCheckCounts | src/HaversineForm/HaversineForm.js:25-34 | The comma check passes exactly when there is one comma. No comma, the empty input included, gives message 0. Two or more commas give message 1. |
| Validation.SeparateSplitsAtFirstComma | src/HaversineForm/HaversineForm.js:37-42 | With a comma, latStr + "," + lonStr is the input and latStr holds no comma. With exactly one comma, neither half holds one. With no comma, latStr is "" and lonStr is the input. |
| Validation.SplitIsUnique | src/HaversineForm/HaversineForm.js:37-42 | Two comma-free texts joined by a comma have one comma and split back into themselves. |
| Validation.HalvesCheckOrder | src/HaversineForm/HaversineForm.js:46-59 | The first failure in this order wins: latitude not a number (2), latitude over 90 (3), longitude not a number (2), longitude over 180 (4). |
| Validation.HalvesCheckAccepts | src/HaversineForm/HaversineForm.js:44-61 | The number checks pass exactly when each half parses and Math.abs of the raw half does not exceed its bound. |
| Validation.ParseFloatOfBlank | src/HaversineForm/HaversineForm.js:47 | parseFloat of a blank half is NaN, so a blank half fails as not a number. |
| Validation.CommaErrorsFirst | src/HaversineForm/HaversineForm.js:63-72 | A failed comma check is the result, and the number checks are not consulted. A number or range failure implies exactly one comma. |
| Validation.ValidateAccepted | src/HaversineForm/HaversineForm.js:63-72 | An accepted input is two comma-free halves joined by one comma, and each half passes its number and range check. |
| Validation.ValidateAccepts | src/HaversineForm/HaversineForm.js:63-72 | Conversely, any two such halves joined by a comma are accepted. |
| Validation.NoEmptyInputCheck | src/HaversineForm/HaversineForm.js:18-61 | "" fails with message 0 and "," fails with message 2; there is no separate empty-input check. |
| Validation.AcceptedParsesToNumbers | src/HaversineForm/HaversineForm.js:74-80 | Both parsed halves of an accepted input are numbers. When Number reads a half cleanly, the parsed value lies within -90..90, respectively -180..180. |
| Validation.LiteralsRoundTrip | src/HaversineForm/HaversineForm.js:44-80 | Two literals joined by a comma are accepted exactly when abs(lat) <= 90 and abs(lon) <= 180, so the bounds are inclusive. Otherwise the latitude's failure comes first. Parsing returns the two values. |
| Validation.RawRangeCheckAcceptsTrailingText | src/HaversineForm/HaversineForm.js:47-55 | "95abc,10" is accepted, because Math.abs("95abc") is NaN and NaN > 90 is false. It parses to (95, 10). |
| Validation.EvaluateOrder | src/HaversineForm/HaversineForm.js:107-115 | Point A's failure comes first, then point B's. Only when both pass is there a distance: distanceKm of the two parsed inputs, followed by "km". |
| Validation.RejectedAIgnoresB | src/HaversineForm/HaversineForm.js:107-113 | When point A fails, the outcome does not depend on point B. |
| Form.HaversineForm.constructor | src/HaversineForm/HaversineForm.js:5-8 | Both inputs start as "", the result as null and the message as "". |
| Form.HaversineForm.SetPointA | src/HaversineForm/HaversineForm.js:140 | Typing into Point A sets pointA and nothing else. |
| Form.HaversineForm.SetPointB | src/HaversineForm/HaversineForm.js:148 | Typing into Point B sets pointB and nothing else. |
| Form.HaversineForm.IsValidCommas | src/HaversineForm/HaversineForm.js:18-35 | The loop's commaCount is the number of commas. The result is true exactly when the comma check passes. errorMessage gets message 0 or 1 on failure and is untouched on success. |
| Form.HaversineForm.AreNumsValid | src/HaversineForm/HaversineForm.js:44-61 | The loop stops at the first failing check of the two halves and sets only that message. It returns true exactly when the number checks pass, and then errorMessage is untouched. |
| Form.HaversineForm.ValidateUserInput | src/HaversineForm/HaversineForm.js:63-72 | Returns true exactly when validation passes. errorMessage holds the message of the first failing check, or is untouched. |
| Form.HaversineForm.CheckValidParseInputCalcDist | src/HaversineForm/HaversineForm.js:107-115 | Returns the distance the points' verdict gives, or false (None) with the first failure's message set. On success errorMessage is unchanged. |
| Form.HaversineForm.HandleSubmit | src/HaversineForm/HaversineForm.js:117-124 | errorMessage ends as "" or as the first failure's message, and it is "" exactly when both points were accepted. result is replaced by the distance on acceptance and keeps its old value on a rejection. A shown result always ends in "km". |
| Form.HaversineForm.Reset | src/HaversineForm/HaversineForm.js:125-130 | Both inputs become "", the result null and the message "". |

## Left out

- The body of `haversine` and `toRadians` (src/HaversineForm/HaversineForm.js:82-105): floating-point trigonometry and `toFixed(3)`. The distance text is the parameter `distanceKm`. Only the appended `"km"` (line 104) is modelled.
- IEEE 754 doubles: numbers are exact reals, so rounding of long literals is not modelled.
- Parts of ECMAScript's number syntax: exponents, `Infinity`, and the hexadecimal, octal and binary forms that `Number` accepts. A half such as `"1e2"` is therefore read differently from JavaScript.
- `for...of` iterates code points, while a Dafny string here is a sequence of characters. Comma counting does not depend on the difference.
- React itself: `useState` batching, `e.preventDefault()` (line 119), rendering and JSX (lines 131-160), and the CSS import. The state setters are modelled as assignments in program order. That order gives the state React ends up in after the handler.
- The commented reference distances (lines 165-170): they are floating-point reference values, not properties of the logic.
- src/App.js is not part of this model: it only renders the component.
