# za-phone in Dafny

A model of the South African phone-number engine of `za-phone`, with proofs of its properties.

- **`check`** sanitises a free-form string to its digits. It then matches the digits against `0` or `27`, a two-digit area or network code, three digits and four digits. It yields either "no match" or the phone's parts: `number`, `prefix`, `three` and `four`.
- **On a parsed phone** the model covers the part getter, the landline/mobile test `is`, the four formatters and the dial-in formatter.
- **On top of the engine** sit two pieces of pure logic:
  - the `zaphone` validation rule, which passes any parseable value or, when given a format name, only the exact rendering in that format;
  - the fluent rule builder that renders `zaphone` or `zaphone:<format>`.

Everything is immutable data and total functions. PHP's `false`, `null` and exceptions become `Option` and `Result` values.

Modules (one per file):

- `Results` — `Option` and `Result`.
- `Text` — character-level string operations:
  - PHP's `FILTER_SANITIZE_NUMBER_INT` filter (`FilterNumberInt`);
  - `str_replace` of one character (`ReplaceChar`);
  - the reference "digits of a string" (`DigitsOf`);
  - PHP's falsy strings (`""` and `"0"`).
- `ZAPhone` — `src/ZAPhone.php`:
  - the area and network code predicates and the parts record;
  - `check`, `__get`, `is` and the formatters.
- `ZAPhoneCodes` — the two sub-expressions written out as explicit lists of codes, and the proof that the predicates accept exactly these among two-digit strings.
- `ZAPhoneProperties` — what the engine promises:
  - which digit strings it accepts;
  - that every format parses back to the same phone;
  - how the international formats relate;
  - that landline and mobile codes are disjoint;
  - the dial-in error order.
- `ZAPhoneExamples` — the test suite's accepted and rejected inputs, stated as the general shapes they are instances of, plus its getter and dial-in checks.
- `ZAPhoneValidator` — `ZAPhoneValidator::validate`.
- `ZAPhoneRule` — `ZAPhoneRule`.

Points where the model follows the code closely:

- **Sanitising.** It is modelled in the source's two steps.
  - `filter_var(..., FILTER_SANITIZE_NUMBER_INT)` keeps digits, `+` and `-`.
  - `str_replace(['+', '-'], '', ...)` then removes `+` first and `-` second.
  - `Text.FilterThenStripIsDigitsOf` proves the pair leaves exactly the digits. So a leading `+` is not treated specially.
- **Codes.** `ZAPhone.LandlineCode` and `ZAPhone.MobileCode` follow `LANDLINE_SUB_EXPR` and `MOBILE_SUB_EXPR` alternative by alternative.
  - The class `[1-4-7-8]` is 1 to 4, a literal `-`, then 7 and 8. So the predicate accepts "2-", as the pattern does. `ZAPhone.MatchNumber`, like the pattern, accepts "2-" as a prefix. Only the sanitised input keeps it out: sanitising removes every `-` before matching, so the matched string is all digits. This is why `MatchNumber` promises a valid phone only when `AllDigits(rest)` holds.
  - The `6[1-3]` branch of the mobile expression adds nothing to `6[0-6]`, and is kept.
  - `ZAPhoneCodes` lists the 38 area codes and 19 network codes, and proves that on digit strings the predicates accept exactly those.
- **`is`.** It runs an unanchored `preg_match` on the prefix and is modelled as a search over two-character windows. `ZAPhone.SearchTwoChars` shows that on a two-character prefix this is the code predicate itself.
- **Falsy country.** `formatDialIn` tests `!$fromCountry`, so `"0"` is rejected as well as `""`. The same PHP truthiness governs the validator's `$format = $parameters[0]`, so an empty or `"0"` format name means no format.
- **Exit codes.** The source reads its exit-code table from a file on every call, not once. The table is a parameter of `FormatDialIn`, and `None` stands for an unreadable file (`InvalidPathException`). The falsy-argument test comes before the file is read, as in the source.
- **The `landline` test.** `tests/ZAPhoneTest.php:130-137` expects the rule `zaphone:landline` to pass every valid number. The validator's `switch` only knows `E164`, `intl`, `national` and `RFC3966`, so for `landline` the code throws. The model follows the code: see `ZAPhoneValidator.LandlineIsNotAFormat`.
- **Case.** Format names are matched case-sensitively.
- **`national`.** The validator calls `formatNational()` with its default flags. So under `zaphone:national` the parenthesised, hyphenated and unpunctuated renderings of a number parse but fail.

## Model

| member | source | states |
|---|---|---|
| Text.DigitsOf | src/ZAPhone.php:62 | the reference sanitiser: the result holds only digits and is no longer than the input |
| Text.DigitsOfDigits | src/ZAPhone.php:62 | a string of digits is its own digit string, so sanitising a sanitised number changes nothing |
| Text.DigitsOfMembers | src/ZAPhone.php:62 | a character survives sanitising exactly when it occurs in the input and is a digit |
| Text.DigitsOfConcat | src/ZAPhone.php:62 | sanitising distributes over concatenation |
| Text.FilterNumberInt | src/ZAPhone.php:62 | the integer filter keeps only digits, `+` and `-`, never lengthening the input |
| Text.ReplaceChar | src/ZAPhone.php:62 | after replacing every `c` by a text without `c`, no `c` is left |
| Text.ReplaceCharAbsent | src/ZAPhone.php:122 | replacing a character that does not occur leaves the string unchanged |
| Text.ReplaceCharConcat | src/ZAPhone.php:158 | replacing a character distributes over concatenation |
| Text.FilterThenStripIsDigitsOf | src/ZAPhone.php:62 | the filter followed by removing `+` and then `-` leaves exactly the digits of the input |
| ZAPhone.LandlineCode | src/ZAPhone.php:7 | a string matching the landline sub-expression is two characters starting with 1 to 5; `ZAPhoneCodes.LandlineCodesAgree` gives the full list |
| ZAPhone.MobileCode | src/ZAPhone.php:8 | a string matching the mobile sub-expression is two characters starting with 6 to 8; `ZAPhoneCodes.MobileCodesAgree` gives the full list |
| ZAPhone.Sanitise | src/ZAPhone.php:62 | the sanitised input is exactly the input's digits |
| ZAPhone.MatchNumber | src/ZAPhone.php:65-68 | the capture group matches exactly nine characters whose first two match a landline or mobile alternative and whose last seven are digits, and builds parts whose prefix, three and four join to the nine characters; on digits the parts are a valid phone |
| ZAPhone.Match | src/ZAPhone.php:63-69 | a match means the digits are `0` or `27` followed by the phone's number, and on a digit string the phone is valid |
| ZAPhone.Check | src/ZAPhone.php:59-75 | every phone `check` produces is valid, and the input's digits are `0` or `27` followed by its nine-digit number |
| ZAPhone.Get | src/ZAPhone.php:38-43 | exactly the four part names give a value and every other name gives null; on a valid phone each value is a digit string of length 2, 3, 4 or 9 |
| ZAPhone.Is | src/ZAPhone.php:82-90 | on a two-character prefix, such as every parsed phone's, `is($type)` holds exactly when the prefix matches that type's sub-expression |
| ZAPhone.SearchTwoChars | src/ZAPhone.php:89 | on a two-character prefix the unanchored code search is the anchored code test |
| ZAPhone.FormatNational | src/ZAPhone.php:139-150 | the national form has 12 characters, or 14 with parentheses around a landline code |
| ZAPhone.ToString | src/ZAPhone.php:49-52 | the string form is `0P T F` with single spaces |
| ZAPhone.FormatIntl | src/ZAPhone.php:129-132 | the international form has 15 characters |
| ZAPhone.FormatE164 | src/ZAPhone.php:120-123 | the E.164 form holds no space |
| ZAPhone.FormatRFC3966 | src/ZAPhone.php:156-159 | the RFC 3966 form holds no space |
| ZAPhone.FormatDialIn | src/ZAPhone.php:100-114 | a falsy country fails with an invalid argument whatever the table; an unreadable table fails with an invalid path exactly for a truthy country; an unknown country fails with an invalid option, carrying that country, exactly when the table is read and lacks it; success means exit code, " 27 " and the nine digits |
| ZAPhone.FormatDialInDefault | src/ZAPhone.php:100-114 | called without a country, `formatDialIn` dials in from `USA`: never an invalid argument, an invalid path exactly when the table is unreadable, an invalid option exactly when the table lacks `USA`, and otherwise `USA`'s exit code, " 27 " and the nine digits |
| ZAPhoneProperties.MatchAcceptsExactly | src/ZAPhone.php:63-69 | the anchored pattern accepts a digit string exactly when it is `0` plus nine digits or `27` plus nine digits, with an area or network code first |
| ZAPhoneProperties.CheckAcceptsExactly | src/ZAPhone.php:59-75 | `check` succeeds exactly when the input's digits are well formed, so they number 10 or 11 |
| ZAPhoneProperties.CheckDependsOnlyOnDigits | src/ZAPhone.php:62 | two inputs with the same digits parse to the same result |
| ZAPhoneProperties.MatchMarkedNumber | src/ZAPhone.php:63-69 | `0` or `27` followed by a valid phone's nine digits matches and reproduces that phone |
| ZAPhoneProperties.CheckFromDigits | src/ZAPhone.php:59-75 | any input whose digits are a country marker and a valid phone's number parses to that phone |
| ZAPhoneProperties.ProducedIffValid | src/ZAPhone.php:21-31 | the records `check` can produce are exactly the valid phones |
| ZAPhoneProperties.ValidDeterminedByNumber | src/ZAPhone.php:24-29 | a valid phone is determined by its nine digits |
| ZAPhoneCodes.LandlineCodesAgree | src/ZAPhone.php:7 | among digit strings, the landline sub-expression accepts exactly the 38 listed area codes |
| ZAPhoneCodes.MobileCodesAgree | src/ZAPhone.php:8 | among digit strings, the mobile sub-expression accepts exactly the 19 listed network codes |
| ZAPhoneCodes.ParsedPrefixListed | src/ZAPhone.php:63-69 | the code of every phone `check` produces is one of the 57 listed area and network codes |
| ZAPhoneProperties.CodesDisjoint | src/ZAPhone.php:7-8 | no code is both a landline and a mobile code |
| ZAPhoneProperties.ExactlyOneKind | src/ZAPhone.php:82-90 | `is` agrees with the anchored code test on the prefix for each kind, and a parsed phone is exactly one of landline and mobile |
| ZAPhoneProperties.DigitsOfNoDigits | src/ZAPhone.php:62 | a digit-free string sanitises to nothing |
| ZAPhoneProperties.DigitsOfBlocks | src/ZAPhone.php:62 | digit blocks joined by digit-free separators behind a lead sanitise to the lead's digits and the blocks |
| ZAPhoneProperties.NationalShape | src/ZAPhone.php:139-150 | the national form is `0P T F` with spaces or hyphens, or `(0P) T F` for a landline when parentheses are asked for, with a space after the parenthesis whatever the hyphen flag; for a mobile code the parentheses flag has no effect |
| ZAPhoneProperties.NationalDigits | src/ZAPhone.php:139-150 | every national form's digits are `0` and the nine digits |
| ZAPhoneProperties.NationalRoundTrip | src/ZAPhone.php:139-150 | every national form, with any flags, parses back to the same phone |
| ZAPhoneProperties.ToStringRoundTrip | src/ZAPhone.php:49-52 | the string form is the national form with default flags and parses back to the same phone |
| ZAPhoneProperties.IntlDigits | src/ZAPhone.php:129-132 | the international form is `+27 P T F` and its digits are `27` and the nine digits |
| ZAPhoneProperties.IntlRoundTrip | src/ZAPhone.php:129-132 | the international form parses back to the same phone |
| ZAPhoneProperties.ReplaceSpacesOfIntl | src/ZAPhone.php:122 | replacing the spaces of the international form by any text puts that text between `+27` and the three blocks |
| ZAPhoneProperties.E164Shape | src/ZAPhone.php:120-123 | the E.164 form is `+27` and the nine digits, 12 characters |
| ZAPhoneProperties.E164RoundTrip | src/ZAPhone.php:120-123 | the E.164 form parses back to the same phone |
| ZAPhoneProperties.RFC3966Shape | src/ZAPhone.php:156-159 | the RFC 3966 form is `+27-P-T-F` |
| ZAPhoneProperties.RFC3966RoundTrip | src/ZAPhone.php:156-159 | the RFC 3966 form parses back to the same phone |
| ZAPhoneProperties.DialInCarriesNumber | src/ZAPhone.php:100-114 | after the exit code, the dial-in string without its spaces and with a `+` in front is the E.164 form |
| ZAPhoneProperties.DialInArgumentCheckedFirst | src/ZAPhone.php:102-104 | an empty or `"0"` country fails with an invalid argument even when the exit-code file is unreadable |
| ZAPhoneExamples.WrongLengthRejected | tests/ZAPhoneTest.php:16-28 | inputs whose digits number neither 10 nor 11 are rejected |
| ZAPhoneExamples.PunctuationVariants | tests/ZAPhoneTest.php:34-45 | a valid phone's blocks behind any text whose digits are `0` or `27`, with any digit-free separators, parse back to that phone |
| ZAPhoneExamples.BlocksRejected | tests/ZAPhoneTest.php:16-28 | digit blocks with digit-free separators whose digits, with the lead's, number neither 10 nor 11 are rejected |
| ZAPhoneExamples.GettersReadTheDigits | src/ZAPhone.php:38-43 | on a parsed input, `number` is the last nine sanitised digits and `prefix`, `three` and `four` are their slices of two, three and four |
| ZAPhoneExamples.NumberIsLastNine | src/ZAPhone.php:63-74 | a parsed phone's number ends the sanitised input |
| ZAPhoneExamples.GetNamedParts | src/ZAPhone.php:38-43 | each part name reads its own part |
| ZAPhoneExamples.SampleIsParsed | tests/ZAPhoneTest.php:145 | `check('0115009000')` yields the phone with number 115009000, prefix 11, three 500 and four 9000 |
| ZAPhoneExamples.Getters | tests/ZAPhoneTest.php:143-155 | on `check('0115009000')` the getters give 115009000, 11, 500 and 9000, and null for `five` |
| ZAPhoneExamples.DialInSamples | tests/ZAPhoneTest.php:161-171 | for every listed country `check('0115009000')` dials in as exit code + " 27 115009000"; an empty country and an unlisted one fail with their own errors |
| ZAPhoneValidator.FormatNamed | src/Providers/Validators/ZAPhoneValidator.php:32-44 | a recognised name denotes a format with exactly that name; an unrecognised name is no format's name |
| ZAPhoneValidator.Validate | src/Providers/Validators/ZAPhoneValidator.php:21-49 | an unparseable value fails whatever the parameters; the call throws exactly when the value parses and a truthy first parameter names no format, and the error carries that name; a pass implies the value parses |
| ZAPhoneValidator.FormatNamesRecognised | src/Providers/Validators/ZAPhoneValidator.php:32-37 | every format's name is recognised as that format |
| ZAPhoneValidator.Render | src/Providers/Validators/ZAPhoneValidator.php:37-39 | every rendering the validator compares against parses back to the phone it renders |
| ZAPhoneValidator.LenientValidation | src/Providers/Validators/ZAPhoneValidator.php:31-47 | without a truthy first parameter the rule passes exactly the values `check` accepts |
| ZAPhoneValidator.StrictValidation | src/Providers/Validators/ZAPhoneValidator.php:31-39 | with a format name the rule never throws and passes exactly the strings that are that format's rendering of some valid phone |
| ZAPhoneValidator.NationalVerdict | src/Providers/Validators/ZAPhoneValidator.php:35-39 | under `national` a parsing value passes exactly when it equals the default national rendering of its phone |
| ZAPhoneValidator.HyphenatedNationalFails | src/Providers/Validators/ZAPhoneValidator.php:35-39 | the hyphenated national form parses but fails `national` |
| ZAPhoneValidator.ParenthesisedNationalFails | src/Providers/Validators/ZAPhoneValidator.php:35-39 | the parenthesised landline form parses but fails `national` |
| ZAPhoneValidator.BareNationalFails | src/Providers/Validators/ZAPhoneValidator.php:35-39 | the unpunctuated `0` + nine digits parses but fails `national` |
| ZAPhoneValidator.NationalIsStrict | src/Providers/Validators/ZAPhoneValidator.php:35-39 | under `national` the spaced form passes while the hyphenated, parenthesised and bare forms fail |
| ZAPhoneValidator.LandlineIsNotAFormat | src/Providers/Validators/ZAPhoneValidator.php:41-44 | `landline` throws for every value that parses and fails quietly for every value that does not |
| ZAPhoneRule.ToString | src/Providers/Rules/ZAPhoneRule.php:17-20 | the rule string starts with `zaphone` and is exactly `zaphone` when no format is set |
| ZAPhoneRule.ParseToString | src/Providers/Rules/ZAPhoneRule.php:17-20 | reading a rendered rule string back recovers the builder's state |
| ZAPhoneRule.ToStringInjective | src/Providers/Rules/ZAPhoneRule.php:17-20 | distinct builder states render differently |
| ZAPhoneRule.FreshRendersBare | src/Providers/Rules/ZAPhoneRule.php:11 | a new builder renders as `zaphone` |
| ZAPhoneRule.SetFormat | src/Providers/Rules/ZAPhoneRule.php:26-30 | after `format(f)` the rule renders as `zaphone:f` whatever was set before, and after `format(null)` as the bare name |
| ZAPhoneRule.SetDefaultFormat | src/Providers/Rules/ZAPhoneRule.php:26-30 | `format()` with no argument renders as `zaphone:national` |
| ZAPhoneRule.LastFormatWins | src/Providers/Rules/ZAPhoneRule.php:26-30 | of two `format` calls only the last one counts |

## Left out

- `readFileLines` and `data/exit-codes.ini`: file I/O and INI parsing. The parsed table is a parameter, and `None` stands for a file that cannot be read.
- The `ErrorException` catch in `formatDialIn`: whether an undefined index throws depends on the host framework's error handler. A missing key is modelled directly as the invalid-option failure.
- `formatDialIn` called with `null`: the model treats it like the empty string. Both are falsy.
- `is` with a type other than `landline` or `mobile`: the source hits an undefined index there. The type is a two-value enum.
- `new ZAPhone()` without arguments: this leaves `parts` null. Only the records `check` builds are modelled.
- PCRE and `filter_var`: the regular expressions become code predicates and an exact matcher. Strings are sequences of characters rather than bytes, which changes nothing, because only ASCII digits, `+` and `-` survive the filter.
- The unused `$attribute` and `$validator` arguments of `validate`: the code never reads them.
- Laravel's parsing of the rule string `zaphone:<format>` into `$parameters`: this is done by Laravel before `validate` is called. `Validate` takes the parameter list directly.
- `ZAPhoneRule.SetFormat`: does not model that `format()` returns the same builder object (`return $this`). Object identity has no counterpart in a value model, so the model returns the builder's new state.
- `ZAPhoneServiceProvider`, the facade and the test scaffolding: framework wiring with no behaviour of their own.
- The concrete test strings: the accepted and rejected test inputs are instances of `ZAPhoneExamples.PunctuationVariants` and `ZAPhoneExamples.BlocksRejected`. They are not restated one literal at a time.
