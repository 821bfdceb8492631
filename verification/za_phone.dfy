/** The South African phone-number engine: sanitise a free-form string,
    match it against `(27|0)` + area/network code + 3 + 4 digits, and offer
    accessors, landline/mobile classification and the output formats on
    the parsed value. */
module ZAPhone {
  import opened Results
  import opened Text

  /** `LANDLINE_SUB_EXPR`, `1[0-8]|2[1-4-7-8]|3[1-69]|4[\d]|5[1346-8]`,
      on a two-character string, alternative by alternative. The class
      `[1-4-7-8]` is 1 to 4, a literal `-`, and 7 to 8. Every area code
      is two characters and starts with 1 to 5. */
  function LandlineCode(s: string): (r: bool)
    ensures r ==> |s| == 2 && '1' <= s[0] <= '5'
  {
    && |s| == 2
    && var a, b := s[0], s[1];
       || (a == '1' && '0' <= b <= '8')
       || (a == '2' && ('1' <= b <= '4' || b == '-' || '7' <= b <= '8'))
       || (a == '3' && ('1' <= b <= '6' || b == '9'))
       || (a == '4' && IsDigit(b))
       || (a == '5' && (b == '1' || '3' <= b <= '4' || '6' <= b <= '8'))
  }

  /** `MOBILE_SUB_EXPR`, `6[0-6]|7[1-46-9]|6[1-3]|8[1-4]`, on a
      two-character string; the `6[1-3]` branch adds nothing to `6[0-6]`.
      Every network code is two characters and starts with 6 to 8. */
  function MobileCode(s: string): (r: bool)
    ensures r ==> |s| == 2 && '6' <= s[0] <= '8'
  {
    && |s| == 2
    && var a, b := s[0], s[1];
       || (a == '6' && '0' <= b <= '6')
       || (a == '7' && ('1' <= b <= '4' || '6' <= b <= '9'))
       || (a == '6' && '1' <= b <= '3')
       || (a == '8' && '1' <= b <= '4')
  }

  /** The alternation `(LANDLINE|MOBILE)` of the parsing pattern. */
  predicate PrefixCode(s: string) {
    LandlineCode(s) || MobileCode(s)
  }

  /** The two types `is()` accepts. */
  datatype Kind = Landline | Mobile

  /** The `$exprType` table of `is()`: the sub-expression for each type. */
  predicate IsCode(kind: Kind, s: string) {
    match kind
    case Landline => LandlineCode(s)
    case Mobile => MobileCode(s)
  }

  /** The parts object built by the constructor from the capture groups:
      the nine digits after the country marker, the area/network code,
      and the three- and four-digit blocks. */
  datatype Phone = Phone(number: string, prefix: string, three: string, four: string)

  /** What every phone produced by `Check` satisfies. */
  predicate Valid(p: Phone) {
    && AllDigits(p.prefix) && PrefixCode(p.prefix)
    && |p.three| == 3 && AllDigits(p.three)
    && |p.four| == 4 && AllDigits(p.four)
    && p.number == p.prefix + p.three + p.four
  }

  /** Sanitising: `filter_var` with FILTER_SANITIZE_NUMBER_INT, then
      `str_replace(['+', '-'], '', ...)`, which replaces `+` first and `-`
      second. What is left is exactly the digits of the input. */
  function Sanitise(raw: string): (d: string)
    ensures d == DigitsOf(raw)
  {
    FilterThenStripIsDigitsOf(raw);
    ReplaceChar(ReplaceChar(FilterNumberInt(raw), '+', ""), '-', "")
  }

  /** The capture group `((LANDLINE|MOBILE)(\d{3})(\d{4}))` followed by `$`,
      matched against what follows the country marker. */
  function MatchNumber(rest: string): (r: Option<Phone>)
    ensures r.Some? <==> |rest| == 9 && PrefixCode(rest[..2]) && AllDigits(rest[2..])
    ensures r.Some? ==>
              && r.value.number == rest
              && r.value.prefix + r.value.three + r.value.four == rest
              && |r.value.prefix| == 2 && |r.value.three| == 3
    ensures r.Some? && AllDigits(rest) ==> Valid(r.value)
  {
    if |rest| == 9 && PrefixCode(rest[..2]) && AllDigits(rest[2..]) then
      assert rest == rest[..2] + rest[2..5] + rest[5..];
      Some(Phone(rest, rest[..2], rest[2..5], rest[5..]))
    else
      None
  }

  /** The anchored pattern `^(?:27|0)(...)$` on the sanitised digits. PCRE
      tries the `27` alternative first and backtracks to `0` when the rest
      does not match. */
  function Match(d: string): (r: Option<Phone>)
    ensures r.Some? ==> d == "0" + r.value.number || d == "27" + r.value.number
    ensures r.Some? && AllDigits(d) ==> Valid(r.value)
  {
    if |d| >= 2 && d[..2] == "27" && MatchNumber(d[2..]).Some? then
      AllDigitsSplit(d, 2);
      assert d == d[..2] + d[2..];
      MatchNumber(d[2..])
    else if |d| >= 1 && d[0] == '0' then
      AllDigitsSplit(d, 1);
      assert d == [d[0]] + d[1..];
      MatchNumber(d[1..])
    else
      None
  }

  /** `check`: `None` is the `false` the source returns for anything it
      cannot parse; otherwise the phone built from the capture groups. */
  function Check(raw: string): (r: Option<Phone>)
    ensures r.Some? ==> Valid(r.value)
    ensures r.Some? ==> DigitsOf(raw) == "0" + r.value.number || DigitsOf(raw) == "27" + r.value.number
  {
    Match(Sanitise(raw))
  }

  /** `__get`: the four named parts, and null for any other name. */
  function Get(p: Phone, part: string): (r: Option<string>)
    ensures r.Some? <==> part in {"number", "prefix", "three", "four"}
    ensures Valid(p) && r.Some? ==> AllDigits(r.value) && |r.value| in {2, 3, 4, 9}
  {
    match part
    case "number" => Some(p.number)
    case "prefix" => Some(p.prefix)
    case "three" => Some(p.three)
    case "four" => Some(p.four)
    case _ => None
  }

  /** An unanchored `preg_match` of a sub-expression whose alternatives are
      all two characters long: some two-character window of `s` matches. */
  predicate Search(kind: Kind, s: string) {
    exists j | 0 <= j <= |s| - 2 :: WindowIn(kind, s, j)
  }

  /** The two characters of `s` at `j` match the sub-expression. */
  predicate WindowIn(kind: Kind, s: string, j: nat)
    requires j + 2 <= |s|
  {
    IsCode(kind, s[j..j + 2])
  }

  /** On a two-character subject the unanchored search is a match of the
      whole subject. */
  lemma SearchTwoChars(kind: Kind, s: string)
    ensures |s| == 2 ==> (Search(kind, s) <==> IsCode(kind, s))
  {
    if |s| != 2 {
    } else if Search(kind, s) {
      assert s[0..2] == s;
      var j :| 0 <= j <= |s| - 2 && WindowIn(kind, s, j);
      assert j == 0;
    } else {
      assert s[0..2] == s;
      assert !WindowIn(kind, s, 0);
    }
  }

  /** `is($type)`: on a two-character prefix, such as every parsed
      phone's, the search is the code test of that type. */
  function Is(p: Phone, kind: Kind): (r: bool)
    ensures |p.prefix| == 2 ==> (r <==> IsCode(kind, p.prefix))
  {
    SearchTwoChars(kind, p.prefix);
    Search(kind, p.prefix)
  }

  /** `formatNational($landlineParenthises, $hyphens)`. */
  function FormatNational(p: Phone, landlineParentheses: bool, hyphens: bool): (r: string)
    ensures Valid(p) ==> |r| == if landlineParentheses && LandlineCode(p.prefix) then 14 else 12
  {
    SearchTwoChars(Landline, p.prefix);
    var prefix := "0" + p.prefix;
    var sep := if hyphens then "-" else " ";
    if landlineParentheses && Search(Landline, p.prefix) then
      "(" + prefix + ")" + " " + p.three + sep + p.four
    else
      prefix + sep + p.three + sep + p.four
  }

  /** `__toString`: the national format with both flags off. */
  function ToString(p: Phone): (r: string)
    ensures Valid(p) ==> r == "0" + p.prefix + " " + p.three + " " + p.four
  {
    FormatNational(p, false, false)
  }

  /** `formatIntl`. */
  function FormatIntl(p: Phone): (r: string)
    ensures Valid(p) ==> |r| == 15
  {
    "+27 " + p.prefix + " " + p.three + " " + p.four
  }

  /** `formatE164`: the international format with its spaces removed. */
  function FormatE164(p: Phone): (r: string)
    ensures Valid(p) ==> ' ' !in r
  {
    ReplaceChar(FormatIntl(p), ' ', "")
  }

  /** `formatRFC3966`: the international format with spaces turned into
      hyphens. */
  function FormatRFC3966(p: Phone): (r: string)
    ensures ' ' !in r
  {
    ReplaceChar(FormatIntl(p), ' ', "-")
  }

  /** The failures of `formatDialIn`. */
  datatype DialInError =
    | InvalidArgument                 // no (or a falsy) country was given
    | InvalidPath                     // the exit-code file could not be read
    | InvalidOption(country: string)  // the country is not in the table

  /** The country `formatDialIn` assumes when called without an argument. */
  const DefaultDialInCountry: string := "USA"

  /** `formatDialIn($fromCountry)`. `exitCodes` is the parsed exit-code file,
      `None` when it cannot be read. */
  function FormatDialIn(p: Phone, fromCountry: string, exitCodes: Option<map<string, string>>): (r: Result<string, DialInError>)
    ensures Falsy(fromCountry) ==> r == Failure(InvalidArgument)
    ensures r == Failure(InvalidPath) <==> !Falsy(fromCountry) && exitCodes.None?
    ensures r.Failure? && r.error.InvalidOption? <==>
              !Falsy(fromCountry) && exitCodes.Some? && fromCountry !in exitCodes.value
    ensures r.Failure? && r.error.InvalidOption? ==> r.error.country == fromCountry
    ensures r.Success? ==>
              && exitCodes.Some? && fromCountry in exitCodes.value
              && r.value == exitCodes.value[fromCountry] + " 27 " + p.number
  {
    if Falsy(fromCountry) then Failure(InvalidArgument)
    else
      match exitCodes
      case None => Failure(InvalidPath)
      case Some(table) =>
        if fromCountry in table then Success(table[fromCountry] + " 27 " + p.number)
        else Failure(InvalidOption(fromCountry))
  }

  /** `formatDialIn()` called without a country: it dials in from the
      default country, which is never falsy. */
  function FormatDialInDefault(p: Phone, exitCodes: Option<map<string, string>>): (r: Result<string, DialInError>)
    ensures r != Failure(InvalidArgument)
    ensures r == Failure(InvalidPath) <==> exitCodes.None?
    ensures r.Failure? && r.error.InvalidOption? <==>
              exitCodes.Some? && DefaultDialInCountry !in exitCodes.value
    ensures r.Success? ==>
              && exitCodes.Some? && DefaultDialInCountry in exitCodes.value
              && r.value == exitCodes.value[DefaultDialInCountry] + " 27 " + p.number
  {
    FormatDialIn(p, DefaultDialInCountry, exitCodes)
  }
}
