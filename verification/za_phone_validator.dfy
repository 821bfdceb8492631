/** The `zaphone` validation rule: a value passes when it parses, and, when
    the rule names a format, only when it is written exactly in that format. */
module ZAPhoneValidator {
  import opened Results
  import opened Text
  import opened ZAPhone
  import opened ZAPhoneProperties

  /** The formats a `zaphone:<format>` rule can demand. */
  datatype Format = National | E164 | Intl | RFC3966

  /** The case-sensitive name each format goes by in a rule. */
  function FormatName(f: Format): string {
    match f
    case National => "national"
    case E164 => "E164"
    case Intl => "intl"
    case RFC3966 => "RFC3966"
  }

  /** The `switch` on the format name; `None` is its `default` branch. */
  function FormatNamed(name: string): (r: Option<Format>)
    ensures r.Some? ==> FormatName(r.value) == name
    ensures r.None? ==> forall f :: FormatName(f) != name
  {
    match name
    case "E164" => Some(E164)
    case "intl" => Some(Intl)
    case "national" => Some(National)
    case "RFC3966" => Some(RFC3966)
    case _ => None
  }

  /** The formatter `'format' . ucfirst($format)` names, called without
      arguments (so the national format uses its default flags). Every
      rendering of a valid phone parses back to that phone. */
  function Render(p: Phone, f: Format): (r: string)
    ensures Valid(p) ==> Check(r) == Some(p)
  {
    RenderingsRoundTrip(p);
    match f
    case National => FormatNational(p, false, false)
    case E164 => FormatE164(p)
    case Intl => FormatIntl(p)
    case RFC3966 => FormatRFC3966(p)
  }

  /** The exception `validate` throws for a format name it does not know. */
  datatype ValidationError = UnknownFormat(name: string)

  /** `validate($attribute, $value, $parameters, $validator)`; the attribute
      and the validator are unused by the source and are left out. */
  function Validate(value: string, parameters: seq<string>): (r: Result<bool, ValidationError>)
    ensures Check(value).None? ==> r == Success(false)
    ensures r.Failure? <==>
              && Check(value).Some?
              && |parameters| > 0 && !Falsy(parameters[0])
              && FormatNamed(parameters[0]).None?
    ensures r.Failure? ==> r.error == UnknownFormat(parameters[0])
    ensures r == Success(true) ==> Check(value).Some?
  {
    match Check(value)
    case None => Success(false)
    case Some(phone) =>
      if |parameters| > 0 && !Falsy(parameters[0]) then
        match FormatNamed(parameters[0])
        case Some(f) => Success(value == Render(phone, f))
        case None => Failure(UnknownFormat(parameters[0]))
      else
        Success(true)
  }

  /** Every format name is recognised and denotes its own format. */
  lemma FormatNamesRecognised(f: Format)
    ensures FormatNamed(FormatName(f)) == Some(f)
  {
  }

  /** Helper for `Render`: the four formatters, called without arguments,
      parse back to a valid phone. */
  lemma RenderingsRoundTrip(p: Phone)
    ensures Valid(p) ==>
              && Check(FormatNational(p, false, false)) == Some(p)
              && Check(FormatE164(p)) == Some(p)
              && Check(FormatIntl(p)) == Some(p)
              && Check(FormatRFC3966(p)) == Some(p)
  {
    if Valid(p) {
      NationalRoundTrip(p, false, false);
      E164RoundTrip(p);
      IntlRoundTrip(p);
      RFC3966RoundTrip(p);
    }
  }

  /** Without a (truthy) first parameter the rule passes exactly the values
      `check` accepts. */
  lemma LenientValidation(value: string, parameters: seq<string>)
    requires |parameters| == 0 || Falsy(parameters[0])
    ensures Validate(value, parameters) == Success(Check(value).Some?)
  {
  }

  /** With a format name as first parameter the rule passes exactly the
      strings that are that format's rendering of some phone, and never
      throws. */
  lemma StrictValidation(value: string, f: Format, parameters: seq<string>)
    requires |parameters| > 0 && parameters[0] == FormatName(f)
    ensures Validate(value, parameters).Success?
    ensures Validate(value, parameters) == Success(true) <==>
              exists p :: Valid(p) && value == Render(p, f)
  {
    FormatNamesRecognised(f);
    if p :| Valid(p) && value == Render(p, f) {
      assert Check(Render(p, f)) == Some(p);
    }
  }

  /** Under `zaphone:national` a value that parses passes exactly when it
      is the default national rendering of the phone it parses to. */
  lemma NationalVerdict(value: string, p: Phone)
    requires Check(value) == Some(p)
    ensures Validate(value, ["national"]) == Success(value == ToString(p))
  {
    assert FormatNamed("national") == Some(National);
  }

  /** The hyphenated national form parses but is not the default form. */
  lemma HyphenatedNationalFails(p: Phone)
    requires Valid(p)
    ensures Validate(FormatNational(p, false, true), ["national"]) == Success(false)
  {
    NationalShape(p, false, false);
    NationalShape(p, false, true);
    NationalRoundTrip(p, false, true);
    assert FormatNational(p, false, true)[3] == '-';
    assert ToString(p)[3] == ' ';
    NationalVerdict(FormatNational(p, false, true), p);
  }

  /** The parenthesised landline form parses but is not the default form. */
  lemma ParenthesisedNationalFails(p: Phone)
    requires Valid(p) && LandlineCode(p.prefix)
    ensures Validate(FormatNational(p, true, false), ["national"]) == Success(false)
  {
    NationalShape(p, true, false);
    NationalRoundTrip(p, true, false);
    assert |FormatNational(p, true, false)| != |ToString(p)|;
    NationalVerdict(FormatNational(p, true, false), p);
  }

  /** The unpunctuated national digits parse but are not the default form. */
  lemma BareNationalFails(p: Phone)
    requires Valid(p)
    ensures Validate("0" + p.number, ["national"]) == Success(false)
  {
    var bare := "0" + p.number;
    assert AllDigits(bare) by {
      NumberIsDigits(p);
      AllDigitsJoin("0", p.number);
    }
    DigitsOfDigits(bare);
    CheckFromDigits(bare, p);
    assert |bare| == 10;
    NationalVerdict(bare, p);
  }

  /** The national check uses the default flags: for every phone the
      spaced national form passes, while the hyphenated form, the form with
      a parenthesised area code and the bare digits all parse but fail. */
  lemma NationalIsStrict(p: Phone)
    requires Valid(p)
    ensures Validate(ToString(p), ["national"]) == Success(true)
    ensures Validate(FormatNational(p, false, true), ["national"]) == Success(false)
    ensures LandlineCode(p.prefix) ==>
              Validate(FormatNational(p, true, false), ["national"]) == Success(false)
    ensures Validate("0" + p.number, ["national"]) == Success(false)
  {
    ToStringRoundTrip(p);
    NationalVerdict(ToString(p), p);
    HyphenatedNationalFails(p);
    if LandlineCode(p.prefix) {
      ParenthesisedNationalFails(p);
    }
    BareNationalFails(p);
  }

  /** `landline` is not a format name: the rule throws for every value that
      parses, and fails without throwing for every value that does not. */
  lemma LandlineIsNotAFormat(value: string)
    ensures Check(value).Some? ==> Validate(value, ["landline"]) == Failure(UnknownFormat("landline"))
    ensures Check(value).None? ==> Validate(value, ["landline"]) == Success(false)
  {
    assert FormatNamed("landline") == None;
  }
}
