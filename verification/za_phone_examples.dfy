/** The behaviour the repository's test suite pins down, stated about the
    model: its accepted and rejected inputs as the general shapes they are
    instances of, the getters and dial-in on its sample number. */
module ZAPhoneExamples {
  import opened Results
  import opened Text
  import opened ZAPhone
  import opened ZAPhoneProperties

  /** Digit strings of any length other than 10 or 11 are rejected. */
  lemma WrongLengthRejected(raw: string)
    requires |DigitsOf(raw)| != 10 && |DigitsOf(raw)| != 11
    ensures Check(raw).None?
  {
    CheckAcceptsExactly(raw);
  }

  /** A valid phone's three blocks behind any country marker (any text
      whose digits are `0` or `27`) and between any digit-free separators
      parse back to that phone: spaces, hyphens, slashes, parentheses and
      a leading `+` are all immaterial. */
  lemma PunctuationVariants(p: Phone, lead: string, sep1: string, sep2: string)
    requires Valid(p)
    requires DigitsOf(lead) == "0" || DigitsOf(lead) == "27"
    requires DigitFree(sep1) && DigitFree(sep2)
    ensures Check(lead + p.prefix + sep1 + p.three + sep2 + p.four) == Some(p)
  {
    DigitsOfBlocks(lead, p.prefix, sep1, p.three, sep2, p.four);
    CheckFromDigits(lead + p.prefix + sep1 + p.three + sep2 + p.four, p);
  }

  /** Three digit blocks behind a lead, with digit-free separators, whose
      digits do not number 10 or 11 are rejected. */
  lemma BlocksRejected(lead: string, a: string, sep1: string, b: string, sep2: string, c: string)
    requires AllDigits(a) && AllDigits(b) && AllDigits(c)
    requires DigitFree(sep1) && DigitFree(sep2)
    requires var n := |DigitsOf(lead)| + |a| + |b| + |c|; n != 10 && n != 11
    ensures Check(lead + a + sep1 + b + sep2 + c).None?
  {
    DigitsOfBlocks(lead, a, sep1, b, sep2, c);
    WrongLengthRejected(lead + a + sep1 + b + sep2 + c);
  }

  /** The getters read the parsed input back: the nine digits after the
      country marker, split two, three and four. */
  lemma GettersReadTheDigits(raw: string)
    requires Check(raw).Some?
    ensures var d := DigitsOf(raw);
            var p := Check(raw).value;
            && |d| >= 9
            && Get(p, "number") == Some(d[|d| - 9..])
            && Get(p, "prefix") == Some(d[|d| - 9..|d| - 7])
            && Get(p, "three") == Some(d[|d| - 7..|d| - 4])
            && Get(p, "four") == Some(d[|d| - 4..])
  {
    var d := DigitsOf(raw);
    var p := Check(raw).value;
    NumberIsLastNine(raw);
    SlicesOfTail(d, p);
    GetNamedParts(p);
  }

  /** Each of the four names reads its own part. */
  lemma GetNamedParts(p: Phone)
    ensures Get(p, "number") == Some(p.number)
    ensures Get(p, "prefix") == Some(p.prefix)
    ensures Get(p, "three") == Some(p.three)
    ensures Get(p, "four") == Some(p.four)
  {
  }

  /** Slicing the last nine characters of `d` slices the phone's digits. */
  lemma SlicesOfTail(d: string, p: Phone)
    requires Valid(p) && |d| >= 9 && d[|d| - 9..] == p.number
    ensures d[|d| - 9..|d| - 7] == p.prefix
    ensures d[|d| - 7..|d| - 4] == p.three
    ensures d[|d| - 4..] == p.four
  {
    var n := |d|;
    var tail := d[n - 9..];
    assert d[n - 9..n - 7] == tail[..2];
    assert d[n - 7..n - 4] == tail[2..5];
    assert d[n - 4..] == tail[5..];
    PartsOfNumber(p);
  }

  /** The nine digits of a parsed phone end its sanitised input. */
  lemma NumberIsLastNine(raw: string)
    requires Check(raw).Some?
    ensures var d := DigitsOf(raw);
            |d| >= 9 && d[|d| - 9..] == Check(raw).value.number
  {
    var d := DigitsOf(raw);
    var n := Check(raw).value.number;
    if d == "0" + n {
      assert d[1..] == n;
    } else {
      assert d[2..] == n;
    }
  }

  /** The parts of a valid phone are the slices of its nine digits. */
  lemma PartsOfNumber(p: Phone)
    requires Valid(p)
    ensures p.number[..2] == p.prefix && p.number[2..5] == p.three && p.number[5..] == p.four
  {
    assert p.number == p.prefix + p.three + p.four;
  }

  /** The input the getter and dial-in tests parse. */
  const SampleInput: string := "0115009000"

  /** The phone those tests expect `check` to build from it. */
  const SamplePhone: Phone := Phone("115009000", "11", "500", "9000")

  /** The sample phone is valid. */
  lemma SampleIsValid()
    ensures Valid(SamplePhone)
  {
  }

  /** The sample input is its own digit string: `0` and the sample's number. */
  lemma SampleIsMarkedNumber()
    ensures DigitsOf(SampleInput) == SampleInput
    ensures SampleInput == "0" + SamplePhone.number
  {
    DigitsOfDigits(SampleInput);
  }

  /** `check` parses the sample input to the sample phone. */
  lemma SampleIsParsed()
    ensures Check(SampleInput) == Some(SamplePhone)
  {
    SampleIsValid();
    SampleIsMarkedNumber();
    CheckFromDigits(SampleInput, SamplePhone);
  }

  /** Helper for `Getters`: the getters on the sample phone. */
  lemma SampleGetters()
    ensures Get(SamplePhone, "number") == Some("115009000")
    ensures Get(SamplePhone, "prefix") == Some("11")
    ensures Get(SamplePhone, "three") == Some("500")
    ensures Get(SamplePhone, "four") == Some("9000")
    ensures Get(SamplePhone, "five") == None
  {
  }

  /** The getters on the parsed sample input, including null for an unknown
      part. */
  lemma Getters()
    ensures Check(SampleInput).Some?
    ensures Get(Check(SampleInput).value, "number") == Some("115009000")
    ensures Get(Check(SampleInput).value, "prefix") == Some("11")
    ensures Get(Check(SampleInput).value, "three") == Some("500")
    ensures Get(Check(SampleInput).value, "four") == Some("9000")
    ensures Get(Check(SampleInput).value, "five") == None
  {
    SampleIsParsed();
    SampleGetters();
  }

  /** Helper for `DialInSamples`: dial-in of the sample phone. */
  lemma SampleDialIn(exitCodes: map<string, string>, country: string)
    requires country in exitCodes && !Falsy(country)
    requires "ZZZ" !in exitCodes
    ensures FormatDialIn(SamplePhone, country, Some(exitCodes)) == Success(exitCodes[country] + " 27 115009000")
    ensures FormatDialIn(SamplePhone, "", Some(exitCodes)) == Failure(InvalidArgument)
    ensures FormatDialIn(SamplePhone, "ZZZ", Some(exitCodes)) == Failure(InvalidOption("ZZZ"))
  {
    var e := exitCodes[country];
    assert e + " 27 " + "115009000" == e + (" 27 " + "115009000");
    assert " 27 " + "115009000" == " 27 115009000";
  }

  /** Dial-in of the parsed sample input from any listed country, and the
      two failures. */
  lemma DialInSamples(exitCodes: map<string, string>, country: string)
    requires country in exitCodes && !Falsy(country)
    requires "ZZZ" !in exitCodes
    ensures Check(SampleInput).Some?
    ensures var p := Check(SampleInput).value;
            FormatDialIn(p, country, Some(exitCodes)) == Success(exitCodes[country] + " 27 115009000")
    ensures var p := Check(SampleInput).value;
            FormatDialIn(p, "", Some(exitCodes)) == Failure(InvalidArgument)
    ensures var p := Check(SampleInput).value;
            FormatDialIn(p, "ZZZ", Some(exitCodes)) == Failure(InvalidOption("ZZZ"))
  {
    SampleIsParsed();
    SampleDialIn(exitCodes, country);
  }
}
