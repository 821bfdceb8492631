/** What the phone engine promises: which digit strings it accepts, that
    its output formats parse back to the same phone, how the formats relate
    to each other, and that landline and mobile codes never overlap. */
module ZAPhoneProperties {
  import opened Results
  import opened Text
  import opened ZAPhone

  /** The digit strings `check` accepts, described by their length: a `0`
      and nine digits, or `27` and nine digits, where the first two of the
      nine are a landline or mobile code. */
  predicate WellFormedDigits(d: string) {
    || (|d| == 10 && d[0] == '0' && AllDigits(d) && PrefixCode(d[1..3]))
    || (|d| == 11 && d[..2] == "27" && AllDigits(d) && PrefixCode(d[2..4]))
  }

  /** Two digit strings joined are a digit string. */
  lemma AllDigitsJoin(a: string, b: string)
    requires AllDigits(a) && AllDigits(b)
    ensures AllDigits(a + b)
  {
    AllDigitsSplit(a + b, |a|);
    assert (a + b)[..|a|] == a && (a + b)[|a|..] == b;
  }

  /** The nine digits of a valid phone are digits. */
  lemma NumberIsDigits(p: Phone)
    requires Valid(p)
    ensures AllDigits(p.number) && |p.number| == 9
  {
    AllDigitsJoin(p.prefix, p.three);
    AllDigitsJoin(p.prefix + p.three, p.four);
  }

  lemma NoSeparatorInDigits(s: string)
    requires AllDigits(s)
    ensures ' ' !in s && '-' !in s && '(' !in s && ')' !in s && '+' !in s
  {
  }

  /** A `27` marker followed by an acceptable number. */
  lemma MatchAfterTwentySeven(d: string)
    requires AllDigits(d) && |d| >= 2 && d[..2] == "27"
    ensures MatchNumber(d[2..]).Some? <==> |d| == 11 && PrefixCode(d[2..4])
  {
    AllDigitsSplit(d, 2);
    assert IsDigit(d[..2][0]) && IsDigit(d[..2][1]);
    if |d| == 11 {
      var rest := d[2..];
      assert d[2..4] == rest[..2];
      AllDigitsSplit(rest, 2);
    }
  }

  /** A `0` marker followed by an acceptable number. */
  lemma MatchAfterZero(d: string)
    requires AllDigits(d) && |d| >= 1 && d[0] == '0'
    ensures MatchNumber(d[1..]).Some? <==> |d| == 10 && PrefixCode(d[1..3])
  {
    AllDigitsSplit(d, 1);
    assert IsDigit(d[..1][0]);
    if |d| == 10 {
      var rest := d[1..];
      assert d[1..3] == rest[..2];
      AllDigitsSplit(rest, 2);
    }
  }

  /** On sanitised input the matcher accepts exactly the well-formed digit
      strings. */
  lemma MatchAcceptsExactly(d: string)
    requires AllDigits(d)
    ensures Match(d).Some? <==> WellFormedDigits(d)
  {
    if |d| >= 2 && d[..2] == "27" {
      MatchAfterTwentySeven(d);
      assert d[0] == d[..2][0] == '2';
      if MatchNumber(d[2..]).Some? {
        assert Match(d) == MatchNumber(d[2..]);
      } else {
        assert Match(d).None?;
      }
    } else if |d| >= 1 && d[0] == '0' {
      MatchAfterZero(d);
      assert Match(d) == MatchNumber(d[1..]);
    } else {
      assert Match(d).None?;
    }
  }

  /** `check` succeeds exactly on inputs whose digits are well formed, so
      the digits of an accepted input number exactly 10 or 11. */
  lemma CheckAcceptsExactly(raw: string)
    ensures Check(raw).Some? <==> WellFormedDigits(DigitsOf(raw))
    ensures Check(raw).Some? ==> |DigitsOf(raw)| == 10 || |DigitsOf(raw)| == 11
  {
    MatchAcceptsExactly(DigitsOf(raw));
  }

  /** Punctuation is irrelevant: inputs with the same digits parse alike. */
  lemma CheckDependsOnlyOnDigits(a: string, b: string)
    requires DigitsOf(a) == DigitsOf(b)
    ensures Check(a) == Check(b)
  {
  }

  /** The country marker followed by a valid phone's nine digits matches
      and reproduces that phone. */
  lemma MatchMarkedNumber(p: Phone)
    requires Valid(p)
    ensures Match("0" + p.number) == Some(p)
    ensures Match("27" + p.number) == Some(p)
  {
    var n := p.number;
    NumberIsDigits(p);
    assert n[..2] == p.prefix && n[2..5] == p.three && n[5..] == p.four;
    assert MatchNumber(n) == Some(p);
    assert ("0" + n)[1..] == n;
    assert ("27" + n)[..2] == "27" && ("27" + n)[2..] == n;
  }

  /** Any input whose digits are a country marker and a valid phone's nine
      digits parses to that phone. */
  lemma CheckFromDigits(raw: string, p: Phone)
    requires Valid(p)
    requires DigitsOf(raw) == "0" + p.number || DigitsOf(raw) == "27" + p.number
    ensures Check(raw) == Some(p)
  {
    MatchMarkedNumber(p);
  }

  /** The values `check` can produce are exactly the valid phones. */
  lemma ProducedIffValid(p: Phone)
    ensures Valid(p) <==> exists raw :: Check(raw) == Some(p)
  {
    if Valid(p) {
      var raw := "0" + p.number;
      assert AllDigits(raw) by {
        NumberIsDigits(p);
        AllDigitsJoin("0", p.number);
      }
      DigitsOfDigits(raw);
      CheckFromDigits(raw, p);
    }
  }

  /** A valid phone is determined by its nine digits, so every accepted
      spelling of the same number yields the same parts and formats. */
  lemma ValidDeterminedByNumber(p: Phone, q: Phone)
    requires Valid(p) && Valid(q) && p.number == q.number
    ensures p == q
  {
    assert p.prefix == p.number[..2] && q.prefix == q.number[..2];
    assert p.three == p.number[2..5] && q.three == q.number[2..5];
    assert p.four == p.number[5..] && q.four == q.number[5..];
  }

  /** No string is both a landline and a mobile code. */
  lemma CodesDisjoint(s: string)
    ensures !(LandlineCode(s) && MobileCode(s))
  {
  }

  /** Every parsed phone is exactly one of landline and mobile, and `is`
      agrees with the code predicates on the prefix. */
  lemma ExactlyOneKind(p: Phone)
    requires Valid(p)
    ensures Is(p, Landline) <==> LandlineCode(p.prefix)
    ensures Is(p, Mobile) <==> MobileCode(p.prefix)
    ensures Is(p, Landline) != Is(p, Mobile)
  {
    SearchTwoChars(Landline, p.prefix);
    SearchTwoChars(Mobile, p.prefix);
    CodesDisjoint(p.prefix);
  }

  /** A string without digits contributes nothing to the sanitised input. */
  lemma DigitsOfNoDigits(s: string)
    requires DigitFree(s)
    ensures DigitsOf(s) == []
  {
    if DigitsOf(s) != [] {
      var c := DigitsOf(s)[0];
      DigitsOfMembers(s, c);
    }
  }

  /** Helper: regrouping a four-part concatenation. */
  lemma Regroup(w: string, a: string, b: string, c: string)
    ensures w + a + b + c == w + (a + b + c)
  {
  }

  /** The digits of three digit blocks joined by digit-free separators. */
  lemma DigitsOfBlocks(lead: string, a: string, sep1: string, b: string, sep2: string, c: string)
    requires AllDigits(a) && AllDigits(b) && AllDigits(c)
    requires DigitFree(sep1) && DigitFree(sep2)
    ensures DigitsOf(lead + a + sep1 + b + sep2 + c) == DigitsOf(lead) + (a + b + c)
  {
    DigitsOfNoDigits(sep1);
    DigitsOfNoDigits(sep2);
    DigitsOfDigits(a);
    DigitsOfDigits(b);
    DigitsOfDigits(c);
    var x1 := lead + a;
    DigitsOfConcat(lead, a);
    assert DigitsOf(x1) == DigitsOf(lead) + a;
    var x2 := x1 + sep1;
    DigitsOfConcat(x1, sep1);
    assert DigitsOf(x2) == DigitsOf(x1);
    var x3 := x2 + b;
    DigitsOfConcat(x2, b);
    assert DigitsOf(x3) == DigitsOf(lead) + a + b;
    var x4 := x3 + sep2;
    DigitsOfConcat(x3, sep2);
    assert DigitsOf(x4) == DigitsOf(x3);
    DigitsOfConcat(x4, c);
    Regroup(DigitsOf(lead), a, b, c);
  }

  /** The separators the formatters put between the blocks hold no digit. */
  lemma SeparatorsDigitFree()
    ensures DigitFree(" ") && DigitFree("-") && DigitFree(") ")
  {
  }

  /** The digits of the fixed pieces the formatters put around the blocks. */
  lemma MarkerDigits()
    ensures DigitsOf("0") == "0"
    ensures DigitsOf("(0") == "0"
    ensures DigitsOf("+27") == "27"
    ensures DigitsOf("+27 ") == "27"
    ensures DigitsOf("+27-") == "27"
  {
  }

  /** The national format: "0P T F" with spaces or hyphens, and "(0P) T F"
      for a landline when parentheses are asked for, where the first
      separator is always a space. Parentheses never apply to a mobile. */
  lemma NationalShape(p: Phone, landlineParentheses: bool, hyphens: bool)
    requires Valid(p)
    ensures var sep := if hyphens then "-" else " ";
            FormatNational(p, landlineParentheses, hyphens) ==
              if landlineParentheses && LandlineCode(p.prefix)
              then "(0" + p.prefix + ") " + p.three + sep + p.four
              else "0" + p.prefix + sep + p.three + sep + p.four
    ensures MobileCode(p.prefix) ==>
              FormatNational(p, landlineParentheses, hyphens) == FormatNational(p, false, hyphens)
  {
    SearchTwoChars(Landline, p.prefix);
    CodesDisjoint(p.prefix);
    var sep := if hyphens then "-" else " ";
    if landlineParentheses && LandlineCode(p.prefix) {
      assert "(" + ("0" + p.prefix) + ")" + " " == "(0" + p.prefix + ") ";
    }
  }

  /** The digits of a national rendering are `0` and the nine digits. */
  lemma NationalDigits(p: Phone, landlineParentheses: bool, hyphens: bool)
    requires Valid(p)
    ensures DigitsOf(FormatNational(p, landlineParentheses, hyphens)) == "0" + p.number
  {
    NationalShape(p, landlineParentheses, hyphens);
    MarkerDigits();
    SeparatorsDigitFree();
    var sep := if hyphens then "-" else " ";
    if landlineParentheses && LandlineCode(p.prefix) {
      DigitsOfBlocks("(0", p.prefix, ") ", p.three, sep, p.four);
    } else {
      DigitsOfBlocks("0", p.prefix, sep, p.three, sep, p.four);
    }
  }

  /** Every national rendering parses back to the same phone. */
  lemma NationalRoundTrip(p: Phone, landlineParentheses: bool, hyphens: bool)
    requires Valid(p)
    ensures Check(FormatNational(p, landlineParentheses, hyphens)) == Some(p)
  {
    NationalDigits(p, landlineParentheses, hyphens);
    CheckFromDigits(FormatNational(p, landlineParentheses, hyphens), p);
  }

  /** `__toString` is the national format with default flags and parses
      back to the same phone. */
  lemma ToStringRoundTrip(p: Phone)
    requires Valid(p)
    ensures ToString(p) == FormatNational(p, false, false)
    ensures Check(ToString(p)) == Some(p)
  {
    NationalRoundTrip(p, false, false);
  }

  /** The digits of the international format are `27` and the nine digits. */
  lemma IntlDigits(p: Phone)
    requires Valid(p)
    ensures FormatIntl(p) == "+27 " + p.prefix + " " + p.three + " " + p.four
    ensures DigitsOf(FormatIntl(p)) == "27" + p.number
  {
    DigitsOfBlocks("+27 ", p.prefix, " ", p.three, " ", p.four);
    MarkerDigits();
  }

  /** The international format parses back to the same phone. */
  lemma IntlRoundTrip(p: Phone)
    requires Valid(p)
    ensures Check(FormatIntl(p)) == Some(p)
  {
    IntlDigits(p);
    CheckFromDigits(FormatIntl(p), p);
  }

  /** Replacing the spaces of the international format by `rep`. */
  lemma ReplaceSpacesOfIntl(p: Phone, rep: string)
    requires Valid(p)
    ensures ReplaceChar(FormatIntl(p), ' ', rep) == "+27" + rep + p.prefix + rep + p.three + rep + p.four
  {
    NoSeparatorInDigits(p.prefix);
    NoSeparatorInDigits(p.three);
    NoSeparatorInDigits(p.four);
    ReplaceSpaces("+27 ", p.prefix, p.three, p.four, rep);
    IntlMarkerReplaced(rep);
  }

  /** The spaces of the international marker become `rep`. */
  lemma IntlMarkerReplaced(rep: string)
    ensures ReplaceChar("+27 ", ' ', rep) == "+27" + rep
  {
    ReplaceCharAbsent("+27", ' ', rep);
    assert ReplaceChar(" ", ' ', rep) == rep;
    assert "+27 " == "+27" + " ";
    ReplaceCharConcat("+27", " ", ' ', rep);
  }

  /** Without its spaces, the dial-in infix " 27 " is the country code. */
  lemma DialInInfixStripped()
    ensures ReplaceChar(" 27 ", ' ', "") == "27"
  {
    ReplaceCharAbsent("27", ' ', "");
    assert ReplaceChar(" ", ' ', "") == "";
    assert " 27 " == " " + "27" + " ";
    ReplaceCharConcat(" ", "27", ' ', "");
    ReplaceCharConcat(" " + "27", " ", ' ', "");
  }

  /** The dial-in part after the exit code, with its spaces removed, is the
      country code and the nine digits. */
  lemma DialInTailStripped(p: Phone)
    requires Valid(p)
    ensures ReplaceChar(" 27 " + p.number, ' ', "") == "27" + p.number
  {
    NumberIsDigits(p);
    NoSeparatorInDigits(p.number);
    ReplaceCharAbsent(p.number, ' ', "");
    ReplaceCharConcat(" 27 ", p.number, ' ', "");
    DialInInfixStripped();
  }

  /** Replacing the two spaces between three space-free pieces that follow
      an arbitrary lead. */
  lemma ReplaceSpaces(w: string, a: string, b: string, c: string, rep: string)
    requires ' ' !in a && ' ' !in b && ' ' !in c
    ensures ReplaceChar(w + a + " " + b + " " + c, ' ', rep) == ReplaceChar(w, ' ', rep) + a + rep + b + rep + c
  {
    ReplaceCharAbsent(a, ' ', rep);
    ReplaceCharAbsent(b, ' ', rep);
    ReplaceCharAbsent(c, ' ', rep);
    assert ReplaceChar(" ", ' ', rep) == rep;
    var x1 := w + a;
    ReplaceCharConcat(w, a, ' ', rep);
    var x2 := x1 + " ";
    ReplaceCharConcat(x1, " ", ' ', rep);
    var x3 := x2 + b;
    ReplaceCharConcat(x2, b, ' ', rep);
    var x4 := x3 + " ";
    ReplaceCharConcat(x3, " ", ' ', rep);
    ReplaceCharConcat(x4, c, ' ', rep);
  }

  /** E.164 is the international format without spaces: "+27" and the
      nine digits, twelve characters in all. */
  lemma E164Shape(p: Phone)
    requires Valid(p)
    ensures FormatE164(p) == "+27" + p.number
    ensures |FormatE164(p)| == 12
  {
    ReplaceSpacesOfIntl(p, "");
    assert "+27" + "" + p.prefix + "" + p.three + "" + p.four == "+27" + p.prefix + p.three + p.four;
    Regroup("+27", p.prefix, p.three, p.four);
  }

  /** The E.164 format parses back to the same phone. */
  lemma E164RoundTrip(p: Phone)
    requires Valid(p)
    ensures Check(FormatE164(p)) == Some(p)
  {
    E164Shape(p);
    NumberIsDigits(p);
    DigitsOfConcat("+27", p.number);
    DigitsOfDigits(p.number);
    MarkerDigits();
    CheckFromDigits(FormatE164(p), p);
  }

  /** RFC 3966 is the international format with hyphens for spaces. */
  lemma RFC3966Shape(p: Phone)
    requires Valid(p)
    ensures FormatRFC3966(p) == "+27-" + p.prefix + "-" + p.three + "-" + p.four
  {
    ReplaceSpacesOfIntl(p, "-");
    assert "+27" + "-" == "+27-";
  }

  /** The RFC 3966 format parses back to the same phone. */
  lemma RFC3966RoundTrip(p: Phone)
    requires Valid(p)
    ensures Check(FormatRFC3966(p)) == Some(p)
  {
    RFC3966Shape(p);
    DigitsOfBlocks("+27-", p.prefix, "-", p.three, "-", p.four);
    MarkerDigits();
    CheckFromDigits(FormatRFC3966(p), p);
  }

  /** Helper for `DialInCarriesNumber`: a dial-in string from a listed
      country is its exit code, then " 27 " and the nine digits. */
  lemma DialInSplits(p: Phone, fromCountry: string, exitCodes: map<string, string>)
    requires !Falsy(fromCountry) && fromCountry in exitCodes
    ensures FormatDialIn(p, fromCountry, Some(exitCodes)).Success?
    ensures var r := FormatDialIn(p, fromCountry, Some(exitCodes)).value;
            var e := exitCodes[fromCountry];
            && |r| >= |e|
            && r[..|e|] == e
            && r[|e|..] == " 27 " + p.number
  {
    var e := exitCodes[fromCountry];
    var r := FormatDialIn(p, fromCountry, Some(exitCodes)).value;
    assert r == e + (" 27 " + p.number);
  }

  /** A successful dial-in string is the exit code followed by a part
      that, with its spaces removed and a `+` in front, is the E.164 form. */
  lemma DialInCarriesNumber(p: Phone, fromCountry: string, exitCodes: map<string, string>)
    requires Valid(p)
    requires !Falsy(fromCountry) && fromCountry in exitCodes
    ensures FormatDialIn(p, fromCountry, Some(exitCodes)).Success?
    ensures var r := FormatDialIn(p, fromCountry, Some(exitCodes)).value;
            var e := exitCodes[fromCountry];
            && r[..|e|] == e
            && "+" + ReplaceChar(r[|e|..], ' ', "") == FormatE164(p)
  {
    DialInSplits(p, fromCountry, exitCodes);
    DialInTailIsE164(p);
  }

  /** Helper for `DialInCarriesNumber`: the part after the exit code,
      without spaces and with a `+`, is the E.164 format. */
  lemma DialInTailIsE164(p: Phone)
    requires Valid(p)
    ensures "+" + ReplaceChar(" 27 " + p.number, ' ', "") == FormatE164(p)
  {
    DialInTailStripped(p);
    PlusCountryCode(p.number);
    E164Shape(p);
  }

  /** Helper: a `+` before the country code and a suffix. */
  lemma PlusCountryCode(s: string)
    ensures "+" + ("27" + s) == "+27" + s
  {
    assert "+" + "27" == "+27";
    assert "+" + ("27" + s) == ("+" + "27") + s;
  }

  /** The falsy-country error comes before the exit-code file is read or
      consulted, whatever the table. */
  lemma DialInArgumentCheckedFirst(p: Phone, exitCodes: Option<map<string, string>>)
    ensures FormatDialIn(p, "", exitCodes) == Failure(InvalidArgument)
    ensures FormatDialIn(p, "0", exitCodes) == Failure(InvalidArgument)
  {
  }
}
