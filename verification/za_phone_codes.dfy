/** The area and network codes written out as explicit sets, an independent
    reading of the two sub-expressions, and the proof that the parser's
    predicates accept exactly these codes among two-digit strings. */
module ZAPhoneCodes {
  import opened Text
  import opened ZAPhone

  /** The 38 area codes: 10-18, 21-24, 27, 28, 31-36, 39, 40-49, 51, 53,
      54, 56-58. */
  const LandlineCodes: set<string> := {
    "10", "11", "12", "13", "14", "15", "16", "17", "18",
    "21", "22", "23", "24", "27", "28",
    "31", "32", "33", "34", "35", "36", "39",
    "40", "41", "42", "43", "44", "45", "46", "47", "48", "49",
    "51", "53", "54", "56", "57", "58"}

  /** The 19 network codes: 60-66, 71-74, 76-79, 81-84. */
  const MobileCodes: set<string> := {
    "60", "61", "62", "63", "64", "65", "66",
    "71", "72", "73", "74", "76", "77", "78", "79",
    "81", "82", "83", "84"}

  /** Among digit strings, the landline sub-expression accepts exactly the
      listed area codes. */
  lemma LandlineCodesAgree(s: string)
    ensures s in LandlineCodes <==> LandlineCode(s) && AllDigits(s)
  {
    if LandlineCode(s) && AllDigits(s) {
      assert s == [s[0], s[1]];
    }
  }

  /** Among digit strings, the mobile sub-expression accepts exactly the
      listed network codes. */
  lemma MobileCodesAgree(s: string)
    ensures s in MobileCodes <==> MobileCode(s) && AllDigits(s)
  {
    if MobileCode(s) && AllDigits(s) {
      assert s == [s[0], s[1]];
    }
  }

  /** The code of every phone `check` produces is one of the listed area
      or network codes. */
  lemma ParsedPrefixListed(raw: string)
    ensures Check(raw).Some? ==> Check(raw).value.prefix in LandlineCodes + MobileCodes
  {
    if Check(raw).Some? {
      var p := Check(raw).value;
      LandlineCodesAgree(p.prefix);
      MobileCodesAgree(p.prefix);
    }
  }
}
