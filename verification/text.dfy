/** Character-level string operations the phone engine relies on: PHP's
    integer sanitising filter, `str_replace` of a single character, and
    PHP's truthiness of strings. */
module Text {

  predicate IsDigit(c: char) {
    '0' <= c <= '9'
  }

  predicate AllDigits(s: string) {
    forall i :: 0 <= i < |s| ==> IsDigit(s[i])
  }

  /** Punctuation: a string without a single digit. */
  predicate DigitFree(s: string) {
    forall i :: 0 <= i < |s| ==> !IsDigit(s[i])
  }

  /** A string is all digits exactly when both halves of any split are. */
  lemma AllDigitsSplit(s: string, k: nat)
    requires k <= |s|
    ensures AllDigits(s) <==> AllDigits(s[..k]) && AllDigits(s[k..])
  {
    if AllDigits(s[..k]) && AllDigits(s[k..]) {
      forall i | 0 <= i < |s|
        ensures IsDigit(s[i])
      {
        if i < k {
          assert s[i] == s[..k][i];
        } else {
          assert s[i] == s[k..][i - k];
        }
      }
    }
  }

  /** PHP converts a string to `false` exactly when it is "" or "0". */
  predicate Falsy(s: string) {
    s == "" || s == "0"
  }

  /** The reference sanitisation: the digits of `s`, in their original order. */
  function DigitsOf(s: string): (r: string)
    ensures AllDigits(r)
    ensures |r| <= |s|
  {
    if s == [] then []
    else
      if IsDigit(s[0]) then [s[0]] + DigitsOf(s[1..]) else DigitsOf(s[1..])
  }

  /** A string of digits is its own sanitisation. */
  lemma {:induction false} DigitsOfDigits(s: string)
    requires AllDigits(s)
    ensures DigitsOf(s) == s
  {
    if s != [] {
      DigitsOfDigits(s[1..]);
    }
  }

  /** `DigitsOf` keeps a character exactly when it occurs in the input and
      is a digit. */
  lemma {:induction false} DigitsOfMembers(s: string, c: char)
    ensures c in DigitsOf(s) <==> c in s && IsDigit(c)
  {
    if s != [] {
      assert s == [s[0]] + s[1..];
      DigitsOfMembers(s[1..], c);
    }
  }

  /** The characters `filter_var(..., FILTER_SANITIZE_NUMBER_INT)` keeps. */
  predicate KeptByNumberIntFilter(c: char) {
    IsDigit(c) || c == '+' || c == '-'
  }

  /** `filter_var($s, FILTER_SANITIZE_NUMBER_INT)`: drops every character
      other than a digit, `+` or `-`. */
  function FilterNumberInt(s: string): (r: string)
    ensures forall i :: 0 <= i < |r| ==> KeptByNumberIntFilter(r[i])
    ensures |r| <= |s|
  {
    if s == [] then []
    else
      if KeptByNumberIntFilter(s[0]) then [s[0]] + FilterNumberInt(s[1..]) else FilterNumberInt(s[1..])
  }

  /** `str_replace($c, $rep, $s)` for a one-character search string: every
      occurrence of `c` is replaced by `rep`, everything else is kept. */
  function ReplaceChar(s: string, c: char, rep: string): (r: string)
    ensures c !in rep ==> c !in r
  {
    if s == [] then []
    else
      assert s == [s[0]] + s[1..];
      (if s[0] == c then rep else [s[0]]) + ReplaceChar(s[1..], c, rep)
  }

  /** Replacing a character that does not occur changes nothing. */
  lemma {:induction false} ReplaceCharAbsent(s: string, c: char, rep: string)
    requires c !in s
    ensures ReplaceChar(s, c, rep) == s
  {
    if s != [] {
      assert s == [s[0]] + s[1..];
      ReplaceCharAbsent(s[1..], c, rep);
    }
  }

  lemma {:induction false} ReplaceCharConcat(a: string, b: string, c: char, rep: string)
    ensures ReplaceChar(a + b, c, rep) == ReplaceChar(a, c, rep) + ReplaceChar(b, c, rep)
  {
    if a == [] {
      assert a + b == b;
    } else {
      assert (a + b)[1..] == a[1..] + b;
      ReplaceCharConcat(a[1..], b, c, rep);
    }
  }

  lemma {:induction false} DigitsOfConcat(a: string, b: string)
    ensures DigitsOf(a + b) == DigitsOf(a) + DigitsOf(b)
  {
    if a == [] {
      assert a + b == b;
    } else {
      assert (a + b)[1..] == a[1..] + b;
      DigitsOfConcat(a[1..], b);
    }
  }

  /** Filtering with FILTER_SANITIZE_NUMBER_INT and then deleting `+` and
      `-` leaves exactly the digits of the input. */
  lemma {:induction false} FilterThenStripIsDigitsOf(s: string)
    ensures ReplaceChar(ReplaceChar(FilterNumberInt(s), '+', ""), '-', "") == DigitsOf(s)
  {
    if s != [] {
      var head := if KeptByNumberIntFilter(s[0]) then [s[0]] else [];
      assert FilterNumberInt(s) == head + FilterNumberInt(s[1..]);
      ReplaceCharConcat(head, FilterNumberInt(s[1..]), '+', "");
      ReplaceCharConcat(ReplaceChar(head, '+', ""), ReplaceChar(FilterNumberInt(s[1..]), '+', ""), '-', "");
      FilterThenStripIsDigitsOf(s[1..]);
    }
  }
}
