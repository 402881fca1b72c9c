/**
 * The input masks and validators of the profile, checkout and signup forms.
 * The screens each carry their own copy; the copies agree except for the
 * expiry validator, which the checkout screen compares with the current
 * month, so both versions are modelled.
 */
module Masks {
  import opened Text
  import opened Collections

  // ---------------------------------------------------------------------
  // Digit bookkeeping shared by the masks
  // ---------------------------------------------------------------------

  /** A separator adds no digits to what follows it. */
  lemma DigitsAfterSeparator(sep: string, rest: string)
    requires NoDigits(sep)
    ensures OnlyDigits(sep + rest) == OnlyDigits(rest)
  {
    OnlyDigitsAppend(sep, rest);
    OnlyDigitsOfNonDigits(sep);
  }

  /** A run of digits is kept in front of the digits of what follows it. */
  lemma DigitsOfRun(run: string, rest: string)
    requires AllDigits(run)
    ensures OnlyDigits(run + rest) == run + OnlyDigits(rest)
  {
    OnlyDigitsAppend(run, rest);
    OnlyDigitsOfDigits(run);
  }

  /** A mask character and a run of digits appended keep the digits so far, then the run. */
  lemma DigitsAppended(x: string, mark: string, y: string)
    requires NoDigits(mark) && AllDigits(y)
    ensures OnlyDigits(x + mark + y) == OnlyDigits(x) + y
  {
    OnlyDigitsAppend(x + mark, y);
    OnlyDigitsAppend(x, mark);
    OnlyDigitsOfNonDigits(mark);
    OnlyDigitsOfDigits(y);
  }

  /** A slice of a run of digits is a run of digits. */
  lemma DigitsSlice(d: string, i: nat, j: nat)
    requires AllDigits(d) && i <= j <= |d|
    ensures AllDigits(d[i..j])
  {
    assert forall k :: 0 <= k < j - i ==> d[i..j][k] == d[i + k];
  }

  /** Every character is a digit or one of the mask characters in `marks`. */
  predicate MaskedWith(r: string, marks: set<char>) {
    forall i :: 0 <= i < |r| ==> IsDigit(r[i]) || r[i] in marks
  }

  /** Two masked strings joined are masked. */
  lemma MaskedJoin(x: string, y: string, marks: set<char>)
    requires MaskedWith(x, marks) || AllDigits(x) || forall i :: 0 <= i < |x| ==> x[i] in marks
    requires MaskedWith(y, marks) || AllDigits(y) || forall i :: 0 <= i < |y| ==> y[i] in marks
    ensures MaskedWith(x + y, marks)
  {
    forall i | 0 <= i < |x + y|
      ensures IsDigit((x + y)[i]) || (x + y)[i] in marks
    {
      if i < |x| {
        assert (x + y)[i] == x[i];
      } else {
        assert (x + y)[i] == y[i - |x|];
      }
    }
  }

  // ---------------------------------------------------------------------
  // Phone: "(dd) dddd-dddd" or "(dd) ddddd-dddd"
  // ---------------------------------------------------------------------

  const PhoneMarks: set<char> := {'(', ')', ' ', '-'}

  /**
   * `formatPhone`: the first eleven digits typed, masked as they grow. The
   * digits of the result are exactly those digits, and only the characters
   * "(", ")", " " and "-" are added.
   */
  function FormatPhone(value: string): (r: string)
    ensures OnlyDigits(r) == Take(OnlyDigits(value), 11)
    ensures r == [] <==> OnlyDigits(value) == []
    ensures MaskedWith(r, PhoneMarks)
  {
    var d := Take(OnlyDigits(value), 11);
    if d == [] then ""
    else if |d| <= 2 then
      PhoneOpened(d);
      "(" + d
    else if |d| <= 6 then
      PhoneWrapped(d);
      "(" + d[..2] + ") " + d[2..]
    else if |d| <= 10 then
      PhoneDashed(d, 6);
      "(" + d[..2] + ") " + d[2..6] + "-" + d[6..]
    else
      PhoneDashed(d, 7);
      "(" + d[..2] + ") " + d[2..7] + "-" + d[7..]
  }

  /** Up to two digits behind "(" keep their digits and add only the mark. */
  lemma PhoneOpened(d: string)
    requires AllDigits(d)
    ensures OnlyDigits("(" + d) == d && MaskedWith("(" + d, PhoneMarks)
  {
    DigitsAfterSeparator("(", d);
    OnlyDigitsOfDigits(d);
    MaskedJoin("(", d, PhoneMarks);
  }

  /** "(dd) " followed by the remaining digits keeps the digits and adds only marks. */
  lemma PhoneWrapped(d: string)
    requires AllDigits(d) && 2 <= |d|
    ensures var r := "(" + d[..2] + ") " + d[2..];
      OnlyDigits(r) == d && MaskedWith(r, PhoneMarks)
  {
    var a, b := d[..2], d[2..];
    DigitsSlice(d, 0, 2);
    DigitsSlice(d, 2, |d|);
    assert d[0..2] == a && d[2..|d|] == b;
    PhoneOpened(a);
    DigitsAppended("(" + a, ") ", b);
    MaskedJoin("(" + a, ") ", PhoneMarks);
    MaskedJoin("(" + a + ") ", b, PhoneMarks);
    assert a + b == d;
  }

  /** "(dd) ", the subscriber digits with a '-' before position `k`, keeps the digits and adds only marks. */
  lemma PhoneDashed(d: string, k: nat)
    requires AllDigits(d) && 2 <= k <= |d|
    ensures var r := "(" + d[..2] + ") " + d[2..k] + "-" + d[k..];
      OnlyDigits(r) == d && MaskedWith(r, PhoneMarks)
  {
    var a, b, c := d[..2], d[2..k], d[k..];
    DigitsSlice(d, 0, 2);
    DigitsSlice(d, 2, k);
    DigitsSlice(d, k, |d|);
    assert d[0..2] == a && d[k..|d|] == c;
    PhoneOpened(a);
    DigitsAppended("(" + a, ") ", b);
    DigitsAppended("(" + a + ") " + b, "-", c);
    MaskedJoin("(" + a, ") ", PhoneMarks);
    MaskedJoin("(" + a + ") ", b, PhoneMarks);
    MaskedJoin("(" + a + ") " + b, "-", PhoneMarks);
    MaskedJoin("(" + a + ") " + b + "-", c, PhoneMarks);
    assert a + b + c == d;
  }

  /** Masking an already masked phone changes nothing. */
  lemma FormatPhoneIdempotent(value: string)
    ensures FormatPhone(FormatPhone(value)) == FormatPhone(value)
  {
    var d := Take(OnlyDigits(value), 11);
    assert Take(d, 11) == d;
  }

  /**
   * A complete number, ten or eleven digits, reads "(" area code ") " then
   * the subscriber number with a '-' before its last four digits.
   */
  lemma FormatPhoneComplete(value: string)
    requires |OnlyDigits(value)| == 10 || |OnlyDigits(value)| == 11
    ensures var d := OnlyDigits(value);
      FormatPhone(value) == "(" + d[..2] + ") " + d[2..|d| - 4] + "-" + d[|d| - 4..]
  {
    var d := OnlyDigits(value);
    assert Take(d, 11) == d;
  }

  /** `isValidPhoneDigits`: ten or eleven digits. */
  predicate IsValidPhoneDigits(digits: string) {
    |digits| == 10 || |digits| == 11
  }

  /** A phone is complete after masking exactly when its first eleven digits are ten or eleven. */
  lemma PhoneValidAfterMask(value: string)
    ensures IsValidPhoneDigits(OnlyDigits(FormatPhone(value)))
      <==> |OnlyDigits(value)| >= 10
  {
  }

  // ---------------------------------------------------------------------
  // CPF: "ddd.ddd.ddd-dd"
  // ---------------------------------------------------------------------

  const CpfMarks: set<char> := {'.', '-'}

  /**
   * `formatCpf`: the first eleven digits typed, with '.' after the third and
   * sixth and '-' after the ninth as the number grows.
   */
  function FormatCpf(value: string): (r: string)
    ensures OnlyDigits(r) == Take(OnlyDigits(value), 11)
    ensures r == [] <==> OnlyDigits(value) == []
    ensures MaskedWith(r, CpfMarks)
  {
    var d := Take(OnlyDigits(value), 11);
    if d == [] then ""
    else if |d| <= 3 then
      OnlyDigitsOfDigits(d);
      d
    else if |d| <= 6 then
      CpfDigits1(d);
      d[..3] + "." + d[3..]
    else if |d| <= 9 then
      CpfDigits2(d);
      d[..3] + "." + d[3..6] + "." + d[6..]
    else
      CpfDigits3(d);
      d[..3] + "." + d[3..6] + "." + d[6..9] + "-" + d[9..]
  }

  lemma CpfDigits1(d: string)
    requires AllDigits(d) && 3 < |d|
    ensures OnlyDigits(d[..3] + "." + d[3..]) == d
  {
    var a, b := d[..3], d[3..];
    DigitsSlice(d, 0, 3);
    DigitsSlice(d, 3, |d|);
    assert d[0..3] == a && d[3..|d|] == b;
    OnlyDigitsOfDigits(a);
    DigitsAppended(a, ".", b);
    assert a + b == d;
  }

  lemma CpfDigits2(d: string)
    requires AllDigits(d) && 6 < |d|
    ensures OnlyDigits(d[..3] + "." + d[3..6] + "." + d[6..]) == d
  {
    var a, b, c := d[..3], d[3..6], d[6..];
    DigitsSlice(d, 0, 3);
    DigitsSlice(d, 3, 6);
    DigitsSlice(d, 6, |d|);
    assert d[0..3] == a && d[6..|d|] == c;
    OnlyDigitsOfDigits(a);
    DigitsAppended(a, ".", b);
    DigitsAppended(a + "." + b, ".", c);
    assert a + b + c == d;
  }

  lemma CpfDigits3(d: string)
    requires AllDigits(d) && 9 < |d|
    ensures OnlyDigits(d[..3] + "." + d[3..6] + "." + d[6..9] + "-" + d[9..]) == d
  {
    var a, b, c, e := d[..3], d[3..6], d[6..9], d[9..];
    DigitsSlice(d, 0, 3);
    DigitsSlice(d, 3, 6);
    DigitsSlice(d, 6, 9);
    DigitsSlice(d, 9, |d|);
    assert d[0..3] == a && d[9..|d|] == e;
    OnlyDigitsOfDigits(a);
    DigitsAppended(a, ".", b);
    DigitsAppended(a + "." + b, ".", c);
    DigitsAppended(a + "." + b + "." + c, "-", e);
    assert a + b + c + e == d;
  }

  /** Masking an already masked CPF changes nothing. */
  lemma FormatCpfIdempotent(value: string)
    ensures FormatCpf(FormatCpf(value)) == FormatCpf(value)
  {
    var d := Take(OnlyDigits(value), 11);
    assert Take(d, 11) == d;
  }

  /** `isValidCpfDigits`: exactly eleven digits; no check digits are verified. */
  predicate IsValidCpfDigits(digits: string) {
    |digits| == 11
  }

  /** A CPF with all eleven digits is shown as "ddd.ddd.ddd-dd". */
  lemma FormatCpfComplete(value: string)
    requires IsValidCpfDigits(OnlyDigits(value))
    ensures var d := OnlyDigits(value);
      var r := FormatCpf(value);
      |r| == 14 && r[3] == '.' && r[7] == '.' && r[11] == '-'
      && r[..3] == d[..3] && r[4..7] == d[3..6] && r[8..11] == d[6..9] && r[12..] == d[9..]
  {
    var d := OnlyDigits(value);
    assert FormatCpf(value) == d[..3] + "." + d[3..6] + "." + d[6..9] + "-" + d[9..] by {
      assert Take(d, 11) == d;
    }
    CpfLayout(d);
  }

  /** Where the marks and digit groups of a full CPF mask sit. */
  lemma CpfLayout(d: string)
    requires |d| == 11
    ensures var r := d[..3] + "." + d[3..6] + "." + d[6..9] + "-" + d[9..];
      |r| == 14 && r[3] == '.' && r[7] == '.' && r[11] == '-'
      && r[..3] == d[..3] && r[4..7] == d[3..6] && r[8..11] == d[6..9] && r[12..] == d[9..]
  {
  }

  // ---------------------------------------------------------------------
  // Card number: groups of four digits
  // ---------------------------------------------------------------------

  /**
   * `digits.replace(/(\d{4})(?=\d)/g, "$1 ")` on a string of digits: a space
   * after every group of four digits that is followed by another digit. The
   * spaces sit exactly at the positions 4, 9, 14, ... and the last group
   * holds one to four digits.
   */
  function GroupDigits(d: string): (r: string)
    requires AllDigits(d)
    ensures |r| == if d == [] then 0 else |d| + (|d| - 1) / 4
    ensures forall i :: 0 <= i < |r| ==> (r[i] == ' ' <==> i % 5 == 4)
    ensures forall i :: 0 <= i < |r| ==> r[i] == ' ' || IsDigit(r[i])
    ensures OnlyDigits(r) == d
  {
    if |d| <= 4 then
      OnlyDigitsOfDigits(d);
      d
    else
      var rest := GroupDigits(d[4..]);
      GroupStep(d, rest);
      d[..4] + " " + rest
  }

  /** One more group of four in front keeps the layout of the grouped digits. */
  lemma GroupStep(d: string, rest: string)
    requires AllDigits(d) && |d| > 4
    requires |rest| == |d| - 4 + (|d| - 5) / 4
    requires forall i :: 0 <= i < |rest| ==> (rest[i] == ' ' <==> i % 5 == 4)
    requires forall i :: 0 <= i < |rest| ==> rest[i] == ' ' || IsDigit(rest[i])
    requires OnlyDigits(rest) == d[4..]
    ensures var r := d[..4] + " " + rest;
      && |r| == |d| + (|d| - 1) / 4
      && (forall i :: 0 <= i < |r| ==> (r[i] == ' ' <==> i % 5 == 4))
      && (forall i :: 0 <= i < |r| ==> r[i] == ' ' || IsDigit(r[i]))
      && OnlyDigits(r) == d
  {
    var r := d[..4] + " " + rest;
    assert r == d[..4] + (" " + rest);
    DigitsOfRun(d[..4], " " + rest);
    DigitsAfterSeparator(" ", rest);
    assert d[..4] + d[4..] == d;
    forall i | 0 <= i < |r|
      ensures (r[i] == ' ' <==> i % 5 == 4) && (r[i] == ' ' || IsDigit(r[i]))
    {
      if i >= 5 {
        assert r[i] == rest[i - 5];
      }
    }
  }

  /**
   * `formatCardNumber`: the first nineteen digits typed, in groups of four
   * separated by single spaces.
   */
  function FormatCardNumber(value: string): (r: string)
    ensures OnlyDigits(r) == Take(OnlyDigits(value), 19)
    ensures forall i :: 0 <= i < |r| ==> (r[i] == ' ' <==> i % 5 == 4)
    ensures r != [] ==> r[0] != ' ' && r[|r| - 1] != ' '
    ensures var n := |Take(OnlyDigits(value), 19)|;
      |r| == if n == 0 then 0 else n + (n - 1) / 4
  {
    var d := Take(OnlyDigits(value), 19);
    var g := GroupDigits(d);
    LastGroupNotSpace(|d|);
    TrimNoOp(g);
    Trim(g)
  }

  /** The last position of `n` grouped digits is not one of the spaces at 4, 9, 14, ... */
  lemma LastGroupNotSpace(n: nat)
    ensures n >= 1 ==> (n + (n - 1) / 4 - 1) % 5 != 4
  {
    if n >= 1 {
      var q, r := (n - 1) / 4, (n - 1) % 4;
      assert n + q - 1 == 5 * q + r;
    }
  }

  /** Masking an already masked card number changes nothing. */
  lemma FormatCardNumberIdempotent(value: string)
    ensures FormatCardNumber(FormatCardNumber(value)) == FormatCardNumber(value)
  {
    var d := Take(OnlyDigits(value), 19);
    assert Take(d, 19) == d;
  }

  /** `isValidCardNumber`: `/^[0-9]{13,19}$/` on the digits of the input. */
  predicate IsValidCardNumber(value: string) {
    var digits := OnlyDigits(value);
    AllDigits(digits) && 13 <= |digits| <= 19
  }

  /**
   * Card validity is decided by the digit count alone, and the mask never
   * turns an invalid number valid unless more than nineteen digits were typed.
   */
  lemma CardNumberValidity(value: string)
    ensures IsValidCardNumber(value) <==> 13 <= |OnlyDigits(value)| <= 19
    ensures |OnlyDigits(value)| <= 19 ==>
      (IsValidCardNumber(FormatCardNumber(value)) <==> IsValidCardNumber(value))
  {
  }

  // ---------------------------------------------------------------------
  // Expiry: "MM/AA"
  // ---------------------------------------------------------------------

  /** `formatExpiry`: the first four digits typed, with '/' after the month. */
  function FormatExpiry(value: string): (r: string)
    ensures OnlyDigits(r) == Take(OnlyDigits(value), 4)
    ensures MaskedWith(r, {'/'})
    ensures |Take(OnlyDigits(value), 4)| > 2 ==> |r| > 2 && r[2] == '/'
  {
    var d := Take(OnlyDigits(value), 4);
    if |d| <= 2 then
      OnlyDigitsOfDigits(d);
      d
    else
      assert d[..2] + "/" + d[2..] == d[..2] + ("/" + d[2..]);
      DigitsOfRun(d[..2], "/" + d[2..]);
      DigitsAfterSeparator("/", d[2..]);
      OnlyDigitsOfDigits(d[2..]);
      assert d[..2] + d[2..] == d;
      d[..2] + "/" + d[2..]
  }

  /** Masking an already masked expiry changes nothing. */
  lemma FormatExpiryIdempotent(value: string)
    ensures FormatExpiry(FormatExpiry(value)) == FormatExpiry(value)
  {
    var d := Take(OnlyDigits(value), 4);
    assert Take(d, 4) == d;
  }

  /** The month of a four-digit expiry, read from its first two digits. */
  function ExpiryMonth(digits: string): nat
    requires |digits| == 4 && AllDigits(digits)
  {
    DigitsValue(digits[..2])
  }

  /** The two-digit year of a four-digit expiry. */
  function ExpiryYear(digits: string): nat
    requires |digits| == 4 && AllDigits(digits)
  {
    DigitsValue(digits[2..])
  }

  /**
   * `isValidExpiry` of the profile form: four digits whose month is 1 to 12.
   * The date is not compared with the current month.
   */
  predicate IsValidExpiry(value: string) {
    var digits := OnlyDigits(value);
    |digits| == 4 && 1 <= ExpiryMonth(digits) <= 12
  }

  const MonthNumerals: set<string> :=
    {"01", "02", "03", "04", "05", "06", "07", "08", "09", "10", "11", "12"}

  /** The month numerals are the two-digit strings from "01" to "12". */
  lemma MonthNumeralsShape(m: string)
    requires |m| == 2 && AllDigits(m)
    ensures m in MonthNumerals <==> (m[0] == '0' && m[1] != '0') || (m[0] == '1' && m[1] <= '2')
  {
    assert m == [m[0], m[1]];
  }

  /** A profile expiry is valid exactly when it holds four digits starting with a month numeral. */
  lemma ExpiryValidIff(value: string)
    ensures IsValidExpiry(value)
      <==> |OnlyDigits(value)| == 4 && OnlyDigits(value)[..2] in MonthNumerals
  {
    var d := OnlyDigits(value);
    if |d| == 4 {
      var m := d[..2];
      var h := m[..1];
      assert h[..0] == [] && h[0] == m[0];
      assert DigitsValue(h) == DigitValue(m[0]);
      assert DigitsValue(m) == 10 * DigitValue(m[0]) + DigitValue(m[1]);
      MonthNumeralsShape(m);
    }
  }

  /**
   * `isValidExpiry` of the checkout form: as in the profile form, and the
   * card must not have expired before the current month; `nowYear` is the
   * full current year and `nowMonth` its month, 1 to 12.
   */
  predicate IsValidExpiryAt(value: string, nowYear: int, nowMonth: int) {
    var digits := OnlyDigits(value);
    && |digits| == 4
    && 1 <= ExpiryMonth(digits) <= 12
    && ExpiryYear(digits) >= nowYear % 100
    && !(ExpiryYear(digits) == nowYear % 100 && ExpiryMonth(digits) < nowMonth)
  }

  /**
   * The checkout form accepts an expiry exactly when the profile form does
   * and its month, counted from year 0 of the century, is not before the
   * current one.
   */
  lemma ExpiryAtIff(value: string, nowYear: int, nowMonth: int)
    requires 1 <= nowMonth <= 12
    ensures IsValidExpiryAt(value, nowYear, nowMonth) <==>
      (IsValidExpiry(value)
       && ExpiryYear(OnlyDigits(value)) * 12 + ExpiryMonth(OnlyDigits(value))
          >= (nowYear % 100) * 12 + nowMonth)
  {
  }

  // ---------------------------------------------------------------------
  // CVV
  // ---------------------------------------------------------------------

  /** `formatCvv`: the first four digits typed. */
  function FormatCvv(value: string): (r: string)
    ensures AllDigits(r) && |r| <= 4 && |r| <= |OnlyDigits(value)|
    ensures r == OnlyDigits(value)[..|r|]
    ensures |r| < 4 ==> r == OnlyDigits(value)
  {
    Take(OnlyDigits(value), 4)
  }

  /** `isValidCvv`: `/^\d{3,4}$/` on the digits of the input. */
  predicate IsValidCvv(value: string) {
    var digits := OnlyDigits(value);
    AllDigits(digits) && 3 <= |digits| <= 4
  }

  /** A masked CVV is valid exactly when at least three digits were typed. */
  lemma CvvValidAfterMask(value: string)
    ensures IsValidCvv(FormatCvv(value)) <==> |OnlyDigits(value)| >= 3
  {
    OnlyDigitsOfDigits(FormatCvv(value));
  }

  // ---------------------------------------------------------------------
  // Cardholder name
  // ---------------------------------------------------------------------

  /** The class `[A-Za-zÀ-ÿ\s]`: ASCII letters, Latin-1 letters and signs from U+00C0 to U+00FF, whitespace. */
  predicate IsNameChar(c: char) {
    ('A' <= c <= 'Z') || ('a' <= c <= 'z') || ('\U{C0}' <= c <= '\U{FF}') || IsSpace(c)
  }

  /** `sanitizeCardholderName`: drops every character outside the name class. */
  function SanitizeCardholderName(value: string): (r: string)
    ensures forall i :: 0 <= i < |r| ==> IsNameChar(r[i])
    ensures IsSubsequence(r, value)
  {
    FilterIsSubsequence(value, IsNameChar);
    Filter(value, IsNameChar)
  }

  /** Sanitising a sanitised name changes nothing. */
  lemma SanitizeIdempotent(value: string)
    ensures SanitizeCardholderName(SanitizeCardholderName(value)) == SanitizeCardholderName(value)
  {
    FilterIdempotent(value, IsNameChar);
  }

  /** `isValidCardholderName`: the trimmed name is non-empty and all in the name class. */
  predicate IsValidCardholderName(value: string) {
    var t := Trim(value);
    t != [] && forall i :: 0 <= i < |t| ==> IsNameChar(t[i])
  }

  /**
   * A name is valid exactly when trimming leaves something that sanitising
   * does not change.
   */
  lemma CardholderNameIff(value: string)
    ensures IsValidCardholderName(value)
      <==> Trim(value) != [] && SanitizeCardholderName(Trim(value)) == Trim(value)
  {
    var t := Trim(value);
    if forall i :: 0 <= i < |t| ==> IsNameChar(t[i]) {
      FilterAll(t, IsNameChar);
    }
    if SanitizeCardholderName(t) == t {
      assert forall i :: 0 <= i < |t| ==> IsNameChar(t[i]);
    }
  }

  // ---------------------------------------------------------------------
  // Email: /^[^\s@]+@[^\s@]+\.[^\s@]+$/ on the trimmed input
  // ---------------------------------------------------------------------

  /** A non-empty run of the class `[^\s@]`. */
  predicate Plain(s: string) {
    s != [] && '@' !in s && NoSpace(s)
  }

  /** `t` is `local@a.b` with three plain parts. */
  ghost predicate EmailSplit(t: string, local: string, a: string, b: string) {
    t == local + "@" + a + "." + b && Plain(local) && Plain(a) && Plain(b)
  }

  /** The part after the '@': no other '@', and a '.' that is neither its first nor its last character. */
  predicate ValidDomain(domain: string) {
    '@' !in domain && |domain| >= 3 && '.' in domain[1..|domain| - 1]
  }

  /** `isValidEmail`: the test runs on the trimmed input. */
  predicate IsValidEmail(value: string) {
    ValidEmailText(Trim(value))
  }

  /** The test itself, decided by locating the '@' and a '.' inside the domain. */
  predicate ValidEmailText(t: string) {
    var local := Before(t, '@');
    local != [] && |local| < |t| && NoSpace(t) && ValidDomain(t[|local| + 1..])
  }

  lemma PlainSlice(t: string, i: nat, j: nat)
    requires NoSpace(t) && '@' !in t && i < j <= |t|
    ensures Plain(t[i..j])
  {
    assert forall k :: 0 <= k < j - i ==> t[i..j][k] == t[i + k];
  }

  lemma BeforeOfSplit(local: string, rest: string)
    requires '@' !in local
    ensures Before(local + "@" + rest, '@') == local
  {
    var s := local + "@" + rest;
    assert s[|local|] == '@';
  }

  /** Every accepted address splits as the regular expression demands. */
  lemma ValidEmailSound(t: string)
    requires ValidEmailText(t)
    ensures exists l, a, b :: EmailSplit(t, l, a, b)
  {
    var l := Before(t, '@');
    var rest := t[|l| + 1..];
    assert t == l + "@" + rest;
    assert NoSpace(rest) && NoSpace(l) by {
      assert forall k :: 0 <= k < |rest| ==> rest[k] == t[|l| + 1 + k];
    }
    var a, b := DomainParts(rest);
    assert t == l + "@" + a + "." + b;
    assert EmailSplit(t, l, a, b);
  }

  /** A domain without spaces that passes the test is two plain parts around a '.'. */
  lemma DomainParts(rest: string) returns (a: string, b: string)
    requires ValidDomain(rest) && NoSpace(rest)
    ensures rest == a + "." + b && Plain(a) && Plain(b)
  {
    var inner := rest[1..|rest| - 1];
    var k :| 0 <= k < |inner| && inner[k] == '.';
    PlainSlice(rest, 0, k + 1);
    PlainSlice(rest, k + 2, |rest|);
    a, b := rest[..k + 1], rest[k + 2..];
    assert rest == a + "." + b;
  }

  /** Every address the regular expression matches is accepted. */
  lemma ValidEmailComplete(t: string, l: string, a: string, b: string)
    requires EmailSplit(t, l, a, b)
    ensures ValidEmailText(t)
  {
    var domain := a + "." + b;
    BeforeOfSplit(l, domain);
    assert t == l + "@" + domain;
    assert t[|l| + 1..] == domain;
    assert domain[1..|domain| - 1][|a| - 1] == '.';
    NoSpaceJoin(l, "@");
    NoSpaceJoin(l + "@", a);
    NoSpaceJoin(l + "@" + a, ".");
    NoSpaceJoin(l + "@" + a + ".", b);
  }

  lemma NoSpaceJoin(x: string, y: string)
    requires NoSpace(x) && NoSpace(y)
    ensures NoSpace(x + y)
  {
    forall i | 0 <= i < |x + y|
      ensures !IsSpace((x + y)[i])
    {
      if i < |x| {
        assert (x + y)[i] == x[i];
      } else {
        assert (x + y)[i] == y[i - |x|];
      }
    }
  }

  /** The validator accepts exactly the trimmed strings the regular expression matches. */
  lemma IsValidEmailIff(value: string)
    ensures IsValidEmail(value) <==> exists l, a, b :: EmailSplit(Trim(value), l, a, b)
  {
    var t := Trim(value);
    if ValidEmailText(t) {
      ValidEmailSound(t);
    }
    if exists l, a, b :: EmailSplit(t, l, a, b) {
      var l, a, b :| EmailSplit(t, l, a, b);
      ValidEmailComplete(t, l, a, b);
    }
  }
}
