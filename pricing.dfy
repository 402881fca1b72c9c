/**
 * The price engine of src/utils/pricing.js: reading a display price such as
 * "R$ 1.250" into a currency symbol and an amount, writing an amount back in
 * the pt-BR display form, and the party total in which a child pays half the
 * adult price.
 *
 * JavaScript numbers are modelled exactly: an amount is a `real`, and the one
 * non-finite value this module can produce, NaN, is a constructor of its own.
 */
module Pricing {
  import opened Text
  import opened Collections

  /** A JavaScript number as this module produces it. */
  datatype Number = Finite(v: real) | NaN

  /** What `parsePrice` returns: `{ value, symbol }`. */
  datatype Money = Money(value: Number, symbol: string)

  /** What `calculateTotalPrice` returns. */
  datatype Quote = Quote(total: Number, totalFormatted: string, unitValue: Number, symbol: string)

  const DefaultSymbol: string := "R$"

  /** A character of the class `[^\d\s]`. */
  predicate IsSymbolChar(c: char) {
    !IsDigit(c) && !IsSpace(c)
  }

  /** A character of the class `[\d.]`. */
  predicate IsNumberChar(c: char) {
    IsDigit(c) || c == '.'
  }

  predicate AllSymbolChars(s: string) {
    forall i :: 0 <= i < |s| ==> IsSymbolChar(s[i])
  }

  predicate AllNumberChars(s: string) {
    forall i :: 0 <= i < |s| ==> IsNumberChar(s[i])
  }

  predicate AllSpaces(s: string) {
    forall i :: 0 <= i < |s| ==> IsSpace(s[i])
  }

  // ---------------------------------------------------------------------
  // Cleaning: `replace(/\./g, '').replace(',', '.').trim()`
  // ---------------------------------------------------------------------

  /** `s.replace(/\./g, '')`. */
  function RemoveDots(s: string): (r: string)
    ensures '.' !in r
    ensures |r| <= |s|
  {
    if s == [] then [] else (if s[0] == '.' then [] else [s[0]]) + RemoveDots(s[1..])
  }

  lemma {:induction false} RemoveDotsAppend(a: string, b: string)
    ensures RemoveDots(a + b) == RemoveDots(a) + RemoveDots(b)
  {
    if a == [] {
      assert a + b == b;
    } else {
      var head := if a[0] == '.' then [] else [a[0]];
      assert (a + b)[0] == a[0];
      assert (a + b)[1..] == a[1..] + b;
      assert RemoveDots(a + b) == head + RemoveDots(a[1..] + b);
      RemoveDotsAppend(a[1..], b);
      assert RemoveDots(a) == head + RemoveDots(a[1..]);
    }
  }

  lemma {:induction false} RemoveDotsNoDots(s: string)
    requires '.' !in s
    ensures RemoveDots(s) == s
  {
    if s != [] {
      RemoveDotsNoDots(s[1..]);
      assert [s[0]] + s[1..] == s;
    }
  }

  /** `s.replace(',', '.')`: with a string pattern only the first comma is replaced. */
  function ReplaceFirstComma(s: string): (r: string)
    ensures |r| == |s|
  {
    if s == [] then []
    else if s[0] == ',' then ['.'] + s[1..]
    else [s[0]] + ReplaceFirstComma(s[1..])
  }

  lemma {:induction false} ReplaceFirstCommaNoComma(s: string)
    requires ',' !in s
    ensures ReplaceFirstComma(s) == s
  {
    if s != [] {
      ReplaceFirstCommaNoComma(s[1..]);
      assert [s[0]] + s[1..] == s;
    }
  }

  function Clean(s: string): string {
    Trim(ReplaceFirstComma(RemoveDots(s)))
  }

  // ---------------------------------------------------------------------
  // The regular expression `^([^\d\s]+)\s*([\d.]+)$`
  // ---------------------------------------------------------------------

  /** The longest prefix of `s` made of `[^\d\s]` characters. */
  function SymbolRun(s: string): (a: string)
    ensures |a| <= |s| && a == s[..|a|]
    ensures AllSymbolChars(a)
    ensures |a| < |s| ==> !IsSymbolChar(s[|a|])
  {
    if s != [] && IsSymbolChar(s[0]) then [s[0]] + SymbolRun(s[1..]) else []
  }

  /** `s` splits as the regular expression's three parts `a`, `b`, `c`. */
  ghost predicate Decomposes(s: string, a: string, b: string, c: string) {
    && s == a + b + c
    && a != [] && AllSymbolChars(a)
    && AllSpaces(b)
    && c != [] && AllNumberChars(c)
  }

  /**
   * The match of the regular expression against `s`, as the pair (symbol
   * group, number group). The greedy first group takes the whole run of
   * symbol characters, except that it gives back a final '.' when nothing
   * would be left for the number group.
   */
  function MatchPrice(s: string): (r: Option<(string, string)>)
    ensures r.Some? ==> r.value.0 != [] && r.value.1 != [] && AllNumberChars(r.value.1)
  {
    var a := SymbolRun(s);
    var rest := s[|a|..];
    var c := TrimStart(rest);
    if a != [] && c != [] && AllNumberChars(c) then Some((a, c))
    else if |a| >= 2 && a[|a| - 1] == '.' && rest == [] then Some((a[..|a| - 1], "."))
    else None
  }

  lemma TrimStartAfterSpaces(b: string, c: string)
    requires AllSpaces(b) && (c != [] ==> !IsSpace(c[0]))
    ensures TrimStart(b + c) == c
    decreases |b|
  {
    if b != [] {
      assert (b + c)[1..] == b[1..] + c;
      TrimStartAfterSpaces(b[1..], c);
    } else {
      assert b + c == c;
    }
  }

  lemma {:induction false} SymbolRunOf(a: string, b: string)
    requires AllSymbolChars(a) && (b != [] ==> !IsSymbolChar(b[0]))
    ensures SymbolRun(a + b) == a
  {
    if a == [] {
      assert a + b == b;
    } else {
      assert (a + b)[1..] == a[1..] + b;
      SymbolRunOf(a[1..], b);
      assert [a[0]] + a[1..] == a;
    }
  }

  /** Every match found is a split of `s` into the three groups. */
  lemma MatchPriceSound(s: string)
    requires MatchPrice(s).Some?
    ensures exists b :: Decomposes(s, MatchPrice(s).value.0, b, MatchPrice(s).value.1)
  {
    var a := SymbolRun(s);
    var rest := s[|a|..];
    var c := TrimStart(rest);
    if a != [] && c != [] && AllNumberChars(c) {
      var b := rest[..|rest| - |c|];
      assert s == a + b + c;
      assert Decomposes(s, a, b, c);
    } else {
      assert s == a[..|a| - 1] + [] + ".";
      assert Decomposes(s, a[..|a| - 1], [], ".");
    }
  }

  /**
   * When some split into the three groups exists, a match is found, and its
   * symbol group is the longest possible: the greedy choice of the regular
   * expression engine.
   */
  lemma SymbolRunLongest(s: string, a': string)
    requires |a'| <= |s| && a' == s[..|a'|] && AllSymbolChars(a')
    ensures |a'| <= |SymbolRun(s)|
  {
  }

  /** When the whole symbol run can be kept, it is the symbol group. */
  lemma MatchKeepsRun(s: string, b: string, c: string)
    requires SymbolRun(s) != [] && s[|SymbolRun(s)|..] == b + c
    requires AllSpaces(b) && c != [] && AllNumberChars(c)
    ensures MatchPrice(s) == Some((SymbolRun(s), c))
  {
    assert !IsSpace(c[0]);
    TrimStartAfterSpaces(b, c);
  }

  /**
   * When a split exists whose symbol group is a proper prefix of the symbol
   * run, the match still keeps at least that much of the run.
   */
  lemma MatchBacksOff(s: string, k: nat, c: string)
    requires 0 < k < |SymbolRun(s)| && s[k..] == c && AllNumberChars(c)
    ensures MatchPrice(s).Some? && k <= |MatchPrice(s).value.0|
  {
    var a := SymbolRun(s);
    var rest := s[|a|..];
    assert rest == c[|a| - k..];
    if rest != [] {
      MatchKeepsRun(s, [], rest);
    } else {
      var last := a[|a| - 1];
      assert last == c[|a| - 1 - k];
      assert IsNumberChar(last) && IsSymbolChar(last);
      assert last == '.';
    }
  }

  /**
   * When some split into the three groups exists, a match is found, and its
   * symbol group is the longest possible: the greedy choice of the regular
   * expression engine.
   */
  lemma MatchPriceGreedy(s: string, a': string, b': string, c': string)
    requires Decomposes(s, a', b', c')
    ensures MatchPrice(s).Some?
    ensures |a'| <= |MatchPrice(s).value.0|
  {
    var a := SymbolRun(s);
    assert s == a' + (b' + c');
    SymbolRunLongest(s, a');
    if |a'| == |a| {
      assert s[|a|..] == b' + c';
      MatchKeepsRun(s, b', c');
    } else {
      assert s[|a'|] == a[|a'|];
      assert b' == [];
      assert s[|a'|..] == c';
      MatchBacksOff(s, |a'|, c');
    }
  }

  // ---------------------------------------------------------------------
  // `parseFloat` on strings of digits and dots
  // ---------------------------------------------------------------------

  /** The longest prefix of `s` made of digits. */
  function LeadingDigits(s: string): (r: string)
    ensures |r| <= |s| && r == s[..|r|]
    ensures AllDigits(r)
    ensures |r| < |s| ==> !IsDigit(s[|r|])
  {
    if s != [] && IsDigit(s[0]) then [s[0]] + LeadingDigits(s[1..]) else []
  }

  /**
   * `parseFloat(t)` for a string of digits and dots: the longest prefix of
   * the form `digits [. digits]` holding at least one digit, or NaN.
   */
  function ParseFloat(t: string): (r: Number)
    ensures r.Finite? ==> r.v >= 0.0
  {
    var ip := LeadingDigits(t);
    var after := t[|ip|..];
    var fp := if after != [] && after[0] == '.' then LeadingDigits(after[1..]) else [];
    if ip == [] && fp == [] then NaN
    else Finite(DigitsValue(ip) as real + DigitsValue(fp) as real / Pow10(|fp|) as real)
  }

  lemma ParseFloatOfDigits(d: string)
    requires AllDigits(d) && d != []
    ensures ParseFloat(d) == Finite(DigitsValue(d) as real)
  {
    LeadingDigitsOfDigits(d);
    assert d[|d|..] == [];
  }

  lemma {:induction false} LeadingDigitsOfDigits(d: string)
    requires AllDigits(d)
    ensures LeadingDigits(d) == d
  {
    if d != [] {
      LeadingDigitsOfDigits(d[1..]);
      assert [d[0]] + d[1..] == d;
    }
  }

  /** `s.replace(/[^\d.]/g, '')`. */
  function KeepNumberChars(s: string): (r: string)
    ensures AllNumberChars(r)
  {
    if s == [] then []
    else (if IsNumberChar(s[0]) then [s[0]] else []) + KeepNumberChars(s[1..])
  }

  // ---------------------------------------------------------------------
  // parsePrice
  // ---------------------------------------------------------------------

  /**
   * `parsePrice(priceStr)`; `None` stands for a missing or non-string
   * argument. It never fails: a malformed price falls back to the digits and
   * dots it holds and to the default symbol.
   */
  function ParsePrice(priceStr: Option<string>): (m: Money)
    ensures m.symbol != []
    ensures m.value.Finite? ==> m.value.v >= 0.0
    ensures priceStr.None? || priceStr == Some("") ==> m == Money(Finite(0.0), DefaultSymbol)
  {
    if priceStr.None? || priceStr.value == [] then Money(Finite(0.0), DefaultSymbol)
    else
      var clean := Clean(priceStr.value);
      var matched := MatchPrice(clean);
      if matched.Some? then Money(ParseFloat(matched.value.1), matched.value.0)
      else
        // `parseFloat(...) || 0`: NaN falls back to 0
        var f := ParseFloat(KeepNumberChars(clean));
        Money(if f.NaN? then Finite(0.0) else f, DefaultSymbol)
  }

  /**
   * A non-empty price the pattern rejects is read in the default symbol from
   * its digits and dots alone; when those hold no number it is 0, so the
   * value is never NaN.
   */
  lemma {:induction false} ParsePriceFallback(priceStr: string)
    requires priceStr != [] && MatchPrice(Clean(priceStr)).None?
    ensures var f := ParseFloat(KeepNumberChars(Clean(priceStr)));
      && ParsePrice(Some(priceStr)).symbol == DefaultSymbol
      && ParsePrice(Some(priceStr)).value.Finite?
      && (f.Finite? ==> ParsePrice(Some(priceStr)).value == f)
      && (f.NaN? ==> ParsePrice(Some(priceStr)).value == Finite(0.0))
  {
  }

  /**
   * A count followed by words ("12 reais") does not fit the pattern, whose
   * symbol must come first, and reads as the count in the default symbol.
   */
  lemma {:induction false} ParseCountThenWords(d: string, w: string)
    requires AllDigits(d) && d != []
    requires NoDigits(w) && '.' !in w && ',' !in w
    requires w != [] ==> !IsSpace(w[|w| - 1])
    ensures ParsePrice(Some(d + w)) == Money(Finite(DigitsValue(d) as real), DefaultSymbol)
  {
    var s := d + w;
    CleanPlain(s);
    UnmatchedDigitFirst(s);
    KeepDigitsThenWords(d, w);
    ParseFloatOfDigits(d);
    ParsePriceFallback(s);
  }

  /**
   * A decimal written with a comma and followed by words ("1,5x") reads, in
   * the default symbol, with the comma as the decimal point.
   */
  lemma {:induction false} ParseCommaDecimal(d1: string, d2: string, w: string)
    requires AllDigits(d1) && d1 != [] && AllDigits(d2) && d2 != []
    requires NoDigits(w) && '.' !in w && ',' !in w
    requires w != [] ==> !IsSpace(w[|w| - 1])
    ensures ParsePrice(Some(d1 + "," + d2 + w)) ==
              Money(Finite(DigitsValue(d1) as real + DigitsValue(d2) as real / Pow10(|d2|) as real), DefaultSymbol)
  {
    var s := d1 + "," + d2 + w;
    var n := d1 + "." + d2;
    CleanCommaDecimal(d1, d2, w);
    UnmatchedDigitFirst(n + w);
    KeepDecimalThenWords(d1, d2, w);
    ParseFloatDecimal(d1, d2);
    ParsePriceFallback(s);
  }

  /** Text without dots, commas or surrounding whitespace is already clean. */
  lemma {:induction false} CleanPlain(s: string)
    requires '.' !in s && ',' !in s
    requires s != [] ==> !IsSpace(s[0]) && !IsSpace(s[|s| - 1])
    ensures Clean(s) == s
  {
    RemoveDotsNoDots(s);
    ReplaceFirstCommaNoComma(s);
    TrimNoOp(s);
  }

  /** Cleaning turns the one comma of a decimal into its point. */
  lemma {:induction false} CleanCommaDecimal(d1: string, d2: string, w: string)
    requires AllDigits(d1) && d1 != [] && AllDigits(d2) && d2 != []
    requires '.' !in w && ',' !in w
    requires w != [] ==> !IsSpace(w[|w| - 1])
    ensures Clean(d1 + "," + d2 + w) == d1 + "." + d2 + w
  {
    var rest := d2 + w;
    assert d1 + "," + d2 + w == d1 + "," + rest;
    assert d1 + "." + d2 + w == d1 + "." + rest;
    assert '.' !in rest && ',' !in d1 && '.' !in d1;
    assert rest != [] && !IsSpace(rest[|rest| - 1]);
    CleanCommaThenRest(d1, rest);
  }

  lemma {:induction false} CleanCommaThenRest(a: string, rest: string)
    requires a != [] && !IsSpace(a[0]) && '.' !in a && ',' !in a
    requires rest != [] && !IsSpace(rest[|rest| - 1]) && '.' !in rest
    ensures Clean(a + "," + rest) == a + "." + rest
  {
    var s := a + "," + rest;
    assert '.' !in s;
    RemoveDotsNoDots(s);
    CommaToPoint(a, rest);
    var t := a + "." + rest;
    assert t[0] == a[0] && t[|t| - 1] == rest[|rest| - 1];
    TrimNoOp(t);
  }

  /** With no comma before it, the first comma is the one replaced. */
  lemma {:induction false} CommaToPoint(a: string, rest: string)
    requires ',' !in a
    ensures ReplaceFirstComma(a + "," + rest) == a + "." + rest
  {
    var tail := [','] + rest;
    assert a + "," + rest == a + tail;
    ReplaceFirstCommaAfter(a, tail);
    assert tail[1..] == rest;
    assert a + "." + rest == a + (['.'] + rest);
  }

  /** The pattern needs a symbol first, so text starting with a digit fails it. */
  lemma {:induction false} UnmatchedDigitFirst(s: string)
    requires s != [] && IsDigit(s[0])
    ensures MatchPrice(s).None?
  {
    assert SymbolRun(s) == [];
  }

  lemma {:induction false} KeepDigitsThenWords(d: string, w: string)
    requires AllDigits(d)
    requires NoDigits(w) && '.' !in w
    ensures KeepNumberChars(d + w) == d
  {
    KeepNumberCharsAppend(d, w);
    KeepNumberCharsOfNumberChars(d);
    KeepNumberCharsNone(w);
  }

  lemma {:induction false} KeepDecimalThenWords(d1: string, d2: string, w: string)
    requires AllDigits(d1) && AllDigits(d2)
    requires NoDigits(w) && '.' !in w
    ensures KeepNumberChars(d1 + "." + d2 + w) == d1 + "." + d2
  {
    var n := d1 + "." + d2;
    KeepNumberCharsAppend(n, w);
    KeepNumberCharsOfNumberChars(n);
    KeepNumberCharsNone(w);
  }

  /** `parseFloat("d1.d2")` is d1 and d2 tenths, hundredths, ... */
  lemma {:induction false} ParseFloatDecimal(d1: string, d2: string)
    requires AllDigits(d1) && d1 != [] && AllDigits(d2)
    ensures ParseFloat(d1 + "." + d2) == Finite(DigitsValue(d1) as real + DigitsValue(d2) as real / Pow10(|d2|) as real)
  {
    var n := d1 + "." + d2;
    PointedParts(d1, d2);
    var ip := LeadingDigits(n);
    var after := n[|ip|..];
    assert after != [] && after[0] == '.';
    var fp := LeadingDigits(after[1..]);
    assert ip == d1 && fp == d2;
  }

  /** In "d1.d2" the leading digits are d1, and after the point come the digits d2. */
  lemma {:induction false} PointedParts(d1: string, d2: string)
    requires AllDigits(d1) && AllDigits(d2)
    ensures LeadingDigits(d1 + "." + d2) == d1
    ensures (d1 + "." + d2)[|d1|..] == "." + d2
    ensures LeadingDigits(("." + d2)[1..]) == d2
  {
    var after := "." + d2;
    assert d1 + "." + d2 == d1 + after;
    LeadingDigitsThen(d1, after);
    assert after[1..] == d2;
    LeadingDigitsOfDigits(d2);
  }

  lemma {:induction false} KeepNumberCharsAppend(a: string, b: string)
    ensures KeepNumberChars(a + b) == KeepNumberChars(a) + KeepNumberChars(b)
  {
    if a == [] {
      assert a + b == b;
    } else {
      assert (a + b)[1..] == a[1..] + b;
      KeepNumberCharsAppend(a[1..], b);
    }
  }

  lemma {:induction false} KeepNumberCharsOfNumberChars(s: string)
    requires AllNumberChars(s)
    ensures KeepNumberChars(s) == s
  {
    if s != [] {
      KeepNumberCharsOfNumberChars(s[1..]);
      assert [s[0]] + s[1..] == s;
    }
  }

  lemma {:induction false} KeepNumberCharsNone(s: string)
    requires NoDigits(s) && '.' !in s
    ensures KeepNumberChars(s) == []
  {
    if s != [] {
      assert s[0] in s;
      KeepNumberCharsNone(s[1..]);
    }
  }

  lemma {:induction false} ReplaceFirstCommaAfter(a: string, b: string)
    requires ',' !in a
    ensures ReplaceFirstComma(a + b) == a + ReplaceFirstComma(b)
  {
    if a == [] {
      assert a + b == b;
    } else {
      assert a[0] in a;
      assert (a + b)[1..] == a[1..] + b;
      ReplaceFirstCommaAfter(a[1..], b);
    }
  }

  lemma {:induction false} LeadingDigitsThen(d: string, r: string)
    requires AllDigits(d)
    requires r != [] ==> !IsDigit(r[0])
    ensures LeadingDigits(d + r) == d
  {
    if d == [] {
      assert d + r == r;
    } else {
      assert (d + r)[1..] == d[1..] + r;
      LeadingDigitsThen(d[1..], r);
    }
  }

  /**
   * A split whose symbol group is followed by a space or a digit is the
   * match: the symbol run cannot be extended.
   */
  lemma MatchOfSplit(s: string, a: string, b: string, c: string)
    requires Decomposes(s, a, b, c)
    requires b != [] || IsDigit(c[0])
    ensures MatchPrice(s) == Some((a, c))
  {
    assert s == a + (b + c);
    assert !IsSymbolChar((b + c)[0]);
    SymbolRunOf(a, b + c);
    assert s[|a|..] == b + c;
    MatchKeepsRun(s, b, c);
  }

  /**
   * A price that cleans to symbol, optional spaces, digits and dots is read
   * as exactly that symbol and the number its tail denotes.
   */
  lemma ParsePriceWellFormed(priceStr: string, a: string, b: string, c: string)
    requires Decomposes(Clean(priceStr), a, b, c)
    requires b != [] || IsDigit(c[0])
    ensures ParsePrice(Some(priceStr)) == Money(ParseFloat(c), a)
  {
    MatchOfSplit(Clean(priceStr), a, b, c);
  }

  /** Without a digit `parseFloat` finds no number. */
  lemma ParseFloatNoDigits(t: string)
    requires NoDigits(t)
    ensures ParseFloat(t) == NaN
  {
    assert LeadingDigits(t) == [];
    if t != [] && t[0] == '.' {
      assert LeadingDigits(t[1..]) == [];
    }
  }

  /** A malformed price with no digit at all reads as 0 in the default symbol. */
  lemma ParsePriceNoDigits(priceStr: string)
    requires MatchPrice(Clean(priceStr)).None?
    requires NoDigits(priceStr)
    ensures ParsePrice(Some(priceStr)) == Money(Finite(0.0), DefaultSymbol)
  {
    if priceStr != [] {
      NoDigitsThroughCleaning(priceStr);
      KeepNumberCharsNoDigits(Clean(priceStr));
      ParseFloatNoDigits(KeepNumberChars(Clean(priceStr)));
    }
  }

  lemma NoDigitsThroughCleaning(s: string)
    requires NoDigits(s)
    ensures NoDigits(Clean(s))
  {
    NoDigitsRemoveDots(s);
    NoDigitsReplaceFirstComma(RemoveDots(s));
    var t := ReplaceFirstComma(RemoveDots(s));
    var r := Trim(t);
    var i := |t| - |TrimStart(t)|;
    TrimOccurs(t);
    assert forall k :: 0 <= k < |r| ==> r[k] == t[i + k];
  }

  lemma {:induction false} NoDigitsRemoveDots(s: string)
    requires NoDigits(s)
    ensures NoDigits(RemoveDots(s))
  {
    if s != [] {
      NoDigitsRemoveDots(s[1..]);
    }
  }

  lemma {:induction false} NoDigitsReplaceFirstComma(s: string)
    requires NoDigits(s)
    ensures NoDigits(ReplaceFirstComma(s))
  {
    if s != [] && s[0] != ',' {
      NoDigitsReplaceFirstComma(s[1..]);
    }
  }

  lemma {:induction false} KeepNumberCharsNoDigits(s: string)
    requires NoDigits(s)
    ensures NoDigits(KeepNumberChars(s))
  {
    if s != [] {
      KeepNumberCharsNoDigits(s[1..]);
    }
  }

  // ---------------------------------------------------------------------
  // formatPrice: `Intl.NumberFormat('pt-BR', { maximumFractionDigits: 0 })`
  // ---------------------------------------------------------------------

  /**
   * Rounding a non-negative amount to a whole number, halves away from zero
   * (the "halfExpand" mode of ECMA-402 number formatting): the unique
   * integer `r` with `r - 1/2 <= x < r + 1/2`.
   */
  function RoundHalfExpand(x: real): (r: nat)
    requires x >= 0.0
    ensures r as real - 0.5 <= x < r as real + 0.5
  {
    (x + 0.5).Floor
  }

  /** The three digits of `m < 1000`, zero-padded. */
  function ThreeDigits(m: nat): (t: string)
    requires m < 1000
    ensures |t| == 3 && AllDigits(t) && DigitsValue(t) == m
  {
    var h, d, u := m / 100, m / 10 % 10, m % 10;
    var t := [DigitChar(h), DigitChar(d), DigitChar(u)];
    var ht := [DigitChar(h)];
    assert ht[..0] == [] && DigitsValue(ht) == h;
    assert t[..2][..1] == ht;
    assert DigitsValue(t[..2]) == 10 * h + d;
    t
  }

  /**
   * The layout of a grouped numeral: digits, with a '.' exactly at the
   * positions that have a multiple of four characters from there to the end,
   * so every group after the first holds three digits.
   */
  predicate GroupedShape(r: string) {
    && r != [] && r[0] != '.'
    && (forall i :: 0 <= i < |r| ==> (r[i] == '.' <==> (|r| - i) % 4 == 0))
    && (forall i :: 0 <= i < |r| ==> r[i] == '.' || IsDigit(r[i]))
  }

  lemma GroupedSmall(n: nat)
    requires n < 1000
    ensures GroupedShape(NatToString(n))
    ensures RemoveDots(NatToString(n)) == NatToString(n)
    ensures DigitsValue(NatToString(n)) == n
  {
    NatToStringValue(n);
    NatToStringLength(n, if n < 10 then 1 else if n < 100 then 2 else 3);
    RemoveDotsNoDots(NatToString(n));
  }

  lemma GroupedStepShape(g: string, t: string)
    requires GroupedShape(g) && |t| == 3 && AllDigits(t)
    ensures GroupedShape(g + "." + t)
  {
    var r := g + "." + t;
    forall i | 0 <= i < |r|
      ensures (r[i] == '.' <==> (|r| - i) % 4 == 0) && (r[i] == '.' || IsDigit(r[i]))
    {
      if i < |g| {
        assert r[i] == g[i];
        assert |r| - i == (|g| - i) + 4;
      } else if i > |g| {
        assert r[i] == t[i - |g| - 1];
      }
    }
  }

  lemma GroupedStepValue(g: string, t: string, n: nat)
    requires n >= 1000
    requires AllDigits(RemoveDots(g)) && DigitsValue(RemoveDots(g)) == n / 1000
    requires |t| == 3 && AllDigits(t) && DigitsValue(t) == n % 1000
    ensures RemoveDots(g + "." + t) == RemoveDots(g) + t
    ensures AllDigits(RemoveDots(g + "." + t))
    ensures DigitsValue(RemoveDots(g + "." + t)) == n
  {
    var d := RemoveDots(g);
    assert g + "." + t == g + ("." + t);
    RemoveDotsAppend(g, "." + t);
    RemoveDotsAppend(".", t);
    RemoveDotsNoDots(t);
    assert RemoveDots(".") == [];
    assert "" + t == t;
    DigitsValueAppend(d, t);
    assert Pow10(3) == 1000;
    var hi := DigitsValue(d);
    assert DigitsValue(d + t) == hi * 1000 + DigitsValue(t);
    assert hi * 1000 + n % 1000 == n;
  }

  /**
   * The pt-BR grouping of `n`: its digits with a '.' before every group of
   * three digits counted from the right. Deleting the dots gives back a
   * numeral of `n`.
   */
  function Grouped(n: nat): (r: string)
    ensures GroupedShape(r)
    ensures RemoveDots(r) != [] && AllDigits(RemoveDots(r)) && DigitsValue(RemoveDots(r)) == n
  {
    if n < 1000 then
      GroupedSmall(n);
      NatToString(n)
    else
      var g := Grouped(n / 1000);
      var t := ThreeDigits(n % 1000);
      GroupedStepShape(g, t);
      GroupedStepValue(g, t, n);
      g + "." + t
  }

  /** The text of a number as the pt-BR formatter prints it without decimals. */
  function FormatNumber(value: Number): string {
    match value
    case NaN => "NaN"
    case Finite(v) =>
      if v < 0.0 then "-" + Grouped(RoundHalfExpand(-v)) else Grouped(RoundHalfExpand(v))
  }

  /** `formatPrice(value, symbol = 'R$')`: the symbol, one space, the grouped amount. */
  function FormatPrice(value: Number, symbol: string := DefaultSymbol): (r: string)
    ensures |r| > |symbol| && r[..|symbol|] == symbol && r[|symbol|] == ' '
  {
    symbol + " " + FormatNumber(value)
  }

  /** A symbol `formatPrice` can write and `parsePrice` can read back. */
  predicate ReadableSymbol(symbol: string) {
    symbol != [] && AllSymbolChars(symbol) && '.' !in symbol && ',' !in symbol
  }

  /** A whole, non-negative amount is printed as its grouping. */
  lemma FormatWhole(n: nat, symbol: string)
    ensures FormatPrice(Finite(n as real), symbol) == symbol + " " + Grouped(n)
  {
    assert RoundHalfExpand(n as real) == n;
  }

  /** Cleaning a formatted whole amount removes exactly its group dots. */
  lemma CleanFormatted(symbol: string, g: string)
    requires ReadableSymbol(symbol) && GroupedShape(g)
    requires AllDigits(RemoveDots(g)) && RemoveDots(g) != []
    ensures Clean(symbol + " " + g) == symbol + " " + RemoveDots(g)
  {
    var d := RemoveDots(g);
    var spaced := symbol + " " + d;
    assert RemoveDots(symbol + " " + g) == spaced by {
      RemoveDotsAppend(symbol + " ", g);
      RemoveDotsNoDots(symbol + " ");
    }
    assert ReplaceFirstComma(spaced) == spaced by {
      NoCommaBeforeDigits(symbol + " ", d);
      ReplaceFirstCommaNoComma(spaced);
    }
    assert Trim(spaced) == spaced by {
      assert spaced[0] == symbol[0] && spaced[|spaced| - 1] == d[|d| - 1];
      TrimNoOp(spaced);
    }
  }

  lemma NoCommaBeforeDigits(x: string, d: string)
    requires ',' !in x && AllDigits(d)
    ensures ',' !in x + d
  {
    forall i | 0 <= i < |x + d|
      ensures (x + d)[i] != ','
    {
      if i >= |x| {
        assert (x + d)[i] == d[i - |x|];
      }
    }
  }

  /**
   * Reading back a formatted whole amount gives the amount and the symbol,
   * for any symbol made of characters that are neither digits, whitespace,
   * '.' nor ','.
   */
  lemma FormatParseRoundTrip(n: nat, symbol: string)
    requires ReadableSymbol(symbol)
    ensures ParsePrice(Some(FormatPrice(Finite(n as real), symbol))) == Money(Finite(n as real), symbol)
  {
    var g := Grouped(n);
    var d := RemoveDots(g);
    FormatWhole(n, symbol);
    CleanFormatted(symbol, g);
    var cleaned := symbol + " " + d;
    assert Decomposes(cleaned, symbol, " ", d);
    ParsePriceWellFormed(symbol + " " + g, symbol, " ", d);
    ParseFloatOfDigits(d);
  }

  // ---------------------------------------------------------------------
  // calculateTotalPrice
  // ---------------------------------------------------------------------

  /** Multiplication of a JavaScript number by a whole count. */
  function Times(k: int, x: Number): Number {
    match x
    case NaN => NaN
    case Finite(v) => Finite(k as real * v)
  }

  function Plus(x: Number, y: Number): Number {
    if x.Finite? && y.Finite? then Finite(x.v + y.v) else NaN
  }

  function Half(x: Number): Number {
    match x
    case NaN => NaN
    case Finite(v) => Finite(v * 0.5)
  }

  /** The party total for a unit price: `adults * unit + children * (unit * 0.5)`. */
  function Total(unit: Number, adults: int, children: int): Number {
    Plus(Times(adults, unit), Times(children, Half(unit)))
  }

  /**
   * `calculateTotalPrice(priceStr, adults = 1, children = 0)`: each adult pays
   * the unit price and each child half of it. The counts are not validated.
   */
  function CalculateTotalPrice(priceStr: Option<string>, adults: int := 1, children: int := 0): (q: Quote)
    ensures q.unitValue == ParsePrice(priceStr).value && q.symbol == ParsePrice(priceStr).symbol
    ensures q.total == Total(q.unitValue, adults, children)
    ensures q.totalFormatted == FormatPrice(q.total, q.symbol)
  {
    var m := ParsePrice(priceStr);
    var total := Total(m.value, adults, children);
    Quote(total, FormatPrice(total, m.symbol), m.value, m.symbol)
  }

  /** The total is NaN exactly when the unit price is. */
  lemma TotalNaN(unit: Number, adults: int, children: int)
    ensures Total(unit, adults, children).NaN? <==> unit.NaN?
  {
  }

  /** The total is the unit price times the adults plus half the children. */
  lemma TotalIsWeightedCount(unit: real, adults: int, children: int)
    ensures Total(Finite(unit), adults, children) == Finite((adults as real + children as real / 2.0) * unit)
  {
  }

  /** With non-negative counts and price the total is never negative. */
  lemma TotalNonNegative(unit: real, adults: nat, children: nat)
    requires unit >= 0.0
    ensures Total(Finite(unit), adults, children).v >= 0.0
  {
    assert adults as real * unit >= 0.0;
    assert children as real * (unit * 0.5) >= 0.0;
  }

  /** Two children cost the same as one adult. */
  lemma TwoChildrenCostOneAdult(unit: Number, adults: int, children: int)
    ensures Total(unit, adults, children + 2) == Total(unit, adults + 1, children)
  {
  }

  /**
   * Nobody travelling costs nothing and displays as "<symbol> 0". The unit is
   * one a parsed price can have: for a negative unit `0 * unit` is -0, which
   * `Intl.NumberFormat` prints as "-0".
   */
  lemma ZeroTravellers(unit: real, symbol: string)
    requires unit >= 0.0
    ensures Total(Finite(unit), 0, 0) == Finite(0.0)
    ensures FormatPrice(Total(Finite(unit), 0, 0), symbol) == symbol + " 0"
  {
    ZeroTotal(unit);
    FormatZero(symbol);
  }

  lemma ZeroTotal(unit: real)
    ensures Total(Finite(unit), 0, 0) == Finite(0.0)
  {
  }

  lemma FormatZero(symbol: string)
    ensures FormatPrice(Finite(0.0), symbol) == symbol + " 0"
  {
    FormatWhole(0, symbol);
    assert DigitChar(0) == '0';
    assert Grouped(0) == "0";
  }

  /** An amount of a thousand or more is its thousands, a '.', and its last three digits. */
  lemma GroupedThousands(n: nat)
    requires n >= 1000
    ensures Grouped(n) == Grouped(n / 1000) + "." + ThreeDigits(n % 1000)
  {
  }

  lemma Grouped1250()
    ensures Grouped(1250) == "1.250"
  {
    GroupedThousands(1250);
    assert Grouped(1) == "1";
    assert ThreeDigits(250) == "250";
  }

  lemma Grouped2248()
    ensures Grouped(2248) == "2.248"
  {
    GroupedThousands(2248);
    assert Grouped(2) == "2";
    assert ThreeDigits(248) == "248";
  }

  /** "R$ 1.250" reads as 1250 reais. */
  lemma ParseThousands()
    ensures ParsePrice(Some("R$ 1.250")) == Money(Finite(1250.0), "R$")
  {
    var text := FormatPrice(Finite(1250 as real), "R$");
    assert text == "R$ 1.250" by {
      Grouped1250();
      FormatWhole(1250, "R$");
    }
    assert ParsePrice(Some(text)) == Money(Finite(1250 as real), "R$") by {
      assert ReadableSymbol("R$");
      FormatParseRoundTrip(1250, "R$");
    }
  }

  /** "R$ 899" reads as 899 reais. */
  lemma ParseDefaultDestinationPrice()
    ensures ParsePrice(Some("R$ 899")) == Money(Finite(899.0), "R$")
  {
    var text := FormatPrice(Finite(899 as real), "R$");
    assert text == "R$ 899" by {
      assert Grouped(899) == "899";
      FormatWhole(899, "R$");
    }
    assert ParsePrice(Some(text)) == Money(Finite(899 as real), "R$") by {
      assert ReadableSymbol("R$");
      FormatParseRoundTrip(899, "R$");
    }
  }

  /** 2247.5 is shown rounded up as "R$ 2.248". */
  lemma FormatHalfRoundsUp()
    ensures FormatPrice(Finite(2247.5)) == "R$ 2.248"
  {
    assert RoundHalfExpand(2247.5) == 2248;
    Grouped2248();
  }

  /** Two adults and a child at "R$ 899" pay 2247.5, shown rounded as "R$ 2.248". */
  lemma PartyExample()
    ensures CalculateTotalPrice(Some("R$ 899"), 2, 1)
      == Quote(Finite(2247.5), "R$ 2.248", Finite(899.0), "R$")
  {
    ParseDefaultDestinationPrice();
    assert Total(Finite(899.0), 2, 1) == Finite(2247.5);
    FormatHalfRoundsUp();
  }
}
