/**
 * String helpers shared by every screen: the character classes of
 * JavaScript regular expressions (`\d`, `\s`), `String.prototype.trim`,
 * `toLowerCase`, `includes`, `split`/`join`, `slice`, `padStart` and the
 * decimal rendering of integers done by `String(n)`.
 */
module Text {

  // ---------------------------------------------------------------------
  // Character classes
  // ---------------------------------------------------------------------

  /** The `\d` class: an ASCII decimal digit. */
  predicate IsDigit(c: char) {
    '0' <= c <= '9'
  }

  predicate AllDigits(s: string) {
    forall i :: 0 <= i < |s| ==> IsDigit(s[i])
  }

  /** The `\s` class, which is also the set of characters `trim` removes. */
  predicate IsSpace(c: char) {
    c == ' ' || c == '\t' || c == '\n' || c == '\r' || c == '\U{B}' || c == '\U{C}'
    || c == '\U{A0}' || c == '\U{1680}' || ('\U{2000}' <= c <= '\U{200A}')
    || c == '\U{2028}' || c == '\U{2029}' || c == '\U{202F}' || c == '\U{205F}'
    || c == '\U{3000}' || c == '\U{FEFF}'
  }

  predicate NoDigits(s: string) {
    forall i :: 0 <= i < |s| ==> !IsDigit(s[i])
  }

  predicate NoSpace(s: string) {
    forall i :: 0 <= i < |s| ==> !IsSpace(s[i])
  }

  function DigitValue(c: char): (v: nat)
    requires IsDigit(c)
    ensures v < 10
  {
    (c as int) - ('0' as int)
  }

  function DigitChar(v: nat): (c: char)
    requires v < 10
    ensures IsDigit(c) && DigitValue(c) == v
  {
    (('0' as int) + v) as char
  }

  // ---------------------------------------------------------------------
  // `value.replace(/\D/g, "")`
  // ---------------------------------------------------------------------

  /** Keeps the digits of `s`, in order. */
  function OnlyDigits(s: string): (r: string)
    ensures AllDigits(r)
    ensures |r| <= |s|
  {
    if s == [] then []
    else (if IsDigit(s[0]) then [s[0]] else []) + OnlyDigits(s[1..])
  }

  lemma {:induction false} OnlyDigitsOfDigits(s: string)
    requires AllDigits(s)
    ensures OnlyDigits(s) == s
  {
    if s != [] {
      OnlyDigitsOfDigits(s[1..]);
    }
  }

  lemma {:induction false} OnlyDigitsAppend(a: string, b: string)
    ensures OnlyDigits(a + b) == OnlyDigits(a) + OnlyDigits(b)
  {
    if a == [] {
      assert a + b == b;
    } else {
      var x := if IsDigit(a[0]) then [a[0]] else [];
      assert (a + b)[1..] == a[1..] + b && (a + b)[0] == a[0];
      OnlyDigitsAppend(a[1..], b);
      assert OnlyDigits(a + b) == x + OnlyDigits(a[1..] + b);
      assert OnlyDigits(a) == x + OnlyDigits(a[1..]);
      assert x + (OnlyDigits(a[1..]) + OnlyDigits(b)) == x + OnlyDigits(a[1..]) + OnlyDigits(b);
    }
  }

  /** Removing the non-digits twice removes nothing more. */
  lemma OnlyDigitsIdempotent(s: string)
    ensures OnlyDigits(OnlyDigits(s)) == OnlyDigits(s)
  {
    OnlyDigitsOfDigits(OnlyDigits(s));
  }

  /** A string made only of non-digits contributes no digits. */
  lemma {:induction false} OnlyDigitsOfNonDigits(s: string)
    requires NoDigits(s)
    ensures OnlyDigits(s) == []
  {
    if s != [] {
      OnlyDigitsOfNonDigits(s[1..]);
    }
  }

  // ---------------------------------------------------------------------
  // `slice(0, n)` and `slice(-4)`
  // ---------------------------------------------------------------------

  /** `s.slice(0, n)`: the first `n` characters, or all of them. */
  function Take(s: string, n: nat): (r: string)
    ensures |r| == if |s| <= n then |s| else n
    ensures r == s[..|r|]
  {
    if |s| <= n then s else s[..n]
  }

  /** `s.slice(-n)`: the last `n` characters, or all of them. */
  function TakeLast(s: string, n: nat): (r: string)
    ensures |r| == if |s| <= n then |s| else n
    ensures r == s[|s| - |r|..]
  {
    if |s| <= n then s else s[|s| - n..]
  }

  // ---------------------------------------------------------------------
  // `trim`
  // ---------------------------------------------------------------------

  /** The number of whitespace characters `s` starts with. */
  function LeadingSpaces(s: string): (n: nat)
    ensures n <= |s|
    ensures n < |s| ==> !IsSpace(s[n])
    ensures forall i :: 0 <= i < n ==> IsSpace(s[i])
  {
    if s != [] && IsSpace(s[0]) then 1 + LeadingSpaces(s[1..]) else 0
  }

  /** The number of whitespace characters `s` ends with. */
  function TrailingSpaces(s: string): (n: nat)
    ensures n <= |s|
    ensures n < |s| ==> !IsSpace(s[|s| - 1 - n])
    ensures forall i :: |s| - n <= i < |s| ==> IsSpace(s[i])
  {
    if s != [] && IsSpace(s[|s| - 1]) then 1 + TrailingSpaces(s[..|s| - 1]) else 0
  }

  /** `trimStart`: `s` without its leading whitespace. */
  function TrimStart(s: string): string {
    s[LeadingSpaces(s)..]
  }

  /** `trimEnd`: `s` without its trailing whitespace. */
  function TrimEnd(s: string): string {
    s[..|s| - TrailingSpaces(s)]
  }

  /**
   * `s.trim()`: the slice of `s` left once the whitespace at both ends
   * is removed; it neither starts nor ends with whitespace.
   */
  function Trim(s: string): (r: string)
    ensures |r| <= |s|
    ensures r != [] ==> !IsSpace(r[0]) && !IsSpace(r[|r| - 1])
  {
    var t := TrimStart(s);
    TrimEnd(t)
  }

  /** The trimmed text is the piece of `s` that follows the leading whitespace. */
  lemma TrimOccurs(s: string)
    ensures OccursAt(s, Trim(s), |s| - |TrimStart(s)|)
  {
    var t := TrimStart(s);
    var r := TrimEnd(t);
    var i := |s| - |t|;
    assert r == t[..|r|];
    assert s[i..i + |r|] == t[..|r|];
  }

  /** Trimming leaves nothing exactly when every character is whitespace. */
  lemma TrimEmpty(s: string)
    ensures Trim(s) == [] <==> forall i :: 0 <= i < |s| ==> IsSpace(s[i])
  {
  }

  lemma TrimNoOp(s: string)
    requires s != [] ==> !IsSpace(s[0]) && !IsSpace(s[|s| - 1])
    ensures Trim(s) == s
  {
  }

  lemma TrimIdempotent(s: string)
    ensures Trim(Trim(s)) == Trim(s)
  {
    TrimNoOp(Trim(s));
  }

  /** Trimming a string without whitespace changes nothing. */
  lemma TrimNoSpace(s: string)
    requires NoSpace(s)
    ensures Trim(s) == s
  {
    TrimNoOp(s);
  }

  /** Whitespace holds no digits. */
  lemma SpacesHaveNoDigits(x: string)
    requires forall i :: 0 <= i < |x| ==> IsSpace(x[i])
    ensures OnlyDigits(x) == []
  {
    forall i | 0 <= i < |x|
      ensures !IsDigit(x[i])
    {
      assert IsSpace(x[i]);
    }
    OnlyDigitsOfNonDigits(x);
  }

  /** Trimming removes no digits: the whitespace it drops holds none. */
  lemma OnlyDigitsTrim(s: string)
    ensures OnlyDigits(Trim(s)) == OnlyDigits(s)
  {
    var t := TrimStart(s);
    var r := TrimEnd(t);
    var i := |s| - |t|;
    var front, back := s[..i], t[|r|..];
    assert s == front + t;
    assert t == r + back;
    assert forall k :: 0 <= k < |front| ==> IsSpace(front[k]);
    assert forall k :: 0 <= k < |back| ==> IsSpace(back[k]) by {
      forall k | 0 <= k < |back| ensures IsSpace(back[k]) {
        assert back[k] == t[|r| + k];
      }
    }
    SpacesHaveNoDigits(front);
    SpacesHaveNoDigits(back);
    OnlyDigitsAppend(front, t);
    OnlyDigitsAppend(r, back);
  }

  // ---------------------------------------------------------------------
  // `toLowerCase` and `toUpperCase`
  // ---------------------------------------------------------------------

  /**
   * Lower-casing of one character: ASCII and Latin-1 capitals map to their
   * small letters, every other character is kept.
   */
  function Lower(c: char): char {
    if 'A' <= c <= 'Z' || ('\U{C0}' <= c <= '\U{DE}' && c != '\U{D7}') then
      ((c as int) + 32) as char
    else c
  }

  /** Upper-casing of one character, the inverse of `Lower` on Latin-1 letters. */
  function Upper(c: char): char {
    if 'a' <= c <= 'z' || ('\U{E0}' <= c <= '\U{FE}' && c != '\U{F7}') then
      ((c as int) - 32) as char
    else c
  }

  function LowerStr(s: string): (r: string)
    ensures |r| == |s|
    ensures forall i :: 0 <= i < |s| ==> r[i] == Lower(s[i])
  {
    if s == [] then [] else [Lower(s[0])] + LowerStr(s[1..])
  }

  function UpperStr(s: string): (r: string)
    ensures |r| == |s|
    ensures forall i :: 0 <= i < |s| ==> r[i] == Upper(s[i])
  {
    if s == [] then [] else [Upper(s[0])] + UpperStr(s[1..])
  }

  lemma LowerIdempotent(c: char)
    ensures Lower(Lower(c)) == Lower(c)
  {
  }

  // ---------------------------------------------------------------------
  // `includes`
  // ---------------------------------------------------------------------

  /** `needle` occurs in `hay` starting at position `i`. */
  predicate OccursAt(hay: string, needle: string, i: int) {
    0 <= i <= |hay| - |needle| && hay[i..i + |needle|] == needle
  }

  /** `hay.includes(needle)`, computed by scanning from the left. */
  function Contains(hay: string, needle: string): bool
    decreases |hay|
  {
    (|needle| <= |hay| && hay[..|needle|] == needle)
    || (hay != [] && Contains(hay[1..], needle))
  }

  /** The scan finds `needle` exactly when it occurs at some position. */
  lemma {:induction false} ContainsIff(hay: string, needle: string)
    ensures Contains(hay, needle) <==> exists i :: OccursAt(hay, needle, i)
    decreases |hay|
  {
    if |needle| <= |hay| && hay[..|needle|] == needle {
      assert OccursAt(hay, needle, 0);
    } else if hay == [] {
      assert forall i :: !OccursAt(hay, needle, i);
    } else {
      ContainsIff(hay[1..], needle);
      if Contains(hay[1..], needle) {
        var i :| OccursAt(hay[1..], needle, i);
        OccursAtTail(hay, needle, i + 1);
      } else {
        forall i | OccursAt(hay, needle, i)
          ensures false
        {
          if i != 0 {
            OccursAtTail(hay, needle, i);
          }
        }
      }
    }
  }

  /** An occurrence after the first position is an occurrence in the tail, one position earlier. */
  lemma OccursAtTail(hay: string, needle: string, i: int)
    requires hay != [] && i != 0
    ensures OccursAt(hay, needle, i) <==> OccursAt(hay[1..], needle, i - 1)
  {
    if 1 <= i <= |hay| - |needle| {
      assert hay[1..][i - 1..i - 1 + |needle|] == hay[i..i + |needle|];
    }
  }

  /** `s.startsWith(prefix)`. */
  predicate StartsWith(s: string, prefix: string) {
    |prefix| <= |s| && s[..|prefix|] == prefix
  }

  lemma ContainsEmpty(hay: string)
    ensures Contains(hay, [])
  {
  }

  // ---------------------------------------------------------------------
  // `split` and `join`
  // ---------------------------------------------------------------------

  /** `parts.join(sep)`. */
  function Join(parts: seq<string>, sep: string): string {
    if parts == [] then []
    else if |parts| == 1 then parts[0]
    else parts[0] + sep + Join(parts[1..], sep)
  }

  lemma JoinSmall(a: string, b: string, sep: string)
    ensures Join([a], sep) == a
    ensures Join([a, b], sep) == a + sep + b
  {
    assert [a, b][1..] == [b];
  }

  /** `s.split(sep)` for a one-character separator. */
  function Split(s: string, sep: char): (parts: seq<string>)
    ensures |parts| >= 1
    ensures forall k :: 0 <= k < |parts| ==> sep !in parts[k]
  {
    if s == [] then [[]]
    else if s[0] == sep then [[]] + Split(s[1..], sep)
    else
      var rest := Split(s[1..], sep);
      [[s[0]] + rest[0]] + rest[1..]
  }

  /** Joining the parts of a split with the separator gives the string back. */
  lemma {:induction false} JoinSplit(s: string, sep: char)
    ensures Join(Split(s, sep), [sep]) == s
  {
    if s == [] {
    } else if s[0] == sep {
      JoinSplit(s[1..], sep);
      assert s == [sep] + s[1..];
    } else {
      JoinSplit(s[1..], sep);
      var rest := Split(s[1..], sep);
      if |rest| == 1 {
      } else {
        assert Join(rest, [sep]) == rest[0] + [sep] + Join(rest[1..], [sep]);
        assert s == [s[0]] + s[1..];
      }
    }
  }

  /** Splitting a string free of the separator gives the string alone. */
  lemma {:induction false} SplitNoSep(s: string, sep: char)
    requires sep !in s
    ensures Split(s, sep) == [s]
  {
    if s != [] {
      SplitNoSep(s[1..], sep);
      assert [s[0]] + s[1..] == s;
    }
  }

  /** Splitting `a + [sep] + b` where `a` is free of the separator. */
  lemma {:induction false} SplitAfter(a: string, sep: char, b: string)
    requires sep !in a
    ensures Split(a + [sep] + b, sep) == [a] + Split(b, sep)
  {
    if a == [] {
      assert a + [sep] + b == [sep] + b;
      assert ([sep] + b)[1..] == b;
    } else {
      assert (a + [sep] + b)[1..] == a[1..] + [sep] + b;
      SplitAfter(a[1..], sep, b);
      assert [a[0]] + a[1..] == a;
    }
  }

  /** The part before the first separator, `s.split(sep)[0]`. */
  function Before(s: string, sep: char): (r: string)
    ensures sep !in r
    ensures |r| <= |s| && r == s[..|r|]
    ensures |r| < |s| ==> s[|r|] == sep
    ensures |r| == |s| <==> sep !in s
  {
    if s == [] || s[0] == sep then [] else [s[0]] + Before(s[1..], sep)
  }

  lemma {:induction false} SplitHeadIsBefore(s: string, sep: char)
    ensures Split(s, sep)[0] == Before(s, sep)
  {
    if s != [] && s[0] != sep {
      SplitHeadIsBefore(s[1..], sep);
    }
  }

  // ---------------------------------------------------------------------
  // Decimal digits of integers
  // ---------------------------------------------------------------------

  function Pow10(k: nat): (p: nat)
    ensures p >= 1
  {
    if k == 0 then 1 else 10 * Pow10(k - 1)
  }

  /** The number a string of digits denotes, read left to right. */
  function DigitsValue(s: string): (v: nat)
    requires AllDigits(s)
  {
    if s == [] then 0 else 10 * DigitsValue(s[..|s| - 1]) + DigitValue(s[|s| - 1])
  }

  /** `String(n)` for a non-negative integer: no leading zeros. */
  function NatToString(n: nat): (s: string)
    ensures AllDigits(s) && |s| >= 1
    ensures s[0] == '0' ==> n == 0
  {
    if n < 10 then [DigitChar(n)] else NatToString(n / 10) + [DigitChar(n % 10)]
  }

  /** `String(n)` for any integer. */
  function IntToString(n: int): (s: string)
    ensures s != []
  {
    if n < 0 then "-" + NatToString(-n) else NatToString(n)
  }

  /** Reading back what `NatToString` printed gives the number. */
  lemma {:induction false} NatToStringValue(n: nat)
    ensures DigitsValue(NatToString(n)) == n
  {
    if n >= 10 {
      NatToStringValue(n / 10);
      var s := NatToString(n);
      assert s[..|s| - 1] == NatToString(n / 10);
    }
  }

  /** Distinct numbers print differently. */
  lemma NatToStringInjective(m: nat, n: nat)
    requires NatToString(m) == NatToString(n)
    ensures m == n
  {
    NatToStringValue(m);
    NatToStringValue(n);
  }

  lemma {:induction false} DigitsValueBound(s: string)
    requires AllDigits(s)
    ensures DigitsValue(s) < Pow10(|s|)
  {
    if s != [] {
      DigitsValueBound(s[..|s| - 1]);
    }
  }

  /** `String(n)` has exactly `k` digits when `n` lies in `[10^(k-1), 10^k)`. */
  lemma {:induction false} NatToStringLength(n: nat, k: nat)
    requires k >= 1 && (k == 1 || Pow10(k - 1) <= n) && n < Pow10(k)
    ensures |NatToString(n)| == k
  {
    if n >= 10 {
      assert k >= 2;
      NatToStringLength(n / 10, k - 1);
    }
  }

  /** The value of a digit string read from its first character. */
  lemma {:induction false} DigitsValueFront(s: string)
    requires AllDigits(s) && s != []
    ensures DigitsValue(s) == DigitValue(s[0]) * Pow10(|s| - 1) + DigitsValue(s[1..])
  {
    if |s| > 1 {
      var init, last := s[..|s| - 1], s[|s| - 1];
      DigitsValueFront(init);
      assert init[1..] == s[1..][..|s| - 2];
      assert init[0] == s[0];
      assert s[1..][|s| - 2] == last;
      assert DigitsValue(s) == 10 * DigitsValue(init) + DigitValue(last);
      assert DigitsValue(s[1..]) == 10 * DigitsValue(init[1..]) + DigitValue(last);
      assert Pow10(|s| - 1) == 10 * Pow10(|s| - 2);
      ShiftDigit(DigitValue(s[0]), Pow10(|s| - 2), DigitsValue(init[1..]), DigitValue(last));
    }
  }

  lemma {:induction false} DigitsValueAppend(a: string, b: string)
    requires AllDigits(a) && AllDigits(b)
    ensures AllDigits(a + b)
    ensures DigitsValue(a + b) == DigitsValue(a) * Pow10(|b|) + DigitsValue(b)
  {
    AllDigitsJoin(a, b);
    if b != [] {
      var b' := b[..|b| - 1];
      var last := b[|b| - 1];
      assert (a + b)[..|a + b| - 1] == a + b';
      assert (a + b)[|a + b| - 1] == last;
      AllDigitsJoin(a, b');
      DigitsValueAppend(a, b');
      assert DigitsValue(a + b) == 10 * DigitsValue(a + b') + DigitValue(last);
      assert DigitsValue(b) == 10 * DigitsValue(b') + DigitValue(last);
      ShiftDigit(DigitsValue(a), Pow10(|b'|), DigitsValue(b'), DigitValue(last));
    } else {
      assert a + b == a;
    }
  }

  lemma AllDigitsJoin(a: string, b: string)
    requires AllDigits(a) && AllDigits(b)
    ensures AllDigits(a + b)
  {
    forall i | 0 <= i < |a + b|
      ensures IsDigit((a + b)[i])
    {
      if i < |a| {
        assert (a + b)[i] == a[i];
      } else {
        assert (a + b)[i] == b[i - |a|];
      }
    }
  }

  /** A digit appended after `x` at weight `p` followed by `v`: the arithmetic of one step. */
  lemma ShiftDigit(x: int, p: int, v: int, d: int)
    ensures 10 * (x * p + v) + d == x * (10 * p) + (10 * v + d)
  {
  }

  // ---------------------------------------------------------------------
  // `padStart(2, "0")`
  // ---------------------------------------------------------------------

  function Pad2(s: string): (r: string)
    ensures |r| == if |s| >= 2 then |s| else 2
  {
    if |s| >= 2 then s else if |s| == 1 then "0" + s else "00"
  }

  /** A number below 100 padded to two digits reads back as itself. */
  lemma Pad2Value(n: nat)
    requires n < 100
    ensures |Pad2(NatToString(n))| == 2 && AllDigits(Pad2(NatToString(n)))
    ensures DigitsValue(Pad2(NatToString(n))) == n
  {
    NatToStringValue(n);
    if n < 10 {
      var s := Pad2(NatToString(n));
      assert s == ['0', DigitChar(n)];
      assert s[..1] == ['0'];
    } else {
      NatToStringLength(n, 2);
    }
  }

  // ---------------------------------------------------------------------
  // String comparison (`<` on strings compares code units left to right)
  // ---------------------------------------------------------------------

  predicate StrLess(a: string, b: string) {
    if a == [] then b != []
    else if b == [] then false
    else if a[0] != b[0] then a[0] < b[0]
    else StrLess(a[1..], b[1..])
  }

  /** Comparing two strings whose first parts have the same length. */
  lemma {:induction false} StrLessAppend(a: string, b: string, c: string, d: string)
    requires |a| == |c|
    ensures StrLess(a + b, c + d) <==> (if a != c then StrLess(a, c) else StrLess(b, d))
  {
    if a != [] {
      assert (a + b)[1..] == a[1..] + b;
      assert (c + d)[1..] == c[1..] + d;
      StrLessAppend(a[1..], b, c[1..], d);
      if a[0] == c[0] && a[1..] == c[1..] {
        assert a == c;
      }
    } else {
      assert a + b == b && c + d == d;
    }
  }

  /** Equal-length digit strings compare as the numbers they denote. */
  lemma {:induction false} StrLessDigits(a: string, b: string)
    requires AllDigits(a) && AllDigits(b) && |a| == |b|
    ensures StrLess(a, b) <==> DigitsValue(a) < DigitsValue(b)
  {
    if a != [] {
      DigitsValueFront(a);
      DigitsValueFront(b);
      DigitsValueBound(a[1..]);
      DigitsValueBound(b[1..]);
      StrLessDigits(a[1..], b[1..]);
      var p := Pow10(|a| - 1);
      var da, db := DigitValue(a[0]), DigitValue(b[0]);
      if da < db {
        LeadingDigitDecides(da, db, p, DigitsValue(a[1..]), DigitsValue(b[1..]));
      } else if db < da {
        LeadingDigitDecides(db, da, p, DigitsValue(b[1..]), DigitsValue(a[1..]));
      }
    }
  }

  lemma LeadingDigitDecides(da: nat, db: nat, p: nat, x: nat, y: nat)
    requires da < db && x < p
    ensures da * p + x < db * p + y
  {
    assert (da + 1) * p <= db * p;
  }

  /** Two different strings of the same length are ordered one way or the other. */
  lemma {:induction false} StrLessTotal(a: string, b: string)
    requires |a| == |b| && a != b
    ensures StrLess(a, b) || StrLess(b, a)
  {
    if a[0] == b[0] {
      assert a == [a[0]] + a[1..] && b == [b[0]] + b[1..];
      StrLessTotal(a[1..], b[1..]);
    }
  }

  lemma {:induction false} StrLessIrreflexive(a: string)
    ensures !StrLess(a, a)
  {
    if a != [] {
      StrLessIrreflexive(a[1..]);
    }
  }
}
