# Aurea Travel: a verified model of the booking logic

Aurea Travel is a single-page React app for booking Brazilian trips: tours
("passeios"), flights ("voo"), hotels, packages ("pacote") and buses
("onibus"). This project models in Dafny the logic that sits under its
screens, and proves what that logic promises:

- **Pricing** (`src/utils/pricing.js`): parsing a display price such as
  `"R$ 1.250"` into a symbol and an amount, formatting an amount back with
  pt-BR digit grouping, and the party total in which each child pays half.
- **Masks** (the input masks and validators that `ProfileScreen.jsx`,
  `CheckoutScreen.jsx` and `SignupScreen.jsx` each define): phone, CPF,
  card number, `MM/AA` expiry, CVV, cardholder name and email. They are
  defined once here.
- **Calendar** (the date helpers that `SearchBar.jsx` and
  `CheckoutScreen.jsx` each define): ISO `YYYY-MM-DD` parsing and printing,
  `DD/MM/YYYY` display, the month grid, month navigation and the two-click
  range picker. The weekday of the 1st and the month length come from a
  Gregorian-calendar function instead of JavaScript's `Date`.
- **SearchBar**, **SearchScreen**, **Trips**, **Profile**, **Checkout**,
  **Signup**: the screens' own handlers and derived values. A component whose
  handlers update state is a class with that state as fields. Each callback
  it hands a value to (`onUpdateUser`, `onSignup`, `onConfirm`,
  `onDateStartChange`, …) becomes that method's return value.
- **App** (`src/App.jsx`): the store. A class `AppState` holds `favorites`,
  `user` and `reservations`, with one method per handler.
- Shared modules:
  - **Text**: digits, trimming, lower case, substrings, decimal printing.
  - **Collections**: `Array.prototype.filter`, sub-sequences, `find`.
  - **Records**: the user, the user update, destinations, people,
    reservations, and JavaScript's `||` on strings.
  - **Sorting**: an in-place insertion sort on an `array`, proved equal to a
    stable insertion sort on sequences. It stands for the `sort` calls on
    copied arrays in `SearchScreen.jsx` and `TripsScreen.jsx`.

JavaScript semantics are written out where they matter:

- Money is an exact `real` wrapped in `Number = Finite | NaN`. `parseFloat`
  can return `NaN` here: `"R$ ,"` cleans to `"R$ ."`, whose tail `"."` is not
  a number.
- `Number("")` is 0.
- `new Date(y, m, d)` reads a year from 0 to 99 as 1900 + y (`Calendar.JsYear`).
  Both the ISO date parser and the trips screen's date reading build their
  dates through it.
- `||` treats the empty string as false.

## Model

| member | source | states |
|---|---|---|
| Pricing.ParsePrice | src/utils/pricing.js:8-27 | A missing or empty price gives value 0 and symbol "R$". Every result has a non-empty symbol and a value that is NaN or non-negative. The matching branch is stated by `Pricing.ParsePriceWellFormed`, the fallback by `Pricing.ParsePriceFallback`. |
| Pricing.RemoveDots | src/utils/pricing.js:12 | The cleaned string has no '.' and is no longer than the input. |
| Pricing.RemoveDotsAppend | src/utils/pricing.js:12 | Removing the dots distributes over concatenation. |
| Pricing.RemoveDotsNoDots | src/utils/pricing.js:12 | A string without dots is unchanged by the dot removal. |
| Pricing.ReplaceFirstComma | src/utils/pricing.js:12 | Replacing the first comma keeps the length. |
| Pricing.ReplaceFirstCommaNoComma | src/utils/pricing.js:12 | A string without a comma is unchanged. |
| Pricing.SymbolRun | src/utils/pricing.js:15 | This is the longest prefix of symbol characters (not a digit and not a space), so the character after it is not a symbol character. |
| Pricing.MatchPrice | src/utils/pricing.js:15 | A match gives a non-empty symbol and a non-empty tail of digits and dots. |
| Pricing.MatchPriceSound | src/utils/pricing.js:15-21 | A match splits the cleaned string into symbol, spaces and numeric tail. |
| Pricing.MatchPriceGreedy | src/utils/pricing.js:15 | Whenever any split exists, the regular expression matches, and its symbol is at least as long as that split's symbol (the greedy `+`). |
| Pricing.SymbolRunLongest | src/utils/pricing.js:15 | No prefix of symbol characters is longer than the run the greedy `+` takes first. |
| Pricing.MatchBacksOff | src/utils/pricing.js:15 | When the numeric tail starts inside the symbol run, the pattern backs off and still matches with at least that many symbol characters. |
| Pricing.MatchOfSplit | src/utils/pricing.js:15 | When the split is unambiguous, the match returns exactly that symbol and tail. |
| Pricing.LeadingDigits | src/utils/pricing.js:20 | The longest digit prefix, used by `parseFloat`. |
| Pricing.ParseFloat | src/utils/pricing.js:20-25 | `parseFloat` on digits and dots never gives a negative number. |
| Pricing.ParseFloatOfDigits | src/utils/pricing.js:20 | `parseFloat` of a digit string is its decimal value. |
| Pricing.ParseFloatNoDigits | src/utils/pricing.js:25 | `parseFloat` of a string without digits is NaN. |
| Pricing.KeepNumberChars | src/utils/pricing.js:25 | The fallback keeps only digits and dots. |
| Pricing.ParsePriceWellFormed | src/utils/pricing.js:12-21 | When the cleaned price splits as symbol, spaces, number, the result is that symbol and the number of the tail. |
| Pricing.ParsePriceNoDigits | src/utils/pricing.js:24-26 | A price with no digits that fails the pattern falls back to value 0 and symbol "R$" (NaN or 0 gives 0). |
| Pricing.ParsePriceFallback | src/utils/pricing.js:24-26 | A non-empty price that fails the pattern has symbol "R$" and is never NaN: its value is `parseFloat` of its digits and dots, or 0 when those hold no number. |
| Pricing.ParseCountThenWords | src/utils/pricing.js:12-26 | A digit count followed by words without digits, dots or commas (such as "12 reais") fails the pattern and reads as the count in "R$". |
| Pricing.ParseCommaDecimal | src/utils/pricing.js:12-26 | Digits, a comma, digits and such words (such as "1,5x") read in "R$" with the comma as the decimal point (1.5). |
| Pricing.CleanPlain | src/utils/pricing.js:12 | Text without dots, commas or surrounding whitespace is unchanged by cleaning. |
| Pricing.CleanCommaDecimal | src/utils/pricing.js:12 | Cleaning "d1,d2w" gives "d1.d2w". |
| Pricing.CleanCommaThenRest | src/utils/pricing.js:12 | Cleaning replaces the first comma, after comma-free text, by a point. |
| Pricing.CommaToPoint | src/utils/pricing.js:12 | `replace(',', '.')` acts on the first comma only. |
| Pricing.UnmatchedDigitFirst | src/utils/pricing.js:15 | The pattern needs a symbol first, so text starting with a digit fails it. |
| Pricing.KeepDigitsThenWords | src/utils/pricing.js:25 | Keeping digits and dots of "digits, then words" leaves the digits. |
| Pricing.KeepDecimalThenWords | src/utils/pricing.js:25 | Keeping digits and dots of "d1.d2, then words" leaves "d1.d2". |
| Pricing.KeepNumberCharsAppend | src/utils/pricing.js:25 | The global replace acts on each part of a concatenation separately. |
| Pricing.KeepNumberCharsOfNumberChars | src/utils/pricing.js:25 | Text of digits and dots is kept whole. |
| Pricing.KeepNumberCharsNone | src/utils/pricing.js:25 | Text without digits or dots is removed entirely. |
| Pricing.ReplaceFirstCommaAfter | src/utils/pricing.js:12 | Comma-free text before the first comma is left alone. |
| Pricing.ParseFloatDecimal | src/utils/pricing.js:25 | `parseFloat("d1.d2")` is d1 plus d2 over 10 to the number of digits of d2. |
| Pricing.PointedParts | src/utils/pricing.js:25 | In "d1.d2" the leading digits are d1, and the digits after the point are d2. |
| Pricing.LeadingDigitsThen | src/utils/pricing.js:25 | Digits followed by a non-digit: the leading digits are exactly those digits. |
| Pricing.NoDigitsThroughCleaning | src/utils/pricing.js:12 | Cleaning adds no digits. |
| Pricing.NoDigitsRemoveDots | src/utils/pricing.js:12 | Dot removal adds no digits. |
| Pricing.NoDigitsReplaceFirstComma | src/utils/pricing.js:12 | Comma replacement adds no digits. |
| Pricing.KeepNumberCharsNoDigits | src/utils/pricing.js:25 | The fallback filter adds no digits. |
| Pricing.RoundHalfExpand | src/utils/pricing.js:33-36 | Rounding to 0 fraction digits gives the whole number within one half of the amount, with ties away from zero. |
| Pricing.ThreeDigits | src/utils/pricing.js:33-36 | A group below 1000 prints as exactly three digits with its value. |
| Pricing.GroupedSmall | src/utils/pricing.js:33-36 | A number below 1000 prints without separators. |
| Pricing.GroupedStepShape | src/utils/pricing.js:33-36 | Appending "." and a three-digit group keeps the pt-BR grouping shape. |
| Pricing.GroupedStepValue | src/utils/pricing.js:33-36 | Appending a group keeps the digits' value equal to the number. |
| Pricing.Grouped | src/utils/pricing.js:33-36 | The pt-BR printing of n is well grouped, and its digits with the dots removed spell n. |
| Pricing.FormatPrice | src/utils/pricing.js:32-39 | The text is the symbol, one space, then the formatted amount. |
| Pricing.FormatNumber | src/utils/pricing.js:33-36 | The pt-BR text of an amount with no decimals: "NaN", or the rounded magnitude in groups of three, with '-' for a negative amount. `Pricing.FormatWhole` and `Pricing.FormatParseRoundTrip` state it. |
| Pricing.FormatWhole | src/utils/pricing.js:32-39 | A whole amount n formats as the symbol, a space, then n grouped by '.'. |
| Pricing.FormatZero | src/utils/pricing.js:32-39 | A zero amount formats as the symbol, a space and "0". |
| Pricing.GroupedThousands | src/utils/pricing.js:33-36 | From 1000 up, the printing is the thousands printed, a '.', and the last three digits zero-padded. |
| Pricing.CleanFormatted | src/utils/pricing.js:12-38 | Cleaning a formatted price removes only its group separators. |
| Pricing.Clean | src/utils/pricing.js:12 | The cleaning step: dots removed, the first comma made a point, then trimmed. `Pricing.CleanFormatted`, `Pricing.CleanPlain` and `Pricing.CleanCommaDecimal` state it. |
| Pricing.FormatParseRoundTrip | src/utils/pricing.js:8-39 | Round trip: for a whole n ≥ 0 and a symbol without digits, spaces, '.' or ',', parsing the formatted price gives back n and the symbol. |
| Pricing.CalculateTotalPrice | src/utils/pricing.js:45-58 | The unit value and symbol are the parsed price, the total is `adults*unit + children*(unit*0.5)`, and the text is the total formatted with the symbol. Counts default to 1 and 0. |
| Pricing.Total | src/utils/pricing.js:48-51 | `adults * value + children * (value * 0.5)`. `Pricing.TotalIsWeightedCount`, `Pricing.TotalNaN` and `Pricing.TwoChildrenCostOneAdult` state it. |
| Pricing.TotalNaN | src/utils/pricing.js:48-51 | The total is NaN exactly when the unit is. |
| Pricing.TotalIsWeightedCount | src/utils/pricing.js:48-51 | The total is (adults + children/2) × unit. |
| Pricing.TotalNonNegative | src/utils/pricing.js:48-51 | A non-negative unit and counts give a non-negative total. |
| Pricing.TwoChildrenCostOneAdult | src/utils/pricing.js:48-51 | Two more children cost as much as one more adult. |
| Pricing.ZeroTravellers | src/utils/pricing.js:48-55 | Zero travellers give total 0, displayed "<symbol> 0", for the non-negative units a parsed price has (a negative unit would give -0, printed "-0"). |
| Pricing.ParseThousands | src/utils/pricing.js:12-21 | "R$ 1.250" parses to 1250 and "R$". |
| Pricing.ParseDefaultDestinationPrice | src/utils/pricing.js:12-21 | "R$ 899" parses to 899 and "R$". |
| Pricing.FormatHalfRoundsUp | src/utils/pricing.js:32-39 | 2247.5 formats as "R$ 2.248": the half rounds up. |
| Pricing.PartyExample | src/utils/pricing.js:45-58 | Two adults and one child at "R$ 899" total 2247.5, shown as "R$ 2.248". |
| Text.DigitValue | src/screens/ProfileScreen.jsx:123 | A digit character's value is 0..9. |
| Text.DigitChar | src/utils/pricing.js:36 | The character printed for 0..9 is a digit with that value. |
| Text.OnlyDigits | src/screens/ProfileScreen.jsx:123 | `value.replace(/\D/g, "")`: the result is made only of digits and is no longer than the input. |
| Text.OnlyDigitsOfDigits | src/screens/ProfileScreen.jsx:123 | A digit string is its own digits. |
| Text.OnlyDigitsAppend | src/screens/ProfileScreen.jsx:123 | Digit extraction distributes over concatenation. |
| Text.OnlyDigitsIdempotent | src/screens/ProfileScreen.jsx:123 | Extracting digits twice is extracting them once. |
| Text.OnlyDigitsOfNonDigits | src/screens/ProfileScreen.jsx:123 | A string without digits gives "". |
| Text.Take | src/screens/ProfileScreen.jsx:129 | `slice(0, n)` keeps min(n, length) leading characters. |
| Text.TakeLast | src/screens/ProfileScreen.jsx:366 | `slice(-4)` keeps the last min(4, length) characters. |
| Text.LeadingSpaces | src/utils/pricing.js:12 | This counts the leading white space that `trim` removes. The next character is not white space. |
| Text.TrailingSpaces | src/utils/pricing.js:12 | The trailing white space that `trim` removes. |
| Text.Trim | src/utils/pricing.js:12 | The result is no longer than the input and has no white space at either end. |
| Text.TrimOccurs | src/utils/pricing.js:12 | The trimmed string is a contiguous slice of the input. |
| Text.TrimEmpty | src/screens/SearchScreen.jsx:645 | The trimmed string is empty exactly when the input is all white space. |
| Text.TrimNoOp | src/utils/pricing.js:12 | A string without white space at its ends is unchanged. |
| Text.TrimIdempotent | src/utils/pricing.js:12 | Trimming twice is trimming once. |
| Text.TrimNoSpace | src/utils/pricing.js:12 | A string without white space is unchanged. |
| Text.SpacesHaveNoDigits | src/screens/SignupScreen.jsx:80 | White space holds no digits. |
| Text.OnlyDigitsTrim | src/screens/SignupScreen.jsx:80 | Trimming before extracting digits changes nothing. |
| Text.LowerStr | src/screens/SearchScreen.jsx:542 | Lower-casing keeps the length and lower-cases each character in place. |
| Text.UpperStr | src/screens/ProfileScreen.jsx:76 | Upper-casing keeps the length and upper-cases each character in place. |
| Text.LowerIdempotent | src/screens/SearchScreen.jsx:542 | Lower-casing a character twice is lower-casing it once. |
| Text.ContainsIff | src/screens/SearchScreen.jsx:553 | `includes` holds exactly when the query occurs at some index. |
| Text.ContainsEmpty | src/screens/SearchScreen.jsx:553 | Every string includes "". |
| Text.JoinSmall | src/screens/TripsScreen.jsx:50 | Joining one or two parts. |
| Text.Split | src/screens/CheckoutScreen.jsx:22 | `split(sep)` gives at least one piece, and no piece holds the separator. |
| Text.JoinSplit | src/screens/CheckoutScreen.jsx:22 | Joining the pieces with the separator gives the input back. |
| Text.SplitNoSep | src/screens/CheckoutScreen.jsx:22 | A string without the separator splits into itself. |
| Text.SplitAfter | src/screens/CheckoutScreen.jsx:22 | Splitting `a + sep + b`, when `a` has no separator, gives `a` followed by the pieces of `b`. |
| Text.Before | src/App.jsx:107 | `split("@")[0]`: the text before the first separator. |
| Text.SplitHeadIsBefore | src/App.jsx:107 | The first piece of a split is the text before the first separator. |
| Text.Pow10 | src/utils/pricing.js:36 | Powers of ten are positive. |
| Text.NatToString | src/screens/CheckoutScreen.jsx:32 | `String(n)`: a non-empty digit string that starts with '0' only for 0. |
| Text.IntToString | src/App.jsx:176 | `String(n)` for any integer is never empty. |
| Text.NatToStringValue | src/screens/CheckoutScreen.jsx:32 | The digits of `String(n)` spell n. |
| Text.NatToStringInjective | src/screens/CheckoutScreen.jsx:32 | Different numbers print differently. |
| Text.DigitsValueBound | src/screens/CheckoutScreen.jsx:32 | A k-digit string is below 10^k. |
| Text.NatToStringLength | src/screens/CheckoutScreen.jsx:32 | A number below 10^k prints with at most k digits. |
| Text.DigitsValueFront | src/screens/CheckoutScreen.jsx:32 | A leading digit adds its weight. |
| Text.DigitsValueAppend | src/screens/CheckoutScreen.jsx:32 | The value of a concatenation is the positional combination of the two values. |
| Text.Pad2 | src/screens/CheckoutScreen.jsx:33-34 | `padStart(2, "0")`: the result has at least two characters and is no longer than needed. |
| Text.Pad2Value | src/screens/CheckoutScreen.jsx:33-34 | Padding a number below 100 gives two digits with the same value. |
| Text.StrLessAppend | src/screens/CheckoutScreen.jsx:234 | String order on a common prefix is decided by the rest. |
| Text.StrLessDigits | src/screens/CheckoutScreen.jsx:234 | On digit strings of equal length, string order is numeric order. |
| Text.StrLessIrreflexive | src/screens/CheckoutScreen.jsx:234 | No string is less than itself. |
| Text.StrLessTotal | src/screens/CheckoutScreen.jsx:234 | Of two different strings of equal length, one is less than the other. |
| Collections.Filter | src/App.jsx:97 | `filter` is no longer than the list, every kept element is from the list and satisfies the predicate, and every satisfying element is kept. |
| Collections.FilterIsSubsequence | src/App.jsx:97 | A filtered list is an order-preserving sub-list. |
| Collections.SubsequenceSkip | src/App.jsx:97 | Dropping an element keeps a sub-list. |
| Collections.SubsequenceDropHead | src/App.jsx:97 | A sub-list of a tail is a sub-list of the whole. |
| Collections.SubsequenceTransitive | src/screens/SearchScreen.jsx:557-604 | A sub-list of a sub-list is a sub-list. |
| Collections.FilterAll | src/screens/SearchScreen.jsx:548-555 | A predicate true everywhere keeps the list. |
| Collections.FilterIdempotent | src/screens/SearchScreen.jsx:548-555 | Filtering twice is filtering once. |
| Collections.FilterAppend | src/App.jsx:97 | Filtering distributes over concatenation. |
| Collections.FilterNone | src/App.jsx:97 | A predicate false everywhere gives the empty list. |
| Collections.FilterFilter | src/screens/SearchScreen.jsx:557-604 | Two filters in a row are one filter with both conditions. |
| Collections.FilterKeepsUnique | src/App.jsx:97 | Filtering keeps unique keys unique. |
| Collections.FindIndex | src/screens/TripsScreen.jsx:105 | This is the first index that satisfies the predicate, or the length when none does. No earlier index satisfies it. |
| Collections.FindFirst | src/screens/TripsScreen.jsx:105 | `find`: the first satisfying element, or none exactly when no element satisfies the predicate. |
| Records.Or | src/App.jsx:108 | `a \|\| b` on strings: the first when non-empty, else the second; empty only when both are. |
| Records.OrNull | src/screens/CheckoutScreen.jsx:294 | `s \|\| null`: null exactly for the empty string. |
| Masks.DigitsAfterSeparator | src/screens/ProfileScreen.jsx:128-143 | A separator without digits leaves the digits unchanged. |
| Masks.DigitsOfRun | src/screens/ProfileScreen.jsx:128-143 | A digit run is kept by digit extraction. |
| Masks.FormatPhone | src/screens/ProfileScreen.jsx:128-143 | The output's digits are exactly the first 11 input digits. It adds only "(", ") " and "-", and is "" exactly when the input has no digits. |
| Masks.PhoneOpened | src/screens/ProfileScreen.jsx:134-142 | A "(" before the digits keeps exactly those digits and adds only mask characters. |
| Masks.PhoneWrapped | src/screens/ProfileScreen.jsx:134-142 | The "(dd) " prefix keeps exactly the digits typed and adds only mask characters. |
| Masks.PhoneDashed | src/screens/ProfileScreen.jsx:134-142 | The full mask with its dash keeps exactly the digits typed and adds only mask characters. |
| Masks.FormatPhoneIdempotent | src/screens/ProfileScreen.jsx:128-143 | Masking twice gives the same text as masking once. |
| Masks.FormatPhoneComplete | src/screens/ProfileScreen.jsx:138-142 | With 10 or 11 digits the text is "(dd) " + middle + "-" + the last four digits. |
| Masks.PhoneValidAfterMask | src/screens/SignupScreen.jsx:25-43 | A masked phone never has more than 11 digits, so the 10/11 check is a check on the digits typed. |
| Masks.IsValidPhoneDigits | src/screens/SignupScreen.jsx:42-43 | `isValidPhoneDigits`: exactly 10 or 11 digits. `Masks.PhoneValidAfterMask` relates it to the mask. |
| Masks.IsValidCpfDigits | src/screens/ProfileScreen.jsx:166 | `isValidCpfDigits`: exactly 11 digits, with no check-digit test. |
| Masks.FormatCpf | src/screens/ProfileScreen.jsx:148-164 | The digits are exactly the first 11 input digits, only '.' and '-' are added, and the text is "" exactly when there are no digits. |
| Masks.CpfDigits1 | src/screens/ProfileScreen.jsx:153-155 | "ddd." + rest keeps the digits. |
| Masks.CpfDigits2 | src/screens/ProfileScreen.jsx:156-158 | "ddd.ddd." + rest keeps the digits. |
| Masks.CpfDigits3 | src/screens/ProfileScreen.jsx:159-163 | "ddd.ddd.ddd-" + rest keeps the digits. |
| Masks.FormatCpfIdempotent | src/screens/ProfileScreen.jsx:148-164 | Masking twice gives the same text as masking once. |
| Masks.FormatCpfComplete | src/screens/ProfileScreen.jsx:148-166 | Eleven digits give exactly "ddd.ddd.ddd-dd" with the digits in order. |
| Masks.GroupDigits | src/screens/ProfileScreen.jsx:168-171 | Digits in groups of four: a space at exactly every fifth position and the digits kept. |
| Masks.GroupStep | src/screens/ProfileScreen.jsx:170 | One more leading group keeps the grouping shape. |
| Masks.FormatCardNumber | src/screens/ProfileScreen.jsx:168-171 | The first 19 digits in groups of four, with a space at exactly every fifth position, no space at either end, and the length that grouping implies. |
| Masks.FormatCardNumberIdempotent | src/screens/ProfileScreen.jsx:168-171 | Grouping twice gives the same text as grouping once. |
| Masks.CardNumberValidity | src/screens/ProfileScreen.jsx:173-176 | A number is valid exactly when it holds 13 to 19 digits. Up to 19 digits, grouping does not change validity. |
| Masks.IsValidCardNumber | src/screens/ProfileScreen.jsx:173-176 | `isValidCardNumber`: the digits of the input number 13 to 19. `Masks.CardNumberValidity` states it. |
| Masks.FormatExpiry | src/screens/ProfileScreen.jsx:178-182 | The digits are exactly the first four, the only mark added is '/', and it sits at index 2 once more than two digits were typed. |
| Masks.FormatExpiryIdempotent | src/screens/ProfileScreen.jsx:178-182 | Masking twice gives the same text as masking once. |
| Masks.MonthNumeralsShape | src/screens/ProfileScreen.jsx:184-192 | A two-digit month is 01..12 exactly when it reads "0x" with x ≠ 0, or "10".."12". |
| Masks.ExpiryValidIff | src/screens/ProfileScreen.jsx:184-192 | The expiry is valid exactly when it holds 4 digits whose month is 01..12. |
| Masks.IsValidExpiry | src/screens/ProfileScreen.jsx:184-192 | The profile form's `isValidExpiry`: four digits whose month is 1 to 12. `Masks.ExpiryValidIff` states it. |
| Masks.ExpiryAtIff | src/screens/CheckoutScreen.jsx:137-149 | The checkout expiry is valid exactly when it is well formed and (year, month) is not before the current two-digit year and month. |
| Masks.IsValidExpiryAt | src/screens/CheckoutScreen.jsx:137-149 | The checkout form's `isValidExpiry`: as in the profile form, and not before the current month of the century. `Masks.ExpiryAtIff` states it. |
| Masks.FormatCvv | src/screens/CheckoutScreen.jsx:151-153 | At most four digits, a prefix of the input's digits, and all of them when fewer than four. |
| Masks.CvvValidAfterMask | src/screens/CheckoutScreen.jsx:151-155 | A masked CVV is valid exactly when at least three digits were typed. |
| Masks.IsValidCvv | src/screens/CheckoutScreen.jsx:155 | `isValidCvv`: the input holds three or four digits. `Masks.CvvValidAfterMask` relates it to the mask. |
| Masks.SanitizeCardholderName | src/screens/CheckoutScreen.jsx:157-158 | Keeps only letters and spaces, as an order-preserving sub-sequence of the input. |
| Masks.SanitizeIdempotent | src/screens/CheckoutScreen.jsx:157-158 | Sanitising twice gives the same text as sanitising once. |
| Masks.CardholderNameIff | src/screens/CheckoutScreen.jsx:160-161 | A name is valid exactly when the trimmed name is non-empty and already sanitised. |
| Masks.IsValidCardholderName | src/screens/CheckoutScreen.jsx:160-161 | `isValidCardholderName`: the trimmed name is non-empty and all letters and spaces. `Masks.CardholderNameIff` states it. |
| Masks.PlainSlice | src/screens/SignupScreen.jsx:22-23 | A slice of a part with no spaces and no '@' is a valid pattern fragment. |
| Masks.BeforeOfSplit | src/screens/SignupScreen.jsx:22-23 | The local part is the text before the '@'. |
| Masks.ValidEmailSound | src/screens/SignupScreen.jsx:22-23 | A string the email pattern accepts splits as local@a.b with each part non-empty and free of spaces and '@'. |
| Masks.DomainParts | src/screens/SignupScreen.jsx:22-23 | The domain the pattern accepts splits at a '.' into two non-empty parts free of spaces and '@'. |
| Masks.ValidEmailComplete | src/screens/SignupScreen.jsx:22-23 | Every such split is accepted. |
| Masks.IsValidEmailIff | src/screens/SignupScreen.jsx:22-23 | `isValidEmail` holds exactly when the trimmed value splits as local@a.b. |
| Masks.IsValidEmail | src/screens/SignupScreen.jsx:21-22 | `isValidEmail`: the email pattern on the trimmed value. `Masks.IsValidEmailIff` states what the pattern accepts. |
| Calendar.DaysInMonth | src/components/SearchBar.jsx:46 | A month has 28 to 31 days. |
| Calendar.Weekday | src/components/SearchBar.jsx:45 | `getDay()` of a date: 0 (Sunday) to 6. |
| Calendar.WeekdayNextDay | src/components/SearchBar.jsx:45 | The next day is the next weekday. |
| Calendar.YearBaseStep | src/components/SearchBar.jsx:45 | A year advances the weekday by 1, or 2 after a leap year. |
| Calendar.WeekdayNextMonth | src/components/SearchBar.jsx:45-46 | The next month starts the month's length of weekdays later. |
| Calendar.WeekdayExample | src/components/SearchBar.jsx:45 | 1 October 2026 is a Thursday. |
| Calendar.BeforeTotal | src/components/SearchBar.jsx:234 | Date order is total and antisymmetric. |
| Calendar.DaysBeforeMonth | src/components/SearchBar.jsx:46 | Days before a month lie within a year. |
| Calendar.DaysBeforeMonthGrows | src/components/SearchBar.jsx:46 | A later month starts no earlier in the year. |
| Calendar.MonthLengths | src/components/SearchBar.jsx:46 | The days before the next month are the days before this one plus this month's length. |
| Calendar.YearLength | src/components/SearchBar.jsx:46 | A year is the days of its twelve months. |
| Calendar.YearStartIncreases | src/components/SearchBar.jsx:70 | Later years start later. |
| Calendar.DayNumberRollsOver | src/components/SearchBar.jsx:46 | The day after the last of a month is the 1st of the next (`new Date` normalisation). |
| Calendar.DayOfValid | src/components/SearchBar.jsx:70 | The day number of a valid date. |
| Calendar.DayNumberInYear | src/components/SearchBar.jsx:70 | A valid date's day number lies within its year. |
| Calendar.EarlierYear | src/components/SearchBar.jsx:70 | An earlier year means an earlier day. |
| Calendar.EarlierMonth | src/components/SearchBar.jsx:70 | An earlier month of the same year means an earlier day. |
| Calendar.DayNumberOrder | src/components/SearchBar.jsx:67-71 | Comparing `Date` values is comparing (year, month, day), and equal day numbers mean equal dates. |
| Calendar.DayOf | src/components/SearchBar.jsx:67-71 | The day number standing for `getTime()` at midnight. `Calendar.DayNumberOrder` proves it orders dates as the calendar does. |
| Calendar.RangeEnds | src/components/SearchBar.jsx:58-71 | `isWithinRange` holds at both ends of a range; `isSameDate` is equality of the date triple. |
| Calendar.IsSameDate | src/components/SearchBar.jsx:58-65 | `isSameDate`: false when either date is missing, otherwise true exactly for equal year, month and day. `Calendar.RangeEnds` uses it. |
| Calendar.IsWithinRange | src/components/SearchBar.jsx:67-71 | `isWithinRange`: false without both bounds, otherwise inclusive at both ends in time order. `Calendar.RangeEnds` states both ends. |
| Calendar.JsNumberOfDigits | src/screens/CheckoutScreen.jsx:24 | `Number` of a digit string is its value. |
| Calendar.JsNumber | src/screens/CheckoutScreen.jsx:24-26 | `Number(part)` on integer notation: whitespace trimmed, "" is 0, an optional sign, then digits; anything else is NaN (see "Left out"). `Calendar.JsNumberOfDigits` and `Calendar.JsNumberNegative` state its values. |
| Calendar.TrimSigned | src/screens/CheckoutScreen.jsx:24 | A signed numeral has nothing to trim. |
| Calendar.JsNumberNegative | src/screens/CheckoutScreen.jsx:24 | `Number("-d")` is minus the value. |
| Calendar.ParseIsoDate | src/screens/CheckoutScreen.jsx:20-28 | A missing or empty value gives null. A result needs exactly three '-' parts and a non-zero year, and its year is never 0 to 99, because `new Date` moves those to the 1900s. |
| Calendar.DateOfParts | src/screens/CheckoutScreen.jsx:22-28 | A date comes only from exactly three parts with a non-zero year, and its year is never 0 to 99. |
| Calendar.JsYear | src/screens/CheckoutScreen.jsx:28 | `new Date(y, …)` reads a year from 0 to 99 as 1900 + y and keeps every other year. |
| Calendar.SplitThree | src/screens/CheckoutScreen.jsx:22 | Three dash-free parts joined by '-' split back into themselves. |
| Calendar.ParseDigitGroups | src/screens/CheckoutScreen.jsx:20-28 | Three digit groups with a non-zero year parse to (`JsYear(year)`, month − 1, day). |
| Calendar.IsoParts | src/screens/CheckoutScreen.jsx:31-36 | `toIsoDate` is the year, the month + 1 and the day, the last two zero-padded to two digits. |
| Calendar.ToIsoDate | src/screens/CheckoutScreen.jsx:31-36 | `toIsoDate`: the year, then the month counted from 1 and the day, each padded to two digits, joined by '-'. Its shape is stated by `Calendar.IsoParts` and `Calendar.IsoFields`, and `Calendar.IsoRoundTrip` reads it back. |
| Calendar.IsoFields | src/screens/CheckoutScreen.jsx:31-36 | For a four-digit year, the ISO text is YYYY-MM-DD with the year, month + 1 and day at their positions. |
| Calendar.NoDashInDigits | src/screens/CheckoutScreen.jsx:22 | Digit strings hold no '-'. |
| Calendar.IsoRoundTrip | src/screens/CheckoutScreen.jsx:20-36 | Parsing the ISO text of a valid date from the year 100 on gives the date back. |
| Calendar.IsoRoundTripShortYear | src/screens/CheckoutScreen.jsx:20-36 | The ISO text of a valid date in the years 1 to 99 reads back 1900 years later ("0099-01-01" is 1 January 1999). |
| Calendar.IsoReadBack | src/screens/CheckoutScreen.jsx:20-36 | Parsing the ISO text of a valid date with a positive year gives the date with its year read as `new Date` reads it. |
| Calendar.SplitIsoShaped | src/screens/CheckoutScreen.jsx:166 | A YYYY-MM-DD string splits into its three fields. |
| Calendar.FormatDateForDisplay | src/screens/CheckoutScreen.jsx:163-168 | "" stays "", YYYY-MM-DD becomes DD/MM/YYYY, and any other string is unchanged. |
| Calendar.DisplayOfIsoDate | src/screens/CheckoutScreen.jsx:163-168 | A valid date displays as zero-padded day/month/year. |
| Calendar.IsoOrder | src/screens/CheckoutScreen.jsx:234 | For four-digit years, string order on ISO dates is date order. |
| Calendar.GroupsCompare | src/screens/CheckoutScreen.jsx:234 | Comparing two ISO texts with groups of equal length compares the years, then the months, then the days. |
| Calendar.DigitsCompare | src/screens/CheckoutScreen.jsx:234 | On digit groups of equal length, equality and string order are equality and order of their values. |
| Calendar.BuildCalendarDays | src/components/SearchBar.jsx:44-56 | The grid is the weekday of the 1st in empty cells, then days 1..n of the month in order. |
| Calendar.ShiftMonthStep | src/screens/CheckoutScreen.jsx:182-196 | A ±1 step keeps the month in 0..11 and moves year×12+month by exactly ±1. |
| Calendar.ShiftMonth | src/screens/CheckoutScreen.jsx:182-196 | `handleChangeMonth`: the month plus the step, wrapping to December of the previous year or January of the next. `Calendar.ShiftMonthStep` and `Calendar.ShiftMonthBack` state it. |
| Calendar.ShiftMonthBack | src/screens/CheckoutScreen.jsx:182-196 | One month forward, then back, returns to the same month. |
| Calendar.DayClickCloses | src/screens/CheckoutScreen.jsx:198-219 | A click completes the range and closes the calendar exactly when a start is set and no end is. Otherwise it starts a new range at the click. |
| Calendar.DayClick | src/screens/CheckoutScreen.jsx:198-219 | `handleDayClick`: a click with no start or a complete range starts a new range; an earlier click swaps in as the start; otherwise it becomes the end. `Calendar.DayClickCloses` and `Calendar.DayClickOrdersRange` state it. |
| Calendar.DayClickOrdersRange | src/screens/CheckoutScreen.jsx:198-219 | For a clicked day from the year 100 on, a completed range has its end not before its start, and the clicked day is one of its ends. |
| Sorting.SortBy | src/screens/TripsScreen.jsx:86-95 | The array ends as the stable insertion sort of its old contents: sorted by the rank, a permutation of the original, and with the elements of each rank in their original order. |
| Sorting.InsertionSorted | src/screens/TripsScreen.jsx:86-95 | The reference sort: each element in turn inserted after the elements not ranked after it. `Sorting.InsertionSortedSorted`, `Sorting.InsertionSortedPerm` and `Sorting.InsertionSortedStable` state it. |
| Sorting.ShiftInto | src/screens/TripsScreen.jsx:86-95 | One pass moves the next element left past the elements ranked strictly after it; the prefix becomes the insertion of that element and the rest of the array is untouched. |
| Sorting.InsertAt | src/screens/TripsScreen.jsx:86-95 | Where the backward scan stops (after an element not ranked after `x`, with only later-ranked elements behind), the insertion splits the list at that point. |
| Sorting.InsertPerm | src/screens/TripsScreen.jsx:86-95 | Inserting adds exactly the inserted element. |
| Sorting.InsertSorted | src/screens/TripsScreen.jsx:86-95 | Inserting into a sorted list keeps it sorted. |
| Sorting.InsertTies | src/screens/TripsScreen.jsx:86-95 | Inserting puts the element after every element of its own rank and leaves the other ranks' order alone. |
| Sorting.InsertionSortedSorted | src/screens/TripsScreen.jsx:86-95 | The insertion sort orders the list by rank. |
| Sorting.InsertionSortedPerm | src/screens/TripsScreen.jsx:86-95 | The insertion sort is a permutation of its input. |
| Sorting.InsertionSortedStable | src/screens/TripsScreen.jsx:86-95 | The insertion sort is stable: for every rank, the elements of that rank appear in their input order, as with the stable `Array.prototype.sort`. |
| Sorting.SortedPrefix | src/screens/SearchScreen.jsx:630-639 | The first n of a sorted list are sorted and rank no later than everything after them. |
| Sorting.TopSorted | src/screens/SearchScreen.jsx:630-639 | The first n of the sorted list are in rank order. |
| Sorting.TopFirst | src/screens/SearchScreen.jsx:630-639 | The first n of the sorted list are drawn from the input and rank no later than every element left out. |
| Sorting.TopStable | src/screens/SearchScreen.jsx:630-639 | The first n of the sorted list keep, rank by rank, the input order (two tours of equal priority and rating stay in catalogue order). |
| Sorting.TiesOfPrefix | src/screens/SearchScreen.jsx:630-639 | The elements of one rank in a prefix are a prefix of those in the whole list. |
| Sorting.TiesHead | src/screens/TripsScreen.jsx:97 | The first element of a list is the first of its rank. |
| Sorting.SplitRest | src/screens/SearchScreen.jsx:638 | Cutting a list after n leaves exactly the rest of it out. |
| App.ActiveTab | src/App.jsx:86-90 | "buscar", "viagens" or "perfil" by path prefix, checked in that order, and "home" otherwise. |
| App.ToggleFavorite | src/App.jsx:92-101 | An item without an id changes nothing. |
| App.ToggleFlips | src/App.jsx:94-100 | After the toggle the id is present exactly when it was absent before. |
| App.ToggleKeepsOthers | src/App.jsx:96-98 | Removing keeps every other entry, in order. |
| App.ToggleTwice | src/App.jsx:94-100 | Toggling an absent item twice restores the list. |
| App.ToggleKeepsIdsUnique | src/App.jsx:94-100 | Unique ids stay unique. |
| App.LoginUser | src/App.jsx:103-124 | A user results exactly when the trimmed identifier is non-empty, and the name is never empty. An '@' makes the identifier the email and keeps the previous phone; otherwise it becomes the phone and the previous email is kept. |
| App.LoginName | src/App.jsx:108 | The name is the given name, else the text before '@', else "Viajante". |
| App.LoginIdempotent | src/App.jsx:103-124 | Logging in twice with the same credentials is logging in once. |
| App.SignupUser | src/App.jsx:128-147 | A user results exactly when the trimmed name, email and phone are all non-empty. |
| App.SignupFields | src/App.jsx:133-147 | The new user has the trimmed fields, the raw password, default notifications and no document. |
| App.UpdateUser | src/App.jsx:156-165 | No user stays no user. For a user, each of the nine keys is applied: a present key sets its field and an absent key keeps it (`App.UpdateApplied`). An empty update changes nothing. |
| App.ApplyUpdate | src/App.jsx:156-165 | The spread `{ ...prev, ...updates }`: for every one of the nine fields, a key present in the update replaces the user's value and an absent key keeps it (`App.UpdateApplied`). |
| App.UpdateAppliedUnique | src/App.jsx:159-163 | The per-key promise leaves no choice: two users that both satisfy it for the same user and update are equal. |
| App.UpdateUnit | src/App.jsx:159-163 | The empty update is the identity; applying an update twice is applying it once. |
| App.UpdateCompose | src/App.jsx:159-163 | Two updates compose into one merged update. |
| App.WithId | src/App.jsx:175-178 | The result always has an id and is otherwise the reservation. An id the reservation already had wins. |
| App.AppState.constructor | src/App.jsx:32-79 | Starts with no favourites, no user and no reservations. |
| App.AppState.HandleToggleFavorite | src/App.jsx:92-101 | Favourites become the toggle of the old list, the rest is unchanged, and unique ids stay unique. |
| App.AppState.HandleLogin | src/App.jsx:103-124 | The user becomes the logged-in user, or is unchanged for a blank identifier. |
| App.AppState.HandleSignup | src/App.jsx:128-147 | The user becomes the new user, or is unchanged when a field is missing. |
| App.AppState.HandleLogout | src/App.jsx:151-154 | Only the user is cleared. |
| App.AppState.HandleUpdateUser | src/App.jsx:156-165 | The user becomes the updated user; favourites and reservations are unchanged. |
| App.AppState.HandleDeleteAccount | src/App.jsx:167-172 | User, favourites and reservations are all cleared. |
| App.AppState.HandleConfirmReservation | src/App.jsx:174-180 | Exactly one reservation, carrying an id, is put in front of the unchanged list. |
| SearchBar.ConfigFor | src/components/SearchBar.jsx:73-134 | A known service gets its configuration and an unknown one gets "passeios". |
| SearchBar.ConfigTitles | src/components/SearchBar.jsx:73-134 | Every title is non-empty, and the tours title shows exactly for "passeios" and unknown services. |
| SearchBar.CountText | src/components/SearchBar.jsx:183-186 | A count text starts with the number and a space. |
| SearchBar.CountParts | src/components/SearchBar.jsx:180-189 | One part per non-zero count, adults first. |
| SearchBar.PeopleSummaryDefaults | src/components/SearchBar.jsx:178-189 | Absent counts read as 1 adult and 0 children, and zero children are omitted. |
| SearchBar.PeopleSummary | src/components/SearchBar.jsx:178-189 | The card's summary: a missing adult count reads as 1 and a missing child count as 0, then one part per positive count. `SearchBar.PeopleSummaryDefaults` and `SearchBar.PeopleSummaryBoth` state it. |
| SearchBar.PeopleSummaryBoth | src/components/SearchBar.jsx:180-189 | Both counts are joined by ", ". |
| SearchBar.AdultsChange | src/components/SearchBar.jsx:249-256 | Emits adults ≥ 1 (the chosen value when ≥ 1) and children ≥ 0 carried over. |
| SearchBar.ChildrenChange | src/components/SearchBar.jsx:258-265 | Emits children ≥ 0 (the chosen value when ≥ 0) and adults ≥ 1 carried over. |
| SearchBar.SummaryOpensWithAdults | src/components/SearchBar.jsx:180-189 | With at least one adult the summary opens with the adult count. |
| SearchBar.SummaryAfterChange | src/components/SearchBar.jsx:249-265 | After either change the summary opens with the adult count. |
| SearchBar.SearchCard.constructor | src/components/SearchBar.jsx:135-147 | The calendar opens on the reference month and starts closed. |
| SearchBar.SearchCard.HandleToggleCalendar | src/components/SearchBar.jsx:191-193 | Flips the calendar open and keeps the month. |
| SearchBar.SearchCard.HandleChangeMonth | src/components/SearchBar.jsx:208-222 | The shown month moves by the step, wrapping the year. |
| SearchBar.SearchCard.CalendarDays | src/components/SearchBar.jsx:44-56 | The grid of the shown month. |
| SearchBar.SearchCard.HandleDayClick | src/components/SearchBar.jsx:224-242 | Emits the range update and closes the calendar only when the range is completed. |
| SearchBar.SearchCard.HandleClearDates | src/components/SearchBar.jsx:244-247 | Emits two empty dates. |
| SearchScreen.QueryFilter | src/screens/SearchScreen.jsx:548-628 | A blank query keeps the catalogue. Otherwise the result is an order-preserving sub-list holding exactly the entries whose lower-cased text contains the query. |
| SearchScreen.NormalizeQuery | src/screens/SearchScreen.jsx:542 | `destinationValue.trim().toLowerCase()`. |
| SearchScreen.FilteredFlights | src/screens/SearchScreen.jsx:548-555 | The flights whose origin, destination and airline text holds the query; all of them for a blank query. `SearchScreen.QueryFilter` states it. |
| SearchScreen.FilteredHotels | src/screens/SearchScreen.jsx:606-612 | The hotels whose text holds the query; all of them for a blank query, by `SearchScreen.QueryFilter`. |
| SearchScreen.FilteredPackages | src/screens/SearchScreen.jsx:614-620 | The packages whose text holds the query; all of them for a blank query, by `SearchScreen.QueryFilter`. |
| SearchScreen.FilteredBuses | src/screens/SearchScreen.jsx:622-628 | The buses whose text holds the query; all of them for a blank query, by `SearchScreen.QueryFilter`. |
| SearchScreen.QueryFilterIdempotent | src/screens/SearchScreen.jsx:548-555 | Filtering twice is filtering once. |
| SearchScreen.BlankQueryShowsAll | src/screens/SearchScreen.jsx:542-628 | A blank destination leaves the flight, hotel, package and bus lists whole. |
| SearchScreen.FilteredTours | src/screens/SearchScreen.jsx:557-604 | The three stages (query, inclusive date window, capacity) filter the catalogue as one combined predicate. |
| SearchScreen.FilteredToursSpec | src/screens/SearchScreen.jsx:557-604 | The tours are an order-preserving sub-list holding exactly the entries that pass all three stages. |
| SearchScreen.WindowInclusive | src/screens/SearchScreen.jsx:567-588 | A dated tour is kept exactly when its day lies within the bounds, including both ends. |
| SearchScreen.FeaturedTours | src/screens/SearchScreen.jsx:630-639 | At most 6 tours, a prefix of the stable sort by priority (missing is 99) then rating descending: in rank order, drawn from the catalogue, none ranked after a tour left out, and tours of equal rank in catalogue order. |
| SearchScreen.FeaturedRank | src/screens/SearchScreen.jsx:632-636 | The comparator's order: priority ascending (missing is 99), then rating descending (missing is 0). |
| SearchScreen.HighlightsAreUnfiltered | src/screens/SearchScreen.jsx:544-707 | With highlights showing, results show, the query is blank and only the capacity filter applies. |
| SearchScreen.HasFilters | src/screens/SearchScreen.jsx:544-545 | A non-blank destination or either date narrows the search. |
| SearchScreen.ShowResults | src/screens/SearchScreen.jsx:678 | Results show after a search or while the query is non-blank. |
| SearchScreen.ShowHighlightResults | src/screens/SearchScreen.jsx:707 | The featured tours show after a search on the tours tab with no filter. `SearchScreen.HighlightsAreUnfiltered` states it. |
| SearchScreen.PeopleDisplayAgrees | src/screens/SearchScreen.jsx:694-705 | The screen's people text matches the search bar's when both counts are present, and is empty exactly when no count is positive. |
| SearchScreen.PeopleDisplay | src/screens/SearchScreen.jsx:694-705 | `peopleDisplay`: "" without counts, else one part per positive count, with no defaults. `SearchScreen.PeopleDisplayAgrees` relates it to the search card. |
| SearchScreen.SearchCheck | src/screens/SearchScreen.jsx:641-676 | The search proceeds exactly when all fields are empty, or when a destination and a start date are both given. Each error is set exactly for its missing field. |
| SearchScreen.SearchScreenState.constructor | src/screens/SearchScreen.jsx:520-540 | The service defaults to "passeios" and the party to 2 adults and 0 children. No search has run. |
| SearchScreen.SearchScreenState.HandleSearch | src/screens/SearchScreen.jsx:641-676 | Sets the errors and the started flag from the check on the trimmed destination, and clears hasSearched on failure. |
| SearchScreen.SearchScreenState.FinishSearch | src/screens/SearchScreen.jsx:650-674 | The delayed completion marks the search as run. |
| Trips.FormatPeople | src/screens/TripsScreen.jsx:40-51 | Absent or zero counts give "Não informado", and text passes through. Otherwise "N adulto(s)" and/or "N criança(s)" are joined by ", ". |
| Trips.ServiceLabel | src/screens/TripsScreen.jsx:53-60 | "Viagem" exactly for an absent or unknown type. |
| Trips.ServiceLabelsDistinct | src/screens/TripsScreen.jsx:53-60 | Known types have distinct labels. |
| Trips.GroupLength | src/screens/TripsScreen.jsx:73 | `\d{1,2}` takes one or two digits. |
| Trips.MatchAt | src/screens/TripsScreen.jsx:73 | A match starts at a digit. |
| Trips.FirstMatch | src/screens/TripsScreen.jsx:73 | The regular expression's first match position: no match before it. |
| Trips.DateInText | src/screens/TripsScreen.jsx:73-78 | No date exactly when no position matches; otherwise a match at some position. |
| Trips.ParseTripDate | src/screens/TripsScreen.jsx:62-84 | An ISO `date_start` wins. Otherwise the first D/M/YYYY before "→" in `dates` is used, and otherwise null. |
| Trips.TripDateFromIso | src/screens/TripsScreen.jsx:64-68 | A reservation with an ISO start date is dated by it. |
| Trips.DisplayPieces | src/screens/CheckoutScreen.jsx:163-168 | A displayed date has the shape DD/MM/YYYY with the date's values. |
| Trips.DisplayMatches | src/screens/TripsScreen.jsx:73-78 | The date pattern finds a displayed date. |
| Trips.SlashedMatch | src/screens/TripsScreen.jsx:73-78 | Two digits, "/", two digits, "/", four digits match at the start and read back as day, month + 1 and year. |
| Trips.DisplayIsPlain | src/screens/TripsScreen.jsx:71 | A displayed date has no arrow and no outer space. |
| Trips.PlainDisplay | src/screens/TripsScreen.jsx:71 | Digit groups joined by '/' have no arrow, and trimming drops only a space added after them. |
| Trips.TrimSpaceAfter | src/screens/TripsScreen.jsx:71 | Trimming removes a trailing space. |
| Trips.TripDateFromDisplay | src/screens/TripsScreen.jsx:70-78 | A reservation whose `dates` text starts with a displayed date is dated by it. |
| Trips.TargetBeforeArrow | src/screens/TripsScreen.jsx:71-72 | The target is the trimmed part before "→". |
| Trips.TripTarget | src/screens/TripsScreen.jsx:71-72 | The text searched for a date: the trimmed part before "→", or the whole text when that is empty. `Trips.TargetBeforeArrow` states it. |
| Trips.SortedReservations | src/screens/TripsScreen.jsx:86-95 | The stable sort of the reservations by trip rank: a permutation, sorted, and with same-day trips and undated trips each in their list order. |
| Trips.TripRank | src/screens/TripsScreen.jsx:87-94 | The comparator's order: dated trips by day, then undated trips, all tied. `Trips.DatedBeforeUndated` states it. |
| Trips.NextTripFirstListed | src/screens/TripsScreen.jsx:86-97 | Of the reservations ranked like the next trip (same day, or both undated), the next trip is the one listed first. |
| Trips.DatedBeforeUndated | src/screens/TripsScreen.jsx:86-95 | In the sorted list dated trips come in date order, before every undated trip. |
| Trips.NextTrip | src/screens/TripsScreen.jsx:97 | There is a next trip exactly when the list is non-empty. |
| Trips.OtherTrips | src/screens/TripsScreen.jsx:98-99 | The others are all but one. |
| Trips.NextAndOthers | src/screens/TripsScreen.jsx:97-99 | The next trip followed by the others is the sorted list. |
| Trips.NextTripFirst | src/screens/TripsScreen.jsx:97-99 | The next trip ranks no later than any other. |
| Trips.SupplierInfo | src/screens/TripsScreen.jsx:101-161 | A label exactly for a known service type, and never empty. |
| Trips.SupplierOfFlight | src/screens/TripsScreen.jsx:103-115 | A flight gets its first match on route and price, otherwise "Companhia aérea". |
| Trips.FlightLabel | src/screens/TripsScreen.jsx:113 | "airline (code)". `Trips.SupplierOfFlight` states it is the label of the first match. |
| Trips.SupplierOfBus | src/screens/TripsScreen.jsx:117-128 | A bus gets its first match on route and price, otherwise a fixed label. |
| Trips.BusLabel | src/screens/TripsScreen.jsx:125 | "company (code)". `Trips.SupplierOfBus` states it is the label of the first match. |
| Trips.SupplierOfHotel | src/screens/TripsScreen.jsx:129-142 | A hotel gets the first one whose name the destination contains, case-insensitively, otherwise "Hotel reservado". |
| Trips.HotelLabel | src/screens/TripsScreen.jsx:139 | "name · city". `Trips.SupplierOfHotel` states it is the label of the first match. |
| Trips.SupplierOfPackage | src/screens/TripsScreen.jsx:143-156 | A package gets its first match, otherwise a fixed label. |
| Trips.PackageLabel | src/screens/TripsScreen.jsx:151 | "title · city". `Trips.SupplierOfPackage` states it is the label of the first match. |
| Trips.SupplierOfDestination | src/screens/TripsScreen.jsx:157-160 | A destination gets its name, or "Destino salvo". |
| Profile.FirstLetters | src/screens/ProfileScreen.jsx:69-79 | At most one letter per name part. |
| Profile.Initials | src/screens/ProfileScreen.jsx:69-79 | At most two letters, and "AT" without a user or name. |
| Profile.InitialsOfFullName | src/screens/ProfileScreen.jsx:69-79 | "First Last" gives the upper-cased first letters of both. |
| Profile.ProfileUpdateFields | src/screens/ProfileScreen.jsx:225-243 | The emitted update sets the trimmed name and email, the phone and the document, and keeps the rest. |
| Profile.ProfileUpdate | src/screens/ProfileScreen.jsx:238-243 | What a valid form sends: trimmed name and email, phone and CPF as typed. `Profile.ProfileUpdateFields` states it. |
| Profile.Flip | src/screens/ProfileScreen.jsx:275-291 | Flips exactly the named channel. |
| Profile.FlipTwice | src/screens/ProfileScreen.jsx:275-291 | Flipping twice restores the notifications. |
| Profile.CardFormErrorOrder | src/screens/ProfileScreen.jsx:336-355 | No error exactly when all four checks pass. Otherwise the message of the first failing check in the order name, number, expiry, CVV. |
| Profile.CardFormError | src/screens/ProfileScreen.jsx:336-355 | The card form's message: the first failing check among name, number, expiry and code, or "". `Profile.CardFormErrorOrder` states it. |
| Profile.Brand | src/screens/ProfileScreen.jsx:356-364 | "Visa" exactly for a leading 4, "Mastercard" for a leading 5, "Cartão" otherwise. |
| Profile.LastFour | src/screens/ProfileScreen.jsx:365 | The last four digits (or "0000" for none). |
| Profile.CardLabelEndsWithDigits | src/screens/ProfileScreen.jsx:356-366 | A valid card's label ends with its last four digits. |
| Profile.CardLabel | src/screens/ProfileScreen.jsx:356-363 | A new card's label: the brand, " final ", the last four digits. `Profile.CardLabelEndsWithDigits` states how it ends. |
| Profile.NextCardId | src/screens/ProfileScreen.jsx:366-369 | Ids read "card-" followed by a number. |
| Profile.NextCardIdCanRepeat | src/screens/ProfileScreen.jsx:366-369 | After removing "card-1" the next id equals the remaining card's id. |
| Profile.ProfileScreen.constructor | src/screens/ProfileScreen.jsx:81-121 | The forms start from the user (or empty), with the two sample cards and no errors. |
| Profile.ProfileScreen.HandleProfileSubmit | src/screens/ProfileScreen.jsx:194-244 | With a user, the field messages become those of the submission. The update is emitted exactly when a user exists and the form is valid, and it carries the trimmed name and email. Without a user nothing changes. |
| Profile.ProfileSubmitErrorsValid | src/screens/ProfileScreen.jsx:197-236 | A submission has no message exactly when the name is set, the email is valid, and any typed phone or CPF has the right digit count. |
| Profile.ProfileSubmitErrors | src/screens/ProfileScreen.jsx:197-230 | The messages of a profile submission, one per field. `Profile.ProfileSubmitErrorsValid` and `Profile.ProfileSubmitErrorsFields` state when each appears. |
| Profile.ProfileSubmitErrorsFields | src/screens/ProfileScreen.jsx:209-230 | Each field's message appears exactly when that field fails its own check. |
| Profile.ProfileScreen.HandleNotificationToggle | src/screens/ProfileScreen.jsx:275-291 | Flips the named channel and emits the notifications to a present user. |
| Profile.ProfileScreen.HandleRemoveCard | src/screens/ProfileScreen.jsx:304-306 | Removes every card with the id and keeps the others in order. |
| Profile.ProfileScreen.HandleAddCard | src/screens/ProfileScreen.jsx:293-302 | Opens an empty card form with the user's name, or the previous holder name, as holder. |
| Profile.ProfileScreen.HandleCardFormChange | src/screens/ProfileScreen.jsx:308-334 | Stores the number grouped, the expiry masked, the CVV as at most four digits, and the holder as typed. |
| Profile.ProfileScreen.HandleCardFormSubmit | src/screens/ProfileScreen.jsx:336-372 | Sets the first error, or appends the labelled card with the next id and returns to payments. |
| Profile.ProfileScreen.HandleSecuritySubmit | src/screens/ProfileScreen.jsx:374-401 | Emits a password update exactly when both fields are filled and equal. Otherwise it sets the matching error. |
| Profile.PasswordUpdateFields | src/screens/ProfileScreen.jsx:398-400 | The password update changes only the password. |
| Profile.NotificationUpdateFields | src/screens/ProfileScreen.jsx:279-284 | The notification update changes only the notifications. |
| Profile.SettingUpdateFields | src/screens/ProfileScreen.jsx:263-272 | A language, currency or theme choice forwarded by `handleSettingsChange` changes that one setting of the user and keeps every other field. |
| Checkout.DatesError | src/screens/CheckoutScreen.jsx:230-238 | The dates message is empty exactly when both dates are set and the end is not before the start as a string. It reads "missing" or "inverted" accordingly. |
| Checkout.DatesOk | src/screens/CheckoutScreen.jsx:238-244 | Both dates are set and the end does not sort before the start as text. `Checkout.DatesError` and `Checkout.DatesOkIsOrder` state it. |
| Checkout.CreditOk | src/screens/CheckoutScreen.jsx:246-263 | Card payment: a printed name, a valid number, an unexpired expiry and a valid code. `Checkout.SubmitErrors` uses it. |
| Checkout.PaymentOk | src/screens/CheckoutScreen.jsx:246-270 | Card payment needs `Checkout.CreditOk`, Pix needs a payer name, any other method nothing. `Checkout.SubmitErrors` states that there is no message exactly when it and the dates pass. |
| Checkout.SubmitErrors | src/screens/CheckoutScreen.jsx:228-274 | No message exactly when the dates and the chosen payment pass. Card messages appear only for credit, the pix message only for pix. |
| Checkout.DatesOkIsOrder | src/screens/CheckoutScreen.jsx:230-238 | For ISO dates the string check is date order. |
| Checkout.PrefixesExclusive | src/screens/CheckoutScreen.jsx:276-287 | The id prefixes exclude each other. |
| Checkout.ServiceTypeOf | src/screens/CheckoutScreen.jsx:276-287 | An explicit type wins. Otherwise "flight-", "hotel-", "package-" and "bus-" map to voo, hotel, pacote and onibus, and anything else to "outro". |
| Checkout.DatesDisplay | src/screens/CheckoutScreen.jsx:173-176 | Without both dates the display text is empty. |
| Checkout.PayloadFiledUnderStart | src/screens/CheckoutScreen.jsx:289-300 | The trips screen dates an emitted reservation by its start. |
| Checkout.DisplayFiledUnderStart | src/screens/CheckoutScreen.jsx:173-176 | The display text alone also dates it by its start. |
| Checkout.CheckoutScreen.constructor | src/screens/CheckoutScreen.jsx:71-113 | The destination is the one sent, the fallback or Rio. Dates and party come from the search, the payment is credit, and the names come from the user. |
| Checkout.CheckoutScreen.HandleToggleCalendar | src/screens/CheckoutScreen.jsx:178-180 | Flips the calendar open. |
| Checkout.CheckoutScreen.HandleChangeMonth | src/screens/CheckoutScreen.jsx:182-196 | The shown month moves by the step, wrapping the year. |
| Checkout.CheckoutScreen.CalendarDays | src/screens/CheckoutScreen.jsx:38-50 | The grid of the shown month. |
| Checkout.CheckoutScreen.HandleDayClick | src/screens/CheckoutScreen.jsx:198-219 | Applies the range update, closes on completion and clears the dates message. |
| Checkout.CheckoutScreen.HandleClearDates | src/screens/CheckoutScreen.jsx:221-225 | Clears both dates and the dates message. |
| Checkout.CheckoutScreen.HandleSubmit | src/screens/CheckoutScreen.jsx:227-315 | Sets the messages. A reservation is emitted exactly when there are none, and it is the payload with its service type and date keys. |
| Checkout.DateKeysOfService | src/screens/CheckoutScreen.jsx:302-312 | voo/onibus get data_ida/data_volta, hotel gets checkin/checkout, and the others get data_inicio/data_fim, each holding its date or null. |
| Checkout.Payload | src/screens/CheckoutScreen.jsx:289-312 | The emitted reservation: the base fields plus the two date keys of its service type. `Checkout.DateKeysOfService` and `Checkout.PayloadFiledUnderStart` state it. |
| Signup.NameError | src/screens/SignupScreen.jsx:59-64 | Empty exactly when the trimmed name is non-empty. |
| Signup.EmailError | src/screens/SignupScreen.jsx:66-76 | Missing, invalid or empty exactly as the trimmed email is empty, invalid or valid. |
| Signup.PhoneError | src/screens/SignupScreen.jsx:78-84 | Missing without digits, invalid unless 10 or 11 digits, empty otherwise. |
| Signup.PasswordError | src/screens/SignupScreen.jsx:86-89 | Empty exactly when the password has at least 6 characters. |
| Signup.SubmitErrorsValid | src/screens/SignupScreen.jsx:51-104 | A submission has no message exactly when the terms are accepted and every field passes its check. |
| Signup.FieldsOk | src/screens/SignupScreen.jsx:59-93 | Every field passes: a name, a valid email, a phone of 10 or 11 digits, a password of at least 6 characters, and a matching confirmation. `Signup.SubmitErrorsValid` uses it. |
| Signup.SubmitErrors | src/screens/SignupScreen.jsx:51-101 | The messages of a submission, one per field and one form-wide. `Signup.SubmitErrorsValid` and `Signup.SubmitErrorsForm` state them. |
| Signup.SubmitErrorsForm | src/screens/SignupScreen.jsx:91-101 | An unchecked box gives the terms message. Otherwise any failing field gives "Corrija os campos". The mismatch message appears exactly when the passwords differ. |
| Signup.AcceptedFormCreatesUser | src/screens/SignupScreen.jsx:103-116 | A passing form always creates the account, with trimmed fields and a valid email and phone. |
| Signup.Payload | src/screens/SignupScreen.jsx:109-114 | What `onSignup` receives: the trimmed name, email and phone and the password as typed. `Signup.AcceptedFormCreatesUser` states it. |
| Signup.SignupScreen.constructor | src/screens/SignupScreen.jsx:6-18 | Every field starts empty, with no errors. |
| Signup.SignupScreen.HandleNameChange | src/screens/SignupScreen.jsx:145-153 | Stores the name and sets its message. |
| Signup.SignupScreen.HandleEmailChange | src/screens/SignupScreen.jsx:172-183 | Stores the email and sets its message. |
| Signup.SignupScreen.HandlePhoneChange | src/screens/SignupScreen.jsx:202-215 | Stores the masked phone and sets its message. |
| Signup.SignupScreen.HandlePasswordChange | src/screens/SignupScreen.jsx:235-246 | Stores the password and checks its length. The confirmation is re-checked only once one was typed. |
| Signup.SignupScreen.HandleConfirmPasswordChange | src/screens/SignupScreen.jsx:269-275 | Flags a mismatch only once a password was typed. |
| Signup.SignupScreen.HandleTermsChange | src/screens/SignupScreen.jsx:288 | Stores the box. |
| Signup.SignupScreen.HandleSubmit | src/screens/SignupScreen.jsx:51-117 | Sets the submission's messages. The payload (trimmed name, email and phone, raw password) is handed over exactly when there are none, that is exactly when the terms are accepted and every field passes. |
| Signup.SubmittedPayloadCreatesUser | src/screens/SignupScreen.jsx:103-116 | An accepted submission always yields a user in the store. |

## Left out

- Rendering, CSS classes, icons, routing and `navigate` are not modelled.
- `translations.js`, the presentational components and the home, featured,
  review and confirmation screens are not part of this model.
- The detail screens (flight, hotel, bus, package, tour, destination) are not
  part of this model. Their only logic is a find-or-first lookup plus
  `calculateTotalPrice`, and their id prefixes feed `Checkout.ServiceTypeOf`.
- `LoginScreen.jsx` is not part of this model. Its only check is a non-blank
  identifier, which `App.LoginUser` repeats.
- `localStorage` loading and saving in `App.jsx` (lines 32-79) is browser
  I/O. `App.AppState.constructor` starts from an empty store.
- `setTimeout` delays are timing only:
  - the search screen's delayed finish is the separate
    `SearchScreen.SearchScreenState.FinishSearch`;
  - the 400 ms signup delay is dropped, so `isSubmitting` is never reset.
- `Intl.NumberFormat` is modelled by its effect for pt-BR with no fraction
  digits: '.' between groups of three and half-expand rounding, as section 15
  (NumberFormat Objects) of ECMA-402 specifies. A negative amount prints
  with a leading '-'.
- IEEE-754 floating point: amounts are exact reals and ratings are integer
  tenths. Rounding error in `parseFloat` and in `* 0.5` is not modelled.
- JavaScript `Date`:
  - time zones are ignored;
  - `Date.now()`, today's date and the current month and year are parameters;
  - weekdays and month lengths come from a Gregorian-calendar function.
- `Calendar.JsNumber` reads only signed integer numerals, with surrounding
  whitespace and the empty string as 0. `Number` also accepts decimal,
  exponent, hexadecimal, octal and binary notation and "Infinity"; the model
  gives NaN for these. So `Calendar.ParseIsoDate` returns null for
  "2026-1e1-05", where the source builds a date in October 2026. Dates in
  these notations are outside the model.
- `Calendar.ParseIsoDate` does not normalise overflowing days or months
  the way `new Date` does. It returns the raw fields. The callers use the
  result only as a value to compare and print.
- `SearchScreen.FilteredTours`: a tour's date and the search bounds are
  taken as already parsed dates. The parsing of free text by `new Date(string)`
  is not modelled.
- Unicode: `toLowerCase`/`toUpperCase`, the extent of `\s` and the letter
  range `À-ÿ` are approximated by fixed character predicates (ASCII letters,
  the Latin-1 accented letters and the common white-space characters).
- `Signup.PasswordError`, `Signup.FieldsOk` and
  `Signup.SignupScreen.HandlePasswordChange` count a password's length in
  characters. `password.length` counts UTF-16 code units, so a character
  outside the Basic Multilingual Plane counts twice in the source: "😀😀😀"
  passes its six-character check and fails the model's. Surrogate pairs are
  not modelled.
- `Sorting.SortBy`: `Array.prototype.sort` is modelled by an insertion
  sort. Both are stable, so the result is the same list; the comparator's
  non-number cases (a `NaN` difference) do not arise with integer ranks.
- `handleSettingsChange` (ProfileScreen.jsx:253-273) is not modelled as a
  method: it forwards a language, currency or theme choice to `onUpdateUser`
  without a check. What that update does to the user is stated by
  `Profile.SettingUpdateFields` and `App.UpdateUser`; the local settings
  form and `changeLanguage` are display state.
- `window.confirm` before deleting an account (ProfileScreen.jsx:405) is a
  browser dialog and is not modelled.
- DOM measurement and click-outside listeners in `SearchBar.jsx` are not
  modelled.
- The checkout's adults and children selects (CheckoutScreen.jsx:494-519)
  are not modelled. They write the counts straight into state.
- The initial calendar month of the search bar and the checkout
  (`parseIsoDate(dateStart) || new Date()`) is a constructor parameter.
- `Checkout.CheckoutScreen.HandleSubmit`,
  `Profile.ProfileScreen.HandleProfileSubmit` and
  `Signup.SignupScreen.HandleSubmit` compute their messages as one record
  from the same checks (`Signup.SubmitErrors`,
  `Profile.ProfileSubmitErrors`). The source sets them in a sequence of
  `if` statements. The messages and the `hasError` outcome are the same.

On these points the model follows the code as written:

- `parseIsoDate` rejects only a zero, empty or non-numeric year. A month
  or day of "0" gives -1 or 0 and is kept, and an empty part counts as 0
  (`Number("") === 0`).
- `handleConfirmReservation` spreads the reservation after the new id, so an
  id the reservation already carries wins (`App.WithId`).
- `formatPeople` treats only a zero total as "Não informado". Negative
  counts produce "", which `Trips.FormatPeople` states.
- The live check of the confirmation field is skipped while the password
  is still empty (`Signup.SignupScreen.HandleConfirmPasswordChange`).
- A new card's id is "card-" followed by the card count plus one, which
  repeats an existing id after a removal (`Profile.NextCardIdCanRepeat`).
  The model keeps this as written.
