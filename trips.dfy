/**
 * The trips screen of `TripsScreen.jsx`: the people line and service label
 * of a reservation, the date a reservation is filed under, the trip list
 * in date order with undated trips last, the next trip and the others, and
 * the supplier line looked up in the catalogues.
 */
module Trips {
  import opened Text
  import opened Collections
  import opened Records
  import opened Calendar
  import opened Sorting
  import opened SearchScreen

  // ---------------------------------------------------------------------
  // formatPeople
  // ---------------------------------------------------------------------

  const NotInformed: string := "Não informado"

  /** `n || 0` for a count that may be missing. */
  function CountOrZero(n: Option<int>): int {
    if n.Some? then n.value else 0
  }

  /**
   * The party of a reservation as text: a stored string is shown as it is,
   * counts are spelled out with the positive ones only, and a missing party
   * or two zero counts read "Não informado".
   */
  method FormatPeople(people: People) returns (text: string)
    ensures people.NoPeople? || people == PeopleText([]) ==> text == NotInformed
    ensures people.PeopleText? && people.text != [] ==> text == people.text
    ensures people.PeopleCounts? ==>
              var a, c := CountOrZero(people.adults), CountOrZero(people.children);
              (a == 0 && c == 0 ==> text == NotInformed)
              && (a > 0 && c > 0 ==> text == NatToString(a) + " adulto(s)" + ", " + NatToString(c) + " criança(s)")
              && (a > 0 && c <= 0 ==> text == NatToString(a) + " adulto(s)")
              && (a <= 0 && c > 0 ==> text == NatToString(c) + " criança(s)")
              && (a <= 0 && c <= 0 && !(a == 0 && c == 0) ==> text == [])
  {
    if people.NoPeople? || people == PeopleText([]) {
      return NotInformed;
    }
    if people.PeopleText? {
      return people.text;
    }
    var adults := CountOrZero(people.adults);
    var children := CountOrZero(people.children);
    if adults == 0 && children == 0 {
      return NotInformed;
    }
    var parts: seq<string> := [];
    if adults > 0 {
      parts := parts + [NatToString(adults) + " adulto(s)"];
    }
    if children > 0 {
      parts := parts + [NatToString(children) + " criança(s)"];
    }
    if |parts| == 2 {
      JoinSmall(parts[0], parts[1], ", ");
      assert parts == [parts[0], parts[1]];
    } else if |parts| == 1 {
      JoinSmall(parts[0], "", ", ");
      assert parts == [parts[0]];
    }
    text := Join(parts, ", ");
  }

  // ---------------------------------------------------------------------
  // getServiceLabel
  // ---------------------------------------------------------------------

  const KnownServices: set<string> := {"voo", "hotel", "pacote", "onibus", "destino"}

  /** The label of a service type; an unknown or missing type is a generic trip. */
  function ServiceLabel(serviceType: Option<string>): (name: string)
    ensures name == "Viagem" <==> serviceType.None? || serviceType.value !in KnownServices
  {
    if serviceType == Some("voo") then "Voo"
    else if serviceType == Some("hotel") then "Hotel"
    else if serviceType == Some("pacote") then "Pacote"
    else if serviceType == Some("onibus") then "Ônibus"
    else if serviceType == Some("destino") then "Destino"
    else "Viagem"
  }

  /** Different known services never share a label. */
  lemma ServiceLabelsDistinct(s: string, t: string)
    requires s in KnownServices && t in KnownServices && s != t
    ensures ServiceLabel(Some(s)) != ServiceLabel(Some(t))
  {
  }

  // ---------------------------------------------------------------------
  // parseTripDate
  // ---------------------------------------------------------------------

  /**
   * The date of a "YYYY-MM-DD" start date, as the fields given to
   * `new Date(year, month - 1, day)`; day numbers account for the roll-over.
   */
  function IsoTripDate(s: string): Date
    requires IsoShaped(s)
  {
    Date(JsYear(DigitsValue(s[..4])), DigitsValue(s[5..7]) - 1, DigitsValue(s[8..]))
  }

  /** The length of a `\d{1,2}` group starting at a digit at `i`. */
  function GroupLength(s: string, i: nat): (n: nat)
    requires i < |s|
    ensures n == 1 || n == 2
    ensures i + n <= |s|
  {
    if i + 1 < |s| && IsDigit(s[i + 1]) then 2 else 1
  }

  /**
   * A match of `(\d{1,2})\/(\d{1,2})\/(\d{4})` starting at `i`, read as a
   * day, a month and a year. Each one-or-two digit group takes two digits
   * whenever two are there: with one digit only, the next character would be
   * a digit, not the '/' that must follow.
   */
  function MatchAt(s: string, i: nat): (r: Option<Date>)
    ensures r.Some? ==> i < |s| && IsDigit(s[i])
  {
    if !(i < |s| && IsDigit(s[i])) then None
    else
      var j := i + GroupLength(s, i);
      if !(j + 1 < |s| && s[j] == '/' && IsDigit(s[j + 1])) then None
      else
        var k := j + 1 + GroupLength(s, j + 1);
        if !(k + 5 <= |s| && s[k] == '/' && AllDigits(s[k + 1..k + 5])) then None
        else Some(Date(JsYear(DigitsValue(s[k + 1..k + 5])), DigitsValue(s[j + 1..k]) - 1, DigitsValue(s[i..j])))
  }

  /** The position of the leftmost match at or after `from`, or `|s|` when there is none. */
  function FirstMatch(s: string, from: nat): (k: nat)
    requires from <= |s|
    ensures from <= k <= |s|
    ensures forall j :: from <= j < k ==> MatchAt(s, j).None?
    ensures k < |s| ==> MatchAt(s, k).Some?
    decreases |s| - from
  {
    if from == |s| then from
    else if MatchAt(s, from).Some? then from
    else FirstMatch(s, from + 1)
  }

  /** `target.match(...)`: the date of the leftmost match, if any. */
  function DateInText(s: string): (r: Option<Date>)
    ensures r.None? <==> forall j :: 0 <= j < |s| ==> MatchAt(s, j).None?
    ensures r.Some? ==> exists j :: 0 <= j < |s| && r == MatchAt(s, j)
  {
    var k := FirstMatch(s, 0);
    if k < |s| then MatchAt(s, k) else None
  }

  /** The text searched for a date: the trimmed part before "→", or the whole text when that is empty. */
  function TripTarget(dates: string): string {
    Or(Trim(Split(dates, '→')[0]), dates)
  }

  /**
   * The date a reservation is filed under: its start date when that has the
   * ISO form, otherwise the first day/month/year in its dates text.
   */
  function ParseTripDate(r: Reservation): (d: Option<Date>)
    ensures r.dateStart.Some? && IsoShaped(r.dateStart.value) ==> d == Some(IsoTripDate(r.dateStart.value))
    ensures !(r.dateStart.Some? && IsoShaped(r.dateStart.value)) && r.dates.None? ==> d.None?
    ensures !(r.dateStart.Some? && IsoShaped(r.dateStart.value)) && r.dates.Some? ==>
              d == DateInText(TripTarget(r.dates.value))
  {
    if r.dateStart.Some? && IsoShaped(r.dateStart.value) then Some(IsoTripDate(r.dateStart.value))
    else if r.dates.Some? then DateInText(TripTarget(r.dates.value))
    else None
  }

  /** A reservation whose start date is stored in ISO form is filed under that date. */
  lemma TripDateFromIso(r: Reservation, d: Date)
    requires ValidDate(d) && 1000 <= d.year <= 9999
    requires r.dateStart == Some(ToIsoDate(d))
    ensures ParseTripDate(r) == Some(d)
  {
    IsoFields(d);
    IsoParts(d);
  }

  /** The pieces of "DD/MM/YYYY" for a date with a four-digit year. */
  lemma DisplayPieces(d: Date)
    requires ValidDate(d) && 1000 <= d.year <= 9999
    ensures var t := FormatDateForDisplay(ToIsoDate(d));
      |t| == 10 && t[2] == '/' && t[5] == '/'
      && AllDigits(t[..2]) && AllDigits(t[3..5]) && AllDigits(t[6..])
      && DigitsValue(t[..2]) == d.day && DigitsValue(t[3..5]) == d.month + 1 && DigitsValue(t[6..]) == d.year
  {
    DisplayOfIsoDate(d);
    IsoParts(d);
    NatToStringLength(d.year, 4);
    DisplaySlices(NatToString(d.year), Pad2(NatToString(d.month + 1)), Pad2(NatToString(d.day)));
  }

  /** "DD/MM/YYYY" matches at its first character and reads back as the date. */
  lemma DisplayMatches(d: Date)
    requires ValidDate(d) && 1000 <= d.year <= 9999
    ensures DateInText(FormatDateForDisplay(ToIsoDate(d))) == Some(d)
  {
    DisplayPieces(d);
    var t := FormatDateForDisplay(ToIsoDate(d));
    SlashedMatch(t);
    assert FirstMatch(t, 0) == 0;
  }

  /** Two digits, '/', two digits, '/', four digits: the pattern matches at 0 and reads the three groups. */
  lemma SlashedMatch(t: string)
    requires |t| == 10 && t[2] == '/' && t[5] == '/'
    requires AllDigits(t[..2]) && AllDigits(t[3..5]) && AllDigits(t[6..])
    ensures MatchAt(t, 0) == Some(Date(JsYear(DigitsValue(t[6..])), DigitsValue(t[3..5]) - 1, DigitsValue(t[..2])))
  {
    assert IsDigit(t[0]) && IsDigit(t[1]) by {
      assert t[0] == t[..2][0] && t[1] == t[..2][1];
    }
    assert IsDigit(t[3]) && IsDigit(t[4]) by {
      assert t[3] == t[3..5][0] && t[4] == t[3..5][1];
    }
    assert GroupLength(t, 0) == 2 && GroupLength(t, 3) == 2;
    assert t[6..10] == t[6..] && t[0..2] == t[..2];
  }

  /** The display form has no arrow and no whitespace at its ends. */
  lemma DisplayIsPlain(d: Date)
    requires ValidDate(d) && 1000 <= d.year <= 9999
    ensures '→' !in FormatDateForDisplay(ToIsoDate(d))
    ensures Trim(FormatDateForDisplay(ToIsoDate(d)) + " ") == FormatDateForDisplay(ToIsoDate(d))
  {
    DisplayOfIsoDate(d);
    IsoParts(d);
    PlainDisplay(Pad2(NatToString(d.day)), Pad2(NatToString(d.month + 1)), NatToString(d.year));
  }

  /** Digit groups joined by '/' have no arrow and no whitespace at their ends. */
  lemma PlainDisplay(dd: string, m: string, y: string)
    requires AllDigits(dd) && AllDigits(m) && AllDigits(y) && dd != [] && y != []
    ensures var t := dd + "/" + m + "/" + y;
      '→' !in t && Trim(t + " ") == t
  {
    var t := dd + "/" + m + "/" + y;
    DigitsOrSlashesJoin(dd, "/");
    DigitsOrSlashesJoin(dd + "/", m);
    DigitsOrSlashesJoin(dd + "/" + m, "/");
    DigitsOrSlashesJoin(dd + "/" + m + "/", y);
    assert t[0] == dd[0] && t[|t| - 1] == y[|y| - 1];
    TrimSpaceAfter(t);
  }

  /** Every character is a digit or a '/'. */
  predicate DigitsOrSlashes(s: string) {
    forall i :: 0 <= i < |s| ==> IsDigit(s[i]) || s[i] == '/'
  }

  lemma DigitsOrSlashesJoin(x: string, y: string)
    requires DigitsOrSlashes(x) || AllDigits(x)
    requires DigitsOrSlashes(y) || AllDigits(y)
    ensures DigitsOrSlashes(x + y)
  {
    forall i | 0 <= i < |x + y|
      ensures IsDigit((x + y)[i]) || (x + y)[i] == '/'
    {
      if i < |x| {
        assert (x + y)[i] == x[i];
      } else {
        assert (x + y)[i] == y[i - |x|];
      }
    }
  }

  /** Trimming a text that ends in one space, after a first and last character that are not spaces. */
  lemma TrimSpaceAfter(t: string)
    requires |t| >= 1 && !IsSpace(t[0]) && !IsSpace(t[|t| - 1])
    ensures Trim(t + " ") == t
  {
    var s := t + " ";
    assert TrimStart(s) == s;
    assert s[..|s| - 1] == t;
    assert TrimEnd(s) == TrimEnd(t);
  }

  /**
   * A reservation whose dates text is the checkout's "DD/MM/YYYY → …" and
   * that has no ISO start date is filed under the date before the arrow.
   */
  lemma TripDateFromDisplay(r: Reservation, d: Date, rest: string)
    requires ValidDate(d) && 1000 <= d.year <= 9999
    requires r.dateStart.None?
    requires r.dates == Some(FormatDateForDisplay(ToIsoDate(d)) + " → " + rest)
    ensures ParseTripDate(r) == Some(d)
  {
    var t := FormatDateForDisplay(ToIsoDate(d));
    DisplayIsPlain(d);
    DisplayMatches(d);
    TargetBeforeArrow(t, rest);
  }

  /** The target of "t → rest" is `t` when `t` has no arrow and trims to itself after a space. */
  lemma TargetBeforeArrow(t: string, rest: string)
    requires '→' !in t && t != []
    requires Trim(t + " ") == t
    ensures TripTarget(t + " → " + rest) == t
  {
    assert '→' !in t + " ";
    assert t + " → " + rest == (t + " ") + ['→'] + (" " + rest);
    SplitAfter(t + " ", '→', " " + rest);
  }

  // ---------------------------------------------------------------------
  // sortedReservations, nextTrip, otherTrips
  // ---------------------------------------------------------------------

  /** Dated trips first, by day; undated trips after them, all tied. */
  function TripRank(r: Reservation): (int, int) {
    var d := ParseTripDate(r);
    if d.Some? then (0, DayOf(d.value)) else (1, 0)
  }

  /**
   * A copy of the reservations sorted by trip date, undated trips last; trips
   * of the same rank (the same day, or both undated) keep their list order.
   */
  method SortedReservations(reservations: seq<Reservation>) returns (sorted: seq<Reservation>)
    ensures sorted == InsertionSorted(reservations, TripRank)
    ensures multiset(sorted) == multiset(reservations)
    ensures SortedBy(sorted, TripRank)
    ensures forall k :: Ties(sorted, TripRank, k) == Ties(reservations, TripRank, k)
  {
    var a := new Reservation[|reservations|](i requires 0 <= i < |reservations| => reservations[i]);
    assert a[..] == reservations;
    SortBy(a, TripRank);
    sorted := a[..];
  }

  /**
   * Of the reservations ranked like the next trip (the same day, or both
   * undated), the next trip is the one listed first.
   */
  lemma NextTripFirstListed(reservations: seq<Reservation>)
    requires reservations != []
    ensures var next := NextTrip(InsertionSorted(reservations, TripRank)).value;
      Ties(reservations, TripRank, TripRank(next)) != [] &&
      Ties(reservations, TripRank, TripRank(next))[0] == next
  {
    var sorted := InsertionSorted(reservations, TripRank);
    InsertionSortedPerm(reservations, TripRank);
    assert sorted != [] by {
      assert reservations[0] in multiset(reservations);
    }
    InsertionSortedStable(reservations, TripRank);
    TiesHead(sorted, TripRank);
  }

  /**
   * In a list sorted by trip rank, a dated trip is preceded only by dated
   * trips on the same day or earlier; so the undated trips come last.
   */
  lemma DatedBeforeUndated(s: seq<Reservation>, i: int, j: int)
    requires SortedBy(s, TripRank) && 0 <= i < j < |s|
    ensures ParseTripDate(s[j]).Some? ==>
              ParseTripDate(s[i]).Some? && DayOf(ParseTripDate(s[i]).value) <= DayOf(ParseTripDate(s[j]).value)
    ensures ParseTripDate(s[i]).None? ==> ParseTripDate(s[j]).None?
  {
    assert RankLe(TripRank(s[i]), TripRank(s[j]));
  }

  /** The first trip of the sorted list. */
  function NextTrip(sorted: seq<Reservation>): (next: Option<Reservation>)
    ensures next.Some? <==> sorted != []
  {
    if |sorted| > 0 then Some(sorted[0]) else None
  }

  /** The trips after the first. */
  function OtherTrips(sorted: seq<Reservation>): (others: seq<Reservation>)
    ensures |others| == if sorted == [] then 0 else |sorted| - 1
  {
    if |sorted| > 1 then sorted[1..] else []
  }

  /** The next trip followed by the others is the whole sorted list. */
  lemma NextAndOthers(sorted: seq<Reservation>)
    ensures sorted == [] ==> NextTrip(sorted).None? && OtherTrips(sorted) == []
    ensures sorted != [] ==> [NextTrip(sorted).value] + OtherTrips(sorted) == sorted
  {
    if |sorted| == 1 {
      assert sorted == [sorted[0]];
    }
  }

  /** The next trip ranks no later than any other trip. */
  lemma NextTripFirst(sorted: seq<Reservation>)
    requires SortedBy(sorted, TripRank)
    ensures forall t :: t in OtherTrips(sorted) ==> RankLe(TripRank(NextTrip(sorted).value), TripRank(t))
  {
    forall t | t in OtherTrips(sorted)
      ensures RankLe(TripRank(NextTrip(sorted).value), TripRank(t))
    {
      var k :| 0 <= k < |sorted[1..]| && sorted[1..][k] == t;
      assert sorted[k + 1] == t;
    }
  }

  // ---------------------------------------------------------------------
  // getSupplierInfo
  // ---------------------------------------------------------------------

  /** The trip name written for a route: "origin → destination". */
  function RouteName(origin: string, destination: string): string {
    origin + " → " + destination
  }

  function FlightOf(trip: Reservation): Flight -> bool {
    (f: Flight) => trip.destinationName == Some(RouteName(f.originCity, f.destinationCity)) && trip.price == Some(f.price)
  }

  function BusOf(trip: Reservation): Bus -> bool {
    (b: Bus) => trip.destinationName == Some(RouteName(b.originCity, b.destinationCity)) && trip.price == Some(b.price)
  }

  function HotelOf(trip: Reservation): Hotel -> bool {
    (h: Hotel) => trip.destinationName.Some? && trip.destinationName.value != []
                  && Contains(LowerStr(trip.destinationName.value), LowerStr(h.name))
  }

  function PackageOf(trip: Reservation): TourPackage -> bool {
    (p: TourPackage) => trip.destinationName == Some(p.title) || trip.destinationName == Some(p.city)
  }

  function FlightLabel(f: Flight): string {
    f.airline + " (" + f.airlineCode + ")"
  }

  function BusLabel(b: Bus): string {
    b.company + " (" + b.companyCode + ")"
  }

  function HotelLabel(h: Hotel): string {
    h.name + " · " + h.city
  }

  function PackageLabel(p: TourPackage): string {
    p.title + " · " + p.city
  }

  /**
   * The supplier line of a trip, looked up in the catalogues by service
   * type, with a fixed text when nothing matches. There is none without a
   * service type or for an unknown one.
   */
  function SupplierInfo(trip: Reservation, flights: seq<Flight>, buses: seq<Bus>, hotels: seq<Hotel>,
                        packages: seq<TourPackage>): (info: Option<string>)
    ensures info.Some? <==> trip.serviceType.Some? && trip.serviceType.value in KnownServices
    ensures info.Some? ==> info.value != []
  {
    if trip.serviceType == Some("voo") then
      var m := FindFirst(flights, FlightOf(trip));
      Some(if m.Some? then FlightLabel(m.value) else "Companhia aérea")
    else if trip.serviceType == Some("onibus") then
      var m := FindFirst(buses, BusOf(trip));
      Some(if m.Some? then BusLabel(m.value) else "Empresa de ônibus")
    else if trip.serviceType == Some("hotel") then
      var m := FindFirst(hotels, HotelOf(trip));
      Some(if m.Some? then HotelLabel(m.value) else "Hotel reservado")
    else if trip.serviceType == Some("pacote") then
      var m := FindFirst(packages, PackageOf(trip));
      Some(if m.Some? then PackageLabel(m.value) else "Pacote de viagem")
    else if trip.serviceType == Some("destino") then
      Some(Or(if trip.destinationName.Some? then trip.destinationName.value else "", "Destino salvo"))
    else None
  }

  /**
   * A flight trip names the first flight on its route at its price, and
   * the generic airline text when there is none.
   */
  lemma SupplierOfFlight(trip: Reservation, flights: seq<Flight>, buses: seq<Bus>, hotels: seq<Hotel>,
                         packages: seq<TourPackage>, i: int)
    requires trip.serviceType == Some("voo")
    ensures 0 <= i < |flights| && FlightOf(trip)(flights[i]) && (forall j :: 0 <= j < i ==> !FlightOf(trip)(flights[j])) ==>
              SupplierInfo(trip, flights, buses, hotels, packages) == Some(FlightLabel(flights[i]))
    ensures (forall j :: 0 <= j < |flights| ==> !FlightOf(trip)(flights[j])) ==>
              SupplierInfo(trip, flights, buses, hotels, packages) == Some("Companhia aérea")
  {
    if 0 <= i < |flights| && FlightOf(trip)(flights[i]) && (forall j :: 0 <= j < i ==> !FlightOf(trip)(flights[j])) {
      var k := FindIndex(flights, FlightOf(trip));
      assert k <= i;
    }
  }

  /** A bus trip names the first bus on its route at its price, else the generic company text. */
  lemma SupplierOfBus(trip: Reservation, flights: seq<Flight>, buses: seq<Bus>, hotels: seq<Hotel>,
                      packages: seq<TourPackage>, i: int)
    requires trip.serviceType == Some("onibus")
    ensures 0 <= i < |buses| && BusOf(trip)(buses[i]) && (forall j :: 0 <= j < i ==> !BusOf(trip)(buses[j])) ==>
              SupplierInfo(trip, flights, buses, hotels, packages) == Some(BusLabel(buses[i]))
    ensures (forall j :: 0 <= j < |buses| ==> !BusOf(trip)(buses[j])) ==>
              SupplierInfo(trip, flights, buses, hotels, packages) == Some("Empresa de ônibus")
  {
    if 0 <= i < |buses| && BusOf(trip)(buses[i]) && (forall j :: 0 <= j < i ==> !BusOf(trip)(buses[j])) {
      var k := FindIndex(buses, BusOf(trip));
      assert k <= i;
    }
  }

  /**
   * A hotel trip names the first hotel whose name occurs, ignoring case, in
   * the trip's name, else the generic hotel text; a trip without a name
   * never matches.
   */
  lemma SupplierOfHotel(trip: Reservation, flights: seq<Flight>, buses: seq<Bus>, hotels: seq<Hotel>,
                        packages: seq<TourPackage>, i: int)
    requires trip.serviceType == Some("hotel")
    ensures 0 <= i < |hotels| && HotelOf(trip)(hotels[i]) && (forall j :: 0 <= j < i ==> !HotelOf(trip)(hotels[j])) ==>
              SupplierInfo(trip, flights, buses, hotels, packages) == Some(HotelLabel(hotels[i]))
    ensures (forall j :: 0 <= j < |hotels| ==> !HotelOf(trip)(hotels[j])) ==>
              SupplierInfo(trip, flights, buses, hotels, packages) == Some("Hotel reservado")
    ensures trip.destinationName.None? || trip.destinationName == Some([]) ==>
              SupplierInfo(trip, flights, buses, hotels, packages) == Some("Hotel reservado")
  {
    if 0 <= i < |hotels| && HotelOf(trip)(hotels[i]) && (forall j :: 0 <= j < i ==> !HotelOf(trip)(hotels[j])) {
      var k := FindIndex(hotels, HotelOf(trip));
      assert k <= i;
    }
  }

  /** A package trip names the first package with its title or city as the trip's name. */
  lemma SupplierOfPackage(trip: Reservation, flights: seq<Flight>, buses: seq<Bus>, hotels: seq<Hotel>,
                          packages: seq<TourPackage>, i: int)
    requires trip.serviceType == Some("pacote")
    ensures 0 <= i < |packages| && PackageOf(trip)(packages[i]) && (forall j :: 0 <= j < i ==> !PackageOf(trip)(packages[j])) ==>
              SupplierInfo(trip, flights, buses, hotels, packages) == Some(PackageLabel(packages[i]))
    ensures (forall j :: 0 <= j < |packages| ==> !PackageOf(trip)(packages[j])) ==>
              SupplierInfo(trip, flights, buses, hotels, packages) == Some("Pacote de viagem")
  {
    if 0 <= i < |packages| && PackageOf(trip)(packages[i]) && (forall j :: 0 <= j < i ==> !PackageOf(trip)(packages[j])) {
      var k := FindIndex(packages, PackageOf(trip));
      assert k <= i;
    }
  }

  /** A saved destination shows its own name, or "Destino salvo" without one. */
  lemma SupplierOfDestination(trip: Reservation, flights: seq<Flight>, buses: seq<Bus>, hotels: seq<Hotel>,
                              packages: seq<TourPackage>)
    requires trip.serviceType == Some("destino")
    ensures trip.destinationName.Some? && trip.destinationName.value != [] ==>
              SupplierInfo(trip, flights, buses, hotels, packages) == trip.destinationName
    ensures trip.destinationName.None? || trip.destinationName == Some([]) ==>
              SupplierInfo(trip, flights, buses, hotels, packages) == Some("Destino salvo")
  {
  }
}
