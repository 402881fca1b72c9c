/**
 * The search screen of `SearchScreen.jsx`: the catalogue entries, the text
 * filters over flights, hotels, packages and buses, the three-stage tour
 * filter, the featured tours, the search button and the flags that decide
 * what is shown.
 *
 * Ratings are whole tenths (4.8 is 48). A tour's date and the chosen bounds
 * are calendar dates; comparisons use their day numbers, as `Date`
 * comparisons use `getTime()`.
 */
module SearchScreen {
  import opened Text
  import opened Collections
  import opened Records
  import opened Calendar
  import opened Sorting
  import opened SearchBar

  datatype Tour = Tour(
    id: string,
    title: string,
    city: string,
    country: string,
    date: Option<Date>,
    people: Option<int>,
    rating: Option<int>,
    featuredPriority: Option<int>,
    price: string)

  datatype Flight = Flight(
    id: string,
    airline: string,
    airlineCode: string,
    originCity: string,
    destinationCity: string,
    price: string)

  datatype Hotel = Hotel(id: string, name: string, city: string, country: string, pricePerNight: string)

  datatype TourPackage = TourPackage(id: string, title: string, city: string, country: string, price: string)

  datatype Bus = Bus(
    id: string,
    company: string,
    companyCode: string,
    originCity: string,
    destinationCity: string,
    price: string)

  // ---------------------------------------------------------------------
  // Text filters
  // ---------------------------------------------------------------------

  /** `destinationValue.trim().toLowerCase()`. */
  function NormalizeQuery(destinationValue: string): string {
    LowerStr(Trim(destinationValue))
  }

  function Matches<T>(target: T -> string, q: string): T -> bool {
    (x: T) => Contains(LowerStr(target(x)), q)
  }

  /**
   * A blank query keeps the whole catalogue; otherwise the entries whose
   * lower-cased searchable text contains the query, in catalogue order.
   */
  function QueryFilter<T(==)>(catalog: seq<T>, target: T -> string, q: string): (r: seq<T>)
    ensures q == [] ==> r == catalog
    ensures IsSubsequence(r, catalog)
    ensures forall i :: 0 <= i < |catalog| ==>
              (catalog[i] in r <==> q == [] || Contains(LowerStr(target(catalog[i])), q))
    ensures forall i :: 0 <= i < |r| ==> q == [] || Contains(LowerStr(target(r[i])), q)
  {
    if q == [] then
      assert IsSubsequence(catalog, catalog) by {
        FilterAll(catalog, (x: T) => true);
        FilterIsSubsequence(catalog, (x: T) => true);
      }
      catalog
    else
      FilterIsSubsequence(catalog, Matches(target, q));
      Filter(catalog, Matches(target, q))
  }

  /** Searching again within the results finds the same results. */
  lemma QueryFilterIdempotent<T>(catalog: seq<T>, target: T -> string, q: string)
    ensures QueryFilter(QueryFilter(catalog, target, q), target, q) == QueryFilter(catalog, target, q)
  {
    if q != [] {
      FilterIdempotent(catalog, Matches(target, q));
    }
  }

  function FlightText(f: Flight): string {
    f.originCity + " " + f.destinationCity + " " + f.airline
  }

  function HotelText(h: Hotel): string {
    h.name + " " + h.city + " " + h.country
  }

  function PackageText(p: TourPackage): string {
    p.title + " " + p.city + " " + p.country
  }

  function BusText(b: Bus): string {
    b.originCity + " " + b.destinationCity + " " + b.company
  }

  function TourText(t: Tour): string {
    t.title + " " + t.city + " " + t.country
  }

  function FilteredFlights(flights: seq<Flight>, destinationValue: string): seq<Flight> {
    QueryFilter(flights, FlightText, NormalizeQuery(destinationValue))
  }

  function FilteredHotels(hotels: seq<Hotel>, destinationValue: string): seq<Hotel> {
    QueryFilter(hotels, HotelText, NormalizeQuery(destinationValue))
  }

  function FilteredPackages(packages: seq<TourPackage>, destinationValue: string): seq<TourPackage> {
    QueryFilter(packages, PackageText, NormalizeQuery(destinationValue))
  }

  function FilteredBuses(buses: seq<Bus>, destinationValue: string): seq<Bus> {
    QueryFilter(buses, BusText, NormalizeQuery(destinationValue))
  }

  /** A query of spaces only is blank: every catalogue is shown whole. */
  lemma BlankQueryShowsAll(flights: seq<Flight>, hotels: seq<Hotel>, packages: seq<TourPackage>,
                           buses: seq<Bus>, destinationValue: string)
    requires forall i :: 0 <= i < |destinationValue| ==> IsSpace(destinationValue[i])
    ensures FilteredFlights(flights, destinationValue) == flights
    ensures FilteredHotels(hotels, destinationValue) == hotels
    ensures FilteredPackages(packages, destinationValue) == packages
    ensures FilteredBuses(buses, destinationValue) == buses
  {
    TrimEmpty(destinationValue);
  }

  // ---------------------------------------------------------------------
  // filteredTours
  // ---------------------------------------------------------------------

  /** `(typeof n === "number" ? n : 0)` summed over the two counts. */
  function PartySize(p: People): int {
    OrDefault(AdultsOf(p), 0) + OrDefault(ChildrenOf(p), 0)
  }

  /** `peopleValue && (peopleValue.adults || peopleValue.children)`. */
  predicate HasCounts(p: People) {
    (AdultsOf(p).Some? && AdultsOf(p).value != 0) || (ChildrenOf(p).Some? && ChildrenOf(p).value != 0)
  }

  function TourMatches(q: string): Tour -> bool {
    (t: Tour) => q == [] || Contains(LowerStr(TourText(t)), q)
  }

  /** Undated tours pass; dated ones must lie within the bounds that are set, inclusively. */
  function InWindow(start: Option<Date>, end: Option<Date>): Tour -> bool {
    (t: Tour) => t.date.None? ||
      ((start.None? || DayOf(start.value) <= DayOf(t.date.value))
       && (end.None? || DayOf(t.date.value) <= DayOf(end.value)))
  }

  /** Tours without a numeric capacity pass; others must seat the whole party. */
  function HasRoom(total: int): Tour -> bool {
    (t: Tour) => total <= 0 || t.people.None? || t.people.value >= total
  }

  /** A tour that survives all three stages. */
  function TourKept(q: string, start: Option<Date>, end: Option<Date>, total: int): Tour -> bool {
    (t: Tour) => TourMatches(q)(t) && InWindow(start, end)(t) && HasRoom(total)(t)
  }

  /**
   * `filteredTours`: the text filter, then the date window when a bound is
   * set, then the capacity filter when the party has members.
   */
  method FilteredTours(tours: seq<Tour>, destinationValue: string, start: Option<Date>, end: Option<Date>,
                       people: People) returns (result: seq<Tour>)
    ensures result == Filter(tours, TourKept(NormalizeQuery(destinationValue), start, end, PartySize(people)))
  {
    var q := NormalizeQuery(destinationValue);
    var total := PartySize(people);
    var window := InWindow(start, end);
    var room := HasRoom(total);
    var stage1 := TourMatches(q);
    var stage12 := (t: Tour) => stage1(t) && window(t);
    result := tours;
    if q != [] {
      result := Filter(result, stage1);
    } else {
      FilterAll(tours, stage1);
    }
    if start.Some? || end.Some? {
      FilterFilter(tours, stage1, window, stage12);
      result := Filter(result, window);
    } else {
      FilterAll(result, window);
      FilterFilter(tours, stage1, window, stage12);
    }
    FilterFilter(tours, stage12, room, TourKept(q, start, end, total));
    if HasCounts(people) {
      if total > 0 {
        result := Filter(result, room);
      } else {
        FilterAll(result, room);
      }
    } else {
      FilterAll(result, room);
    }
  }

  /** The tour results keep catalogue order and hold exactly the tours passing every stage. */
  lemma FilteredToursSpec(tours: seq<Tour>, q: string, start: Option<Date>, end: Option<Date>, total: int)
    ensures IsSubsequence(Filter(tours, TourKept(q, start, end, total)), tours)
    ensures forall i :: 0 <= i < |tours| ==>
              (tours[i] in Filter(tours, TourKept(q, start, end, total)) <==> TourKept(q, start, end, total)(tours[i]))
  {
    FilterIsSubsequence(tours, TourKept(q, start, end, total));
  }

  /** A tour on either bound of a range passes the date stage; one outside it does not. */
  lemma WindowInclusive(t: Tour, start: Date, end: Date)
    requires t.date.Some?
    ensures InWindow(Some(start), Some(end))(t) <==> DayOf(start) <= DayOf(t.date.value) <= DayOf(end)
    ensures t.date == Some(start) && DayOf(start) <= DayOf(end) ==> InWindow(Some(start), Some(end))(t)
    ensures t.date == Some(end) && DayOf(start) <= DayOf(end) ==> InWindow(Some(start), Some(end))(t)
  {
  }

  // ---------------------------------------------------------------------
  // featuredTours
  // ---------------------------------------------------------------------

  /** Priority ascending (missing is 99), then rating descending (missing is 0). */
  function FeaturedRank(t: Tour): (int, int) {
    (if t.featuredPriority.Some? then t.featuredPriority.value else 99,
     -(if t.rating.Some? then t.rating.value else 0))
  }

  const FeaturedCount: nat := 6

  /**
   * `featuredTours`: a copy of the catalogue sorted by rank, cut to its first
   * six entries. Those six are in rank order, no tour left out ranks
   * before any of them, and tours of equal rank keep their catalogue order.
   */
  method FeaturedTours(tours: seq<Tour>) returns (featured: seq<Tour>)
    ensures |featured| == if |tours| < FeaturedCount then |tours| else FeaturedCount
    ensures featured <= InsertionSorted(tours, FeaturedRank)
    ensures forall k :: Ties(featured, FeaturedRank, k) <= Ties(tours, FeaturedRank, k)
    ensures SortedBy(featured, FeaturedRank)
    ensures multiset(featured) <= multiset(tours)
    ensures forall i, t :: 0 <= i < |featured| && t in multiset(tours) - multiset(featured) ==>
              RankLe(FeaturedRank(featured[i]), FeaturedRank(t))
  {
    var a := new Tour[|tours|](i requires 0 <= i < |tours| => tours[i]);
    assert a[..] == tours;
    SortBy(a, FeaturedRank);
    var sorted := a[..];
    var n := if |sorted| < FeaturedCount then |sorted| else FeaturedCount;
    featured := sorted[..n];
    TopSorted(tours, FeaturedRank, n);
    TopFirst(tours, FeaturedRank, n);
    TopStable(tours, FeaturedRank, n);
  }

  // ---------------------------------------------------------------------
  // Flags and the people line
  // ---------------------------------------------------------------------

  /** A destination or a date narrows the search. */
  predicate HasFilters(destinationValue: string, dateStartValue: string, dateEndValue: string) {
    Trim(destinationValue) != [] || dateStartValue != [] || dateEndValue != []
  }

  predicate ShowResults(hasSearched: bool, destinationValue: string) {
    hasSearched || |NormalizeQuery(destinationValue)| > 0
  }

  /** The featured tours are shown after a plain search on the tours tab. */
  predicate ShowHighlightResults(activeService: string, hasSearched: bool,
                                 destinationValue: string, dateStartValue: string, dateEndValue: string) {
    activeService == "passeios" && hasSearched && !HasFilters(destinationValue, dateStartValue, dateEndValue)
  }

  /**
   * When the highlights show, the results are shown too, and the tour list
   * is narrowed by party size alone.
   */
  lemma HighlightsAreUnfiltered(activeService: string, hasSearched: bool, destinationValue: string,
                                dateStartValue: string, dateEndValue: string, tours: seq<Tour>, total: int)
    requires ShowHighlightResults(activeService, hasSearched, destinationValue, dateStartValue, dateEndValue)
    ensures ShowResults(hasSearched, destinationValue)
    ensures NormalizeQuery(destinationValue) == []
    ensures Filter(tours, TourKept(NormalizeQuery(destinationValue), None, None, total)) == Filter(tours, HasRoom(total))
  {
    var q := NormalizeQuery(destinationValue);
    FilterFilter(tours, (t: Tour) => true, HasRoom(total), TourKept(q, None, None, total));
    FilterAll(tours, (t: Tour) => true);
  }

  /** `peopleDisplay`: positive numeric counts only, with no defaults. */
  function PeopleDisplay(p: People): string {
    if p.NoPeople? then "" else JoinParts(CountParts(AdultsOf(p), ChildrenOf(p)))
  }

  /**
   * The screen's line agrees with the card's summary when both counts are
   * present, and is empty exactly when no count is a positive number.
   */
  lemma PeopleDisplayAgrees(p: People)
    ensures AdultsOf(p).Some? && ChildrenOf(p).Some? ==> PeopleDisplay(p) == PeopleSummary(p)
    ensures PeopleDisplay(p) == [] <==>
              !(AdultsOf(p).Some? && AdultsOf(p).value > 0) && !(ChildrenOf(p).Some? && ChildrenOf(p).value > 0)
  {
    var parts := CountParts(AdultsOf(p), ChildrenOf(p));
    if |parts| == 1 {
      JoinSmall(parts[0], "", ", ");
      assert parts == [parts[0]];
    } else if |parts| == 2 {
      JoinSmall(parts[0], parts[1], ", ");
      assert parts == [parts[0], parts[1]];
    }
  }

  // ---------------------------------------------------------------------
  // handleSearch
  // ---------------------------------------------------------------------

  datatype SearchOutcome = SearchOutcome(proceed: bool, destinationError: string, dateError: string)

  const DestinationMissing: string := "Informe um destino para buscar passeios."
  const StartDateMissing: string := "Informe a data de ida."

  /**
   * The decision of the search button, given the trimmed destination: an
   * empty form searches; otherwise the destination and the start date are
   * required, and each one missing sets its own message.
   */
  function SearchCheck(destination: string, dateStartValue: string, dateEndValue: string): (o: SearchOutcome)
    ensures o.proceed <==>
              (destination == [] && dateStartValue == [] && dateEndValue == [])
              || (destination != [] && dateStartValue != [])
    ensures o.destinationError != [] <==> !o.proceed && destination == []
    ensures o.dateError != [] <==> !o.proceed && dateStartValue == []
  {
    var hasDestination := destination != [];
    var hasDateStart := dateStartValue != [];
    if !hasDestination && !hasDateStart && dateEndValue == [] then SearchOutcome(true, "", "")
    else
      SearchOutcome(hasDestination && hasDateStart,
                    if hasDestination then "" else DestinationMissing,
                    if hasDateStart then "" else StartDateMissing)
  }

  /** The state of the search screen. */
  class SearchScreenState {
    var activeService: string
    var destinationValue: string
    var dateStartValue: string
    var dateEndValue: string
    var peopleValue: People
    var hasSearched: bool
    var destinationError: string
    var dateError: string
    var isSearching: bool

    /** The screen opens on the values it was navigated with, else on the defaults. */
    constructor(service: string, destination: string, start: string, end: string, people: Option<People>)
      ensures activeService == Or(service, "passeios")
      ensures destinationValue == destination && dateStartValue == start && dateEndValue == end
      ensures peopleValue == (if people.Some? then people.value else PeopleCounts(Some(2), Some(0)))
      ensures !hasSearched && !isSearching && destinationError == [] && dateError == []
    {
      activeService := Or(service, "passeios");
      destinationValue := destination;
      dateStartValue := start;
      dateEndValue := end;
      peopleValue := if people.Some? then people.value else PeopleCounts(Some(2), Some(0));
      hasSearched := false;
      isSearching := false;
      destinationError := "";
      dateError := "";
    }

    /**
     * The search button: sets the messages, then either starts the search
     * (whose completion is `FinishSearch`) or clears `hasSearched`.
     */
    method HandleSearch() returns (started: bool)
      modifies this
      ensures var o := SearchCheck(Trim(destinationValue), dateStartValue, dateEndValue);
        started == o.proceed && destinationError == o.destinationError && dateError == o.dateError
      ensures started ==> isSearching && hasSearched == old(hasSearched)
      ensures !started ==> !hasSearched && isSearching == old(isSearching)
      ensures destinationValue == old(destinationValue) && dateStartValue == old(dateStartValue)
      ensures dateEndValue == old(dateEndValue) && peopleValue == old(peopleValue)
      ensures activeService == old(activeService)
    {
      var o := SearchCheck(Trim(destinationValue), dateStartValue, dateEndValue);
      destinationError := o.destinationError;
      dateError := o.dateError;
      if o.proceed {
        isSearching := true;
      } else {
        hasSearched := false;
      }
      started := o.proceed;
    }

    /** The delayed completion of a started search. */
    method FinishSearch()
      modifies this
      ensures hasSearched && !isSearching
      ensures destinationValue == old(destinationValue) && dateStartValue == old(dateStartValue)
      ensures dateEndValue == old(dateEndValue) && peopleValue == old(peopleValue)
      ensures activeService == old(activeService)
      ensures destinationError == old(destinationError) && dateError == old(dateError)
    {
      hasSearched := true;
      isSearching := false;
    }
  }
}
