/**
 * The search card of `SearchBar.jsx`: the per-service texts with their
 * fallback, the people summary, the adult and child counters, and the date
 * picker whose month and open state the card keeps. The chosen dates and
 * party belong to the parent screen; the card hands the new values back,
 * which here are the results of its methods.
 */
module SearchBar {
  import opened Text
  import opened Collections
  import opened Records
  import opened Calendar

  // ---------------------------------------------------------------------
  // serviceConfig
  // ---------------------------------------------------------------------

  datatype ServiceConfig = ServiceConfig(
    title: string,
    destinationPlaceholder: string,
    datePlaceholder: string,
    peoplePlaceholder: string)

  const Configs: map<string, ServiceConfig> := map[
    "passeios" := ServiceConfig("Buscar passeios", "Destino ou atração", "Data do passeio", "Quantidade de pessoas"),
    "voos" := ServiceConfig("Buscar voos", "Cidade ou aeroporto", "Datas de ida e volta", "Passageiros e classe"),
    "hoteis" := ServiceConfig("Buscar hotéis", "Cidade ou hotel", "Check-in e check-out", "Hóspedes e quartos"),
    "pacotes" := ServiceConfig("Buscar pacotes", "Destino do pacote", "Datas de viagem", "Viajantes"),
    "onibus" := ServiceConfig("Buscar ônibus", "Origem e destino", "Data de partida", "Passageiros")
  ]

  /** The texts of a service; an unknown service gets those of "passeios". */
  function ConfigFor(service: string): (c: ServiceConfig)
    ensures service in Configs ==> c == Configs[service]
    ensures service !in Configs ==> c == Configs["passeios"]
  {
    if service in Configs then Configs[service] else Configs["passeios"]
  }

  /** Every service shows a title, and only "passeios" has the tours title. */
  lemma ConfigTitles(service: string)
    ensures ConfigFor(service).title != []
    ensures ConfigFor(service).title == "Buscar passeios" <==> service !in Configs || service == "passeios"
  {
  }

  // ---------------------------------------------------------------------
  // People counts
  // ---------------------------------------------------------------------

  /** `peopleValue?.adults`: present only when the value holds counts. */
  function AdultsOf(p: People): Option<int> {
    if p.PeopleCounts? then p.adults else None
  }

  function ChildrenOf(p: People): Option<int> {
    if p.PeopleCounts? then p.children else None
  }

  /** `x ?? d`. */
  function OrDefault(x: Option<int>, d: int): int {
    if x.Some? then x.value else d
  }

  /** "1 adulto" / "N adultos", and likewise for children. */
  function CountText(n: nat, one: string, many: string): (t: string)
    requires n > 0
    ensures StartsWith(t, NatToString(n) + " ")
  {
    NatToString(n) + " " + (if n == 1 then one else many)
  }

  /** The parts of a count pair: a count is shown only when it is a positive number. */
  function CountParts(adults: Option<int>, children: Option<int>): (parts: seq<string>)
    ensures |parts| <= 2
    ensures |parts| == (if adults.Some? && adults.value > 0 then 1 else 0)
                     + (if children.Some? && children.value > 0 then 1 else 0)
  {
    (if adults.Some? && adults.value > 0 then [CountText(adults.value, "adulto", "adultos")] else [])
    + (if children.Some? && children.value > 0 then [CountText(children.value, "criança", "crianças")] else [])
  }

  /** `parts.join(", ")`. */
  function JoinParts(parts: seq<string>): string {
    Join(parts, ", ")
  }

  /** The card's summary: a missing adult count reads as 1, a missing child count as 0. */
  function PeopleSummary(p: People): string {
    JoinParts(CountParts(Some(OrDefault(AdultsOf(p), 1)), Some(OrDefault(ChildrenOf(p), 0))))
  }

  /** Without counts the summary reads "1 adulto"; a zero child count is left out. */
  lemma PeopleSummaryDefaults(adults: nat)
    requires adults > 0
    ensures PeopleSummary(NoPeople) == "1 adulto"
    ensures PeopleSummary(PeopleCounts(Some(adults), Some(0))) == CountText(adults, "adulto", "adultos")
    ensures PeopleSummary(PeopleCounts(Some(adults), None)) == CountText(adults, "adulto", "adultos")
  {
    assert NatToString(1) == "1";
  }

  /** Both counts positive: adults first, then children, joined by ", ". */
  lemma PeopleSummaryBoth(adults: nat, children: nat)
    requires adults > 0 && children > 0
    ensures PeopleSummary(PeopleCounts(Some(adults), Some(children)))
      == CountText(adults, "adulto", "adultos") + ", " + CountText(children, "criança", "crianças")
  {
    JoinSmall(CountText(adults, "adulto", "adultos"), CountText(children, "criança", "crianças"), ", ");
  }

  // ---------------------------------------------------------------------
  // handleAdultsChange / handleChildrenChange
  // ---------------------------------------------------------------------

  function Max(a: int, b: int): int {
    if a >= b then a else b
  }

  /** The party sent up after the adult counter changes to `value`. */
  function AdultsChange(value: int, p: People): (next: People)
    ensures next.PeopleCounts? && next.adults.Some? && next.children.Some?
    ensures next.adults.value >= 1 && next.children.value >= 0
    ensures value >= 1 ==> next.adults.value == value
    ensures OrDefault(ChildrenOf(p), 0) >= 0 ==> next.children.value == OrDefault(ChildrenOf(p), 0)
  {
    PeopleCounts(Some(Max(1, value)), Some(Max(0, OrDefault(ChildrenOf(p), 0))))
  }

  /** The party sent up after the child counter changes to `value`. */
  function ChildrenChange(value: int, p: People): (next: People)
    ensures next.PeopleCounts? && next.adults.Some? && next.children.Some?
    ensures next.adults.value >= 1 && next.children.value >= 0
    ensures value >= 0 ==> next.children.value == value
    ensures OrDefault(AdultsOf(p), 1) >= 1 ==> next.adults.value == OrDefault(AdultsOf(p), 1)
  {
    PeopleCounts(Some(Max(1, OrDefault(AdultsOf(p), 1))), Some(Max(0, value)))
  }

  /** With at least one adult the summary opens with the adult count. */
  lemma SummaryOpensWithAdults(adults: int, children: int)
    requires adults >= 1
    ensures StartsWith(JoinParts(CountParts(Some(adults), Some(children))), NatToString(adults) + " ")
  {
    var ta := CountText(adults, "adulto", "adultos");
    if children > 0 {
      var kc := CountText(children, "criança", "crianças");
      JoinSmall(ta, kc, ", ");
      assert JoinParts(CountParts(Some(adults), Some(children))) == ta + (", " + kc);
    } else {
      JoinSmall(ta, "", ", ");
      assert JoinParts(CountParts(Some(adults), Some(children))) == ta;
    }
  }

  /** After either counter changes the summary always names at least one adult. */
  lemma SummaryAfterChange(value: int, p: People)
    ensures StartsWith(PeopleSummary(AdultsChange(value, p)), NatToString(AdultsChange(value, p).adults.value) + " ")
    ensures StartsWith(PeopleSummary(ChildrenChange(value, p)), NatToString(ChildrenChange(value, p).adults.value) + " ")
  {
    var a := AdultsChange(value, p);
    var c := ChildrenChange(value, p);
    SummaryOpensWithAdults(a.adults.value, a.children.value);
    SummaryOpensWithAdults(c.adults.value, c.children.value);
  }

  // ---------------------------------------------------------------------
  // The card
  // ---------------------------------------------------------------------

  /** The date the picker opens on: the chosen start date, else today. */
  function ReferenceDate(dateStartValue: string, today: Date): Date {
    var start := ParseIsoDate(Some(dateStartValue));
    if start.Some? then start.value else today
  }

  class SearchCard {
    var calendarMonth: int
    var calendarYear: int
    var isCalendarOpen: bool

    predicate Valid()
      reads this
    {
      0 <= calendarMonth < 12
    }

    /**
     * The picker starts closed on the month of the reference date, given as
     * its `getFullYear()` and `getMonth()`.
     */
    constructor(referenceYear: int, referenceMonth: int)
      requires 0 <= referenceMonth < 12
      ensures Valid()
      ensures calendarYear == referenceYear && calendarMonth == referenceMonth && !isCalendarOpen
    {
      calendarYear := referenceYear;
      calendarMonth := referenceMonth;
      isCalendarOpen := false;
    }

    method HandleToggleCalendar()
      modifies this
      ensures isCalendarOpen == !old(isCalendarOpen)
      ensures calendarMonth == old(calendarMonth) && calendarYear == old(calendarYear)
    {
      isCalendarOpen := !isCalendarOpen;
    }

    method HandleChangeMonth(delta: int)
      modifies this
      ensures MonthView(calendarYear, calendarMonth) == ShiftMonth(old(MonthView(calendarYear, calendarMonth)), delta)
      ensures isCalendarOpen == old(isCalendarOpen)
      ensures old(Valid()) && (delta == 1 || delta == -1) ==> Valid()
    {
      var next := ShiftMonth(MonthView(calendarYear, calendarMonth), delta);
      if Valid() && (delta == 1 || delta == -1) {
        ShiftMonthStep(MonthView(calendarYear, calendarMonth), delta);
      }
      calendarYear := next.year;
      calendarMonth := next.month;
    }

    /** The cells of the month on show. */
    method CalendarDays() returns (days: seq<Option<Date>>)
      requires Valid()
      ensures |days| == Weekday(calendarYear, calendarMonth, 1) + DaysInMonth(calendarYear, calendarMonth)
      ensures forall i :: 0 <= i < |days| ==>
                (days[i].Some? <==> i >= Weekday(calendarYear, calendarMonth, 1))
      ensures forall i :: 0 <= i < |days| && days[i].Some? ==>
                ValidDate(days[i].value) && days[i].value.year == calendarYear
                && days[i].value.month == calendarMonth
    {
      days := BuildCalendarDays(calendarYear, calendarMonth);
    }

    /**
     * A click on a day: the new start and end values go to the parent, and
     * the picker closes when the click completes a range.
     */
    method HandleDayClick(dateStartValue: string, dateEndValue: string, clicked: Date) returns (u: RangeUpdate)
      modifies this
      ensures u == DayClick(dateStartValue, dateEndValue, clicked)
      ensures isCalendarOpen == (old(isCalendarOpen) && !u.closeCalendar)
      ensures calendarMonth == old(calendarMonth) && calendarYear == old(calendarYear)
    {
      u := DayClick(dateStartValue, dateEndValue, clicked);
      if u.closeCalendar {
        isCalendarOpen := false;
      }
    }

    /** Both dates are cleared; the picker stays as it is. */
    method HandleClearDates() returns (start: string, end: string)
      ensures start == [] && end == []
    {
      start, end := "", "";
    }
  }
}
