/**
 * The checkout form of `CheckoutScreen.jsx`: the destination and party it
 * was opened with, the date-range picker, the card or Pix payment fields,
 * and the submission that validates the form and builds the reservation
 * handed to `onConfirmReservation`. The current month enters as a
 * parameter, as `new Date()` is read by the expiry check.
 */
module Checkout {
  import opened Text
  import opened Collections
  import opened Records
  import opened Masks
  import opened Calendar
  import opened Trips

  const DefaultDestination: Destination := Destination(Some("rio"), Some("Rio de Janeiro"), Some("R$ 899"), None)
  const DefaultParty: People := PeopleCounts(Some(2), Some(0))

  const DatesMissing: string := "Informe as datas de ida e volta."
  const DatesInverted: string := "A data de volta não pode ser anterior à data de ida."
  const CardNameInvalid: string := "Digite o nome exatamente como no cartão."
  const CardNumberInvalid: string := "Número do cartão inválido."
  const CardExpiryInvalid: string := "Validade inválida ou vencida."
  const CardCvvInvalid: string := "CVV deve ter 3 ou 4 dígitos."
  const PixNameMissing: string := "Informe o nome completo do pagador."
  const NoDates: string := "Datas a definir"

  datatype CheckoutErrors = CheckoutErrors(
    dates: string,
    cardName: string,
    cardNumber: string,
    cardExpiry: string,
    cardCvv: string,
    pixName: string)

  const NoCheckoutErrors: CheckoutErrors := CheckoutErrors("", "", "", "", "", "")

  // ---------------------------------------------------------------------
  // Validation
  // ---------------------------------------------------------------------

  /** Both dates are set and the end does not sort before the start as text. */
  predicate DatesOk(dateStart: string, dateEnd: string) {
    dateStart != [] && dateEnd != [] && !StrLess(dateEnd, dateStart)
  }

  /** The message of the dates field. */
  function DatesError(dateStart: string, dateEnd: string): (e: string)
    ensures e == [] <==> DatesOk(dateStart, dateEnd)
    ensures e == DatesMissing <==> dateStart == [] || dateEnd == []
    ensures e == DatesInverted <==> dateStart != [] && dateEnd != [] && StrLess(dateEnd, dateStart)
  {
    if dateStart == [] || dateEnd == [] then DatesMissing
    else if StrLess(dateEnd, dateStart) then DatesInverted
    else ""
  }

  /** For card payments: a printed name, a card number, an unexpired expiry and a code, all well formed. */
  predicate CreditOk(cardName: string, cardNumber: string, cardExpiry: string, cardCvv: string,
                     nowYear: int, nowMonth: int) {
    cardName != [] && IsValidCardholderName(cardName) && IsValidCardNumber(cardNumber)
    && IsValidExpiryAt(cardExpiry, nowYear, nowMonth) && IsValidCvv(cardCvv)
  }

  /** The payment fields are acceptable for the chosen method; any other method needs nothing. */
  predicate PaymentOk(paymentMethod: string, cardName: string, cardNumber: string, cardExpiry: string,
                      cardCvv: string, pixName: string, nowYear: int, nowMonth: int) {
    && (paymentMethod == "credit" ==> CreditOk(cardName, cardNumber, cardExpiry, cardCvv, nowYear, nowMonth))
    && (paymentMethod == "pix" ==> Trim(pixName) != [])
  }

  /**
   * The messages a submission shows: the dates message, the card messages
   * when paying by card and the payer message when paying by Pix.
   */
  function SubmitErrors(dateStart: string, dateEnd: string, paymentMethod: string, cardName: string,
                        cardNumber: string, cardExpiry: string, cardCvv: string, pixName: string,
                        nowYear: int, nowMonth: int): (errs: CheckoutErrors)
    ensures errs == NoCheckoutErrors <==>
              DatesOk(dateStart, dateEnd)
              && PaymentOk(paymentMethod, cardName, cardNumber, cardExpiry, cardCvv, pixName, nowYear, nowMonth)
    ensures paymentMethod != "credit" ==>
              errs.cardName == [] && errs.cardNumber == [] && errs.cardExpiry == [] && errs.cardCvv == []
    ensures paymentMethod != "pix" ==> errs.pixName == []
  {
    var credit := paymentMethod == "credit";
    CheckoutErrors(
      DatesError(dateStart, dateEnd),
      if credit && !(cardName != [] && IsValidCardholderName(cardName)) then CardNameInvalid else "",
      if credit && !IsValidCardNumber(cardNumber) then CardNumberInvalid else "",
      if credit && !IsValidExpiryAt(cardExpiry, nowYear, nowMonth) then CardExpiryInvalid else "",
      if credit && !IsValidCvv(cardCvv) then CardCvvInvalid else "",
      if paymentMethod == "pix" && Trim(pixName) == [] then PixNameMissing else "")
  }

  /**
   * The reservation's dates in ISO form pass the order check exactly when
   * the return day is not before the departure day.
   */
  lemma DatesOkIsOrder(a: Date, b: Date)
    requires ValidDate(a) && ValidDate(b) && 1000 <= a.year <= 9999 && 1000 <= b.year <= 9999
    ensures DatesOk(ToIsoDate(a), ToIsoDate(b)) <==> !Calendar.Before(b, a)
  {
    IsoOrder(b, a);
    IsoParts(a);
    IsoParts(b);
  }

  // ---------------------------------------------------------------------
  // The reservation
  // ---------------------------------------------------------------------

  /** The destination names its own service type. */
  predicate OwnType(d: Destination) {
    d.serviceType.Some? && d.serviceType.value != []
  }

  /** The destination's id starts with `prefix`. */
  predicate IdPrefix(d: Destination, prefix: string) {
    d.id.Some? && StartsWith(d.id.value, prefix)
  }

  /** The four id prefixes a service type is read from start with different letters. */
  lemma PrefixesExclusive(d: Destination)
    ensures IdPrefix(d, "flight-") ==> !IdPrefix(d, "hotel-") && !IdPrefix(d, "package-") && !IdPrefix(d, "bus-")
    ensures IdPrefix(d, "hotel-") ==> !IdPrefix(d, "package-") && !IdPrefix(d, "bus-")
    ensures IdPrefix(d, "package-") ==> !IdPrefix(d, "bus-")
  {
    if d.id.Some? {
      var s := d.id.value;
      if StartsWith(s, "flight-") { assert s[0] == 'f'; }
      if StartsWith(s, "hotel-") { assert s[0] == 'h'; }
      if StartsWith(s, "package-") { assert s[0] == 'p'; }
    }
  }

  /**
   * The service type: the destination's own when it has one, otherwise read
   * from the id prefix, otherwise "outro".
   */
  function ServiceTypeOf(d: Destination): (t: string)
    ensures OwnType(d) ==> t == d.serviceType.value
    ensures !OwnType(d) ==> t in {"voo", "hotel", "pacote", "onibus", "outro"}
    ensures !OwnType(d) ==> (t == "voo" <==> IdPrefix(d, "flight-"))
    ensures !OwnType(d) ==> (t == "hotel" <==> IdPrefix(d, "hotel-"))
    ensures !OwnType(d) ==> (t == "pacote" <==> IdPrefix(d, "package-"))
    ensures !OwnType(d) ==> (t == "onibus" <==> IdPrefix(d, "bus-"))
  {
    PrefixesExclusive(d);
    if OwnType(d) then d.serviceType.value
    else if IdPrefix(d, "flight-") then "voo"
    else if IdPrefix(d, "hotel-") then "hotel"
    else if IdPrefix(d, "package-") then "pacote"
    else if IdPrefix(d, "bus-") then "onibus"
    else "outro"
  }

  /** The names of the two extra date keys for a service type. */
  function DateKeyNames(serviceType: string): (string, string) {
    if serviceType == "voo" || serviceType == "onibus" then ("data_ida", "data_volta")
    else if serviceType == "hotel" then ("checkin", "checkout")
    else ("data_inicio", "data_fim")
  }

  /** `dateStart && dateEnd ? "start → end" : ""` with both dates in display form. */
  function DatesDisplay(dateStart: string, dateEnd: string): (r: string)
    ensures dateStart == [] || dateEnd == [] ==> r == []
  {
    if dateStart != [] && dateEnd != [] then
      FormatDateForDisplay(dateStart) + " → " + FormatDateForDisplay(dateEnd)
    else ""
  }

  /** The reservation emitted for the form's values, before the date keys are added. */
  function BasePayload(destination: Destination, dateStart: string, dateEnd: string, people: People,
                       user: Option<User>, paymentMethod: string): Reservation {
    Reservation(
      None,
      destination.id,
      destination.name,
      destination.price,
      Some(Or(DatesDisplay(dateStart, dateEnd), NoDates)),
      OrNull(dateStart),
      OrNull(dateEnd),
      people,
      if user.Some? then OrNull(user.value.email) else None,
      if user.Some? then OrNull(user.value.name) else None,
      Some(ServiceTypeOf(destination)),
      Some(paymentMethod),
      map[])
  }

  /** The emitted reservation: the base payload plus the two date keys of its service type. */
  function Payload(destination: Destination, dateStart: string, dateEnd: string, people: People,
                   user: Option<User>, paymentMethod: string): Reservation {
    var names := DateKeyNames(ServiceTypeOf(destination));
    BasePayload(destination, dateStart, dateEnd, people, user, paymentMethod)
      .(dateKeys := map[names.0 := OrNull(dateStart), names.1 := OrNull(dateEnd)])
  }

  /**
   * A reservation of a form whose start is the ISO form of a day is filed
   * under that day on the trips screen.
   */
  lemma PayloadFiledUnderStart(destination: Destination, a: Date, dateEnd: string, people: People,
                               user: Option<User>, paymentMethod: string, keys: map<string, Option<string>>)
    requires ValidDate(a) && 1000 <= a.year <= 9999
    ensures ParseTripDate(BasePayload(destination, ToIsoDate(a), dateEnd, people, user, paymentMethod).(dateKeys := keys))
      == Some(a)
  {
    IsoParts(a);
    TripDateFromIso(BasePayload(destination, ToIsoDate(a), dateEnd, people, user, paymentMethod).(dateKeys := keys), a);
  }

  /**
   * The dates text of a reservation with both days set is "DD/MM/YYYY →
   * DD/MM/YYYY", and read without the ISO start it is filed under its first day.
   */
  lemma DisplayFiledUnderStart(r: Reservation, a: Date, b: Date)
    requires ValidDate(a) && 1000 <= a.year <= 9999 && ValidDate(b) && 1000 <= b.year <= 9999
    requires r.dateStart.None? && r.dates == Some(DatesDisplay(ToIsoDate(a), ToIsoDate(b)))
    ensures ParseTripDate(r) == Some(a)
  {
    IsoParts(a);
    IsoParts(b);
    TripDateFromDisplay(r, a, FormatDateForDisplay(ToIsoDate(b)));
  }

  // ---------------------------------------------------------------------
  // The screen
  // ---------------------------------------------------------------------

  class CheckoutScreen {
    var destination: Destination
    var dateStart: string
    var dateEnd: string
    var people: People
    var paymentMethod: string
    var cardName: string
    var cardNumber: string
    var cardExpiry: string
    var cardCvv: string
    var pixName: string
    var errors: CheckoutErrors
    var isCalendarOpen: bool
    var calendarMonth: int
    var calendarYear: int

    predicate Valid()
      reads this
    {
      0 <= calendarMonth < 12
    }

    /**
     * The form opens on the destination it was sent (else the fallback,
     * else Rio de Janeiro), the searched dates and party, card payment, and
     * the user's name; the picker shows the month of the reference date,
     * given as its `getFullYear()` and `getMonth()`.
     */
    constructor(sent: Option<Destination>, fallback: Option<Destination>, searchStart: string, searchEnd: string,
                searchPeople: Option<People>, user: Option<User>, referenceYear: int, referenceMonth: int)
      requires 0 <= referenceMonth < 12
      ensures Valid()
      ensures destination == (if sent.Some? then sent.value else if fallback.Some? then fallback.value
                              else DefaultDestination)
      ensures dateStart == searchStart && dateEnd == searchEnd
      ensures people == (if searchPeople.Some? then searchPeople.value else DefaultParty)
      ensures paymentMethod == "credit"
      ensures cardName == (if user.Some? then user.value.name else "") && pixName == cardName
      ensures cardNumber == [] && cardExpiry == [] && cardCvv == [] && errors == NoCheckoutErrors
      ensures !isCalendarOpen && calendarYear == referenceYear && calendarMonth == referenceMonth
    {
      destination := if sent.Some? then sent.value else if fallback.Some? then fallback.value else DefaultDestination;
      dateStart := searchStart;
      dateEnd := searchEnd;
      people := if searchPeople.Some? then searchPeople.value else DefaultParty;
      paymentMethod := "credit";
      cardName := if user.Some? then user.value.name else "";
      pixName := if user.Some? then user.value.name else "";
      cardNumber, cardExpiry, cardCvv := "", "", "";
      errors := NoCheckoutErrors;
      isCalendarOpen := false;
      calendarYear := referenceYear;
      calendarMonth := referenceMonth;
    }

    method HandleToggleCalendar()
      modifies this
      ensures isCalendarOpen == !old(isCalendarOpen)
      ensures calendarMonth == old(calendarMonth) && calendarYear == old(calendarYear)
      ensures dateStart == old(dateStart) && dateEnd == old(dateEnd) && errors == old(errors)
    {
      isCalendarOpen := !isCalendarOpen;
    }

    method HandleChangeMonth(delta: int)
      modifies this
      ensures MonthView(calendarYear, calendarMonth) == ShiftMonth(old(MonthView(calendarYear, calendarMonth)), delta)
      ensures old(Valid()) && (delta == 1 || delta == -1) ==> Valid()
      ensures isCalendarOpen == old(isCalendarOpen)
      ensures dateStart == old(dateStart) && dateEnd == old(dateEnd) && errors == old(errors)
    {
      var next := ShiftMonth(MonthView(calendarYear, calendarMonth), delta);
      if Valid() && (delta == 1 || delta == -1) {
        ShiftMonthStep(MonthView(calendarYear, calendarMonth), delta);
      }
      calendarYear := next.year;
      calendarMonth := next.month;
    }

    /** The cells of the month on show. */
    method CalendarDays() returns (days: seq<Option<Date>>)
      requires Valid()
      ensures |days| == Weekday(calendarYear, calendarMonth, 1) + DaysInMonth(calendarYear, calendarMonth)
      ensures forall i :: 0 <= i < Weekday(calendarYear, calendarMonth, 1) ==> days[i].None?
      ensures forall i :: Weekday(calendarYear, calendarMonth, 1) <= i < |days| ==>
                days[i] == Some(Date(calendarYear, calendarMonth, i - Weekday(calendarYear, calendarMonth, 1) + 1))
    {
      days := BuildCalendarDays(calendarYear, calendarMonth);
    }

    /**
     * A click on a day updates the range as the picker's rule says, closes
     * the picker when the range is complete, and clears the dates message.
     */
    method HandleDayClick(clicked: Date)
      modifies this
      ensures var u := DayClick(old(dateStart), old(dateEnd), clicked);
        dateStart == u.start && dateEnd == u.end && isCalendarOpen == (old(isCalendarOpen) && !u.closeCalendar)
      ensures errors == old(errors).(dates := "")
      ensures calendarMonth == old(calendarMonth) && calendarYear == old(calendarYear)
      ensures paymentMethod == old(paymentMethod) && destination == old(destination) && people == old(people)
    {
      var u := DayClick(dateStart, dateEnd, clicked);
      dateStart, dateEnd := u.start, u.end;
      isCalendarOpen := isCalendarOpen && !u.closeCalendar;
      errors := errors.(dates := "");
    }

    method HandleClearDates()
      modifies this
      ensures dateStart == [] && dateEnd == [] && errors == old(errors).(dates := "")
      ensures isCalendarOpen == old(isCalendarOpen)
      ensures calendarMonth == old(calendarMonth) && calendarYear == old(calendarYear)
    {
      dateStart := "";
      dateEnd := "";
      errors := errors.(dates := "");
    }

    /**
     * Paying: every failing field of the chosen method gets its message, and
     * only a form without failures emits the reservation, with the date keys
     * its service type calls for.
     */
    method HandleSubmit(user: Option<User>, nowYear: int, nowMonth: int) returns (reservation: Option<Reservation>)
      modifies this
      ensures errors == SubmitErrors(old(dateStart), old(dateEnd), old(paymentMethod), old(cardName), old(cardNumber),
                                     old(cardExpiry), old(cardCvv), old(pixName), nowYear, nowMonth)
      ensures reservation.Some? <==> errors == NoCheckoutErrors
      ensures reservation.Some? ==>
                reservation.value == Payload(old(destination), old(dateStart), old(dateEnd), old(people), user,
                                             old(paymentMethod))
      ensures dateStart == old(dateStart) && dateEnd == old(dateEnd) && paymentMethod == old(paymentMethod)
      ensures destination == old(destination) && people == old(people)
      ensures cardName == old(cardName) && cardNumber == old(cardNumber) && cardExpiry == old(cardExpiry)
      ensures cardCvv == old(cardCvv) && pixName == old(pixName)
      ensures isCalendarOpen == old(isCalendarOpen)
      ensures calendarMonth == old(calendarMonth) && calendarYear == old(calendarYear)
    {
      errors := SubmitErrors(dateStart, dateEnd, paymentMethod, cardName, cardNumber, cardExpiry, cardCvv, pixName,
                             nowYear, nowMonth);
      if errors != NoCheckoutErrors {
        return None;
      }
      reservation := Some(Payload(destination, dateStart, dateEnd, people, user, paymentMethod));
    }
  }

  /** Every reservation carries exactly two date keys, both bound to the reservation's own dates. */
  lemma DateKeysOfService(serviceType: string, dateStart: string, dateEnd: string)
    ensures var names := DateKeyNames(serviceType);
      var keys := map[names.0 := OrNull(dateStart), names.1 := OrNull(dateEnd)];
      |keys.Keys| == 2 && keys[names.0] == OrNull(dateStart) && keys[names.1] == OrNull(dateEnd)
    ensures serviceType == "voo" || serviceType == "onibus" <==> DateKeyNames(serviceType) == ("data_ida", "data_volta")
    ensures serviceType == "hotel" <==> DateKeyNames(serviceType) == ("checkin", "checkout")
  {
    var names := DateKeyNames(serviceType);
    assert names.0 != names.1;
    var keys := map[names.0 := OrNull(dateStart), names.1 := OrNull(dateEnd)];
    assert keys.Keys == {names.0, names.1};
  }
}
