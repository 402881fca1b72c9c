/**
 * The records that travel between the screens and the application store: the
 * signed-in user, a partial update of it, a catalogue entry chosen for
 * booking or as a favourite, and a confirmed reservation.
 */
module Records {
  import opened Collections

  /** The three notification channels of the settings form. */
  datatype Notifications = Notifications(email: bool, sms: bool, push: bool)

  const DefaultNotifications: Notifications := Notifications(true, false, true)
  const DefaultLanguage: string := "Português (Brasil)"
  const DefaultCurrency: string := "BRL - Real brasileiro"
  const DefaultTheme: string := "Claro"

  datatype User = User(
    name: string,
    email: string,
    phone: string,
    password: string,
    language: string,
    currency: string,
    notifications: Notifications,
    theme: string,
    documentId: string)

  /** An object spread over the user: a field is `Some` when its key is present. */
  datatype UserUpdate = UserUpdate(
    name: Option<string>,
    email: Option<string>,
    phone: Option<string>,
    password: Option<string>,
    language: Option<string>,
    currency: Option<string>,
    notifications: Option<Notifications>,
    theme: Option<string>,
    documentId: Option<string>)

  const NoUpdate: UserUpdate := UserUpdate(None, None, None, None, None, None, None, None, None)

  /** A catalogue entry as passed to checkout or to the favourites list. */
  datatype Destination = Destination(
    id: Option<string>,
    name: Option<string>,
    price: Option<string>,
    serviceType: Option<string>)

  /** The party size: absent, free text, or counts whose keys may be absent. */
  datatype People =
    | NoPeople
    | PeopleText(text: string)
    | PeopleCounts(adults: Option<int>, children: Option<int>)

  /** A reservation as the checkout form emits it and the trips screen reads it. */
  datatype Reservation = Reservation(
    id: Option<string>,
    destinationId: Option<string>,
    destinationName: Option<string>,
    price: Option<string>,
    dates: Option<string>,
    dateStart: Option<string>,
    dateEnd: Option<string>,
    people: People,
    customerEmail: Option<string>,
    customerName: Option<string>,
    serviceType: Option<string>,
    paymentMethod: Option<string>,
    dateKeys: map<string, Option<string>>)

  /** `a || b` on strings: the empty string is falsy. */
  function Or(a: string, b: string): (r: string)
    ensures a != [] ==> r == a
    ensures a == [] ==> r == b
    ensures r == [] <==> a == [] && b == []
  {
    if a != [] then a else b
  }

  /** `value || null` for an optional string. */
  function OrNull(s: string): (r: Option<string>)
    ensures r.Some? <==> s != []
    ensures r.Some? ==> r.value == s
  {
    if s != [] then Some(s) else None
  }
}
