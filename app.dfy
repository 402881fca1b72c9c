/**
 * The application store of `App.jsx`: the favourites list, the signed-in
 * user and the reservations, and the handlers that replace them. Each
 * handler is a method of `AppState` whose new state is given by a function of
 * the old one; the properties of those functions are the lemmas below.
 */
module App {
  import opened Text
  import opened Collections
  import opened Records

  // ---------------------------------------------------------------------
  // activeTab
  // ---------------------------------------------------------------------

  /** The bottom-bar tab for a path: the first matching prefix wins, "home" otherwise. */
  function ActiveTab(path: string): (tab: string)
    ensures tab in {"buscar", "viagens", "perfil", "home"}
    ensures tab == "buscar" <==> StartsWith(path, "/buscar")
    ensures tab == "viagens" <==> !StartsWith(path, "/buscar") && StartsWith(path, "/viagens")
    ensures tab == "perfil" <==>
              !StartsWith(path, "/buscar") && !StartsWith(path, "/viagens") && StartsWith(path, "/perfil")
  {
    if StartsWith(path, "/buscar") then "buscar"
    else if StartsWith(path, "/viagens") then "viagens"
    else if StartsWith(path, "/perfil") then "perfil"
    else "home"
  }

  // ---------------------------------------------------------------------
  // handleToggleFavorite
  // ---------------------------------------------------------------------

  /** An item the toggle acts on: its id is present and not empty. */
  predicate HasId(d: Destination) {
    d.id.Some? && d.id.value != []
  }

  function IdOf(d: Destination): Option<string> {
    d.id
  }

  function SameId(id: Option<string>): Destination -> bool {
    (x: Destination) => x.id == id
  }

  function OtherId(id: Option<string>): Destination -> bool {
    (x: Destination) => x.id != id
  }

  predicate HasEntry(s: seq<Destination>, id: Option<string>) {
    exists i :: 0 <= i < |s| && s[i].id == id
  }

  /**
   * The new favourites list: an item without an id changes nothing; an item
   * whose id is listed removes every entry with that id; any other item is
   * appended.
   */
  function ToggleFavorite(prev: seq<Destination>, item: Option<Destination>): (r: seq<Destination>)
    ensures item.None? || !HasId(item.value) ==> r == prev
  {
    if item.None? || !HasId(item.value) then prev
    else if Any(prev, SameId(item.value.id)) then Filter(prev, OtherId(item.value.id))
    else prev + [item.value]
  }

  /** After a toggle the id is listed exactly when it was not listed before. */
  lemma ToggleFlips(prev: seq<Destination>, d: Destination)
    requires HasId(d)
    ensures HasEntry(ToggleFavorite(prev, Some(d)), d.id) <==> !HasEntry(prev, d.id)
  {
    var r := ToggleFavorite(prev, Some(d));
    if HasEntry(prev, d.id) {
      var i :| 0 <= i < |prev| && prev[i].id == d.id;
      assert SameId(d.id)(prev[i]);
      assert forall k :: 0 <= k < |r| ==> OtherId(d.id)(r[k]);
    } else {
      assert !Any(prev, SameId(d.id));
      assert r[|prev|] == d;
    }
  }

  /** Removing an id keeps every other entry, in its original order. */
  lemma ToggleKeepsOthers(prev: seq<Destination>, d: Destination)
    requires HasId(d) && HasEntry(prev, d.id)
    ensures IsSubsequence(ToggleFavorite(prev, Some(d)), prev)
    ensures forall i :: 0 <= i < |prev| && prev[i].id != d.id ==> prev[i] in ToggleFavorite(prev, Some(d))
  {
    var i :| 0 <= i < |prev| && prev[i].id == d.id;
    assert SameId(d.id)(prev[i]);
    FilterIsSubsequence(prev, OtherId(d.id));
    forall k | 0 <= k < |prev| && prev[k].id != d.id
      ensures prev[k] in ToggleFavorite(prev, Some(d))
    {
      assert OtherId(d.id)(prev[k]);
    }
  }

  /** Toggling an unlisted item twice restores the original list. */
  lemma ToggleTwice(prev: seq<Destination>, d: Destination)
    requires HasId(d) && !HasEntry(prev, d.id)
    ensures ToggleFavorite(ToggleFavorite(prev, Some(d)), Some(d)) == prev
  {
    assert !Any(prev, SameId(d.id));
    var once := prev + [d];
    assert ToggleFavorite(prev, Some(d)) == once;
    assert SameId(d.id)(once[|prev|]);
    FilterAppend(prev, [d], OtherId(d.id));
    FilterAll(prev, OtherId(d.id));
    assert !OtherId(d.id)(d);
    assert Filter([d], OtherId(d.id)) == [];
  }

  /** A list without repeated ids keeps that property through a toggle. */
  lemma ToggleKeepsIdsUnique(prev: seq<Destination>, item: Option<Destination>)
    requires UniqueBy(prev, IdOf)
    ensures UniqueBy(ToggleFavorite(prev, item), IdOf)
  {
    if item.Some? && HasId(item.value) {
      var d := item.value;
      if Any(prev, SameId(d.id)) {
        FilterKeepsUnique(prev, OtherId(d.id), IdOf);
      } else {
        var r := prev + [d];
        forall i, j | 0 <= i < j < |r|
          ensures IdOf(r[i]) != IdOf(r[j])
        {
          if j == |prev| {
            assert !SameId(d.id)(prev[i]);
          }
        }
      }
    }
  }

  // ---------------------------------------------------------------------
  // handleLogin
  // ---------------------------------------------------------------------

  /** What the login form submits; a missing key is `None`. */
  datatype Credentials = Credentials(identifier: Option<string>, name: Option<string>, password: Option<string>)

  /** `s?.trim()`, with a missing value read as the empty string. */
  function TrimOpt(s: Option<string>): string {
    if s.Some? then Trim(s.value) else ""
  }

  /**
   * The user after a login, or `None` when the trimmed identifier is empty
   * and nothing changes. An identifier with '@' is the email, any other is
   * the phone; the other contact and the preferences come from the previous
   * user, else from the defaults.
   */
  function LoginUser(prev: Option<User>, c: Credentials): (r: Option<User>)
    ensures r.Some? <==> TrimOpt(c.identifier) != []
    ensures r.Some? ==> r.value.name != []
    ensures r.Some? && '@' in TrimOpt(c.identifier) ==>
              r.value.email == TrimOpt(c.identifier)
              && r.value.phone == (if prev.Some? then prev.value.phone else "")
    ensures r.Some? && '@' !in TrimOpt(c.identifier) ==>
              r.value.phone == TrimOpt(c.identifier)
              && r.value.email == (if prev.Some? then prev.value.email else "")
  {
    var identifier := TrimOpt(c.identifier);
    if identifier == [] then None
    else
      var isEmail := '@' in identifier;
      var baseName := if isEmail then Split(identifier, '@')[0] else identifier;
      Some(User(
        name := Or(TrimOpt(c.name), Or(baseName, "Viajante")),
        email := if isEmail then identifier else if prev.Some? then prev.value.email else "",
        phone := if isEmail then (if prev.Some? then prev.value.phone else "") else identifier,
        password := Or(if c.password.Some? then c.password.value else "",
                       if prev.Some? then prev.value.password else ""),
        language := Or(if prev.Some? then prev.value.language else "", DefaultLanguage),
        currency := Or(if prev.Some? then prev.value.currency else "", DefaultCurrency),
        notifications := if prev.Some? then prev.value.notifications else DefaultNotifications,
        theme := Or(if prev.Some? then prev.value.theme else "", DefaultTheme),
        documentId := if prev.Some? then prev.value.documentId else ""))
  }

  /**
   * The display name is the given name, else the part of the identifier
   * before '@' (the whole identifier when it has none), else "Viajante".
   */
  lemma LoginName(prev: Option<User>, c: Credentials)
    requires TrimOpt(c.identifier) != []
    ensures var id := TrimOpt(c.identifier);
      LoginUser(prev, c).value.name == Or(TrimOpt(c.name), Or(Text.Before(id, '@'), "Viajante"))
  {
    var id := TrimOpt(c.identifier);
    SplitHeadIsBefore(id, '@');
    if '@' !in id {
      assert Text.Before(id, '@') == id;
    }
  }

  /** Logging in again with the same credentials changes nothing more. */
  lemma LoginIdempotent(prev: Option<User>, c: Credentials)
    requires TrimOpt(c.identifier) != []
    ensures LoginUser(LoginUser(prev, c), c) == LoginUser(prev, c)
  {
  }

  // ---------------------------------------------------------------------
  // handleSignup
  // ---------------------------------------------------------------------

  datatype SignupPayload = SignupPayload(name: Option<string>, email: Option<string>, phone: Option<string>, password: string)

  /** The new user, or `None` when the trimmed name, email or phone is empty. */
  function SignupUser(p: SignupPayload): (r: Option<User>)
    ensures r.Some? <==> TrimOpt(p.name) != [] && TrimOpt(p.email) != [] && TrimOpt(p.phone) != []
  {
    var name, email, phone := TrimOpt(p.name), TrimOpt(p.email), TrimOpt(p.phone);
    if name == [] || email == [] || phone == [] then None
    else Some(User(name, email, phone, p.password, DefaultLanguage, DefaultCurrency,
                   DefaultNotifications, DefaultTheme, ""))
  }

  /** A new account stores its contact fields trimmed and starts from the default preferences. */
  lemma SignupFields(p: SignupPayload)
    requires SignupUser(p).Some?
    ensures var u := SignupUser(p).value;
      && Trim(u.name) == u.name && Trim(u.email) == u.email && Trim(u.phone) == u.phone
      && u.password == p.password
      && u.notifications == DefaultNotifications && u.documentId == []
  {
    TrimIdempotent(p.name.value);
    TrimIdempotent(p.email.value);
    TrimIdempotent(p.phone.value);
  }

  // ---------------------------------------------------------------------
  // handleUpdateUser
  // ---------------------------------------------------------------------

  function Pick<T>(update: Option<T>, current: T): T {
    if update.Some? then update.value else current
  }

  /** A key of the update: when present it gives the new value, when absent the old one stays. */
  predicate KeyApplied<T(==)>(key: Option<T>, before: T, after: T) {
    (key.Some? ==> after == key.value) && (key.None? ==> after == before)
  }

  /** Every one of the nine keys of the update is applied to the user, field by field. */
  predicate UpdateApplied(up: UserUpdate, before: User, after: User) {
    && KeyApplied(up.name, before.name, after.name)
    && KeyApplied(up.email, before.email, after.email)
    && KeyApplied(up.phone, before.phone, after.phone)
    && KeyApplied(up.password, before.password, after.password)
    && KeyApplied(up.language, before.language, after.language)
    && KeyApplied(up.currency, before.currency, after.currency)
    && KeyApplied(up.notifications, before.notifications, after.notifications)
    && KeyApplied(up.theme, before.theme, after.theme)
    && KeyApplied(up.documentId, before.documentId, after.documentId)
  }

  /**
   * `{ ...prev, ...updates, notifications: updates.notifications || prev.notifications }`:
   * a present key wins and an absent key keeps the user's value. Notifications
   * are an object, never falsy once present, so `||` agrees with the spread.
   */
  function ApplyUpdate(u: User, up: UserUpdate): (r: User)
    ensures UpdateApplied(up, u, r)
  {
    User(
      Pick(up.name, u.name), Pick(up.email, u.email), Pick(up.phone, u.phone),
      Pick(up.password, u.password), Pick(up.language, u.language),
      Pick(up.currency, u.currency), Pick(up.notifications, u.notifications),
      Pick(up.theme, u.theme), Pick(up.documentId, u.documentId))
  }

  /**
   * `handleUpdateUser`: no user stays no user; otherwise each key present in
   * the update wins and every absent key, notifications included, is kept.
   */
  function UpdateUser(prev: Option<User>, up: UserUpdate): (r: Option<User>)
    ensures r.Some? <==> prev.Some?
    ensures r.Some? ==> UpdateApplied(up, prev.value, r.value)
    ensures r.Some? && up.notifications.None? ==> r.value.notifications == prev.value.notifications
    ensures r.Some? && up.notifications.Some? ==> r.value.notifications == up.notifications.value
    ensures r.Some? && up.name.None? && up.email.None? && up.phone.None? ==>
              r.value.name == prev.value.name && r.value.email == prev.value.email && r.value.phone == prev.value.phone
    ensures up == NoUpdate ==> r == prev
  {
    if prev.None? then None else Some(ApplyUpdate(prev.value, up))
  }

  /** The per-key promise determines the updated user: no other user satisfies it. */
  lemma UpdateAppliedUnique(u: User, up: UserUpdate, v: User, w: User)
    requires UpdateApplied(up, u, v) && UpdateApplied(up, u, w)
    ensures v == w
  {
  }

  /** Two updates in a row: the later one's keys win, the earlier one's fill the rest. */
  function Merge(a: UserUpdate, b: UserUpdate): UserUpdate {
    UserUpdate(
      if b.name.Some? then b.name else a.name,
      if b.email.Some? then b.email else a.email,
      if b.phone.Some? then b.phone else a.phone,
      if b.password.Some? then b.password else a.password,
      if b.language.Some? then b.language else a.language,
      if b.currency.Some? then b.currency else a.currency,
      if b.notifications.Some? then b.notifications else a.notifications,
      if b.theme.Some? then b.theme else a.theme,
      if b.documentId.Some? then b.documentId else a.documentId)
  }

  /** An update without keys keeps the user; applying an update twice is applying it once. */
  lemma UpdateUnit(u: User, up: UserUpdate)
    ensures ApplyUpdate(u, NoUpdate) == u
    ensures ApplyUpdate(ApplyUpdate(u, up), up) == ApplyUpdate(u, up)
  {
  }

  /** Successive updates compose into one merged update. */
  lemma UpdateCompose(u: User, a: UserUpdate, b: UserUpdate)
    ensures ApplyUpdate(ApplyUpdate(u, a), b) == ApplyUpdate(u, Merge(a, b))
  {
  }

  // ---------------------------------------------------------------------
  // handleConfirmReservation
  // ---------------------------------------------------------------------

  /** `{ id: String(now), ...reservation }`: an id the reservation already has wins. */
  function WithId(r: Reservation, now: int): (full: Reservation)
    ensures full.id.Some?
    ensures full.(id := r.id) == r
    ensures r.id.Some? ==> full == r
  {
    if r.id.Some? then r else r.(id := Some(IntToString(now)))
  }

  // ---------------------------------------------------------------------
  // The store
  // ---------------------------------------------------------------------

  class AppState {
    var favorites: seq<Destination>
    var user: Option<User>
    var reservations: seq<Reservation>

    /** Favourites never list the same id twice. */
    predicate FavoritesUnique()
      reads this
    {
      UniqueBy(favorites, IdOf)
    }

    constructor()
      ensures favorites == [] && user.None? && reservations == []
      ensures FavoritesUnique()
    {
      favorites := [];
      user := None;
      reservations := [];
    }

    method HandleToggleFavorite(item: Option<Destination>)
      modifies this
      ensures favorites == ToggleFavorite(old(favorites), item)
      ensures user == old(user) && reservations == old(reservations)
      ensures old(FavoritesUnique()) ==> FavoritesUnique()
    {
      if FavoritesUnique() {
        ToggleKeepsIdsUnique(favorites, item);
      }
      favorites := ToggleFavorite(favorites, item);
    }

    method HandleLogin(c: Credentials)
      modifies this
      ensures user == (if LoginUser(old(user), c).Some? then LoginUser(old(user), c) else old(user))
      ensures favorites == old(favorites) && reservations == old(reservations)
    {
      var next := LoginUser(user, c);
      if next.Some? {
        user := next;
      }
    }

    method HandleSignup(p: SignupPayload)
      modifies this
      ensures user == (if SignupUser(p).Some? then SignupUser(p) else old(user))
      ensures favorites == old(favorites) && reservations == old(reservations)
    {
      var next := SignupUser(p);
      if next.Some? {
        user := next;
      }
    }

    /** Logging out forgets the user only. */
    method HandleLogout()
      modifies this
      ensures user.None?
      ensures favorites == old(favorites) && reservations == old(reservations)
    {
      user := None;
    }

    method HandleUpdateUser(up: UserUpdate)
      modifies this
      ensures user == UpdateUser(old(user), up)
      ensures favorites == old(favorites) && reservations == old(reservations)
    {
      user := UpdateUser(user, up);
    }

    /** Deleting the account forgets the user, the favourites and the reservations. */
    method HandleDeleteAccount()
      modifies this
      ensures user.None? && favorites == [] && reservations == []
      ensures FavoritesUnique()
    {
      user := None;
      favorites := [];
      reservations := [];
    }

    /**
     * Prepends the reservation with a new id made from the clock reading
     * `now`; the earlier reservations follow unchanged and in order.
     */
    method HandleConfirmReservation(r: Reservation, now: int) returns (full: Reservation)
      modifies this
      ensures full == WithId(r, now)
      ensures reservations == [full] + old(reservations)
      ensures user == old(user) && favorites == old(favorites)
    {
      full := WithId(r, now);
      reservations := [full] + reservations;
    }
  }
}
