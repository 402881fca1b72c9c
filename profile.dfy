/**
 * The profile screen of `ProfileScreen.jsx`: the initials badge, the
 * personal-data form, the notification switches, the saved cards with the
 * add-card form, and the password form. The screen keeps its own form
 * state; what it hands to `onUpdateUser` is the `UserUpdate` its handlers
 * return, `None` when nothing is sent.
 */
module Profile {
  import opened Text
  import opened Collections
  import opened Records
  import opened Masks
  import opened App

  // ---------------------------------------------------------------------
  // initials
  // ---------------------------------------------------------------------

  /** `parts.map(p => p[0]).join("")`: the first character of each non-empty part. */
  function FirstLetters(parts: seq<string>): (r: string)
    ensures |r| <= |parts|
  {
    if parts == [] then []
    else (if parts[0] != [] then [parts[0][0]] else []) + FirstLetters(parts[1..])
  }

  /**
   * The badge: the upper-cased first letters of the first two words of the
   * name, where a run of spaces makes empty words that add nothing; "AT"
   * without a user or a name.
   */
  function Initials(user: Option<User>): (r: string)
    ensures |r| <= 2
    ensures user.None? || user.value.name == [] ==> r == "AT"
  {
    if user.Some? && user.value.name != [] then UpperStr(Take(FirstLetters(Split(user.value.name, ' ')), 2))
    else "AT"
  }

  /** A first and a last name give the upper case of their first letters. */
  lemma InitialsOfFullName(u: User, first: string, last: string)
    requires first != [] && last != [] && ' ' !in first && ' ' !in last
    requires u.name == first + " " + last
    ensures Initials(Some(u)) == [Upper(first[0]), Upper(last[0])]
  {
    assert first + " " + last == first + [' '] + last;
    SplitAfter(first, ' ', last);
    SplitNoSep(last, ' ');
    assert Split(u.name, ' ') == [first, last];
    assert FirstLetters([first, last]) == [first[0], last[0]] by {
      assert [first, last][1..] == [last];
    }
  }

  // ---------------------------------------------------------------------
  // Form records
  // ---------------------------------------------------------------------

  datatype ProfileForm = ProfileForm(name: string, email: string, phone: string, documentId: string)

  datatype ProfileErrors = ProfileErrors(name: string, email: string, phone: string, documentId: string)

  const NoProfileErrors: ProfileErrors := ProfileErrors("", "", "", "")

  datatype SavedCard = SavedCard(id: string, labelText: string)

  datatype CardForm = CardForm(holderName: string, number: string, expiry: string, cvv: string)

  /** The fields of the new-card form. */
  datatype CardField = HolderNameField | NumberField | ExpiryField | CvvField

  datatype SecurityState = SecurityState(
    currentPassword: string,
    newPassword: string,
    confirmPassword: string,
    error: string,
    success: string)

  const NameMissing: string := "Informe seu nome completo."
  const EmailMissing: string := "Informe seu email."
  const EmailInvalid: string := "Digite um email válido."
  const PhoneInvalid: string := "Digite um telefone com DDD (10 ou 11 dígitos)."
  const CpfInvalid: string := "Digite um CPF válido (11 dígitos)."

  const CardNameMissing: string := "Informe o nome impresso no cartão."
  const CardNumberInvalid: string := "Digite um número de cartão válido."
  const CardExpiryInvalid: string := "Digite uma validade no formato MM/AA."
  const CardCvvInvalid: string := "Digite o código de segurança com 3 ou 4 dígitos."

  const PasswordsMissing: string := "Preencha a nova senha e a confirmação."
  const PasswordsDiffer: string := "As senhas não conferem."
  const PasswordUpdated: string := "Senha atualizada com sucesso."

  const InitialCards: seq<SavedCard> := [SavedCard("card-1", "Visa final 1234"), SavedCard("card-2", "Mastercard final 5678")]

  // ---------------------------------------------------------------------
  // Personal data
  // ---------------------------------------------------------------------

  /** The form passes: a name, a well-formed email, and a phone and a CPF that are empty or complete. */
  predicate ProfileValid(f: ProfileForm) {
    Trim(f.name) != [] && IsValidEmail(Trim(f.email))
    && (OnlyDigits(f.phone) == [] || IsValidPhoneDigits(OnlyDigits(f.phone)))
    && (OnlyDigits(f.documentId) == [] || IsValidCpfDigits(OnlyDigits(f.documentId)))
  }

  /**
   * The messages of a profile submission: the name and email are required,
   * the email must be well formed, and a phone or CPF, when typed, must
   * have the right number of digits. No message at all exactly when the
   * form is valid.
   */
  function ProfileSubmitErrors(f: ProfileForm): ProfileErrors
  {
    var trimmedName := Trim(f.name);
    var trimmedEmail := Trim(f.email);
    var phoneDigits := OnlyDigits(f.phone);
    var documentDigits := OnlyDigits(f.documentId);
    ProfileErrors(
      if trimmedName == [] then NameMissing else "",
      if trimmedEmail == [] then EmailMissing else if !IsValidEmail(trimmedEmail) then EmailInvalid else "",
      if phoneDigits != [] && !IsValidPhoneDigits(phoneDigits) then PhoneInvalid else "",
      if documentDigits != [] && !IsValidCpfDigits(documentDigits) then CpfInvalid else "")
  }

  /** A submission has no message exactly when the form is valid. */
  lemma ProfileSubmitErrorsValid(f: ProfileForm)
    ensures ProfileSubmitErrors(f) == NoProfileErrors <==> ProfileValid(f)
  {
  }

  /** Each message appears exactly when its field fails its check. */
  lemma ProfileSubmitErrorsFields(f: ProfileForm)
    ensures var errs := ProfileSubmitErrors(f);
      && (errs.name == NameMissing <==> Trim(f.name) == [])
      && (errs.email == EmailMissing <==> Trim(f.email) == [])
      && (errs.email == EmailInvalid <==> Trim(f.email) != [] && !IsValidEmail(Trim(f.email)))
      && (errs.phone == PhoneInvalid <==> OnlyDigits(f.phone) != [] && !IsValidPhoneDigits(OnlyDigits(f.phone)))
      && (errs.documentId == CpfInvalid
          <==> OnlyDigits(f.documentId) != [] && !IsValidCpfDigits(OnlyDigits(f.documentId)))
  {
  }

  /** What a valid form sends: trimmed name and email, phone and CPF as typed. */
  function ProfileUpdate(f: ProfileForm): UserUpdate {
    NoUpdate.(name := Some(Trim(f.name)), email := Some(Trim(f.email)), phone := Some(f.phone),
              documentId := Some(f.documentId))
  }

  /** Saving the profile changes the four personal fields and nothing else of the user. */
  lemma ProfileUpdateFields(u: User, f: ProfileForm)
    ensures ApplyUpdate(u, ProfileUpdate(f))
      == u.(name := Trim(f.name), email := Trim(f.email), phone := f.phone, documentId := f.documentId)
  {
  }

  // ---------------------------------------------------------------------
  // Notifications
  // ---------------------------------------------------------------------

  datatype Channel = EmailChannel | SmsChannel | PushChannel

  function Switch(n: Notifications, key: Channel): bool {
    match key
    case EmailChannel => n.email
    case SmsChannel => n.sms
    case PushChannel => n.push
  }

  /** `{ ...prev, [key]: !prev[key] }`. */
  function Flip(n: Notifications, key: Channel): (r: Notifications)
    ensures Switch(r, key) == !Switch(n, key)
    ensures forall other :: other != key ==> Switch(r, other) == Switch(n, other)
  {
    match key
    case EmailChannel => n.(email := !n.email)
    case SmsChannel => n.(sms := !n.sms)
    case PushChannel => n.(push := !n.push)
  }

  /** Flipping the same switch twice restores the settings. */
  lemma FlipTwice(n: Notifications, key: Channel)
    ensures Flip(Flip(n, key), key) == n
  {
  }

  // ---------------------------------------------------------------------
  // Cards
  // ---------------------------------------------------------------------

  /** The first failing check of the card form, in the order name, number, expiry, code; "" when all pass. */
  function CardFormError(f: CardForm): string
  {
    if Trim(f.holderName) == [] then CardNameMissing
    else if !IsValidCardNumber(f.number) then CardNumberInvalid
    else if !IsValidExpiry(f.expiry) then CardExpiryInvalid
    else if !IsValidCvv(f.cvv) then CardCvvInvalid
    else ""
  }

  /** The card form fails exactly when one of its checks does, and reports the first that fails. */
  lemma CardFormErrorOrder(f: CardForm)
    ensures var e := CardFormError(f);
      && (e == [] <==> Trim(f.holderName) != [] && IsValidCardNumber(f.number) && IsValidExpiry(f.expiry)
                       && IsValidCvv(f.cvv))
      && (Trim(f.holderName) == [] ==> e == CardNameMissing)
      && (Trim(f.holderName) != [] && !IsValidCardNumber(f.number) ==> e == CardNumberInvalid)
      && (Trim(f.holderName) != [] && IsValidCardNumber(f.number) && !IsValidExpiry(f.expiry) ==> e == CardExpiryInvalid)
      && (Trim(f.holderName) != [] && IsValidCardNumber(f.number) && IsValidExpiry(f.expiry) && !IsValidCvv(f.cvv)
          ==> e == CardCvvInvalid)
  {
  }

  /** The brand by the first digit: 4 is Visa, 5 is Mastercard, anything else a plain card. */
  function Brand(digits: string): (b: string)
    ensures b == "Visa" <==> digits != [] && digits[0] == '4'
    ensures b == "Mastercard" <==> digits != [] && digits[0] == '5'
    ensures b == "Cartão" <==> digits == [] || (digits[0] != '4' && digits[0] != '5')
  {
    if digits != [] && digits[0] == '4' then "Visa"
    else if digits != [] && digits[0] == '5' then "Mastercard"
    else "Cartão"
  }

  /** `digits.slice(-4) || "0000"`. */
  function LastFour(digits: string): (r: string)
    ensures |digits| >= 4 ==> r == digits[|digits| - 4..]
    ensures 0 < |digits| < 4 ==> r == digits
    ensures digits == [] ==> r == "0000"
  {
    if digits == [] then "0000" else if |digits| >= 4 then digits[|digits| - 4..] else digits
  }

  /** The label of a new card: its brand, " final ", and its last four digits. */
  function CardLabel(number: string): string
  {
    var digits := OnlyDigits(number);
    Brand(digits) + " final " + LastFour(digits)
  }

  /** A valid card's label ends in the card's last four digits. */
  lemma CardLabelEndsWithDigits(number: string)
    requires IsValidCardNumber(number)
    ensures var cardText, digits := CardLabel(number), OnlyDigits(number);
      |cardText| >= 4 && cardText[|cardText| - 4..] == digits[|digits| - 4..]
  {
    var digits := OnlyDigits(number);
    var cardText := CardLabel(number);
    assert cardText == (Brand(digits) + " final ") + digits[|digits| - 4..];
  }

  /** The id of the next card: "card-" and one more than the number of saved cards. */
  function NextCardId(cards: seq<SavedCard>): (id: string)
    ensures StartsWith(id, "card-")
  {
    "card-" + NatToString(|cards| + 1)
  }

  /**
   * The id counts cards rather than tracking ids, so after a removal a new
   * card can take the id of one still saved: removing "card-1" from the
   * first two cards and adding one gives a second "card-2".
   */
  lemma NextCardIdCanRepeat()
    ensures var kept := Filter(InitialCards, OtherCard("card-1"));
      kept == [InitialCards[1]] && NextCardId(kept) == kept[0].id
  {
    var kept := Filter(InitialCards, OtherCard("card-1"));
    assert InitialCards[1..][1..] == [];
    assert kept == [InitialCards[1]];
    assert NatToString(2) == "2";
  }

  function OtherCard(cardId: string): SavedCard -> bool {
    (c: SavedCard) => c.id != cardId
  }

  // ---------------------------------------------------------------------
  // The screen
  // ---------------------------------------------------------------------

  class ProfileScreen {
    var activeView: string
    var profileForm: ProfileForm
    var profileErrors: ProfileErrors
    var notifications: Notifications
    var savedCards: seq<SavedCard>
    var cardForm: CardForm
    var cardFormError: string
    var security: SecurityState

    /** The forms open on the user's values, or on empty values and the default switches. */
    constructor(user: Option<User>)
      ensures activeView == "menu"
      ensures user.Some? ==>
                profileForm == ProfileForm(user.value.name, user.value.email, user.value.phone, user.value.documentId)
                && notifications == user.value.notifications && cardForm == CardForm(user.value.name, "", "", "")
      ensures user.None? ==>
                profileForm == ProfileForm("", "", "", "") && notifications == DefaultNotifications
                && cardForm == CardForm("", "", "", "")
      ensures profileErrors == NoProfileErrors && savedCards == InitialCards && cardFormError == []
      ensures security == SecurityState("", "", "", "", "")
    {
      activeView := "menu";
      if user.Some? {
        var u := user.value;
        profileForm := ProfileForm(u.name, u.email, u.phone, u.documentId);
        notifications := u.notifications;
        cardForm := CardForm(u.name, "", "", "");
      } else {
        profileForm := ProfileForm("", "", "", "");
        notifications := DefaultNotifications;
        cardForm := CardForm("", "", "", "");
      }
      profileErrors := NoProfileErrors;
      savedCards := InitialCards;
      cardFormError := "";
      security := SecurityState("", "", "", "", "");
    }

    /**
     * Saving the personal data: every failing field gets its message, and
     * only a form without failures is sent. Without a user nothing happens.
     */
    method HandleProfileSubmit(hasUser: bool) returns (update: Option<UserUpdate>)
      modifies this
      ensures !hasUser ==> update.None? && profileErrors == old(profileErrors)
      ensures hasUser ==> profileErrors == ProfileSubmitErrors(profileForm)
      ensures update.Some? <==> hasUser && ProfileValid(profileForm)
      ensures update.Some? ==> update.value == ProfileUpdate(profileForm)
      ensures unchanged(this`profileForm, this`notifications, this`savedCards, this`cardForm, this`cardFormError)
      ensures unchanged(this`security, this`activeView)
    {
      if !hasUser {
        return None;
      }
      var nextErrors := ProfileSubmitErrors(profileForm);
      ProfileSubmitErrorsValid(profileForm);
      var hasError := nextErrors != NoProfileErrors;
      profileErrors := nextErrors;
      if hasError {
        return None;
      }
      update := Some(ProfileUpdate(profileForm));
    }

    /** One switch flips; with a user the new switches are sent. */
    method HandleNotificationToggle(key: Channel, hasUser: bool) returns (update: Option<UserUpdate>)
      modifies this
      ensures notifications == Flip(old(notifications), key)
      ensures update == if hasUser then Some(NoUpdate.(notifications := Some(notifications))) else None
      ensures profileForm == old(profileForm) && profileErrors == old(profileErrors)
      ensures savedCards == old(savedCards) && cardForm == old(cardForm) && cardFormError == old(cardFormError)
      ensures security == old(security) && activeView == old(activeView)
    {
      var next := Flip(notifications, key);
      if hasUser {
        update := Some(NoUpdate.(notifications := Some(next)));
      } else {
        update := None;
      }
      notifications := next;
    }

    /** Removes every saved card with the given id; the rest keep their order. */
    method HandleRemoveCard(cardId: string)
      modifies this
      ensures savedCards == Filter(old(savedCards), OtherCard(cardId))
      ensures forall i :: 0 <= i < |savedCards| ==> savedCards[i].id != cardId
      ensures IsSubsequence(savedCards, old(savedCards))
      ensures forall c :: c in old(savedCards) && c.id != cardId ==> c in savedCards
      ensures profileForm == old(profileForm) && profileErrors == old(profileErrors)
      ensures notifications == old(notifications) && cardForm == old(cardForm) && cardFormError == old(cardFormError)
      ensures security == old(security) && activeView == old(activeView)
    {
      FilterIsSubsequence(savedCards, OtherCard(cardId));
      savedCards := Filter(savedCards, OtherCard(cardId));
    }

    /**
     * Opening the new-card form: empty number, expiry and code, the holder
     * name taken from the user, else kept from the last form.
     */
    method HandleAddCard(userName: Option<string>)
      modifies this
      ensures cardForm == CardForm(Or(if userName.Some? then userName.value else "", old(cardForm).holderName), "", "", "")
      ensures cardFormError == [] && activeView == "addCard"
      ensures profileForm == old(profileForm) && profileErrors == old(profileErrors) && notifications == old(notifications)
      ensures savedCards == old(savedCards) && security == old(security)
    {
      cardFormError := "";
      var holder := Or(if userName.Some? then userName.value else "", cardForm.holderName);
      cardForm := CardForm(holder, "", "", "");
      activeView := "addCard";
    }

    /**
     * Typing in the new-card form: the number, expiry and code go through
     * their masks, the holder name is stored as typed.
     */
    method HandleCardFormChange(field: CardField, value: string)
      modifies this
      ensures field == NumberField ==> cardForm == old(cardForm).(number := FormatCardNumber(value))
      ensures field == ExpiryField ==> cardForm == old(cardForm).(expiry := FormatExpiry(value))
      ensures field == CvvField ==> cardForm == old(cardForm).(cvv := FormatCvv(value))
      ensures field == HolderNameField ==> cardForm == old(cardForm).(holderName := value)
      ensures field == NumberField ==> OnlyDigits(cardForm.number) == Take(OnlyDigits(value), 19)
      ensures field == CvvField ==> |cardForm.cvv| <= 4 && AllDigits(cardForm.cvv)
      ensures cardFormError == old(cardFormError) && activeView == old(activeView) && savedCards == old(savedCards)
      ensures profileForm == old(profileForm) && profileErrors == old(profileErrors) && notifications == old(notifications)
      ensures security == old(security)
    {
      match field {
        case NumberField =>
          cardForm := cardForm.(number := FormatCardNumber(value));
        case ExpiryField =>
          cardForm := cardForm.(expiry := FormatExpiry(value));
        case CvvField =>
          cardForm := cardForm.(cvv := Take(OnlyDigits(value), 4));
        case HolderNameField =>
          cardForm := cardForm.(holderName := value);
      }
    }

    /**
     * Adding a card: the first failing check is reported and nothing is
     * saved; otherwise the labelled card is appended and the payments list
     * is shown.
     */
    method HandleCardFormSubmit()
      modifies this
      ensures cardFormError == CardFormError(old(cardForm))
      ensures cardFormError != [] ==> savedCards == old(savedCards) && activeView == old(activeView)
      ensures cardFormError == [] ==>
                savedCards == old(savedCards) + [SavedCard(NextCardId(old(savedCards)), CardLabel(old(cardForm).number))]
                && activeView == "payments"
      ensures unchanged(this`profileForm, this`profileErrors, this`notifications, this`cardForm, this`security)
    {
      var error := CardFormError(cardForm);
      cardFormError := error;
      if error == [] {
        var cardText := CardLabel(cardForm.number);
        savedCards := savedCards + [SavedCard(NextCardId(savedCards), cardText)];
        activeView := "payments";
      }
    }

    /**
     * Changing the password: both fields are required and must agree; only
     * then is the new password sent. Without a user nothing happens.
     */
    method HandleSecuritySubmit(hasUser: bool) returns (update: Option<UserUpdate>)
      modifies this
      ensures var s := old(security);
        update.Some? <==> hasUser && s.newPassword != [] && s.confirmPassword != [] && s.newPassword == s.confirmPassword
      ensures update.Some? ==> update.value == NoUpdate.(password := Some(old(security).newPassword))
      ensures var s := old(security);
        !hasUser ==> security == s
      ensures var s := old(security);
        hasUser && (s.newPassword == [] || s.confirmPassword == []) ==>
          security == s.(error := PasswordsMissing, success := "")
      ensures var s := old(security);
        hasUser && s.newPassword != [] && s.confirmPassword != [] && s.newPassword != s.confirmPassword ==>
          security == s.(error := PasswordsDiffer, success := "")
      ensures update.Some? ==> security == old(security).(error := "", success := PasswordUpdated)
      ensures profileForm == old(profileForm) && profileErrors == old(profileErrors) && notifications == old(notifications)
      ensures savedCards == old(savedCards) && cardForm == old(cardForm) && cardFormError == old(cardFormError)
      ensures activeView == old(activeView)
    {
      if !hasUser {
        return None;
      }
      if security.newPassword == [] || security.confirmPassword == [] {
        security := security.(error := PasswordsMissing, success := "");
        return None;
      }
      if security.newPassword != security.confirmPassword {
        security := security.(error := PasswordsDiffer, success := "");
        return None;
      }
      var password := security.newPassword;
      security := security.(error := "", success := PasswordUpdated);
      update := Some(NoUpdate.(password := Some(password)));
    }
  }

  /** A password change sets the password and keeps everything else of the user. */
  lemma PasswordUpdateFields(u: User, password: string)
    ensures ApplyUpdate(u, NoUpdate.(password := Some(password))) == u.(password := password)
  {
  }

  /** A notification change replaces the switches and keeps everything else of the user. */
  lemma NotificationUpdateFields(u: User, n: Notifications)
    ensures ApplyUpdate(u, NoUpdate.(notifications := Some(n))) == u.(notifications := n)
  {
  }

  /** A language, currency or theme choice changes that one setting and keeps everything else. */
  lemma SettingUpdateFields(u: User, value: string)
    ensures ApplyUpdate(u, NoUpdate.(language := Some(value))) == u.(language := value)
    ensures ApplyUpdate(u, NoUpdate.(currency := Some(value))) == u.(currency := value)
    ensures ApplyUpdate(u, NoUpdate.(theme := Some(value))) == u.(theme := value)
  {
  }
}
