/**
 * The account form of `SignupScreen.jsx`: the field checks run as the user
 * types, the checks of the submission, and the payload handed to
 * `onSignup`. The 400 ms delay before `onSignup` is not modelled: the
 * submission returns the payload it would hand over.
 */
module Signup {
  import opened Text
  import opened Collections
  import opened Masks
  import opened App

  const NameMissing: string := "Informe seu nome completo."
  const EmailMissing: string := "Informe seu email."
  const EmailInvalid: string := "Digite um email válido."
  const PhoneMissing: string := "Informe um telefone com DDD."
  const PhoneInvalid: string := "Digite um telefone com DDD (10 ou 11 dígitos)."
  const PasswordShort: string := "Use ao menos 6 caracteres."
  const PasswordMismatch: string := "As senhas não conferem."
  const TermsMissing: string := "Você precisa aceitar os termos e a política de privacidade."
  const FixFields: string := "Corrija os campos destacados antes de continuar."

  /** The form-wide message and the message under each field. */
  datatype SignupErrors = SignupErrors(
    form: string,
    name: string,
    email: string,
    phone: string,
    password: string,
    confirmPassword: string)

  const NoSignupErrors: SignupErrors := SignupErrors("", "", "", "", "", "")

  // ---------------------------------------------------------------------
  // Field checks
  // ---------------------------------------------------------------------

  function NameError(name: string): (e: string)
    ensures e == [] <==> Trim(name) != []
    ensures e != [] ==> e == NameMissing
  {
    if Trim(name) == [] then NameMissing else ""
  }

  function EmailError(email: string): (e: string)
    ensures e == [] <==> Trim(email) != [] && IsValidEmail(Trim(email))
    ensures e == EmailMissing <==> Trim(email) == []
    ensures e == EmailInvalid <==> Trim(email) != [] && !IsValidEmail(Trim(email))
  {
    var t := Trim(email);
    if t == [] then EmailMissing else if !IsValidEmail(t) then EmailInvalid else ""
  }

  /** The phone is mandatory: its digits must number 10 or 11. */
  function PhoneError(phone: string): (e: string)
    ensures e == [] <==> IsValidPhoneDigits(OnlyDigits(phone))
    ensures e == PhoneMissing <==> OnlyDigits(phone) == []
    ensures e == PhoneInvalid <==> OnlyDigits(phone) != [] && !IsValidPhoneDigits(OnlyDigits(phone))
  {
    OnlyDigitsTrim(phone);
    var digits := OnlyDigits(Trim(phone));
    if digits == [] then PhoneMissing else if !IsValidPhoneDigits(digits) then PhoneInvalid else ""
  }

  function PasswordError(password: string): (e: string)
    ensures e == [] <==> |password| >= 6
    ensures e != [] ==> e == PasswordShort
  {
    if password == [] || |password| < 6 then PasswordShort else ""
  }

  /** Every field passes its check. */
  predicate FieldsOk(name: string, email: string, phone: string, password: string, confirmPassword: string) {
    && Trim(name) != []
    && Trim(email) != [] && IsValidEmail(Trim(email))
    && IsValidPhoneDigits(OnlyDigits(phone))
    && |password| >= 6
    && password == confirmPassword
  }

  /**
   * The messages of a submission. The form-wide message asks for the terms
   * when they are not accepted, and otherwise asks to fix the fields when
   * any field failed.
   */
  function SubmitErrors(name: string, email: string, phone: string, password: string, confirmPassword: string,
                        acceptTerms: bool): SignupErrors
  {
    var fieldErrors := SignupErrors("", NameError(name), EmailError(email), PhoneError(phone),
                                    PasswordError(password), if password != confirmPassword then PasswordMismatch else "");
    var fieldsFailed := fieldErrors != NoSignupErrors;
    fieldErrors.(form := if !acceptTerms then TermsMissing else if fieldsFailed then FixFields else "")
  }

  /** A submission has no message exactly when the terms are accepted and every field passes. */
  lemma SubmitErrorsValid(name: string, email: string, phone: string, password: string, confirmPassword: string,
                          acceptTerms: bool)
    ensures SubmitErrors(name, email, phone, password, confirmPassword, acceptTerms) == NoSignupErrors
            <==> acceptTerms && FieldsOk(name, email, phone, password, confirmPassword)
  {
  }

  /**
   * The form-wide message names the terms first and otherwise asks to fix
   * the fields; the confirmation message appears exactly when the passwords differ.
   */
  lemma SubmitErrorsForm(name: string, email: string, phone: string, password: string, confirmPassword: string,
                         acceptTerms: bool)
    ensures var errs := SubmitErrors(name, email, phone, password, confirmPassword, acceptTerms);
      && (errs.form == TermsMissing <==> !acceptTerms)
      && (errs.form == FixFields <==> acceptTerms && !FieldsOk(name, email, phone, password, confirmPassword))
      && (errs.confirmPassword == [] <==> password == confirmPassword)
  {
  }

  /** What `onSignup` receives: the trimmed name, email and phone and the password as typed. */
  function Payload(name: string, email: string, phone: string, password: string): SignupPayload {
    SignupPayload(Some(Trim(name)), Some(Trim(email)), Some(Trim(phone)), password)
  }

  /**
   * A form that passes every check always creates the account: the user
   * is made of the trimmed fields, with a valid email and phone.
   */
  lemma AcceptedFormCreatesUser(name: string, email: string, phone: string, password: string)
    requires FieldsOk(name, email, phone, password, password)
    ensures SignupUser(Payload(name, email, phone, password)).Some?
    ensures var u := SignupUser(Payload(name, email, phone, password)).value;
      && u.name == Trim(name) && u.email == Trim(email) && u.phone == Trim(phone)
      && IsValidEmail(u.email) && IsValidPhoneDigits(OnlyDigits(u.phone)) && u.password == password
  {
    TrimIdempotent(name);
    TrimIdempotent(email);
    TrimIdempotent(phone);
    OnlyDigitsTrim(phone);
    assert Trim(phone) != [];
  }

  // ---------------------------------------------------------------------
  // The screen
  // ---------------------------------------------------------------------

  class SignupScreen {
    var name: string
    var email: string
    var phone: string
    var password: string
    var confirmPassword: string
    var acceptTerms: bool
    var isSubmitting: bool
    var errors: SignupErrors

    constructor()
      ensures name == [] && email == [] && phone == [] && password == [] && confirmPassword == []
      ensures !acceptTerms && !isSubmitting && errors == NoSignupErrors
    {
      name, email, phone, password, confirmPassword := "", "", "", "", "";
      acceptTerms, isSubmitting := false, false;
      errors := NoSignupErrors;
    }

    method HandleNameChange(value: string)
      modifies this
      ensures name == value && errors == old(errors).(name := NameError(value))
      ensures email == old(email) && phone == old(phone) && password == old(password)
      ensures confirmPassword == old(confirmPassword) && acceptTerms == old(acceptTerms)
    {
      name := value;
      if Trim(value) == [] {
        errors := errors.(name := NameMissing);
      } else {
        errors := errors.(name := "");
      }
    }

    method HandleEmailChange(value: string)
      modifies this
      ensures email == value && errors == old(errors).(email := EmailError(value))
      ensures name == old(name) && phone == old(phone) && password == old(password)
      ensures confirmPassword == old(confirmPassword) && acceptTerms == old(acceptTerms)
    {
      email := value;
      var trimmed := Trim(value);
      if trimmed == [] {
        errors := errors.(email := EmailMissing);
      } else if !IsValidEmail(trimmed) {
        errors := errors.(email := EmailInvalid);
      } else {
        errors := errors.(email := "");
      }
    }

    /**
     * Typing in the phone field stores the masked text; its message is the
     * one the submission would show for it.
     */
    method HandlePhoneChange(value: string)
      modifies this
      ensures phone == FormatPhone(value) && errors == old(errors).(phone := PhoneError(FormatPhone(value)))
      ensures name == old(name) && email == old(email) && password == old(password)
      ensures confirmPassword == old(confirmPassword) && acceptTerms == old(acceptTerms)
    {
      var formatted := FormatPhone(value);
      phone := formatted;
      var digits := OnlyDigits(formatted);
      if digits == [] {
        errors := errors.(phone := PhoneMissing);
      } else if !IsValidPhoneDigits(digits) {
        errors := errors.(phone := PhoneInvalid);
      } else {
        errors := errors.(phone := "");
      }
    }

    /**
     * Typing a password checks its length, and re-checks the confirmation
     * only when one has been typed.
     */
    method HandlePasswordChange(value: string)
      modifies this
      ensures password == value && errors.password == PasswordError(value)
      ensures errors.confirmPassword ==
                if confirmPassword == [] then old(errors).confirmPassword
                else if value != confirmPassword then PasswordMismatch else ""
      ensures errors.form == old(errors).form && errors.name == old(errors).name
      ensures errors.email == old(errors).email && errors.phone == old(errors).phone
      ensures name == old(name) && email == old(email) && phone == old(phone)
      ensures confirmPassword == old(confirmPassword) && acceptTerms == old(acceptTerms)
    {
      password := value;
      if value == [] || |value| < 6 {
        errors := errors.(password := PasswordShort);
      } else {
        errors := errors.(password := "");
      }
      if confirmPassword != [] && value != confirmPassword {
        errors := errors.(confirmPassword := PasswordMismatch);
      } else if confirmPassword != [] {
        errors := errors.(confirmPassword := "");
      }
    }

    /** Typing the confirmation flags a mismatch only once a password has been typed. */
    method HandleConfirmPasswordChange(value: string)
      modifies this
      ensures confirmPassword == value
      ensures errors == old(errors).(confirmPassword := if password != [] && value != password then PasswordMismatch else "")
      ensures name == old(name) && email == old(email) && phone == old(phone)
      ensures password == old(password) && acceptTerms == old(acceptTerms)
    {
      confirmPassword := value;
      if password != [] && value != password {
        errors := errors.(confirmPassword := PasswordMismatch);
      } else {
        errors := errors.(confirmPassword := "");
      }
    }

    method HandleTermsChange(checked: bool)
      modifies this
      ensures acceptTerms == checked && errors == old(errors)
      ensures name == old(name) && email == old(email) && phone == old(phone)
      ensures password == old(password) && confirmPassword == old(confirmPassword)
    {
      acceptTerms := checked;
    }

    /**
     * Submitting runs every check; only a form without messages starts the
     * submission and hands over the payload.
     */
    method HandleSubmit() returns (payload: Option<SignupPayload>)
      modifies this
      ensures errors == SubmitErrors(old(name), old(email), old(phone), old(password), old(confirmPassword),
                                     old(acceptTerms))
      ensures payload.Some? <==> errors == NoSignupErrors
      ensures payload.Some? <==> old(acceptTerms) && FieldsOk(old(name), old(email), old(phone), old(password), old(confirmPassword))
      ensures payload.Some? ==> payload == Some(Payload(old(name), old(email), old(phone), old(password))) && isSubmitting
      ensures payload.None? ==> isSubmitting == old(isSubmitting)
      ensures unchanged(this`name, this`email, this`phone, this`password, this`confirmPassword, this`acceptTerms)
    {
      errors := SubmitErrors(name, email, phone, password, confirmPassword, acceptTerms);
      SubmitErrorsValid(name, email, phone, password, confirmPassword, acceptTerms);
      var hasError := !acceptTerms || !FieldsOk(name, email, phone, password, confirmPassword);
      if hasError {
        return None;
      }
      isSubmitting := true;
      payload := Some(Payload(name, email, phone, password));
    }
  }

  /** An accepted submission always yields a new user for the app. */
  lemma SubmittedPayloadCreatesUser(name: string, email: string, phone: string, password: string,
                                    confirmPassword: string)
    requires SubmitErrors(name, email, phone, password, confirmPassword, true) == NoSignupErrors
    ensures SignupUser(Payload(name, email, phone, password)).Some?
  {
    SubmitErrorsValid(name, email, phone, password, confirmPassword, true);
    AcceptedFormCreatesUser(name, email, phone, password);
  }
}
