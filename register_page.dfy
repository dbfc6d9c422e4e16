/**
 * The registration page's checks on its form, run in order before anything is sent: the first
 * failing check decides the message shown, and a form that passes them all is posted.
 */
module RegisterPage {
  import opened Wrappers
  import opened Calendar

  /** The form's state; the birth date is the text of the date input. */
  datatype Form = Form(
    userName: string,
    userLastname: string,
    userEmail: string,
    usersPassword: string,
    confirmPassword: string,
    userBirthdate: string,
    userAcceptedPolicy: bool)

  /** The body posted to the registration endpoint; the policy field carries the acceptance time. */
  datatype RegisterRequest = RegisterRequest(
    userName: string,
    userLastname: string,
    userEmail: string,
    usersPassword: string,
    userBirthdate: string,
    userAcceptedPolicy: string)

  datatype Outcome = Rejected(message: string) | Send(request: RegisterRequest)

  const MissingFields := "Tous les champs sont obligatoires"
  const PasswordsDiffer := "Les mots de passe ne correspondent pas"
  const PasswordTooShort := "Le mot de passe doit contenir au moins 8 caractères"
  const TooYoung := "Vous devez avoir au moins 18 ans pour vous inscrire"
  const PolicyNotAccepted := "Vous devez accepter les conditions d'utilisation"

  const MinPasswordLength := 8
  const MinAge := 18

  /** Every required field is filled in; the confirmation is not among them. */
  predicate FieldsPresent(f: Form) {
    f.userName != "" && f.userLastname != "" && f.userEmail != "" && f.usersPassword != "" && f.userBirthdate != ""
  }

  /**
   * The age check. `birth` is the entered date as the browser parses it, `None` when it is not a
   * date: the age is then not a number, and a comparison with 18 is false, so the check passes.
   */
  predicate OldEnough(birth: Option<Date>, today: Date) {
    birth.None? || CalculateAge(birth.value, today) >= MinAge
  }

  /** The whole chain accepts the form. */
  predicate Acceptable(f: Form, birth: Option<Date>, today: Date) {
    FieldsPresent(f) && f.usersPassword == f.confirmPassword && |f.usersPassword| >= MinPasswordLength
    && OldEnough(birth, today) && f.userAcceptedPolicy
  }

  /**
   * `handleSubmit` up to the request: the first check that fails gives its message; otherwise
   * the form's fields are posted, with `acceptedAt` (the current time as text) in place of the
   * policy box.
   */
  function Submit(f: Form, birth: Option<Date>, today: Date, acceptedAt: string): (o: Outcome)
    ensures o == Rejected(MissingFields) <==> !FieldsPresent(f)
    ensures o == Rejected(PasswordsDiffer) <==> FieldsPresent(f) && f.usersPassword != f.confirmPassword
    ensures o == Rejected(PasswordTooShort) <==>
              FieldsPresent(f) && f.usersPassword == f.confirmPassword && |f.usersPassword| < MinPasswordLength
    ensures o == Rejected(TooYoung) <==>
              FieldsPresent(f) && f.usersPassword == f.confirmPassword && |f.usersPassword| >= MinPasswordLength
              && !OldEnough(birth, today)
    ensures o == Rejected(PolicyNotAccepted) <==>
              FieldsPresent(f) && f.usersPassword == f.confirmPassword && |f.usersPassword| >= MinPasswordLength
              && OldEnough(birth, today) && !f.userAcceptedPolicy
    ensures o.Send? <==> Acceptable(f, birth, today)
    ensures o.Send? ==> o.request == RegisterRequest(f.userName, f.userLastname, f.userEmail, f.usersPassword, f.userBirthdate, acceptedAt)
  {
    if !FieldsPresent(f) then Rejected(MissingFields)
    else if f.usersPassword != f.confirmPassword then Rejected(PasswordsDiffer)
    else if |f.usersPassword| < MinPasswordLength then Rejected(PasswordTooShort)
    else if !OldEnough(birth, today) then Rejected(TooYoung)
    else if !f.userAcceptedPolicy then Rejected(PolicyNotAccepted)
    else Send(RegisterRequest(f.userName, f.userLastname, f.userEmail, f.usersPassword, f.userBirthdate, acceptedAt))
  }

  /** A form that is sent carries a confirmation equal to a password of at least eight characters. */
  lemma {:induction false} SentFormIsConfirmed(f: Form, birth: Option<Date>, today: Date, acceptedAt: string)
    requires Submit(f, birth, today, acceptedAt).Send?
    ensures f.confirmPassword == f.usersPassword && |f.confirmPassword| >= MinPasswordLength
  {
  }

  /** A form whose birth date is not a date gets past the age check. */
  lemma {:induction false} UnparsableBirthdatePassesAgeCheck(f: Form, today: Date, acceptedAt: string)
    ensures Submit(f, None, today, acceptedAt) != Rejected(TooYoung)
  {
  }

  /** A sent form with a real birth date belongs to someone whose eighteenth birthday has passed. */
  lemma {:induction false} SentFormIsAdult(f: Form, birth: Date, today: Date, acceptedAt: string)
    requires Submit(f, Some(birth), today, acceptedAt).Send?
    ensures OnOrBefore(Anniversary(birth, 18), today)
  {
    AdultIffEighteenthBirthdayPassed(birth, today);
  }
}
