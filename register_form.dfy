/**
 * The submit handler of learnhub/components/auth/register-form.tsx: the order of the
 * client-side checks, and the message shown when registration fails.
 */
module RegisterForm {
  import opened Wrappers
  import Auth

  /** The form's state; `role` starts out as student. */
  datatype FormData = FormData(name: string, email: string, password: string, role: Auth.Role)

  const InitialForm := FormData("", "", "", Auth.Student)

  const FillAllFields := "Please fill in all fields"
  const PasswordTooShort := "Password must be at least 6 characters"
  const RegistrationFailed := "Registration failed"
  const MinPasswordLength: nat := 6

  /** The result of a submit: a check failed, or registration was attempted and then succeeded or failed. */
  datatype Outcome =
    | Invalid(error: string)
    | Registered
    | Failed(error: string)

  /** The checks `handleSubmit` runs before calling `register`, in order; `None` when all pass. */
  function Check(form: FormData): (error: Option<string>)
    ensures error.None? <==> form.name != "" && form.email != "" && form.password != "" && |form.password| >= MinPasswordLength
    ensures form.name == "" || form.email == "" || form.password == "" ==> error == Some(FillAllFields)
    ensures form.name != "" && form.email != "" && form.password != "" && |form.password| < MinPasswordLength
      ==> error == Some(PasswordTooShort)
  {
    if form.name == "" || form.email == "" || form.password == "" then Some(FillAllFields)
    else if |form.password| < MinPasswordLength then Some(PasswordTooShort)
    else None
  }

  /**
   * `handleSubmit`: `registration` is what the authentication service answers to this form;
   * it is consulted only when the checks pass. A failure shows the service's error, or
   * "Registration failed" when that error is empty.
   */
  function Submit(form: FormData, registration: Auth.AuthResult): (r: Outcome)
    ensures r.Invalid? <==> Check(form).Some?
    ensures r.Invalid? ==> r.error == Check(form).value
    ensures r == Registered <==> Check(form).None? && registration.Success?
    ensures r.Failed? ==> registration.Failure? && r.error != ""
    ensures r.Failed? && registration.error != "" ==> r.error == registration.error
  {
    match Check(form)
    case Some(e) => Invalid(e)
    case None =>
      match registration
      case Success(_) => Registered
      case Failure(e) => Failed(if e != "" then e else RegistrationFailed)
  }

  /** The fields are not trimmed: a name of spaces passes the checks. */
  lemma BlankNamePasses(email: string, password: string, role: Auth.Role)
    requires email != "" && |password| >= MinPasswordLength
    ensures Check(FormData("   ", email, password, role)).None?
  {
  }

  /** The length check is inclusive: six characters pass, five do not. */
  lemma PasswordBoundary(name: string, email: string, role: Auth.Role)
    requires name != "" && email != ""
    ensures Check(FormData(name, email, "secret", role)).None?
    ensures Check(FormData(name, email, "short", role)) == Some(PasswordTooShort)
  {
  }

  /** An empty form reports the missing fields, not the short password. */
  lemma EmptyFormReportsMissingFields()
    ensures Submit(InitialForm, Auth.Failure("")) == Invalid(FillAllFields)
  {
  }

  /** A duplicate email surfaces the service's own message. */
  lemma DuplicateEmailShown(form: FormData)
    requires Check(form).None?
    ensures Submit(form, Auth.Failure(Auth.EmailTaken)) == Failed(Auth.EmailTaken)
  {
  }
}
