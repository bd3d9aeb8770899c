/**
 * The registration screen's button: it hands name, email and password on
 * only when name and email are not blank and the password has at least
 * four characters; otherwise it shows a fixed error message.
 */
module RegisterScreen {
  import opened Text
  import opened Entities

  const FillAllFields := "Please fill all fields (min. 4 characters for password)"

  const MinPasswordLength := 4

  /** The screen's state: the three fields and the error text, if any. */
  datatype RegisterForm = RegisterForm(name: string, email: string, password: string, error: Option<string>)

  /** The arguments of one `onRegisterClick` call. */
  datatype Registration = Registration(name: string, email: string, password: string)

  /** The state after a click, and the callback the click made, if any. */
  datatype ClickResult = ClickResult(form: RegisterForm, registration: Option<Registration>)

  /** The state the screen starts in: empty fields and no error. */
  function InitialForm(): RegisterForm
  {
    RegisterForm("", "", "", None)
  }

  predicate Acceptable(form: RegisterForm)
  {
    !IsBlank(form.name) && !IsBlank(form.email) && |form.password| >= MinPasswordLength
  }

  /**
   * A click on "Register": an acceptable form calls back with its three
   * fields unchanged and keeps its state; any other form gets the error
   * message and no callback.
   */
  function Click(form: RegisterForm): (r: ClickResult)
    ensures r.registration.Some? <==> Acceptable(form)
    ensures r.registration.Some? ==>
              && r.registration.value == Registration(form.name, form.email, form.password)
              && r.form == form
    ensures r.registration.None? ==> r.form == form.(error := Some(FillAllFields))
  {
    if Acceptable(form) then
      ClickResult(form, Some(Registration(form.name, form.email, form.password)))
    else
      ClickResult(form.(error := Some(FillAllFields)), None)
  }

  /** Four password characters are enough, three are not. */
  lemma PasswordBoundary()
    ensures Click(RegisterForm("Ann", "ann@example.org", "abcd", None)).registration.Some?
    ensures Click(RegisterForm("Ann", "ann@example.org", "abc", None)).registration.None?
  {
    assert !IsWhitespace("Ann"[0]);
    assert !IsWhitespace("ann@example.org"[0]);
  }

  /** A name of spaces only is blank, so the click is refused however long the password. */
  lemma BlankNameRefused(email: string, password: string)
    ensures Click(RegisterForm("  ", email, password, None)) ==
            ClickResult(RegisterForm("  ", email, password, Some(FillAllFields)), None)
  {
    assert IsBlank("  ");
  }

  /**
   * Clicking again after a refusal is refused again with the same state:
   * the fields are never edited, so the starting form is refused on every
   * click.
   */
  lemma RefusalIsStable(form: RegisterForm)
    requires !Acceptable(form)
    ensures !Acceptable(Click(form).form)
    ensures Click(Click(form).form) == Click(form)
  {
  }

  lemma InitialFormRefused()
    ensures Click(InitialForm()).registration.None?
    ensures Click(InitialForm()).form == RegisterForm("", "", "", Some(FillAllFields))
    ensures Click(Click(InitialForm()).form) == Click(InitialForm())
  {
    RefusalIsStable(InitialForm());
  }

  /** An accepted click leaves an earlier error message on the screen. */
  lemma AcceptedClickKeepsError(form: RegisterForm)
    requires Acceptable(form)
    ensures Click(form).form.error == form.error
  {
  }
}
