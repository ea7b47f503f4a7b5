/** The sign-up page: the checks `handleSubmit` makes before calling sign-up, and the error it displays. */
module Signup {
  import opened Wrappers
  import opened JsString

  const MISMATCH: string := "Passwords do not match"
  const TOO_SHORT: string := "Password must be at least 8 characters"
  const MIN_PASSWORD_LENGTH: nat := 8

  datatype SignupForm = SignupForm(username: string, email: string, college: string, password: string, confirmPassword: string)

  /** What is sent to sign-up; an empty college is sent as `undefined`. */
  datatype SignupCredentials = SignupCredentials(username: string, email: string, password: string, college: Option<string>)

  /** The checks in order: the passwords must match, then be at least 8 characters long. */
  function Validate(form: SignupForm): (r: Result<SignupCredentials, string>)
    ensures r.Ok? <==> form.password == form.confirmPassword && |form.password| >= MIN_PASSWORD_LENGTH
    ensures form.password != form.confirmPassword ==> r == Err(MISMATCH)
    ensures form.password == form.confirmPassword && |form.password| < MIN_PASSWORD_LENGTH ==> r == Err(TOO_SHORT)
  {
    if form.password != form.confirmPassword then Err(MISMATCH)
    else if |form.password| < MIN_PASSWORD_LENGTH then Err(TOO_SHORT)
    else Ok(SignupCredentials(form.username, form.email, form.password,
                              if form.college != "" then Some(form.college) else None))
  }

  /** The credentials carry the form's fields, the college only when one was typed. */
  lemma CredentialsFromForm(form: SignupForm)
    requires Validate(form).Ok?
    ensures var c := Validate(form).value;
      c.username == form.username && c.email == form.email && c.password == form.password
      && (c.college.None? <==> form.college == "")
      && (c.college.Some? ==> c.college.value == form.college)
  {
  }

  /** `validationError || error`: the page's own error first, else the store's. */
  function DisplayError(validationError: string, storeError: Option<string>): (r: Option<string>)
    ensures validationError != "" ==> r == Some(validationError)
    ensures validationError == "" ==> r == storeError
  {
    if validationError != "" then Some(validationError) else storeError
  }

  /** The page's state across submissions: its error, the sign-up calls made, and where it navigated. */
  class SignupPage {
    var validationError: string
    var signupCalls: seq<SignupCredentials>
    var navigatedTo: Option<string>

    constructor ()
      ensures validationError == "" && signupCalls == [] && navigatedTo == None
    {
      validationError := "";
      signupCalls := [];
      navigatedTo := None;
    }

    /**
     * `handleSubmit`: the error is cleared, then set by the first failed check, which
     * ends the submission; otherwise sign-up is called, and `fulfilled` says whether its
     * request succeeded, in which case the page navigates to the dashboard.
     */
    method HandleSubmit(form: SignupForm, fulfilled: bool)
      modifies this
      ensures validationError == (if Validate(form).Err? then Validate(form).error else "")
      ensures signupCalls == old(signupCalls) + (if Validate(form).Ok? then [Validate(form).value] else [])
      ensures navigatedTo == (if Validate(form).Ok? && fulfilled then Some("/dashboard") else old(navigatedTo))
    {
      validationError := "";
      if form.password != form.confirmPassword {
        validationError := MISMATCH;
        return;
      }
      if |form.password| < MIN_PASSWORD_LENGTH {
        validationError := TOO_SHORT;
        return;
      }
      var credentials := SignupCredentials(form.username, form.email, form.password,
                                           if form.college != "" then Some(form.college) else None);
      signupCalls := signupCalls + [credentials];
      if fulfilled {
        navigatedTo := Some("/dashboard");
      }
    }
  }
}
