/**
  The validation rules of the sign-in form. The email rule is the sign-up form's
  rule; the password rule keeps only `required` and the minimum length.
 */
module LoginForm {
  import opened Validation
  import RegisterForm

  const PasswordMinLength: nat := 6

  ghost predicate EmailValid(email: string)
  {
    Required(email) && EmailPattern(email)
  }

  predicate PasswordValid(password: string)
  {
    Required(password) && MinLength(password, PasswordMinLength)
  }

  ghost predicate FormValid(email: string, password: string)
  {
    EmailValid(email) && PasswordValid(password)
  }

  /** Both forms accept the same email addresses, and `required` adds nothing to the pattern. */
  lemma EmailRulesAgree(email: string)
    ensures EmailValid(email) <==> RegisterForm.EmailValid(email)
    ensures EmailValid(email) <==> EmailPattern(email)
  {
    if EmailPattern(email) {
      EmailPatternLength(email);
    }
  }

  /** Every password the sign-up form accepts is accepted at sign-in. */
  lemma RegisterPasswordPassesLogin(password: string)
    requires RegisterForm.PasswordValid(password)
    ensures PasswordValid(password)
  {
  }

  /** The converse fails: "aaaaaa" passes sign-in but not sign-up. */
  lemma LoginPasswordNotRegister()
    ensures PasswordValid("aaaaaa") && !RegisterForm.PasswordValid("aaaaaa")
  {
    var s := "aaaaaa";
    assert !InClass(s[0], Upper) && !InClass(s[1], Upper) && !InClass(s[2], Upper);
    assert !InClass(s[3], Upper) && !InClass(s[4], Upper) && !InClass(s[5], Upper);
  }

  /** Credentials from a valid sign-up form pass the sign-in form. */
  lemma RegisteredCredentialsLogIn(name: string, email: string, password: string, confirmPassword: string)
    requires RegisterForm.FormValid(name, email, password, confirmPassword)
    ensures FormValid(email, password)
  {
  }
}
