/**
  The validation rules of the sign-up form, one predicate per field. Each field
  passes when every rule on it holds; `confirmPassword` is compared with the
  password field's current (watched) value.
 */
module RegisterForm {
  import opened Validation

  const NameMinLength: nat := 2
  const PasswordMinLength: nat := 6

  predicate NameValid(name: string)
  {
    Required(name) && MinLength(name, NameMinLength)
  }

  ghost predicate EmailValid(email: string)
  {
    Required(email) && EmailPattern(email)
  }

  predicate PasswordValid(password: string)
  {
    Required(password) && MinLength(password, PasswordMinLength) && PasswordPattern(password)
  }

  predicate ConfirmPasswordValid(confirmPassword: string, password: string)
  {
    Required(confirmPassword) && confirmPassword == password
  }

  /** The whole form passes validation. */
  ghost predicate FormValid(name: string, email: string, password: string, confirmPassword: string)
  {
    NameValid(name) && EmailValid(email) && PasswordValid(password)
      && ConfirmPasswordValid(confirmPassword, password)
  }

  /** A name is rejected exactly when it is empty or a single character. */
  lemma NameValidIff(name: string)
    ensures NameValid(name) <==> |name| >= 2
    ensures !NameValid("") && !NameValid("A") && NameValid("An")
  {
  }

  /** Some character of class `cls` occurs before the first line break. */
  predicate OnFirstLine(password: string, cls: CharClass)
  {
    exists c :: c in FirstLine(password) && InClass(c, cls)
  }

  /**
    A password passes when it has six characters or more and a lower-case letter, an
    upper-case letter and a digit on its first line.
   */
  lemma PasswordValidIff(password: string)
    ensures PasswordValid(password) <==>
      |password| >= 6 && OnFirstLine(password, Lower) && OnFirstLine(password, Upper)
        && OnFirstLine(password, Digit)
  {
    LookaheadFirstLine(password, Lower);
    LookaheadFirstLine(password, Upper);
    LookaheadFirstLine(password, Digit);
  }

  /** A confirmation passes exactly when it repeats a non-empty password. */
  lemma ConfirmPasswordValidIff(confirmPassword: string, password: string)
    ensures ConfirmPasswordValid(confirmPassword, password) <==> password != "" && confirmPassword == password
  {
  }

  /** A valid form's confirmation field holds a password that itself passes the password rules. */
  lemma FormValidConfirmation(name: string, email: string, password: string, confirmPassword: string)
    requires FormValid(name, email, password, confirmPassword)
    ensures PasswordValid(confirmPassword)
  {
  }

  /** Sample sign-ups: the first passes, the others fail one rule each. */
  lemma RegisterExamples()
    ensures FormValid("An", "a@b.c", "Abc123", "Abc123")
    ensures !FormValid("An", "a@b.c", "Abc123", "Abc124")
    ensures !PasswordValid("aB1")
    ensures !PasswordValid("aB1cd")
    ensures !PasswordValid("abcdef\nA1")
  {
    EmailPatternExamples();
    PasswordPatternAccepts();
    PasswordPatternFirstLineOnly();
  }
}
