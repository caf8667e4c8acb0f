/**
 * The sign-in / sign-up form (src/pages/Auth.tsx): the three field
 * validators, the error and "touched" state the form keeps, and the submit
 * handler, which either marks every field touched or asks for a sign-in or
 * a sign-up. The sign-in and sign-up calls themselves are not modelled.
 */
module Auth {
  import opened Wrappers
  import opened JsText

  datatype AuthMode = Login | Signup

  datatype UserRole = Provider | PatientRole

  /** The form's three fields. */
  datatype Field = EmailField | PasswordField | FullNameField

  // ---------------------------------------------------------------------
  // The email pattern
  // ---------------------------------------------------------------------

  /** `[^\s@]`. */
  predicate Plain(c: char) {
    !IsSpace(c) && c != '@'
  }

  predicate AllPlain(t: string) {
    forall k :: 0 <= k < |t| ==> Plain(t[k])
  }

  /** `/^[^\s@]+@[^\s@]+\.[^\s@]+$/.test(s)`: the `@` at `i` and the `.` at
      `j` split `s` into three non-empty runs of plain characters. */
  predicate EmailPattern(s: string) {
    exists i, j :: 0 < i && i + 1 < j && j + 1 < |s| && s[i] == '@' && s[j] == '.'
      && AllPlain(s[..i]) && AllPlain(s[i + 1..j]) && AllPlain(s[j + 1..])
  }

  /** What the pattern asks of an address, said directly: no whitespace,
      exactly one `@`, something before it, and after it a `.` that is
      neither the first nor the last character. */
  predicate EmailShape(s: string) {
    (forall k :: 0 <= k < |s| ==> !IsSpace(s[k]))
    && exists i :: (0 < i < |s| && s[i] == '@' && (forall k :: 0 <= k < |s| && k != i ==> s[k] != '@')
                    && exists j :: i + 1 < j < |s| - 1 && s[j] == '.')
  }

  lemma PatternGivesShape(s: string, i: nat, j: nat)
    requires 0 < i && i + 1 < j && j + 1 < |s| && s[i] == '@' && s[j] == '.'
    requires AllPlain(s[..i]) && AllPlain(s[i + 1..j]) && AllPlain(s[j + 1..])
    ensures EmailShape(s)
  {
    forall k | 0 <= k < |s| && k != i ensures Plain(s[k]) {
      if k < i {
        assert s[k] == s[..i][k];
      } else if k < j {
        assert s[k] == s[i + 1..j][k - i - 1];
      } else if k > j {
        assert s[k] == s[j + 1..][k - j - 1];
      }
    }
    assert forall k :: 0 <= k < |s| ==> !IsSpace(s[k]);
  }

  lemma ShapeGivesPattern(s: string, i: nat, j: nat)
    requires forall k :: 0 <= k < |s| ==> !IsSpace(s[k])
    requires 0 < i < |s| && s[i] == '@' && (forall k :: 0 <= k < |s| && k != i ==> s[k] != '@')
    requires i + 1 < j < |s| - 1 && s[j] == '.'
    ensures EmailPattern(s)
  {
    assert AllPlain(s[..i]) by {
      forall k | 0 <= k < i ensures Plain(s[..i][k]) { assert s[..i][k] == s[k]; }
    }
    var mid, tail := s[i + 1..j], s[j + 1..];
    assert AllPlain(mid) by {
      forall k | 0 <= k < |mid| ensures Plain(mid[k]) { assert mid[k] == s[i + 1 + k]; }
    }
    assert AllPlain(tail) by {
      forall k | 0 <= k < |tail| ensures Plain(tail[k]) { assert tail[k] == s[j + 1 + k]; }
    }
  }

  /** The pattern accepts exactly the addresses of that shape. */
  lemma EmailPatternIffShape(s: string)
    ensures EmailPattern(s) <==> EmailShape(s)
  {
    if EmailPattern(s) {
      var i, j :| 0 < i && i + 1 < j && j + 1 < |s| && s[i] == '@' && s[j] == '.'
        && AllPlain(s[..i]) && AllPlain(s[i + 1..j]) && AllPlain(s[j + 1..]);
      PatternGivesShape(s, i, j);
    }
    if EmailShape(s) {
      var i :| 0 < i < |s| && s[i] == '@' && (forall k :: 0 <= k < |s| && k != i ==> s[k] != '@')
        && exists j :: i + 1 < j < |s| - 1 && s[j] == '.';
      var j :| i + 1 < j < |s| - 1 && s[j] == '.';
      ShapeGivesPattern(s, i, j);
    }
  }

  // ---------------------------------------------------------------------
  // Validators
  // ---------------------------------------------------------------------

  /** `validateEmail`: `None` is `undefined`. */
  function ValidateEmail(email: string): Option<string> {
    if Trim(email) == "" then Some("Email is required")
    else if !EmailPattern(email) then Some("Please enter a valid email")
    else None
  }

  /** A blank address is reported as missing before any format check, and an
      address is accepted exactly when it has the shape above. */
  lemma ValidateEmailSpec(email: string)
    ensures AllSpace(email) ==> ValidateEmail(email) == Some("Email is required")
    ensures !AllSpace(email) && !EmailShape(email) ==> ValidateEmail(email) == Some("Please enter a valid email")
    ensures ValidateEmail(email) == None <==> EmailShape(email)
  {
    TrimEmptyIffAllSpace(email);
    EmailPatternIffShape(email);
    if EmailShape(email) {
      var i :| 0 < i < |email| && email[i] == '@' && (forall k :: 0 <= k < |email| && k != i ==> email[k] != '@')
        && exists j :: i + 1 < j < |email| - 1 && email[j] == '.';
      assert !IsSpace(email[i]);
    }
  }

  /** `validatePassword`: the password is not trimmed. */
  function ValidatePassword(password: string): Option<string> {
    if password == "" then Some("Password is required")
    else if |password| < 6 then Some("Password must be at least 6 characters")
    else None
  }

  /** A password is accepted exactly when it has six characters or more;
      even six spaces pass. */
  lemma ValidatePasswordSpec(password: string)
    ensures ValidatePassword(password) == None <==> |password| >= 6
    ensures 0 < |password| < 6 ==> ValidatePassword(password) == Some("Password must be at least 6 characters")
    ensures ValidatePassword("      ") == None
  {
  }

  /** `validateFullName`, which reads the form's mode. */
  function ValidateFullName(mode: AuthMode, name: string): Option<string> {
    if mode == Signup && Trim(name) == "" then Some("Full name is required")
    else if mode == Signup && |Trim(name)| < 2 then Some("Name must be at least 2 characters")
    else None
  }

  /** Signing in never asks for a name; signing up accepts a name exactly when
      it has two characters or more once trimmed. */
  lemma ValidateFullNameSpec(mode: AuthMode, name: string)
    ensures mode == Login ==> ValidateFullName(mode, name) == None
    ensures mode == Signup ==> (ValidateFullName(mode, name) == None <==> |Trim(name)| >= 2)
    ensures mode == Signup && AllSpace(name) ==> ValidateFullName(mode, name) == Some("Full name is required")
  {
    TrimEmptyIffAllSpace(name);
  }

  // ---------------------------------------------------------------------
  // The form
  // ---------------------------------------------------------------------

  /** `interface FormErrors`. */
  datatype FormErrors = FormErrors(email: Option<string>, password: Option<string>, fullName: Option<string>)

  /** The errors `validateForm` computes. */
  function ErrorsFor(mode: AuthMode, email: string, password: string, fullName: string): FormErrors {
    FormErrors(ValidateEmail(email), ValidatePassword(password), ValidateFullName(mode, fullName))
  }

  predicate NoErrors(e: FormErrors) {
    e.email.None? && e.password.None? && e.fullName.None?
  }

  /** The form passes exactly when the address has the right shape, the
      password has six characters and, when signing up, the trimmed name has
      two. */
  lemma FormPassesIff(mode: AuthMode, email: string, password: string, fullName: string)
    ensures NoErrors(ErrorsFor(mode, email, password, fullName)) <==>
      EmailShape(email) && |password| >= 6 && (mode == Signup ==> |Trim(fullName)| >= 2)
  {
    ValidateEmailSpec(email);
    ValidatePasswordSpec(password);
    ValidateFullNameSpec(mode, fullName);
  }

  /** What a submit asks the authentication service for. */
  datatype SubmitAction = NoAction | SignIn(email: string, password: string) | SignUp(email: string, password: string, fullName: string, role: UserRole)

  const AllFields: set<Field> := {EmailField, PasswordField, FullNameField}

  /** The form's state. */
  class AuthForm {
    var mode: AuthMode
    var selectedRole: UserRole
    var email: string
    var password: string
    var fullName: string
    var errors: FormErrors
    var touched: set<Field>

    /** The form opens on "login" for a provider, empty and untouched. */
    constructor ()
      ensures mode == Login && selectedRole == Provider
      ensures email == "" && password == "" && fullName == ""
      ensures errors == FormErrors(None, None, None) && touched == {}
    {
      mode, selectedRole := Login, Provider;
      email, password, fullName := "", "", "";
      errors, touched := FormErrors(None, None, None), {};
    }

    /** `validateForm`: stores every field's error and reports whether there
        are none. */
    method ValidateForm() returns (ok: bool)
      modifies this
      ensures errors == ErrorsFor(mode, email, password, fullName)
      ensures ok <==> NoErrors(errors)
      ensures mode == old(mode) && selectedRole == old(selectedRole) && email == old(email)
      ensures password == old(password) && fullName == old(fullName) && touched == old(touched)
    {
      errors := FormErrors(ValidateEmail(email), ValidatePassword(password), ValidateFullName(mode, fullName));
      ok := errors.email.None? && errors.password.None? && errors.fullName.None?;
    }

    /** `handleBlur`: marks the field touched and refreshes its error only. */
    method HandleBlur(f: Field)
      modifies this
      ensures touched == old(touched) + {f}
      ensures errors == match f
        case EmailField => old(errors).(email := ValidateEmail(email))
        case PasswordField => old(errors).(password := ValidatePassword(password))
        case FullNameField => old(errors).(fullName := ValidateFullName(mode, fullName))
      ensures mode == old(mode) && selectedRole == old(selectedRole) && email == old(email)
      ensures password == old(password) && fullName == old(fullName)
    {
      touched := touched + {f};
      match f {
        case EmailField => errors := errors.(email := ValidateEmail(email));
        case PasswordField => errors := errors.(password := ValidatePassword(password));
        case FullNameField => errors := errors.(fullName := ValidateFullName(mode, fullName));
      }
    }

    /** `handleSubmit`: an invalid form marks every field touched and asks for
        nothing; a valid one asks to sign in or to sign up, by the mode. */
    method HandleSubmit() returns (action: SubmitAction)
      modifies this
      ensures errors == ErrorsFor(mode, email, password, fullName)
      ensures !NoErrors(errors) ==> action == NoAction && touched == AllFields
      ensures NoErrors(errors) ==> touched == old(touched)
      ensures NoErrors(errors) ==> action == if mode == Login then SignIn(email, password) else SignUp(email, password, fullName, selectedRole)
      ensures mode == old(mode) && selectedRole == old(selectedRole) && email == old(email)
      ensures password == old(password) && fullName == old(fullName)
    {
      var ok := ValidateForm();
      if !ok {
        touched := AllFields;
        return NoAction;
      }
      if mode == Login {
        action := SignIn(email, password);
      } else {
        action := SignUp(email, password, fullName, selectedRole);
      }
    }
  }

  /** The request a submit makes, as a function of the fields. */
  function SubmitOutcome(mode: AuthMode, role: UserRole, email: string, password: string, fullName: string): SubmitAction {
    if !NoErrors(ErrorsFor(mode, email, password, fullName)) then NoAction
    else if mode == Login then SignIn(email, password)
    else SignUp(email, password, fullName, role)
  }

  /** No request is made with an address of the wrong shape or a short
      password, and a sign-up request always carries a name of two or more
      characters. */
  lemma SubmitNeedsValidFields(mode: AuthMode, role: UserRole, email: string, password: string, fullName: string)
    ensures var a := SubmitOutcome(mode, role, email, password, fullName);
      (a != NoAction ==> EmailShape(email) && |password| >= 6)
      && (a.SignUp? ==> |Trim(a.fullName)| >= 2 && a.role == role)
      && (a == NoAction <==> !(EmailShape(email) && |password| >= 6 && (mode == Signup ==> |Trim(fullName)| >= 2)))
  {
    FormPassesIff(mode, email, password, fullName);
  }
}
