/**
 * The patient's signing page (src/pages/ConsentSigning.tsx): the checks that
 * gate a fetched invite, the onboarding screens ("choice", "guest",
 * "account", "login", "complete") and the handlers that move between them,
 * and the consent form's submit condition. The remote procedure calls and
 * the authentication calls are parameters: their outcome is passed in. The
 * onboarding handlers return the notice the page shows, and the submit
 * handler returns the submission it sends.
 */
module ConsentSigning {
  import opened Wrappers
  import opened JsText

  /** `InviteData`, reduced to the fields the page's logic reads. */
  datatype InviteData = InviteData(
    patientEmail: string,
    patientFirstName: Option<string>,
    patientLastName: Option<string>,
    status: string,
    expiresAt: int,
    moduleVideoUrl: Option<string>)

  /** The answer of `get_invite_by_token`. */
  datatype Fetch = FetchFailed | Fetched(rows: seq<InviteData>)

  /** The messages the page shows, by what they report. */
  datatype Notice =
    | LoadFailed | InvalidLink | LinkExpired | AlreadySigned
    | BadFirstName | BadLastName | BadBirthDate | ShortPassword | PasswordMismatch
    | SaveFailed | MissingCredentials | BadCredentials | ServiceMessage(text: string)

  /** The text of each message. */
  function Text(n: Notice): string {
    match n
    case LoadFailed => "Failed to load consent form"
    case InvalidLink => "This consent link is invalid or has expired"
    case LinkExpired => "This consent link has expired. Please request a new one from your provider."
    case AlreadySigned => "This consent form has already been signed."
    case BadFirstName => "Please enter a valid first name"
    case BadLastName => "Please enter a valid last name"
    case BadBirthDate => "Please enter a valid date of birth"
    case ShortPassword => "Password must be at least 6 characters"
    case PasswordMismatch => "Passwords do not match"
    case SaveFailed => "Failed to save your information"
    case MissingCredentials => "Please enter your email and password"
    case BadCredentials => "Invalid email or password"
    case ServiceMessage(t) => t
  }

  datatype Gate = Refused(reason: Notice) | Admitted(invite: InviteData)

  /** The checks of `fetchInvite`, in their order. */
  function GateInvite(f: Fetch, now: int): Gate {
    if f.FetchFailed? then Refused(LoadFailed)
    else if |f.rows| == 0 then Refused(InvalidLink)
    else if f.rows[0].expiresAt < now then Refused(LinkExpired)
    else if f.rows[0].status == "completed" then Refused(AlreadySigned)
    else Admitted(f.rows[0])
  }

  /** Only the first row of a successful fetch is admitted, and only when it
      has not expired and is not completed; an expired invite is reported as
      expired even when it is also completed. */
  lemma GateInviteSpec(f: Fetch, now: int)
    ensures GateInvite(f, now).Admitted? <==>
      f.Fetched? && |f.rows| > 0 && f.rows[0].expiresAt >= now && f.rows[0].status != "completed"
    ensures GateInvite(f, now).Admitted? ==> GateInvite(f, now).invite == f.rows[0]
    ensures f.Fetched? && |f.rows| > 0 && f.rows[0].expiresAt < now ==>
      GateInvite(f, now) == Refused(LinkExpired)
    ensures f.Fetched? && f.rows == [] ==> GateInvite(f, now) == Refused(InvalidLink)
    ensures f.FetchFailed? ==> GateInvite(f, now) == Refused(LoadFailed)
  {
  }

  /** `validateName`. */
  predicate ValidateName(name: string) {
    |Trim(name)| >= 2
  }

  /** A name passes only with two characters that are not whitespace. */
  lemma ValidateNameSpec(name: string)
    ensures ValidateName(name) ==> |name| >= 2 && !AllSpace(name)
    ensures AllSpace(name) ==> !ValidateName(name)
  {
    var a := TrimIsSlice(name);
    TrimEmptyIffAllSpace(name);
  }

  /** `canSubmit`: the video must be watched only when the module has one. */
  predicate CanSubmit(invite: Option<InviteData>, videoWatched: bool, materialsReviewed: bool, agreementChecked: bool, signature: string) {
    (if invite.Some? && Truthy(invite.value.moduleVideoUrl) then videoWatched else true)
    && materialsReviewed && agreementChecked && |Trim(signature)| > 0
  }

  /** Both boxes and a signature that is not blank are always needed; the
      video box counts exactly when the module has a video. */
  lemma CanSubmitSpec(invite: Option<InviteData>, videoWatched: bool, materialsReviewed: bool, agreementChecked: bool, signature: string)
    ensures CanSubmit(invite, videoWatched, materialsReviewed, agreementChecked, signature) ==>
      materialsReviewed && agreementChecked && !AllSpace(signature)
    ensures !(invite.Some? && Truthy(invite.value.moduleVideoUrl)) ==>
      CanSubmit(invite, videoWatched, materialsReviewed, agreementChecked, signature) == CanSubmit(invite, !videoWatched, materialsReviewed, agreementChecked, signature)
    ensures invite.Some? && Truthy(invite.value.moduleVideoUrl) && !videoWatched ==>
      !CanSubmit(invite, videoWatched, materialsReviewed, agreementChecked, signature)
  {
    TrimEmptyIffAllSpace(signature);
  }

  // ---------------------------------------------------------------------
  // The onboarding screens
  // ---------------------------------------------------------------------

  /** `OnboardingMode`. */
  datatype Mode = Choice | Guest | Account | Login | Complete

  /** What moves the page between screens: the buttons, and the handlers and
      the fetch when they succeed. */
  datatype Event = PickGuest | PickLogin | PickAccount | Back | LoginToAccount
                 | GuestSaved | AccountCreated | SignedIn | NamesKnown

  predicate IsSuccess(e: Event) {
    e.GuestSaved? || e.AccountCreated? || e.SignedIn? || e.NamesKnown?
  }

  /** The screen after `e` on screen `m`, or `None` when `m` offers no such
      button or handler. The fetch that finds both names sets "complete"
      whatever the screen. */
  function Step(m: Mode, e: Event): Option<Mode> {
    match (m, e)
    case (_, NamesKnown) => Some(Complete)
    case (Choice, PickGuest) => Some(Guest)
    case (Choice, PickLogin) => Some(Login)
    case (Choice, PickAccount) => Some(Account)
    case (Login, Back) => Some(Choice)
    case (Login, LoginToAccount) => Some(Account)
    case (Login, SignedIn) => Some(Complete)
    case (Guest, Back) => Some(Choice)
    case (Guest, GuestSaved) => Some(Complete)
    case (Account, Back) => Some(Choice)
    case (Account, AccountCreated) => Some(Complete)
    case _ => None
  }

  /** "complete" is final, only a success reaches it, and Back always returns
      to "choice". */
  lemma StepSpec(m: Mode, e: Event)
    ensures m == Complete ==> Step(m, e) == None || Step(m, e) == Some(Complete)
    ensures m != Complete && Step(m, e) == Some(Complete) ==> IsSuccess(e)
    ensures m in {Guest, Account, Login} ==> Step(m, Back) == Some(Choice)
    ensures Step(m, e).Some? && !IsSuccess(e) ==> Step(m, e).value != Complete
  {
  }

  /** The screen after a sequence of events, or `None` if one is not offered. */
  function Run(m: Mode, es: seq<Event>): Option<Mode>
    decreases |es|
  {
    if es == [] then Some(m)
    else
      var n := Step(m, es[0]);
      if n.None? then None else Run(n.value, es[1..])
  }

  /** However the patient moves between the screens, the consent screen is
      reached only through a successful handler or a fetch that found both
      names. */
  lemma {:induction false} CompleteNeedsSuccess(m: Mode, es: seq<Event>)
    requires m != Complete && Run(m, es) == Some(Complete)
    ensures exists k :: 0 <= k < |es| && IsSuccess(es[k])
    decreases |es|
  {
    var n := Step(m, es[0]);
    if n.value == Complete {
      StepSpec(m, es[0]);
      assert IsSuccess(es[0]);
    } else {
      CompleteNeedsSuccess(n.value, es[1..]);
      var k :| 0 <= k < |es[1..]| && IsSuccess(es[1..][k]);
      assert es[k + 1] == es[1..][k];
    }
  }

  /** The checks of `handleGuestContinue`; `dobValid` is `validateDOB`. */
  function GuestError(firstName: string, lastName: string, dobValid: bool): Option<Notice> {
    if !ValidateName(firstName) then Some(BadFirstName)
    else if !ValidateName(lastName) then Some(BadLastName)
    else if !dobValid then Some(BadBirthDate)
    else None
  }

  /** The checks of `handleAccountCreate`. */
  function AccountError(firstName: string, lastName: string, dobValid: bool, password: string, confirmPassword: string): Option<Notice> {
    if !ValidateName(firstName) then Some(BadFirstName)
    else if !ValidateName(lastName) then Some(BadLastName)
    else if !dobValid then Some(BadBirthDate)
    else if |password| < 6 then Some(ShortPassword)
    else if password != confirmPassword then Some(PasswordMismatch)
    else None
  }

  /** Account creation runs the guest checks first, with the same messages,
      and then the two password checks. */
  lemma AccountErrorSpec(firstName: string, lastName: string, dobValid: bool, password: string, confirmPassword: string)
    ensures GuestError(firstName, lastName, dobValid).Some? ==>
      AccountError(firstName, lastName, dobValid, password, confirmPassword) == GuestError(firstName, lastName, dobValid)
    ensures AccountError(firstName, lastName, dobValid, password, confirmPassword) == None <==>
      GuestError(firstName, lastName, dobValid) == None && |password| >= 6 && password == confirmPassword
    ensures GuestError(firstName, lastName, dobValid) == None <==> ValidateName(firstName) && ValidateName(lastName) && dobValid
    ensures GuestError(firstName, lastName, dobValid) == None && |password| >= 6 && password != confirmPassword ==>
      AccountError(firstName, lastName, dobValid, password, confirmPassword) == Some(PasswordMismatch)
  {
  }

  /** The check of `handleLogin`. */
  function LoginError(loginEmail: string, loginPassword: string): Option<Notice> {
    if Trim(loginEmail) == "" || loginPassword == "" then Some(MissingCredentials) else None
  }

  /** The message shown for a failed sign-in. */
  function SignInFailure(message: string): Notice {
    if Includes(message, "Invalid login credentials") then BadCredentials else ServiceMessage(message)
  }

  /** A patient profile's names. */
  datatype Profile = Profile(firstName: string, lastName: string)

  /** What `submit_consent_by_token` is sent. */
  datatype Submission = Submission(token: string, firstName: string, lastName: string, signature: string)

  /** The fields the patient types or ticks, each a `useState` of the page. */
  datatype Form = Form(
    email: string, firstName: string, lastName: string,
    password: string, confirmPassword: string, loginEmail: string, loginPassword: string,
    videoWatched: bool, materialsReviewed: bool, agreementChecked: bool, signature: string)

  /** The page's state. */
  class SigningFlow {
    var token: Option<string>
    var invite: Option<InviteData>
    var error: Option<Notice>
    var mode: Mode
    var isComplete: bool
    var form: Form

    /** The page opens on "choice" with an empty form, for the link's token. */
    constructor (token: Option<string>)
      ensures this.token == token && invite == None && error == None && mode == Choice && !isComplete
      ensures form == Form("", "", "", "", "", "", "", false, false, false, "")
    {
      this.token := token;
      invite, error, mode, isComplete := None, None, Choice, false;
      form := Form("", "", "", "", "", "", "", false, false, false, "");
    }

    /** `fetchInvite` with the fetch's answer `f`: a refused invite sets the
        error; an admitted one is stored, its email copied into the form, and
        when it already has both names they are copied too and the page goes
        to "complete". */
    method LoadInvite(f: Fetch, now: int)
      modifies this
      ensures token == old(token) && isComplete == old(isComplete)
      ensures token.None? ==> invite == old(invite) && error == old(error) && mode == old(mode) && form == old(form)
      ensures token.Some? && GateInvite(f, now).Refused? ==>
        error == Some(GateInvite(f, now).reason) && invite == old(invite) && mode == old(mode) && form == old(form)
      ensures token.Some? && GateInvite(f, now).Admitted? ==>
        var inv := GateInvite(f, now).invite;
        error == old(error) && invite == Some(inv)
        && (if Truthy(inv.patientFirstName) && Truthy(inv.patientLastName)
            then mode == Step(old(mode), NamesKnown).value
              && form == old(form).(email := inv.patientEmail, firstName := inv.patientFirstName.value, lastName := inv.patientLastName.value)
            else mode == old(mode) && form == old(form).(email := inv.patientEmail))
    {
      if token.None? {
        return;
      }
      var g := GateInvite(f, now);
      if g.Refused? {
        error := Some(g.reason);
        return;
      }
      var inv := g.invite;
      invite := Some(inv);
      form := form.(email := inv.patientEmail);
      if Truthy(inv.patientFirstName) && Truthy(inv.patientLastName) {
        form := form.(firstName := inv.patientFirstName.value, lastName := inv.patientLastName.value);
        mode := Complete;
      }
    }

    /** The buttons that only change the screen: "Continue as Guest",
        "Create Account", "Create one" and Back. */
    method Navigate(e: Event)
      requires e in {PickGuest, PickAccount, LoginToAccount, Back} && Step(mode, e).Some?
      modifies this
      ensures mode == Step(old(mode), e).value
      ensures token == old(token) && invite == old(invite) && error == old(error) && isComplete == old(isComplete)
      ensures form == old(form)
    {
      mode := Step(mode, e).value;
    }

    /** "Sign In" on the choice screen: pre-fills the sign-in email with the
        invite's. */
    method PickSignIn()
      requires mode == Choice
      modifies this
      ensures mode == Step(old(mode), PickLogin).value
      ensures form == old(form).(loginEmail := if invite.Some? then invite.value.patientEmail else "")
      ensures token == old(token) && invite == old(invite) && error == old(error) && isComplete == old(isComplete)
    {
      form := form.(loginEmail := if invite.Some? then invite.value.patientEmail else "");
      mode := Login;
    }

    /** `handleGuestContinue`: `saveFailed` is the outcome of
        `update_invite_patient_info_by_token`. Any failure keeps the screen. */
    method GuestContinue(dobValid: bool, saveFailed: bool) returns (message: Option<Notice>)
      requires mode == Guest
      modifies this
      ensures GuestError(form.firstName, form.lastName, dobValid).Some? ==> message == GuestError(form.firstName, form.lastName, dobValid)
      ensures GuestError(form.firstName, form.lastName, dobValid).None? && saveFailed ==> message == Some(SaveFailed)
      ensures mode == if message.None? then Step(old(mode), GuestSaved).value else old(mode)
      ensures message.None? <==> GuestError(form.firstName, form.lastName, dobValid).None? && !saveFailed
      ensures token == old(token) && invite == old(invite) && error == old(error) && isComplete == old(isComplete)
      ensures form == old(form)
    {
      message := GuestError(form.firstName, form.lastName, dobValid);
      if message.Some? {
        return;
      }
      if saveFailed {
        message := Some(SaveFailed);
        return;
      }
      mode := Complete;
    }

    /** `handleAccountCreate`: `signUpError` is the sign-up's error message,
        if any. Any failure keeps the screen. */
    method AccountCreate(dobValid: bool, signUpError: Option<string>) returns (message: Option<Notice>)
      requires mode == Account
      modifies this
      ensures var checks := AccountError(form.firstName, form.lastName, dobValid, form.password, form.confirmPassword);
        (checks.Some? ==> message == checks)
        && (checks.None? ==> message == if signUpError.Some? then Some(ServiceMessage(signUpError.value)) else None)
      ensures mode == if message.None? then Step(old(mode), AccountCreated).value else old(mode)
      ensures token == old(token) && invite == old(invite) && error == old(error) && isComplete == old(isComplete)
      ensures form == old(form)
    {
      message := AccountError(form.firstName, form.lastName, dobValid, form.password, form.confirmPassword);
      if message.Some? {
        return;
      }
      if signUpError.Some? {
        message := Some(ServiceMessage(signUpError.value));
        return;
      }
      mode := Complete;
    }

    /** `handleLogin`: `authError` is the sign-in's error message, if any, and
        `profile` the patient profile found for the user. */
    method SignIn(authError: Option<string>, profile: Option<Profile>) returns (message: Option<Notice>)
      requires mode == Login
      modifies this
      ensures LoginError(form.loginEmail, form.loginPassword).Some? ==> message == LoginError(form.loginEmail, form.loginPassword) && form == old(form)
      ensures LoginError(form.loginEmail, form.loginPassword).None? && authError.Some? ==>
        message == Some(SignInFailure(authError.value)) && form == old(form)
      ensures message.None? <==> LoginError(form.loginEmail, form.loginPassword).None? && authError.None?
      ensures message.None? ==> form == if profile.Some? then old(form).(firstName := profile.value.firstName, lastName := profile.value.lastName) else old(form)
      ensures mode == if message.None? then Step(old(mode), SignedIn).value else old(mode)
      ensures token == old(token) && invite == old(invite) && error == old(error) && isComplete == old(isComplete)
    {
      message := LoginError(form.loginEmail, form.loginPassword);
      if message.Some? {
        return;
      }
      if authError.Some? {
        message := Some(SignInFailure(authError.value));
        return;
      }
      if profile.Some? {
        form := form.(firstName := profile.value.firstName, lastName := profile.value.lastName);
      }
      mode := Complete;
    }

    /** `handleSubmit`: nothing is sent unless the form can be submitted and
        both the invite and the token are there; `failed` is the outcome of
        the call, and only a call that went through completes the page. */
    method HandleSubmit(failed: bool) returns (sent: Option<Submission>)
      modifies this
      ensures sent.Some? <==> CanSubmit(invite, form.videoWatched, form.materialsReviewed, form.agreementChecked, form.signature) && invite.Some? && token.Some?
      ensures sent.Some? ==> sent.value == Submission(token.value, form.firstName, form.lastName, Trim(form.signature))
      ensures isComplete == (old(isComplete) || (sent.Some? && !failed))
      ensures token == old(token) && invite == old(invite) && error == old(error) && mode == old(mode)
      ensures form == old(form)
    {
      if !CanSubmit(invite, form.videoWatched, form.materialsReviewed, form.agreementChecked, form.signature) || invite.None? || token.None? {
        return None;
      }
      sent := Some(Submission(token.value, form.firstName, form.lastName, Trim(form.signature)));
      if !failed {
        isComplete := true;
      }
    }
  }
}
