/**
 * The account forms: the settings dialogs (change password, delete
 * account, edit profile), the sign-up screen of the Compose client, and
 * the learnizone sign-up and login activities of the two Java clients.
 *
 * Every form runs its checks in a fixed order and shows the message of the
 * first one that fails.  `FirstFailure` states that rule once; each form is
 * written as the source writes it, as a chain of tests, and a lemma shows
 * that the chain is the first failure of its list of checks.
 */
module Validation {
  import opened Wrappers
  import opened Text

  // ---------------------------------------------------------------------
  // The first failing check
  // ---------------------------------------------------------------------

  /** One test of a form and the message shown when it fails. */
  datatype Check = Check(passes: bool, message: string)

  /** The message of the first check that fails, or `None` when all pass. */
  function FirstFailure(checks: seq<Check>): (r: Option<string>)
    ensures r.None? <==> forall k :: 0 <= k < |checks| ==> checks[k].passes
    ensures r.Some? ==> exists k :: 0 <= k < |checks| && !checks[k].passes && r.value == checks[k].message &&
                                    forall j :: 0 <= j < k ==> checks[j].passes
    decreases |checks|
  {
    if |checks| == 0 then None
    else if !checks[0].passes then Some(checks[0].message)
    else
      var rest := FirstFailure(checks[1..]);
      assert rest.Some? ==> exists k :: 0 < k < |checks| && !checks[k].passes && rest.value == checks[k].message &&
                                        forall j :: 0 <= j < k ==> checks[j].passes by {
        if rest.Some? {
          var k :| 0 <= k < |checks[1..]| && !checks[1..][k].passes && rest.value == checks[1..][k].message &&
                   forall j :: 0 <= j < k ==> checks[1..][j].passes;
          assert forall j :: 0 <= j < k + 1 ==> checks[j].passes by {
            forall j | 0 <= j < k + 1 ensures checks[j].passes {
              if j > 0 {
                assert checks[j] == checks[1..][j - 1];
              }
            }
          }
        }
      }
      rest
  }

  /** What a dialog does on confirm: show the first failure, or go ahead. */
  datatype Verdict = ShowError(message: string) | Proceed

  function VerdictOf(checks: seq<Check>): Verdict
  {
    match FirstFailure(checks)
    case Some(m) => ShowError(m)
    case None => Proceed
  }

  // ---------------------------------------------------------------------
  // The settings dialogs
  // ---------------------------------------------------------------------

  const FillAllFields := "Please fill in all fields"
  const PasswordsDontMatch := "Passwords don't match"
  const PasswordTooShort := "Password must be at least 6 characters"
  const EnterPassword := "Please enter your password"
  const InvalidEmail := "Please enter a valid email address"

  /** The shortest new password the change-password dialog accepts. */
  const MinPasswordLength := 6

  /**
   * The change-password dialog's Change button.  The change goes ahead, and
   * the dialog closes, exactly when no field is blank, the new password
   * equals its confirmation and has at least six characters; the current
   * password's length is never looked at.
   */
  function ChangePassword(current: string, newPassword: string, confirm: string): (r: Verdict)
    ensures r.Proceed? <==> !IsBlank(current) && !IsBlank(newPassword) && !IsBlank(confirm) &&
                            newPassword == confirm && |newPassword| >= MinPasswordLength
    ensures r == ShowError(FillAllFields) <==> IsBlank(current) || IsBlank(newPassword) || IsBlank(confirm)
    ensures r == ShowError(PasswordTooShort) ==> newPassword == confirm
  {
    if IsBlank(current) || IsBlank(newPassword) || IsBlank(confirm) then ShowError(FillAllFields)
    else if newPassword != confirm then ShowError(PasswordsDontMatch)
    else if |newPassword| < MinPasswordLength then ShowError(PasswordTooShort)
    else Proceed
  }

  function ChangePasswordChecks(current: string, newPassword: string, confirm: string): seq<Check>
  {
    [Check(!IsBlank(current) && !IsBlank(newPassword) && !IsBlank(confirm), FillAllFields),
     Check(newPassword == confirm, PasswordsDontMatch),
     Check(|newPassword| >= MinPasswordLength, PasswordTooShort)]
  }

  /** The dialog shows the first failure among: a blank field, a mismatch, a short new password. */
  lemma ChangePasswordFirstFailure(current: string, newPassword: string, confirm: string)
    ensures ChangePassword(current, newPassword, confirm) == VerdictOf(ChangePasswordChecks(current, newPassword, confirm))
  {
    var checks := ChangePasswordChecks(current, newPassword, confirm);
    if !checks[0].passes {
      assert FirstFailure(checks) == Some(FillAllFields);
    } else if !checks[1].passes {
      assert FirstFailure(checks[1..]) == Some(PasswordsDontMatch);
    } else if !checks[2].passes {
      assert FirstFailure(checks[2..]) == Some(PasswordTooShort);
    } else {
      assert FirstFailure(checks[3..]) == None;
    }
  }

  /** A one-character current password is accepted: only the new one is length-checked. */
  lemma ShortCurrentPasswordAccepted(current: string, newPassword: string)
    requires !IsBlank(current) && !IsBlank(newPassword) && |newPassword| >= MinPasswordLength
    ensures ChangePassword(current, newPassword, newPassword) == Proceed
  {
  }

  /** The delete-account dialog goes ahead exactly when the password is not blank. */
  function DeleteAccount(password: string): (r: Verdict)
    ensures r.Proceed? <==> !IsBlank(password)
    ensures r.ShowError? ==> r.message == EnterPassword
  {
    if IsBlank(password) then ShowError(EnterPassword) else Proceed
  }

  /**
   * The edit-profile dialog's Save: a blank name or email is reported before
   * the email's format; `emailMatches` is the verdict of the platform's
   * email pattern, which is not part of this model.
   */
  function EditProfile(name: string, email: string, emailMatches: bool): (r: Verdict)
    ensures r.Proceed? <==> !IsBlank(name) && !IsBlank(email) && emailMatches
    ensures r == ShowError(FillAllFields) <==> IsBlank(name) || IsBlank(email)
    ensures r == ShowError(InvalidEmail) <==> !IsBlank(name) && !IsBlank(email) && !emailMatches
  {
    if IsBlank(name) || IsBlank(email) then ShowError(FillAllFields)
    else if !emailMatches then ShowError(InvalidEmail)
    else Proceed
  }

  const EmailInUseMessage := "This email is already in use"
  const ReloginMessage := "Please log out and log in again to update your email"
  const ProfileFailedMessage := "Failed to update profile. Please try again."

  /**
   * The message for a failed profile update, chosen by what the error's
   * message contains; an error without a message gets the generic text.
   */
  function ProfileFailureMessage(error: Option<string>): (r: string)
    ensures error.Some? && Contains(error.value, "email-already-in-use") ==> r == EmailInUseMessage
    ensures (error.Some? && !Contains(error.value, "email-already-in-use") &&
             Contains(error.value, "requires-recent-login")) ==> r == ReloginMessage
    ensures r == ProfileFailedMessage <==>
              error.None? || (!Contains(error.value, "email-already-in-use") && !Contains(error.value, "requires-recent-login"))
  {
    match error
    case None => ProfileFailedMessage
    case Some(m) =>
      if Contains(m, "email-already-in-use") then EmailInUseMessage
      else if Contains(m, "requires-recent-login") then ReloginMessage
      else ProfileFailedMessage
  }

  // ---------------------------------------------------------------------
  // The Compose sign-up screen
  // ---------------------------------------------------------------------

  const PasswordsDoNotMatch := "Passwords do not match"

  datatype UserRole = Student | Instructor

  /** The role chips start on Student. */
  const InitialRole := Student

  /** Each role chip selects exactly its own role. */
  function PickRole(current: UserRole, chip: UserRole): (r: UserRole)
    ensures r == chip
  {
    chip
  }

  /**
   * The Sign Up button: any blank field is reported first, then a password
   * that differs from its confirmation; there is no length rule.
   */
  function SignUpScreen(name: string, email: string, password: string, confirm: string): (r: Verdict)
    ensures r.Proceed? <==> !IsBlank(name) && !IsBlank(email) && !IsBlank(password) && !IsBlank(confirm) &&
                            password == confirm
    ensures r == ShowError(FillAllFields) <==>
              IsBlank(name) || IsBlank(email) || IsBlank(password) || IsBlank(confirm)
  {
    if IsBlank(name) || IsBlank(email) || IsBlank(password) || IsBlank(confirm) then ShowError(FillAllFields)
    else if password != confirm then ShowError(PasswordsDoNotMatch)
    else Proceed
  }

  /** Any matching non-blank password passes, however short: "a" with "a" signs up. */
  lemma SignUpHasNoLengthRule(name: string, email: string)
    requires !IsBlank(name) && !IsBlank(email)
    ensures SignUpScreen(name, email, "a", "a") == Proceed
  {
    assert !IsWhitespace("a"[0]);
  }

  // ---------------------------------------------------------------------
  // The learnizone sign-up and login activities (Firebase client)
  // ---------------------------------------------------------------------

  /** The stored role of a student; every other role is a teacher's. */
  const StudentRole := "etudiant"
  const TeacherRole := "professeur"

  /** The field an error is attached to. */
  datatype Field = NameField | EmailField | PasswordField

  /** The user document written after sign-up. */
  datatype UserRecord = UserRecord(name: string, email: string, role: string)

  /** What pressing Sign Up does: mark a field, or create the account. */
  datatype SignUpStep = FieldError(field: Field, message: string) | CreateAccount(user: UserRecord, password: string)

  /** The learnizone sign-up form: the trimmed inputs are checked in order, the first failure stops. */
  function LearnizoneSignUp(name: string, email: string, password: string, studentChecked: bool): (r: SignUpStep)
    ensures r.CreateAccount? <==> Trim(name) != "" && Trim(email) != "" && |Trim(password)| >= 6
    ensures r.CreateAccount? ==> r.user == UserRecord(Trim(name), Trim(email), r.user.role) &&
                                 r.password == Trim(password)
    ensures r.CreateAccount? ==> (r.user.role == StudentRole <==> studentChecked)
    ensures r.CreateAccount? ==> (r.user.role == TeacherRole <==> !studentChecked)
    ensures r.FieldError? && r.field == NameField <==> Trim(name) == ""
    ensures r.FieldError? && r.field == EmailField <==> Trim(name) != "" && Trim(email) == ""
  {
    var n, e, p := Trim(name), Trim(email), Trim(password);
    var role := if studentChecked then StudentRole else TeacherRole;
    if n == "" then FieldError(NameField, "Name is required")
    else if e == "" then FieldError(EmailField, "Email is required")
    else if p == "" then FieldError(PasswordField, "Password is required")
    else if |p| < 6 then FieldError(PasswordField, "Password must be at least 6 characters")
    else CreateAccount(UserRecord(n, e, role), p)
  }

  /** Leading and trailing spaces never change the sign-up's outcome. */
  lemma SignUpTrims(name: string, email: string, password: string, studentChecked: bool)
    ensures LearnizoneSignUp(Trim(name), Trim(email), Trim(password), studentChecked) ==
            LearnizoneSignUp(name, email, password, studentChecked)
  {
    TrimIdempotent(name);
    TrimIdempotent(email);
    TrimIdempotent(password);
  }

  /** Where a signed-in learnizone user goes. */
  datatype Destination = StudentHome | TeacherDashboard

  /** "etudiant" goes to the student home, any other role to the teacher dashboard. */
  function HomeFor(role: string): (r: Destination)
    ensures r == StudentHome <==> role == StudentRole
  {
    if role == StudentRole then StudentHome else TeacherDashboard
  }

  /** The sign-in button: whether it can be pressed and its text. */
  datatype Button = Button(enabled: bool, text: string)

  const LoginIdle := Button(true, "Se connecter")
  const LoginBusy := Button(false, "Connexion en cours...")
  const SignUpIdle := Button(true, "Sign Up")
  const SignUpBusy := Button(false, "Creating account...")

  /** The screen after a remote step: moved on, or still here with a message and the button reset. */
  datatype AuthOutcome = Navigate(to: Destination) | StayWithMessage(message: string, button: Button)

  /**
   * The sign-up's remote steps: account creation, then the user document;
   * each failure is that step's error, if it failed.
   */
  function SignUpCompleted(user: UserRecord, authFailure: Option<string>, saveFailure: Option<string>): (r: AuthOutcome)
    ensures r.Navigate? <==> authFailure.None? && saveFailure.None?
    ensures r.Navigate? ==> r.to == HomeFor(user.role)
    ensures r.StayWithMessage? ==> r.button == SignUpIdle && r.button.enabled
  {
    if authFailure.Some? then StayWithMessage("Authentication failed: " + authFailure.value, SignUpIdle)
    else if saveFailure.Some? then StayWithMessage("Error saving user data: " + saveFailure.value, SignUpIdle)
    else Navigate(HomeFor(user.role))
  }

  /** What pressing the learnizone Login button does. */
  datatype LoginStep = LoginFieldError(field: Field, message: string) | SignIn(email: string, password: string, button: Button)

  /** The trimmed email is checked before the trimmed password; a sign-in disables the button. */
  function LearnizoneLogin(email: string, password: string): (r: LoginStep)
    ensures r.SignIn? <==> Trim(email) != "" && Trim(password) != ""
    ensures r.SignIn? ==> r.email == Trim(email) && r.password == Trim(password) && !r.button.enabled
    ensures r.LoginFieldError? ==> (r.field == EmailField <==> Trim(email) == "")
  {
    var e, p := Trim(email), Trim(password);
    if e == "" then LoginFieldError(EmailField, "Email is required")
    else if p == "" then LoginFieldError(PasswordField, "Password is required")
    else SignIn(e, p, LoginBusy)
  }

  /**
   * After the sign-in: the stored role decides the destination; a missing
   * role, or a failed step, leaves the user here with the button reset.
   */
  function LoginCompleted(authFailure: Option<string>, role: Result<Option<string>>): (r: AuthOutcome)
    ensures r.Navigate? <==> authFailure.None? && role.Success? && role.value.Some?
    ensures r.Navigate? ==> (r.to == StudentHome <==> role.value.value == StudentRole)
    ensures authFailure.None? && role == Success(None) ==> r == StayWithMessage("Error: User role not found", LoginIdle)
    ensures r.StayWithMessage? ==> r.button == LoginIdle
  {
    if authFailure.Some? then StayWithMessage("Authentication failed: " + authFailure.value, LoginIdle)
    else match role
      case Failure(e) => StayWithMessage("Error: " + e, LoginIdle)
      case Success(None) => StayWithMessage("Error: User role not found", LoginIdle)
      case Success(Some(x)) => Navigate(HomeFor(x))
  }

  /**
   * The Login button through one press and the remote steps that follow:
   * a field error returns before the button is touched, a sign-in disables
   * it, a failure resets it to `LoginIdle`, and a successful sign-in
   * leaves the screen with the button still disabled.  `initial` is the
   * button as the layout shows it.
   */
  function ButtonAfterAttempt(initial: Button, email: string, password: string, authFailure: Option<string>,
                              role: Result<Option<string>>): (r: Button)
    ensures LearnizoneLogin(email, password).LoginFieldError? ==> r == initial
    ensures LearnizoneLogin(email, password).SignIn? ==>
              (LoginCompleted(authFailure, role).Navigate? ==> !r.enabled) &&
              (LoginCompleted(authFailure, role).StayWithMessage? ==> r == LoginIdle)
  {
    match LearnizoneLogin(email, password)
    case LoginFieldError(_, _) => initial
    case SignIn(_, _, busy) =>
      match LoginCompleted(authFailure, role)
      case Navigate(_) => busy
      case StayWithMessage(_, button) => button
  }

  /**
   * A failed sign-in resets the button to the enabled "Se connecter"
   * button, whatever it showed before: the button is back as it was
   * exactly when the layout's button is that one.
   */
  lemma LoginResetRestoresButton(initial: Button, email: string, password: string, authFailure: Option<string>,
                                 role: Result<Option<string>>)
    requires LearnizoneLogin(email, password).SignIn?
    requires LoginCompleted(authFailure, role).StayWithMessage?
    ensures ButtonAfterAttempt(initial, email, password, authFailure, role) == initial <==> initial == LoginIdle
    ensures ButtonAfterAttempt(initial, email, password, authFailure, role).enabled
  {
  }

  // ---------------------------------------------------------------------
  // The demo login and sign-up of the other learnizone client
  // ---------------------------------------------------------------------

  const FillEverything := "Veuillez remplir tous les champs"
  const AccountCreated := "Compte créé avec succès ! Veuillez vous connecter."

  /** A text field's content; a field without text reads as "". */
  function FieldText(t: Option<string>): (r: string)
    ensures t.Some? ==> r == t.value
    ensures t.None? ==> r == ""
  {
    t.GetOr("")
  }

  /** The demo screens: stay with a message, or leave (to the main screen, or back to login). */
  datatype DemoOutcome = Stay(message: string) | Leave(notice: Option<string>)

  /** The demo login: any non-empty email and password go to the main screen, untrimmed and unchecked. */
  function DemoLogin(email: Option<string>, password: Option<string>): (r: DemoOutcome)
    ensures r.Leave? <==> FieldText(email) != "" && FieldText(password) != ""
    ensures r.Stay? ==> r.message == FillEverything
    ensures r.Leave? ==> r.notice.None?
  {
    if FieldText(email) == "" || FieldText(password) == "" then Stay(FillEverything) else Leave(None)
  }

  /** The demo sign-up: three non-empty fields show the success message and close the screen. */
  function DemoSignUp(fullName: Option<string>, email: Option<string>, password: Option<string>): (r: DemoOutcome)
    ensures r.Leave? <==> FieldText(fullName) != "" && FieldText(email) != "" && FieldText(password) != ""
    ensures r.Stay? ==> r.message == FillEverything
    ensures r.Leave? ==> r.notice == Some(AccountCreated)
  {
    if FieldText(fullName) == "" || FieldText(email) == "" || FieldText(password) == "" then Stay(FillEverything)
    else Leave(Some(AccountCreated))
  }

  /** Whitespace is not trimmed: a single space in each field is accepted by both demo screens. */
  lemma DemoAcceptsWhitespace()
    ensures DemoLogin(Some(" "), Some(" ")).Leave?
    ensures DemoSignUp(Some(" "), Some(" "), Some(" ")).Leave?
    ensures IsBlank(" ")
  {
  }
}
