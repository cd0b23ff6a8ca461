/** `UserViewModel`: the account forms. The checks run in a fixed order and
    the first failing one sets its message, with no server call; a call that
    is made is one atomic step whose outcome is an input. The email pattern is
    an abstract predicate `validEmail`; the stored preferences ("auth_token",
    "user_id") are part of the state. */
module Accounts {
  import opened Domain
  import opened Text

  /** The view model's `errorMessage` texts, one constructor per message. */
  datatype AccountNotice =
    | NoMessage
    | InvalidEmail
    | PasswordMismatch
    | WeakPassword
    | CodeBlank
    | PasswordBlank
    | NameBlank
    | StuIdBlank
    | GradeBlank
    | BirthBlank
    | SchoolBlank
    | NewPasswordWeak
    | NewPasswordSameAsOld
    | NewPasswordMismatch
    | NotLoggedIn
    | Registered
    | RegisterFailed
    | LoggedIn
    | LoginFailed
    | ProfileUpdated
    | ProfileUpdateFailed
    | PasswordChanged
    | PasswordChangeFailed

  predicate IsUpper(c: char) { 'A' <= c <= 'Z' }
  predicate IsLower(c: char) { 'a' <= c <= 'z' }

  /** `isValidPassword`: at least 8 characters, with an upper-case letter, a
      lower-case letter and a digit somewhere. */
  predicate IsValidPassword(p: string)
  {
    |p| >= 8 && (exists i :: 0 <= i < |p| && IsUpper(p[i])) && (exists i :: 0 <= i < |p| && IsLower(p[i]))
    && (exists i :: 0 <= i < |p| && IsDigit(p[i]))
  }

  /** Appending characters never weakens a valid password, and a password
      with no digit is never valid, however long. */
  lemma PasswordStrengthFacts(p: string, q: string)
    ensures IsValidPassword(p) ==> IsValidPassword(p + q)
    ensures (forall i :: 0 <= i < |p| ==> !IsDigit(p[i])) ==> !IsValidPassword(p)
  {
    if IsValidPassword(p) {
      var a :| 0 <= a < |p| && IsUpper(p[a]);
      var b :| 0 <= b < |p| && IsLower(p[b]);
      var c :| 0 <= c < |p| && IsDigit(p[c]);
      assert (p + q)[a] == p[a] && (p + q)[b] == p[b] && (p + q)[c] == p[c];
    }
  }

  /** What `SharedPreferences("auth")` holds. */
  datatype Prefs = Prefs(authToken: Option<string>, userId: Option<int>)

  /** `getInt("user_id", -1)`. */
  function StoredUserId(p: Prefs): int
  {
    if p.userId.Some? then p.userId.value else -1
  }

  /** The text fields the account screens edit. */
  datatype AccountForm = AccountForm(
    email: string,
    password: string,
    newPassword: string,
    code: string,
    confirmPassword: string,
    name: string,
    stuId: string,
    grade: string,
    birth: string,
    school: string)

  datatype AccountState = AccountState(
    form: AccountForm,
    avatarUri: Option<string>,
    errorMessage: AccountNotice,
    isLoggedIn: bool,
    currentUserId: Option<int>,
    authToken: Option<string>,
    prefs: Prefs)

  // ----- the check prefixes -----

  /** The checks of `verifyAndRegister`, in order. */
  function RegisterRejection(s: AccountState): (r: Option<AccountNotice>)
    ensures r.None? <==> s.form.password == s.form.confirmPassword && IsValidPassword(s.form.password) && !IsBlank(s.form.code)
    ensures s.form.password != s.form.confirmPassword ==> r == Some(PasswordMismatch)
  {
    if s.form.password != s.form.confirmPassword then Some(PasswordMismatch)
    else if !IsValidPassword(s.form.password) then Some(WeakPassword)
    else if IsBlank(s.form.code) then Some(CodeBlank)
    else None
  }

  /** The checks of `login`, in order. */
  function LoginRejection(s: AccountState, validEmail: string -> bool): (r: Option<AccountNotice>)
    ensures r.None? <==> validEmail(s.form.email) && !IsBlank(s.form.password)
    ensures !validEmail(s.form.email) ==> r == Some(InvalidEmail)
  {
    if !validEmail(s.form.email) then Some(InvalidEmail)
    else if IsBlank(s.form.password) then Some(PasswordBlank)
    else None
  }

  /** The checks of `updateProfile`, in field order. */
  function ProfileRejection(s: AccountState, validEmail: string -> bool): (r: Option<AccountNotice>)
    ensures r.None? <==>
      !IsBlank(s.form.name) && validEmail(s.form.email) && !IsBlank(s.form.stuId) && !IsBlank(s.form.grade) && !IsBlank(s.form.birth) &&
      !IsBlank(s.form.school)
  {
    if IsBlank(s.form.name) then Some(NameBlank)
    else if !validEmail(s.form.email) then Some(InvalidEmail)
    else if IsBlank(s.form.stuId) then Some(StuIdBlank)
    else if IsBlank(s.form.grade) then Some(GradeBlank)
    else if IsBlank(s.form.birth) then Some(BirthBlank)
    else if IsBlank(s.form.school) then Some(SchoolBlank)
    else None
  }

  /** The checks of `changePassword`, in order. */
  function ChangePasswordRejection(s: AccountState): (r: Option<AccountNotice>)
    ensures r.None? <==>
      IsValidPassword(s.form.newPassword) && s.form.password != s.form.newPassword && s.form.newPassword == s.form.confirmPassword
    ensures !IsValidPassword(s.form.newPassword) ==> r == Some(NewPasswordWeak)
  {
    if !IsValidPassword(s.form.newPassword) then Some(NewPasswordWeak)
    else if s.form.password == s.form.newPassword then Some(NewPasswordSameAsOld)
    else if s.form.newPassword != s.form.confirmPassword then Some(NewPasswordMismatch)
    else None
  }

  /** The profile form reports one failure, that of the first failing field:
      a blank name hides every later problem, and the school is reported
      only when every earlier field is fine. */
  lemma ProfileReportsFirstFailure(s: AccountState, validEmail: string -> bool)
    ensures IsBlank(s.form.name) ==> ProfileRejection(s, validEmail) == Some(NameBlank)
    ensures ProfileRejection(s, validEmail) == Some(SchoolBlank) <==>
      !IsBlank(s.form.name) && validEmail(s.form.email) && !IsBlank(s.form.stuId) && !IsBlank(s.form.grade) && !IsBlank(s.form.birth) &&
      IsBlank(s.form.school)
  {
  }

  /** Changing to the old password is refused even when it is strong and
      confirmed. */
  lemma SamePasswordRefused(s: AccountState)
    requires IsValidPassword(s.form.newPassword) && s.form.password == s.form.newPassword
    ensures ChangePasswordRejection(s) == Some(NewPasswordSameAsOld)
  {
  }

  // ----- the transitions -----

  function RegisterStep(s: AccountState, success: bool): AccountState
  {
    match RegisterRejection(s)
    case Some(n) => s.(errorMessage := n)
    case None =>
      if success then s.(isLoggedIn := true, errorMessage := Registered) else s.(errorMessage := RegisterFailed)
  }

  /** `login`; `token` and `userId` are the server's reply. */
  function LoginStep(s: AccountState, validEmail: string -> bool, success: bool, token: string, userId: int)
    : AccountState
  {
    match LoginRejection(s, validEmail)
    case Some(n) => s.(errorMessage := n)
    case None =>
      if success then
        s.(authToken := Some(token), currentUserId := Some(userId), prefs := Prefs(Some(token), Some(userId)),
           isLoggedIn := true, errorMessage := LoggedIn)
      else s.(errorMessage := LoginFailed)
  }

  function UpdateProfileStep(s: AccountState, validEmail: string -> bool, success: bool): AccountState
  {
    match ProfileRejection(s, validEmail)
    case Some(n) => s.(errorMessage := n)
    case None =>
      if s.currentUserId.None? then s.(errorMessage := NotLoggedIn)
      else if success then s.(errorMessage := ProfileUpdated)
      else s.(errorMessage := ProfileUpdateFailed)
  }

  function ChangePasswordStep(s: AccountState, success: bool): AccountState
  {
    match ChangePasswordRejection(s)
    case Some(n) => s.(errorMessage := n)
    case None =>
      if s.currentUserId.None? then s.(errorMessage := NotLoggedIn)
      else if success then
        s.(errorMessage := PasswordChanged, form := s.form.(password := "", newPassword := "", confirmPassword := ""))
      else s.(errorMessage := PasswordChangeFailed)
  }

  function LogoutStep(s: AccountState): AccountState
  {
    s.(prefs := Prefs(None, None), isLoggedIn := false, avatarUri := None, authToken := None, currentUserId := None,
       form := s.form.(email := "", password := "", name := "", stuId := "", grade := "", birth := "", school := ""))
  }

  /** `checkAndValidateToken`: a stored token and a stored id other than -1
      log the user straight in. */
  function RestoreSessionStep(s: AccountState): AccountState
  {
    if s.prefs.authToken.Some? && StoredUserId(s.prefs) != -1 then
      s.(authToken := s.prefs.authToken, currentUserId := Some(StoredUserId(s.prefs)), isLoggedIn := true)
    else s
  }

  /** Only the message changes when a check fails. */
  predicate OnlyMessageChanged(s: AccountState, t: AccountState, n: AccountNotice)
  {
    t == s.(errorMessage := n)
  }

  /** A failed check makes no call: the form keeps every field, the session is
      untouched, and the message is that of the first failing check. */
  lemma FailedChecksMakeNoCall(s: AccountState, validEmail: string -> bool, success: bool, token: string, userId: int)
    ensures RegisterRejection(s).Some? ==>
      OnlyMessageChanged(s, RegisterStep(s, success), RegisterRejection(s).value)
    ensures LoginRejection(s, validEmail).Some? ==>
      OnlyMessageChanged(s, LoginStep(s, validEmail, success, token, userId), LoginRejection(s, validEmail).value)
    ensures ProfileRejection(s, validEmail).Some? ==>
      OnlyMessageChanged(s, UpdateProfileStep(s, validEmail, success), ProfileRejection(s, validEmail).value)
    ensures ChangePasswordRejection(s).Some? ==>
      OnlyMessageChanged(s, ChangePasswordStep(s, success), ChangePasswordRejection(s).value)
  {
  }

  /** A successful password change leaves no password text in the form. */
  lemma PasswordChangeClearsForm(s: AccountState)
    requires ChangePasswordRejection(s).None? && s.currentUserId.Some?
    ensures var t := ChangePasswordStep(s, true);
      t.form.password == "" && t.form.newPassword == "" && t.form.confirmPassword == "" && t.errorMessage == PasswordChanged &&
      t.(form := t.form.(password := s.form.password, newPassword := s.form.newPassword,
                           confirmPassword := s.form.confirmPassword),
         errorMessage := s.errorMessage) == s
  {
  }

  /** After `logout` nothing identifies the user: no session, no stored
      credentials, empty profile fields; and a later start-up does not log
      anyone back in. */
  lemma LogoutForgetsUser(s: AccountState)
    ensures var t := LogoutStep(s);
      !t.isLoggedIn && t.authToken.None? && t.currentUserId.None? && t.avatarUri.None? &&
      t.form.email == "" && t.form.password == "" && t.form.name == "" && t.form.stuId == "" && t.form.grade == "" && t.form.birth == "" &&
      t.form.school == "" && RestoreSessionStep(t) == t
  {
  }

  /** A successful login is remembered: a start-up from what it stored logs
      the same user in with the same token. */
  lemma LoginThenRestart(s: AccountState, validEmail: string -> bool, token: string, userId: int)
    requires LoginRejection(s, validEmail).None? && userId != -1
    ensures var t := LoginStep(s, validEmail, true, token, userId);
      var u := RestoreSessionStep(s.(prefs := t.prefs, isLoggedIn := false, authToken := None, currentUserId := None));
      u.isLoggedIn && u.authToken == Some(token) && u.currentUserId == Some(userId)
  {
  }

  /** Start-up logs in exactly when a token is stored and the stored id is
      not -1. */
  lemma RestoreSessionCondition(s: AccountState)
    requires !s.isLoggedIn
    ensures RestoreSessionStep(s).isLoggedIn <==> s.prefs.authToken.Some? && StoredUserId(s.prefs) != -1
  {
  }

  class UserViewModel {
    /** The form fields, each a separate observable state in the screen. */
    var form: AccountForm
    var avatarUri: Option<string>
    var errorMessage: AccountNotice
    var isLoggedIn: bool
    var currentUserId: Option<int>
    var authToken: Option<string>
    var prefs: Prefs

    function State(): AccountState
      reads this
    {
      AccountState(form, avatarUri, errorMessage, isLoggedIn, currentUserId, authToken, prefs)
    }

    /** A fresh view model over the stored preferences; its initialiser runs
        `checkAndValidateToken`. */
    constructor (stored: Prefs)
      ensures State() == RestoreSessionStep(AccountState(AccountForm("", "", "", "", "", "", "", "", "", ""), None,
                                                         NoMessage, false, None, None, stored))
    {
      form := AccountForm("", "", "", "", "", "", "", "", "", "");
      avatarUri := None;
      errorMessage := NoMessage;
      isLoggedIn := false;
      currentUserId := None;
      authToken := None;
      prefs := stored;
      new;
      CheckAndValidateToken();
    }

    method CheckAndValidateToken()
      modifies this
      ensures State() == RestoreSessionStep(old(State()))
    {
      var existingToken := prefs.authToken;
      var savedUserId := StoredUserId(prefs);
      if existingToken.Some? && savedUserId != -1 {
        authToken := existingToken;
        currentUserId := Some(savedUserId);
        isLoggedIn := true;
      }
    }

    /** `verifyAndRegister`; `called` says whether the request was sent. */
    method VerifyAndRegister(success: bool) returns (called: bool)
      modifies this
      ensures called <==> RegisterRejection(old(State())).None?
      ensures State() == RegisterStep(old(State()), success)
    {
      if form.password != form.confirmPassword {
        errorMessage := PasswordMismatch;
        return false;
      }
      if !IsValidPassword(form.password) {
        errorMessage := WeakPassword;
        return false;
      }
      if IsBlank(form.code) {
        errorMessage := CodeBlank;
        return false;
      }
      if success {
        isLoggedIn := true;
        errorMessage := Registered;
      } else {
        errorMessage := RegisterFailed;
      }
      return true;
    }

    /** `login`; `token` and `userId` are the server's reply. */
    method Login(validEmail: string -> bool, success: bool, token: string, userId: int) returns (called: bool)
      modifies this
      ensures called <==> LoginRejection(old(State()), validEmail).None?
      ensures State() == LoginStep(old(State()), validEmail, success, token, userId)
    {
      if !validEmail(form.email) {
        errorMessage := InvalidEmail;
        return false;
      }
      if IsBlank(form.password) {
        errorMessage := PasswordBlank;
        return false;
      }
      if success {
        authToken := Some(token);
        currentUserId := Some(userId);
        prefs := Prefs(authToken, currentUserId);
        isLoggedIn := true;
        errorMessage := LoggedIn;
      } else {
        errorMessage := LoginFailed;
      }
      return true;
    }

    method UpdateProfile(validEmail: string -> bool, success: bool)
      modifies this
      ensures State() == UpdateProfileStep(old(State()), validEmail, success)
    {
      if IsBlank(form.name) {
        errorMessage := NameBlank;
        return;
      }
      if !validEmail(form.email) {
        errorMessage := InvalidEmail;
        return;
      }
      if IsBlank(form.stuId) {
        errorMessage := StuIdBlank;
        return;
      }
      if IsBlank(form.grade) {
        errorMessage := GradeBlank;
        return;
      }
      if IsBlank(form.birth) {
        errorMessage := BirthBlank;
        return;
      }
      if IsBlank(form.school) {
        errorMessage := SchoolBlank;
        return;
      }
      if currentUserId.None? {
        errorMessage := NotLoggedIn;
      } else if success {
        errorMessage := ProfileUpdated;
      } else {
        errorMessage := ProfileUpdateFailed;
      }
    }

    method Logout()
      modifies this
      ensures State() == LogoutStep(old(State()))
    {
      prefs := Prefs(None, None);
      isLoggedIn := false;
      avatarUri := None;
      authToken := None;
      currentUserId := None;
      form := form.(email := "", password := "", name := "", stuId := "", grade := "", birth := "", school := "");
    }

    method ChangePassword(success: bool)
      modifies this
      ensures State() == ChangePasswordStep(old(State()), success)
    {
      if !IsValidPassword(form.newPassword) {
        errorMessage := NewPasswordWeak;
        return;
      }
      if form.password == form.newPassword {
        errorMessage := NewPasswordSameAsOld;
        return;
      }
      if form.newPassword != form.confirmPassword {
        errorMessage := NewPasswordMismatch;
        return;
      }
      if currentUserId.None? {
        errorMessage := NotLoggedIn;
      } else if success {
        errorMessage := PasswordChanged;
        form := form.(password := "", newPassword := "", confirmPassword := "");
      } else {
        errorMessage := PasswordChangeFailed;
      }
    }
  }
}
