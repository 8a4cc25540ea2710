/** `app/settings/page.tsx`: the profile and password settings. `getAuthUser` and
    `changePassword` are foreign calls: the loaded user and the outcome of a password change
    are parameters. */
module SettingsPage {
  import opened Common
  import opened UiTypes
  import opened Avatar
  import ApiClient
  import SocketClient
  import ChatSidebar
  import AuthForm

  /** `getInitials`: `split(' ').map(n => n[0]).join('').toUpperCase().slice(0, 2)`. It
      gives what the `Avatar` component shows for the same name: at most two upper-case
      letters, none for an empty name. */
  function GetInitials(username: string): (r: string)
    ensures r == Initials(username)
    ensures |r| <= 2
    ensures username == "" ==> r == ""
  {
    JoinedInitialsAgree(username);
    InitialsShape(username);
    EmptyNameNoInitials();
    Take(ToUpper(Concat(Map(Split(username, ' '), FirstChar))), 2)
  }

  /** The user `getAuthUser` returns, as far as the page reads it; `None` is a missing or
      `null` property. */
  datatype AuthUser = AuthUser(avatarUrl: Option<string>, avatar: Option<string>,
                               username: Option<string>, email: Option<string>)

  /** `profile`. */
  datatype Profile = Profile(avatar: string, username: string, email: string)

  const EmptyProfile := Profile("", "", "")
  const DefaultAvatar := "/default-avatar.png"
  const DefaultAvatarMarker := "/default-avatar"

  /** `a || b` on optional strings that fall back to a string. */
  function Or(a: Option<string>, b: string): (r: string)
    ensures Truthy(a) ==> r == a.value
    ensures !Truthy(a) ==> r == b
  {
    if Truthy(a) then a.value else b
  }

  /** The loaded profile: the picture falls back from `avatar_url` to `avatar` to the default
      picture, so it is never empty; username and email fall back to `''`. */
  function ProfileFromUser(u: AuthUser): (p: Profile)
    ensures p.avatar != ""
    ensures Truthy(u.avatarUrl) ==> p.avatar == u.avatarUrl.value
    ensures !Truthy(u.avatarUrl) && Truthy(u.avatar) ==> p.avatar == u.avatar.value
    ensures !Truthy(u.avatarUrl) && !Truthy(u.avatar) ==> p.avatar == DefaultAvatar
    ensures p.username == Or(u.username, "") && p.email == Or(u.email, "")
  {
    Profile(Or(u.avatarUrl, Or(u.avatar, DefaultAvatar)), Or(u.username, ""), Or(u.email, ""))
  }

  /** `profile.avatar && !profile.avatar.includes('/default-avatar')`: the picture is shown,
      otherwise the initials. */
  predicate ShowsPicture(p: Profile) {
    p.avatar != "" && !Contains(p.avatar, DefaultAvatarMarker)
  }

  /** A user with no picture at all gets the default picture as avatar, and the page shows
      the initials for it rather than the default picture; a real picture is shown. */
  lemma FallbackShowsInitials(u: AuthUser)
    ensures !Truthy(u.avatarUrl) && !Truthy(u.avatar) ==> !ShowsPicture(ProfileFromUser(u))
    ensures Truthy(u.avatarUrl) && !Contains(u.avatarUrl.value, DefaultAvatarMarker) ==>
      ShowsPicture(ProfileFromUser(u))
  {
    assert DefaultAvatar[..|DefaultAvatarMarker|] == DefaultAvatarMarker;
    assert OccursAt(DefaultAvatar, DefaultAvatarMarker, 0);
  }

  /** The inputs of the profile form, by their `name` attribute. */
  datatype ProfileField = AvatarField | UsernameField | EmailField

  function ProfileFieldOf(p: Profile, field: ProfileField): string {
    match field
    case AvatarField => p.avatar
    case UsernameField => p.username
    case EmailField => p.email
  }

  /** `{ ...prev, [name]: value }`: only the named field changes. */
  function WithProfileField(p: Profile, field: ProfileField, value: string): (r: Profile)
    ensures ProfileFieldOf(r, field) == value
    ensures forall g :: g != field ==> ProfileFieldOf(r, g) == ProfileFieldOf(p, g)
  {
    match field
    case AvatarField => p.(avatar := value)
    case UsernameField => p.(username := value)
    case EmailField => p.(email := value)
  }

  /** `passwordForm`. */
  datatype PasswordForm = PasswordForm(currentPassword: string, newPassword: string, confirmPassword: string)

  const EmptyPasswordForm := PasswordForm("", "", "")

  const FillInAllFields := "Please fill in all fields"
  const NewPasswordsDiffer := "New passwords do not match"
  const NewPasswordTooShort := "Password must be at least 6 characters"
  const CurrentPasswordIncorrect := "Current password is incorrect"
  const ChangeFailed := "Failed to change password"

  /** The checks of `handleChangePassword`, in order: both passwords given, the confirmation
      matching, the new password at least six characters long. */
  function ValidatePasswordChange(f: PasswordForm): (r: Option<string>)
    ensures r == Some(FillInAllFields) <==> f.currentPassword == "" || f.newPassword == ""
    ensures r == Some(NewPasswordsDiffer) <==>
      f.currentPassword != "" && f.newPassword != "" && f.newPassword != f.confirmPassword
    ensures r == Some(NewPasswordTooShort) <==>
      && f.currentPassword != "" && f.newPassword != "" && f.newPassword == f.confirmPassword
      && |f.newPassword| < AuthForm.MinPasswordLength
    ensures r.None? <==>
      && f.currentPassword != "" && f.newPassword == f.confirmPassword
      && |f.newPassword| >= AuthForm.MinPasswordLength
  {
    if f.currentPassword == "" || f.newPassword == "" then Some(FillInAllFields)
    else if f.newPassword != f.confirmPassword then Some(NewPasswordsDiffer)
    else if |f.newPassword| < AuthForm.MinPasswordLength then Some(NewPasswordTooShort)
    else None
  }

  /** A new password the settings page accepts also passes the login form's password check,
      so a user whose name the login form accepts can sign in with it. */
  lemma NewPasswordPassesLogin(f: PasswordForm, username: string, email: string)
    requires ValidatePasswordChange(f).None?
    requires !IsBlank(username, JavaScript) && |username| >= AuthForm.MinUsernameLength
    ensures AuthForm.Validate(AuthForm.Login, AuthForm.FormData(username, email, f.newPassword, "")).None?
  {
  }

  /** The toast of a failed change: only a 401 blames the current password. */
  function ChangePasswordError(status: Option<int>): (m: string)
    ensures m == CurrentPasswordIncorrect <==> status == Some(401)
    ensures m == ChangeFailed <==> status != Some(401)
  {
    if status == Some(401) then CurrentPasswordIncorrect else ChangeFailed
  }

  /** How the `changePassword` call ended: it resolved, or it threw with the reply's status
      (`None` when there was no reply). */
  datatype ChangeOutcome = Changed | Refused(status: Option<int>)

  /** The page's state. */
  class SettingsState {
    var profile: Profile
    var loading: bool
    var passwordForm: PasswordForm
    var showPasswordModal: bool
    var changingPassword: bool

    constructor ()
      ensures profile == EmptyProfile && loading && passwordForm == EmptyPasswordForm
      ensures !showPasswordModal && !changingPassword
    {
      profile := EmptyProfile;
      loading := true;
      passwordForm := EmptyPasswordForm;
      showPasswordModal := false;
      changingPassword := false;
    }

    /** The mount effect: the loaded user becomes the profile; when loading fails the profile
        stays as it was. Either way loading ends. */
    method Load(user: Option<AuthUser>)
      modifies this`profile, this`loading
      ensures !loading
      ensures user.Some? ==> profile == ProfileFromUser(user.value)
      ensures user.None? ==> profile == old(profile)
    {
      if user.Some? {
        profile := ProfileFromUser(user.value);
      }
      loading := false;
    }

    /** `handleInputChange`. */
    method HandleInputChange(field: ProfileField, value: string)
      modifies this`profile
      ensures profile == WithProfileField(old(profile), field, value)
    {
      profile := WithProfileField(profile, field, value);
    }

    /** The part of `handleChangePassword` before the call: a failing check is reported and
        nothing else happens; otherwise the busy flag goes up and `changePassword` is called
        with the current and the new password (`request`). */
    method BeginChangePassword() returns (problem: Option<string>, request: Option<(string, string)>)
      modifies this`changingPassword
      ensures problem == ValidatePasswordChange(passwordForm)
      ensures problem.Some? ==> request.None? && changingPassword == old(changingPassword)
      ensures problem.None? ==>
        request == Some((passwordForm.currentPassword, passwordForm.newPassword)) && changingPassword
    {
      problem := ValidatePasswordChange(passwordForm);
      if problem.Some? {
        return problem, None;
      }
      changingPassword := true;
      request := Some((passwordForm.currentPassword, passwordForm.newPassword));
    }

    /** The part after the call: a success closes the modal and empties all three fields; a
        failure keeps them and reports `ChangePasswordError`. The busy flag comes down either
        way. */
    method FinishChangePassword(outcome: ChangeOutcome) returns (errorToast: Option<string>)
      modifies this`passwordForm, this`showPasswordModal, this`changingPassword
      ensures !changingPassword
      ensures outcome.Changed? ==>
        errorToast.None? && passwordForm == EmptyPasswordForm && !showPasswordModal
      ensures outcome.Refused? ==>
        && errorToast == Some(ChangePasswordError(outcome.status))
        && passwordForm == old(passwordForm) && showPasswordModal == old(showPasswordModal)
    {
      if outcome.Changed? {
        showPasswordModal := false;
        passwordForm := EmptyPasswordForm;
        errorToast := None;
      } else {
        errorToast := Some(ChangePasswordError(outcome.status));
      }
      changingPassword := false;
    }
  }

  /** `handleLogout`: the same steps as the sidebar's logout button. */
  method HandleLogout(browser: ApiClient.Browser, sockets: SocketClient.SocketManager)
    modifies browser`storage, browser`location, sockets`socket, sockets.socket
    ensures sockets.socket == null
    ensures old(sockets.socket) != null ==> !old(sockets.socket).connected
    ensures browser.storage == old(browser.storage) - {ApiClient.TokenKey, ApiClient.UserKey}
    ensures browser.location == ApiClient.LoginPage
  {
    ChatSidebar.ConfirmLogout(browser, sockets);
  }
}
