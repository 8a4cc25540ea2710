/** `components/AuthForm.tsx`: the login and registration form. The validation chain is a
    function returning the first error message; `handleSubmit` is split at its request into
    `BeginSubmit` (validation, clearing the error, raising the loading flag) and
    `FinishSubmit` (storing the session or showing the error). The HTTP round trip and
    `JSON.stringify` of the returned user are parameters. Blank tests use the whitespace of
    JavaScript's `trim()`. */
module AuthForm {
  import opened Common
  import opened UiTypes
  import ApiClient
  import AuthApi
  import Records

  datatype Mode = Login | Register

  /** `formData`. */
  datatype FormData = FormData(username: string, email: string, password: string, confirmPassword: string)

  const EmptyForm := FormData("", "", "", "")

  const UsernameRequired := "Username is required"
  const EmailRequired := "Email is required"
  const InvalidEmail := "Please enter a valid email address"
  const PasswordTooShort := "Password must be at least 6 characters long"
  const PasswordsDiffer := "Passwords do not match"
  const UsernameTooShort := "Username must be at least 4 characters long"
  const GenericError := "An error occurred"
  const ChatPage := "/chat"

  /** The validation messages are pairwise different, so the message names the check that
      failed. */
  lemma MessagesDistinct()
    ensures UsernameRequired != EmailRequired && UsernameRequired != InvalidEmail
    ensures UsernameRequired != PasswordTooShort && UsernameRequired != PasswordsDiffer
    ensures UsernameRequired != UsernameTooShort
    ensures EmailRequired != InvalidEmail && EmailRequired != PasswordTooShort
    ensures EmailRequired != PasswordsDiffer && EmailRequired != UsernameTooShort
    ensures InvalidEmail != PasswordTooShort && InvalidEmail != PasswordsDiffer
    ensures InvalidEmail != UsernameTooShort
    ensures PasswordTooShort != PasswordsDiffer && PasswordTooShort != UsernameTooShort
    ensures PasswordsDiffer != UsernameTooShort
  {
    assert |UsernameRequired| == 20 && |EmailRequired| == 17 && |InvalidEmail| == 34;
    assert |PasswordTooShort| == 43 && |PasswordsDiffer| == 22 && |UsernameTooShort| == 43;
    assert PasswordTooShort[0] != UsernameTooShort[0];
  }

  const MinPasswordLength := 6
  const MinUsernameLength := 4

  /** A run of `[^\s@]+`: non-empty, with no whitespace and no `@`. */
  predicate Plain(s: string) {
    s != "" && forall k :: 0 <= k < |s| ==> !IsSpace(s[k], JavaScript) && s[k] != '@'
  }

  /** `/^[^\s@]+@[^\s@]+\.[^\s@]+$/.test(s)`: the string splits as local part, `@`, domain
      label, `.`, rest, each part a non-empty run without whitespace or `@`. */
  predicate MatchesEmailPattern(s: string) {
    exists i, j | 0 < i < j < |s| - 1 ::
      s[i] == '@' && s[j] == '.' && Plain(s[..i]) && Plain(s[i + 1..j]) && Plain(s[j + 1..])
  }

  /** The pattern in plain words: no whitespace, exactly one `@`, which is not the first
      character, and a `.` in the part after the `@` that is neither its first nor its last
      character. */
  predicate EmailShape(s: string) {
    && (forall k :: 0 <= k < |s| ==> !IsSpace(s[k], JavaScript))
    && exists i | 0 < i < |s| ::
         && s[i] == '@'
         && (forall k :: 0 <= k < |s| && k != i ==> s[k] != '@')
         && exists j | i + 1 < j < |s| - 1 :: s[j] == '.'
  }

  lemma EmailPatternCharacterisation(s: string)
    ensures MatchesEmailPattern(s) <==> EmailShape(s)
  {
    if MatchesEmailPattern(s) {
      var i, j :| && 0 < i < j < |s| - 1 && s[i] == '@' && s[j] == '.'
                  && Plain(s[..i]) && Plain(s[i + 1..j]) && Plain(s[j + 1..]);
      SplitHasShape(s, i, j);
    }
    if EmailShape(s) {
      var i :| && 0 < i < |s| && s[i] == '@'
               && (forall k :: 0 <= k < |s| && k != i ==> s[k] != '@')
               && exists j | i + 1 < j < |s| - 1 :: s[j] == '.';
      var j :| i + 1 < j < |s| - 1 && s[j] == '.';
      ShapeHasSplit(s, i, j);
    }
  }

  /** A split the pattern matches has the shape. */
  lemma SplitHasShape(s: string, i: int, j: int)
    requires 0 < i < j < |s| - 1 && s[i] == '@' && s[j] == '.'
    requires Plain(s[..i]) && Plain(s[i + 1..j]) && Plain(s[j + 1..])
    ensures EmailShape(s)
  {
    var local, middle, tail := s[..i], s[i + 1..j], s[j + 1..];
    forall k | 0 <= k < |s| ensures !IsSpace(s[k], JavaScript) && (k != i ==> s[k] != '@') {
      if k < i {
        assert local[k] == s[k];
      } else if i < k < j {
        assert middle[k - i - 1] == s[k];
      } else if j < k {
        assert tail[k - j - 1] == s[k];
      }
    }
    assert i + 1 < j < |s| - 1 && s[j] == '.';
  }

  /** A string of that shape splits at its `@` and at the chosen `.`. */
  lemma ShapeHasSplit(s: string, i: int, j: int)
    requires (forall k :: 0 <= k < |s| ==> !IsSpace(s[k], JavaScript))
    requires 0 < i && i + 1 < j < |s| - 1 && s[i] == '@' && s[j] == '.'
    requires forall k :: 0 <= k < |s| && k != i ==> s[k] != '@'
    ensures MatchesEmailPattern(s)
  {
    var local, middle, tail := s[..i], s[i + 1..j], s[j + 1..];
    assert Plain(local) by {
      forall k | 0 <= k < |local| ensures local[k] == s[k] { }
    }
    assert Plain(middle) by {
      forall k | 0 <= k < |middle| ensures middle[k] == s[i + 1 + k] { }
    }
    assert Plain(tail) by {
      forall k | 0 <= k < |tail| ensures tail[k] == s[j + 1 + k] { }
    }
  }

  /** One address the pattern accepts and one it rejects. */
  lemma EmailExamples()
    ensures MatchesEmailPattern("bob@mail.io")
    ensures !MatchesEmailPattern("bob@mail")
  {
    var s := "bob@mail.io";
    assert s[..3] == "bob" && s[4..8] == "mail" && s[9..] == "io";
    assert 0 < 3 < 8 < |s| - 1 && s[3] == '@' && s[8] == '.';
    assert Plain(s[..3]) && Plain(s[4..8]) && Plain(s[9..]);
    EmailPatternCharacterisation("bob@mail");
  }

  /** The validation chain of `handleSubmit`, as written: the first failing check's message,
      `None` when the form is accepted. Register checks the trimmed username and email, the
      email pattern, the password length and the confirmation; login checks the trimmed
      username, the untrimmed username length and the password length. */
  function Validate(mode: Mode, f: FormData): (r: Option<string>)
    ensures mode == Register ==>
      && (r == Some(UsernameRequired) <==> IsBlank(f.username, JavaScript))
      && (r == Some(EmailRequired) <==> !IsBlank(f.username, JavaScript) && IsBlank(f.email, JavaScript))
      && (r == Some(InvalidEmail) <==>
            !IsBlank(f.username, JavaScript) && !IsBlank(f.email, JavaScript) && !MatchesEmailPattern(f.email))
      && (r == Some(PasswordTooShort) <==>
            !IsBlank(f.username, JavaScript) && !IsBlank(f.email, JavaScript) && MatchesEmailPattern(f.email)
            && |f.password| < MinPasswordLength)
      && (r == Some(PasswordsDiffer) <==>
            !IsBlank(f.username, JavaScript) && !IsBlank(f.email, JavaScript) && MatchesEmailPattern(f.email)
            && |f.password| >= MinPasswordLength && f.password != f.confirmPassword)
      && (r.None? <==>
            !IsBlank(f.username, JavaScript) && !IsBlank(f.email, JavaScript) && MatchesEmailPattern(f.email)
            && |f.password| >= MinPasswordLength && f.password == f.confirmPassword)
      && r != Some(UsernameTooShort)
    ensures mode == Login ==>
      && (r == Some(UsernameRequired) <==> IsBlank(f.username, JavaScript))
      && (r == Some(UsernameTooShort) <==> !IsBlank(f.username, JavaScript) && |f.username| < MinUsernameLength)
      && (r == Some(PasswordTooShort) <==>
            !IsBlank(f.username, JavaScript) && |f.username| >= MinUsernameLength && |f.password| < MinPasswordLength)
      && (r.None? <==>
            !IsBlank(f.username, JavaScript) && |f.username| >= MinUsernameLength && |f.password| >= MinPasswordLength)
  {
    MessagesDistinct();
    match mode
    case Register =>
      if IsBlank(f.username, JavaScript) then Some(UsernameRequired)
      else if IsBlank(f.email, JavaScript) then Some(EmailRequired)
      else if !MatchesEmailPattern(f.email) then Some(InvalidEmail)
      else if |f.password| < MinPasswordLength then Some(PasswordTooShort)
      else if f.password != f.confirmPassword then Some(PasswordsDiffer)
      else None
    case Login =>
      if IsBlank(f.username, JavaScript) then Some(UsernameRequired)
      else if |f.username| < MinUsernameLength then Some(UsernameTooShort)
      else if |f.password| < MinPasswordLength then Some(PasswordTooShort)
      else None
  }

  /** A registration form whose username has three letters. */
  const ShortNameForm := FormData("bob", "bob@mail.io", "secret", "secret")

  /** A string starting with a non-space character is not blank. */
  lemma NotBlank(s: string)
    requires s != "" && !IsSpace(s[0], JavaScript)
    ensures !IsBlank(s, JavaScript)
  {
    BlankIffAllSpace(s, JavaScript);
  }

  /** As written, registration accepts a three-letter username that the login form then
      refuses, so the account can only ever sign in through the registration's own login. */
  lemma ShortUsernameLockedOut()
    ensures Validate(Register, ShortNameForm).None?
    ensures Validate(Login, ShortNameForm) == Some(UsernameTooShort)
  {
    var f := ShortNameForm;
    EmailExamples();
    NotBlank(f.username);
    NotBlank(f.email);
  }

  /** The chain with the login's username-length check also applied at registration, right
      after the required-username check; login is unchanged. */
  function ValidateIntended(mode: Mode, f: FormData): (r: Option<string>)
    ensures mode == Login ==> r == Validate(Login, f)
    ensures mode == Register ==>
      && (r == Some(UsernameTooShort) <==> !IsBlank(f.username, JavaScript) && |f.username| < MinUsernameLength)
      && (!IsBlank(f.username, JavaScript) && |f.username| >= MinUsernameLength ==> r == Validate(Register, f))
      && (IsBlank(f.username, JavaScript) ==> r == Some(UsernameRequired))
  {
    MessagesDistinct();
    match mode
    case Register =>
      if IsBlank(f.username, JavaScript) then Some(UsernameRequired)
      else if |f.username| < MinUsernameLength then Some(UsernameTooShort)
      else Validate(Register, f)
    case Login => Validate(Login, f)
  }

  /** With the intended chain, whatever the registration form accepts the login form accepts
      too, so a registered account can always sign in again. */
  lemma RegisteredCanLogIn(f: FormData)
    ensures ValidateIntended(Register, f).None? ==> ValidateIntended(Login, f).None?
  {
  }

  /** The body of `POST /auth/register`: the three fields as typed, no `avatar_url`. */
  function RegisterBody(f: FormData): (req: AuthApi.RegisterRequest)
    ensures req.username == Some(f.username) && req.email == Some(f.email)
    ensures req.password == Some(f.password) && req.avatarUrl.None?
  {
    AuthApi.RegisterRequest(Some(f.username), Some(f.email), Some(f.password), None)
  }

  /** The body of `POST /auth/login`, sent by both modes. */
  function LoginBody(f: FormData): (req: AuthApi.LoginRequest)
    ensures req.username == Records.Given(f.username) && req.password == Some(f.password)
  {
    AuthApi.LoginRequest(Records.Given(f.username), Some(f.password))
  }

  /** The form always sends every key the server reads, so its requests never reach the
      server's missing-key failure: registration is accepted or refused as a duplicate, and
      login answers 200 or 401. */
  lemma RequestsCarryEveryKey(users: seq<Records.User>, f: FormData, hash: string -> string)
    ensures AuthApi.RegisterCheck(users, RegisterBody(f)) != Some(Records.Crash)
    ensures AuthApi.Login(users, LoginBody(f), hash).status in {200, 401}
  {
    assert Records.Crash != AuthApi.UsernameExists && Records.Crash != AuthApi.EmailExists;
  }

  /** The inputs of the form, by their `name` attribute. */
  datatype Field = UsernameField | EmailField | PasswordField | ConfirmPasswordField

  function FieldOf(f: FormData, field: Field): string {
    match field
    case UsernameField => f.username
    case EmailField => f.email
    case PasswordField => f.password
    case ConfirmPasswordField => f.confirmPassword
  }

  /** `{ ...prev, [e.target.name]: e.target.value }`: the named field takes the value and
      every other field keeps its own. */
  function WithField(f: FormData, field: Field, value: string): (r: FormData)
    ensures FieldOf(r, field) == value
    ensures forall g :: g != field ==> FieldOf(r, g) == FieldOf(f, g)
  {
    match field
    case UsernameField => f.(username := value)
    case EmailField => f.(email := value)
    case PasswordField => f.(password := value)
    case ConfirmPasswordField => f.(confirmPassword := value)
  }

  /** Typing the same value twice is the same as typing it once. */
  lemma {:induction false} WithFieldIdempotent(f: FormData, field: Field, value: string)
    ensures WithField(WithField(f, field, value), field, value) == WithField(f, field, value)
  {
    var once := WithField(f, field, value);
    var twice := WithField(once, field, value);
    assert forall g :: FieldOf(twice, g) == FieldOf(once, g);
    assert FieldOf(twice, UsernameField) == FieldOf(once, UsernameField);
    assert FieldOf(twice, EmailField) == FieldOf(once, EmailField);
    assert FieldOf(twice, PasswordField) == FieldOf(once, PasswordField);
    assert FieldOf(twice, ConfirmPasswordField) == FieldOf(once, ConfirmPasswordField);
  }

  /** How the request part of a submit ended: with the token and the stringified user of a
      successful login, or with the server's `message` if the error reply had one. */
  datatype SubmitOutcome = Succeeded(accessToken: string, userJson: string) | Failed(message: Option<string>)

  /** The form's state. */
  class AuthFormState {
    const mode: Mode
    var form: FormData
    var isLoading: bool
    var error: string

    constructor (mode: Mode)
      ensures this.mode == mode && form == EmptyForm && !isLoading && error == ""
    {
      this.mode := mode;
      form := EmptyForm;
      isLoading := false;
      error := "";
    }

    /** `handleChange`. */
    method HandleChange(field: Field, value: string)
      modifies this`form
      ensures form == WithField(old(form), field, value)
    {
      form := WithField(form, field, value);
    }

    /** The part of `handleSubmit` before the request: the error is cleared, then the first
        failing check sets it and nothing else happens; a form that passes raises the loading
        flag and the request goes out (`proceed`). The checks are those of `Validate`, as
        the program has them: a short username passes on registration. */
    method BeginSubmit() returns (proceed: bool)
      modifies this`error, this`isLoading
      ensures proceed <==> Validate(mode, form).None?
      ensures !proceed ==> error == Validate(mode, form).value && isLoading == old(isLoading)
      ensures proceed ==> error == "" && isLoading
    {
      error := "";
      var problem := Validate(mode, form);
      if problem.Some? {
        error := problem.value;
        return false;
      }
      isLoading := true;
      proceed := true;
    }

    /** The part after the request: a successful login stores the token and the user and goes
        to `/chat`; a failure shows the server's message, or a generic one; either way the
        loading flag comes down. */
    method FinishSubmit(browser: ApiClient.Browser, outcome: SubmitOutcome)
      modifies this`error, this`isLoading, browser`storage, browser`location
      ensures !isLoading
      ensures outcome.Succeeded? ==>
        && browser.storage == old(browser.storage)[ApiClient.TokenKey := outcome.accessToken]
                                                  [ApiClient.UserKey := outcome.userJson]
        && browser.location == ChatPage && error == old(error)
      ensures outcome.Failed? ==>
        && browser.storage == old(browser.storage) && browser.location == old(browser.location)
        && error == (if Truthy(outcome.message) then outcome.message.value else GenericError)
    {
      match outcome {
        case Succeeded(token, userJson) =>
          browser.SetItem(ApiClient.TokenKey, token);
          browser.SetItem(ApiClient.UserKey, userJson);
          browser.Navigate(ChatPage);
        case Failed(message) =>
          error := if message.Some? && message.value != "" then message.value else GenericError;
      }
      isLoading := false;
    }
  }
}
