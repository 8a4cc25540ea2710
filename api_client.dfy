/** `lib/api.ts`: the axios instance's interceptors and `saveFile`.

    The browser's `localStorage` and `window.location` are the fields of a `Browser`; the HTTP
    transport is left out, and a request's outcome is what the caller passes in. */
module ApiClient {
  import opened Common
  import opened UiTypes
  import opened Records
  import FilesApi

  const TokenKey := "token"
  const UserKey := "user"
  const LoginPage := "/login"
  const AuthorizationHeader := "Authorization"

  /** `localStorage` and the current location. */
  class Browser {
    var storage: map<string, string>
    var location: string

    constructor (storage: map<string, string>, location: string)
      ensures this.storage == storage && this.location == location
    {
      this.storage := storage;
      this.location := location;
    }

    /** `localStorage.getItem(key)`: `null` when the key is not stored. */
    function GetItem(key: string): (r: Option<string>)
      reads this
      ensures r.Some? <==> key in storage
      ensures r.Some? ==> r.value == storage[key]
    {
      if key in storage then Some(storage[key]) else None
    }

    method SetItem(key: string, value: string)
      modifies this`storage
      ensures storage == old(storage)[key := value]
    {
      storage := storage[key := value];
    }

    method RemoveItem(key: string)
      modifies this`storage
      ensures storage == old(storage) - {key}
    {
      storage := storage - {key};
    }

    method Navigate(path: string)
      modifies this`location
      ensures location == path
    {
      location := path;
    }
  }

  /** An outgoing request's config; the interceptor adds a header to it in place. */
  class RequestConfig {
    const url: string
    var headers: map<string, string>

    constructor (url: string, headers: map<string, string>)
      ensures this.url == url && this.headers == headers
    {
      this.url := url;
      this.headers := headers;
    }
  }

  /** The headers after the request interceptor: `Authorization: Bearer <token>` when a
      non-empty token is stored; every other header as it was. */
  function WithBearer(headers: map<string, string>, token: Option<string>): (r: map<string, string>)
    ensures Truthy(token) ==> AuthorizationHeader in r && r[AuthorizationHeader] == "Bearer " + token.value
    ensures !Truthy(token) ==> r == headers
    ensures forall h :: h != AuthorizationHeader ==> (h in r <==> h in headers)
    ensures forall h :: h != AuthorizationHeader && h in headers ==> r[h] == headers[h]
  {
    if Truthy(token) then headers[AuthorizationHeader := "Bearer " + token.value] else headers
  }

  /** Running the interceptor twice gives the same headers as running it once. */
  lemma WithBearerIdempotent(headers: map<string, string>, token: Option<string>)
    ensures WithBearer(WithBearer(headers, token), token) == WithBearer(headers, token)
  {
  }

  /** The request interceptor: reads the stored token and returns the same config. */
  method InterceptRequest(browser: Browser, config: RequestConfig) returns (c: RequestConfig)
    modifies config`headers
    ensures c == config
    ensures config.headers == WithBearer(old(config.headers), browser.GetItem(TokenKey))
  {
    var token := browser.GetItem(TokenKey);
    if token.Some? && token.value != "" {
      config.headers := config.headers[AuthorizationHeader := "Bearer " + token.value];
    }
    c := config;
  }

  /** A failed request: the config's URL and, when a response arrived, its status. */
  datatype HttpError = HttpError(url: string, status: Option<int>)

  /** The error handler logs the user out on a 401 from anything but the login call (a wrong
      password at login is an ordinary error). */
  predicate ForcesLogout(err: HttpError) {
    err.status == Some(401) && !Contains(err.url, "/auth/login")
  }

  /** A rejected login attempt never logs the user out, whatever surrounds `/auth/login` in
      the request's url (a base path, a query string). */
  lemma LoginFailureKeepsSession(err: HttpError, before: string, after: string)
    requires err.url == before + "/auth/login" + after
    ensures !ForcesLogout(err)
  {
    assert err.url[|before|..|before| + |"/auth/login"|] == "/auth/login";
    assert OccursAt(err.url, "/auth/login", |before|);
  }

  /** The response interceptor's error path: on a forced logout the token and the user are
      removed and the page moves to `/login`; otherwise nothing changes. The error is
      rejected again in both cases. */
  method InterceptError(browser: Browser, err: HttpError) returns (rejected: HttpError)
    modifies browser
    ensures rejected == err
    ensures ForcesLogout(err) ==>
      browser.storage == old(browser.storage) - {TokenKey, UserKey} && browser.location == LoginPage
    ensures !ForcesLogout(err) ==>
      browser.storage == old(browser.storage) && browser.location == old(browser.location)
  {
    if err.status == Some(401) && !Contains(err.url, "/auth/login") {
      browser.RemoveItem(TokenKey);
      browser.RemoveItem(UserKey);
      browser.Navigate(LoginPage);
    }
    rejected := err;
  }

  /** The argument of `saveFile`; the two ids are optional properties. */
  datatype SaveFileData = SaveFileData(filename: string, fileUrl: string, fileSize: int,
                                       publicMessageId: Option<int>, privateChatId: Option<int>)

  const FilesPath := "/files/"

  /** The JSON body `saveFile` posts to `/files/`: an unset optional property is left out of
      the JSON (`JSON.stringify` drops `undefined`), so the server sees a missing key. */
  function SaveFileBody(data: SaveFileData): (r: FilesApi.FileRequest)
    ensures r.filename == Given(data.filename) && r.fileUrl == Given(data.fileUrl)
    ensures r.fileSize == Given(data.fileSize)
    ensures r.publicMessageId.Given? <==> data.publicMessageId.Some?
    ensures r.privateChatId.Given? <==> data.privateChatId.Some?
    ensures !r.publicMessageId.Null? && !r.privateChatId.Null?
    ensures data.publicMessageId.Some? ==> r.publicMessageId.value == data.publicMessageId.value
    ensures data.privateChatId.Some? ==> r.privateChatId.value == data.privateChatId.value
  {
    FilesApi.FileRequest(Given(data.filename), Given(data.fileUrl), Given(data.fileSize),
                         if data.publicMessageId.Some? then Given(data.publicMessageId.value) else Absent,
                         if data.privateChatId.Some? then Given(data.privateChatId.value) else Absent)
  }

  /** What `saveFile` sends always carries the three required keys, and it passes the
      server's association check exactly when one of the two ids is set. */
  lemma SaveFileMeetsServerChecks(data: SaveFileData)
    ensures FilesApi.HasRequiredFields(SaveFileBody(data))
    ensures FilesApi.OneAssociation(SaveFileBody(data)) <==>
      (data.publicMessageId.Some? != data.privateChatId.Some?)
    ensures FilesApi.SizeAccepted(SaveFileBody(data)) <==> data.fileSize <= FilesApi.MaxFileSize
  {
  }
}
