/** server/lib/api/auth.ts, the AuthAPI class: the browser client of the auth service. Its
    localStorage is a map from keys to strings owned by the object; what the server answers to a
    request is a parameter (a Reply), since the network is not modelled. */
module ClientApi {
  import opened Common
  import AuthTs

  const TokenKey := "tusome_token"
  const RefreshKey := "tusome_refresh_token"
  const UserKey := "tusome_user"

  /** The error object the client throws. */
  datatype ClientError = ClientError(code: string, message: string, field: Option<string>)

  /** The JSON body of a response whose status is not ok. */
  datatype ErrorBody = ErrorBody(code: Option<string>, message: Option<string>, field: Option<string>)

  /** What a request can come back with: no usable answer (fetch or response.json() threw), an error
      status with its body, or an ok status with its data. */
  datatype Reply<T> = Unreachable | Refused(body: ErrorBody) | Delivered(data: T)

  /** The part of an AuthResponse the client keeps. */
  datatype Session = Session(token: string, refreshToken: string)

  const NetworkError := ClientError("NETWORK_ERROR", "Unable to connect to server. Please check your internet connection.", None)

  /** How request settles a reply: the data of an ok answer; for an error status, the body's code and
      message, defaulting to "API_ERROR" and "Something went wrong" when missing or empty, and its
      field; NETWORK_ERROR when there was no answer. Every error carries a code and a message. */
  function Settle<T>(reply: Reply<T>): (r: Result<T, ClientError>)
    ensures r.Ok? <==> reply.Delivered?
    ensures r.Ok? ==> r.value == reply.data
    ensures reply.Unreachable? ==> r == Err(NetworkError)
    ensures reply.Refused? ==>
      r.error.field == reply.body.field &&
      (Truthy(reply.body.code) ==> r.error.code == reply.body.code.value) &&
      (!Truthy(reply.body.code) ==> r.error.code == "API_ERROR") &&
      (Truthy(reply.body.message) ==> r.error.message == reply.body.message.value) &&
      (!Truthy(reply.body.message) ==> r.error.message == "Something went wrong")
    ensures r.Err? ==> r.error.code != "" && r.error.message != ""
  {
    match reply
    case Unreachable => Err(NetworkError)
    case Refused(body) =>
      Err(ClientError(if Truthy(body.code) then body.code.value else "API_ERROR",
                      if Truthy(body.message) then body.message.value else "Something went wrong",
                      body.field))
    case Delivered(data) => Ok(data)
  }

  /** The storage key of a stored value, or None. */
  function Stored(storage: map<string, string>, key: string): (v: Option<string>)
    ensures v.Some? <==> key in storage
    ensures v.Some? ==> v.value == storage[key]
  {
    if key in storage then Some(storage[key]) else None
  }

  class AuthApi {
    var storage: map<string, string>

    constructor (initial: map<string, string>)
      ensures storage == initial
    {
      storage := initial;
    }

    /** getToken. */
    function Token(): Option<string>
      reads this
    {
      Stored(storage, TokenKey)
    }

    /** getRefreshToken. */
    function RefreshTokenValue(): Option<string>
      reads this
    {
      Stored(storage, RefreshKey)
    }

    /** isAuthenticated: a non-empty access token is stored. */
    function IsAuthenticated(): (signedIn: bool)
      reads this
      ensures signedIn <==> TokenKey in storage && storage[TokenKey] != ""
    {
      Truthy(Token())
    }

    /** The headers request sends: JSON content, the caller's headers over it, and an Authorization
        header with the stored token exactly when one is stored. */
    function RequestHeaders(extra: map<string, string>): (h: map<string, string>)
      reads this
      ensures h.Keys == {"Content-Type"} + extra.Keys + (if IsAuthenticated() then {"Authorization"} else {})
      ensures IsAuthenticated() ==> h["Authorization"] == "Bearer " + storage[TokenKey]
      ensures forall k | k in extra && k != "Authorization" :: h[k] == extra[k]
      ensures "Content-Type" !in extra ==> h["Content-Type"] == "application/json"
    {
      var base := map["Content-Type" := "application/json"] + extra;
      if IsAuthenticated() then base["Authorization" := "Bearer " + Token().value] else base
    }

    /** setTokens: both tokens are stored and nothing else changes. */
    method SetTokens(token: string, refreshToken: string)
      modifies this
      ensures storage == old(storage)[TokenKey := token][RefreshKey := refreshToken]
      ensures Token() == Some(token) && RefreshTokenValue() == Some(refreshToken)
      ensures IsAuthenticated() <==> token != ""
    {
      storage := storage[TokenKey := token][RefreshKey := refreshToken];
    }

    /** clearTokens: the two tokens and the cached user are removed, and nothing else. */
    method ClearTokens()
      modifies this
      ensures storage == old(storage) - {TokenKey, RefreshKey, UserKey}
      ensures Token().None? && RefreshTokenValue().None? && !IsAuthenticated()
    {
      storage := storage - {TokenKey, RefreshKey, UserKey};
    }

    /** What register and login share: settle the reply and, on success, store its tokens. A failed
        request leaves the storage as it was. */
    method Authorize(reply: Reply<Session>) returns (r: Result<Session, ClientError>)
      modifies this
      ensures r == Settle(reply)
      ensures r.Ok? ==> storage == old(storage)[TokenKey := r.value.token][RefreshKey := r.value.refreshToken]
      ensures r.Err? ==> storage == old(storage)
    {
      r := Settle(reply);
      if r.Ok? {
        SetTokens(r.value.token, r.value.refreshToken);
      }
    }

    /** register: POST /auth/register, then the tokens of the answer are stored. */
    method Register(reply: Reply<Session>) returns (r: Result<Session, ClientError>)
      modifies this
      ensures r == Settle(reply)
      ensures r.Ok? ==> storage == old(storage)[TokenKey := r.value.token][RefreshKey := r.value.refreshToken]
      ensures r.Err? ==> storage == old(storage)
    {
      r := Authorize(reply);
    }

    /** login: POST /auth/login, then the tokens of the answer are stored. */
    method Login(reply: Reply<Session>) returns (r: Result<Session, ClientError>)
      modifies this
      ensures r == Settle(reply)
      ensures r.Ok? ==> storage == old(storage)[TokenKey := r.value.token][RefreshKey := r.value.refreshToken]
      ensures r.Err? ==> storage == old(storage)
    {
      r := Authorize(reply);
    }

    /** refreshToken: without a stored refresh token it fails with NO_REFRESH_TOKEN and sends nothing
        (the reply is never looked at); otherwise it is login against /auth/refresh. */
    method RefreshToken(reply: Reply<Session>) returns (r: Result<Session, ClientError>)
      modifies this
      ensures !Truthy(old(RefreshTokenValue())) ==>
        r == Err(ClientError("NO_REFRESH_TOKEN", "No refresh token available", None)) && storage == old(storage)
      ensures Truthy(old(RefreshTokenValue())) ==> r == Settle(reply)
      ensures r.Ok? ==> storage == old(storage)[TokenKey := r.value.token][RefreshKey := r.value.refreshToken]
      ensures r.Err? ==> storage == old(storage)
    {
      if !Truthy(RefreshTokenValue()) {
        return Err(ClientError("NO_REFRESH_TOKEN", "No refresh token available", None));
      }
      r := Authorize(reply);
    }

    /** logout: whatever the server answers, the tokens and the cached user are removed. */
    method Logout(reply: Reply<()>)
      modifies this
      ensures storage == old(storage) - {TokenKey, RefreshKey, UserKey}
      ensures !IsAuthenticated()
    {
      var _ := Settle(reply);
      ClearTokens();
    }
  }

  /** The Authorization header the client builds carries the stored token in the form the server's
      Bearer extraction takes apart. */
  lemma HeaderCarriesToken(api: AuthApi, extra: map<string, string>)
    requires api.IsAuthenticated()
    ensures AuthTs.ExtractBearer(Some(api.RequestHeaders(extra)["Authorization"])) == api.Token()
  {
    AuthTs.BearerRoundTrip(api.storage[TokenKey]);
  }

  /** Signing in and then out leaves the storage as it was apart from the three keys. */
  method SignInThenOut(api: AuthApi, reply: Reply<Session>, farewell: Reply<()>)
    modifies api
    ensures api.storage == old(api.storage) - {TokenKey, RefreshKey, UserKey}
    ensures !api.IsAuthenticated()
  {
    var _ := api.Login(reply);
    api.Logout(farewell);
  }
}
