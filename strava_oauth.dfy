/**
 * StravaOAuth (src/auth/strava-oauth.ts): the token file and its two writers. An access
 * token is refreshed when it has less than an hour left, and the rotated refresh token
 * that comes back is persisted before the new access token is handed out.
 *
 * The token endpoint is a parameter `post` from the JSON body sent to the reply received;
 * the clock is the parameter `nowMs`.
 */
module OAuth {
  import opened Util
  import opened JsonModel
  import opened Storage
  import Client

  datatype Tokens = Tokens(accessToken: string, refreshToken: string, expiresAt: int)

  function TokensToJson(t: Tokens): Json {
    JObj(map[
      "access_token" := JStr(t.accessToken),
      "refresh_token" := JStr(t.refreshToken),
      "expires_at" := JNum(t.expiresAt as real)])
  }

  function TokensFromJson(j: Json): Option<Tokens> {
    var a := Field(j, "access_token");
    var r := Field(j, "refresh_token");
    var e := Field(j, "expires_at");
    if a.None? || r.None? || e.None? then None
    else
      match (AsString(a.value), AsString(r.value), AsInt(e.value))
      case (Some(access), Some(refresh), Some(expires)) => Some(Tokens(access, refresh, expires))
      case _ => None
  }

  lemma TokensRoundTrip(t: Tokens)
    ensures TokensFromJson(TokensToJson(t)) == Some(t)
  {
    var j := TokensToJson(t);
    assert Field(j, "expires_at") == Some(JNum(t.expiresAt as real));
  }

  /** The token endpoint's reply: the status, the body text, and the triple an OK body holds. */
  datatype TokenReply = TokenReply(status: int, text: string, tokens: Tokens)

  datatype AuthError =
    | TokensMissing(path: string)
    | TokensUnreadable(error: StoreError)
    | TokensMalformed(path: string)
    | RefreshRejected(status: int, text: string)
    | ExchangeRejected(status: int, text: string)
    | SaveFailed(reason: string)

  const ReauthHint := "Your refresh token may be invalid. Run `npm run auth` to re-authenticate."

  function AuthMessage(e: AuthError): (m: string)
    ensures e.TokensMissing? ==> StartsWith(m, "Tokens file not found at " + e.path)
    ensures e.RefreshRejected? ==>
      StartsWith(m, "Failed to refresh Strava access token (" + IntToString(e.status) + "): ") && EndsWith(m, ReauthHint)
    ensures e.ExchangeRejected? ==>
      StartsWith(m, "Failed to exchange authorization code (" + IntToString(e.status) + "): ")
  {
    match e
    case TokensMissing(p) =>
      "Tokens file not found at " + p + ". "
        + "You need to complete the OAuth flow first. Run `npm run auth` to authenticate with Strava."
    case TokensUnreadable(err) => ErrorMessage(err)
    case TokensMalformed(p) => "Malformed tokens file " + p
    case RefreshRejected(status, text) =>
      "Failed to refresh Strava access token (" + IntToString(status) + "): " + text + ". " + ReauthHint
    case ExchangeRejected(status, text) =>
      "Failed to exchange authorization code (" + IntToString(status) + "): " + text
    case SaveFailed(reason) => reason
  }

  /** The refresh decision: `expires_at - Date.now() / 1000 < 3600`. */
  predicate NeedsRefresh(expiresAt: int, nowMs: int) {
    expiresAt as real - nowMs as real / 1000.0 < 3600.0
  }

  /** In whole milliseconds: refresh exactly when less than 3 600 000 ms remain. */
  lemma NeedsRefreshInMs(expiresAt: int, nowMs: int)
    ensures NeedsRefresh(expiresAt, nowMs) <==> expiresAt * 1000 - nowMs < 3600000
  {
    assert (expiresAt as real - nowMs as real / 1000.0) * 1000.0 == (expiresAt * 1000 - nowMs) as real;
  }

  lemma OneHourLeftNotRefreshed(expiresAt: int)
    ensures !NeedsRefresh(expiresAt, (expiresAt - 3600) * 1000)
    ensures NeedsRefresh(expiresAt, (expiresAt - 3600) * 1000 + 1)
  {
    NeedsRefreshInMs(expiresAt, (expiresAt - 3600) * 1000);
    NeedsRefreshInMs(expiresAt, (expiresAt - 3600) * 1000 + 1);
  }

  function RefreshBody(clientId: string, clientSecret: string, refreshToken: string): Json {
    JObj(map[
      "client_id" := JStr(clientId),
      "client_secret" := JStr(clientSecret),
      "grant_type" := JStr("refresh_token"),
      "refresh_token" := JStr(refreshToken)])
  }

  function ExchangeBody(clientId: string, clientSecret: string, code: string): Json {
    JObj(map[
      "client_id" := JStr(clientId),
      "client_secret" := JStr(clientSecret),
      "code" := JStr(code),
      "grant_type" := JStr("authorization_code")])
  }

  /** What loadTokens finds: missing file, unreadable file, or the stored triple. */
  function TokensFrom(files: map<string, string>, fullPath: string, codec: Codec, tokensPath: string)
    : Result<Tokens, AuthError>
  {
    if fullPath !in files then Err(TokensMissing(tokensPath))
    else match ReadFrom(files, fullPath, codec)
      case Err(e) => Err(TokensUnreadable(e))
      case Ok(j) =>
        match TokensFromJson(j)
        case Some(t) => Ok(t)
        case None => Err(TokensMalformed(fullPath))
  }

  lemma TokensAfterSave(files: map<string, string>, fullPath: string, tempPath: string, codec: Codec,
                        tokensPath: string, t: Tokens)
    requires fullPath != tempPath
    requires RoundTripsOn(codec, TokensToJson(t))
    ensures TokensFrom(Committed(files, fullPath, tempPath, codec.stringify(TokensToJson(t))), fullPath, codec, tokensPath) == Ok(t)
  {
    ReadAfterCommit(files, fullPath, tempPath, codec, TokensToJson(t));
    TokensRoundTrip(t);
  }

  class StravaOAuth {
    const clientId: string
    const clientSecret: string
    const tokensPath: string
    const store: FileStore

    constructor (clientId: string, clientSecret: string, tokensPath: string, store: FileStore)
      ensures this.clientId == clientId && this.clientSecret == clientSecret
      ensures this.tokensPath == tokensPath && this.store == store
    {
      this.clientId := clientId;
      this.clientSecret := clientSecret;
      this.tokensPath := tokensPath;
      this.store := store;
    }

    /** loadTokens: "Tokens file not found" when absent, otherwise the stored triple. */
    function LoadTokens(): (r: Result<Tokens, AuthError>)
      reads store
      ensures !store.Exists(tokensPath) <==> r == Err(TokensMissing(tokensPath))
      ensures r.Ok? ==> store.ReadJson(tokensPath).Ok? && TokensFromJson(store.ReadJson(tokensPath).value) == Some(r.value)
    {
      TokensFrom(store.files, store.FullPath(tokensPath), store.codec, tokensPath)
    }

    /** saveTokens: writeJson of the triple. */
    method SaveTokens(tokens: Tokens, fault: WriteFault) returns (r: Outcome<string>)
      modifies store
      ensures fault.NoFault? <==> r.Pass?
      ensures r.Fail? ==> r.error == fault.reason
      ensures r.Pass? ==> store.files == store.AfterWrite(old(store.files), tokensPath, store.codec.stringify(TokensToJson(tokens)))
      ensures r.Pass? && RoundTripsOn(store.codec, TokensToJson(tokens)) ==> LoadTokens() == Ok(tokens)
      ensures r.Fail? ==> store.files == old(store.files) - {store.TempPath(tokensPath)}
    {
      r := store.WriteJson(tokensPath, TokensToJson(tokens), fault);
      if r.Pass? && RoundTripsOn(store.codec, TokensToJson(tokens)) {
        TokensAfterSave(old(store.files), store.FullPath(tokensPath), store.TempPath(tokensPath), store.codec, tokensPath, tokens);
      }
    }

    /** refreshAccessToken: posts the refresh token; a non-OK reply is an error with its status. */
    function RefreshAccessToken(refreshToken: string, post: Json -> TokenReply): (r: Result<Tokens, AuthError>)
      ensures var reply := post(RefreshBody(clientId, clientSecret, refreshToken));
        && (Client.IsOk(reply.status) <==> r.Ok?)
        && (r.Ok? ==> r.value == reply.tokens)
        && (r.Err? ==> r.error == RefreshRejected(reply.status, reply.text))
    {
      var reply := post(RefreshBody(clientId, clientSecret, refreshToken));
      if !Client.IsOk(reply.status) then Err(RefreshRejected(reply.status, reply.text)) else Ok(reply.tokens)
    }

    /**
     * getValidAccessToken: the stored access token while more than an hour is left;
     * otherwise refresh, persist the new triple, and return the new access token.
     */
    method GetValidAccessToken(nowMs: int, post: Json -> TokenReply, fault: WriteFault)
      returns (r: Result<string, AuthError>)
      modifies store
      ensures old(LoadTokens()).Err? ==> r == Err(old(LoadTokens()).error) && store.files == old(store.files)
      ensures old(LoadTokens()).Ok? && !NeedsRefresh(old(LoadTokens()).value.expiresAt, nowMs) ==>
        r == Ok(old(LoadTokens()).value.accessToken) && store.files == old(store.files)
      ensures old(LoadTokens()).Ok? && NeedsRefresh(old(LoadTokens()).value.expiresAt, nowMs) ==>
        var reply := post(RefreshBody(clientId, clientSecret, old(LoadTokens()).value.refreshToken));
        && (!Client.IsOk(reply.status) ==>
              r == Err(RefreshRejected(reply.status, reply.text)) && store.files == old(store.files))
        && (Client.IsOk(reply.status) && fault.NoFault? ==>
              && r == Ok(reply.tokens.accessToken)
              && store.files == store.AfterWrite(old(store.files), tokensPath, store.codec.stringify(TokensToJson(reply.tokens))))
        && (Client.IsOk(reply.status) && !fault.NoFault? ==>
              r == Err(SaveFailed(fault.reason)) && store.files == old(store.files) - {store.TempPath(tokensPath)})
      ensures old(LoadTokens()).Ok? && !NeedsRefresh(old(LoadTokens()).value.expiresAt, nowMs) ==>
        LoadTokens() == old(LoadTokens())
      ensures old(LoadTokens()).Ok? && NeedsRefresh(old(LoadTokens()).value.expiresAt, nowMs) ==>
        var reply := post(RefreshBody(clientId, clientSecret, old(LoadTokens()).value.refreshToken));
        r.Ok? && RoundTripsOn(store.codec, TokensToJson(reply.tokens)) ==> LoadTokens() == Ok(reply.tokens)
    {
      var loaded := LoadTokens();
      if loaded.Err? {
        return Err(loaded.error);
      }
      var tokens := loaded.value;
      if NeedsRefresh(tokens.expiresAt, nowMs) {
        var refreshed := RefreshAccessToken(tokens.refreshToken, post);
        if refreshed.Err? {
          return Err(refreshed.error);
        }
        var saved := SaveTokens(refreshed.value, fault);
        if saved.Fail? {
          return Err(SaveFailed(saved.error));
        }
        return Ok(refreshed.value.accessToken);
      }
      return Ok(tokens.accessToken);
    }

    /** exchangeCode: on an OK reply, save the triple and return exactly what was saved. */
    method ExchangeCode(code: string, post: Json -> TokenReply, fault: WriteFault)
      returns (r: Result<Tokens, AuthError>)
      modifies store
      ensures var reply := post(ExchangeBody(clientId, clientSecret, code));
        && (!Client.IsOk(reply.status) ==>
              r == Err(ExchangeRejected(reply.status, reply.text)) && store.files == old(store.files))
        && (Client.IsOk(reply.status) && fault.NoFault? ==>
              && r == Ok(reply.tokens)
              && store.files == store.AfterWrite(old(store.files), tokensPath, store.codec.stringify(TokensToJson(reply.tokens))))
        && (Client.IsOk(reply.status) && !fault.NoFault? ==>
              r == Err(SaveFailed(fault.reason)) && store.files == old(store.files) - {store.TempPath(tokensPath)})
      ensures r.Ok? && RoundTripsOn(store.codec, TokensToJson(r.value)) ==> LoadTokens() == r
    {
      var reply := post(ExchangeBody(clientId, clientSecret, code));
      if !Client.IsOk(reply.status) {
        return Err(ExchangeRejected(reply.status, reply.text));
      }
      var saved := SaveTokens(reply.tokens, fault);
      if saved.Fail? {
        return Err(SaveFailed(saved.error));
      }
      return Ok(reply.tokens);
    }
  }
}
