/**
 * The Mixcloud client (src/platforms/mixcloud.rs): the plain
 * authorization code grant (section 4.1 of RFC 6749, with neither PKCE nor
 * a `state`), the refresh grant, the check that precedes every upload,
 * and the names under which the upload form carries the tags.
 *
 * The listener's fate and the token endpoint's answers are parameters.
 */
module Mixcloud {
  import opened Wrappers
  import opened Text
  import opened UrlQuery
  import opened Config
  import opened OAuth

  const AuthorizeEndpoint: string := "https://www.mixcloud.com/oauth/authorize"
  const TokenEndpoint: string := "https://www.mixcloud.com/oauth/access_token"
  const RedirectUri: string := "http://localhost:8888/callback"
  /** The port of `RedirectUri`, where the callback listener binds. */
  const CallbackPort: nat := 8888

  // ---------------------------------------------------------------------
  // The authorize URL
  // ---------------------------------------------------------------------

  /** The query pairs of the authorize URL, in the order they are appended. */
  function AuthorizeQuery(clientId: string): seq<Pair> {
    [("client_id", clientId), ("redirect_uri", RedirectUri)]
  }

  /**
   * The authorize endpoint, a plain base with neither `?` nor `#`, so that
   * the pairs appended to it form the whole query.
   */
  function AuthorizeUrl(clientId: string): (u: Url)
    ensures u.base == AuthorizeEndpoint && '?' !in u.base && '#' !in u.base
    ensures u.query == AuthorizeQuery(clientId)
  {
    AuthorizeEndpointPlain();
    Url(AuthorizeEndpoint, AuthorizeQuery(clientId))
  }

  lemma AuthorizeEndpointPlain()
    ensures '?' !in AuthorizeEndpoint && '#' !in AuthorizeEndpoint
  {
  }

  lemma AuthorizeNamesAscii()
    ensures IsAscii("client_id") && IsAscii("redirect_uri") && IsAscii(RedirectUri)
  {
  }

  /**
   * Reading the authorize URL back gives exactly the client id and the
   * redirect URI (for an ASCII client id): no state, no PKCE challenge and
   * no scope travel to the provider.
   */
  lemma AuthorizeUrlQuery(clientId: string)
    requires IsAscii(clientId)
    ensures Parse(QueryOf(UrlText(AuthorizeUrl(clientId)))) == AuthorizeQuery(clientId)
  {
    AuthorizeNamesAscii();
    UrlTextQuery(AuthorizeUrl(clientId));
  }

  /** The provider finds the client id and the redirect URI, and neither a state nor a challenge. */
  lemma AuthorizeQueryValues(clientId: string)
    ensures FirstValue(AuthorizeQuery(clientId), "client_id") == Some(clientId)
    ensures FirstValue(AuthorizeQuery(clientId), "redirect_uri") == Some(RedirectUri)
    ensures FirstValue(AuthorizeQuery(clientId), "state").None?
    ensures FirstValue(AuthorizeQuery(clientId), "code_challenge").None?
  {
    var pairs := AuthorizeQuery(clientId);
    FirstValueAt(pairs, "client_id", 0);
    FirstValueAt(pairs, "redirect_uri", 1);
    assert |pairs[0].0| == 9 && |pairs[1].0| == 12;
  }

  // ---------------------------------------------------------------------
  // The callback and the code exchange
  // ---------------------------------------------------------------------

  /**
   * `extract_code_from_request`: the first `code` of the request target's
   * query; a malformed line or a missing code is an error, and no `state`
   * is looked for.
   */
  function ExtractCode(line: string): (r: Result<string, AuthError>)
    ensures r.Success? <==> RequestQuery(line).Success? && FirstValue(RequestQuery(line).value, "code").Some?
    ensures r.Success? ==> r.value == FirstValue(RequestQuery(line).value, "code").value
    ensures RequestQuery(line).Failure? ==> r == Failure(InvalidRequestFormat)
    ensures RequestQuery(line).Success? && FirstValue(RequestQuery(line).value, "code").None? ==>
              r == Failure(CodeNotFound)
  {
    var pairs :- RequestQuery(line);
    match FirstValue(pairs, "code")
    case None => Failure(CodeNotFound)
    case Some(code) => Success(code)
  }

  lemma CallbackNamesAscii()
    ensures IsAscii("code") && IsAscii("state")
  {
  }

  /** A redirect carrying a code yields that code. */
  lemma ExtractFromRedirect(code: string)
    requires IsAscii(code)
    ensures ExtractCode(CallbackRequestLine([("code", code)])) == Success(code)
  {
    CallbackNamesAscii();
    RequestQueryOfCallback([("code", code)]);
    FirstValueAt([("code", code)], "code", 0);
  }

  /** Whatever `state` comes along with the code is ignored: nothing is checked against it. */
  lemma ExtractIgnoresState(code: string, state: string)
    requires IsAscii(code) && IsAscii(state)
    ensures ExtractCode(CallbackRequestLine([("state", state), ("code", code)])) == Success(code)
  {
    var pairs := [("state", state), ("code", code)];
    CallbackNamesAscii();
    assert forall i :: 0 <= i < |pairs| ==> IsAscii(pairs[i].0) && IsAscii(pairs[i].1);
    RequestQueryOfCallback(pairs);
    assert pairs[0].0 != "code";
    FirstValueAt(pairs, "code", 1);
  }

  /** Whether the browser came back with a code. */
  predicate CodeReceived(callback: Callback) {
    callback.Line? && ExtractCode(callback.line).Success?
  }

  /**
   * How the browser half ends: the listener and read errors, then the
   * code's extraction, then the answer to the browser; the result is the
   * code.
   */
  function CallbackCode(callback: Callback): (r: Result<string, AuthError>)
    ensures r.Success? <==> CodeReceived(callback) && callback.answered
    ensures r.Success? ==> r.value == ExtractCode(callback.line).value
    ensures callback.BindFailed? ==> r == Failure(ListenFailed(CallbackPort))
    ensures callback.Line? && ExtractCode(callback.line).Failure? ==> r == ExtractCode(callback.line)
    ensures CodeReceived(callback) && !callback.answered ==> r == Failure(AnswerFailed)
  {
    var line :- ReceivedLine(callback, CallbackPort);
    var code :- ExtractCode(line);
    if !callback.answered then Failure(AnswerFailed) else Success(code)
  }

  /**
   * How a login ends: the browser half's error, or else what the code
   * exchange and the save of the new record decide.
   */
  function LoginOutcome(callback: Callback, exchange: HttpOutcome, host: Host): (r: Result<(), AuthError>)
    ensures r.Success? <==> CodeReceived(callback) && callback.answered && GoodReply(exchange) && CanSave(host)
    ensures CodeReceived(callback) && callback.answered ==> r == StoreOutcome(exchange, false, host)
    ensures !(CodeReceived(callback) && callback.answered) ==> r == Failure(CallbackCode(callback).error)
  {
    match CallbackCode(callback)
    case Failure(e) => Failure(e)
    case Success(_) => StoreOutcome(exchange, false, host)
  }

  /**
   * The form of the code exchange, built by successive insertions: the
   * client, the redirect URI and the code, and no `grant_type`.
   */
  function ExchangeForm(creds: Credentials, code: string): (form: map<string, string>)
    ensures form.Keys == {"client_id", "client_secret", "redirect_uri", "code"}
    ensures "grant_type" !in form
    ensures form["client_id"] == creds.clientId && form["client_secret"] == creds.clientSecret
    ensures form["redirect_uri"] == RedirectUri && form["code"] == code
  {
    map[]["client_id" := creds.clientId]["client_secret" := creds.clientSecret]
      ["redirect_uri" := RedirectUri]["code" := code]
  }

  /**
   * The browser half of `authorize`: show the URL, listen on port 8888,
   * read the first request line, take the code from it, and answer the
   * browser.
   */
  method AwaitCode(host: Host, creds: Credentials, callback: Callback) returns (r: Result<string, AuthError>)
    modifies host
    ensures host.files == old(host.files)
    // the URL is always shown; the listener only when the port was bound; the answer only on success
    ensures callback.BindFailed? ==> host.trace == old(host.trace) + [ShowedUrl(AuthorizeUrl(creds.clientId))]
    ensures !callback.BindFailed? && r.Failure? ==>
              host.trace == old(host.trace) + [ShowedUrl(AuthorizeUrl(creds.clientId)), Listened(CallbackPort)]
    ensures r.Success? ==> host.trace == old(host.trace) + BrowserEffects(AuthorizeUrl(creds.clientId), CallbackPort)
    ensures r == CallbackCode(callback)
  {
    host.trace := host.trace + [ShowedUrl(AuthorizeUrl(creds.clientId))];
    if callback.BindFailed? {
      return Failure(ListenFailed(CallbackPort));
    }
    host.trace := host.trace + [Listened(CallbackPort)];
    var line :- ReceivedLine(callback, CallbackPort);
    var code :- ExtractCode(line);
    if !callback.answered {
      return Failure(AnswerFailed);
    }
    host.trace := host.trace + [Answered(CallbackPort)];
    r := Success(code);
  }

  /**
   * The token half of `authorize`: post the exchange form, and on a good
   * answer put the new record in the Mixcloud slot of the reloaded (or
   * empty) storage with `set_mixcloud_tokens`, and save it.
   */
  method ExchangeAndStore(host: Host, creds: Credentials, code: string, exchange: HttpOutcome, now: int)
    returns (r: Result<(), AuthError>)
    modifies host
    ensures old(host.trace) < host.trace && |host.trace| <= |old(host.trace)| + 2
    ensures host.trace[..|old(host.trace)| + 1] == old(host.trace) + [Posted(TokenEndpoint, ExchangeForm(creds, code))]
    ensures TokenTraffic(host.trace[|old(host.trace)|..], TokenEndpoint)
    ensures r.Failure? ==> host.files == old(host.files)
    ensures r == StoreOutcome(exchange, false, host)
    ensures r.Success? ==>
              Load(host) == Success(SetMixcloudTokens(old(LoadOrEmpty(host)), TokenInfoOf(exchange.parsed.value, now)))
  {
    ghost var posted := Posted(TokenEndpoint, ExchangeForm(creds, code));
    var response := PostForm(host, TokenEndpoint, ExchangeForm(creds, code), exchange, false);
    ghost var written: seq<Effect> := [];
    if response.Failure? {
      r := Failure(response.error);
    } else {
      var storage := LoadOrEmpty(host);
      assert storage == old(LoadOrEmpty(host));
      storage := SetMixcloudTokens(storage, TokenInfoOf(response.value, now));
      var saved := Save(host, storage);
      if saved.Failure? {
        r := Failure(Storage(saved.error));
      } else {
        written := [Wrote(TokenPath(host.xdgConfigHome, host.home).value, storage)];
        r := Success(());
      }
    }
    TokenRequestTrace(old(host.trace), host.trace, posted, TokenEndpoint, written);
  }

  /**
   * `MixcloudClient::authorize`: show the authorize URL, wait on port 8888
   * for the browser, answer it, exchange the code, and save the new record
   * in the Mixcloud slot of the stored tokens as they are now (or of empty
   * storage, when they cannot be loaded).
   */
  method Authorize(host: Host, creds: Credentials, callback: Callback, exchange: HttpOutcome, now: int)
    returns (r: Result<(), AuthError>)
    modifies host
    ensures old(host.trace) < host.trace && host.trace[|old(host.trace)|] == ShowedUrl(AuthorizeUrl(creds.clientId))
    ensures callback.BindFailed? ==>
              r == Failure(ListenFailed(CallbackPort)) && host.trace == old(host.trace) + [ShowedUrl(AuthorizeUrl(creds.clientId))]
    // without a code: no answer to the browser, no token request and no write
    ensures !CodeReceived(callback) ==>
              r.Failure? && Harmless(host.trace[|old(host.trace)|..])
              && Answered(CallbackPort) !in host.trace[|old(host.trace)|..]
    ensures callback.Line? && ExtractCode(callback.line).Failure? ==> r == Failure(ExtractCode(callback.line).error)
    ensures CodeReceived(callback) && callback.answered ==>
              |host.trace| >= |old(host.trace)| + 4
              && host.trace[..|old(host.trace)| + 4]
                 == old(host.trace) + [ShowedUrl(AuthorizeUrl(creds.clientId)), Listened(CallbackPort), Answered(CallbackPort),
                    Posted(TokenEndpoint, ExchangeForm(creds, ExtractCode(callback.line).value))]
    // past the code and the answer, the exchange and the save decide
    ensures CodeReceived(callback) && callback.answered ==> r == StoreOutcome(exchange, false, host)
    ensures r == LoginOutcome(callback, exchange, host)
    ensures r.Success? <==> CodeReceived(callback) && callback.answered && GoodReply(exchange) && CanSave(host)
    ensures r.Failure? ==> host.files == old(host.files)
    ensures OnlyAt(host.trace[|old(host.trace)|..], AuthorizeUrl(creds.clientId), CallbackPort, TokenEndpoint)
    ensures r.Success? ==>
              Load(host) == Success(SetMixcloudTokens(old(LoadOrEmpty(host)), TokenInfoOf(exchange.parsed.value, now)))
  {
    var code := AwaitCode(host, creds, callback);
    BrowserTrace(old(host.trace), host.trace, AuthorizeUrl(creds.clientId), CallbackPort, TokenEndpoint,
                 if callback.BindFailed? then 1 else if code.Success? then 3 else 2);
    if code.Failure? {
      return Failure(code.error);
    }
    ghost var mid := host.trace;
    ghost var posted := Posted(TokenEndpoint, ExchangeForm(creds, code.value));
    r := ExchangeAndStore(host, creds, code.value, exchange, now);
    OnlyAtThen(old(host.trace), mid, host.trace, AuthorizeUrl(creds.clientId), CallbackPort, TokenEndpoint);
    FourEffects(old(host.trace), ShowedUrl(AuthorizeUrl(creds.clientId)), Listened(CallbackPort), Answered(CallbackPort),
                mid, posted, host.trace);
  }

  // ---------------------------------------------------------------------
  // The client: refresh, the upload preamble, and the tag fields
  // ---------------------------------------------------------------------

  /**
   * The refresh grant's form (section 6 of RFC 6749), built by successive
   * insertions.
   */
  function RefreshForm(creds: Credentials, refreshToken: string): (form: map<string, string>)
    ensures form.Keys == {"client_id", "client_secret", "grant_type", "refresh_token"}
    ensures form["grant_type"] == "refresh_token" && form["refresh_token"] == refreshToken
    ensures form["client_id"] == creds.clientId && form["client_secret"] == creds.clientSecret
  {
    map[]["client_id" := creds.clientId]["client_secret" := creds.clientSecret]
      ["grant_type" := "refresh_token"]["refresh_token" := refreshToken]
  }

  /** What a login from scratch needs besides the credentials. */
  datatype Login = Login(callback: Callback, exchange: HttpOutcome)

  class MixcloudClient {
    const credentials: Credentials
    /** `token_storage`, the client's copy of the stored tokens. */
    var storage: TokenStorage

    constructor (credentials: Credentials, storage: TokenStorage)
      ensures this.credentials == credentials && this.storage == storage
    {
      this.credentials := credentials;
      this.storage := storage;
    }

    /**
     * `refresh_token_if_needed`: without a Mixcloud record this is the
     * storage's "not authorized" error; a record that is not expired is
     * left as it is; an expired one is replaced through the refresh grant
     * with `set_mixcloud_tokens`, keeping the old refresh token when the
     * response carries none. The client's copy is updated before the
     * save, so a failed save leaves the new record in memory only.
     */
    method RefreshTokenIfNeeded(host: Host, now: int, outcome: HttpOutcome) returns (r: Result<(), AuthError>)
      modifies this, host
      ensures storage.soundcloud == old(storage.soundcloud)
      ensures old(host.trace) <= host.trace
      ensures forall i :: |old(host.trace)| <= i < |host.trace| ==>
                (host.trace[i].Posted? && host.trace[i].endpoint == TokenEndpoint) || host.trace[i].Wrote?
      ensures old(storage.mixcloud).None? ==>
                r == Failure(Storage(NotAuthorizedMixcloud)) && storage == old(storage)
                && host.trace == old(host.trace) && host.files == old(host.files)
      ensures old(storage.mixcloud).Some? && PlanRefresh(old(storage.mixcloud).value, now).KeepToken? ==>
                r == Success(()) && storage == old(storage) && host.trace == old(host.trace) && host.files == old(host.files)
      ensures old(storage.mixcloud).Some? && PlanRefresh(old(storage.mixcloud).value, now).CannotRefresh? ==>
                r == Failure(NoRefreshToken) && storage == old(storage) && host.trace == old(host.trace) && host.files == old(host.files)
      ensures old(storage.mixcloud).Some? && PlanRefresh(old(storage.mixcloud).value, now).UseRefreshToken? ==>
                var token := PlanRefresh(old(storage.mixcloud).value, now).token;
                && old(host.trace) + [Posted(TokenEndpoint, RefreshForm(credentials, token))] <= host.trace
                && (outcome.Reply? && IsSuccess(outcome.status) && outcome.parsed.Some?
                    ==> storage == SetMixcloudTokens(old(storage), RefreshedInfo(outcome.parsed.value, token, now)))
                && (outcome.Reply? && IsSuccess(outcome.status) && outcome.parsed.Some? && r.Success?
                    ==> Load(host) == Success(storage))
      ensures !(outcome.Reply? && IsSuccess(outcome.status) && outcome.parsed.Some?) ==>
                storage == old(storage) && host.files == old(host.files)
      // once the refresh grant is used, the response and the save decide
      ensures old(storage.mixcloud).Some? && PlanRefresh(old(storage.mixcloud).value, now).UseRefreshToken? ==>
                r == StoreOutcome(outcome, true, host)
      // with a record, the copy's Mixcloud slot becomes the refresh-checked record and nothing else changes
      ensures old(storage.mixcloud).Some? ==>
                storage == SetMixcloudTokens(old(storage), RefreshedSlot(old(storage.mixcloud).value, outcome, now))
                && (r.Success? <==> RefreshCheck(old(storage.mixcloud).value, outcome, host, now).Success?)
                && (r.Failure? ==> r.error == RefreshCheck(old(storage.mixcloud).value, outcome, host, now).error)
      ensures r.Success? ==> storage.mixcloud.Some?
      ensures r.Success? ==>
                (storage.mixcloud == old(storage.mixcloud) && !IsExpired(storage.mixcloud.value, now))
                || (storage.mixcloud.value.createdAt == now && storage.mixcloud.value.refreshToken.Some?)
    {
      var current := GetMixcloudToken(storage);
      if current.Failure? {
        return Failure(Storage(current.error));
      }
      var info := current.value;
      match PlanRefresh(info, now)
      case KeepToken =>
        r := Success(());
      case CannotRefresh =>
        r := Failure(NoRefreshToken);
      case UseRefreshToken(token) =>
        var response := PostForm(host, TokenEndpoint, RefreshForm(credentials, token), outcome, true);
        if response.Failure? {
          return Failure(response.error);
        }
        storage := SetMixcloudTokens(storage, RefreshedInfo(response.value, token, now));
        var saved := Save(host, storage);
        if saved.Failure? {
          return Failure(Storage(saved.error));
        }
        r := Success(());
    }

    /**
     * The start of `upload`: authorize from scratch only when there is no
     * Mixcloud record (and then take the stored tokens as the client's
     * copy), and always run the refresh check before the token is used.
     */
    method PrepareUpload(host: Host, login: Login, refresh: HttpOutcome, now: int)
      returns (r: Result<TokenInfo, AuthError>)
      modifies this, host
      ensures old(host.trace) <= host.trace
      ensures old(storage.mixcloud).Some? ==>
                forall i :: |old(host.trace)| <= i < |host.trace| ==> !host.trace[i].ShowedUrl?
      ensures old(storage.mixcloud).None? ==>
                |host.trace| > |old(host.trace)|
                && host.trace[|old(host.trace)|] == ShowedUrl(AuthorizeUrl(credentials.clientId))
      ensures r.Success? ==> storage.mixcloud == Some(r.value) && GetMixcloudToken(storage) == Success(r.value)
      ensures r.Success? ==> !IsExpired(r.value, now) || r.value.createdAt == now
      // a stored record that is still good is used as it is, with no request and no write
      ensures old(storage.mixcloud).Some? && !IsExpired(old(storage.mixcloud).value, now) ==>
                r == Success(old(storage.mixcloud).value) && storage == old(storage)
                && host.trace == old(host.trace) && host.files == old(host.files)
      ensures old(storage.mixcloud).Some? && PlanRefresh(old(storage.mixcloud).value, now).CannotRefresh? ==>
                r == Failure(NoRefreshToken) && host.trace == old(host.trace) && host.files == old(host.files)
      ensures old(storage.mixcloud).Some? && PlanRefresh(old(storage.mixcloud).value, now).UseRefreshToken? ==>
                (r.Success? <==> GoodReply(refresh) && CanSave(host))
                && (r.Success? ==>
                      r.value == RefreshedInfo(refresh.parsed.value, PlanRefresh(old(storage.mixcloud).value, now).token, now))
      // without a record, the login decides, and a fresh record that is still good is the one used
      ensures old(storage.mixcloud).None? && r.Success? ==>
                CodeReceived(login.callback) && login.callback.answered && GoodReply(login.exchange) && CanSave(host)
      ensures old(storage.mixcloud).None? && CodeReceived(login.callback) && login.callback.answered
              && GoodReply(login.exchange) && CanSave(host)
              && !IsExpired(TokenInfoOf(login.exchange.parsed.value, now), now) ==>
                r == Success(TokenInfoOf(login.exchange.parsed.value, now))
      // with a record, the refresh check decides the result and the slot, and the SoundCloud slot is kept
      ensures old(storage.mixcloud).Some? ==>
                r == RefreshCheck(old(storage.mixcloud).value, refresh, host, now)
                && storage == SetMixcloudTokens(old(storage), RefreshedSlot(old(storage.mixcloud).value, refresh, now))
      // without one, a failed login is returned with the copy and the files untouched; after a good
      // login the copy is the reloaded file, and the new record goes through the refresh check at once
      ensures old(storage.mixcloud).None? ==>
                var outcome := LoginOutcome(login.callback, login.exchange, host);
                && (outcome.Failure? ==> r == Failure(outcome.error) && storage == old(storage) && host.files == old(host.files))
                && (outcome.Success? ==>
                      var t := TokenInfoOf(login.exchange.parsed.value, now);
                      r == RefreshCheck(t, refresh, host, now)
                      && storage == SetMixcloudTokens(old(LoadOrEmpty(host)), RefreshedSlot(t, refresh, now)))
    {
      if storage.mixcloud.None? {
        var authorized := Authorize(host, credentials, login.callback, login.exchange, now);
        if authorized.Failure? {
          return Failure(authorized.error);
        }
        // the reload cannot fail right after a successful save
        storage := Load(host).value;
        assert storage.mixcloud.Some? && storage.mixcloud.value.createdAt == now;
      }
      var refreshed := RefreshTokenIfNeeded(host, now, refresh);
      if refreshed.Failure? {
        return Failure(refreshed.error);
      }
      var token := GetMixcloudToken(storage);
      r := Success(token.value);
    }
  }

  /** The form field under which the tag at `index` is sent. */
  function TagFieldName(index: nat): (name: string)
    ensures |name| == |NatToString(index)| + 9
    ensures name[..5] == "tags-" && name[5..|name| - 4] == NatToString(index) && name[|name| - 4..] == "-tag"
  {
    "tags-" + NatToString(index) + "-tag"
  }

  /** Distinct positions get distinct field names, so no tag overwrites another. */
  lemma TagFieldNameInjective(i: nat, j: nat)
    requires TagFieldName(i) == TagFieldName(j)
    ensures i == j
  {
    var a, b := NatToString(i), NatToString(j);
    var name := TagFieldName(i);
    assert |name| == 5 + |a| + 4 && |name| == 5 + |b| + 4;
    assert name[5..5 + |a|] == a;
    assert TagFieldName(j)[5..5 + |b|] == b;
    NatToStringInjective(i, j);
  }

  /**
   * The tag loop of `upload`: every tag is added as a text field of the
   * form, in list order, the tag at position `i` under `tags-i-tag`.
   */
  method AddTagFields(form: seq<(string, string)>, tags: seq<string>) returns (out: seq<(string, string)>)
    ensures |out| == |form| + |tags| && out[..|form|] == form
    ensures forall i :: 0 <= i < |tags| ==> out[|form| + i] == (TagFieldName(i), tags[i])
  {
    out := form;
    var index := 0;
    while index < |tags|
      invariant 0 <= index <= |tags|
      invariant |out| == |form| + index && out[..|form|] == form
      invariant forall i :: 0 <= i < index ==> out[|form| + i] == (TagFieldName(i), tags[i])
    {
      out := out + [(TagFieldName(index), tags[index])];
      index := index + 1;
    }
  }
}
