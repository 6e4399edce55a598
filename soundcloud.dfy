/**
 * The SoundCloud client (src/platforms/soundcloud.rs): the authorization
 * code grant with PKCE (RFC 7636, method S256) and a CSRF `state`
 * (section 10.12 of RFC 6749), the refresh grant, and the check that
 * precedes every upload.
 *
 * The random bytes of the code verifier, the random picks of the state,
 * SHA-256, the listener's fate and the token endpoint's answers are all
 * parameters.
 */
module Soundcloud {
  import opened Wrappers
  import opened Text
  import opened UrlQuery
  import Base64Url
  import opened Config
  import opened OAuth

  const AuthorizeEndpoint: string := "https://secure.soundcloud.com/authorize"
  const TokenEndpoint: string := "https://secure.soundcloud.com/oauth/token"
  const RedirectUri: string := "http://localhost:8889/callback"
  /** The port of `RedirectUri`, where the callback listener binds. */
  const CallbackPort: nat := 8889

  // ---------------------------------------------------------------------
  // PKCE and the CSRF state
  // ---------------------------------------------------------------------

  /** The characters section 4.1 of RFC 7636 allows in a code verifier. */
  predicate IsVerifierChar(c: char) {
    ('A' <= c <= 'Z') || ('a' <= c <= 'z') || ('0' <= c <= '9') || c == '-' || c == '.' || c == '_' || c == '~'
  }

  /** A code verifier as section 4.1 of RFC 7636 defines it: 43 to 128 unreserved characters. */
  predicate IsCodeVerifier(v: string) {
    43 <= |v| <= 128 && forall i :: 0 <= i < |v| ==> IsVerifierChar(v[i])
  }

  /**
   * `generate_code_verifier`: the random bytes in unpadded base64url;
   * thirty-two of them give a verifier of the form RFC 7636 asks for.
   */
  function CodeVerifier(random: seq<Byte>): (v: string)
    ensures |random| == 32 ==> |v| == 43 && IsCodeVerifier(v)
  {
    var v := Base64Url.Encode(random);
    assert forall i :: 0 <= i < |v| ==> Base64Url.IsAlphabetChar(v[i]);
    v
  }

  /** The verifier carries all the random bytes drawn for it: they can be read back from it. */
  lemma VerifierCarriesRandom(random: seq<Byte>)
    ensures Base64Url.InAlphabet(CodeVerifier(random)) && Base64Url.Decode(CodeVerifier(random)) == random
  {
    Base64Url.DecodeEncode(random);
  }

  /**
   * `generate_code_challenge`: `BASE64URL(SHA256(verifier))`, the S256
   * transformation of section 4.2 of RFC 7636; a SHA-256 digest gives 43
   * characters.
   */
  function CodeChallenge(verifier: string, sha256: seq<Byte> -> seq<Byte>): (c: string)
    ensures Base64Url.InAlphabet(c)
    ensures |sha256(Utf8Bytes(verifier))| == 32 ==> |c| == 43
  {
    Base64Url.Encode(sha256(Utf8Bytes(verifier)))
  }

  /**
   * A server that decodes the challenge finds the digest of the verifier's
   * bytes (section 4.6 of RFC 7636); for a verifier, which is ASCII, those
   * bytes are its character codes.
   */
  lemma ChallengeCarriesDigest(random: seq<Byte>, sha256: seq<Byte> -> seq<Byte>)
    ensures var v := CodeVerifier(random);
            && Base64Url.Decode(CodeChallenge(v, sha256)) == sha256(Utf8Bytes(v))
            && IsAscii(v)
            && Utf8Bytes(v) == seq(|v|, i requires 0 <= i < |v| => v[i] as int)
  {
    var v := CodeVerifier(random);
    Base64Url.DecodeEncode(sha256(Utf8Bytes(v)));
    assert forall i :: 0 <= i < |v| ==> Base64Url.IsAlphabetChar(v[i]);
  }

  /** One draw from `rand::distributions::Alphanumeric`: an index into its 62 characters. */
  type AlphanumericDraw = i: nat | i < 62

  /** The 32 random bytes `generate_code_verifier` draws. */
  type VerifierBytes = b: seq<Byte> | |b| == 32 witness seq(32, _ => 0)

  /** The 32 draws of the state (`take(32)`). */
  type StateDraws = d: seq<AlphanumericDraw> | |d| == 32 witness seq(32, _ => 0)

  predicate IsAlphanumeric(c: char) {
    ('A' <= c <= 'Z') || ('a' <= c <= 'z') || ('0' <= c <= '9')
  }

  /**
   * The CSRF state: one character of `A`-`Z`, `a`-`z`, `0`-`9` per draw
   * (the order of `Alphanumeric`'s character set).
   */
  function CsrfState(draws: seq<AlphanumericDraw>): (s: string)
    ensures |s| == |draws|
    ensures forall i :: 0 <= i < |s| ==> IsAlphanumeric(s[i])
    ensures IsAscii(s)
  {
    if draws == [] then []
    else [Base64Url.SextetChar(draws[0])] + CsrfState(draws[1..])
  }

  /** Different draws give different states: the state carries all the randomness drawn for it. */
  lemma {:induction false} CsrfStateInjective(a: seq<AlphanumericDraw>, b: seq<AlphanumericDraw>)
    requires CsrfState(a) == CsrfState(b)
    ensures a == b
  {
    if a != [] {
      var sa, sb := CsrfState(a), CsrfState(b);
      assert sa[0] == sb[0];
      Base64Url.SextetOfChar(a[0]);
      Base64Url.SextetOfChar(b[0]);
      assert sa[1..] == CsrfState(a[1..]) && sb[1..] == CsrfState(b[1..]);
      CsrfStateInjective(a[1..], b[1..]);
      assert a == [a[0]] + a[1..] && b == [b[0]] + b[1..];
    }
  }

  /** What one authorization attempt generates and shows before it waits for the browser. */
  datatype Grant = Grant(verifier: string, challenge: string, state: string, url: Url)

  /** The query pairs of the authorize URL, in the order they are appended. */
  function AuthorizeQuery(clientId: string, challenge: string, state: string): seq<Pair> {
    [("client_id", clientId), ("redirect_uri", RedirectUri), ("response_type", "code"),
     ("code_challenge", challenge), ("code_challenge_method", "S256"), ("state", state),
     ("scope", "non-expiring")]
  }

  /**
   * The authorize endpoint, a plain base with neither `?` nor `#`, so that
   * the pairs appended to it form the whole query.
   */
  function AuthorizeUrl(clientId: string, challenge: string, state: string): (u: Url)
    ensures u.base == AuthorizeEndpoint && '?' !in u.base && '#' !in u.base
    ensures u.query == AuthorizeQuery(clientId, challenge, state)
  {
    AuthorizeEndpointPlain();
    Url(AuthorizeEndpoint, AuthorizeQuery(clientId, challenge, state))
  }

  /** The verifier, its challenge, the state, and the URL that carries the last two. */
  function NewGrant(clientId: string, random: seq<Byte>, draws: seq<AlphanumericDraw>, sha256: seq<Byte> -> seq<Byte>): (g: Grant)
    ensures g.verifier == CodeVerifier(random) && g.state == CsrfState(draws)
    ensures g.challenge == CodeChallenge(g.verifier, sha256)
    ensures g.url == AuthorizeUrl(clientId, g.challenge, g.state)
    ensures |random| == 32 ==> |g.verifier| == 43 && IsCodeVerifier(g.verifier)
    ensures |g.state| == |draws|
  {
    var verifier := CodeVerifier(random);
    var challenge := CodeChallenge(verifier, sha256);
    var state := CsrfState(draws);
    Grant(verifier, challenge, state, AuthorizeUrl(clientId, challenge, state))
  }

  /** The authorize endpoint holds nothing a query would misread. */
  lemma AuthorizeEndpointPlain()
    ensures '?' !in AuthorizeEndpoint && '#' !in AuthorizeEndpoint
  {
  }

  /** Every pair of the authorize query is ASCII when the client id is. */
  lemma AuthorizeQueryAscii(clientId: string, random: seq<Byte>, draws: seq<AlphanumericDraw>, sha256: seq<Byte> -> seq<Byte>)
    requires IsAscii(clientId)
    ensures var g := NewGrant(clientId, random, draws, sha256);
            var pairs := AuthorizeQuery(clientId, g.challenge, g.state);
            forall i :: 0 <= i < |pairs| ==> IsAscii(pairs[i].0) && IsAscii(pairs[i].1)
  {
    var g := NewGrant(clientId, random, draws, sha256);
    assert IsAscii(g.challenge) by {
      forall i | 0 <= i < |g.challenge| ensures g.challenge[i] as int < 128 {
        assert Base64Url.IsAlphabetChar(g.challenge[i]);
      }
    }
    AuthorizeNamesAscii();
    AuthorizeConstantsAscii();
  }

  lemma AuthorizeNamesAscii()
    ensures IsAscii("client_id") && IsAscii("redirect_uri") && IsAscii("response_type")
    ensures IsAscii("code_challenge") && IsAscii("code_challenge_method") && IsAscii("state") && IsAscii("scope")
  {
  }

  lemma AuthorizeConstantsAscii()
    ensures IsAscii(RedirectUri) && IsAscii("code") && IsAscii("S256") && IsAscii("non-expiring")
  {
  }

  /**
   * Reading the authorize URL back gives the seven pairs in order (for an
   * ASCII client id): the provider sees the client, the redirect, the
   * challenge and the state that were generated.
   */
  lemma AuthorizeUrlQuery(clientId: string, random: seq<Byte>, draws: seq<AlphanumericDraw>, sha256: seq<Byte> -> seq<Byte>)
    requires IsAscii(clientId)
    ensures var g := NewGrant(clientId, random, draws, sha256);
            Parse(QueryOf(UrlText(g.url))) == AuthorizeQuery(clientId, g.challenge, g.state)
  {
    AuthorizeQueryAscii(clientId, random, draws, sha256);
    UrlTextQuery(NewGrant(clientId, random, draws, sha256).url);
  }

  /** In the authorize query the provider finds the generated state, the challenge and the S256 method. */
  lemma AuthorizeQueryValues(clientId: string, challenge: string, state: string)
    ensures FirstValue(AuthorizeQuery(clientId, challenge, state), "state") == Some(state)
    ensures FirstValue(AuthorizeQuery(clientId, challenge, state), "code_challenge") == Some(challenge)
    ensures FirstValue(AuthorizeQuery(clientId, challenge, state), "code_challenge_method") == Some("S256")
    ensures FirstValue(AuthorizeQuery(clientId, challenge, state), "client_id") == Some(clientId)
  {
    var pairs := AuthorizeQuery(clientId, challenge, state);
    FirstValueAt(pairs, "client_id", 0);
    FirstValueAt(pairs, "code_challenge", 3);
    FirstValueAt(pairs, "code_challenge_method", 4);
    FirstValueAt(pairs, "state", 5);
  }

  // ---------------------------------------------------------------------
  // The callback and the code exchange
  // ---------------------------------------------------------------------

  /**
   * `extract_code_from_request`: the first `code` and the first `state`
   * of the request target's query; a malformed line, a missing code or a
   * missing state is an error, checked in that order.
   */
  function ExtractCodeAndState(line: string): (r: Result<(string, string), AuthError>)
    ensures r.Success? <==> RequestQuery(line).Success?
                            && FirstValue(RequestQuery(line).value, "code").Some?
                            && FirstValue(RequestQuery(line).value, "state").Some?
    ensures r.Success? ==> r.value == (FirstValue(RequestQuery(line).value, "code").value,
                                       FirstValue(RequestQuery(line).value, "state").value)
  {
    var pairs :- RequestQuery(line);
    match FirstValue(pairs, "code")
    case None => Failure(CodeNotFound)
    case Some(code) =>
      match FirstValue(pairs, "state")
      case None => Failure(StateNotFound)
      case Some(state) => Success((code, state))
  }

  /** The errors of `extract_code_from_request`, in the order it checks for them. */
  lemma ExtractErrors(line: string)
    ensures RequestQuery(line).Failure? ==> ExtractCodeAndState(line) == Failure(InvalidRequestFormat)
    ensures RequestQuery(line).Success? && FirstValue(RequestQuery(line).value, "code").None? ==>
              ExtractCodeAndState(line) == Failure(CodeNotFound)
    ensures RequestQuery(line).Success? && FirstValue(RequestQuery(line).value, "code").Some?
            && FirstValue(RequestQuery(line).value, "state").None? ==>
              ExtractCodeAndState(line) == Failure(StateNotFound)
  {
  }

  /** A redirect carrying a code and a state yields exactly that code and state. */
  lemma ExtractFromRedirect(code: string, state: string)
    requires IsAscii(code) && IsAscii(state)
    ensures ExtractCodeAndState(CallbackRequestLine([("code", code), ("state", state)])) == Success((code, state))
  {
    var pairs := [("code", code), ("state", state)];
    CallbackNamesAscii();
    RequestQueryOfCallback(pairs);
    FirstValueAt(pairs, "code", 0);
    FirstValueAt(pairs, "state", 1);
  }

  lemma CallbackNamesAscii()
    ensures IsAscii("code") && IsAscii("state") && IsAscii("error")
  {
  }

  /** An error redirect (section 4.1.2.1 of RFC 6749) carries no code and stops the flow. */
  lemma ExtractFromErrorRedirect(error: string)
    requires IsAscii(error)
    ensures ExtractCodeAndState(CallbackRequestLine([("error", error)])) == Failure(CodeNotFound)
  {
    CallbackNamesAscii();
    RequestQueryOfCallback([("error", error)]);
  }

  /**
   * The callback accepted only when it carries a code and the very state
   * that was generated; the result is the code.
   */
  function CheckCallback(line: string, expectedState: string): (r: Result<string, AuthError>)
    ensures r.Success? <==> ExtractCodeAndState(line).Success? && ExtractCodeAndState(line).value.1 == expectedState
    ensures r.Success? ==> r.value == ExtractCodeAndState(line).value.0
    ensures ExtractCodeAndState(line).Success? && ExtractCodeAndState(line).value.1 != expectedState ==>
              r == Failure(StateMismatch)
  {
    var (code, returned) :- ExtractCodeAndState(line);
    if returned != expectedState then Failure(StateMismatch) else Success(code)
  }

  /** Whether the browser came back with a code for this very attempt. */
  predicate StateChecked(callback: Callback, expectedState: string) {
    callback.Line? && CheckCallback(callback.line, expectedState).Success?
  }

  /**
   * How the browser half ends: the listener and read errors, then the
   * callback check, then the answer to the browser; the result is the code.
   */
  function CallbackCode(callback: Callback, expectedState: string): (r: Result<string, AuthError>)
    ensures r.Success? <==> StateChecked(callback, expectedState) && callback.answered
    ensures r.Success? ==> r.value == CheckCallback(callback.line, expectedState).value
    ensures callback.BindFailed? ==> r == Failure(ListenFailed(CallbackPort))
    ensures callback.Line? && CheckCallback(callback.line, expectedState).Failure? ==>
              r == CheckCallback(callback.line, expectedState)
    ensures StateChecked(callback, expectedState) && !callback.answered ==> r == Failure(AnswerFailed)
  {
    var line :- ReceivedLine(callback, CallbackPort);
    var code :- CheckCallback(line, expectedState);
    if !callback.answered then Failure(AnswerFailed) else Success(code)
  }

  /**
   * How a login ends: the browser half's error, or else what the code
   * exchange and the save of the new record decide.
   */
  function LoginOutcome(callback: Callback, expectedState: string, exchange: HttpOutcome, host: Host): (r: Result<(), AuthError>)
    ensures r.Success? <==> StateChecked(callback, expectedState) && callback.answered && GoodReply(exchange) && CanSave(host)
    ensures StateChecked(callback, expectedState) && callback.answered ==> r == StoreOutcome(exchange, false, host)
    ensures !(StateChecked(callback, expectedState) && callback.answered) ==>
              r == Failure(CallbackCode(callback, expectedState).error)
  {
    match CallbackCode(callback, expectedState)
    case Failure(e) => Failure(e)
    case Success(_) => StoreOutcome(exchange, false, host)
  }

  /**
   * The form of the code exchange (section 4.1.3 of RFC 6749 with the
   * `code_verifier` of section 4.5 of RFC 7636), built by successive
   * insertions.
   */
  function ExchangeForm(creds: Credentials, code: string, verifier: string): (form: map<string, string>)
    ensures form.Keys == {"grant_type", "client_id", "client_secret", "redirect_uri", "code", "code_verifier"}
    ensures form["grant_type"] == "authorization_code"
    ensures form["client_id"] == creds.clientId && form["client_secret"] == creds.clientSecret
    ensures form["redirect_uri"] == RedirectUri
    ensures form["code"] == code && form["code_verifier"] == verifier
  {
    map[]["grant_type" := "authorization_code"]["client_id" := creds.clientId]
      ["client_secret" := creds.clientSecret]["redirect_uri" := RedirectUri]
      ["code" := code]["code_verifier" := verifier]
  }

  /**
   * The verifier sent in the exchange is the one whose challenge went out
   * in the authorize URL: the server's S256 check (section 4.6 of RFC 7636)
   * relates the two.
   */
  lemma ExchangeProvesPossession(creds: Credentials, code: string, random: seq<Byte>,
                                 draws: seq<AlphanumericDraw>, sha256: seq<Byte> -> seq<Byte>)
    requires IsAscii(creds.clientId)
    ensures var g := NewGrant(creds.clientId, random, draws, sha256);
            var sent := ExchangeForm(creds, code, g.verifier)["code_verifier"];
            FirstValue(Parse(QueryOf(UrlText(g.url))), "code_challenge") == Some(CodeChallenge(sent, sha256))
  {
    var g := NewGrant(creds.clientId, random, draws, sha256);
    AuthorizeUrlQuery(creds.clientId, random, draws, sha256);
    AuthorizeQueryValues(creds.clientId, g.challenge, g.state);
  }

  /**
   * The browser half of `authorize`: show the URL, listen on port 8889,
   * read the first request line, check the state, and answer the browser.
   * The result is the authorization code.
   */
  method AwaitCode(host: Host, g: Grant, callback: Callback) returns (r: Result<string, AuthError>)
    modifies host
    ensures host.files == old(host.files)
    // the URL is always shown; the listener only when the port was bound; the answer only on success
    ensures callback.BindFailed? ==> host.trace == old(host.trace) + [ShowedUrl(g.url)]
    ensures !callback.BindFailed? && r.Failure? ==> host.trace == old(host.trace) + [ShowedUrl(g.url), Listened(CallbackPort)]
    ensures r.Success? ==> host.trace == old(host.trace) + BrowserEffects(g.url, CallbackPort)
    ensures r == CallbackCode(callback, g.state)
  {
    host.trace := host.trace + [ShowedUrl(g.url)];
    if callback.BindFailed? {
      return Failure(ListenFailed(CallbackPort));
    }
    host.trace := host.trace + [Listened(CallbackPort)];
    var line :- ReceivedLine(callback, CallbackPort);
    var code :- CheckCallback(line, g.state);
    if !callback.answered {
      return Failure(AnswerFailed);
    }
    host.trace := host.trace + [Answered(CallbackPort)];
    r := Success(code);
  }

  /**
   * The token half of `authorize`: post the exchange form, and on a good
   * answer put the new record in the SoundCloud slot of the reloaded (or
   * empty) storage and save it.
   */
  method ExchangeAndStore(host: Host, creds: Credentials, code: string, verifier: string, exchange: HttpOutcome, now: int)
    returns (r: Result<(), AuthError>)
    modifies host
    ensures old(host.trace) < host.trace && |host.trace| <= |old(host.trace)| + 2
    ensures host.trace[..|old(host.trace)| + 1] == old(host.trace) + [Posted(TokenEndpoint, ExchangeForm(creds, code, verifier))]
    ensures TokenTraffic(host.trace[|old(host.trace)|..], TokenEndpoint)
    ensures r.Failure? ==> host.files == old(host.files)
    ensures r == StoreOutcome(exchange, false, host)
    ensures r.Success? ==>
              Load(host) == Success(old(LoadOrEmpty(host)).(soundcloud := Some(TokenInfoOf(exchange.parsed.value, now))))
  {
    ghost var posted := Posted(TokenEndpoint, ExchangeForm(creds, code, verifier));
    var response := PostForm(host, TokenEndpoint, ExchangeForm(creds, code, verifier), exchange, false);
    ghost var written: seq<Effect> := [];
    if response.Failure? {
      r := Failure(response.error);
    } else {
      var storage := LoadOrEmpty(host);
      assert storage == old(LoadOrEmpty(host));
      storage := storage.(soundcloud := Some(TokenInfoOf(response.value, now)));
      var saved := Save(host, storage);
      if saved.Failure? {
        r := Failure(Storage(saved.error));
      } else {
        written := [Wrote(TokenPath(host.xdgConfigHome, host.home).value, storage)];
        r := Success(());
      }
    }
    TokenRequestTrace(old(host.trace), host.trace, posted, TokenEndpoint, written);
  }

  /**
   * The login once the verifier and the state are drawn: show the
   * authorize URL, wait on port 8889 for the browser, check the state,
   * answer the browser, exchange the code, and save the new record in the
   * SoundCloud slot of the stored tokens as they are now (or of empty
   * storage, when they cannot be loaded).
   */
  method AuthorizeWith(host: Host, creds: Credentials, g: Grant, callback: Callback, exchange: HttpOutcome, now: int)
    returns (r: Result<(), AuthError>)
    modifies host
    ensures old(host.trace) < host.trace && host.trace[|old(host.trace)|] == ShowedUrl(g.url)
    ensures callback.BindFailed? ==>
              r == Failure(ListenFailed(CallbackPort)) && host.trace == old(host.trace) + [ShowedUrl(g.url)]
    // the CSRF check: no answer to the browser, no token request and no write for a foreign state
    ensures !StateChecked(callback, g.state) ==>
              r.Failure? && Harmless(host.trace[|old(host.trace)|..])
              && Answered(CallbackPort) !in host.trace[|old(host.trace)|..]
    ensures callback.Line? && ExtractCodeAndState(callback.line).Success?
            && ExtractCodeAndState(callback.line).value.1 != g.state ==>
              r == Failure(StateMismatch)
    ensures StateChecked(callback, g.state) && callback.answered ==>
              |host.trace| >= |old(host.trace)| + 4
              && host.trace[..|old(host.trace)| + 4]
                 == old(host.trace) + [ShowedUrl(g.url), Listened(CallbackPort), Answered(CallbackPort),
                    Posted(TokenEndpoint, ExchangeForm(creds, CheckCallback(callback.line, g.state).value, g.verifier))]
    // past the state check and the answer, the exchange and the save decide
    ensures StateChecked(callback, g.state) && callback.answered ==> r == StoreOutcome(exchange, false, host)
    ensures r == LoginOutcome(callback, g.state, exchange, host)
    ensures r.Success? <==> StateChecked(callback, g.state) && callback.answered && GoodReply(exchange) && CanSave(host)
    ensures r.Failure? ==> host.files == old(host.files)
    ensures OnlyAt(host.trace[|old(host.trace)|..], g.url, CallbackPort, TokenEndpoint)
    ensures r.Success? ==>
              Load(host) == Success(old(LoadOrEmpty(host)).(soundcloud := Some(TokenInfoOf(exchange.parsed.value, now))))
  {
    var code := AwaitCode(host, g, callback);
    BrowserTrace(old(host.trace), host.trace, g.url, CallbackPort, TokenEndpoint,
                 if callback.BindFailed? then 1 else if code.Success? then 3 else 2);
    if code.Failure? {
      return Failure(code.error);
    }
    ghost var mid := host.trace;
    ghost var posted := Posted(TokenEndpoint, ExchangeForm(creds, code.value, g.verifier));
    r := ExchangeAndStore(host, creds, code.value, g.verifier, exchange, now);
    OnlyAtThen(old(host.trace), mid, host.trace, g.url, CallbackPort, TokenEndpoint);
    FourEffects(old(host.trace), ShowedUrl(g.url), Listened(CallbackPort), Answered(CallbackPort), mid, posted, host.trace);
  }

  /**
   * `SoundcloudClient::authorize`: draw the verifier and the state, then
   * log in with them.
   */
  method Authorize(host: Host, creds: Credentials, random: VerifierBytes, draws: StateDraws,
                   sha256: seq<Byte> -> seq<Byte>, callback: Callback, exchange: HttpOutcome, now: int)
    returns (r: Result<(), AuthError>, ghost grant: Grant)
    modifies host
    ensures grant == NewGrant(creds.clientId, random, draws, sha256)
    ensures |grant.state| == 32 && |grant.verifier| == 43 && IsCodeVerifier(grant.verifier)
    ensures old(host.trace) < host.trace && host.trace[|old(host.trace)|] == ShowedUrl(grant.url)
    ensures callback.BindFailed? ==>
              r == Failure(ListenFailed(CallbackPort)) && host.trace == old(host.trace) + [ShowedUrl(grant.url)]
    // the CSRF check: no answer to the browser, no token request and no write for a foreign state
    ensures !StateChecked(callback, grant.state) ==>
              r.Failure? && Harmless(host.trace[|old(host.trace)|..])
              && Answered(CallbackPort) !in host.trace[|old(host.trace)|..]
    ensures callback.Line? && ExtractCodeAndState(callback.line).Success?
            && ExtractCodeAndState(callback.line).value.1 != grant.state ==>
              r == Failure(StateMismatch)
    ensures StateChecked(callback, grant.state) && callback.answered ==>
              |host.trace| >= |old(host.trace)| + 4
              && host.trace[..|old(host.trace)| + 4]
                 == old(host.trace) + [ShowedUrl(grant.url), Listened(CallbackPort), Answered(CallbackPort),
                    Posted(TokenEndpoint, ExchangeForm(creds, CheckCallback(callback.line, grant.state).value, grant.verifier))]
    // past the state check and the answer, the exchange and the save decide
    ensures StateChecked(callback, grant.state) && callback.answered ==> r == StoreOutcome(exchange, false, host)
    ensures r == LoginOutcome(callback, grant.state, exchange, host)
    ensures r.Success? <==> StateChecked(callback, grant.state) && callback.answered && GoodReply(exchange) && CanSave(host)
    ensures r.Failure? ==> host.files == old(host.files)
    ensures OnlyAt(host.trace[|old(host.trace)|..], grant.url, CallbackPort, TokenEndpoint)
    ensures r.Success? ==>
              Load(host) == Success(old(LoadOrEmpty(host)).(soundcloud := Some(TokenInfoOf(exchange.parsed.value, now))))
  {
    var g := NewGrant(creds.clientId, random, draws, sha256);
    grant := g;
    r := AuthorizeWith(host, creds, g, callback, exchange, now);
  }

  // ---------------------------------------------------------------------
  // The client: refresh and the upload preamble
  // ---------------------------------------------------------------------

  /**
   * The refresh grant's form (section 6 of RFC 6749), built by successive
   * insertions.
   */
  function RefreshForm(creds: Credentials, refreshToken: string): (form: map<string, string>)
    ensures form.Keys == {"grant_type", "client_id", "client_secret", "refresh_token"}
    ensures form["grant_type"] == "refresh_token" && form["refresh_token"] == refreshToken
    ensures form["client_id"] == creds.clientId && form["client_secret"] == creds.clientSecret
  {
    map[]["grant_type" := "refresh_token"]["client_id" := creds.clientId]
      ["client_secret" := creds.clientSecret]["refresh_token" := refreshToken]
  }

  /** What a login from scratch needs besides the credentials and SHA-256. */
  datatype Login = Login(random: VerifierBytes, draws: StateDraws, callback: Callback, exchange: HttpOutcome)

  class SoundcloudClient {
    const credentials: Credentials
    /** `token_storage`, the client's copy of the stored tokens. */
    var storage: TokenStorage

    constructor (credentials: Credentials, storage: TokenStorage)
      ensures this.credentials == credentials && this.storage == storage
    {
      this.credentials := credentials;
      this.storage := storage;
    }

    /**
     * `refresh_token_if_needed`: a record that is not expired is left as
     * it is; an expired one is replaced through the refresh grant, keeping
     * the old refresh token when the response carries none. The client's
     * copy is updated before the save, so a failed save leaves the new
     * record in memory only.
     */
    method RefreshTokenIfNeeded(host: Host, now: int, outcome: HttpOutcome) returns (r: Result<(), AuthError>)
      modifies this, host
      ensures storage.mixcloud == old(storage.mixcloud)
      ensures old(host.trace) <= host.trace
      ensures forall i :: |old(host.trace)| <= i < |host.trace| ==>
                (host.trace[i].Posted? && host.trace[i].endpoint == TokenEndpoint) || host.trace[i].Wrote?
      ensures old(storage.soundcloud).None? ==>
                r == Failure(NoToken) && storage == old(storage) && host.trace == old(host.trace) && host.files == old(host.files)
      ensures old(storage.soundcloud).Some? && PlanRefresh(old(storage.soundcloud).value, now).KeepToken? ==>
                r == Success(()) && storage == old(storage) && host.trace == old(host.trace) && host.files == old(host.files)
      ensures old(storage.soundcloud).Some? && PlanRefresh(old(storage.soundcloud).value, now).CannotRefresh? ==>
                r == Failure(NoRefreshToken) && storage == old(storage) && host.trace == old(host.trace) && host.files == old(host.files)
      ensures old(storage.soundcloud).Some? && PlanRefresh(old(storage.soundcloud).value, now).UseRefreshToken? ==>
                var token := PlanRefresh(old(storage.soundcloud).value, now).token;
                && old(host.trace) + [Posted(TokenEndpoint, RefreshForm(credentials, token))] <= host.trace
                && (outcome.Reply? && IsSuccess(outcome.status) && outcome.parsed.Some?
                    ==> storage.soundcloud == Some(RefreshedInfo(outcome.parsed.value, token, now)))
                && (outcome.Reply? && IsSuccess(outcome.status) && outcome.parsed.Some? && r.Success?
                    ==> Load(host) == Success(storage))
      ensures !(outcome.Reply? && IsSuccess(outcome.status) && outcome.parsed.Some?) ==>
                storage == old(storage) && host.files == old(host.files)
      // once the refresh grant is used, the response and the save decide
      ensures old(storage.soundcloud).Some? && PlanRefresh(old(storage.soundcloud).value, now).UseRefreshToken? ==>
                r == StoreOutcome(outcome, true, host)
      // with a record, the copy's SoundCloud slot becomes the refresh-checked record and nothing else changes
      ensures old(storage.soundcloud).Some? ==>
                storage == old(storage).(soundcloud := Some(RefreshedSlot(old(storage.soundcloud).value, outcome, now)))
                && (r.Success? <==> RefreshCheck(old(storage.soundcloud).value, outcome, host, now).Success?)
                && (r.Failure? ==> r.error == RefreshCheck(old(storage.soundcloud).value, outcome, host, now).error)
      ensures r.Success? ==> storage.soundcloud.Some?
      ensures r.Success? ==>
                (storage.soundcloud == old(storage.soundcloud) && !IsExpired(storage.soundcloud.value, now))
                || (storage.soundcloud.value.createdAt == now && storage.soundcloud.value.refreshToken.Some?)
    {
      if storage.soundcloud.None? {
        return Failure(NoToken);
      }
      var info := storage.soundcloud.value;
      match PlanRefresh(info, now)
      case KeepToken =>
        r := Success(());
      case CannotRefresh =>
        r := Failure(NoRefreshToken);
      case UseRefreshToken(token) =>
        var response := PostForm(host, TokenEndpoint, RefreshForm(credentials, token), outcome, true);
        if response.Failure? {
          return Failure(response.error);
        }
        storage := storage.(soundcloud := Some(RefreshedInfo(response.value, token, now)));
        var saved := Save(host, storage);
        if saved.Failure? {
          return Failure(Storage(saved.error));
        }
        r := Success(());
    }

    /**
     * The start of `upload`: authorize from scratch only when there is no
     * SoundCloud record (and then take the stored tokens as the client's
     * copy), and always run the refresh check before the token is used.
     */
    method PrepareUpload(host: Host, login: Login, sha256: seq<Byte> -> seq<Byte>, refresh: HttpOutcome, now: int)
      returns (r: Result<TokenInfo, AuthError>)
      modifies this, host
      ensures old(host.trace) <= host.trace
      ensures old(storage.soundcloud).Some? ==>
                forall i :: |old(host.trace)| <= i < |host.trace| ==> !host.trace[i].ShowedUrl?
      ensures old(storage.soundcloud).None? ==>
                |host.trace| > |old(host.trace)|
                && host.trace[|old(host.trace)|]
                   == ShowedUrl(NewGrant(credentials.clientId, login.random, login.draws, sha256).url)
      ensures r.Success? ==> storage.soundcloud == Some(r.value)
      ensures r.Success? ==> !IsExpired(r.value, now) || r.value.createdAt == now
      // a stored record that is still good is used as it is, with no request and no write
      ensures old(storage.soundcloud).Some? && !IsExpired(old(storage.soundcloud).value, now) ==>
                r == Success(old(storage.soundcloud).value) && storage == old(storage)
                && host.trace == old(host.trace) && host.files == old(host.files)
      ensures old(storage.soundcloud).Some? && PlanRefresh(old(storage.soundcloud).value, now).CannotRefresh? ==>
                r == Failure(NoRefreshToken) && host.trace == old(host.trace) && host.files == old(host.files)
      ensures old(storage.soundcloud).Some? && PlanRefresh(old(storage.soundcloud).value, now).UseRefreshToken? ==>
                (r.Success? <==> GoodReply(refresh) && CanSave(host))
                && (r.Success? ==>
                      r.value == RefreshedInfo(refresh.parsed.value, PlanRefresh(old(storage.soundcloud).value, now).token, now))
      // without a record, the login decides, and a fresh record that is still good is the one used
      ensures old(storage.soundcloud).None? && r.Success? ==>
                var g := NewGrant(credentials.clientId, login.random, login.draws, sha256);
                StateChecked(login.callback, g.state) && login.callback.answered && GoodReply(login.exchange) && CanSave(host)
      ensures old(storage.soundcloud).None?
              && StateChecked(login.callback, NewGrant(credentials.clientId, login.random, login.draws, sha256).state)
              && login.callback.answered && GoodReply(login.exchange) && CanSave(host)
              && !IsExpired(TokenInfoOf(login.exchange.parsed.value, now), now) ==>
                r == Success(TokenInfoOf(login.exchange.parsed.value, now))
      // with a record, the refresh check decides the result and the slot, and the Mixcloud slot is kept
      ensures old(storage.soundcloud).Some? ==>
                r == RefreshCheck(old(storage.soundcloud).value, refresh, host, now)
                && storage == old(storage).(soundcloud := Some(RefreshedSlot(old(storage.soundcloud).value, refresh, now)))
      // without one, a failed login is returned with the copy and the files untouched; after a good
      // login the copy is the reloaded file, and the new record goes through the refresh check at once
      ensures old(storage.soundcloud).None? ==>
                var outcome := LoginOutcome(login.callback, NewGrant(credentials.clientId, login.random, login.draws, sha256).state,
                                            login.exchange, host);
                && (outcome.Failure? ==> r == Failure(outcome.error) && storage == old(storage) && host.files == old(host.files))
                && (outcome.Success? ==>
                      var t := TokenInfoOf(login.exchange.parsed.value, now);
                      r == RefreshCheck(t, refresh, host, now)
                      && storage == old(LoadOrEmpty(host)).(soundcloud := Some(RefreshedSlot(t, refresh, now))))
    {
      if storage.soundcloud.None? {
        var authorized, _ := Authorize(host, credentials, login.random, login.draws, sha256, login.callback, login.exchange, now);
        if authorized.Failure? {
          return Failure(authorized.error);
        }
        // the reload cannot fail right after a successful save
        storage := Load(host).value;
        assert storage.soundcloud.Some? && storage.soundcloud.value.createdAt == now;
      }
      var refreshed := RefreshTokenIfNeeded(host, now, refresh);
      if refreshed.Failure? {
        return Failure(refreshed.error);
      }
      r := Success(storage.soundcloud.value);
    }
  }
}
