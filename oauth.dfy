/**
 * What the two OAuth 2.0 clients (src/platforms/soundcloud.rs and
 * src/platforms/mixcloud.rs) share: client credentials, the outcomes of the
 * network steps (passed in, since nothing here talks to a network), the
 * error each abort point produces, the callback request-line parser, and
 * the POST to a token endpoint as an effect on the host.
 */
module OAuth {
  import opened Wrappers
  import opened Text
  import opened UrlQuery
  import opened Config

  /** `SoundcloudCredentials` / `MixcloudCredentials`. */
  datatype Credentials = Credentials(clientId: string, clientSecret: string)

  /** The JSON body of a token-endpoint answer (`TokenResponse`, sections 5.1 and 6 of RFC 6749). */
  datatype TokenResponse = TokenResponse(accessToken: string, refreshToken: Option<string>, expiresIn: Option<int>)

  /** How a POST to a token endpoint ended. */
  datatype HttpOutcome =
    | SendFailed                   // `send()` returned an error: no status at all
    | Reply(status: nat, body: string, parsed: Option<TokenResponse>)
      // `parsed` is the body read as a `TokenResponse`, when it is one

  /** `StatusCode::is_success`: a 2xx status. */
  predicate IsSuccess(status: nat) {
    200 <= status <= 299
  }

  /** How the local callback listener fared. */
  datatype Callback =
    | BindFailed                       // `TcpListener::bind` failed (port in use)
    | AcceptFailed                     // `accept` failed
    | NoLine                           // the connection closed before a first line
    | UnreadableLine                   // reading the first line failed
    | Line(line: string, answered: bool)
      // the first line of the request, and whether writing the HTML answer back succeeded

  /** Each way a flow can abort, in the order the flows can reach them. */
  datatype AuthError =
    | ListenFailed(port: nat)
    | AcceptError
    | ReadRequestFailed
    | EmptyRequest
    | InvalidRequestFormat
    | CodeNotFound
    | StateNotFound
    | StateMismatch
    | AnswerFailed
    | ExchangeSendFailed
    | ExchangeFailed(status: nat, body: string)
    | ExchangeParseFailed
    | NoToken
    | NoRefreshToken
    | RefreshSendFailed
    | RefreshFailed(status: nat, body: string)
    | RefreshParseFailed
    | Storage(error: ConfigError)

  /**
   * The first line the listener received, or the error the flow stops
   * with; binding is to `port`.
   */
  function ReceivedLine(callback: Callback, port: nat): (r: Result<string, AuthError>)
    ensures r.Success? <==> callback.Line?
    ensures r.Success? ==> r.value == callback.line
    ensures callback.BindFailed? ==> r == Failure(ListenFailed(port))
  {
    match callback
    case BindFailed => Failure(ListenFailed(port))
    case AcceptFailed => Failure(AcceptError)
    case NoLine => Failure(ReadRequestFailed)
    case UnreadableLine => Failure(EmptyRequest)
    case Line(line, _) => Success(line)
  }

  /**
   * The query pairs of a callback request line (`GET <target> HTTP/1.1`):
   * the second whitespace-separated token is the request target, and the
   * pairs are those of its query, as `Url::query_pairs` gives them for
   * `http://localhost<target>`. Fewer than two tokens is an error.
   */
  function RequestQuery(line: string): (r: Result<seq<Pair>, AuthError>)
    ensures r.Failure? <==> |SplitWhitespace(line)| < 2
    ensures r.Failure? ==> r.error == InvalidRequestFormat
    ensures r.Success? ==> r.value == Parse(QueryOf(SplitWhitespace(line)[1]))
  {
    var parts := SplitWhitespace(line);
    if |parts| < 2 then Failure(InvalidRequestFormat)
    else
      LocalhostQuery(parts[1]);
      Success(Parse(QueryOf(parts[1])))
  }

  /** Prefixing the target with `http://localhost` leaves its query alone. */
  lemma LocalhostQuery(target: string)
    ensures QueryOf("http://localhost" + target) == QueryOf(target)
  {
    var prefix := "http://localhost";
    assert '?' !in prefix && '#' !in prefix;
    QueryOfAfter(prefix, target);
  }

  /** An HTTP request line: method, target and version separated by single spaces. */
  function RequestLine(verb: string, target: string, version: string): string {
    verb + [' '] + target + [' '] + version
  }

  /** The request line a browser sends when redirected to `/callback` with these query pairs. */
  function CallbackRequestLine(pairs: seq<Pair>): string {
    RequestLine("GET", "/callback" + "?" + Serialize(pairs), "HTTP/1.1")
  }

  /** A word and the single space after it make one token; splitting goes on after the space. */
  lemma SplitWordSpace(w: string, rest: string)
    requires w != [] && NoWhitespace(w)
    ensures SplitWhitespace(w + [' '] + rest) == [w] + SplitWhitespace(rest)
  {
    var after := [' '] + rest;
    assert w + [' '] + rest == w + after;
    SplitWhitespaceWord(w, after);
    SplitWhitespaceSkip(' ', rest);
  }

  /** A request line `<method> <target> <version>` splits into its three words. */
  lemma SplitRequestLine(verb: string, target: string, version: string)
    requires verb != [] && NoWhitespace(verb)
    requires target != [] && NoWhitespace(target)
    requires version != [] && NoWhitespace(version)
    ensures SplitWhitespace(RequestLine(verb, target, version)) == [verb, target, version]
  {
    var tail := target + [' '] + version;
    assert verb + [' '] + target + [' '] + version == verb + [' '] + tail;
    SplitWordSpace(verb, tail);
    SplitWordSpace(target, version);
    SplitWhitespaceWord(version, []);
    assert version + [] == version;
  }

  /** Joining strings without whitespace gives one without whitespace. */
  lemma NoWhitespaceConcat(a: string, b: string)
    requires NoWhitespace(a) && NoWhitespace(b)
    ensures NoWhitespace(a + b)
  {
    forall i | 0 <= i < |a + b| ensures !IsWhitespace((a + b)[i]) {
      if i >= |a| { assert (a + b)[i] == b[i - |a|]; }
    }
  }

  /** The pairs of a well-formed request line are those of its target's query. */
  lemma RequestQueryOfLine(verb: string, target: string, version: string)
    requires verb != [] && NoWhitespace(verb)
    requires target != [] && NoWhitespace(target)
    requires version != [] && NoWhitespace(version)
    ensures RequestQuery(RequestLine(verb, target, version)) == Success(Parse(QueryOf(target)))
  {
    SplitRequestLine(verb, target, version);
  }

  /** The callback request line's target is `/callback?` and the serialized pairs. */
  lemma CallbackTarget(pairs: seq<Pair>)
    ensures RequestQuery(CallbackRequestLine(pairs)) == Success(Parse(QueryOf("/callback" + "?" + Serialize(pairs))))
  {
    var q := Serialize(pairs);
    SerializeIsPlain(pairs);
    CallbackWordsPlain();
    NoWhitespaceConcat("/callback" + "?", q);
    RequestQueryOfLine("GET", "/callback" + "?" + q, "HTTP/1.1");
  }

  lemma CallbackWordsPlain()
    ensures NoWhitespace("/callback" + "?") && NoWhitespace("GET") && NoWhitespace("HTTP/1.1")
  {
  }

  lemma CallbackPathPlain()
    ensures '?' !in "/callback" && '#' !in "/callback"
  {
  }

  /** The query of the callback target is the serialized pairs. */
  lemma CallbackQuery(pairs: seq<Pair>)
    ensures QueryOf("/callback" + "?" + Serialize(pairs)) == Serialize(pairs)
  {
    SerializeIsPlain(pairs);
    CallbackPathPlain();
    QueryOfJoined("/callback", Serialize(pairs));
  }

  /** Reading a callback request line gives back exactly the pairs the provider put in the redirect. */
  lemma RequestQueryOfCallback(pairs: seq<Pair>)
    requires forall i :: 0 <= i < |pairs| ==> IsAscii(pairs[i].0) && IsAscii(pairs[i].1)
    ensures RequestQuery(CallbackRequestLine(pairs)) == Success(pairs)
  {
    CallbackTarget(pairs);
    CallbackQuery(pairs);
    ParseSerialize(pairs);
  }

  /** A 2xx answer whose body reads as a token response. */
  predicate GoodReply(outcome: HttpOutcome) {
    outcome.Reply? && IsSuccess(outcome.status) && outcome.parsed.Some?
  }

  /**
   * How a token request followed by a save of the new record ends: the
   * send error, the status error with status and body, the parse error,
   * the save error, or success; `refreshing` picks the refresh grant's
   * errors over the code exchange's.
   */
  function StoreOutcome(outcome: HttpOutcome, refreshing: bool, host: Host): (r: Result<(), AuthError>)
    ensures r.Success? <==> GoodReply(outcome) && CanSave(host)
    ensures GoodReply(outcome) && !CanSave(host) ==> r == Failure(Storage(SaveError(host)))
  {
    match outcome
    case SendFailed => Failure(if refreshing then RefreshSendFailed else ExchangeSendFailed)
    case Reply(status, body, parsed) =>
      if !IsSuccess(status) then Failure(if refreshing then RefreshFailed(status, body) else ExchangeFailed(status, body))
      else if parsed.None? then Failure(if refreshing then RefreshParseFailed else ExchangeParseFailed)
      else if !CanSave(host) then Failure(Storage(SaveError(host)))
      else Success(())
  }

  /**
   * Every effect belongs to one provider: the URL shown is `url`, the port
   * bound and answered on is `port`, and forms go to `endpoint`.
   */
  ghost predicate OnlyAt(effects: seq<Effect>, url: Url, port: nat, endpoint: string) {
    forall i :: 0 <= i < |effects| ==>
      match effects[i]
      case ShowedUrl(u) => u == url
      case Listened(p) => p == port
      case Answered(p) => p == port
      case Posted(e, _) => e == endpoint
      case Wrote(_, _) => true
  }

  /** Effects that are only posts to `endpoint` and writes: what a token request and its save leave. */
  ghost predicate TokenTraffic(effects: seq<Effect>, endpoint: string) {
    forall i :: 0 <= i < |effects| ==> (effects[i].Posted? && effects[i].endpoint == endpoint) || effects[i].Wrote?
  }

  /** The browser half of a login: the URL shown, then the listener, then the answer, as far as it gets. */
  function BrowserEffects(url: Url, port: nat): (effects: seq<Effect>)
    ensures |effects| == 3 && effects[0].ShowedUrl?
  {
    [ShowedUrl(url), Listened(port), Answered(port)]
  }

  /**
   * A trace that gained the first `n` browser effects: it starts with the
   * URL, and what it gained belongs to that URL and port; short of the
   * answer, nothing was posted, written or answered.
   */
  lemma BrowserTrace(before: seq<Effect>, after: seq<Effect>, url: Url, port: nat, endpoint: string, n: nat)
    requires 1 <= n <= 3
    requires after == before + (if n == 1 then [ShowedUrl(url)]
                                else if n == 2 then [ShowedUrl(url), Listened(port)]
                                else BrowserEffects(url, port))
    ensures before < after && after[|before|] == ShowedUrl(url)
    ensures OnlyAt(after[|before|..], url, port, endpoint)
    ensures n < 3 ==> Harmless(after[|before|..]) && Answered(port) !in after[|before|..]
  {
    assert after[|before|..] == after[|before|..|after|];
  }

  /**
   * A token request and, when its answer was saved, the write: the trace
   * gained the post and at most one write after it.
   */
  lemma TokenRequestTrace(before: seq<Effect>, after: seq<Effect>, posted: Effect, endpoint: string, written: seq<Effect>)
    requires posted.Posted? && posted.endpoint == endpoint
    requires |written| <= 1 && forall e | e in written :: e.Wrote?
    requires after == before + [posted] + written
    ensures before < after && |after| <= |before| + 2
    ensures after[..|before| + 1] == before + [posted]
    ensures TokenTraffic(after[|before|..], endpoint)
  {
    assert after[|before|..] == [posted] + written;
  }

  /** A provider's effects followed by posts to its endpoint and writes are still that provider's. */
  lemma OnlyAtThen(before: seq<Effect>, mid: seq<Effect>, after: seq<Effect>, url: Url, port: nat, endpoint: string)
    requires before <= mid <= after
    requires OnlyAt(mid[|before|..], url, port, endpoint)
    requires TokenTraffic(after[|mid|..], endpoint)
    ensures OnlyAt(after[|before|..], url, port, endpoint)
  {
    forall i | 0 <= i < |after| - |before|
      ensures after[|before|..][i] == (if i < |mid| - |before| then mid[|before|..][i] else after[|mid|..][i - (|mid| - |before|)])
    {
      if i < |mid| - |before| {
        assert after[|before| + i] == mid[|before| + i];
      }
    }
  }

  /** Nothing was posted and nothing was written. */
  ghost predicate Harmless(effects: seq<Effect>) {
    forall i :: 0 <= i < |effects| ==> !effects[i].Posted? && !effects[i].Wrote?
  }

  /** Three effects and then, in a later call, a fourth: the trace starts with all four. */
  lemma FourEffects<T>(before: seq<T>, a: T, b: T, c: T, mid: seq<T>, d: T, later: seq<T>)
    requires mid == before + [a, b, c]
    requires |mid| + 1 <= |later| && later[..|mid| + 1] == mid + [d]
    ensures before < later && later[|before|] == a
    ensures |before| + 4 <= |later| && later[..|before| + 4] == before + [a, b, c, d]
  {
    assert later[..|before|] == later[..|mid| + 1][..|before|];
    assert mid + [d] == before + [a, b, c, d];
  }

  /**
   * `client.post(endpoint).form(&params).send()`, followed by the status
   * check and the body parse: the form goes out (an effect on the host),
   * and the answer is the token response only for a 2xx status with a
   * parsable body.
   */
  method PostForm(host: Host, endpoint: string, form: map<string, string>, outcome: HttpOutcome, refreshing: bool)
    returns (r: Result<TokenResponse, AuthError>)
    modifies host
    ensures host.trace == old(host.trace) + [Posted(endpoint, form)]
    ensures host.files == old(host.files)
    ensures r.Success? <==> GoodReply(outcome)
    ensures r.Success? ==> r.value == outcome.parsed.value
    ensures outcome.SendFailed? ==> r == Failure(if refreshing then RefreshSendFailed else ExchangeSendFailed)
    ensures outcome.Reply? && !IsSuccess(outcome.status) ==>
              r == Failure(if refreshing then RefreshFailed(outcome.status, outcome.body)
                           else ExchangeFailed(outcome.status, outcome.body))
    ensures outcome.Reply? && IsSuccess(outcome.status) && outcome.parsed.None? ==>
              r == Failure(if refreshing then RefreshParseFailed else ExchangeParseFailed)
  {
    host.trace := host.trace + [Posted(endpoint, form)];
    match outcome
    case SendFailed =>
      r := Failure(if refreshing then RefreshSendFailed else ExchangeSendFailed);
    case Reply(status, body, parsed) =>
      if !IsSuccess(status) {
        r := Failure(if refreshing then RefreshFailed(status, body) else ExchangeFailed(status, body));
      } else if parsed.None? {
        r := Failure(if refreshing then RefreshParseFailed else ExchangeParseFailed);
      } else {
        r := Success(parsed.value);
      }
  }

  /**
   * `TokenStorage::load().unwrap_or(TokenStorage { mixcloud: None, soundcloud: None })`:
   * the stored tokens, or empty storage when they cannot be loaded.
   */
  function LoadOrEmpty(host: Host): (s: TokenStorage)
    reads host`files
    ensures Load(host).Success? ==> s == Load(host).value
    ensures Load(host).Failure? ==> s == EmptyStorage
  {
    match Load(host)
    case Success(s) => s
    case Failure(_) => EmptyStorage
  }

  /** `TokenInfo::new` applied to a token response at time `now`. */
  function TokenInfoOf(resp: TokenResponse, now: int): (t: TokenInfo)
    ensures t.accessToken == resp.accessToken && t.refreshToken == resp.refreshToken
    ensures t.expiresIn == resp.expiresIn && t.createdAt == now
  {
    NewTokenInfo(resp.accessToken, resp.refreshToken, resp.expiresIn, now)
  }

  /**
   * The record a refresh leaves: a fresh record from the response, whose
   * refresh token is the response's when it sent one and the old one
   * otherwise.
   */
  function RefreshedInfo(resp: TokenResponse, oldRefreshToken: string, now: int): (t: TokenInfo)
    ensures t.accessToken == resp.accessToken && t.expiresIn == resp.expiresIn && t.createdAt == now
    ensures t.refreshToken.Some?
    ensures resp.refreshToken.Some? ==> t.refreshToken == resp.refreshToken
    ensures resp.refreshToken.None? ==> t.refreshToken == Some(oldRefreshToken)
  {
    NewTokenInfo(resp.accessToken, OrElse(resp.refreshToken, Some(oldRefreshToken)), resp.expiresIn, now)
  }

  /** What `refresh_token_if_needed` does with a stored record at time `now`. */
  datatype RefreshPlan = KeepToken | UseRefreshToken(token: string) | CannotRefresh

  /**
   * A record that is not expired is kept; an expired one is refreshed with
   * its refresh token, and without one it cannot be.
   */
  function PlanRefresh(t: TokenInfo, now: int): (p: RefreshPlan)
    ensures p.KeepToken? <==> !IsExpired(t, now)
    ensures p.CannotRefresh? <==> IsExpired(t, now) && t.refreshToken.None?
    ensures p.UseRefreshToken? <==> IsExpired(t, now) && t.refreshToken.Some?
    ensures p.UseRefreshToken? ==> t.refreshToken == Some(p.token)
  {
    if !IsExpired(t, now) then KeepToken
    else match t.refreshToken
      case None => CannotRefresh
      case Some(token) => UseRefreshToken(token)
  }

  /**
   * The record a slot holds after the refresh check: the refreshed record
   * when an expired record with a refresh token gets a good answer (the
   * client's copy is updated before the save), and otherwise the record
   * as it was.
   */
  function RefreshedSlot(t: TokenInfo, outcome: HttpOutcome, now: int): (s: TokenInfo)
    ensures PlanRefresh(t, now).UseRefreshToken? && GoodReply(outcome) ==>
              s == RefreshedInfo(outcome.parsed.value, t.refreshToken.value, now)
    ensures !(PlanRefresh(t, now).UseRefreshToken? && GoodReply(outcome)) ==> s == t
    ensures s != t ==> s.createdAt == now && s.refreshToken.Some?
  {
    match PlanRefresh(t, now)
    case UseRefreshToken(token) =>
      if GoodReply(outcome) then RefreshedInfo(outcome.parsed.value, token, now) else t
    case _ => t
  }

  /**
   * What the refresh check makes of a stored record: the record while it
   * is good, no refresh token for an expired record without one, and
   * otherwise the refreshed record once the answer is good and saved, or
   * the error of the request or of the save.
   */
  function RefreshCheck(t: TokenInfo, outcome: HttpOutcome, host: Host, now: int): (r: Result<TokenInfo, AuthError>)
    ensures !IsExpired(t, now) ==> r == Success(t)
    ensures IsExpired(t, now) && t.refreshToken.None? ==> r == Failure(NoRefreshToken)
    ensures IsExpired(t, now) && t.refreshToken.Some? ==>
              (r.Success? <==> GoodReply(outcome) && CanSave(host))
              && (r.Failure? ==> r.error == StoreOutcome(outcome, true, host).error)
    ensures r.Success? ==> r.value == RefreshedSlot(t, outcome, now)
    ensures r.Success? ==> !IsExpired(r.value, now) || (r.value.createdAt == now && r.value.refreshToken.Some?)
  {
    match PlanRefresh(t, now)
    case KeepToken => Success(t)
    case CannotRefresh => Failure(NoRefreshToken)
    case UseRefreshToken(_) =>
      var saved := StoreOutcome(outcome, true, host);
      if saved.Failure? then Failure(saved.error) else Success(RefreshedSlot(t, outcome, now))
  }
}
