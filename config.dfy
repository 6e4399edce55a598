/**
 * The token record, the two-slot token storage and where it lives on disk
 * (src/config.rs). Time is integer seconds since the Unix epoch, passed in
 * as `now` wherever the source reads the clock.
 *
 * The machine the program runs on is a `Host`: the two environment
 * variables the path rule reads, the files it can see, and a log of the
 * outward actions the OAuth flows take (URLs shown, ports bound, forms
 * posted, token files written), so that a flow's contract can say what it
 * did and in which order, and what it did not do.
 */
module Config {
  import opened Wrappers
  import opened Text
  import opened UrlQuery

  /** `Duration::minutes(5)`: a token counts as expired this long before its deadline. */
  const ExpiryBuffer: int := 300

  /** `TokenInfo`: what one successful exchange or refresh left behind. */
  datatype TokenInfo = TokenInfo(
    accessToken: string,
    refreshToken: Option<string>,
    createdAt: int,           // seconds since the epoch
    expiresIn: Option<int>)   // lifetime in seconds, if the provider said

  /** `TokenInfo::new`: a record for the given tokens, created at `now`. */
  function NewTokenInfo(accessToken: string, refreshToken: Option<string>, expiresIn: Option<int>, now: int): (t: TokenInfo)
    ensures t.accessToken == accessToken && t.refreshToken == refreshToken && t.expiresIn == expiresIn
    ensures t.createdAt == now
    ensures TimeUntilExpiry(t, now) == (match expiresIn case None => None case Some(e) => Some(if e > 0 then e else 0))
    ensures IsExpired(t, now) <==> (expiresIn.Some? && expiresIn.value <= ExpiryBuffer)
  {
    TokenInfo(accessToken, refreshToken, now, expiresIn)
  }

  /**
   * `TokenInfo::is_expired`: the deadline `createdAt + expiresIn`, less the
   * five-minute buffer, has been reached. A record without a lifetime
   * never expires.
   */
  predicate IsExpired(t: TokenInfo, now: int)
    ensures IsExpired(t, now) <==> t.expiresIn.Some? && now + ExpiryBuffer >= t.createdAt + t.expiresIn.value
  {
    match t.expiresIn
    case None => false
    case Some(e) => now >= t.createdAt + e - ExpiryBuffer
  }

  /**
   * `TokenInfo::time_until_expiry`: the seconds left until the deadline,
   * clamped at zero; nothing when the lifetime is unknown.
   */
  function TimeUntilExpiry(t: TokenInfo, now: int): (r: Option<int>)
    ensures r.None? <==> t.expiresIn.None?
    ensures r.Some? ==> r.value >= 0
    ensures r.Some? ==> (r.value == 0 <==> now >= t.createdAt + t.expiresIn.value)
    ensures r.Some? && r.value > 0 ==> now + r.value == t.createdAt + t.expiresIn.value
  {
    match t.expiresIn
    case None => None
    case Some(e) =>
      var remaining := t.createdAt + e - now;
      if remaining > 0 then Some(remaining) else Some(0)
  }

  /** A record without a lifetime is never expired. */
  lemma NeverExpiresWithoutLifetime(t: TokenInfo, now: int)
    requires t.expiresIn.None?
    ensures !IsExpired(t, now)
  {
  }

  /** Expired exactly when at most five minutes remain (the two views of the clock agree). */
  lemma ExpiredIffWithinBuffer(t: TokenInfo, now: int)
    ensures IsExpired(t, now) <==> (TimeUntilExpiry(t, now).Some? && TimeUntilExpiry(t, now).value <= ExpiryBuffer)
  {
  }

  /** Once expired, a record stays expired. */
  lemma ExpiryIsMonotone(t: TokenInfo, now: int, later: int)
    requires now <= later
    requires IsExpired(t, now)
    ensures IsExpired(t, later)
  {
  }

  /** The buffer boundary for a one-hour token: fine at 50 minutes, expired at 55. */
  lemma OneHourTokenBoundary(t: TokenInfo)
    requires t.expiresIn == Some(3600)
    ensures !IsExpired(t, t.createdAt + 3000)
    ensures IsExpired(t, t.createdAt + 3300)
    ensures !IsExpired(t, t.createdAt + 3299)
  {
  }

  /** `TokenStorage`: at most one record per provider. */
  datatype TokenStorage = TokenStorage(mixcloud: Option<TokenInfo>, soundcloud: Option<TokenInfo>)

  /** The storage with neither slot filled. */
  const EmptyStorage := TokenStorage(None, None)

  /**
   * `TokenStorage::set_mixcloud_tokens`: fills the Mixcloud slot; the
   * SoundCloud slot is left as it was, and the getter then returns the
   * record just set.
   */
  function SetMixcloudTokens(s: TokenStorage, t: TokenInfo): (r: TokenStorage)
    ensures r.mixcloud == Some(t) && r.soundcloud == s.soundcloud
    ensures GetMixcloudToken(r) == Success(t)
  {
    s.(mixcloud := Some(t))
  }

  datatype ConfigError =
    | NoHomeDirectory        // neither XDG_CONFIG_HOME nor a home directory
    | ReadFailed             // the token file exists but cannot be read
    | ParseFailed            // the token file is not a valid token document
    | WriteFailed            // the directory or the file cannot be written
    | NotAuthorizedMixcloud  // `get_mixcloud_token` on an empty Mixcloud slot

  /** `TokenStorage::get_mixcloud_token`: the Mixcloud record, an error exactly when there is none. */
  function GetMixcloudToken(s: TokenStorage): (r: Result<TokenInfo, ConfigError>)
    ensures r.Failure? <==> s.mixcloud.None?
    ensures r.Failure? ==> r.error == NotAuthorizedMixcloud
    ensures r.Success? ==> s.mixcloud == Some(r.value)
  {
    match s.mixcloud
    case None => Failure(NotAuthorizedMixcloud)
    case Some(t) => Success(t)
  }

  // ---------------------------------------------------------------------
  // The path rule (`TokenStorage::token_path`)
  // ---------------------------------------------------------------------

  /**
   * `PathBuf::join` with a relative component on Unix: the component goes
   * after a `/`, which is added unless the base is empty or already ends
   * with one.
   */
  function JoinPath(base: string, component: string): (r: string)
    ensures StartsWith(r, base) && EndsWith(r, component)
    ensures base != [] && base[|base| - 1] != '/' ==> r == base + "/" + component
    ensures (base == [] || base[|base| - 1] == '/') ==> r == base + component
  {
    if base != [] && base[|base| - 1] != '/' then base + "/" + component else base + component
  }

  /** The directory below which the token file lives. */
  function ConfigDir(xdgConfigHome: Option<string>, home: Option<string>): Option<string> {
    match xdgConfigHome
    case Some(x) => Some(x)
    case None =>
      match home
      case Some(h) => Some(JoinPath(h, ".config"))
      case None => None
  }

  /**
   * `TokenStorage::token_path`: `dj-uploader/tokens.json` below
   * `$XDG_CONFIG_HOME` when that is set (`xdgConfigHome` is `Some` when the
   * variable is set to valid Unicode), otherwise below `<home>/.config`;
   * an error when there is neither.
   */
  function TokenPath(xdgConfigHome: Option<string>, home: Option<string>): (r: Result<string, ConfigError>)
    ensures r.Failure? <==> xdgConfigHome.None? && home.None?
    ensures r.Failure? ==> r.error == NoHomeDirectory
    ensures r.Success? ==> EndsWith(r.value, "dj-uploader/tokens.json")
    ensures r.Success? && xdgConfigHome.Some? ==> StartsWith(r.value, xdgConfigHome.value)
    ensures r.Success? && xdgConfigHome.None? ==> StartsWith(r.value, home.value)
  {
    match ConfigDir(xdgConfigHome, home)
    case None => Failure(NoHomeDirectory)
    case Some(dir) =>
      AppFileShape(dir);
      Success(JoinPath(JoinPath(dir, "dj-uploader"), "tokens.json"))
  }

  /** `dir.join("dj-uploader").join("tokens.json")` as one string. */
  lemma AppFileShape(dir: string)
    ensures JoinPath(JoinPath(dir, "dj-uploader"), "tokens.json")
            == (if dir != [] && dir[|dir| - 1] != '/' then dir + "/" else dir) + "dj-uploader/tokens.json"
  {
    AppFileLiterals();
    JoinTwice(dir, "dj-uploader", "tokens.json");
  }

  /** Joining a component that does not end in `/`, then another, puts one `/` between them. */
  lemma JoinTwice(dir: string, a: string, b: string)
    requires a != [] && a[|a| - 1] != '/'
    ensures JoinPath(JoinPath(dir, a), b) == (if dir != [] && dir[|dir| - 1] != '/' then dir + "/" else dir) + (a + "/" + b)
  {
    var app := JoinPath(dir, a);
    var tail := a + "/" + b;
    if dir != [] && dir[|dir| - 1] != '/' {
      assert app == (dir + "/") + a;
      assert app[|app| - 1] == a[|a| - 1];
      assert JoinPath(app, b) == ((dir + "/") + a) + "/" + b;
      assert ((dir + "/") + a) + "/" + b == (dir + "/") + tail;
    } else {
      assert app == dir + a;
      assert app[|app| - 1] == a[|a| - 1];
      assert JoinPath(app, b) == (dir + a) + "/" + b;
      assert (dir + a) + "/" + b == dir + tail;
    }
  }

  lemma AppFileLiterals()
    ensures "dj-uploader" != [] && "dj-uploader"[|"dj-uploader"| - 1] != '/'
    ensures "dj-uploader" + "/" + "tokens.json" == "dj-uploader/tokens.json"
  {
  }

  /** With a plain configuration root the path is the root, then `/dj-uploader/tokens.json`. */
  lemma TokenPathUnderXdg(x: string, home: Option<string>)
    requires x != [] && x[|x| - 1] != '/'
    ensures TokenPath(Some(x), home) == Success(x + "/" + "dj-uploader/tokens.json")
  {
    AppFileShape(x);
  }

  /** Without `XDG_CONFIG_HOME` the file goes to `<home>/.config/dj-uploader/tokens.json`. */
  lemma TokenPathUnderHome(h: string)
    requires h != [] && h[|h| - 1] != '/'
    ensures TokenPath(None, Some(h)) == Success(h + "/" + ".config" + "/" + "dj-uploader/tokens.json")
  {
    var dir := JoinPath(h, ".config");
    assert dir == h + "/" + ".config" && dir[|dir| - 1] == 'g';
    AppFileShape(dir);
  }

  // ---------------------------------------------------------------------
  // The machine: environment, files, and what the flows do to the outside
  // ---------------------------------------------------------------------

  /** What a file at the token path holds. */
  datatype FileContent =
    | TokenDocument(storage: TokenStorage)   // a JSON document serde reads back as this storage
    | Malformed                              // readable, but not a token document
    | Unreadable                             // present, but reading it fails

  /** An outward action of the OAuth flows. */
  datatype Effect =
    | ShowedUrl(url: Url)                           // the authorize URL printed and handed to the browser
    | Listened(port: nat)                           // the callback listener bound its port
    | Answered(port: nat)                           // the success page sent back to the browser
    | Posted(endpoint: string, form: map<string, string>)  // a form POSTed to a token endpoint
    | Wrote(path: string, storage: TokenStorage)    // the token file (over)written

  class Host {
    const xdgConfigHome: Option<string>
    const home: Option<string>
    /** Whether creating the directory and writing the token file succeed. */
    const writable: bool
    var files: map<string, FileContent>
    ghost var trace: seq<Effect>

    constructor (xdgConfigHome: Option<string>, home: Option<string>, writable: bool, files: map<string, FileContent>)
      ensures this.xdgConfigHome == xdgConfigHome && this.home == home && this.writable == writable
      ensures this.files == files && trace == []
    {
      this.xdgConfigHome := xdgConfigHome;
      this.home := home;
      this.writable := writable;
      this.files := files;
      trace := [];
    }
  }

  /**
   * `TokenStorage::load`: an absent file means empty storage; a present
   * file yields the storage it holds, or an error when it cannot be read
   * or parsed.
   */
  function Load(host: Host): (r: Result<TokenStorage, ConfigError>)
    reads host`files
    ensures TokenPath(host.xdgConfigHome, host.home).Failure? ==> r == Failure(NoHomeDirectory)
    ensures (TokenPath(host.xdgConfigHome, host.home).Success? &&
             TokenPath(host.xdgConfigHome, host.home).value !in host.files) ==> r == Success(EmptyStorage)
    ensures r.Success? ==> TokenPath(host.xdgConfigHome, host.home).Success?
    ensures (r.Success? && r.value != EmptyStorage) ==> TokenPath(host.xdgConfigHome, host.home).value in host.files
  {
    match TokenPath(host.xdgConfigHome, host.home)
    case Failure(e) => Failure(e)
    case Success(path) =>
      if path !in host.files then Success(EmptyStorage)
      else match host.files[path]
        case TokenDocument(s) => Success(s)
        case Malformed => Failure(ParseFailed)
        case Unreadable => Failure(ReadFailed)
  }

  /** Whether `save` succeeds on this host: there is a token path and it can be written. */
  predicate CanSave(host: Host) {
    TokenPath(host.xdgConfigHome, host.home).Success? && host.writable
  }

  /** The error `save` reports when it cannot succeed: no path, else the failed write. */
  function SaveError(host: Host): (e: ConfigError)
    ensures e == NoHomeDirectory <==> TokenPath(host.xdgConfigHome, host.home).Failure?
    ensures e == WriteFailed <==> TokenPath(host.xdgConfigHome, host.home).Success?
  {
    if TokenPath(host.xdgConfigHome, host.home).Failure? then NoHomeDirectory else WriteFailed
  }

  /**
   * `TokenStorage::save`: overwrites the whole token file with `s`; on
   * success loading gives `s` back. On failure nothing changes.
   */
  method Save(host: Host, s: TokenStorage) returns (r: Result<(), ConfigError>)
    modifies host
    ensures r.Success? <==> CanSave(host)
    ensures r.Failure? ==> r.error == SaveError(host)
    ensures r.Success? ==>
      var path := TokenPath(host.xdgConfigHome, host.home).value;
      && host.files == old(host.files)[path := TokenDocument(s)]
      && host.trace == old(host.trace) + [Wrote(path, s)]
    ensures r.Success? ==> Load(host) == Success(s)
    ensures r.Failure? ==> host.files == old(host.files) && host.trace == old(host.trace)
  {
    var path := TokenPath(host.xdgConfigHome, host.home);
    if path.Failure? {
      return Failure(path.error);
    }
    if !host.writable {
      return Failure(WriteFailed);
    }
    host.files := host.files[path.value := TokenDocument(s)];
    host.trace := host.trace + [Wrote(path.value, s)];
    r := Success(());
  }
}
