# dj-uploader: OAuth 2.0 token handling, modelled in Dafny

dj-uploader is a desktop tool that uploads DJ mixes to Mixcloud and
SoundCloud. Before it uploads anything it must hold a valid access token
for each platform. This project models that part of the program and proves
properties of the model:

- **The token record and its storage** (`Config`, config.dfy). `TokenInfo`
  carries a five-minute expiry buffer and the time left, clamped at zero.
  `TokenStorage` has two slots, one per platform. The token file's path
  comes from `XDG_CONFIG_HOME` or the home directory. An absent file loads
  as empty storage, and saving overwrites the whole file. The machine is a
  `Host` object: the two environment inputs, the files it can see, and a
  ghost log of the outward actions of the OAuth flows (URL shown, port
  bound, browser answered, form posted, file written). With that log a
  contract can say what a flow did, in which order, and what it did not
  do.
- **What the two clients share** (`OAuth`, oauth.dfy):
  - credentials and token-endpoint outcomes;
  - the errors at each abort point;
  - the request-line parser of the local callback listener;
  - the POST to a token endpoint;
  - the refresh decision.
- **The SoundCloud client** (`Soundcloud`, soundcloud.dfy). It uses the
  authorization-code grant with PKCE S256 (RFC 7636) and a CSRF `state`
  (section 10.12 of RFC 6749). It also covers the refresh grant and the
  check that runs before every upload.
- **The Mixcloud client** (`Mixcloud`, mixcloud.dfy). It uses the plain
  authorization-code grant (section 4.1 of RFC 6749), with no `state` and
  no PKCE. It also covers the refresh grant, the pre-upload check and the
  `tags-<i>-tag` form-field names.
- **Dispatch and status** (`Platforms`, platforms.dfy). `handle_auth`
  dispatches to the chosen platform. The status report sorts each slot
  into one of three cases:
  - not authorized;
  - unknown expiry;
  - a bucket of time left, with an expiry hint.
- **The update check** (`Updater`, updater.dfy):
  - versions are compared as lists of numbers;
  - one leading `v` is stripped from the release tag;
  - the first `.dmg` asset is picked.
- **The `--tags` option** (`Tags`, tags.dfy): the value is split on `,`,
  each field is trimmed, and empty fields are dropped.
- **Supporting models of library behaviour:**
  - `Text`: `split`, `trim`, `split_whitespace`, decimal digits and UTF-8 length.
  - `UrlQuery`: `application/x-www-form-urlencoded` serialization and
    `query_pairs` parsing.
  - `Base64Url`: unpadded base64url, section 5 of RFC 4648.
  - `Wrappers`: `Option` and `Result`.

The environment is passed in as explicit inputs:

- `now` is whole seconds since the Unix epoch. One clock reading serves a
  whole call. The source reads the clock again in `TokenInfo::new`,
  `is_expired` and `time_until_expiry`, so the model takes no time to pass
  between those reads.
- The random verifier bytes and the alphanumeric draws of the state.
- SHA-256, as a function parameter.
- How the callback listener fared: a failed bind or accept, no line, or the
  request line plus whether the answer to the browser was written.
- The token endpoint's answer: send failure, or status, body and parsed
  body.
- The GitHub release reply.

The stored token map is an owned value in the source. It is a datatype
here, and the client objects hold it in a `storage` field that their
methods reassign.

Four behaviours of the code that the model keeps as they are:

- The SoundCloud code exchange also sends `grant_type=authorization_code`.
  The Mixcloud exchange sends no `grant_type`.
- The Mixcloud flow generates and checks no `state`. Any `state` in the
  redirect is ignored (`Mixcloud.ExtractIgnoresState`).
- After a successful exchange, `authorize` reloads the storage with
  `load().unwrap_or(empty)`. A token file that cannot be read or parsed is
  therefore replaced by storage that holds only the new record, and the
  other platform's record is lost (`OAuth.LoadOrEmpty`).
- During a refresh, the client's copy of the storage is updated before the
  save. A failed save returns an error but leaves the new record in
  memory.

## Model

| member | source | states |
|---|---|---|
| Config.NewTokenInfo | src/config.rs:87-98 | stores the tokens and lifetime unchanged with `createdAt = now`; a fresh record's time left is its lifetime clamped at zero, and it counts as expired at once exactly when its lifetime is at most 300 s |
| Config.IsExpired | src/config.rs:100-111 | expired exactly when there is a lifetime and `now` has reached the deadline less the five-minute buffer; a record without a lifetime is never expired |
| Config.TimeUntilExpiry | src/config.rs:114-128 | `None` exactly when there is no lifetime; otherwise never negative, zero exactly once the deadline is reached, and otherwise `now` plus the time left is the deadline |
| Config.NeverExpiresWithoutLifetime | src/config.rs:101-111 | a record with no `expires_in` is never expired |
| Config.ExpiredIffWithinBuffer | src/config.rs:101-128 | expired exactly when a time left is known and is at most the 300 s buffer |
| Config.ExpiryIsMonotone | src/config.rs:107 | once expired, expired at every later time |
| Config.OneHourTokenBoundary | src/config.rs:107 | a 3600 s token is not expired at +3000 s or +3299 s, and is expired at +3300 s |
| Config.SetMixcloudTokens | src/config.rs:186-188 | fills the Mixcloud slot with the record, leaves the SoundCloud slot unchanged, and the getter then returns the record |
| Config.GetMixcloudToken | src/config.rs:190-194 | fails, with the not-authorized error, exactly when the Mixcloud slot is empty; otherwise returns that slot's record |
| Config.JoinPath | src/config.rs:176-183 | `PathBuf::join` on Unix: exactly `base/component` when the base does not end in `/`, and `base` followed by the component when it is empty or already ends in `/`; so it starts with the base and ends with the component |
| Config.TokenPath | src/config.rs:173-184 | an error exactly when neither `XDG_CONFIG_HOME` nor a home directory exists; otherwise ends in `dj-uploader/tokens.json` and starts with `XDG_CONFIG_HOME` when it is set, else with the home directory |
| Config.AppFileShape | src/config.rs:183 | the two joins add `dj-uploader/tokens.json` after the directory, with a separating `/` when needed |
| Config.TokenPathUnderXdg | src/config.rs:175-176 | with `XDG_CONFIG_HOME = x` the path is `x/dj-uploader/tokens.json`, whatever the home directory |
| Config.TokenPathUnderHome | src/config.rs:177-180 | without it the path is `<home>/.config/dj-uploader/tokens.json` |
| Config.Host.constructor | src/config.rs:173-184 | a host with the given environment, writability and files, and an empty action log |
| Config.Load | src/config.rs:140-156 | no path is the no-home error; an absent file is empty storage; a non-empty result comes from a file that is present at the path |
| Config.Save | src/config.rs:158-171 | succeeds exactly when there is a path and the location is writable; otherwise the no-home error without a path and the write error with one; on success the file at the path is replaced, the write is logged, and loading gives the saved storage back; on failure nothing changes |
| Config.SaveError | src/config.rs:158-171 | the error of a failed save: no home directory exactly when there is no token path, the write error exactly when there is one |
| OAuth.ReceivedLine | src/platforms/soundcloud.rs:116-128 | the request line exactly when one was read; a failed bind is the listen error for the given port |
| OAuth.RequestQuery | src/platforms/soundcloud.rs:242-249 | an invalid-format error exactly when the line has fewer than two whitespace-separated words; otherwise the query pairs of the second word |
| OAuth.LocalhostQuery | src/platforms/soundcloud.rs:249 | putting `http://localhost` in front of the target leaves its query unchanged |
| OAuth.SplitRequestLine | src/platforms/soundcloud.rs:243 | `GET <target> HTTP/1.1` splits into exactly its three words |
| OAuth.RequestQueryOfLine | src/platforms/soundcloud.rs:243-249 | the pairs read from a well-formed request line are those of its target's query |
| OAuth.RequestQueryOfCallback | src/platforms/soundcloud.rs:242-263 | the request line a browser sends for a redirect to `/callback` gives back exactly the pairs the provider put in it |
| OAuth.PostForm | src/platforms/soundcloud.rs:199-212 | logs the POST of the form and writes no file; succeeds exactly on a 2xx status with a parsable body, with that body; a send failure, a non-2xx status (with status and body) or an unparsable body gives the matching exchange or refresh error |
| OAuth.StoreOutcome | src/platforms/soundcloud.rs:199-226 | how a token request and the save after it end: success exactly on a 2xx parsable answer with a writable token path; a good answer that cannot be saved is the storage error that the save gives |
| OAuth.LoadOrEmpty | src/platforms/soundcloud.rs:221-224 | the loaded storage, or empty storage when loading fails |
| OAuth.TokenInfoOf | src/platforms/soundcloud.rs:215-219 | a record with the response's tokens and lifetime, created now |
| OAuth.RefreshedInfo | src/platforms/soundcloud.rs:308-312 | a record created now with the response's access token and lifetime; its refresh token is the response's when it has one and the old one otherwise, so it is always present |
| OAuth.PlanRefresh | src/platforms/soundcloud.rs:273-278 | keep the token exactly when it is not expired; refresh with the stored refresh token exactly when it is expired and has one; otherwise the token cannot be refreshed |
| OAuth.RefreshedSlot | src/platforms/soundcloud.rs:273-315 | the record a slot holds after the refresh check: the refreshed record when an expired record with a refresh token gets a good answer, whether or not the save succeeds; otherwise the record unchanged |
| OAuth.RefreshCheck | src/platforms/soundcloud.rs:266-321 | what the refresh check makes of a record: the record itself while it is good, no refresh token for an expired record without one, else success exactly on a good, saved answer, with the refreshed record, or the request or save error |
| Base64Url.Encode | src/platforms/soundcloud.rs:44 | the output has `ceil(4n/3)` characters, all from the URL-safe alphabet |
| Base64Url.DecodeEncode | src/platforms/soundcloud.rs:44 | decoding the encoding gives the bytes back |
| Base64Url.EncodedLength32 | src/platforms/soundcloud.rs:43-44 | 32 bytes encode to 43 characters |
| Soundcloud.CodeVerifier | src/platforms/soundcloud.rs:42-46 | 32 random bytes give a 43-character verifier made of the unreserved characters that section 4.1 of RFC 7636 allows |
| Soundcloud.VerifierCarriesRandom | src/platforms/soundcloud.rs:42-46 | the random bytes can be decoded back from the verifier |
| Soundcloud.CodeChallenge | src/platforms/soundcloud.rs:49-54 | base64url text, 43 characters for a 32-byte digest |
| Soundcloud.ChallengeCarriesDigest | src/platforms/soundcloud.rs:49-54 | decoding the challenge gives SHA-256 of the verifier's bytes, and those bytes are the verifier's ASCII codes |
| Soundcloud.CsrfState | src/platforms/soundcloud.rs:89-93 | one alphanumeric ASCII character per draw |
| Soundcloud.CsrfStateInjective | src/platforms/soundcloud.rs:89-93 | different draws give different states |
| Soundcloud.NewGrant | src/platforms/soundcloud.rs:84-105 | the verifier, the challenge of that verifier, the state, and the authorize URL that carries them; 32 random bytes give a 43-character verifier, and the state has one character per draw |
| Soundcloud.AuthorizeUrl | src/platforms/soundcloud.rs:96-105 | the authorize endpoint, with neither `?` nor `#` in it, carrying the seven query pairs, so that the pairs form the whole query of the shown URL |
| Soundcloud.AuthorizeUrlQuery | src/platforms/soundcloud.rs:96-105 | reading the shown URL back gives exactly the seven pairs, in order: `client_id`, `redirect_uri`, `response_type=code`, `code_challenge`, `code_challenge_method=S256`, `state`, `scope=non-expiring` |
| Soundcloud.AuthorizeQueryValues | src/platforms/soundcloud.rs:96-105 | the provider finds the client id, the challenge, `S256` and the generated state |
| Soundcloud.ExtractCodeAndState | src/platforms/soundcloud.rs:242-264 | succeeds exactly when the line is well-formed and its query has both a `code` and a `state`, and returns the first of each |
| Soundcloud.ExtractErrors | src/platforms/soundcloud.rs:242-264 | the errors come in order: invalid format, then missing code, then missing state |
| Soundcloud.ExtractFromRedirect | src/platforms/soundcloud.rs:242-264 | a redirect with a code and a state yields exactly that code and state |
| Soundcloud.ExtractFromErrorRedirect | src/platforms/soundcloud.rs:251-255 | an error redirect (section 4.1.2.1 of RFC 6749) fails with the missing-code error |
| Soundcloud.CheckCallback | src/platforms/soundcloud.rs:131-136 | accepts exactly a well-formed callback whose state equals the generated one, and returns its code; a different state gives the state-mismatch error |
| Soundcloud.CallbackCode | src/platforms/soundcloud.rs:116-185 | succeeds exactly when a line arrived, passes the state check and was answered, with the callback's code; otherwise the listen, accept or read error, the callback check's error, or the answer error, in that order |
| Soundcloud.LoginOutcome | src/platforms/soundcloud.rs:107-240 | how a login ends: the browser half's error, or else exactly what the exchange and the save decide; success exactly on the state check, the answer, a good reply and a writable token path |
| Soundcloud.ExchangeForm | src/platforms/soundcloud.rs:191-197 | the form has exactly six keys: `grant_type=authorization_code`, the client id and secret, the redirect URI, the code and the verifier |
| Soundcloud.ExchangeProvesPossession | src/platforms/soundcloud.rs:96-105 | the challenge in the authorize URL is the challenge of the verifier sent in the exchange |
| Soundcloud.AwaitCode | src/platforms/soundcloud.rs:107-185 | ends exactly as `Soundcloud.CallbackCode` says; the URL is always shown, the listener is logged only after a good bind, and the answer only on success; no file changes |
| Soundcloud.ExchangeAndStore | src/platforms/soundcloud.rs:189-226 | posts the exchange form first and then at most one write; ends as the answer and the save decide (send, status, parse or storage error, or success); on success the stored tokens are the loaded (or empty) storage with only the SoundCloud slot replaced by the new record; on failure no file changes |
| Soundcloud.AuthorizeWith | src/platforms/soundcloud.rs:107-240 | the URL is shown first; a state that is not the generated one aborts before any POST, answer or write, with the state-mismatch error when the callback is well-formed; past the state check and the answer, the effects are shown, listened, answered, then the exchange POST carrying this grant's verifier, and the result is exactly `Soundcloud.LoginOutcome`, so the good path succeeds and every failure carries its own error; every URL, port and endpoint touched is SoundCloud's; success saves only the SoundCloud slot; a failure writes no file |
| Soundcloud.Authorize | src/platforms/soundcloud.rs:79-240 | draws a grant whose state has 32 characters and whose verifier has 43, then logs in with it as `AuthorizeWith` states |
| Soundcloud.RefreshForm | src/platforms/soundcloud.rs:280-284 | the form has exactly `grant_type=refresh_token`, the client id and secret, and the refresh token |
| Soundcloud.SoundcloudClient.constructor | src/platforms/soundcloud.rs:56-77 | a client holding the given credentials and storage |
| Soundcloud.SoundcloudClient.RefreshTokenIfNeeded | src/platforms/soundcloud.rs:266-321 | with no record, fails with no token and changes nothing; otherwise the copy becomes the old copy with only the SoundCloud slot replaced by `OAuth.RefreshedSlot`, and the result agrees with `OAuth.RefreshCheck`; an unexpired record or an expired one without a refresh token makes no request; with a refresh token the refresh form goes to the SoundCloud endpoint and a saved good answer is what loading gives back; a bad answer changes no file |
| Soundcloud.SoundcloudClient.PrepareUpload | src/platforms/soundcloud.rs:331-346 | with a record: no authorize URL shown, the result is `OAuth.RefreshCheck` of that record and the copy keeps its Mixcloud slot, with only the SoundCloud slot refresh-checked (so an unexpired record is returned as it is, with no request and no write); without one: it shows this grant's URL, a failed login is returned as `Soundcloud.LoginOutcome`'s error with the copy and the files unchanged, and after a good login the copy is the reloaded (or empty) storage with the new record, refresh-checked at once, in the SoundCloud slot, and the result is the refresh check of that record |
| Mixcloud.AuthorizeUrl | src/platforms/mixcloud.rs:66-73 | the authorize endpoint, with neither `?` nor `#` in it, carrying the client id and the redirect URI, so that the pairs form the whole query of the shown URL |
| Mixcloud.AuthorizeUrlQuery | src/platforms/mixcloud.rs:69-73 | reading the shown URL back gives exactly `client_id` and `redirect_uri`, in that order |
| Mixcloud.AuthorizeQueryValues | src/platforms/mixcloud.rs:69-73 | the provider finds the client id and the redirect URI, and no `state` or `code_challenge` |
| Mixcloud.ExtractCode | src/platforms/mixcloud.rs:211-228 | succeeds exactly when the line is well-formed and its query has a `code`, and returns the first one; otherwise invalid format, or missing code |
| Mixcloud.ExtractFromRedirect | src/platforms/mixcloud.rs:211-228 | a redirect with a code yields that code |
| Mixcloud.ExtractIgnoresState | src/platforms/mixcloud.rs:211-228 | a `state` that comes along with the code is ignored |
| Mixcloud.CallbackCode | src/platforms/mixcloud.rs:84-151 | succeeds exactly when a line arrived, carries a code and was answered, with that code; otherwise the listen, accept or read error, the extraction error, or the answer error, in that order |
| Mixcloud.LoginOutcome | src/platforms/mixcloud.rs:79-209 | how a login ends: the browser half's error, or else exactly what the exchange and the save decide; success exactly on a code, the answer, a good reply and a writable token path |
| Mixcloud.ExchangeForm | src/platforms/mixcloud.rs:157-161 | the form has exactly the client id and secret, the redirect URI and the code, and no `grant_type` |
| Mixcloud.AwaitCode | src/platforms/mixcloud.rs:79-151 | ends exactly as `Mixcloud.CallbackCode` says; the URL is always shown, the listener is logged only after a good bind, and the answer only on success; no file changes |
| Mixcloud.ExchangeAndStore | src/platforms/mixcloud.rs:155-190 | posts the exchange form first and then at most one write; ends as the answer and the save decide (send, status, parse or storage error, or success); on success the stored tokens are `set_mixcloud_tokens` of the loaded (or empty) storage; on failure no file changes |
| Mixcloud.Authorize | src/platforms/mixcloud.rs:63-209 | the URL is shown first; without a code nothing is answered, posted or written; past the code and the answer, the effects are shown, listened, answered, then the exchange POST, and the result is exactly `Mixcloud.LoginOutcome`, so the good path succeeds and every failure carries its own error; every URL, port and endpoint touched is Mixcloud's; success saves only the Mixcloud slot; a failure writes no file |
| Mixcloud.RefreshForm | src/platforms/mixcloud.rs:240-244 | the form has exactly the client id and secret, `grant_type=refresh_token` and the refresh token |
| Mixcloud.MixcloudClient.constructor | src/platforms/mixcloud.rs:40-61 | a client holding the given credentials and storage |
| Mixcloud.MixcloudClient.RefreshTokenIfNeeded | src/platforms/mixcloud.rs:230-281 | with no record, fails with the storage's not-authorized error and changes nothing; otherwise the copy becomes `set_mixcloud_tokens` of the old copy with `OAuth.RefreshedSlot`, keeping the SoundCloud slot, and the result agrees with `OAuth.RefreshCheck`; an unexpired record or an expired one without a refresh token makes no request; with a refresh token the refresh form goes to the Mixcloud endpoint and a saved good answer is what loading gives back; a bad answer changes no file |
| Mixcloud.MixcloudClient.PrepareUpload | src/platforms/mixcloud.rs:293-304 | with a record: no authorize URL shown, the result is `OAuth.RefreshCheck` of that record and the copy keeps its SoundCloud slot, with only the Mixcloud slot refresh-checked (so an unexpired record is returned as it is, with no request and no write); without one: it shows the authorize URL, a failed login is returned as `Mixcloud.LoginOutcome`'s error with the copy and the files unchanged, and after a good login the copy is `set_mixcloud_tokens` of the reloaded (or empty) storage with the new record, refresh-checked at once, and the result is the refresh check of that record |
| Mixcloud.TagFieldName | src/platforms/mixcloud.rs:356 | `tags-`, then the decimal index, then `-tag`, and nothing else |
| Mixcloud.TagFieldNameInjective | src/platforms/mixcloud.rs:357 | different positions get different field names |
| Mixcloud.AddTagFields | src/platforms/mixcloud.rs:354-359 | keeps the earlier form fields and appends one field per tag, in order, the tag at position `i` under `tags-i-tag` |
| Platforms.HandleAuth | src/platforms/mod.rs:44-54 | runs the chosen platform's flow only: its authorize URL is shown first, every URL, port and endpoint touched is that platform's, it ends exactly as that platform's `LoginOutcome` (so a failure is that login's own error, passed on unchanged), and success fills that platform's slot; a failure writes no file |
| Platforms.ProvidersApart | src/platforms/mixcloud.rs:14-17 | the two platforms share no callback port, no token endpoint and no authorize endpoint |
| Platforms.MixcloudLeavesSoundcloudAlone | src/platforms/mod.rs:44-54 | effects that belong to the Mixcloud login never listen, answer or post at SoundCloud's port and endpoint |
| Platforms.SoundcloudLeavesMixcloudAlone | src/platforms/mod.rs:44-54 | effects that belong to the SoundCloud login never listen, answer or post at Mixcloud's port and endpoint |
| Platforms.MixcloudRemaining | src/platforms/mod.rs:117-130 | days and hours from one day up, hours and minutes from one hour, minutes from one minute, else under a minute; each number shown is rounded down |
| Platforms.SoundcloudRemaining | src/platforms/mod.rs:161-171 | never days: total hours and minutes from one hour up, minutes from one minute, else under a minute, rounded down |
| Platforms.ClockParts | src/platforms/mod.rs:118-120 | `num_days`, `num_hours % 24`, `num_minutes % 60` add back up to the duration, and each is positive exactly from its unit up |
| Platforms.ExpiryHint | src/platforms/mod.rs:132-139 | no hint exactly when the refresh step would keep the token, auto-refresh exactly when it would use the refresh token, re-authorize exactly when it could not refresh |
| Platforms.SlotStatus | src/platforms/mod.rs:106-147 | not authorized exactly when the slot is empty; unknown exactly when there is no lifetime; otherwise the platform's bucket of the time left, with the expiry hint |
| Platforms.ShowStatus | src/platforms/mod.rs:103-194 | an error exactly when loading fails, and then the load error itself; otherwise the Mixcloud and SoundCloud reports of the loaded storage |
| Platforms.UnknownExpiryIsNotExpired | src/platforms/mod.rs:140-142 | an unknown expiry comes with no hint |
| Platforms.UnderAMinuteIsExpired | src/platforms/mod.rs:128-139 | "under a minute" always comes with a hint |
| Platforms.DaysLeftIsNotExpired | src/platforms/mod.rs:121-139 | a day or more left comes with no hint |
| Platforms.BucketsAgreeBelowAnHour | src/platforms/mod.rs:117-130 | below an hour both platforms show the same bucket |
| Updater.ParseU64 | src/updater.rs:35 | with one leading `+` dropped: a number exactly when the rest is non-empty, all decimal digits, and at most `u64::MAX`, and then its decimal value |
| Updater.VersionParts | src/updater.rs:33-37 | at most one number per `.`-separated part, each at most `u64::MAX` |
| Updater.ParseFormatted | src/updater.rs:35 | the decimal form of every number up to `u64::MAX` parses back to it |
| Updater.Compare | src/updater.rs:41 | `Equal` exactly for equal lists |
| Updater.CompareLessIff | src/updater.rs:41 | `Less` exactly when the first list is lexicographically smaller, that is a strict prefix or smaller at the first difference |
| Updater.CompareAntisymmetric | src/updater.rs:41 | swapping the lists reverses the answer |
| Updater.CompareVersions | src/updater.rs:32-42 | `Equal` exactly when both versions have the same list of numbers |
| Updater.CompareVersionsReflexive | src/updater.rs:41 | every version compares `Equal` to itself |
| Updater.CompareVersionsAntisymmetric | src/updater.rs:41 | swapping the versions reverses the answer |
| Updater.CompareVersionsGreaterIff | src/updater.rs:33-42 | `Greater` exactly when the current numbers are lexicographically below the remote ones |
| Updater.LongerVersionIsNewer | src/updater.rs:41 | a version that extends the current one is newer |
| Updater.VersionPartsAppend | src/updater.rs:34-38 | the numbers of `a.b` are those of `a` followed by those of `b` |
| Updater.JunkPartDropped | src/updater.rs:34-38 | a part that does not parse as a `u64` is dropped |
| Updater.VersionPartsOfThree | src/updater.rs:34-38 | `x.y.z` with three decimal parts gives their three values |
| Updater.CompareVersionsExamples | src/updater.rs:105-111 | the six unit-test results |
| Updater.StripTagPrefix | src/updater.rs:70-73 | a suffix of the tag that is at most one character shorter |
| Updater.StripTagPrefixOnce | src/updater.rs:70-73 | only one leading `v` goes |
| Updater.StripTagPrefixPlain | src/updater.rs:70-73 | a tag without a leading `v` is unchanged |
| Updater.FirstDmgUrl | src/updater.rs:76-80 | none exactly when no asset name ends in `.dmg`; otherwise the link of the first asset that does |
| Updater.CheckForUpdate | src/updater.rs:46-93 | a send failure is an error; a non-2xx status is no update; a malformed body is an error; an update exactly when the stripped remote version compares `Greater`, carrying that version, the release page and the first `.dmg` link |
| Updater.SameReleaseIsNoUpdate | src/updater.rs:70-91 | the running version, with or without `v`, is never reported as an update |
| Updater.UpdateIsNewer | src/updater.rs:75-88 | a reported version is lexicographically newer and differs from the running one |
| Text.Split | src/main.rs:38 | always at least one field; `Text.JoinSplit` and `Text.SplitJoin` show it is the inverse of joining with the separator |
| Text.SplitJoin | src/main.rs:38 | splitting fields that hold no separator, joined with it, gives the fields back |
| Text.SplitPiecesAvoidSeparator | src/main.rs:38 | no field contains the separator |
| Text.SplitWithoutSeparator | src/updater.rs:34-35 | text without the separator is one field |
| Text.SplitAppend | src/main.rs:38 | the fields of `a,b` are those of `a` followed by those of `b` |
| Text.JoinSplit | src/main.rs:38 | joining the fields with the separator gives the input back |
| Text.Trim | src/main.rs:39 | the result has no whitespace at either end |
| Text.TrimSlice | src/main.rs:39 | the result is a slice of the input, and only whitespace is cut off |
| Text.TrimPadded | src/main.rs:39 | whitespace around a word goes, and the word stays |
| Text.SplitWhitespace | src/platforms/soundcloud.rs:243 | every word is non-empty and holds no whitespace; with `Text.SplitWhitespaceWord` and `Text.SplitWhitespaceSkip` it is exactly the maximal runs of non-whitespace, in order |
| Text.SplitWhitespaceWord | src/platforms/soundcloud.rs:243 | a word followed by whitespace or the end is the first word, and the rest follows |
| Text.SplitWhitespaceSkip | src/platforms/soundcloud.rs:243 | leading whitespace is skipped |
| UrlQuery.Serialize | src/platforms/soundcloud.rs:96-105 | empty exactly when there are no pairs; `UrlQuery.ParseSerialize` reads it back |
| UrlQuery.Parse | src/platforms/soundcloud.rs:251-255 | at most one pair per `&`-separated piece, and none for the empty query |
| UrlQuery.QueryOf | src/platforms/soundcloud.rs:249-253 | never longer than the target, never holding the fragment's `#`, and empty without a `?` |
| UrlQuery.ParseSerialize | src/platforms/soundcloud.rs:96-105 | parsing the serialized ASCII pairs gives them back, in order |
| UrlQuery.DecodeEncode | src/platforms/soundcloud.rs:96-105 | percent-decoding the encoding of ASCII text gives it back |
| UrlQuery.FirstValue | src/platforms/soundcloud.rs:251-255 | none exactly when no pair has the key |
| UrlQuery.FirstValueAt | src/platforms/soundcloud.rs:251-255 | the value of the first pair with the key |
| UrlQuery.UrlTextQuery | src/platforms/soundcloud.rs:96-105 | the query read back from a URL's text is the pairs it was built with |
| Tags.ParseTags | src/main.rs:37-42 | none exactly when `--tags` is absent; every tag is non-empty and trimmed |
| Tags.TagsHaveNoComma | src/main.rs:38 | no tag contains `,` |
| Tags.TagsInOrder | src/main.rs:37-41 | the tags of `a,b` are those of `a` followed by those of `b` |
| Tags.OneField | src/main.rs:38-40 | a field without a comma gives its trimmed text as one tag, or no tag when it is blank |
| Tags.PaddedTag | src/main.rs:39 | whitespace around a tag is dropped and whitespace inside it is kept |
| Tags.BlankFieldDropped | src/main.rs:40 | a blank field gives no tag |

## Left out

- Network and process I/O is not executed. The HTTP client (including its timeout and headers), `TcpListener::bind`/`accept`, the reading of the request line, the HTML answer, `webbrowser::open` and `activate_app` are replaced by outcome parameters and logged effects.
- Randomness and SHA-256 are parameters: the 32 verifier bytes, the 32 alphanumeric draws, and a digest function.
- `decrypt_string` and the build-time credential secrets (src/config.rs:24-43) are out: the credentials are a plain input.
- JSON (de)serialization of the token file and of the API responses is not modelled. A file is a token document, malformed or unreadable, and a response body comes with its parse result.
- The filesystem is reduced to the token-path rule, the absent-file rule and whether saving succeeds. Directory creation and partial writes are not modelled.
- `Url::parse` failures on the callback target are not modelled; every target parses.
- UrlQuery.Decode: percent-escapes of bytes 0x80 and above decode to one character per byte, with no UTF-8 reassembly and no replacement characters. The round-trip lemmas therefore need ASCII names and values.
- Time is whole seconds. Sub-second precision and the `Duration`/`DateTime` types are not modelled.
- All printing is out: the status report's text and creation date, the token-storage path line, the log messages and the post-authorize expiry messages. The status is returned as a value.
- Local-time to UTC conversion (src/main.rs:45-65) is not part of this model.
- Of `upload`, only the authorize/refresh preamble and the tag-field names are modelled. The multipart body, the file and image reads and the upload request are out.
- src/audio.rs, src/gui.rs, src/cli.rs (apart from the two-value `Platform` enum) and build.rs are not part of this model.
- `open_release_page` is not part of this model.
- The client constructors receive the storage that `new` loads. A failure to build the HTTP client or to load the storage in `new` is not modelled.
- Platform-specific path rules are out: only Unix `PathBuf::join` and UTF-8 environment values are modelled.
- Concurrency and the race between two writers of the token file are out: calls run one at a time.
- Config.Load: does not model `fs::read_to_string` rejecting a file that is not valid UTF-8 beyond the single "unreadable" case.
