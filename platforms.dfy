/**
 * The dispatch between the two providers and the status report
 * (src/platforms/mod.rs): `handle_auth` runs the chosen provider's login,
 * and `show_status` sorts each stored record into "not authorized",
 * "unknown expiry" or a bucket of time left, with a hint when the record
 * is expired.
 */
module Platforms {
  import opened Wrappers
  import opened Text
  import opened Config
  import opened UrlQuery
  import opened OAuth
  import Mixcloud
  import Soundcloud

  /** `cli::Platform`. */
  datatype Platform = Mixcloud | Soundcloud

  /**
   * `handle_auth`: the login of the chosen provider and of that one only.
   * Its first outward action shows that provider's authorize URL, every
   * URL, port and endpoint it touches is that provider's, and it succeeds
   * exactly when that provider's login does, filling that provider's slot;
   * a failure is that login's own error, passed on unchanged.
   */
  method HandleAuth(host: Host, platform: Platform, mixcloudCreds: Credentials, mixcloudLogin: Mixcloud.Login,
                    soundcloudCreds: Credentials, soundcloudLogin: Soundcloud.Login,
                    sha256: seq<Byte> -> seq<Byte>, now: int)
    returns (r: Result<(), AuthError>)
    modifies host
    ensures old(host.trace) < host.trace
    ensures r.Failure? ==> host.files == old(host.files)
    ensures platform.Mixcloud? ==>
              var url := Mixcloud.AuthorizeUrl(mixcloudCreds.clientId);
              && host.trace[|old(host.trace)|] == ShowedUrl(url)
              && OnlyAt(host.trace[|old(host.trace)|..], url, Mixcloud.CallbackPort, Mixcloud.TokenEndpoint)
              && (r.Success? <==>
                    && Mixcloud.CodeReceived(mixcloudLogin.callback) && mixcloudLogin.callback.answered
                    && GoodReply(mixcloudLogin.exchange) && CanSave(host))
              && r == Mixcloud.LoginOutcome(mixcloudLogin.callback, mixcloudLogin.exchange, host)
              && (r.Success? ==>
                    Load(host) == Success(SetMixcloudTokens(old(LoadOrEmpty(host)),
                                                            TokenInfoOf(mixcloudLogin.exchange.parsed.value, now))))
    ensures platform.Soundcloud? ==>
              var g := Soundcloud.NewGrant(soundcloudCreds.clientId, soundcloudLogin.random, soundcloudLogin.draws, sha256);
              && host.trace[|old(host.trace)|] == ShowedUrl(g.url)
              && OnlyAt(host.trace[|old(host.trace)|..], g.url, Soundcloud.CallbackPort, Soundcloud.TokenEndpoint)
              && (r.Success? <==>
                    && Soundcloud.StateChecked(soundcloudLogin.callback, g.state) && soundcloudLogin.callback.answered
                    && GoodReply(soundcloudLogin.exchange) && CanSave(host))
              && r == Soundcloud.LoginOutcome(soundcloudLogin.callback, g.state, soundcloudLogin.exchange, host)
              && (r.Success? ==>
                    Load(host) == Success(old(LoadOrEmpty(host)).(soundcloud :=
                                            Some(TokenInfoOf(soundcloudLogin.exchange.parsed.value, now)))))
  {
    match platform
    case Mixcloud =>
      r := Mixcloud.Authorize(host, mixcloudCreds, mixcloudLogin.callback, mixcloudLogin.exchange, now);
    case Soundcloud =>
      ghost var grant;
      r, grant := Soundcloud.Authorize(host, soundcloudCreds, soundcloudLogin.random, soundcloudLogin.draws, sha256,
                                       soundcloudLogin.callback, soundcloudLogin.exchange, now);
  }

  /**
   * The two providers share no callback port, no token endpoint and no
   * authorize endpoint, so effects that belong to one never belong to the
   * other.
   */
  lemma ProvidersApart()
    ensures Mixcloud.CallbackPort != Soundcloud.CallbackPort
    ensures Mixcloud.TokenEndpoint != Soundcloud.TokenEndpoint
    ensures Mixcloud.AuthorizeEndpoint != Soundcloud.AuthorizeEndpoint
  {
    assert Mixcloud.TokenEndpoint[8] == 'w' && Soundcloud.TokenEndpoint[8] == 's';
    assert Mixcloud.AuthorizeEndpoint[8] == 'w' && Soundcloud.AuthorizeEndpoint[8] == 's';
  }

  /** While Mixcloud logs in, nothing is listened for, answered or posted at SoundCloud's port and endpoint. */
  lemma MixcloudLeavesSoundcloudAlone(effects: seq<Effect>, url: Url)
    requires OnlyAt(effects, url, Mixcloud.CallbackPort, Mixcloud.TokenEndpoint)
    ensures Listened(Soundcloud.CallbackPort) !in effects && Answered(Soundcloud.CallbackPort) !in effects
    ensures forall i :: 0 <= i < |effects| && effects[i].Posted? ==> effects[i].endpoint != Soundcloud.TokenEndpoint
  {
    ProvidersApart();
  }

  /** While SoundCloud logs in, nothing is listened for, answered or posted at Mixcloud's port and endpoint. */
  lemma SoundcloudLeavesMixcloudAlone(effects: seq<Effect>, url: Url)
    requires OnlyAt(effects, url, Soundcloud.CallbackPort, Soundcloud.TokenEndpoint)
    ensures Listened(Mixcloud.CallbackPort) !in effects && Answered(Mixcloud.CallbackPort) !in effects
    ensures forall i :: 0 <= i < |effects| && effects[i].Posted? ==> effects[i].endpoint != Mixcloud.TokenEndpoint
  {
    ProvidersApart();
  }

  // ---------------------------------------------------------------------
  // The status report
  // ---------------------------------------------------------------------

  /** How the time left is shown. */
  datatype Remaining =
    | DaysHours(days: nat, hours: nat)          // "<d> days, <h> hours"
    | HoursMinutes(hours: nat, minutes: nat)    // "<h> hours, <m> minutes"
    | Minutes(minutes: nat)                     // "<m> minutes"
    | UnderAMinute                              // "<1 minute (needs refresh)"

  /** What is said about an expired record. */
  datatype Hint = NoHint | AutoRefresh | Reauthorize

  /** The report on one provider's slot. */
  datatype Status =
    | NotAuthorized
    | UnknownExpiry
    | Expiring(remaining: Remaining, hint: Hint)

  /**
   * The Mixcloud buckets: whole days and the hours beyond them, else whole
   * hours and the minutes beyond them, else whole minutes. Every number
   * shown is rounded down.
   */
  function MixcloudRemaining(secs: nat): (r: Remaining)
    ensures r.DaysHours? <==> secs >= 86400
    ensures r.HoursMinutes? <==> 3600 <= secs < 86400
    ensures r.Minutes? <==> 60 <= secs < 3600
    ensures r.UnderAMinute? <==> secs < 60
    ensures r.DaysHours? ==>
              r.hours < 24 && r.days * 86400 + r.hours * 3600 <= secs < r.days * 86400 + (r.hours + 1) * 3600
    ensures r.HoursMinutes? ==>
              r.minutes < 60 && r.hours * 3600 + r.minutes * 60 <= secs < r.hours * 3600 + (r.minutes + 1) * 60
    ensures r.Minutes? ==> r.minutes * 60 <= secs < (r.minutes + 1) * 60
  {
    ClockParts(secs);
    var days := secs / 86400;
    var hours := (secs / 3600) % 24;
    var minutes := (secs / 60) % 60;
    if days > 0 then DaysHours(days, hours)
    else if hours > 0 then HoursMinutes(hours, minutes)
    else if minutes > 0 then Minutes(minutes)
    else UnderAMinute
  }

  /**
   * The SoundCloud buckets: whole hours in total (no days) and the
   * minutes beyond them, else whole minutes.
   */
  function SoundcloudRemaining(secs: nat): (r: Remaining)
    ensures !r.DaysHours?
    ensures r.HoursMinutes? <==> secs >= 3600
    ensures r.Minutes? <==> 60 <= secs < 3600
    ensures r.UnderAMinute? <==> secs < 60
    ensures r.HoursMinutes? ==>
              r.minutes < 60 && r.hours * 3600 + r.minutes * 60 <= secs < r.hours * 3600 + (r.minutes + 1) * 60
    ensures r.Minutes? ==> r.minutes * 60 <= secs < (r.minutes + 1) * 60
  {
    ClockParts(secs);
    var hours := secs / 3600;
    var minutes := (secs / 60) % 60;
    if hours > 0 then HoursMinutes(hours, minutes)
    else if minutes > 0 then Minutes(minutes)
    else UnderAMinute
  }

  /**
   * `num_days`, `num_hours % 24`, `num_minutes % 60` and the seconds left
   * over add back up to the duration.
   */
  lemma ClockParts(secs: nat)
    ensures secs / 3600 == (secs / 86400) * 24 + (secs / 3600) % 24
    ensures secs / 60 == (secs / 3600) * 60 + (secs / 60) % 60
    ensures secs == (secs / 60) * 60 + secs % 60 && secs % 60 < 60
    ensures secs / 86400 > 0 <==> secs >= 86400
    ensures secs / 3600 > 0 <==> secs >= 3600
    ensures secs / 60 > 0 <==> secs >= 60
  {
    var q := secs / 60;
    assert secs == q * 60 + secs % 60;
    assert q == (q / 60) * 60 + q % 60;
    assert q / 60 == secs / 3600;
    var h := secs / 3600;
    assert h == (h / 24) * 24 + h % 24;
    assert h / 24 == secs / 86400;
  }

  /**
   * The hint: none while the record is not expired; once it is, automatic
   * refresh when there is a refresh token and re-authorization otherwise.
   * It announces exactly what the refresh step will do.
   */
  function ExpiryHint(t: TokenInfo, now: int): (h: Hint)
    ensures h.NoHint? <==> PlanRefresh(t, now).KeepToken?
    ensures h.AutoRefresh? <==> PlanRefresh(t, now).UseRefreshToken?
    ensures h.Reauthorize? <==> PlanRefresh(t, now).CannotRefresh?
  {
    if !IsExpired(t, now) then NoHint
    else if t.refreshToken.Some? then AutoRefresh
    else Reauthorize
  }

  /** The report on one slot, given the provider's way of bucketing the time left. */
  function SlotStatus(slot: Option<TokenInfo>, now: int, forMixcloud: bool): (s: Status)
    ensures s.NotAuthorized? <==> slot.None?
    ensures s.UnknownExpiry? <==> slot.Some? && slot.value.expiresIn.None?
    ensures s.Expiring? ==>
              && slot.Some? && TimeUntilExpiry(slot.value, now).Some?
              && s.hint == ExpiryHint(slot.value, now)
              && s.remaining == (if forMixcloud then MixcloudRemaining(TimeUntilExpiry(slot.value, now).value)
                                 else SoundcloudRemaining(TimeUntilExpiry(slot.value, now).value))
  {
    match slot
    case None => NotAuthorized
    case Some(t) =>
      match TimeUntilExpiry(t, now)
      case None => UnknownExpiry
      case Some(secs) =>
        Expiring(if forMixcloud then MixcloudRemaining(secs) else SoundcloudRemaining(secs), ExpiryHint(t, now))
  }

  /**
   * `show_status`: the report on both slots of the stored tokens; a
   * storage that cannot be loaded is an error.
   */
  function ShowStatus(host: Host, now: int): (r: Result<(Status, Status), ConfigError>)
    reads host`files
    ensures r.Failure? <==> Load(host).Failure?
    ensures r.Failure? ==> r.error == Load(host).error
    ensures r.Success? ==>
              r.value == (SlotStatus(Load(host).value.mixcloud, now, true),
                          SlotStatus(Load(host).value.soundcloud, now, false))
  {
    var storage :- Load(host);
    Success((SlotStatus(storage.mixcloud, now, true), SlotStatus(storage.soundcloud, now, false)))
  }

  /** Unknown expiry never comes with a hint: such a record is never expired. */
  lemma UnknownExpiryIsNotExpired(t: TokenInfo, now: int)
    requires SlotStatus(Some(t), now, true).UnknownExpiry?
    ensures !IsExpired(t, now) && PlanRefresh(t, now).KeepToken?
  {
  }

  /** "Less than a minute" always comes with a hint, since that is inside the five-minute buffer. */
  lemma UnderAMinuteIsExpired(t: TokenInfo, now: int, forMixcloud: bool)
    requires SlotStatus(Some(t), now, forMixcloud).Expiring?
    requires SlotStatus(Some(t), now, forMixcloud).remaining.UnderAMinute?
    ensures IsExpired(t, now)
    ensures !SlotStatus(Some(t), now, forMixcloud).hint.NoHint?
  {
    ExpiredIffWithinBuffer(t, now);
  }

  /** A record with a day or more left is reported without a hint. */
  lemma DaysLeftIsNotExpired(t: TokenInfo, now: int)
    requires SlotStatus(Some(t), now, true).Expiring?
    requires SlotStatus(Some(t), now, true).remaining.DaysHours?
    ensures !IsExpired(t, now)
    ensures SlotStatus(Some(t), now, true).hint.NoHint?
  {
    ExpiredIffWithinBuffer(t, now);
  }

  /** The two providers agree below an hour and differ only in how they show longer times. */
  lemma BucketsAgreeBelowAnHour(secs: nat)
    requires secs < 3600
    ensures MixcloudRemaining(secs) == SoundcloudRemaining(secs)
  {
  }
}
