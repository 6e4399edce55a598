/**
 * The update check (src/updater.rs): release versions are dot-separated
 * numbers compared as lists, the release tag may carry one leading `v`,
 * and an update is reported only for a strictly newer release, with the
 * download link of its first `.dmg` asset.
 */
module Updater {
  import opened Wrappers
  import opened Text
  import OAuth

  /** `u64::MAX`. */
  const U64Max: nat := 0xFFFF_FFFF_FFFF_FFFF

  /** `std::cmp::Ordering`. */
  datatype Ordering = Less | Equal | Greater

  /** The reverse ordering, `Ordering::reverse`. */
  function Reverse(o: Ordering): Ordering {
    match o
    case Less => Greater
    case Equal => Equal
    case Greater => Less
  }

  // ---------------------------------------------------------------------
  // Parsing a version
  // ---------------------------------------------------------------------

  /**
   * `str::parse::<u64>`: an optional `+` followed by one or more decimal
   * digits whose value fits in 64 bits. Anything else (empty, a sign
   * alone, `-`, letters, an overflow) is an error.
   */
  function ParseU64(s: string): (r: Option<nat>)
    ensures var digits := if s != [] && s[0] == '+' then s[1..] else s;
            && (r.Some? <==> digits != [] && AllDigits(digits) && DigitsValue(digits) <= U64Max)
            && (r.Some? ==> r.value == DigitsValue(digits))
    ensures r.Some? ==> s != [] && (s[0] == '+' || IsDigit(s[0]))
  {
    var digits := if s != [] && s[0] == '+' then s[1..] else s;
    if digits == [] || !AllDigits(digits) then None
    else if DigitsValue(digits) > U64Max then None
    else Some(DigitsValue(digits))
  }

  /** The parts that parse as numbers, in order; the others are dropped (`filter_map`). */
  function NumericParts(parts: seq<string>): (r: seq<nat>)
    ensures |r| <= |parts|
    ensures forall i :: 0 <= i < |r| ==> r[i] <= U64Max
    decreases |parts|
  {
    if parts == [] then []
    else
      match ParseU64(parts[0])
      case Some(n) => [n] + NumericParts(parts[1..])
      case None => NumericParts(parts[1..])
  }

  /** The `parse` closure of `compare_versions`: split on `.`, keep the numbers. */
  function VersionParts(v: string): (r: seq<nat>)
    ensures |r| <= |Split(v, '.')|
    ensures forall i :: 0 <= i < |r| ==> r[i] <= U64Max
  {
    NumericParts(Split(v, '.'))
  }

  // ---------------------------------------------------------------------
  // Comparing versions
  // ---------------------------------------------------------------------

  /** `Vec::cmp`: element by element, and a list that runs out first is the smaller. */
  function Compare(a: seq<nat>, b: seq<nat>): (o: Ordering)
    ensures o == Equal <==> a == b
    decreases |a|
  {
    if a == [] && b == [] then Equal
    else if a == [] then Less
    else if b == [] then Greater
    else if a[0] < b[0] then Less
    else if a[0] > b[0] then Greater
    else
      var o := Compare(a[1..], b[1..]);
      assert o == Equal ==> a == [a[0]] + a[1..] == [b[0]] + b[1..] == b;
      o
  }

  /**
   * The lexicographic order written out, independently of `Compare`: `a`
   * is a strict prefix of `b`, or they first differ at some position where
   * `a` holds the smaller number.
   */
  predicate LexLess(a: seq<nat>, b: seq<nat>) {
    || (|a| < |b| && a == b[..|a|])
    || (exists k :: 0 <= k < |a| && k < |b| && a[..k] == b[..k] && a[k] < b[k])
  }

  /** `compare_versions(current, remote)`: `Greater` when `remote` is newer. */
  function CompareVersions(current: string, remote: string): (o: Ordering)
    ensures o == Equal <==> VersionParts(current) == VersionParts(remote)
  {
    Compare(VersionParts(remote), VersionParts(current))
  }

  /** Swapping the lists reverses the answer. */
  lemma {:induction false} CompareAntisymmetric(a: seq<nat>, b: seq<nat>)
    ensures Compare(b, a) == Reverse(Compare(a, b))
    decreases |a|
  {
    if a != [] && b != [] && a[0] == b[0] {
      CompareAntisymmetric(a[1..], b[1..]);
    }
  }

  /** `Compare` says `Less` exactly when the lists are in lexicographic order. */
  lemma CompareLessIff(a: seq<nat>, b: seq<nat>)
    ensures Compare(a, b) == Less <==> LexLess(a, b)
  {
    if Compare(a, b) == Less {
      CompareLessIsLex(a, b);
    }
    if LexLess(a, b) {
      LexIsCompareLess(a, b);
    }
  }

  lemma {:induction false} CompareLessIsLex(a: seq<nat>, b: seq<nat>)
    requires Compare(a, b) == Less
    ensures LexLess(a, b)
    decreases |a|
  {
    if a == [] {
    } else if a[0] < b[0] {
      assert a[..0] == b[..0];
    } else {
      CompareLessIsLex(a[1..], b[1..]);
      if |a[1..]| < |b[1..]| && a[1..] == b[1..][..|a[1..]|] {
        assert a == [a[0]] + a[1..] && b[..|a|] == [b[0]] + b[1..][..|a[1..]|];
      } else {
        var k :| 0 <= k < |a[1..]| && k < |b[1..]| && a[1..][..k] == b[1..][..k] && a[1..][k] < b[1..][k];
        assert a[..k + 1] == [a[0]] + a[1..][..k] && b[..k + 1] == [b[0]] + b[1..][..k];
      }
    }
  }

  lemma {:induction false} LexIsCompareLess(a: seq<nat>, b: seq<nat>)
    requires LexLess(a, b)
    ensures Compare(a, b) == Less
    decreases |a|
  {
    if a == [] || a[0] < b[0] {
    } else if |a| < |b| && a == b[..|a|] {
      assert a[0] == b[0] && a[1..] == b[1..][..|a[1..]|];
      LexIsCompareLess(a[1..], b[1..]);
    } else {
      var k :| 0 <= k < |a| && k < |b| && a[..k] == b[..k] && a[k] < b[k];
      if k == 0 {
      } else {
        assert a[0] == a[..k][0] == b[..k][0] == b[0];
        assert a[1..][..k - 1] == a[..k][1..] == b[..k][1..] == b[1..][..k - 1];
        LexIsCompareLess(a[1..], b[1..]);
      }
    }
  }

  /** A version is as new as itself. */
  lemma CompareVersionsReflexive(v: string)
    ensures CompareVersions(v, v) == Equal
  {
  }

  /** Swapping the two versions reverses the answer. */
  lemma CompareVersionsAntisymmetric(current: string, remote: string)
    ensures CompareVersions(remote, current) == Reverse(CompareVersions(current, remote))
  {
    CompareAntisymmetric(VersionParts(remote), VersionParts(current));
  }

  /** `remote` is reported newer exactly when `current`'s numbers come first in lexicographic order. */
  lemma CompareVersionsGreaterIff(current: string, remote: string)
    ensures CompareVersions(current, remote) == Greater <==> LexLess(VersionParts(current), VersionParts(remote))
  {
    CompareAntisymmetric(VersionParts(remote), VersionParts(current));
    CompareLessIff(VersionParts(current), VersionParts(remote));
  }

  /** A version that extends the current one with more numbers is newer. */
  lemma LongerVersionIsNewer(current: string, remote: string)
    requires |VersionParts(current)| < |VersionParts(remote)|
    requires VersionParts(current) == VersionParts(remote)[..|VersionParts(current)|]
    ensures CompareVersions(current, remote) == Greater
  {
    CompareVersionsGreaterIff(current, remote);
  }

  /** The numbers of `a.b` are those of `a` followed by those of `b`. */
  lemma {:induction false} NumericPartsAppend(p: seq<string>, q: seq<string>)
    ensures NumericParts(p + q) == NumericParts(p) + NumericParts(q)
    decreases |p|
  {
    if p != [] {
      assert (p + q)[0] == p[0] && (p + q)[1..] == p[1..] + q;
      NumericPartsAppend(p[1..], q);
      match ParseU64(p[0])
      case Some(n) =>
        calc {
          NumericParts(p + q);
          [n] + NumericParts(p[1..] + q);
          [n] + (NumericParts(p[1..]) + NumericParts(q));
          ([n] + NumericParts(p[1..])) + NumericParts(q);
        }
      case None =>
    } else {
      assert p + q == q;
    }
  }

  lemma VersionPartsAppend(a: string, b: string)
    ensures VersionParts(a + ['.'] + b) == VersionParts(a) + VersionParts(b)
  {
    SplitAppend(a, b, '.');
    NumericPartsAppend(Split(a, '.'), Split(b, '.'));
  }

  /** A part that is not a number is dropped: inserting it anywhere changes nothing. */
  lemma JunkPartDropped(a: string, junk: string, b: string)
    requires '.' !in junk && ParseU64(junk).None?
    ensures VersionParts(a + ['.'] + junk + ['.'] + b) == VersionParts(a + ['.'] + b)
  {
    assert a + ['.'] + junk + ['.'] + b == a + ['.'] + (junk + ['.'] + b);
    VersionPartsAppend(a, junk + ['.'] + b);
    VersionPartsAppend(junk, b);
    VersionPartsOfPart(junk);
    VersionPartsAppend(a, b);
  }

  /** A piece without `.` contributes its number, or nothing when it is not one. */
  lemma VersionPartsOfPart(x: string)
    requires '.' !in x
    ensures VersionParts(x) == (if ParseU64(x).Some? then [ParseU64(x).value] else [])
  {
    SplitWithoutSeparator(x, '.');
    assert [x][1..] == [];
  }

  /** A version written as three decimal numbers has those three numbers. */
  lemma VersionPartsOfThree(x: string, y: string, z: string)
    requires x != [] && y != [] && z != [] && AllDigits(x) && AllDigits(y) && AllDigits(z)
    requires DigitsValue(x) <= U64Max && DigitsValue(y) <= U64Max && DigitsValue(z) <= U64Max
    ensures VersionParts(x + ['.'] + y + ['.'] + z) == [DigitsValue(x), DigitsValue(y), DigitsValue(z)]
  {
    VersionPartsOfNumber(x);
    VersionPartsOfNumber(y);
    VersionPartsOfNumber(z);
    VersionPartsAppend(x, y);
    VersionPartsAppend(x + ['.'] + y, z);
  }

  /** A non-empty run of digits that fits in 64 bits is one number. */
  lemma VersionPartsOfNumber(x: string)
    requires x != [] && AllDigits(x) && DigitsValue(x) <= U64Max
    ensures VersionParts(x) == [DigitsValue(x)]
  {
    DigitsHaveNoDot(x);
    VersionPartsOfPart(x);
  }

  lemma DigitsHaveNoDot(x: string)
    requires AllDigits(x)
    ensures '.' !in x
  {
    assert forall i :: 0 <= i < |x| ==> x[i] != '.';
  }

  /** The value of a short run of digits, digit by digit. */
  lemma DigitsValueOne(a: char)
    requires IsDigit(a)
    ensures DigitsValue([a]) == a as int - '0' as int
  {
    DigitsValueSnoc([], a);
  }

  lemma DigitsValueTwo(a: char, b: char)
    requires IsDigit(a) && IsDigit(b)
    ensures DigitsValue([a, b]) == (a as int - '0' as int) * 10 + (b as int - '0' as int)
  {
    DigitsValueOne(a);
    DigitsValueSnoc([a], b);
    assert [a, b] == [a] + [b];
  }

  lemma DigitsValueFour(a: char, b: char, c: char, d: char)
    requires IsDigit(a) && IsDigit(b) && IsDigit(c) && IsDigit(d)
    ensures DigitsValue([a, b, c, d])
            == (a as int - '0' as int) * 1000 + (b as int - '0' as int) * 100
               + (c as int - '0' as int) * 10 + (d as int - '0' as int)
  {
    DigitsValueTwo(a, b);
    DigitsValueSnoc([a, b], c);
    assert [a, b, c] == [a, b] + [c];
    DigitsValueSnoc([a, b, c], d);
    assert [a, b, c, d] == [a, b, c] + [d];
  }

  lemma VersionParts2025_12_0()
    ensures VersionParts("2025.12.0") == [2025, 12, 0]
  {
    DigitsValueFour('2', '0', '2', '5');
    DigitsValueTwo('1', '2');
    DigitsValueOne('0');
    assert "2025.12.0" == "2025" + ['.'] + "12" + ['.'] + "0";
    VersionPartsOfThree("2025", "12", "0");
  }

  lemma VersionParts2026_6_0()
    ensures VersionParts("2026.6.0") == [2026, 6, 0]
  {
    DigitsValueFour('2', '0', '2', '6');
    DigitsValueOne('6');
    DigitsValueOne('0');
    assert "2026.6.0" == "2026" + ['.'] + "6" + ['.'] + "0";
    VersionPartsOfThree("2026", "6", "0");
  }

  lemma VersionParts2026_6_1()
    ensures VersionParts("2026.6.1") == [2026, 6, 1]
  {
    DigitsValueFour('2', '0', '2', '6');
    DigitsValueOne('6');
    DigitsValueOne('1');
    assert "2026.6.1" == "2026" + ['.'] + "6" + ['.'] + "1";
    VersionPartsOfThree("2026", "6", "1");
  }

  lemma VersionParts2026_7_0()
    ensures VersionParts("2026.7.0") == [2026, 7, 0]
  {
    DigitsValueFour('2', '0', '2', '6');
    DigitsValueOne('7');
    DigitsValueOne('0');
    assert "2026.7.0" == "2026" + ['.'] + "7" + ['.'] + "0";
    VersionPartsOfThree("2026", "7", "0");
  }

  lemma VersionParts2027_1_0()
    ensures VersionParts("2027.1.0") == [2027, 1, 0]
  {
    DigitsValueFour('2', '0', '2', '7');
    DigitsValueOne('1');
    DigitsValueOne('0');
    assert "2027.1.0" == "2027" + ['.'] + "1" + ['.'] + "0";
    VersionPartsOfThree("2027", "1", "0");
  }

  /** `str::parse::<u64>` reads back what `format!` writes. */
  lemma ParseFormatted(n: nat)
    requires n <= U64Max
    ensures ParseU64(NatToString(n)) == Some(n)
  {
    DigitsValueOfNatToString(n);
  }

  /** The unit tests of `compare_versions`. */
  lemma CompareVersionsExamples()
    ensures CompareVersions("2026.6.0", "2026.7.0") == Greater
    ensures CompareVersions("2026.6.0", "2026.6.0") == Equal
    ensures CompareVersions("2026.7.0", "2026.6.0") == Less
    ensures CompareVersions("2026.6.0", "2027.1.0") == Greater
    ensures CompareVersions("2026.6.0", "2025.12.0") == Less
    ensures CompareVersions("2026.6.0", "2026.6.1") == Greater
  {
    VersionParts2025_12_0();
    VersionParts2026_6_0();
    VersionParts2026_6_1();
    VersionParts2026_7_0();
    VersionParts2027_1_0();
  }

  // ---------------------------------------------------------------------
  // The release check
  // ---------------------------------------------------------------------

  /** A release asset: its file name and where to download it. */
  datatype Asset = Asset(name: string, downloadUrl: string)

  /** The fields of the latest GitHub release that are read. */
  datatype Release = Release(tagName: string, htmlUrl: string, assets: seq<Asset>)

  /** What the request for the latest release gave. */
  datatype ReleaseReply =
    | SendFailed                                    // no client or no reply
    | Reply(status: nat, release: Option<Release>)  // `release` is the body read as a release, when it is one

  datatype UpdateError = RequestFailed | MalformedRelease

  /** `UpdateInfo`: the newer version, its page and its disk-image link. */
  datatype UpdateInfo = UpdateInfo(version: string, releaseUrl: string, dmgDownloadUrl: Option<string>)

  /** `tag.strip_prefix('v').unwrap_or(tag)`. */
  function StripTagPrefix(tag: string): (r: string)
    ensures |tag| - 1 <= |r| <= |tag| && r == tag[|tag| - |r|..]
  {
    if tag != [] && tag[0] == 'v' then tag[1..] else tag
  }

  /** Only one `v` goes: `vv1.0` becomes `v1.0`. */
  lemma StripTagPrefixOnce(rest: string)
    ensures StripTagPrefix(['v'] + rest) == rest
  {
  }

  /** A tag without a leading `v` is the version itself. */
  lemma StripTagPrefixPlain(tag: string)
    requires tag == [] || tag[0] != 'v'
    ensures StripTagPrefix(tag) == tag
  {
  }

  predicate IsDiskImage(a: Asset) {
    EndsWith(a.name, ".dmg")
  }

  /** `assets.iter().find(ends with .dmg).map(download url)`. */
  function FirstDmgUrl(assets: seq<Asset>): (r: Option<string>)
    ensures r.None? <==> forall i :: 0 <= i < |assets| ==> !IsDiskImage(assets[i])
    ensures r.Some? ==>
              exists i :: 0 <= i < |assets| && IsDiskImage(assets[i]) && r.value == assets[i].downloadUrl
                          && forall j :: 0 <= j < i ==> !IsDiskImage(assets[j])
    decreases |assets|
  {
    if assets == [] then None
    else if IsDiskImage(assets[0]) then Some(assets[0].downloadUrl)
    else
      var r := FirstDmgUrl(assets[1..]);
      assert forall i :: 1 <= i < |assets| ==> assets[i] == assets[1..][i - 1];
      r
  }

  /**
   * `check_for_update`, with the running version and the reply as inputs:
   * no reply or an unreadable release is an error, a failure status is "no
   * update", and an update is reported only for a strictly newer release.
   */
  function CheckForUpdate(current: string, reply: ReleaseReply): (r: Result<Option<UpdateInfo>, UpdateError>)
    ensures reply.SendFailed? ==> r == Failure(RequestFailed)
    ensures reply.Reply? && !OAuth.IsSuccess(reply.status) ==> r == Success(None)
    ensures reply.Reply? && OAuth.IsSuccess(reply.status) && reply.release.None? ==> r == Failure(MalformedRelease)
    ensures r.Success? && r.value.Some? <==>
              && reply.Reply? && OAuth.IsSuccess(reply.status) && reply.release.Some?
              && CompareVersions(current, StripTagPrefix(reply.release.value.tagName)) == Greater
    ensures r.Success? && r.value.Some? ==>
              r.value.value == UpdateInfo(StripTagPrefix(reply.release.value.tagName), reply.release.value.htmlUrl,
                                          FirstDmgUrl(reply.release.value.assets))
  {
    match reply
    case SendFailed => Failure(RequestFailed)
    case Reply(status, release) =>
      if !OAuth.IsSuccess(status) then Success(None)
      else if release.None? then Failure(MalformedRelease)
      else
        var remote := StripTagPrefix(release.value.tagName);
        if CompareVersions(current, remote) == Greater then
          Success(Some(UpdateInfo(remote, release.value.htmlUrl, FirstDmgUrl(release.value.assets))))
        else Success(None)
  }

  /** The release being run, tagged with or without `v`, is never an update. */
  lemma SameReleaseIsNoUpdate(current: string, release: Release, status: nat)
    requires release.tagName == ['v'] + current || (release.tagName == current && (current == [] || current[0] != 'v'))
    ensures CheckForUpdate(current, Reply(status, Some(release))) == Success(None)
  {
    CompareVersionsReflexive(current);
  }

  /** A reported update is a strictly newer version: its numbers come after the running ones. */
  lemma UpdateIsNewer(current: string, reply: ReleaseReply)
    requires CheckForUpdate(current, reply).Success? && CheckForUpdate(current, reply).value.Some?
    ensures LexLess(VersionParts(current), VersionParts(CheckForUpdate(current, reply).value.value.version))
    ensures CheckForUpdate(current, reply).value.value.version != current
  {
    var v := CheckForUpdate(current, reply).value.value.version;
    CompareVersionsGreaterIff(current, v);
  }
}
