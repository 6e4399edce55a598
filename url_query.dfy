/**
 * The two halves of `application/x-www-form-urlencoded` that the OAuth
 * flows use through the `url` crate: the serializer behind
 * `query_pairs_mut().append_pair` (building the authorize URL) and the
 * parser behind `query_pairs()` (reading the callback), plus the rule that
 * locates the query inside a URL or request target.
 */
module UrlQuery {
  import opened Wrappers
  import opened Text

  type Pair = (string, string)

  // ---------------------------------------------------------------------
  // Serializing (`form_urlencoded::byte_serialize`)
  // ---------------------------------------------------------------------

  /** Bytes the serializer leaves as they are: ASCII letters, digits and `*-._`. */
  predicate IsUnreserved(c: char) {
    ('A' <= c <= 'Z') || ('a' <= c <= 'z') || ('0' <= c <= '9')
    || c == '*' || c == '-' || c == '.' || c == '_'
  }

  /** Characters that can appear in serialized output. */
  predicate IsSerializedChar(c: char) {
    IsUnreserved(c) || c == '+' || c == '%'
  }

  predicate IsSerialized(s: string) {
    forall i :: 0 <= i < |s| ==> IsSerializedChar(s[i])
  }

  function HexDigit(d: nat): (c: char)
    requires d < 16
    ensures IsUnreserved(c)
  {
    if d < 10 then (d + '0' as int) as char else (d - 10 + 'A' as int) as char
  }

  /** `%XY` with upper-case hex digits. */
  function PercentByte(b: Byte): (r: string)
    ensures |r| == 3 && IsSerialized(r)
  {
    ['%', HexDigit(b / 16), HexDigit(b % 16)]
  }

  function PercentBytes(bytes: seq<Byte>): (r: string)
    ensures |r| == 3 * |bytes| && IsSerialized(r)
    decreases |bytes|
  {
    if bytes == [] then [] else PercentByte(bytes[0]) + PercentBytes(bytes[1..])
  }

  /** One character: kept, a space as `+`, anything else as the `%XY` escapes of its UTF-8 bytes. */
  function EncodeChar(c: char): (r: string)
    ensures r != [] && IsSerialized(r)
  {
    if IsUnreserved(c) then [c]
    else if c == ' ' then "+"
    else PercentBytes(Utf8(c))
  }

  /** `byte_serialize(s.as_bytes())`. */
  function Encode(s: string): (r: string)
    ensures IsSerialized(r)
    decreases |s|
  {
    if s == [] then [] else EncodeChar(s[0]) + Encode(s[1..])
  }

  function SerializePair(p: Pair): string {
    Encode(p.0) + "=" + Encode(p.1)
  }

  /** The query text that successive `append_pair` calls produce: `k=v` pieces joined by `&`. */
  function Serialize(pairs: seq<Pair>): (r: string)
    ensures r == [] <==> pairs == []
    decreases |pairs|
  {
    if pairs == [] then ""
    else if |pairs| == 1 then SerializePair(pairs[0])
    else SerializePair(pairs[0]) + "&" + Serialize(pairs[1..])
  }

  // ---------------------------------------------------------------------
  // Parsing (`form_urlencoded::parse`)
  // ---------------------------------------------------------------------

  predicate IsHex(c: char) {
    ('0' <= c <= '9') || ('a' <= c <= 'f') || ('A' <= c <= 'F')
  }

  function HexValue(c: char): (v: nat)
    requires IsHex(c)
    ensures v < 16
  {
    if '0' <= c <= '9' then c as int - '0' as int
    else if 'a' <= c <= 'f' then c as int - 'a' as int + 10
    else c as int - 'A' as int + 10
  }

  /**
   * Decodes one name or value: `+` is a space, `%` followed by two hex
   * digits is the byte they spell, and anything else (a lone `%` too)
   * stands for itself.
   */
  function Decode(s: string): string
    decreases |s|
  {
    if s == [] then []
    else if s[0] == '+' then [' '] + Decode(s[1..])
    else if s[0] == '%' && |s| >= 3 && IsHex(s[1]) && IsHex(s[2]) then
      [(HexValue(s[1]) * 16 + HexValue(s[2])) as char] + Decode(s[3..])
    else [s[0]] + Decode(s[1..])
  }

  /** The first index of `c` in `s`, if any. */
  function IndexOf(s: string, c: char): (r: Option<nat>)
    ensures r.None? <==> c !in s
    ensures r.Some? ==> r.value < |s| && s[r.value] == c && c !in s[..r.value]
    decreases |s|
  {
    if s == [] then None
    else if s[0] == c then Some(0)
    else match IndexOf(s[1..], c)
      case None => None
      case Some(i) => assert s[..i + 1] == [s[0]] + s[1..][..i]; Some(i + 1)
  }

  /** One `&`-separated piece: the name before the first `=` and the value after it (empty if there is no `=`). */
  function ParsePiece(piece: string): Pair {
    match IndexOf(piece, '=')
    case None => (Decode(piece), "")
    case Some(i) => (Decode(piece[..i]), Decode(piece[i + 1..]))
  }

  /** The pairs of the non-empty pieces, in order; empty pieces are skipped. */
  function ParsePieces(pieces: seq<string>): (r: seq<Pair>)
    ensures |r| <= |pieces|
    decreases |pieces|
  {
    if pieces == [] then []
    else (if pieces[0] == [] then [] else [ParsePiece(pieces[0])]) + ParsePieces(pieces[1..])
  }

  /** `form_urlencoded::parse(query)`. */
  function Parse(query: string): (r: seq<Pair>)
    ensures |r| <= |Split(query, '&')|
    ensures query == [] ==> r == []
  {
    ParsePieces(Split(query, '&'))
  }

  /**
   * The query of a URL or of a request target: what follows the first `?`,
   * up to the `#` that starts the fragment. Without a `?` there is no
   * query, which parses to no pairs, as the empty query does.
   */
  function QueryOf(target: string): (r: string)
    ensures |r| <= |target|
    ensures '#' !in r
    ensures '?' !in target ==> r == []
  {
    var beforeFragment := match IndexOf(target, '#') case None => target case Some(i) => target[..i];
    match IndexOf(beforeFragment, '?')
    case None => ""
    case Some(j) => beforeFragment[j + 1..]
  }

  /** The value of the first pair whose name is `key` (`query_pairs().find(..)`). */
  function FirstValue(pairs: seq<Pair>, key: string): (r: Option<string>)
    ensures r.None? <==> forall i :: 0 <= i < |pairs| ==> pairs[i].0 != key
    decreases |pairs|
  {
    if pairs == [] then None
    else if pairs[0].0 == key then Some(pairs[0].1)
    else FirstValue(pairs[1..], key)
  }

  /** The pair at `i` is the first named `key`, so its value is the one found. */
  lemma {:induction false} FirstValueAt(pairs: seq<Pair>, key: string, i: nat)
    requires i < |pairs| && pairs[i].0 == key
    requires forall j :: 0 <= j < i ==> pairs[j].0 != key
    ensures FirstValue(pairs, key) == Some(pairs[i].1)
    decreases i
  {
    if i > 0 {
      assert pairs[0].0 != key;
      FirstValueAt(pairs[1..], key, i - 1);
    }
  }

  /** What is found is the value of a pair named `key` with no such pair before it. */
  lemma {:induction false} FirstValueFound(pairs: seq<Pair>, key: string)
    requires FirstValue(pairs, key).Some?
    ensures exists i :: 0 <= i < |pairs| && pairs[i] == (key, FirstValue(pairs, key).value)
                        && (forall j :: 0 <= j < i ==> pairs[j].0 != key)
    decreases |pairs|
  {
    if pairs[0].0 != key {
      FirstValueFound(pairs[1..], key);
      var i :| 0 <= i < |pairs[1..]| && pairs[1..][i] == (key, FirstValue(pairs[1..], key).value)
                 && forall j :: 0 <= j < i ==> pairs[1..][j].0 != key;
      assert pairs[i + 1] == (key, FirstValue(pairs, key).value);
      assert forall j :: 0 <= j < i + 1 ==> pairs[j].0 != key by {
        forall j | 0 <= j < i + 1 ensures pairs[j].0 != key {
          if j > 0 { assert pairs[j] == pairs[1..][j - 1]; }
        }
      }
    } else {
      assert pairs[0] == (key, FirstValue(pairs, key).value);
    }
  }

  // ---------------------------------------------------------------------
  // Round trip: what the serializer writes, the parser reads back
  // ---------------------------------------------------------------------

  lemma HexValueOfDigit(d: nat)
    requires d < 16
    ensures IsHex(HexDigit(d)) && HexValue(HexDigit(d)) == d
  {
  }

  /** Decoding undoes the encoding of one ASCII character, whatever follows it. */
  lemma DecodeEncodeChar(c: char, rest: string)
    requires c as int < 128
    ensures Decode(EncodeChar(c) + rest) == [c] + Decode(rest)
  {
    var e := EncodeChar(c) + rest;
    if IsUnreserved(c) {
      assert e[1..] == rest;
    } else if c == ' ' {
      assert e[1..] == rest;
    } else {
      DecodePercentChar(c, rest);
    }
  }

  /** An ASCII character written as `%XY` decodes back to itself. */
  lemma DecodePercentChar(c: char, rest: string)
    requires c as int < 128 && !IsUnreserved(c) && c != ' '
    ensures Decode(EncodeChar(c) + rest) == [c] + Decode(rest)
  {
    var e := EncodeChar(c) + rest;
    var b := c as int;
    assert Utf8(c) == [b];
    assert PercentBytes([b]) == PercentByte(b) + PercentBytes([]);
    HexValueOfDigit(b / 16);
    HexValueOfDigit(b % 16);
    assert e[0] == '%' && e[1] == HexDigit(b / 16) && e[2] == HexDigit(b % 16);
    assert e[3..] == rest;
  }

  /** Decoding undoes encoding on ASCII text. */
  lemma {:induction false} DecodeEncode(s: string)
    requires IsAscii(s)
    ensures Decode(Encode(s)) == s
    decreases |s|
  {
    if s != [] {
      DecodeEncodeChar(s[0], Encode(s[1..]));
      DecodeEncode(s[1..]);
      assert s == [s[0]] + s[1..];
    }
  }

  lemma SerializedAvoids(s: string, c: char)
    requires IsSerialized(s)
    requires !IsSerializedChar(c)
    ensures c !in s
  {
  }

  lemma {:induction false} ParsePiecesAppend(a: seq<string>, b: seq<string>)
    ensures ParsePieces(a + b) == ParsePieces(a) + ParsePieces(b)
    decreases |a|
  {
    if a == [] {
      assert a + b == b;
    } else {
      assert (a + b)[1..] == a[1..] + b;
      ParsePiecesAppend(a[1..], b);
    }
  }

  lemma ParseSerializePair(p: Pair)
    requires IsAscii(p.0) && IsAscii(p.1)
    ensures '&' !in SerializePair(p)
    ensures ParsePieces([SerializePair(p)]) == [p]
  {
    SerializedPairAvoidsAmpersand(p);
    ParsePieceOfPair(p);
    assert [SerializePair(p)][1..] == [];
  }

  lemma SerializedPairAvoidsAmpersand(p: Pair)
    ensures '&' !in SerializePair(p)
  {
    SerializedAvoids(Encode(p.0), '&');
    SerializedAvoids(Encode(p.1), '&');
    assert '&' !in "=";
  }

  lemma ParsePieceOfPair(p: Pair)
    requires IsAscii(p.0) && IsAscii(p.1)
    ensures ParsePiece(SerializePair(p)) == p
  {
    var piece := SerializePair(p);
    var k := Encode(p.0);
    SerializedAvoids(k, '=');
    assert piece[|k|] == '=' && piece[..|k|] == k;
    assert IndexOf(piece, '=') == Some(|k|);
    assert piece[|k| + 1..] == Encode(p.1);
    DecodeEncode(p.0);
    DecodeEncode(p.1);
  }

  /**
   * The query text built by `append_pair` parses back to exactly the
   * pairs appended, in the order appended, when names and values are ASCII.
   */
  lemma {:induction false} ParseSerialize(pairs: seq<Pair>)
    requires forall i :: 0 <= i < |pairs| ==> IsAscii(pairs[i].0) && IsAscii(pairs[i].1)
    ensures Parse(Serialize(pairs)) == pairs
    decreases |pairs|
  {
    if pairs == [] {
      assert Split("", '&') == [[]];
    } else {
      ParseSerializePair(pairs[0]);
      SplitWithoutSeparator(SerializePair(pairs[0]), '&');
      if |pairs| > 1 {
        ParseSerialize(pairs[1..]);
        SplitAppend(SerializePair(pairs[0]), Serialize(pairs[1..]), '&');
        ParsePiecesAppend([SerializePair(pairs[0])], Split(Serialize(pairs[1..]), '&'));
        assert pairs == [pairs[0]] + pairs[1..];
      }
    }
  }

  predicate IsQueryChar(c: char) {
    IsSerializedChar(c) || c == '=' || c == '&'
  }

  predicate AllQueryChars(s: string) {
    forall i :: 0 <= i < |s| ==> IsQueryChar(s[i])
  }

  /** Two runs of query characters joined by a query character make one run. */
  lemma QueryCharsJoin(a: string, sep: char, b: string)
    requires AllQueryChars(a) && IsQueryChar(sep) && AllQueryChars(b)
    ensures AllQueryChars(a + [sep] + b)
  {
    var whole := a + [sep] + b;
    forall i | 0 <= i < |whole| ensures IsQueryChar(whole[i]) {
      if i < |a| { assert whole[i] == a[i]; }
      else if i > |a| { assert whole[i] == b[i - |a| - 1]; }
    }
  }

  lemma SerializedQueryChars(s: string)
    requires IsSerialized(s)
    ensures AllQueryChars(s)
  {
  }

  lemma {:induction false} SerializeChars(pairs: seq<Pair>)
    ensures AllQueryChars(Serialize(pairs))
    decreases |pairs|
  {
    if pairs != [] {
      var k, v := Encode(pairs[0].0), Encode(pairs[0].1);
      SerializedQueryChars(k);
      SerializedQueryChars(v);
      QueryCharsJoin(k, '=', v);
      assert SerializePair(pairs[0]) == k + ['='] + v;
      if |pairs| > 1 {
        SerializeChars(pairs[1..]);
        QueryCharsJoin(SerializePair(pairs[0]), '&', Serialize(pairs[1..]));
        assert Serialize(pairs) == SerializePair(pairs[0]) + ['&'] + Serialize(pairs[1..]);
      }
    }
  }

  /** Serialized query text has no whitespace, no `?` and no `#`. */
  lemma SerializeIsPlain(pairs: seq<Pair>)
    ensures NoWhitespace(Serialize(pairs))
    ensures '?' !in Serialize(pairs) && '#' !in Serialize(pairs)
  {
    var q := Serialize(pairs);
    SerializeChars(pairs);
    forall i | 0 <= i < |q| ensures !IsWhitespace(q[i]) && q[i] != '?' && q[i] != '#' {
      QueryCharPlain(q[i]);
    }
  }

  lemma QueryCharPlain(c: char)
    requires IsQueryChar(c)
    ensures !IsWhitespace(c) && c != '?' && c != '#'
  {
  }

  /** The query of `prefix ? query` is `query` when the prefix has neither `?` nor `#` and the query has no `#`. */
  lemma QueryOfJoined(prefix: string, query: string)
    requires '?' !in prefix && '#' !in prefix && '#' !in query
    ensures QueryOf(prefix + "?" + query) == query
  {
    var t := prefix + "?" + query;
    assert '#' !in t by {
      forall i | 0 <= i < |t| ensures t[i] != '#' {
        if i < |prefix| { assert t[i] == prefix[i]; }
        else if i > |prefix| { assert t[i] == query[i - |prefix| - 1]; }
      }
    }
    assert t[|prefix|] == '?' && t[..|prefix|] == prefix;
    assert IndexOf(t, '?') == Some(|prefix|);
    assert t[|prefix| + 1..] == query;
  }

  /** Searching past a different first character shifts the index by one. */
  lemma IndexOfCons(c: char, rest: string, x: char)
    requires c != x
    ensures IndexOf([c] + rest, x) == (match IndexOf(rest, x) case None => None case Some(i) => Some(i + 1))
  {
    assert ([c] + rest)[1..] == rest;
  }

  /** A leading character that is neither `?` nor `#` does not change the query. */
  lemma QueryOfCons(c: char, rest: string)
    requires c != '?' && c != '#'
    ensures QueryOf([c] + rest) == QueryOf(rest)
  {
    var s := [c] + rest;
    IndexOfCons(c, rest, '#');
    var before := match IndexOf(rest, '#') case None => rest case Some(i) => rest[..i];
    var sBefore := match IndexOf(s, '#') case None => s case Some(i) => s[..i];
    assert sBefore == [c] + before;
    IndexOfCons(c, before, '?');
    match IndexOf(before, '?')
    case None =>
    case Some(j) =>
      assert sBefore[j + 2..] == before[j + 1..];
  }

  /** A prefix without `?` or `#` does not change the query. */
  lemma {:induction false} QueryOfAfter(prefix: string, target: string)
    requires '?' !in prefix && '#' !in prefix
    ensures QueryOf(prefix + target) == QueryOf(target)
    decreases |prefix|
  {
    if prefix != [] {
      assert prefix + target == [prefix[0]] + (prefix[1..] + target);
      assert prefix[0] in prefix;
      assert forall x :: x in prefix[1..] ==> x in prefix;
      QueryOfAfter(prefix[1..], target);
      QueryOfCons(prefix[0], prefix[1..] + target);
    } else {
      assert prefix + target == target;
    }
  }

  /**
   * A URL whose query was built by successive `append_pair` calls: the
   * part before the query, and the pairs in the order they were appended.
   */
  datatype Url = Url(base: string, query: seq<Pair>)

  /** The URL as text: the base, `?`, then the serialized pairs. */
  function UrlText(u: Url): string {
    u.base + "?" + Serialize(u.query)
  }

  /** Reading the query of a URL's text gives back its pairs, in order. */
  lemma UrlTextQuery(u: Url)
    requires '?' !in u.base && '#' !in u.base
    requires forall i :: 0 <= i < |u.query| ==> IsAscii(u.query[i].0) && IsAscii(u.query[i].1)
    ensures Parse(QueryOf(UrlText(u))) == u.query
  {
    SerializeIsPlain(u.query);
    QueryOfJoined(u.base, Serialize(u.query));
    ParseSerialize(u.query);
  }
}
