/**
 * The `--tags` option of the upload command (src/main.rs): a
 * comma-separated list whose fields are trimmed, with the empty ones
 * dropped.
 */
module Tags {
  import opened Wrappers
  import opened Text

  /** The trimmed fields, in order, leaving out those that trim to nothing. */
  function CleanFields(fields: seq<string>): (r: seq<string>)
    ensures |r| <= |fields|
    ensures forall i :: 0 <= i < |r| ==> r[i] != [] && IsTrimmed(r[i])
    decreases |fields|
  {
    if fields == [] then []
    else
      var t := Trim(fields[0]);
      if t == [] then CleanFields(fields[1..]) else [t] + CleanFields(fields[1..])
  }

  /** `tags.map(|t| t.split(',').map(trim).filter(non-empty).collect())`. */
  function ParseTags(tags: Option<string>): (r: Option<seq<string>>)
    ensures r.None? <==> tags.None?
    ensures r.Some? ==> forall i :: 0 <= i < |r.value| ==> r.value[i] != [] && IsTrimmed(r.value[i])
  {
    match tags
    case None => None
    case Some(t) => Some(CleanFields(Split(t, ',')))
  }

  /** Trimming takes a slice, so it adds no character the string did not have. */
  lemma TrimKeepsOut(s: string, c: char)
    requires c !in s
    ensures c !in Trim(s)
  {
    var t := Trim(s);
    var k := TrimmedLead(s);
    TrimSlice(s);
    assert forall i :: 0 <= i < |t| ==> t[i] == s[k + i];
  }

  lemma {:induction false} CleanFieldsKeepOut(fields: seq<string>, c: char)
    requires forall i :: 0 <= i < |fields| ==> c !in fields[i]
    ensures forall i :: 0 <= i < |CleanFields(fields)| ==> c !in CleanFields(fields)[i]
    decreases |fields|
  {
    if fields != [] {
      TrimKeepsOut(fields[0], c);
      CleanFieldsKeepOut(fields[1..], c);
    }
  }

  /** No tag holds a comma. */
  lemma TagsHaveNoComma(t: string)
    ensures forall i :: 0 <= i < |ParseTags(Some(t)).value| ==> ',' !in ParseTags(Some(t)).value[i]
  {
    SplitPiecesAvoidSeparator(t, ',');
    CleanFieldsKeepOut(Split(t, ','), ',');
  }

  lemma {:induction false} CleanFieldsAppend(p: seq<string>, q: seq<string>)
    ensures CleanFields(p + q) == CleanFields(p) + CleanFields(q)
    decreases |p|
  {
    if p == [] {
      assert p + q == q;
    } else {
      assert (p + q)[0] == p[0] && (p + q)[1..] == p[1..] + q;
      CleanFieldsAppend(p[1..], q);
    }
  }

  /**
   * The tags keep the order of the fields: those before a comma come
   * first, then those after it.
   */
  lemma TagsInOrder(a: string, b: string)
    ensures ParseTags(Some(a + [','] + b)).value == ParseTags(Some(a)).value + ParseTags(Some(b)).value
  {
    SplitAppend(a, b, ',');
    CleanFieldsAppend(Split(a, ','), Split(b, ','));
  }

  /** A single field gives its trimmed text as one tag, or no tag when it is blank. */
  lemma OneField(field: string)
    requires ',' !in field
    ensures ParseTags(Some(field)).value == (if Trim(field) == [] then [] else [Trim(field)])
  {
    SplitWithoutSeparator(field, ',');
    assert [field][1..] == [];
  }

  /** Whitespace around a tag is dropped, whitespace inside it is kept. */
  lemma PaddedTag(pre: string, tag: string, post: string)
    requires forall i :: 0 <= i < |pre| ==> IsWhitespace(pre[i])
    requires forall i :: 0 <= i < |post| ==> IsWhitespace(post[i])
    requires tag != [] && IsTrimmed(tag) && ',' !in tag
    ensures ParseTags(Some(pre + tag + post)).value == [tag]
  {
    assert ',' !in pre + tag + post by {
      forall i | 0 <= i < |pre + tag + post|
        ensures (pre + tag + post)[i] != ','
      {
        if i < |pre| {
          assert IsWhitespace(pre[i]);
        } else if i >= |pre| + |tag| {
          assert IsWhitespace(post[i - |pre| - |tag|]);
        }
      }
    }
    OneField(pre + tag + post);
    TrimPadded(pre, tag, post);
  }

  /** A field of whitespace only gives no tag. */
  lemma BlankFieldDropped(field: string)
    requires forall i :: 0 <= i < |field| ==> IsWhitespace(field[i])
    ensures ParseTags(Some(field)).value == []
  {
    assert ',' !in field by {
      forall i | 0 <= i < |field|
        ensures field[i] != ','
      {
        assert IsWhitespace(field[i]);
      }
    }
    OneField(field);
    TrimBlank(field);
  }
}
