/**
 * The tag field of the post forms (static/js/app.js and static/js/admin.js):
 * the comma-separated text is split on ',', each piece trimmed, and the empty
 * pieces dropped.
 */
module Tags {
  import opened Strings

  /** Each piece trimmed, in order. */
  function TrimAll(parts: seq<string>): (r: seq<string>)
    ensures |r| == |parts| && forall i :: 0 <= i < |r| ==> r[i] == JsTrim(parts[i])
  {
    if parts == [] then [] else [JsTrim(parts[0])] + TrimAll(parts[1..])
  }

  /** The non-empty pieces, in order. */
  function NonEmpty(parts: seq<string>): (r: seq<string>)
    ensures |r| <= |parts|
    ensures forall t :: t in r ==> t in parts && t != ""
    ensures (forall i :: 0 <= i < |parts| ==> parts[i] != "") ==> r == parts
  {
    if parts == [] then []
    else if parts[0] == "" then NonEmpty(parts[1..])
    else [parts[0]] + NonEmpty(parts[1..])
  }

  /** `value.split(',').map(t => t.trim()).filter(t => t)`. */
  function ParseTags(text: string): seq<string>
  {
    NonEmpty(TrimAll(Split(text, ",")))
  }

  /** A well-formed tag: non-empty, without surrounding whitespace, without a comma. */
  predicate IsTag(t: string)
  {
    t != "" && JsTrim(t) == t && ',' !in t
  }

  /** No piece of a split on a one-character separator contains that character. */
  lemma {:induction false} SplitPiecesLackSeparator(s: string, sep: string)
    requires |sep| == 1
    ensures forall piece :: piece in Split(s, sep) ==> sep[0] !in piece
    decreases |s|
  {
    assert sep == [sep[0]];
    match Find(s, sep)
    case None =>
      forall k | 0 <= k < |s|
        ensures s[k] != sep[0]
      {
        assert s[k..k + 1] == [s[k]];
        assert !OccursAt(s, sep, k);
      }
    case Some(i) =>
      forall k | 0 <= k < i
        ensures s[k] != sep[0]
      {
        assert s[k..k + 1] == [s[k]];
        assert !OccursAt(s, sep, k);
      }
      assert sep[0] !in s[..i];
      SplitPiecesLackSeparator(s[i + 1..], sep);
  }

  /** Trimming keeps a character out if it was out. */
  lemma TrimKeepsOut(s: string, c: char)
    requires c !in s
    ensures c !in JsTrim(s)
  {
    var a := TrimStart(s, Js);
    assert c !in a;
    var b := TrimEnd(a, Js);
    assert c !in b;
  }

  /** Whatever is typed, the result is a list of well-formed tags. */
  lemma {:induction false} ParseTagsWellFormed(text: string)
    ensures forall t :: t in ParseTags(text) ==> IsTag(t)
  {
    var pieces := Split(text, ",");
    SplitPiecesLackSeparator(text, ",");
    var trimmed := TrimAll(pieces);
    forall i | 0 <= i < |trimmed|
      ensures JsTrim(trimmed[i]) == trimmed[i] && ',' !in trimmed[i]
    {
      TrimIdempotent(pieces[i], Js);
      assert pieces[i] in pieces;
      TrimKeepsOut(pieces[i], ',');
    }
  }

  /** Typing well-formed tags separated by commas gives them back, in order. */
  lemma ParseTagsJoin(tags: seq<string>)
    requires forall i :: 0 <= i < |tags| ==> IsTag(tags[i])
    ensures ParseTags(Join(tags, ",")) == tags
  {
    if tags == [] {
      EmptyFieldNoTags();
    } else {
      assert ","[0] == ',';
      SplitJoin(tags, ",");
      TrimAllKeepsTags(tags);
      assert forall i :: 0 <= i < |tags| ==> tags[i] != "";
    }
  }

  /** An empty field gives no tags. */
  lemma EmptyFieldNoTags()
    ensures ParseTags("") == []
  {
    assert Split("", ",") == [""];
    assert TrimAll([""]) == [JsTrim("")];
  }

  lemma TrimAllKeepsTags(tags: seq<string>)
    requires forall i :: 0 <= i < |tags| ==> IsTag(tags[i])
    ensures TrimAll(tags) == tags
  {
  }
}
