/**
 * The post generator (app/services/ai_service.py): the JSON text cut out of
 * the model's reply, and the post made from it, with defaults for missing
 * keys and a fallback when the text does not parse.
 */
module AIService {
  import opened Wrappers
  import opened Strings

  const JsonFence: string := "```json"
  const Fence: string := "```"
  const DefaultTitle: string := "AI Generated Blog Post"
  const ExcerptLength: nat := 200

  /**
   * The text handed to `json.loads`: the part after the first "```json" up
   * to the next "```json" and then up to the first "```"; else the part
   * between the first two "```"; else the whole reply; stripped each time.
   */
  function ExtractJson(reply: string): (r: string)
    ensures |r| <= |reply|
  {
    if Contains(reply, JsonFence) then
      var after := Split(reply, JsonFence)[1];
      SplitPieceShorter(reply, JsonFence, 1);
      SplitPieceShorter(after, Fence, 0);
      PyStrip(Split(after, Fence)[0])
    else if Contains(reply, Fence) then
      var inside := Split(reply, Fence)[1];
      SplitPieceShorter(reply, Fence, 1);
      SplitPieceShorter(inside, Fence, 0);
      PyStrip(Split(inside, Fence)[0])
    else
      PyStrip(reply)
  }

  /** No piece of a split is longer than the string split. */
  lemma {:induction false} SplitPieceShorter(s: string, sep: string, i: nat)
    requires |sep| > 0 && i < |Split(s, sep)|
    ensures |Split(s, sep)[i]| <= |s|
    decreases |s|
  {
    match Find(s, sep)
    case None =>
    case Some(k) =>
      SplitStep(s, sep, k);
      if i > 0 {
        SplitPieceShorter(s[k + |sep|..], sep, i - 1);
      }
  }

  /** At the first separator, the second piece of a split is the first piece of the rest. */
  lemma SplitSecond(s: string, sep: string, i: nat)
    requires |sep| > 0 && Find(s, sep) == Some(i)
    ensures i + |sep| <= |s|
    ensures Split(s, sep)[1] == Split(s[i + |sep|..], sep)[0]
  {
    SplitStep(s, sep, i);
  }

  /** The first piece of a split: up to the first separator, or everything. */
  lemma SplitFirst(s: string, sep: string)
    requires |sep| > 0
    ensures Split(s, sep)[0] == if Find(s, sep).Some? then s[..Find(s, sep).value] else s
  {
  }

  /** An occurrence that fits in the prefix `x[..k]` is an occurrence in `x`, and conversely. */
  lemma OccursInPrefix(x: string, p: string, k: nat, q: nat)
    requires k <= |x|
    ensures OccursAt(x[..k], p, q) <==> OccursAt(x, p, q) && q + |p| <= k
  {
    if q + |p| <= k {
      assert x[..k][q..q + |p|] == x[q..q + |p|];
    }
  }

  /**
   * The first occurrence in a prefix: the first occurrence in the whole
   * string when it fits in the prefix, and none when it does not.
   */
  lemma FindInPrefix(x: string, p: string, k: nat)
    requires k <= |x|
    ensures Find(x, p).Some? && Find(x, p).value + |p| <= k ==> Find(x[..k], p) == Find(x, p)
    ensures Find(x, p).None? || k < Find(x, p).value + |p| ==> Find(x[..k], p).None?
  {
    var f := Find(x, p);
    if f.Some? && f.value + |p| <= k {
      OccursInPrefix(x, p, k, f.value);
      forall q | 0 <= q < f.value
        ensures !OccursAt(x[..k], p, q)
      {
        OccursInPrefix(x, p, k, q);
      }
      FindUnique(x[..k], p, f.value);
    } else {
      forall q | 0 <= q <= k - |p|
        ensures !OccursAt(x[..k], p, q)
      {
        OccursInPrefix(x, p, k, q);
        NotBeforeFirst(x, p, q);
      }
    }
  }

  /** An occurrence with none before it is what `Find` reports. */
  lemma FindUnique(s: string, p: string, i: nat)
    requires OccursAt(s, p, i) && forall q :: 0 <= q < i ==> !OccursAt(s, p, q)
    ensures Find(s, p) == Some(i)
  {
    assert Contains(s, p);
  }

  /** No occurrence precedes the first, and there is none when `Find` reports none. */
  lemma NotBeforeFirst(s: string, p: string, q: nat)
    ensures Find(s, p).None? || q < Find(s, p).value ==> !OccursAt(s, p, q)
  {
    if Find(s, p).None? && q <= |s| - |p| {
      assert !Contains(s, p);
    }
  }

  /** Every "```json" is a "```" at the same place. */
  lemma JsonFenceIsFence(s: string, k: nat)
    requires OccursAt(s, JsonFence, k)
    ensures OccursAt(s, Fence, k)
  {
    assert s[k..k + 3] == s[k..k + 7][..3];
  }

  /** A string with no "```" has no "```json". */
  lemma NoFenceNoJsonFence(s: string)
    ensures !Contains(s, Fence) ==> !Contains(s, JsonFence)
  {
    if Contains(s, JsonFence) {
      var k :| 0 <= k <= |s| - |JsonFence| && OccursAt(s, JsonFence, k);
      JsonFenceIsFence(s, k);
    }
  }

  /** A reply without any fence is parsed whole. */
  lemma UnfencedReplyParsedWhole(reply: string)
    requires !Contains(reply, Fence)
    ensures ExtractJson(reply) == PyStrip(reply)
  {
    NoFenceNoJsonFence(reply);
  }

  /**
   * After the first "```json" the body runs to the end when no "```" follows
   * it (an unclosed block is parsed whole).
   */
  lemma JsonFenceUnclosed(reply: string, i: nat)
    requires Find(reply, JsonFence) == Some(i)
    requires !Contains(reply[i + |JsonFence|..], Fence)
    ensures ExtractJson(reply) == PyStrip(reply[i + |JsonFence|..])
  {
    var x := reply[i + |JsonFence|..];
    SplitSecond(reply, JsonFence, i);
    NoFenceNoJsonFence(x);
    SplitFirst(x, JsonFence);
    SplitFirst(x, Fence);
  }

  /**
   * After the first "```json" the body runs to the first "```" that follows,
   * unless a "```json" begins one or two characters into that fence; the
   * body may hold single backquotes, a "```" before the opening fence does
   * not count, and whatever follows the closing fence is ignored.
   */
  lemma JsonFenceClosed(reply: string, i: nat, j: nat)
    requires Find(reply, JsonFence) == Some(i)
    requires Find(reply[i + |JsonFence|..], Fence) == Some(j)
    requires !OccursAt(reply[i + |JsonFence|..], JsonFence, j + 1) && !OccursAt(reply[i + |JsonFence|..], JsonFence, j + 2)
    ensures ExtractJson(reply) == PyStrip(reply[i + |JsonFence|..][..j])
  {
    SplitSecond(reply, JsonFence, i);
    ClosedBody(reply[i + |JsonFence|..], j);
  }

  /** The body cut out of the text after the opening fence, when its first "```" is not overlapped. */
  lemma ClosedBody(x: string, j: nat)
    requires Find(x, Fence) == Some(j)
    requires !OccursAt(x, JsonFence, j + 1) && !OccursAt(x, JsonFence, j + 2)
    ensures Split(Split(x, JsonFence)[0], Fence)[0] == x[..j]
  {
    SplitFirst(x, JsonFence);
    match Find(x, JsonFence)
    case None =>
      SplitFirst(x, Fence);
    case Some(k) =>
      assert OccursAt(x, JsonFence, k);
      JsonFenceIsFence(x, k);
      assert j <= k;
      assert k != j + 1 && k != j + 2;
      CutAtJsonFence(x, j, k);
  }

  /** A "```json" at or after the first "```" leaves that fence, whole or not at all, in the cut text. */
  lemma CutAtJsonFence(x: string, j: nat, k: nat)
    requires Find(x, Fence) == Some(j) && k + |JsonFence| <= |x|
    requires k == j || k >= j + |Fence|
    ensures Split(x[..k], Fence)[0] == x[..j]
  {
    var cut := x[..k];
    FindInPrefix(x, Fence, k);
    SplitFirst(cut, Fence);
    if k == j {
      assert Find(cut, Fence).None?;
    } else {
      assert Find(cut, Fence) == Some(j);
      PrefixOfPrefix(x, k, j);
    }
  }

  lemma PrefixOfPrefix(x: string, k: nat, j: nat)
    requires j <= k <= |x|
    ensures x[..k][..j] == x[..j]
  {
  }

  /**
   * When a "```json" begins one or two characters into the first fence after
   * the opening one ("````json"), the body runs to that "```json" instead.
   */
  lemma JsonFenceOverlapped(reply: string, i: nat, j: nat, k: nat)
    requires Find(reply, JsonFence) == Some(i)
    requires Find(reply[i + |JsonFence|..], Fence) == Some(j)
    requires Find(reply[i + |JsonFence|..], JsonFence) == Some(k) && j < k < j + 3
    ensures ExtractJson(reply) == PyStrip(reply[i + |JsonFence|..][..k])
  {
    var x := reply[i + |JsonFence|..];
    SplitSecond(reply, JsonFence, i);
    SplitFirst(x, JsonFence);
    FindInPrefix(x, Fence, k);
    SplitFirst(x[..k], Fence);
  }

  /**
   * Without "```json" anywhere, the body runs from the first "```" to the
   * next one, or to the end when there is none.
   */
  lemma PlainFenceBody(reply: string, i: nat)
    requires !Contains(reply, JsonFence) && Find(reply, Fence) == Some(i)
    ensures var x := reply[i + |Fence|..];
            ExtractJson(reply) == PyStrip(if Find(x, Fence).Some? then x[..Find(x, Fence).value] else x)
  {
    var x := reply[i + |Fence|..];
    SplitSecond(reply, Fence, i);
    SplitFirst(x, Fence);
    var inside := Split(x, Fence)[0];
    FindInPrefix(x, Fence, if Find(x, Fence).Some? then Find(x, Fence).value else |x|);
    assert Find(x, Fence).None? ==> x[..|x|] == x;
    SplitFirst(inside, Fence);
  }

  /** What `json.loads` produced: an object with some of the four keys, or a decode error. */
  datatype JsonObject = JsonObject(title: Option<string>, content: Option<string>,
                                   excerpt: Option<string>, tags: Option<seq<string>>)
  datatype Decoded = Decoded(obj: JsonObject) | DecodeError

  /** The dictionary `generate_blog_post` returns. */
  datatype Generated = Generated(title: string, content: string, excerpt: string, tags: seq<string>)

  /** `content[:200] if len(content) > 200 else content`: the first 200 characters. */
  function FallbackExcerpt(content: string): (r: string)
    ensures |r| == if |content| < ExcerptLength then |content| else ExcerptLength
    ensures IsPrefix(r, content)
  {
    if |content| > ExcerptLength then content[..ExcerptLength] else content
  }

  /** A decoded object with every missing key filled in; a missing excerpt is cut from the content. */
  function Complete(obj: JsonObject, reply: string): (g: Generated)
    ensures g.title == (if obj.title.Some? then obj.title.value else DefaultTitle)
    ensures g.content == (if obj.content.Some? then obj.content.value else reply)
    ensures obj.excerpt.Some? ==> g.excerpt == obj.excerpt.value
    ensures obj.excerpt.None? ==> g.excerpt == FallbackExcerpt(g.content)
    ensures g.tags == (if obj.tags.Some? then obj.tags.value else [])
  {
    var content := if obj.content.Some? then obj.content.value else reply;
    Generated(if obj.title.Some? then obj.title.value else DefaultTitle,
              content,
              if obj.excerpt.Some? then obj.excerpt.value else FallbackExcerpt(content),
              if obj.tags.Some? then obj.tags.value else [])
  }

  /**
   * `generate_blog_post` after the reply has arrived: `loads` stands for
   * `json.loads`. A decode error gives the default title, the whole reply
   * and its first 200 characters, and no tags.
   */
  function GenerateFromReply(reply: string, loads: string -> Decoded): (g: Generated)
    ensures loads(ExtractJson(reply)).Decoded? ==> g == Complete(loads(ExtractJson(reply)).obj, reply)
    ensures loads(ExtractJson(reply)).DecodeError? ==>
              g.title == DefaultTitle && g.content == reply && g.tags == []
              && IsPrefix(g.excerpt, reply) && |g.excerpt| == (if |reply| < ExcerptLength then |reply| else ExcerptLength)
  {
    match loads(ExtractJson(reply))
    case Decoded(obj) => Complete(obj, reply)
    case DecodeError => Generated(DefaultTitle, reply, FallbackExcerpt(reply), [])
  }

  /**
   * Whichever way the post was made, an excerpt that was not supplied is a
   * prefix of the content of at most 200 characters, and the title and
   * content are never missing.
   */
  lemma DefaultedExcerptFits(reply: string, loads: string -> Decoded)
    ensures var g := GenerateFromReply(reply, loads);
            (loads(ExtractJson(reply)).DecodeError? || loads(ExtractJson(reply)).obj.excerpt.None?) ==>
              IsPrefix(g.excerpt, g.content) && |g.excerpt| <= ExcerptLength
  {
  }

  /** A complete object is returned as the model wrote it. */
  lemma CompleteObjectKept(reply: string, loads: string -> Decoded, t: string, c: string, e: string, tags: seq<string>)
    requires loads(ExtractJson(reply)) == Decoded(JsonObject(Some(t), Some(c), Some(e), Some(tags)))
    ensures GenerateFromReply(reply, loads) == Generated(t, c, e, tags)
  {
  }
}
