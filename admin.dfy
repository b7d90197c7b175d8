/**
 * The rules of the admin panel (static/js/admin.js) that decide something
 * before a request is sent: the AI prompt's length bands, the generate
 * request, the page form's PUT/POST choice and the dashboard's view total.
 * Its theme switch is `Theme.PageTheme`, its notification button
 * `Notifications.Gate`, its manual tag field `Tags.ParseTags`.
 */
module Admin {
  import opened Wrappers
  import opened Strings

  const MinPrompt: nat := 10
  const MaxPrompt: nat := 500
  const DefaultAuthor: string := "Admin"

  /** The hint under the prompt box, by the trimmed length. */
  datatype Band = NeedMore(missing: nat) | TooMany | Ready

  /** `updatePromptValidation`: too short (and by how much), too long, or ready. */
  function PromptHint(prompt: string): (b: Band)
    ensures var n := |JsTrim(prompt)|;
            && (b.NeedMore? <==> n < MinPrompt)
            && (b.NeedMore? ==> 1 <= b.missing && n + b.missing == MinPrompt)
            && (b == TooMany <==> n > MaxPrompt)
            && (b == Ready <==> MinPrompt <= n <= MaxPrompt)
  {
    var n := |JsTrim(prompt)|;
    if n < MinPrompt then NeedMore(MinPrompt - n)
    else if n > MaxPrompt then TooMany
    else Ready
  }

  /** The colour of the hint: the success colour only when ready. */
  function HintIsSuccess(b: Band): (ok: bool)
    ensures ok <==> b == Ready
  {
    b.Ready?
  }

  /** The words after the character count. */
  function HintSuffix(b: Band): string
  {
    match b
    case NeedMore(k) => " (Need " + NatToString(k) + " more characters)"
    case TooMany => " (Too many characters - max 500)"
    case Ready => " ✓ Ready to generate"
  }

  /** Why `handleAdminAIGenerate` stopped before the request. */
  datatype PromptError = EmptyPrompt | ShortPrompt | LongPrompt

  /** The body of POST /posts/generate. */
  datatype GenerateRequest = GenerateRequest(prompt: string, author: string)

  /**
   * `handleAdminAIGenerate` up to the request: prompt and author are trimmed;
   * an empty, too short or too long prompt is refused; an empty author
   * becomes 'Admin'.
   */
  function CheckPrompt(prompt: string, author: string): (r: Result<GenerateRequest, PromptError>)
    ensures r == Err(EmptyPrompt) <==> JsTrim(prompt) == ""
    ensures r == Err(ShortPrompt) <==> 0 < |JsTrim(prompt)| < MinPrompt
    ensures r == Err(LongPrompt) <==> |JsTrim(prompt)| > MaxPrompt
    ensures r.Ok? ==> r.value.prompt == JsTrim(prompt) && MinPrompt <= |r.value.prompt| <= MaxPrompt
    ensures r.Ok? ==> r.value.author != ""
                      && (JsTrim(author) != "" ==> r.value.author == JsTrim(author))
                      && (JsTrim(author) == "" ==> r.value.author == DefaultAuthor)
  {
    var p := JsTrim(prompt);
    var a := JsTrim(author);
    if p == "" then Err(EmptyPrompt)
    else if |p| < MinPrompt then Err(ShortPrompt)
    else if |p| > MaxPrompt then Err(LongPrompt)
    else Ok(GenerateRequest(p, if a == "" then DefaultAuthor else a))
  }

  /** The button sends exactly what the hint announces as ready. */
  lemma CheckAgreesWithHint(prompt: string, author: string)
    ensures CheckPrompt(prompt, author).Ok? <==> PromptHint(prompt) == Ready
    ensures CheckPrompt(prompt, author).Err? <==> !HintIsSuccess(PromptHint(prompt))
  {
  }

  /** The request the page form sends. */
  datatype Verb = Put | Post
  datatype PageCall = PageCall(verb: Verb, path: string, displayOrder: int)

  /** `handlePageSubmit`: an existing page (non-empty id) is replaced, otherwise one is created. */
  function PageSubmit(pageId: string): (c: PageCall)
    ensures c.verb == Put <==> pageId != ""
    ensures c.verb == Put ==> c.path == "/pages/" + pageId
    ensures c.verb == Post ==> c.path == "/pages"
    ensures c.displayOrder == 0
  {
    if pageId != "" then PageCall(Put, "/pages/" + pageId, 0) else PageCall(Post, "/pages", 0)
  }

  /** Different page ids address different pages, and never the collection itself. */
  lemma PageSubmitTargetsOnePage(a: string, b: string)
    ensures PageSubmit(a).path == PageSubmit(b).path <==> a == b
  {
    var pa, pb := PageSubmit(a).path, PageSubmit(b).path;
    assert a != "" ==> |pa| > |"/pages"| && pa[7..] == a;
    assert b != "" ==> |pb| > |"/pages"| && pb[7..] == b;
  }

  /** `post.viewCount || 0`: a missing count counts as nothing. */
  function Views(viewCount: Option<int>): int
  {
    if viewCount.Some? then viewCount.value else 0
  }

  /** The dashboard's total views: the `reduce` over the listed posts, left to right. */
  function TotalViews(counts: seq<Option<int>>): int
  {
    if counts == [] then 0 else TotalViews(counts[..|counts| - 1]) + Views(counts[|counts| - 1])
  }

  /** The total of two lists one after the other is the sum of their totals. */
  lemma {:induction false} TotalViewsAppend(a: seq<Option<int>>, b: seq<Option<int>>)
    ensures TotalViews(a + b) == TotalViews(a) + TotalViews(b)
    decreases |b|
  {
    if b == [] {
      assert a + b == a;
    } else {
      var last := |b| - 1;
      assert (a + b)[..|a + b| - 1] == a + b[..last];
      TotalViewsAppend(a, b[..last]);
    }
  }

  /** Posts without a count add nothing, and non-negative counts give a total at least each of them. */
  lemma {:induction false} TotalViewsBounds(counts: seq<Option<int>>)
    requires forall i :: 0 <= i < |counts| ==> Views(counts[i]) >= 0
    ensures TotalViews(counts) >= 0
    ensures forall i :: 0 <= i < |counts| ==> Views(counts[i]) <= TotalViews(counts)
  {
    if counts != [] {
      var init := counts[..|counts| - 1];
      TotalViewsBounds(init);
      assert forall i :: 0 <= i < |init| ==> counts[i] == init[i];
    }
  }
}
