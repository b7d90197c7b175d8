/**
 * The comment section of a post page (static/js/comments.js): the checks on
 * the comment form, the character counter, the relative dates on comments,
 * "load more" paging, and the upvote button's guard against double clicks.
 */
module Comments {
  import opened Wrappers
  import opened Strings

  /** The comment form's fields, as typed. */
  datatype CommentForm = CommentForm(authorName: string, authorEmail: string, content: string, authorWebsite: string)

  /** The body posted to the server. */
  datatype CommentData = CommentData(
    authorName: string, authorEmail: string, content: string, authorWebsite: Option<string>, postId: string)

  /** Why the form was refused before anything was sent. */
  datatype Rejection = MissingField | TooShort

  const MinContentLength: nat := 10

  /**
   * `handleCommentSubmit` up to the request: every field trimmed, an empty
   * website becomes null; name, e-mail and comment are required, and the
   * comment needs at least ten characters.
   */
  function ValidateComment(form: CommentForm, postId: string): (r: Result<CommentData, Rejection>)
    ensures r == Err(MissingField) <==>
              JsTrim(form.authorName) == "" || JsTrim(form.authorEmail) == "" || JsTrim(form.content) == ""
    ensures r == Err(TooShort) <==>
              JsTrim(form.authorName) != "" && JsTrim(form.authorEmail) != "" && 0 < |JsTrim(form.content)| < MinContentLength
    ensures r.Ok? ==> r.value.authorName == JsTrim(form.authorName) && r.value.authorName != ""
                      && r.value.authorEmail == JsTrim(form.authorEmail) && r.value.authorEmail != ""
                      && r.value.content == JsTrim(form.content) && |r.value.content| >= MinContentLength
                      && r.value.postId == postId
    ensures r.Ok? ==> (r.value.authorWebsite.None? <==> JsTrim(form.authorWebsite) == "")
                      && (r.value.authorWebsite.Some? ==> r.value.authorWebsite.value == JsTrim(form.authorWebsite))
  {
    var website := JsTrim(form.authorWebsite);
    var data := CommentData(JsTrim(form.authorName), JsTrim(form.authorEmail), JsTrim(form.content),
                            if website == "" then None else Some(website), postId);
    if data.authorName == "" || data.authorEmail == "" || data.content == "" then Err(MissingField)
    else if |data.content| < MinContentLength then Err(TooShort)
    else Ok(data)
  }

  /** The form a posted comment would be typed as. */
  function AsForm(data: CommentData): CommentForm
  {
    CommentForm(data.authorName, data.authorEmail, data.content,
                if data.authorWebsite.Some? then data.authorWebsite.value else "")
  }

  /** Submitting again what was accepted is accepted again and posts the same body. */
  lemma ValidateIdempotent(form: CommentForm, postId: string)
    requires ValidateComment(form, postId).Ok?
    ensures ValidateComment(AsForm(ValidateComment(form, postId).value), postId) == ValidateComment(form, postId)
  {
    var d := ValidateComment(form, postId).value;
    var f := AsForm(d);
    TrimIdempotent(form.authorName, Js);
    TrimIdempotent(form.authorEmail, Js);
    TrimIdempotent(form.content, Js);
    var r2 := ValidateComment(f, postId);
    assert r2 != Err(MissingField) && r2 != Err(TooShort);
    if d.authorWebsite.Some? {
      TrimIdempotent(form.authorWebsite, Js);
      assert JsTrim(f.authorWebsite) == d.authorWebsite.value != "";
      assert r2.value.authorWebsite == d.authorWebsite;
    } else {
      assert JsTrim(f.authorWebsite) == "";
      assert r2.value.authorWebsite == d.authorWebsite;
    }
    assert r2.value == d;
  }

  /** The counter's colours. */
  datatype Colour = Neutral | Warning | Danger

  /** `updateCharCount`: the untrimmed length decides the colour. */
  function CharCountColour(length: nat): (c: Colour)
    ensures c == Danger <==> length > 1800
    ensures c == Warning <==> 1500 < length <= 1800
  {
    if length > 1800 then Danger else if length > 1500 then Warning else Neutral
  }

  function Severity(c: Colour): nat
  {
    match c
    case Neutral => 0
    case Warning => 1
    case Danger => 2
  }

  /** Typing more never makes the counter less alarming. */
  lemma CharCountMonotone(a: nat, b: nat)
    requires a <= b
    ensures Severity(CharCountColour(a)) <= Severity(CharCountColour(b))
  {
  }

  /** How old a comment is, in the units `formatDate` prints. */
  datatype Age = JustNow | Minutes(n: nat) | Hours(n: nat) | Days(n: nat) | CalendarDate

  /**
   * `formatDate` on the milliseconds elapsed since the comment: whole seconds
   * (rounded down), then the first unit under its limit; from a week on, the
   * calendar date.
   */
  function CommentAge(elapsedMs: int): (a: Age)
    ensures var s := elapsedMs / 1000;
            && (a == JustNow <==> s < 60)
            && (a.Minutes? ==> 1 <= a.n < 60 && a.n * 60 <= s < (a.n + 1) * 60)
            && (a.Hours? ==> 1 <= a.n < 24 && a.n * 3600 <= s < (a.n + 1) * 3600)
            && (a.Days? ==> 1 <= a.n < 7 && a.n * 86400 <= s < (a.n + 1) * 86400)
            && (a == CalendarDate <==> s >= 604800)
  {
    var s := elapsedMs / 1000;
    if s < 60 then JustNow
    else if s < 3600 then Minutes(s / 60)
    else if s < 86400 then Hours(s / 3600)
    else if s < 604800 then Days(s / 86400)
    else CalendarDate
  }

  /**
   * "1 minute ago", "2 minutes ago": the count, a space and the unit; for a
   * unit not ending in 's', the text ends in "s ago" exactly when the count
   * is above one.
   */
  function Unit(n: nat, unit: string): (t: string)
    ensures IsPrefix(NatToString(n) + " " + unit, t)
    ensures EndsWith(t, " ago")
    ensures unit == [] || unit[|unit| - 1] != 's' ==> (EndsWith(t, "s ago") <==> n > 1)
  {
    var stem := NatToString(n) + " " + unit;
    if n > 1 then stem + "s ago"
    else
      var t := stem + " ago";
      assert t[|t| - 5] == stem[|stem| - 1];
      t
  }

  /** The relative text, or None where the page prints the locale date. */
  function AgeText(a: Age): (r: Option<string>)
    ensures r.None? <==> a == CalendarDate
    ensures r.Some? && a != JustNow ==> EndsWith(r.value, " ago")
  {
    match a
    case JustNow => Some("Just now")
    case Minutes(n) => Some(Unit(n, "minute"))
    case Hours(n) => Some(Unit(n, "hour"))
    case Days(n) => Some(Unit(n, "day"))
    case CalendarDate => None
  }

  /** `s.endsWith(p)`. */
  predicate EndsWith(s: string, p: string)
  {
    |p| <= |s| && s[|s| - |p|..] == p
  }

  /**
   * `formatDate`: "Just now" for the first minute; then the count of whole
   * units, which is above one exactly when the text is plural; from a week
   * on, no relative text (the page prints the calendar date).
   */
  lemma AgeTextPlural(elapsedMs: int)
    ensures var a := CommentAge(elapsedMs);
            && (AgeText(a) == Some("Just now") <==> a == JustNow)
            && (AgeText(a).None? <==> a == CalendarDate)
            && ((a.Minutes? || a.Hours? || a.Days?) ==>
                  AgeText(a).Some? && IsPrefix(NatToString(a.n) + " ", AgeText(a).value)
                  && (EndsWith(AgeText(a).value, "s ago") <==> a.n > 1))
  {
    var a := CommentAge(elapsedMs);
    if a.Minutes? || a.Hours? || a.Days? {
      var unit := if a.Minutes? then "minute" else if a.Hours? then "hour" else "day";
      var t := Unit(a.n, unit);
      assert AgeText(a) == Some(t);
      assert t != "Just now" by {
        assert EndsWith(t, " ago");
        assert "Just now"[5..] != " ago";
      }
      assert IsPrefix(NatToString(a.n) + " ", t) by {
        assert (NatToString(a.n) + " " + unit)[..|NatToString(a.n) + " "|] == NatToString(a.n) + " ";
      }
    }
  }

  /** What one "load more" request came to. */
  datatype PageOutcome =
    | Unavailable                                   // fetch or JSON parsing threw
    | Page(success: bool, count: nat, last: bool)   // the response: its flag, how many comments, whether last

  /** The paging state of one post's comment section. */
  class CommentsSystem {
    var currentPage: nat
    const pageSize: nat
    var hasMoreComments: bool
    /** How many comments "load more" has appended. */
    var appended: nat

    constructor ()
      ensures currentPage == 0 && pageSize == 10 && hasMoreComments && appended == 0
    {
      currentPage := 0;
      pageSize := 10;
      hasMoreComments := true;
      appended := 0;
    }

    /**
     * `loadMoreComments`: nothing once the end was reached; otherwise the next
     * page is requested (the counter moves before the request, and stays moved
     * when it fails); a non-empty page is appended and its `last` flag decides
     * whether more remain; an empty or unsuccessful page ends the paging; a
     * failure changes nothing else.
     */
    method LoadMoreComments(outcome: PageOutcome) returns (requested: Option<nat>)
      modifies this
      ensures !old(hasMoreComments) ==> requested.None? && currentPage == old(currentPage)
                                        && !hasMoreComments && appended == old(appended)
      ensures old(hasMoreComments) ==> requested == Some(old(currentPage) + 1) && currentPage == old(currentPage) + 1
      ensures old(hasMoreComments) && outcome.Page? && outcome.success && outcome.count > 0 ==>
                hasMoreComments == !outcome.last && appended == old(appended) + outcome.count
      ensures old(hasMoreComments) && outcome.Page? && !(outcome.success && outcome.count > 0) ==>
                !hasMoreComments && appended == old(appended)
      ensures old(hasMoreComments) && outcome.Unavailable? ==> hasMoreComments && appended == old(appended)
    {
      if !hasMoreComments {
        return None;
      }
      currentPage := currentPage + 1;
      requested := Some(currentPage);
      match outcome
      case Unavailable =>
      case Page(success, count, last) =>
        if success && count > 0 {
          appended := appended + count;
          hasMoreComments := !last;
        } else {
          hasMoreComments := false;
        }
    }
  }

  /** What the upvote request came to. */
  datatype UpvoteOutcome =
    | Upvoted(upvotes: Option<int>)   // success; the new count, when the reply carries a non-zero one
    | Refused                         // an unsuccessful reply, or a failed request

  /** One comment's upvote button. */
  class UpvoteButton {
    var disabled: bool
    var upvoted: bool
    var count: int
    /** Upvote requests sent so far. */
    var sent: nat

    constructor (count: int)
      ensures !disabled && !upvoted && this.count == count && sent == 0
    {
      disabled := false;
      upvoted := false;
      this.count := count;
      sent := 0;
    }

    /**
     * `upvoteComment`: a disabled button ignores the click. Otherwise it is
     * disabled and one request sent; on success the count is replaced and the
     * button marked, staying disabled until the one-second timer; on failure it
     * is enabled again at once.
     */
    method Click(outcome: UpvoteOutcome)
      modifies this
      ensures old(disabled) ==> disabled && upvoted == old(upvoted) && count == old(count) && sent == old(sent)
      ensures !old(disabled) ==> sent == old(sent) + 1
      ensures !old(disabled) && outcome.Upvoted? ==>
                disabled && upvoted && count == (if outcome.upvotes.Some? then outcome.upvotes.value else 0)
      ensures !old(disabled) && outcome.Refused? ==> !disabled && upvoted == old(upvoted) && count == old(count)
    {
      if disabled {
        return;
      }
      disabled := true;
      sent := sent + 1;
      match outcome
      case Upvoted(upvotes) =>
        count := if upvotes.Some? then upvotes.value else 0;
        upvoted := true;
      case Refused =>
        disabled := false;
    }

    /** The re-enable timer after a successful upvote. */
    method TimerFires()
      modifies this
      ensures !disabled && upvoted == old(upvoted) && count == old(count) && sent == old(sent)
    {
      disabled := false;
    }
  }
}
