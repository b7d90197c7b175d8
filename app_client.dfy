/**
 * The rest of the public pages' script (static/js/app.js) that decides
 * something: the new-post notification watcher, the start-up theme, the
 * relative times of the post lists, the newsletter and search input checks,
 * the fallback search filter and the two pagination bars.
 */
module App {
  import opened Wrappers
  import opened Strings
  import Theme
  import Notifications
  import Comments

  // ----- New-post notifications -----------------------------------------------

  const DayMs: int := 24 * 60 * 60 * 1000

  /**
   * The `checkForNewPosts` test: notifications are on and the newest post was
   * created within the last day and after the last announced one.
   */
  predicate ShouldNotify(on: bool, latest: Option<int>, now: int, lastPostCheck: int)
  {
    on && latest.Some? && latest.value > now - DayMs && latest.value > lastPostCheck
  }

  /** A post that was announced is not announced again, whatever the time. */
  lemma AnnouncedOnce(on: bool, t: int, now1: int, now2: int, last: int)
    requires ShouldNotify(on, Some(t), now1, last)
    ensures !ShouldNotify(on, Some(t), now2, t)
    ensures forall u :: u <= t ==> !ShouldNotify(on, Some(u), now2, t)
  {
  }

  /**
   * The notification state of the public pages: the bell (`Notifications.Gate`),
   * whether the five-minute check is running, and the time of the last post
   * announced.
   */
  class PostWatcher {
    const gate: Notifications.Gate
    var checking: bool
    var lastPostCheck: int
    /** The 'lastPostCheck' entry of local storage. */
    var storedCheck: Option<int>

    ghost predicate Valid()
      reads this, gate
    {
      gate.Drawn() && (checking <==> gate.state.On())
    }

    /**
     * `initializeNotifications`: the saved choice and the browser permission;
     * a saved choice with an undecided permission asks the browser at once,
     * and `answer` is its reply. Checking runs exactly when notifications are on.
     * The last announced time starts from its saved value, or 0.
     */
    constructor (stored: bool, permission: Notifications.Permission, answer: Notifications.Permission,
                 savedCheck: Option<int>)
      ensures fresh(gate) && Valid()
      ensures lastPostCheck == (if savedCheck.Some? then savedCheck.value else 0) && storedCheck == savedCheck
      ensures permission == Notifications.Default && stored ==>
                gate.state == Notifications.Switch(answer, answer == Notifications.Granted)
                && gate.stored == (answer == Notifications.Granted)
      ensures !(permission == Notifications.Default && stored) ==>
                gate.state == Notifications.Switch(permission, stored) && gate.stored == stored
    {
      gate := new Notifications.Gate(stored, permission);
      lastPostCheck := if savedCheck.Some? then savedCheck.value else 0;
      storedCheck := savedCheck;
      new;
      if permission == Notifications.Default && stored {
        var _ := gate.Click(answer);
      }
      checking := gate.state.On();
    }

    /** `toggleNotifications`, which also starts or stops the periodic check. */
    method ToggleNotifications(answer: Notifications.Permission) returns (notice: Notifications.Notice)
      requires Valid()
      modifies this, gate
      ensures gate.state == Notifications.ToggleSwitch(old(gate.state), answer).next
      ensures notice == Notifications.ToggleSwitch(old(gate.state), answer).notice
      ensures lastPostCheck == old(lastPostCheck) && storedCheck == old(storedCheck) && Valid()
    {
      notice := gate.Click(answer);
      checking := gate.state.On();
    }

    /**
     * One run of `checkForNewPosts`; `latest` is the creation time of the newest
     * published post, or None when the request failed or found nothing. The
     * result says whether a notification was shown; `lastPostCheck` only grows
     * and is saved whenever it moves.
     */
    method CheckForNewPosts(latest: Option<int>, now: int) returns (notified: bool)
      requires Valid()
      modifies this
      ensures notified <==> ShouldNotify(gate.state.On(), latest, now, old(lastPostCheck))
      ensures notified ==> lastPostCheck == latest.value && storedCheck == Some(latest.value)
      ensures !notified ==> lastPostCheck == old(lastPostCheck) && storedCheck == old(storedCheck)
      ensures lastPostCheck >= old(lastPostCheck)
      ensures checking == old(checking) && Valid()
    {
      if !gate.state.On() {
        return false;
      }
      notified := false;
      if latest.Some? {
        var t := latest.value;
        if t > now - DayMs && t > lastPostCheck {
          notified := true;
          lastPostCheck := t;
          storedCheck := Some(t);
        }
      }
    }
  }

  // ----- Start-up theme ---------------------------------------------------------

  /** The script throws before it finishes. */
  datatype Failure = ReferenceError

  /**
   * The theme part of the start-up handler as written: `currentTheme` is
   * chosen only from a saved value or a dark system preference, is declared
   * nowhere, and is then read by `updateThemeToggleIcon` when the page has a
   * toggle button. The result is the value `currentTheme` is left with (None
   * while unassigned), or the error that aborts the rest of start-up.
   */
  function StartupThemeAsWritten(saved: Option<string>, prefersDark: bool, hasToggleButton: bool)
    : (r: Result<Option<string>, Failure>)
    ensures r.Err? <==> (saved.None? || saved.value == "") && !prefersDark && hasToggleButton
    ensures r.Ok? && r.value.Some? ==> r.value.value == Theme.InitialTheme(saved, prefersDark)
  {
    var chosen := if saved.Some? && saved.value != "" then Some(saved.value)
                    else if prefersDark then Some(Theme.Dark)
                    else None;
    if chosen.None? && hasToggleButton then Err(ReferenceError) else Ok(chosen)
  }

  /** `toggleTheme` as written: it reads `currentTheme` first, which fails while it is unassigned. */
  function ToggleThemeAsWritten(current: Option<string>): (r: Result<string, Failure>)
    ensures r.Err? <==> current.None?
    ensures r.Ok? ==> r.value == Theme.Toggled(current.value)
  {
    if current.None? then Err(ReferenceError) else Ok(Theme.Toggled(current.value))
  }

  /** A first visit with a light system preference aborts start-up, and the theme button then fails too. */
  lemma FirstLightVisitFails()
    ensures StartupThemeAsWritten(None, false, true) == Err(ReferenceError)
    ensures StartupThemeAsWritten(None, false, false) == Ok(None)
    ensures ToggleThemeAsWritten(None) == Err(ReferenceError)
  {
  }

  /**
   * The start-up theme with `currentTheme` declared as 'light', as the admin
   * panel and the full-page chatbot declare it: it never fails and agrees with
   * the script wherever the script gets through with a theme.
   */
  function StartupTheme(saved: Option<string>, prefersDark: bool, hasToggleButton: bool): (r: Result<string, Failure>)
    ensures r.Ok?
    ensures r.value == Theme.Light || r.value == Theme.Dark || (saved.Some? && r.value == saved.value)
    ensures StartupThemeAsWritten(saved, prefersDark, hasToggleButton).Ok? ==>
              r.value == (if StartupThemeAsWritten(saved, prefersDark, hasToggleButton).value.Some?
                          then StartupThemeAsWritten(saved, prefersDark, hasToggleButton).value.value
                          else Theme.Light)
  {
    Ok(Theme.InitialTheme(saved, prefersDark))
  }

  /** With the declaration, the page's theme button always works and the icon follows the theme. */
  lemma StartupThenToggle(saved: Option<string>, prefersDark: bool, hasToggleButton: bool)
    ensures var t := StartupTheme(saved, prefersDark, hasToggleButton).value;
            && ToggleThemeAsWritten(Some(t)).Ok?
            && (Theme.ButtonIcon(ToggleThemeAsWritten(Some(t)).value) == Theme.Sun <==> t == Theme.Light)
  {
  }

  // ----- Relative times -------------------------------------------------------

  /** The units of `formatTimeAgo`. */
  datatype Ago = AgoJustNow | AgoMinutes(n: nat) | AgoHours(n: nat) | AgoDays(n: nat)

  /**
   * `formatTimeAgo` on the milliseconds elapsed: whole seconds rounded down;
   * under a minute (negative included) it is "Just now", then the first unit
   * under its limit; days have no limit.
   */
  function TimeAgo(elapsedMs: int): (a: Ago)
    ensures var s := elapsedMs / 1000;
            && (a == AgoJustNow <==> s < 60)
            && (a.AgoMinutes? ==> 1 <= a.n < 60 && a.n * 60 <= s < (a.n + 1) * 60)
            && (a.AgoHours? ==> 1 <= a.n < 24 && a.n * 3600 <= s < (a.n + 1) * 3600)
            && (a.AgoDays? ==> 1 <= a.n && a.n * 86400 <= s < (a.n + 1) * 86400)
  {
    var s := elapsedMs / 1000;
    if s < 60 then AgoJustNow
    else if s < 3600 then AgoMinutes(s / 60)
    else if s < 86400 then AgoHours(s / 3600)
    else AgoDays(s / 86400)
  }

  function AgoText(a: Ago): string
  {
    match a
    case AgoJustNow => "Just now"
    case AgoMinutes(n) => NatToString(n) + "m ago"
    case AgoHours(n) => NatToString(n) + "h ago"
    case AgoDays(n) => NatToString(n) + "d ago"
  }

  /**
   * The post lists and the comment section bucket a time alike for a week;
   * from then on the lists keep counting days where the comments show a date.
   */
  lemma TimeAgoMatchesCommentAge(elapsedMs: int)
    ensures var s := elapsedMs / 1000;
            match TimeAgo(elapsedMs)
            case AgoJustNow => Comments.CommentAge(elapsedMs) == Comments.JustNow
            case AgoMinutes(n) => Comments.CommentAge(elapsedMs) == Comments.Minutes(n)
            case AgoHours(n) => Comments.CommentAge(elapsedMs) == Comments.Hours(n)
            case AgoDays(n) => Comments.CommentAge(elapsedMs) == (if s < 604800 then Comments.Days(n) else Comments.CalendarDate)
  {
  }

  /** Later times never show a smaller unit. */
  function AgoRank(a: Ago): nat
  {
    match a
    case AgoJustNow => 0
    case AgoMinutes(_) => 1
    case AgoHours(_) => 2
    case AgoDays(_) => 3
  }

  lemma TimeAgoMonotone(a: int, b: int)
    requires a <= b
    ensures AgoRank(TimeAgo(a)) <= AgoRank(TimeAgo(b))
    ensures TimeAgo(a).AgoDays? ==> TimeAgo(b).AgoDays? && TimeAgo(a).n <= TimeAgo(b).n
  {
    assert a / 1000 <= b / 1000;
    assert a / 1000 / 86400 <= b / 1000 / 86400;
  }

  // ----- Input checks ---------------------------------------------------------

  datatype NewsletterError = EmptyEmail | MissingAt

  /** `subscribeNewsletter` before the request: the trimmed address must be non-empty and hold an '@'. */
  function CheckNewsletter(email: string): (r: Result<string, NewsletterError>)
    ensures r == Err(EmptyEmail) <==> JsTrim(email) == ""
    ensures r == Err(MissingAt) <==> JsTrim(email) != "" && '@' !in JsTrim(email)
    ensures r.Ok? ==> r.value == JsTrim(email) && '@' in r.value
  {
    var e := JsTrim(email);
    if e == "" then Err(EmptyEmail)
    else if '@' !in e then Err(MissingAt)
    else Ok(e)
  }

  /** An accepted address is accepted again as it is sent. */
  lemma NewsletterStable(email: string)
    requires CheckNewsletter(email).Ok?
    ensures CheckNewsletter(CheckNewsletter(email).value) == CheckNewsletter(email)
  {
    TrimIdempotent(email, Js);
  }

  /** `performSmartSearch` runs only for a query of two or more characters once trimmed. */
  predicate SearchAccepted(query: string)
  {
    |JsTrim(query)| >= 2
  }

  /** Whitespace around a query never decides whether it is searched. */
  lemma SearchIgnoresPadding(query: string)
    ensures SearchAccepted(JsTrim(query)) <==> SearchAccepted(query)
  {
    TrimIdempotent(query, Js);
  }

  // ----- Fallback search filter -----------------------------------------------

  /** A listed post as the filter sees it. */
  datatype Listing = Listing(title: string, excerpt: Option<string>)

  /** The title, or a non-empty excerpt, contains the query, both lower-cased. */
  predicate MatchesQuery(p: Listing, query: string)
  {
    Contains(Lower(p.title), Lower(query))
    || (p.excerpt.Some? && p.excerpt.value != "" && Contains(Lower(p.excerpt.value), Lower(query)))
  }

  /** The filter of `performRegularSearch`: the matching posts, in their order. */
  function FilterListings(posts: seq<Listing>, query: string): (r: seq<Listing>)
    ensures |r| <= |posts|
    ensures forall p :: p in r <==> p in posts && MatchesQuery(p, query)

    ensures IsSubsequence(r, posts)
  {
    if posts == [] then []
    else if MatchesQuery(posts[0], query) then [posts[0]] + FilterListings(posts[1..], query)
    else FilterListings(posts[1..], query)
  }

  /** An empty query keeps every post. */
  lemma {:induction false} EmptyQueryKeepsAll(posts: seq<Listing>)
    ensures FilterListings(posts, "") == posts
  {
    if posts != [] {
      assert OccursAt(Lower(posts[0].title), Lower(""), 0);
      EmptyQueryKeepsAll(posts[1..]);
      assert posts == [posts[0]] + posts[1..];
    }
  }

  /** Filtering twice by the same query changes nothing more. */
  lemma {:induction false} FilterIdempotent(posts: seq<Listing>, query: string)
    ensures FilterListings(FilterListings(posts, query), query) == FilterListings(posts, query)
  {
    if posts != [] {
      FilterIdempotent(posts[1..], query);
    }
  }

  // ----- Pagination bars --------------------------------------------------------

  /** One button of a pagination bar; the targets are page indices (from 0). */
  datatype PageButton =
    | Previous(target: int, disabled: bool)
    | Numbered(page: int, active: bool)   // labelled page + 1
    | Next(target: int, disabled: bool)

  function Min(a: int, b: int): int { if a < b then a else b }
  function Max(a: int, b: int): int { if a < b then b else a }

  /** The numbered buttons for pages lo..hi, the one for `current` active. */
  function PageRange(lo: int, hi: int, current: int): (r: seq<PageButton>)
    ensures |r| == Max(0, hi - lo + 1)
    ensures forall i :: 0 <= i < |r| ==> r[i] == Numbered(lo + i, lo + i == current)
  {
    seq(Max(0, hi - lo + 1), i => Numbered(lo + i, lo + i == current))
  }

  /** Some button of a bar is marked active. */
  predicate HasActive(s: seq<PageButton>)
  {
    exists i :: 0 <= i < |s| && s[i].Numbered? && s[i].active
  }

  /** Within a range of buttons, one is active exactly when `current` lies in it, and never two. */
  lemma PageRangeActive(lo: int, hi: int, current: int)
    ensures HasActive(PageRange(lo, hi, current)) <==> lo <= current <= hi
    ensures forall i, j :: (0 <= i < |PageRange(lo, hi, current)| && 0 <= j < |PageRange(lo, hi, current)|
                            && PageRange(lo, hi, current)[i].active && PageRange(lo, hi, current)[j].active) ==> i == j
  {
    if lo <= current <= hi {
      assert PageRange(lo, hi, current)[current - lo].active;
    }
  }

  /**
   * `displayPagination`: "Previous", the buttons of the first pages (at most
   * five), "Next"; the first is disabled on the first page, the last from the
   * last page on.
   */
  method DisplayPagination(number: int, totalPages: int) returns (buttons: seq<PageButton>)
    ensures buttons == [Previous(number - 1, number == 0)]
                       + PageRange(0, Min(totalPages, 5) - 1, number)
                       + [Next(number + 1, number >= totalPages - 1)]
  {
    buttons := [Previous(number - 1, number == 0)];
    var i := 0;
    while i < totalPages && i < 5
      invariant 0 <= i <= Max(0, Min(totalPages, 5))
      invariant buttons == [Previous(number - 1, number == 0)] + PageRange(0, i - 1, number)
    {
      buttons := buttons + [Numbered(i, i == number)];
      i := i + 1;
    }
    buttons := buttons + [Next(number + 1, number >= totalPages - 1)];
  }

  /**
   * `displaySmartSearchPagination`: "Previous", the pages from two before to
   * two after the current one that exist, "Next".
   */
  method SmartSearchPagination(currentPage: int, totalPages: int) returns (buttons: seq<PageButton>)
    ensures buttons == [Previous(currentPage - 1, currentPage == 0)]
                       + PageRange(Max(0, currentPage - 2), Min(totalPages - 1, currentPage + 2), currentPage)
                       + [Next(currentPage + 1, currentPage >= totalPages - 1)]
  {
    buttons := [Previous(currentPage - 1, currentPage == 0)];
    var lo := Max(0, currentPage - 2);
    var hi := Min(totalPages - 1, currentPage + 2);
    var i := lo;
    while i <= hi
      invariant lo <= i <= Max(lo, hi + 1)
      invariant buttons == [Previous(currentPage - 1, currentPage == 0)] + PageRange(lo, i - 1, currentPage)
    {
      buttons := buttons + [Numbered(i, i == currentPage)];
      i := i + 1;
    }
    buttons := buttons + [Next(currentPage + 1, currentPage >= totalPages - 1)];
  }

  /** Every page a bar offers, enabled arrows included, exists when the current page does. */
  predicate Offers(buttons: seq<PageButton>, totalPages: int)
  {
    forall b :: b in buttons ==>
      match b
      case Numbered(p, _) => 0 <= p < totalPages
      case Previous(t, disabled) => !disabled ==> 0 <= t < totalPages
      case Next(t, disabled) => !disabled ==> 0 <= t < totalPages
  }

  /**
   * On an existing page both bars offer only existing pages; the search bar
   * shows the current page active among at most five, and the plain bar
   * marks it only while it is one of the first five.
   */
  lemma BarsOfferExistingPages(number: int, totalPages: int)
    requires 0 <= number < totalPages
    ensures Offers([Previous(number - 1, number == 0)]
                   + PageRange(0, Min(totalPages, 5) - 1, number)
                   + [Next(number + 1, number >= totalPages - 1)], totalPages)
    ensures Offers([Previous(number - 1, number == 0)]
                   + PageRange(Max(0, number - 2), Min(totalPages - 1, number + 2), number)
                   + [Next(number + 1, number >= totalPages - 1)], totalPages)
    ensures |PageRange(Max(0, number - 2), Min(totalPages - 1, number + 2), number)| <= 5
    ensures PageRange(Max(0, number - 2), Min(totalPages - 1, number + 2), number)[number - Max(0, number - 2)].active
    ensures HasActive(PageRange(0, Min(totalPages, 5) - 1, number)) <==> number < 5
  {
    PageRangeActive(0, Min(totalPages, 5) - 1, number);
  }
}
