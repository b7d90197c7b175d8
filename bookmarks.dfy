/**
 * "Save for later" on the public pages (`BookmarkManager` in
 * static/js/app.js): a map from post id to the saved post and the time it was
 * saved, written to local storage under 'techsci_bookmarks' after every change,
 * and listed newest first.
 */
module Bookmarks {
  import opened Wrappers

  const StorageKey: string := "techsci_bookmarks"

  /** What a bookmark button collects from its post card. */
  datatype PostData = PostData(id: nat, title: string, excerpt: string, author: string, url: string)

  /** A saved post; `bookmarkedAt` is the save time in milliseconds. */
  datatype Bookmark = Bookmark(data: PostData, bookmarkedAt: int)

  /** A map entry: the post id it is stored under, and the bookmark. */
  type Entry = (nat, Bookmark)

  /**
   * The listing order. `Object.values` yields integer keys in ascending order
   * and the sort by descending save time is stable, so equal times keep the
   * ascending id order.
   */
  predicate Precedes(a: Entry, b: Entry)
  {
    a.1.bookmarkedAt > b.1.bookmarkedAt || (a.1.bookmarkedAt == b.1.bookmarkedAt && a.0 < b.0)
  }

  predicate SortedByRecency(s: seq<Entry>)
  {
    forall i, j :: 0 <= i < j < |s| ==> Precedes(s[i], s[j])
  }

  /** A least id of a non-empty set, found by taking out any one id and comparing it with the least of the rest. */
  ghost function Least(s: set<nat>): (k: nat)
    requires s != {}
    ensures k in s && forall j :: j in s ==> k <= j
    decreases |s|
  {
    var x :| x in s;
    var rest := s - {x};
    if rest == {} then
      OnlyMember(s, x);
      x
    else
      var m := Least(rest);
      LeastOf(s, x, if x < m then x else m);
      if x < m then x else m
  }

  /** A set that loses its only other members when `x` is taken out holds nothing below `x`. */
  lemma OnlyMember(s: set<nat>, x: nat)
    requires x in s && s - {x} == {}
    ensures forall j :: j in s ==> x <= j
  {
    forall j | j in s
      ensures x <= j
    {
      assert j !in s - {x};
    }
  }

  /** `least`, which is at most `x` and below every other id of `s`, is below every id of `s`. */
  lemma LeastOf(s: set<nat>, x: nat, least: nat)
    requires x in s && least <= x && forall j :: j in s - {x} ==> least <= j
    ensures forall j :: j in s ==> least <= j
  {
    forall j | j in s
      ensures least <= j
    {
      if j != x {
        assert j in s - {x};
      }
    }
  }

  /** The least id of a non-empty set. */
  function LeastKey(s: set<nat>): (k: nat)
    requires s != {}
    ensures k in s && forall j :: j in s ==> k <= j
  {
    var least := Least(s);
    var k :| k in s && (forall j :: j in s ==> k <= j); k
  }

  /** One entry put in its place in a listing. */
  function Insert(e: Entry, s: seq<Entry>): (r: seq<Entry>)
    requires SortedByRecency(s)
    requires forall x :: x in s ==> x.0 != e.0
    ensures SortedByRecency(r)
    ensures forall x :: x in r <==> x == e || x in s
    ensures |r| == |s| + 1
  {
    if s == [] || Precedes(e, s[0]) then
      [e] + s
    else
      var rest := Insert(e, s[1..]);
      assert forall x :: x in rest ==> Precedes(s[0], x) by {
        forall x | x in rest
          ensures Precedes(s[0], x)
        {
          if x != e {
            var j :| 0 <= j < |s[1..]| && s[1..][j] == x;
            assert s[j + 1] == x;
          }
        }
      }
      [s[0]] + rest
  }

  /** The entries of a bookmark map in listing order. */
  function Entries(m: map<nat, Bookmark>): (r: seq<Entry>)
    ensures SortedByRecency(r)
    ensures forall e :: e in r <==> e.0 in m && m[e.0] == e.1
    ensures |r| == |m|
    decreases |m|
  {
    if m == map[] then []
    else
      var k := LeastKey(m.Keys);
      var rest := m - {k};
      assert rest.Keys == m.Keys - {k};
      Insert((k, m[k]), Entries(rest))
  }

  /** The bookmarks of a listing. */
  function Values(s: seq<Entry>): (r: seq<Bookmark>)
    ensures |r| == |s| && forall i :: 0 <= i < |s| ==> r[i] == s[i].1
  {
    seq(|s|, i requires 0 <= i < |s| => s[i].1)
  }

  /** `toggleBookmark` on the map alone: a saved post is removed, any other is saved now. */
  function Toggled(m: map<nat, Bookmark>, postId: nat, data: PostData, now: int): (r: map<nat, Bookmark>)
    ensures postId in r <==> postId !in m
    ensures postId in r ==> r[postId] == Bookmark(data, now)
    ensures forall k :: k != postId ==> (k in r <==> k in m)
    ensures forall k :: k != postId && k in m ==> r[k] == m[k]
  {
    if postId in m then m - {postId} else m[postId := Bookmark(data, now)]
  }

  /**
   * Two toggles of the same post leave the same posts saved and every other
   * bookmark untouched; if the post was not saved, the map is back exactly.
   */
  lemma ToggleTwice(m: map<nat, Bookmark>, postId: nat, d1: PostData, t1: int, d2: PostData, t2: int)
    ensures Toggled(Toggled(m, postId, d1, t1), postId, d2, t2).Keys == m.Keys
    ensures forall k :: k != postId && k in m ==> Toggled(Toggled(m, postId, d1, t1), postId, d2, t2)[k] == m[k]
    ensures postId !in m ==> Toggled(Toggled(m, postId, d1, t1), postId, d2, t2) == m
  {
    var r := Toggled(Toggled(m, postId, d1, t1), postId, d2, t2);
    assert r.Keys == m.Keys;
  }

  /** The listing holds every bookmark of the map, and only those, newest first. */
  lemma ListingProps(m: map<nat, Bookmark>)
    ensures forall i :: 0 <= i < |Values(Entries(m))| ==> Values(Entries(m))[i] in m.Values
    ensures forall k :: k in m ==> m[k] in Values(Entries(m))
    ensures forall i, j :: 0 <= i < j < |Values(Entries(m))| ==>
              Values(Entries(m))[i].bookmarkedAt >= Values(Entries(m))[j].bookmarkedAt
  {
    ListingOf(m, Entries(m));
  }

  /** The bookmarks of any sorted listing of exactly the map's entries. */
  lemma ListingOf(m: map<nat, Bookmark>, es: seq<Entry>)
    requires SortedByRecency(es)
    requires forall e :: e in es <==> e.0 in m && m[e.0] == e.1
    ensures forall i :: 0 <= i < |Values(es)| ==> Values(es)[i] in m.Values
    ensures forall k :: k in m ==> m[k] in Values(es)
    ensures forall i, j :: 0 <= i < j < |Values(es)| ==> Values(es)[i].bookmarkedAt >= Values(es)[j].bookmarkedAt
  {
    var r := Values(es);
    forall i | 0 <= i < |r|
      ensures r[i] in m.Values
    {
      assert es[i] in es;
    }
    forall k | k in m
      ensures m[k] in r
    {
      assert (k, m[k]) in es;
      var i :| 0 <= i < |es| && es[i] == (k, m[k]);
      assert r[i] == m[k];
    }
    forall i, j | 0 <= i < j < |r|
      ensures r[i].bookmarkedAt >= r[j].bookmarkedAt
    {
      assert Precedes(es[i], es[j]);
    }
  }

  /** `getStats`: how many posts are saved and the five most recent. */
  datatype Stats = Stats(totalBookmarks: nat, recentBookmarks: seq<Bookmark>)

  class BookmarkManager {
    var bookmarks: map<nat, Bookmark>
    /** The 'techsci_bookmarks' entry as this page last wrote it, if it has. */
    var stored: Option<map<nat, Bookmark>>
    /** How many times the map was written to storage. */
    var saves: nat

    /** `loadBookmarks`: the parsed entry, or no bookmarks when it is missing or unreadable. */
    constructor (saved: Option<map<nat, Bookmark>>)
      ensures bookmarks == (if saved.Some? then saved.value else map[])
      ensures stored.None? && saves == 0
    {
      bookmarks := if saved.Some? then saved.value else map[];
      stored := None;
      saves := 0;
    }

    /** `isBookmarked`: the post has an entry. */
    predicate IsBookmarked(postId: nat)
      reads this
    {
      postId in bookmarks
    }

    /** `saveBookmarks`. */
    method Save()
      modifies this
      ensures bookmarks == old(bookmarks) && stored == Some(bookmarks) && saves == old(saves) + 1
    {
      stored := Some(bookmarks);
      saves := saves + 1;
    }

    /** `addBookmark`: the post data with the save time, replacing any earlier entry, then saved. */
    method AddBookmark(postId: nat, data: PostData, now: int)
      modifies this
      ensures bookmarks == old(bookmarks)[postId := Bookmark(data, now)]
      ensures stored == Some(bookmarks) && saves == old(saves) + 1
    {
      bookmarks := bookmarks[postId := Bookmark(data, now)];
      Save();
    }

    /** `removeBookmark`: only a saved post is removed, and only then is anything written. */
    method RemoveBookmark(postId: nat)
      modifies this
      ensures postId in old(bookmarks) ==> bookmarks == old(bookmarks) - {postId}
                                           && stored == Some(bookmarks) && saves == old(saves) + 1
      ensures postId !in old(bookmarks) ==> bookmarks == old(bookmarks) && stored == old(stored) && saves == old(saves)
    {
      if postId in bookmarks {
        bookmarks := bookmarks - {postId};
        Save();
      }
    }

    /** `toggleBookmark`: remove a saved post, save any other one. */
    method ToggleBookmark(postId: nat, data: PostData, now: int)
      modifies this
      ensures bookmarks == Toggled(old(bookmarks), postId, data, now)
      ensures IsBookmarked(postId) <==> !old(IsBookmarked(postId))
      ensures stored == Some(bookmarks) && saves == old(saves) + 1
    {
      if IsBookmarked(postId) {
        RemoveBookmark(postId);
      } else {
        AddBookmark(postId, data, now);
      }
    }

    /** `getAllBookmarks`: every saved post once, newest first. */
    function GetAllBookmarks(): (r: seq<Bookmark>)
      reads this
      ensures |r| == |bookmarks|
      ensures forall i :: 0 <= i < |r| ==> r[i] in bookmarks.Values
      ensures forall k :: k in bookmarks ==> bookmarks[k] in r
      ensures forall i, j :: 0 <= i < j < |r| ==> r[i].bookmarkedAt >= r[j].bookmarkedAt
    {
      ListingProps(bookmarks);
      Values(Entries(bookmarks))
    }

    /** `getStats`: the count, and the first five of the listing, which are the newest. */
    function GetStats(): (s: Stats)
      reads this
      ensures s.totalBookmarks == |bookmarks|
      ensures |s.recentBookmarks| == if |bookmarks| < 5 then |bookmarks| else 5
      ensures s.recentBookmarks == GetAllBookmarks()[..|s.recentBookmarks|]
      ensures forall i, j :: 0 <= i < |s.recentBookmarks| <= j < |bookmarks| ==>
                s.recentBookmarks[i].bookmarkedAt >= GetAllBookmarks()[j].bookmarkedAt
    {
      var all := GetAllBookmarks();
      Stats(|all|, all[..if |all| < 5 then |all| else 5])
    }
  }
}
