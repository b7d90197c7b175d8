/**
 * `BlogPostService` (app/services/blog_post_service.py) over an in-memory
 * table: the `blog_posts` rows in table order and the `blog_post_tags` rows,
 * with the queries that page, search and count them and the operations that
 * change them.
 */
module PostService {
  import opened Wrappers
  import opened Strings
  import opened PostModel
  import Schemas

  /** One row of `blog_post_tags`. */
  datatype TagRow = TagRow(postId: nat, tag: string)

  /** The position of the post with a given id: the first one, or None when there is none. */
  function IndexOf(posts: seq<BlogPost>, id: nat): (r: Option<nat>)
    ensures r.Some? ==> r.value < |posts| && posts[r.value].id == id
    ensures r.Some? ==> forall i :: 0 <= i < r.value ==> posts[i].id != id
    ensures r.None? <==> forall i :: 0 <= i < |posts| ==> posts[i].id != id
  {
    if posts == [] then None
    else if posts[0].id == id then Some(0)
    else match IndexOf(posts[1..], id)
      case None => None
      case Some(i) => Some(i + 1)
  }

  /** The tags of one post, in row order. */
  function TagsOf(rows: seq<TagRow>, id: nat): (r: seq<string>)
    ensures |r| <= |rows|
    ensures forall t :: t in r <==> TagRow(id, t) in rows
  {
    if rows == [] then []
    else if rows[0].postId == id then [rows[0].tag] + TagsOf(rows[1..], id)
    else TagsOf(rows[1..], id)
  }

  /** One row per tag for a post, in the given order. */
  function RowsFor(id: nat, tags: seq<string>): (r: seq<TagRow>)
    ensures |r| == |tags| && forall i :: 0 <= i < |tags| ==> r[i] == TagRow(id, tags[i])
  {
    seq(|tags|, i requires 0 <= i < |tags| => TagRow(id, tags[i]))
  }

  /** The rows of every post but one. */
  function RemoveRows(rows: seq<TagRow>, id: nat): (r: seq<TagRow>)
    ensures forall row :: row in r <==> row in rows && row.postId != id
  {
    if rows == [] then []
    else if rows[0].postId == id then RemoveRows(rows[1..], id)
    else [rows[0]] + RemoveRows(rows[1..], id)
  }

  /** Tags read from rows laid one after the other are the tags of each part in turn. */
  lemma {:induction false} TagsOfAppend(a: seq<TagRow>, b: seq<TagRow>, id: nat)
    ensures TagsOf(a + b, id) == TagsOf(a, id) + TagsOf(b, id)
  {
    if a != [] {
      assert (a + b)[1..] == a[1..] + b;
      TagsOfAppend(a[1..], b, id);
    } else {
      assert a + b == b;
    }
  }

  /** The rows written for a post carry exactly its tags, and no other post's. */
  lemma {:induction false} TagsOfRowsFor(id: nat, tags: seq<string>, other: nat)
    ensures TagsOf(RowsFor(id, tags), id) == tags
    ensures other != id ==> TagsOf(RowsFor(id, tags), other) == []
  {
    if tags != [] {
      assert RowsFor(id, tags)[1..] == RowsFor(id, tags[1..]);
      TagsOfRowsFor(id, tags[1..], other);
      assert tags == [tags[0]] + tags[1..];
    }
  }

  /** Removing a post's rows leaves it without tags and every other post with its own. */
  lemma {:induction false} TagsOfRemoveRows(rows: seq<TagRow>, id: nat, other: nat)
    ensures TagsOf(RemoveRows(rows, id), id) == []
    ensures other != id ==> TagsOf(RemoveRows(rows, id), other) == TagsOf(rows, other)
  {
    if rows != [] {
      TagsOfRemoveRows(rows[1..], id, other);
    }
  }

  /** Ids are unique and below the next one; every tag row belongs to a post. */
  ghost predicate TableValid(posts: seq<BlogPost>, rows: seq<TagRow>, nextId: nat)
  {
    && (forall i, j :: 0 <= i < j < |posts| ==> posts[i].id != posts[j].id)
    && (forall i :: 0 <= i < |posts| ==> posts[i].id < nextId)
    && (forall row :: row in rows ==> IndexOf(posts, row.postId).Some?)
  }

  /**
   * Removing the row at `i` and its tag rows keeps the table valid, and the
   * removed id is no longer found.
   */
  lemma RemoveAtKeepsValid(posts: seq<BlogPost>, rows: seq<TagRow>, i: nat, nextId: nat)
    requires TableValid(posts, rows, nextId) && i < |posts|
    ensures TableValid(posts[..i] + posts[i + 1..], RemoveRows(rows, posts[i].id), nextId)
    ensures IndexOf(posts[..i] + posts[i + 1..], posts[i].id).None?
  {
    RemoveAtKeepsIds(posts, i, nextId);
    forall row | row in RemoveRows(rows, posts[i].id)
      ensures IndexOf(posts[..i] + posts[i + 1..], row.postId).Some?
    {
      assert row in rows;
    }
  }

  /**
   * Removing the row at `i` keeps the ids distinct and below `nextId`, loses
   * exactly that row's id, and keeps every other id findable.
   */
  lemma RemoveAtKeepsIds(posts: seq<BlogPost>, i: nat, nextId: nat)
    requires i < |posts|
    requires forall a, b :: 0 <= a < b < |posts| ==> posts[a].id != posts[b].id
    requires forall a :: 0 <= a < |posts| ==> posts[a].id < nextId
    ensures var rest := posts[..i] + posts[i + 1..];
            && (forall a, b :: 0 <= a < b < |rest| ==> rest[a].id != rest[b].id)
            && (forall a :: 0 <= a < |rest| ==> rest[a].id < nextId)
            && IndexOf(rest, posts[i].id).None?
            && (forall id :: IndexOf(posts, id).Some? && id != posts[i].id ==> IndexOf(rest, id).Some?)
  {
    var rest := posts[..i] + posts[i + 1..];
    assert forall k :: 0 <= k < |rest| ==> rest[k] == if k < i then posts[k] else posts[k + 1];
    forall id | IndexOf(posts, id).Some? && id != posts[i].id
      ensures IndexOf(rest, id).Some?
    {
      var j := IndexOf(posts, id).value;
      if j < i {
        assert rest[j].id == id;
      } else {
        assert rest[j - 1].id == id;
      }
    }
  }

  /**
   * Replacing the row at `i` by one with the same id keeps the table valid,
   * and every lookup by id finds the same position.
   */
  lemma ReplaceKeepsValid(posts: seq<BlogPost>, rows: seq<TagRow>, i: nat, p: BlogPost, nextId: nat)
    requires TableValid(posts, rows, nextId) && i < |posts| && p.id == posts[i].id
    ensures TableValid(posts[i := p], rows, nextId)
    ensures forall id :: IndexOf(posts[i := p], id) == IndexOf(posts, id)
  {
    var after := posts[i := p];
    assert forall k :: 0 <= k < |after| ==> after[k].id == posts[k].id;
    IndexOfSameIds(posts, after);
  }

  /** The published posts, in table order. */
  function Published(posts: seq<BlogPost>): (r: seq<BlogPost>)
    ensures |r| <= |posts|
    ensures forall p :: p in r <==> p in posts && p.published

    ensures IsSubsequence(r, posts)
  {
    if posts == [] then []
    else if posts[0].published then [posts[0]] + Published(posts[1..])
    else Published(posts[1..])
  }

  /** The drafts, in table order. */
  function Drafts(posts: seq<BlogPost>): (r: seq<BlogPost>)
    ensures forall p :: p in r <==> p in posts && !p.published

    ensures IsSubsequence(r, posts)
  {
    if posts == [] then []
    else if !posts[0].published then [posts[0]] + Drafts(posts[1..])
    else Drafts(posts[1..])
  }

  /** Every post is either published or a draft. */
  lemma {:induction false} PublishedPlusDrafts(posts: seq<BlogPost>)
    ensures |Published(posts)| + |Drafts(posts)| == |posts|
  {
    if posts != [] {
      PublishedPlusDrafts(posts[1..]);
    }
  }

  /** `offset(page * size).limit(size)`. */
  function PageOf<T>(items: seq<T>, page: nat, size: nat): (r: seq<T>)
    ensures |r| <= size
    ensures forall x :: x in r ==> x in items
    ensures page * size >= |items| ==> r == []
    ensures page * size < |items| ==> r == items[page * size .. if |items| < page * size + size then |items| else page * size + size]
  {
    if page * size >= |items| then []
    else items[page * size .. if |items| < page * size + size then |items| else page * size + size]
  }

  /** `math.ceil(total / size)` when the size is positive, else 0. */
  function PageCount(total: nat, size: nat): (n: nat)
    ensures size > 0 ==> n * size >= total && (n == 0 || (n - 1) * size < total)
    ensures size == 0 ==> n == 0
  {
    if size == 0 then 0 else (total + size - 1) / size
  }

  /** With a positive size, item k is at position k % size of page k / size. */
  lemma PagingPlacesItem<T>(items: seq<T>, size: nat, k: nat)
    requires size > 0 && k < |items|
    ensures k % size < |PageOf(items, k / size, size)|
    ensures PageOf(items, k / size, size)[k % size] == items[k]
  {
    var q := k / size;
    DivBounds(k, size);
    var lo := q * size;
    var hi := if |items| < lo + size then |items| else lo + size;
    assert lo < |items| && k < hi;
    assert PageOf(items, q, size) == items[lo..hi];
  }

  /** Item k lies on page k / size, at offset k % size. */
  lemma DivBounds(k: nat, size: nat)
    requires size > 0
    ensures (k / size) * size <= k < (k / size) * size + size
    ensures (k / size) * size + k % size == k
  {
  }

  /** With a positive size, exactly the pages before the page count are non-empty. */
  lemma PagingCount<T>(items: seq<T>, size: nat, page: nat)
    requires size > 0
    ensures PageOf(items, page, size) != [] <==> page < PageCount(|items|, size)
  {
    var n := PageCount(|items|, size);
    if page < n {
      MulMonotone(page, n - 1, size);
    } else {
      MulMonotone(n, page, size);
    }
  }

  lemma MulMonotone(a: nat, b: nat, c: nat)
    requires a <= b
    ensures a * c <= b * c
  {
    assert b * c - a * c == (b - a) * c;
  }

  /** A listed post: the row, the excerpt it shows and its tags. */
  datatype Listed = Listed(post: BlogPost, excerpt: Option<string>, tags: seq<string>)

  /** `post.excerpt or post.generate_excerpt()`: the `or` adds nothing to what the model method does. */
  function ListedExcerpt(p: BlogPost): (r: Option<string>)
    ensures r == GenerateExcerpt(p)
    ensures !Truthy(p.excerpt) && |p.content| > ExcerptLimit ==> r.Some? && |r.value| == ExcerptLimit
  {
    if Truthy(p.excerpt) then p.excerpt else GenerateExcerpt(p)
  }

  function ListAll(posts: seq<BlogPost>, rows: seq<TagRow>): (r: seq<Listed>)
    ensures |r| == |posts|
    ensures forall i :: 0 <= i < |posts| ==>
              r[i] == Listed(posts[i], ListedExcerpt(posts[i]), TagsOf(rows, posts[i].id))
  {
    seq(|posts|, i requires 0 <= i < |posts| => Listed(posts[i], ListedExcerpt(posts[i]), TagsOf(rows, posts[i].id)))
  }

  /** The answer of `get_published_posts`. */
  datatype PostPage = PostPage(content: seq<Listed>, page: nat, size: nat, totalElements: nat, totalPages: nat)

  /** The answer of `search_posts` and `get_posts_by_tag`. */
  datatype PostSlice = PostSlice(content: seq<BlogPost>, total: nat, page: nat, size: nat)

  /** The keyword occurs, ignoring ASCII case, in the title, the content or a present excerpt. */
  predicate MatchesKeyword(p: BlogPost, keyword: string)
  {
    Contains(Lower(p.title), Lower(keyword)) || Contains(Lower(p.content), Lower(keyword))
    || (p.excerpt.Some? && Contains(Lower(p.excerpt.value), Lower(keyword)))
  }

  function Matching(posts: seq<BlogPost>, keyword: string): (r: seq<BlogPost>)
    ensures forall p :: p in r <==> p in posts && p.published && MatchesKeyword(p, keyword)

    ensures IsSubsequence(r, posts)
  {
    if posts == [] then []
    else if posts[0].published && MatchesKeyword(posts[0], keyword) then [posts[0]] + Matching(posts[1..], keyword)
    else Matching(posts[1..], keyword)
  }

  function Tagged(posts: seq<BlogPost>, rows: seq<TagRow>, tag: string): (r: seq<BlogPost>)
    ensures forall p :: p in r <==> p in posts && p.published && TagRow(p.id, tag) in rows

    ensures IsSubsequence(r, posts)
  {
    if posts == [] then []
    else if posts[0].published && TagRow(posts[0].id, tag) in rows then [posts[0]] + Tagged(posts[1..], rows, tag)
    else Tagged(posts[1..], rows, tag)
  }

  function SumViews(posts: seq<BlogPost>): int
  {
    if posts == [] then 0 else posts[0].viewCount + SumViews(posts[1..])
  }

  /** The answer of `get_statistics`. */
  datatype Statistics = Statistics(totalPosts: nat, publishedPosts: nat, draftPosts: int, totalViews: int)

  /**
   * `toggle_publish` on one row: the flag flips; the first publication is
   * stamped and the stamp stays. The commit is an UPDATE, so the column's
   * `onupdate` stamps `updated_at` too.
   */
  function TogglePublished(p: BlogPost, now: int): (q: BlogPost)
    ensures q.published == !p.published
    ensures p.publishedAt.Some? ==> q.publishedAt == p.publishedAt
    ensures p.publishedAt.None? ==> (q.publishedAt.Some? <==> q.published) && (q.published ==> q.publishedAt == Some(now))
    ensures q.updatedAt == Some(now)
    ensures q == p.(published := q.published, publishedAt := q.publishedAt, updatedAt := q.updatedAt)
  {
    var flipped := p.(published := !p.published, updatedAt := Some(now));
    if flipped.published && flipped.publishedAt.None? then flipped.(publishedAt := Some(now)) else flipped
  }

  /**
   * Toggling twice restores the flag and keeps an existing publication time;
   * a post without one has one afterwards (a post created as published has
   * none until it is toggled off and on).
   */
  lemma ToggleTwice(p: BlogPost, t1: int, t2: int)
    ensures TogglePublished(TogglePublished(p, t1), t2).published == p.published
    ensures TogglePublished(TogglePublished(p, t1), t2).publishedAt ==
              (if p.publishedAt.Some? then p.publishedAt else if p.published then Some(t2) else Some(t1))
    ensures TogglePublished(TogglePublished(p, t1), t2).updatedAt == Some(t2)
  {
  }

  /** The `setattr` loop of `update_post`: each field given is written, the others kept; tags are not a column. */
  function ApplyUpdate(p: BlogPost, u: Schemas.PostUpdate): (q: BlogPost)
    ensures q.id == p.id && q.viewCount == p.viewCount && q.createdAt == p.createdAt
    ensures q.publishedAt == p.publishedAt && q.isAiGenerated == p.isAiGenerated && q.updatedAt == p.updatedAt
    ensures q.title == (if u.title.Some? then u.title.value else p.title)
    ensures q.content == (if u.content.Some? then u.content.value else p.content)
    ensures q.excerpt == (if u.excerpt.Some? then u.excerpt else p.excerpt)
    ensures q.author == (if u.author.Some? then u.author else p.author)
    ensures q.featuredImage == (if u.featuredImage.Some? then u.featuredImage else p.featuredImage)
    ensures q.published == (if u.published.Some? then u.published.value else p.published)
  {
    p.(title := if u.title.Some? then u.title.value else p.title,
       content := if u.content.Some? then u.content.value else p.content,
       excerpt := if u.excerpt.Some? then u.excerpt else p.excerpt,
       author := if u.author.Some? then u.author else p.author,
       featuredImage := if u.featuredImage.Some? then u.featuredImage else p.featuredImage,
       published := if u.published.Some? then u.published.value else p.published)
  }

  /** An update that gives nothing changes no column. */
  lemma EmptyUpdateKeeps(p: BlogPost)
    ensures ApplyUpdate(p, Schemas.PostUpdate(None, None, None, None, None, None, None)) == p
  {
  }

  /**
   * The row `create_post` inserts: the given fields, never viewed, not marked
   * as generated, no update or publication time (even when created as
   * published), and a falsy excerpt replaced by one derived from the content.
   */
  function NewPost(data: Schemas.PostCreate, id: nat, now: int): (p: BlogPost)
    ensures p.id == id && p.createdAt == now
    ensures p.title == data.title && p.content == data.content && p.author == data.author
    ensures p.featuredImage == data.featuredImage && p.published == data.published
    ensures p.viewCount == 0 && !p.isAiGenerated
    ensures p.updatedAt.None? && p.publishedAt.None?
    ensures Truthy(data.excerpt) ==> p.excerpt == data.excerpt
    ensures !Truthy(data.excerpt) && |data.content| > ExcerptLimit ==>
              p.excerpt.Some? && |p.excerpt.value| == ExcerptLimit && p.excerpt.value[..197] == data.content[..197]
    ensures !Truthy(data.excerpt) && 0 < |data.content| <= ExcerptLimit ==> p.excerpt == Some(data.content)
  {
    var row := BlogPost(id, data.title, data.content, data.excerpt, data.author, data.featuredImage,
                        data.published, 0, false, now, None, None);
    if Truthy(row.excerpt) then row else row.(excerpt := GenerateExcerpt(row))
  }

  class BlogPostService {
    /** `blog_posts`, in table order. */
    var posts: seq<BlogPost>
    /** `blog_post_tags`, in insertion order. */
    var tagRows: seq<TagRow>
    /** The id the next new post gets. */
    var nextId: nat

    /** Ids are unique and below the next one; every tag row belongs to a post. */
    ghost predicate Valid()
      reads this
    {
      TableValid(posts, tagRows, nextId)
    }

    constructor ()
      ensures posts == [] && tagRows == [] && nextId == 1 && Valid()
    {
      posts := [];
      tagRows := [];
      nextId := 1;
    }

    /** `get_post_by_id`. */
    function GetPostById(id: nat): (r: Option<BlogPost>)
      reads this
      ensures r.Some? <==> exists i :: 0 <= i < |posts| && posts[i].id == id
      ensures r.Some? ==> r.value in posts && r.value.id == id
    {
      match IndexOf(posts, id)
      case None => None
      case Some(i) => Some(posts[i])
    }

    /**
     * `increment_view_count`: one more view for an existing post; the commit
     * is an UPDATE, so `updated_at` is stamped with `now`. Nothing else changes.
     */
    method IncrementViewCount(id: nat, now: int)
      requires Valid()
      modifies this
      ensures IndexOf(old(posts), id).None? ==> posts == old(posts)
      ensures IndexOf(old(posts), id).Some? ==>
                var i := IndexOf(old(posts), id).value;
                posts == old(posts)[i := old(posts)[i].(viewCount := old(posts)[i].viewCount + 1, updatedAt := Some(now))]
      ensures tagRows == old(tagRows) && nextId == old(nextId) && Valid()
    {
      match IndexOf(posts, id)
      case None =>
      case Some(i) =>
        var bumped := posts[i].(viewCount := posts[i].viewCount + 1, updatedAt := Some(now));
        ReplaceKeepsValid(posts, tagRows, i, bumped, nextId);
        posts := posts[i := bumped];
    }

    /**
     * `create_post`: a new row with the next id, then one tag row per given
     * tag.
     */
    method CreatePost(data: Schemas.PostCreate, now: int) returns (p: BlogPost)
      requires Valid()
      modifies this
      ensures p == NewPost(data, old(nextId), now) && nextId == old(nextId) + 1
      ensures posts == old(posts) + [p]
      ensures tagRows == old(tagRows) + RowsFor(p.id, data.tags)
      ensures TagsOf(tagRows, p.id) == data.tags
      ensures forall other :: other != p.id ==> TagsOf(tagRows, other) == TagsOf(old(tagRows), other)
      ensures Valid()
    {
      p := NewPost(data, nextId, now);
      NoRowsForNewId(tagRows, posts, p.id);
      ghost var oldPosts := posts;
      posts := posts + [p];
      nextId := nextId + 1;
      IndexOfExtend(oldPosts, p);
      assert posts[|posts| - 1].id == p.id;
      AddTags(p.id, data.tags);
    }

    /**
     * `update_post`: None for a missing post; otherwise the given fields are
     * written, the tags replaced exactly when a tag list is given, and the
     * update time set.
     */
    method UpdatePost(id: nat, u: Schemas.PostUpdate, now: int) returns (r: Option<BlogPost>)
      requires Valid()
      modifies this
      ensures IndexOf(old(posts), id).None? ==>
                r.None? && posts == old(posts) && tagRows == old(tagRows)
      ensures IndexOf(old(posts), id).Some? ==>
                var i := IndexOf(old(posts), id).value;
                posts == old(posts)[i := ApplyUpdate(old(posts)[i], u).(updatedAt := Some(now))]
                && r == Some(posts[i])
      ensures IndexOf(old(posts), id).Some? && u.tags.Some? ==>
                tagRows == RemoveRows(old(tagRows), id) + RowsFor(id, u.tags.value)
                && TagsOf(tagRows, id) == u.tags.value
      ensures u.tags.None? ==> tagRows == old(tagRows)
      ensures forall other :: other != id ==> TagsOf(tagRows, other) == TagsOf(old(tagRows), other)
      ensures nextId == old(nextId) && Valid()
    {
      match IndexOf(posts, id)
      case None =>
        r := None;
      case Some(i) =>
        ReplaceKeepsValid(posts, tagRows, i, ApplyUpdate(posts[i], u).(updatedAt := Some(now)), nextId);
        posts := posts[i := ApplyUpdate(posts[i], u).(updatedAt := Some(now))];
        if u.tags.Some? {
          ReplaceTags(id, u.tags.value);
        }
        r := Some(posts[i]);
    }

    /** The tag loop of `update_post`: delete the post's rows, then add one per tag. */
    method ReplaceTags(id: nat, tags: seq<string>)
      requires Valid() && IndexOf(posts, id).Some?
      modifies this
      ensures posts == old(posts) && nextId == old(nextId)
      ensures tagRows == RemoveRows(old(tagRows), id) + RowsFor(id, tags)
      ensures TagsOf(tagRows, id) == tags
      ensures forall other :: other != id ==> TagsOf(tagRows, other) == TagsOf(old(tagRows), other)
      ensures Valid()
    {
      tagRows := RemoveRows(tagRows, id);
      TagsOfRemoveRows(old(tagRows), id, id);
      AddTags(id, tags);
      forall other | other != id
        ensures TagsOf(tagRows, other) == TagsOf(old(tagRows), other)
      {
        TagsOfRemoveRows(old(tagRows), id, other);
      }
    }

    /** The tag loop shared by `create_post` and `update_post`: one row per tag, for a post that has none. */
    method AddTags(id: nat, tags: seq<string>)
      requires Valid() && IndexOf(posts, id).Some? && TagsOf(tagRows, id) == []
      modifies this
      ensures posts == old(posts) && nextId == old(nextId)
      ensures tagRows == old(tagRows) + RowsFor(id, tags)
      ensures TagsOf(tagRows, id) == tags
      ensures forall other :: other != id ==> TagsOf(tagRows, other) == TagsOf(old(tagRows), other)
      ensures Valid()
    {
      var i := 0;
      while i < |tags|
        invariant 0 <= i <= |tags|
        invariant tagRows == old(tagRows) + RowsFor(id, tags[..i])
        invariant posts == old(posts) && nextId == old(nextId)
        invariant forall row :: row in tagRows ==> IndexOf(posts, row.postId).Some?
      {
        assert RowsFor(id, tags[..i + 1]) == RowsFor(id, tags[..i]) + [TagRow(id, tags[i])];
        tagRows := tagRows + [TagRow(id, tags[i])];
        i := i + 1;
      }
      assert tags[..i] == tags;
      TagsOfAppend(old(tagRows), RowsFor(id, tags), id);
      TagsOfRowsFor(id, tags, id);
      forall other | other != id
        ensures TagsOf(tagRows, other) == TagsOf(old(tagRows), other)
      {
        TagsOfAppend(old(tagRows), RowsFor(id, tags), other);
        TagsOfRowsFor(id, tags, other);
      }
    }

    /** `delete_post`: False for a missing post; otherwise the row and its tag rows are gone. */
    method DeletePost(id: nat) returns (deleted: bool)
      requires Valid()
      modifies this
      ensures deleted <==> IndexOf(old(posts), id).Some?
      ensures !deleted ==> posts == old(posts) && tagRows == old(tagRows)
      ensures deleted ==> var i := IndexOf(old(posts), id).value;
                          posts == old(posts)[..i] + old(posts)[i + 1..]
                          && tagRows == RemoveRows(old(tagRows), id)
      ensures deleted ==> GetPostById(id).None? && TagsOf(tagRows, id) == []
      ensures nextId == old(nextId) && Valid()
    {
      match IndexOf(posts, id)
      case None =>
        deleted := false;
      case Some(i) =>
        DeleteAt(i);
        deleted := true;
    }

    /** Removes the row at `i` with its tag rows. */
    method DeleteAt(i: nat)
      requires Valid() && i < |posts|
      modifies this
      ensures posts == old(posts)[..i] + old(posts)[i + 1..]
      ensures tagRows == RemoveRows(old(tagRows), old(posts)[i].id)
      ensures IndexOf(posts, old(posts)[i].id).None? && TagsOf(tagRows, old(posts)[i].id) == []
      ensures nextId == old(nextId) && Valid()
    {
      var id := posts[i].id;
      RemoveAtKeepsValid(posts, tagRows, i, nextId);
      posts := posts[..i] + posts[i + 1..];
      tagRows := RemoveRows(tagRows, id);
      TagsOfRemoveRows(old(tagRows), id, id);
    }

    /** `toggle_publish`: None for a missing post, otherwise the toggled row. */
    method TogglePublish(id: nat, now: int) returns (r: Option<BlogPost>)
      requires Valid()
      modifies this
      ensures IndexOf(old(posts), id).None? ==> r.None? && posts == old(posts)
      ensures IndexOf(old(posts), id).Some? ==>
                var i := IndexOf(old(posts), id).value;
                posts == old(posts)[i := TogglePublished(old(posts)[i], now)] && r == Some(posts[i])
      ensures tagRows == old(tagRows) && nextId == old(nextId) && Valid()
    {
      match IndexOf(posts, id)
      case None =>
        r := None;
      case Some(i) =>
        ReplaceKeepsValid(posts, tagRows, i, TogglePublished(posts[i], now), nextId);
        posts := posts[i := TogglePublished(posts[i], now)];
        r := Some(posts[i]);
    }

    /** `get_published_posts`: one page of the published posts, their count and the page count. */
    function GetPublishedPosts(page: nat, size: nat): (r: PostPage)
      reads this
      ensures r.content == ListAll(PageOf(Published(posts), page, size), tagRows)
      ensures r.totalElements == |Published(posts)| && r.page == page && r.size == size
      ensures r.totalPages == PageCount(|Published(posts)|, size)
      ensures forall l :: l in r.content ==> l.post in posts && l.post.published
    {
      var published := Published(posts);
      var shown := PageOf(published, page, size);
      PostPage(ListAll(shown, tagRows), page, size, |published|, PageCount(|published|, size))
    }

    /** `search_posts`: one page of the published posts that mention the keyword, and how many there are. */
    function SearchPosts(keyword: string, page: nat, size: nat): (r: PostSlice)
      reads this
      ensures r.content == PageOf(Matching(posts, keyword), page, size)
      ensures r.total == |Matching(posts, keyword)| && r.page == page && r.size == size
      ensures forall p :: p in r.content ==> p in posts && p.published && MatchesKeyword(p, keyword)
    {
      var found := Matching(posts, keyword);
      var shown := PageOf(found, page, size);
      PostSlice(shown, |found|, page, size)
    }

    /** `get_posts_by_tag`: one page of the published posts with a row for exactly that tag. */
    function GetPostsByTag(tag: string, page: nat, size: nat): (r: PostSlice)
      reads this
      ensures r.content == PageOf(Tagged(posts, tagRows, tag), page, size)
      ensures r.total == |Tagged(posts, tagRows, tag)| && r.page == page && r.size == size
      ensures forall p :: p in r.content ==> p in posts && p.published && tag in TagsOf(tagRows, p.id)
    {
      var found := Tagged(posts, tagRows, tag);
      var shown := PageOf(found, page, size);
      PostSlice(shown, |found|, page, size)
    }

    /** `get_statistics`: the drafts are exactly the posts not published; the views are summed. */
    function GetStatistics(): (s: Statistics)
      reads this
      ensures s.totalPosts == |posts| && s.publishedPosts == |Published(posts)|
      ensures s.draftPosts == |Drafts(posts)| >= 0
      ensures s.totalViews == SumViews(posts)
    {
      PublishedPlusDrafts(posts);
      Statistics(|posts|, |Published(posts)|, |posts| - |Published(posts)|, SumViews(posts))
    }
  }

  /** Replacing rows without changing any id keeps every position lookup. */
  lemma IndexOfSameIds(a: seq<BlogPost>, b: seq<BlogPost>)
    requires |a| == |b| && forall k :: 0 <= k < |a| ==> a[k].id == b[k].id
    ensures forall id :: IndexOf(b, id) == IndexOf(a, id)
  {
    forall id
      ensures IndexOf(b, id) == IndexOf(a, id)
    {
      IndexOfSameIdsAt(a, b, id);
    }
  }

  lemma {:induction false} IndexOfSameIdsAt(a: seq<BlogPost>, b: seq<BlogPost>, id: nat)
    requires |a| == |b| && forall k :: 0 <= k < |a| ==> a[k].id == b[k].id
    ensures IndexOf(b, id) == IndexOf(a, id)
  {
    if a != [] {
      IndexOfSameIdsAt(a[1..], b[1..], id);
    }
  }

  /** Adding a row at the end keeps every lookup that succeeded. */
  lemma IndexOfExtend(a: seq<BlogPost>, p: BlogPost)
    ensures forall id :: IndexOf(a, id).Some? ==> IndexOf(a + [p], id) == IndexOf(a, id)
  {
    forall id | IndexOf(a, id).Some?
      ensures IndexOf(a + [p], id) == IndexOf(a, id)
    {
      var i := IndexOf(a, id).value;
      assert (a + [p])[i] == a[i];
      assert forall k :: 0 <= k < i ==> (a + [p])[k] == a[k];
    }
  }

  /** A fresh id has no tag rows yet. */
  lemma NoRowsForNewId(rows: seq<TagRow>, posts: seq<BlogPost>, id: nat)
    requires forall row :: row in rows ==> IndexOf(posts, row.postId).Some?
    requires forall i :: 0 <= i < |posts| ==> posts[i].id < id
    ensures TagsOf(rows, id) == []
  {
    forall row | row in rows
      ensures row.postId < id
    {
      var i := IndexOf(posts, row.postId).value;
      assert posts[i].id == row.postId;
    }
    TagsOfAbsent(rows, id);
  }

  lemma {:induction false} TagsOfAbsent(rows: seq<TagRow>, id: nat)
    requires forall row :: row in rows ==> row.postId < id
    ensures TagsOf(rows, id) == []
  {
    if rows != [] {
      assert rows[0] in rows;
      TagsOfAbsent(rows[1..], id);
    }
  }
}
