/**
 * The blog post record (app/models/blog_post.py): its columns, their length
 * limits, and the excerpt it derives from its content.
 */
module PostModel {
  import opened Wrappers
  import opened Strings

  /** Column widths: String(200), String(500), String(100). */
  const TitleColumn: nat := 200
  const ExcerptColumn: nat := 500
  const AuthorColumn: nat := 100
  const ImageColumn: nat := 500
  const TagColumn: nat := 100

  /** A derived excerpt is at most this long. */
  const ExcerptLimit: nat := 200

  /** One row of `blog_posts`; times are integers, the translations are not modelled. */
  datatype BlogPost = BlogPost(
    id: nat,
    title: string,
    content: string,
    excerpt: Option<string>,
    author: Option<string>,
    featuredImage: Option<string>,
    published: bool,
    viewCount: int,
    isAiGenerated: bool,
    createdAt: int,
    updatedAt: Option<int>,
    publishedAt: Option<int>)

  /** Python truthiness of an optional string: present and non-empty. */
  predicate Truthy(s: Option<string>)
  {
    s.Some? && s.value != ""
  }

  /**
   * `generate_excerpt`: a truthy excerpt is kept; otherwise non-empty content
   * is cut to 197 characters and "..." when longer than 200, or kept whole;
   * with neither, the (falsy) excerpt is returned.
   */
  function GenerateExcerpt(p: BlogPost): (r: Option<string>)
    ensures Truthy(p.excerpt) ==> r == p.excerpt
    ensures !Truthy(p.excerpt) && |p.content| > ExcerptLimit ==>
              r.Some? && |r.value| == ExcerptLimit && r.value[..197] == p.content[..197] && r.value[197..] == "..."
    ensures !Truthy(p.excerpt) && 0 < |p.content| <= ExcerptLimit ==> r == Some(p.content)
    ensures !Truthy(p.excerpt) && p.content == "" ==> r == p.excerpt
  {
    if !Truthy(p.excerpt) && p.content != "" then
      if |p.content| > 200 then Some(p.content[..197] + "...") else Some(p.content)
    else p.excerpt
  }

  /** Whatever the content, an excerpt derived from it fits the excerpt column with room to spare. */
  lemma DerivedExcerptFits(p: BlogPost)
    requires !Truthy(p.excerpt)
    ensures GenerateExcerpt(p).Some? ==> |GenerateExcerpt(p).value| <= ExcerptLimit < ExcerptColumn
  {
  }

  /** Storing the derived excerpt and deriving again gives the same excerpt. */
  lemma GenerateExcerptStable(p: BlogPost)
    ensures GenerateExcerpt(p.(excerpt := GenerateExcerpt(p))) == GenerateExcerpt(p)
  {
  }
}
