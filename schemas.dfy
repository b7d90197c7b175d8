/**
 * The request bodies the post API accepts (app/schemas/blog_post.py): their
 * field bounds as validity predicates, and the values an omitted field takes.
 */
module Schemas {
  import opened Wrappers
  import Admin
  import Strings

  const TitleMin: nat := 3
  const TitleMax: nat := 200
  const ContentMin: nat := 10
  const PromptMin: nat := 10
  const DefaultAIAuthor: string := "AI Assistant"

  /** `BlogPostCreate`, every field given. */
  datatype PostCreate = PostCreate(
    title: string, content: string, excerpt: Option<string>, author: Option<string>,
    tags: seq<string>, featuredImage: Option<string>, published: bool)

  /** A create body as sent: the optional fields may be left out. */
  datatype CreateBody = CreateBody(
    title: string, content: string, excerpt: Option<string>, author: Option<string>,
    tags: Option<seq<string>>, featuredImage: Option<string>, published: Option<bool>)

  /** The defaults of `BlogPostBase`: no tags, a draft, and no excerpt, author or image. */
  function WithDefaults(b: CreateBody): (p: PostCreate)
    ensures p.title == b.title && p.content == b.content
    ensures p.tags == (if b.tags.Some? then b.tags.value else [])
    ensures p.published == (b.published.Some? && b.published.value)
    ensures p.excerpt == b.excerpt && p.author == b.author && p.featuredImage == b.featuredImage
  {
    PostCreate(b.title, b.content, b.excerpt, b.author,
               if b.tags.Some? then b.tags.value else [],
               b.featuredImage,
               if b.published.Some? then b.published.value else false)
  }

  /** `min_length=3, max_length=200` on the title and `min_length=10` on the content. */
  predicate TitleOk(title: string) { TitleMin <= |title| <= TitleMax }
  predicate ContentOk(content: string) { |content| >= ContentMin }

  predicate CreateValid(p: PostCreate)
  {
    TitleOk(p.title) && ContentOk(p.content)
  }

  /** `BlogPostUpdate`: every field optional (`tags` None means "keep the tags"). */
  datatype PostUpdate = PostUpdate(
    title: Option<string>, content: Option<string>, excerpt: Option<string>, author: Option<string>,
    tags: Option<seq<string>>, featuredImage: Option<string>, published: Option<bool>)

  /** A supplied title or content obeys the create bounds; anything left out is fine. */
  predicate UpdateValid(u: PostUpdate)
  {
    (u.title.Some? ==> TitleOk(u.title.value)) && (u.content.Some? ==> ContentOk(u.content.value))
  }

  /** An update giving every field of a valid create body is itself valid, and an empty update is too. */
  lemma UpdateAcceptsCreate(p: PostCreate)
    requires CreateValid(p)
    ensures UpdateValid(PostUpdate(Some(p.title), Some(p.content), p.excerpt, p.author,
                                   Some(p.tags), p.featuredImage, Some(p.published)))
    ensures UpdateValid(PostUpdate(None, None, None, None, None, None, None))
  {
  }

  /** `AIGenerateRequest`: the prompt needs ten characters and has no upper bound. */
  datatype AIGenerateRequest = AIGenerateRequest(prompt: string, author: string)

  predicate AIRequestValid(r: AIGenerateRequest)
  {
    |r.prompt| >= PromptMin
  }

  /** The author when the body leaves it out. */
  function AIRequestOf(prompt: string, author: Option<string>): (r: AIGenerateRequest)
    ensures r.prompt == prompt
    ensures author.None? ==> r.author == DefaultAIAuthor
    ensures author.Some? ==> r.author == author.value
  {
    AIGenerateRequest(prompt, if author.Some? then author.value else DefaultAIAuthor)
  }

  /**
   * Every request the admin panel sends passes the server's check, and the
   * server would accept longer prompts than the panel lets through.
   */
  lemma AdminPromptsAreServerValid(prompt: string, author: string)
    ensures Admin.CheckPrompt(prompt, author).Ok? ==>
              AIRequestValid(AIRequestOf(Admin.CheckPrompt(prompt, author).value.prompt,
                                         Some(Admin.CheckPrompt(prompt, author).value.author)))
    ensures var long := seq(501, i => 'a');
            Admin.CheckPrompt(long, author) == Err(Admin.LongPrompt)
            && AIRequestValid(AIRequestOf(long, None))
  {
    var long := seq(501, i => 'a');
    assert Strings.TrimStart(long, Strings.Js) == long by {
      assert long[0] == 'a';
    }
    assert Strings.TrimEnd(long, Strings.Js) == long by {
      assert long[|long| - 1] == 'a';
    }
  }
}
