/** The `ArticleCtx` middleware (internal/article/middleware.go, repeated in
    main.go): it resolves the route parameters to an article and either passes it
    to the next handler under the context key "article" or answers 404 itself. */
module Locator {
  import opened Results
  import opened Model
  import opened ArticleStore
  import opened ErrResponses

  const ContextKey := "article"

  /** What the middleware does: call `next` once with the article attached under
      `key`, or render `err` and never call `next`. */
  datatype Outcome = Next(key: string, article: Article) | Respond(err: ErrResponse)

  /** A lookup's error text is discarded: any failure becomes `ErrNotFound`. */
  function Deliver(r: Result<Article>): Outcome {
    if r.Ok? then Next(ContextKey, r.value) else Respond(ErrNotFound)
  }

  /** The dispatch over the store contents `s` and the URL parameters `articleID`
      and `articleSlug` (an absent parameter is ""). It only reads `s`. */
  function ArticleCtx(s: seq<Article>, articleID: string, articleSlug: string): (o: Outcome)
    ensures o.Respond? ==> o.err == ErrNotFound
    ensures o.Next? ==> o.key == ContextKey && o.article in s
    ensures articleID != "" ==>
              (o.Next? <==> exists j :: 0 <= j < |s| && s[j].id == articleID)
              && (o.Next? ==> exists i :: 0 <= i < |s| && s[i] == o.article && o.article.id == articleID
                                          && forall j :: 0 <= j < i ==> s[j].id != articleID)
    ensures articleID == "" && articleSlug != "" ==>
              (o.Next? <==> exists j :: 0 <= j < |s| && s[j].slug == articleSlug)
              && (o.Next? ==> exists i :: 0 <= i < |s| && s[i] == o.article && o.article.slug == articleSlug
                                          && forall j :: 0 <= j < i ==> s[j].slug != articleSlug)
    ensures articleID == "" && articleSlug == "" ==> o == Respond(ErrNotFound)
  {
    if articleID != "" then Deliver(GetById(s, articleID))
    else if articleSlug != "" then Deliver(GetBySlug(s, articleSlug, ArticleNotFound))
    else Respond(ErrNotFound)
  }

  /** With an ID parameter the slug parameter is never consulted. */
  lemma SlugIgnoredWithId(s: seq<Article>, articleID: string, slug1: string, slug2: string)
    requires articleID != ""
    ensures ArticleCtx(s, articleID, slug1) == ArticleCtx(s, articleID, slug2)
  {
  }

  /** In a store with unique IDs, every stored article is handed to the next
      handler when addressed by its ID; with unique slugs, also by its slug alone. */
  lemma LocatesEveryStoredArticle(s: seq<Article>, k: nat, slug: string)
    requires k < |s|
    ensures UniqueIds(s) && s[k].id != "" ==> ArticleCtx(s, s[k].id, slug) == Next(ContextKey, s[k])
    ensures UniqueSlugs(s) && s[k].slug != "" ==> ArticleCtx(s, "", s[k].slug) == Next(ContextKey, s[k])
  {
    LookupFindsEach(s, k, ArticleNotFound);
  }

  /** Against the seeded store, `DELETE /articles/1` returns article "1", and a
      following `GET /articles/1` is answered with the not-found envelope. */
  lemma DeleteThenGetIsNotFound()
    ensures Remove(Fixture, "1").0 == Ok(Fixture[0])
    ensures ArticleCtx(Remove(Fixture, "1").1, "1", "") == Respond(ErrNotFound)
  {
    FixtureKeysUnique();
    LookupFindsEach(Fixture, 0, ArticleNotFound);
    GetAfterRemove(Fixture, "1");
  }
}
