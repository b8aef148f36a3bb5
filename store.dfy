/** The in-memory article store: internal/article/store.go, repeated in main.go.
    The package-level `articles` slice is the `articles` field of a `Store`; each
    operation scans it from the front and stops at the first match. */
module ArticleStore {
  import opened Results
  import opened Model
  import opened Search
  import Decimal

  const ArticleNotFound := "article not found."

  /** The slug-miss message of internal/article/store.go, which capitalises it. */
  const ArticleNotFoundCapitalised := "Article not found."

  /** The seeded articles. */
  const Fixture: seq<Article> := [
    Article("1", 100, "Hi", "hi"),
    Article("2", 200, "sup", "sup"),
    Article("3", 300, "alo", "alo"),
    Article("4", 400, "bonjour", "bonjour"),
    Article("5", 500, "whats up", "whats-up")
  ]

  /** No two articles share an ID. */
  predicate UniqueIds(s: seq<Article>) {
    forall i, j :: 0 <= i < j < |s| ==> s[i].id != s[j].id
  }

  predicate UniqueSlugs(s: seq<Article>) {
    forall i, j :: 0 <= i < j < |s| ==> s[i].slug != s[j].slug
  }

  /** `dbGetArticle`: the first article with ID `id`, or "article not found." when
      none has it. */
  function GetById(s: seq<Article>, id: string): (r: Result<Article>)
    ensures r.Ok? ==> exists i :: 0 <= i < |s| && s[i] == r.value && r.value.id == id
                                  && forall j :: 0 <= j < i ==> s[j].id != id
    ensures r.Err? ==> r.error == ArticleNotFound && forall j :: 0 <= j < |s| ==> s[j].id != id
  {
    var i := FirstIndex(s, IdOf, id);
    if i < |s| then Ok(s[i]) else Err(ArticleNotFound)
  }

  /** `dbGetArticleBySlug`: the first article with slug `slug`, or the error
      `miss` when none has it (the two copies word that message differently). */
  function GetBySlug(s: seq<Article>, slug: string, miss: string): (r: Result<Article>)
    ensures r.Ok? ==> exists i :: 0 <= i < |s| && s[i] == r.value && r.value.slug == slug
                                  && forall j :: 0 <= j < i ==> s[j].slug != slug
    ensures r.Err? ==> r.error == miss && forall j :: 0 <= j < |s| ==> s[j].slug != slug
  {
    var i := FirstIndex(s, SlugOf, slug);
    if i < |s| then Ok(s[i]) else Err(miss)
  }

  /** `dbUpdateArticle`: the returned result and the new contents of the store.
      The first article with ID `id` is replaced by `a`, which is returned; every
      other position is kept. Without a match the store is left as it was. */
  function Update(s: seq<Article>, id: string, a: Article): (r: (Result<Article>, seq<Article>))
    ensures |r.1| == |s|
    ensures GetById(s, id).Err? ==> r == (Err(ArticleNotFound), s)
    ensures GetById(s, id).Ok? ==>
              r.0 == Ok(a) &&
              exists i :: 0 <= i < |s| && s[i].id == id && r.1[i] == a
                          && (forall j :: 0 <= j < i ==> s[j].id != id)
                          && (forall j :: 0 <= j < |s| && j != i ==> r.1[j] == s[j])
  {
    var i := FirstIndex(s, IdOf, id);
    if i < |s| then (Ok(a), s[i := a]) else (Err(ArticleNotFound), s)
  }

  /** `dbRemoveArticle`: the removed article and the new contents of the store.
      Exactly the first article with ID `id` is deleted and returned, and the
      others keep their relative order. Without a match nothing changes. */
  function Remove(s: seq<Article>, id: string): (r: (Result<Article>, seq<Article>))
    ensures GetById(s, id).Err? ==> r == (Err(ArticleNotFound), s)
    ensures GetById(s, id).Ok? ==>
              r.0 == GetById(s, id) && |r.1| == |s| - 1 &&
              exists i :: 0 <= i < |s| && s[i].id == id
                          && (forall j :: 0 <= j < i ==> s[j].id != id && r.1[j] == s[j])
                          && (forall j :: i <= j < |r.1| ==> r.1[j] == s[j + 1])
  {
    var i := FirstIndex(s, IdOf, id);
    if i < |s| then (Ok(s[i]), s[..i] + s[i + 1..]) else (Err(ArticleNotFound), s)
  }

  /** In a store with unique IDs every article is found by its own ID; with
      unique slugs, also by its own slug. */
  lemma LookupFindsEach(s: seq<Article>, k: nat, miss: string)
    requires k < |s|
    ensures UniqueIds(s) ==> GetById(s, s[k].id) == Ok(s[k])
    ensures UniqueSlugs(s) ==> GetBySlug(s, s[k].slug, miss) == Ok(s[k])
  {
  }

  /** The seeded store holds five articles, with IDs "1" to "5" and no ID or slug
      used twice, so every seeded article is found by its ID and by its slug. */
  lemma FixtureKeysUnique()
    ensures |Fixture| == 5 && UniqueIds(Fixture) && UniqueSlugs(Fixture)
    ensures forall k :: 0 <= k < 5 ==> Fixture[k].id == Decimal.Format(k + 1)
  {
  }

  /** After an update that keeps the article's ID, looking that ID up returns the
      new record in full: a replacement, not a merge. */
  lemma GetAfterUpdate(s: seq<Article>, id: string, a: Article)
    requires GetById(s, id).Ok? && a.id == id
    ensures GetById(Update(s, id, a).1, id) == Ok(a)
  {
    var t := Update(s, id, a).1;
    var i :| 0 <= i < |s| && s[i].id == id && t[i] == a
             && (forall j :: 0 <= j < i ==> s[j].id != id)
             && (forall j :: 0 <= j < |s| && j != i ==> t[j] == s[j]);
    var r := GetById(t, id);
    var m :| 0 <= m < |t| && t[m] == r.value && forall j :: 0 <= j < m ==> t[j].id != id;
    assert m == i;
  }

  /** Removing the only article with ID `x` leaves none with that ID, so a later
      lookup of `x` fails with "article not found.". */
  lemma GetAfterRemove(s: seq<Article>, x: string)
    requires GetById(s, x).Ok?
    requires forall i, j :: 0 <= i < j < |s| && s[i].id == x ==> s[j].id != x
    ensures Remove(s, x).0 == GetById(s, x)
    ensures GetById(Remove(s, x).1, x) == Err(ArticleNotFound)
  {
    var t := Remove(s, x).1;
    var i :| 0 <= i < |s| && s[i].id == x
             && (forall j :: 0 <= j < i ==> s[j].id != x && t[j] == s[j])
             && (forall j :: i <= j < |t| ==> t[j] == s[j + 1]);
    forall j | 0 <= j < |t| ensures t[j].id != x {
      if j >= i {
        assert t[j] == s[j + 1];
      }
    }
  }

  /** Removing keeps every other article: the store shrinks by exactly the
      removed one. */
  lemma RemoveKeepsTheRest(s: seq<Article>, id: string)
    requires GetById(s, id).Ok?
    ensures multiset(Remove(s, id).1) + multiset{GetById(s, id).value} == multiset(s)
  {
    var i := FirstIndex(s, IdOf, id);
    assert s == s[..i] + [s[i]] + s[i + 1..];
  }

  /** Identifiers are not checked for uniqueness: appending an article whose ID
      is already held leaves lookups of that ID returning the earlier entry. */
  lemma DuplicateIdShadowed(s: seq<Article>, a: Article)
    requires GetById(s, a.id).Ok?
    ensures GetById(s + [a], a.id) == GetById(s, a.id)
  {
    FirstIndexAppend(s, [a], IdOf, a.id);
    assert (s + [a])[FirstIndex(s, IdOf, a.id)] == s[FirstIndex(s, IdOf, a.id)];
  }

  /** A generated identifier (the decimal text of a number from 10 to 109) has
      at least two digits, so it never collides with a seeded one. */
  lemma GeneratedIdNotSeeded(k: nat)
    requires 10 <= k < 110
    ensures GetById(Fixture, Decimal.Format(k)).Err?
  {
    var id := Decimal.Format(k);
    assert |id| >= 2;
    forall j | 0 <= j < |Fixture| ensures Fixture[j].id != id {
      assert |Fixture[j].id| == 1;
    }
  }

  /** The store. The two copies of the package differ only in the wording of the
      slug-miss error, held in `slugMiss`. */
  class Store {
    var articles: seq<Article>
    const slugMiss: string

    /** The store of internal/article/store.go, seeded with the fixture. */
    constructor InternalPackage()
      ensures articles == Fixture && slugMiss == ArticleNotFoundCapitalised
    {
      articles := Fixture;
      slugMiss := ArticleNotFoundCapitalised;
    }

    /** The store of main.go, seeded with the same fixture. */
    constructor MainPackage()
      ensures articles == Fixture && slugMiss == ArticleNotFound
    {
      articles := Fixture;
      slugMiss := ArticleNotFound;
    }

    /** `dbNewArticle`: the ID is overwritten with the decimal text of a number
        drawn from [10, 110), the article is appended, and the ID is returned
        with no error. Nothing checks that the ID is unused. */
    method NewArticle(article: Article) returns (r: Result<string>)
      modifies this
      ensures r.Ok? && exists k :: 10 <= k < 110 && r.value == Decimal.Format(k)
      ensures articles == old(articles) + [article.(id := r.value)]
    {
      var n: nat :| n < 100;
      var id := Decimal.Format(n + 10);
      articles := articles + [article.(id := id)];
      r := Ok(id);
    }

    /** `dbGetArticle`. */
    method GetArticle(id: string) returns (r: Result<Article>)
      ensures r == GetById(articles, id)
    {
      var i := 0;
      while i < |articles|
        invariant i <= |articles|
        invariant forall j :: 0 <= j < i ==> articles[j].id != id
      {
        if articles[i].id == id {
          return Ok(articles[i]);
        }
        i := i + 1;
      }
      return Err(ArticleNotFound);
    }

    /** `dbGetArticleBySlug`. */
    method GetArticleBySlug(slug: string) returns (r: Result<Article>)
      ensures r == GetBySlug(articles, slug, slugMiss)
    {
      var i := 0;
      while i < |articles|
        invariant i <= |articles|
        invariant forall j :: 0 <= j < i ==> articles[j].slug != slug
      {
        if articles[i].slug == slug {
          return Ok(articles[i]);
        }
        i := i + 1;
      }
      return Err(slugMiss);
    }

    /** `dbUpdateArticle`. */
    method UpdateArticle(id: string, article: Article) returns (r: Result<Article>)
      modifies this
      ensures (r, articles) == Update(old(articles), id, article)
    {
      var i := 0;
      while i < |articles|
        invariant i <= |articles| && articles == old(articles)
        invariant forall j :: 0 <= j < i ==> articles[j].id != id
      {
        if articles[i].id == id {
          articles := articles[i := article];
          return Ok(article);
        }
        i := i + 1;
      }
      return Err(ArticleNotFound);
    }

    /** `dbRemoveArticle`. */
    method RemoveArticle(id: string) returns (r: Result<Article>)
      modifies this
      ensures (r, articles) == Remove(old(articles), id)
    {
      var i := 0;
      while i < |articles|
        invariant i <= |articles| && articles == old(articles)
        invariant forall j :: 0 <= j < i ==> articles[j].id != id
      {
        if articles[i].id == id {
          var a := articles[i];
          articles := articles[..i] + articles[i + 1..];
          return Ok(a);
        }
        i := i + 1;
      }
      return Err(ArticleNotFound);
    }
  }
}
