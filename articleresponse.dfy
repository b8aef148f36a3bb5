/** The article response payload (internal/articleresponse/articleresponse.go,
    repeated in main.go): an article, the payload of its author when the author is
    a known user, and an `elapsed` field the render hook fills in. */
module ArticleResponses {
  import opened Results
  import opened Model
  import opened Users
  import opened UserPayloads
  import ArticleStore

  /** The value `Render` stores in `Elapsed`. */
  const RenderedElapsed := 10

  /** The author of `article` among the fixture users, looked up by the article's
      own `UserID` (main.go). */
  function AuthorOf(article: Article): (u: Option<User>)
    ensures u.Some? <==> article.userId == 100 || article.userId == 200
    ensures u.Some? ==> DBGetUser(article.userId) == Ok(u.value) && u.value.id == article.userId
  {
    match DBGetUser(article.userId)
    case Ok(user) => Some(user)
    case Err(_) => None
  }

  /** Reading through a pointer: Go panics when the pointer is nil. */
  datatype Deref<+T> = Value(v: T) | NilDereference

  /** `resp.User.ID` on a possibly nil user payload. */
  function PayloadUserId(payload: Option<User>): (d: Deref<int>)
    ensures d.Value? <==> payload.Some?
    ensures d.Value? ==> d.v == payload.value.id
  {
    if payload.None? then NilDereference else Value(payload.value.id)
  }

  /** The enrichment of internal/articleresponse/articleresponse.go as written:
      `resp.User` is nil right after construction, the branch for a nil user is
      taken, and it reads `resp.User.ID`. The result is the author it would
      attach, or the panic. */
  function EnrichAsWritten(article: Article): (r: Deref<Option<User>>)
    ensures r == NilDereference
  {
    var respUser: Option<User> := None;
    if respUser.None? then
      match PayloadUserId(respUser)
      case NilDereference => NilDereference
      case Value(id) => Value(match DBGetUser(id) case Ok(u) => Some(u) case Err(_) => None)
    else Value(respUser)
  }

  /** As written, building a response for the seeded article "1" panics, while
      the main.go version attaches its author Peter. */
  lemma EnrichAsWrittenPanics()
    ensures EnrichAsWritten(ArticleStore.Fixture[0]) == NilDereference
    ensures AuthorOf(ArticleStore.Fixture[0]) == Some(User(100, "Peter"))
  {
  }

  class ArticleResponse {
    var article: Article
    var user: UserPayload?
    var elapsed: int

    /** The state `NewArticleResponse(a)` builds: exactly `a`, `elapsed` 0, and
        the payload of `a`'s author, with no role yet, or no payload when the
        author is unknown. */
    predicate Built(a: Article)
      reads this, user
    {
      && article == a
      && elapsed == 0
      && match AuthorOf(a)
         case None => user == null
         case Some(u) => user != null && user.user == u && user.role == ""
    }

    /** `NewArticleResponse(a)` as main.go writes it. */
    constructor (a: Article)
      ensures Built(a)
      ensures user != null ==> fresh(user)
    {
      article := a;
      elapsed := 0;
      var author := AuthorOf(a);
      if author.Some? {
        user := new UserPayload(author.value);
      } else {
        user := null;
      }
    }

    /** `Render`: `elapsed` becomes 10 whatever it was; the article and the user
        payload are untouched. */
    method Render() returns (err: Option<string>)
      modifies this
      ensures elapsed == RenderedElapsed && article == old(article) && user == old(user)
      ensures err == None
    {
      elapsed := RenderedElapsed;
      err := None;
    }

    /** The renderer runs the hooks top-down: first the response's own, then the
        nested user payload's. */
    method RenderTree() returns (err: Option<string>)
      modifies this, user
      ensures elapsed == RenderedElapsed && article == old(article) && user == old(user)
      ensures user != null ==> user.role == Collaborator && user.user == old(user.user)
      ensures err == None
    {
      err := Render();
      if user != null {
        err := user.Render();
      }
    }
  }

  /** `NewArticleListResponse`: one freshly built response per article, in the
      same order; no response appears twice. */
  method NewArticleListResponse(articles: seq<Article>) returns (list: seq<ArticleResponse>)
    ensures |list| == |articles|
    ensures forall i :: 0 <= i < |list| ==> fresh(list[i]) && list[i].Built(articles[i])
    ensures forall i, j :: 0 <= i < j < |list| ==> list[i] != list[j]
  {
    list := [];
    for k := 0 to |articles|
      invariant |list| == k
      invariant forall i :: 0 <= i < k ==> fresh(list[i]) && list[i].Built(articles[i])
      invariant forall i, j :: 0 <= i < j < k ==> list[i] != list[j]
    {
      var resp := new ArticleResponse(articles[k]);
      list := list + [resp];
    }
  }
}
