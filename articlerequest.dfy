/** The article request payload of main.go: a decoded article, an optional user
    payload, and a protected ID that the post-decode hook discards. */
module ArticleRequests {
  import opened Results
  import opened Model
  import opened UserPayloads

  const MissingArticle := "missing required Article fields."

  predicate IsUpper(c: char) { 'A' <= c <= 'Z' }

  function LowerChar(c: char): (d: char)
    ensures !IsUpper(d)
    ensures IsUpper(c) ==> d as int == c as int + 32
    ensures !IsUpper(c) ==> d == c
  {
    if IsUpper(c) then (c as int + 32) as char else c
  }

  /** `strings.ToLower` over ASCII letters; other characters are kept. */
  function Lower(s: string): (r: string)
    ensures |r| == |s|
  {
    if s == [] then [] else [LowerChar(s[0])] + Lower(s[1..])
  }

  /** Lower-casing a string lower-cases each of its characters in place. */
  lemma {:induction false} LowerPointwise(s: string)
    ensures forall i :: 0 <= i < |s| ==> Lower(s)[i] == LowerChar(s[i])
  {
    if s != [] {
      LowerPointwise(s[1..]);
      assert forall i :: 1 <= i < |s| ==> Lower(s)[i] == Lower(s[1..])[i - 1];
    }
  }

  /** The lower-cased text has no upper-case letter, and only upper-case letters
      are changed. */
  lemma {:induction false} LowerChangesOnlyUpper(s: string)
    ensures forall i :: 0 <= i < |s| ==> !IsUpper(Lower(s)[i])
    ensures forall i :: 0 <= i < |s| && !IsUpper(s[i]) ==> Lower(s)[i] == s[i]
  {
    if s != [] {
      LowerChangesOnlyUpper(s[1..]);
      assert forall i :: 1 <= i < |s| ==> Lower(s)[i] == Lower(s[1..])[i - 1];
    }
  }

  /** Lower-casing twice is lower-casing once. */
  lemma {:induction false} LowerIdempotent(s: string)
    ensures Lower(Lower(s)) == Lower(s)
  {
    if s != [] {
      LowerIdempotent(s[1..]);
      assert Lower(s)[1..] == Lower(s[1..]);
    }
  }

  lemma LowerExample()
    ensures Lower("AWESOME") == "awesome"
  {
  }

  class ArticleRequest {
    /** The decoded article; None when the body held no article fields. */
    var article: Option<Article>
    var user: UserPayload?
    var protectedId: string

    /** The request as the decoder leaves it. */
    constructor (article: Option<Article>, user: UserPayload?, protectedId: string)
      ensures this.article == article && this.user == user && this.protectedId == protectedId
    {
      this.article := article;
      this.user := user;
      this.protectedId := protectedId;
    }

    /** The state a successful `Bind` leaves: an article with a lower-case title
        and no protected ID. */
    predicate IsBound()
      reads this
    {
      article.Some? && protectedId == "" && Lower(article.value.title) == article.value.title
    }

    /** `Bind`: without an article it fails and changes nothing; otherwise it
        clears the protected ID and lower-cases the title, keeping the article's
        ID, author and slug. Binding an already bound request changes nothing, so
        binding twice is binding once. */
    method Bind() returns (err: Option<string>)
      modifies this
      ensures old(article).None? ==> err == Some(MissingArticle) && unchanged(this)
      ensures old(article).Some? ==>
                && err == None
                && protectedId == ""
                && user == old(user)
                && article == Some(old(article).value.(title := Lower(old(article).value.title)))
                && IsBound()
      ensures old(IsBound()) ==> unchanged(this)
    {
      if article.None? {
        return Some(MissingArticle);
      }
      protectedId := "";
      var a := article.value;
      LowerIdempotent(a.title);
      article := Some(a.(title := Lower(a.title)));
      return None;
    }
  }
}
