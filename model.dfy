/** The article record of internal/model/article.go, which main.go repeats. */
module Model {

  /** `ID` is the externally visible identifier, `UserID` the author. */
  datatype Article = Article(id: string, userId: int, title: string, slug: string)

  /** Keys the lookups compare. */
  function IdOf(a: Article): string { a.id }

  function SlugOf(a: Article): string { a.slug }
}
