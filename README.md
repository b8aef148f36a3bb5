# Article REST example: store, locator and payload hooks

A model of the logic inside a small Go REST example service. The service keeps an
in-memory collection of articles and a read-only user fixture. Everything else in
it is HTTP, metrics and logging wiring. The model covers:

- the article store (`dbNewArticle`, `dbGetArticle`, `dbGetArticleBySlug`,
  `dbUpdateArticle`, `dbRemoveArticle` and the seeded articles);
- the user fixture and `DBGetUser` / `dbGetUser`;
- the `ArticleCtx` middleware, which resolves `articleID` or `articleSlug` to an
  article or answers 404;
- the payload hooks: `ArticleRequest.Bind`, `NewArticleResponse`,
  `ArticleResponse.Render`, `NewArticleListResponse`, `NewUserPayloadResponse`,
  `UserPayload.Bind` and `UserPayload.Render`;
- the error envelopes `ErrInvalidRequest`, `ErrRender` and `ErrNotFound`;
- the route patterns that `FileServer` registers.

main.go repeats the internal packages almost line for line. Each rule is modelled
once:

- `Store` covers both copies of the store. Its two constructors differ only in the
  slug-miss message: "Article not found." in internal/article/store.go:44 and
  "article not found." in main.go:782.
- `FindUser` covers both `DBGetUser` and `dbGetUser`.
- `ArticleCtx` covers both middleware copies.
- `UserPayload` and `ArticleResponse.Render` cover both copies. `ArticleRequest`
  and the `ArticleResponse` constructor follow main.go (see below and
  "## Left out").

The two versions of `NewArticleResponse` do differ. The version in
internal/articleresponse crashes on a nil pointer (see "## Findings"). The model's
`ArticleResponse` constructor follows main.go, which looks up the article's own
author.

Modules, one per component:

- `Results`: option and `(value, error)` results.
- `Search`: the first-match scan that every lookup uses.
- `Decimal`: `fmt.Sprintf("%d", n)` and its inverse.
- `Model`: the article record.
- `Users`: the user fixture and its lookup.
- `ArticleStore`: specification functions, lemmas and the `Store` class.
- `ErrResponses`: the error envelopes.
- `Locator`: the `ArticleCtx` dispatch.
- `UserPayloads`, `ArticleResponses`, `ArticleRequests`: the payload classes.
- `FileServers`: the `FileServer` route patterns.

The store methods and the `Bind`/`Render` hooks change state in place, so they
are methods of classes. `GetArticle`, `GetArticleBySlug`, `UpdateArticle` and
`RemoveArticle` are each proved equal to a pure specification function, and
the store's properties are proved as lemmas about those functions. `NewArticle`
states its new contents directly. The hooks state their new field values directly in their
postconditions. The list builder allocates a new list of freshly built
responses.

Two points of the code deserve note:

- internal/articleresponse/articleresponse.go:44 reads `resp.User.ID` through a
  nil pointer, so it panics (see "## Findings"). The internal
  `NewArticleListResponse` (line 31) calls that constructor, so it panics too
  whenever it is given a non-empty list.
- `dbNewArticle` (internal/article/store.go:22) draws an ID without checking
  that it is unused. `DuplicateIdShadowed` shows that a clash leaves lookups of
  that ID on the earlier entry. `GeneratedIdNotSeeded` shows that a generated
  ID, with two or more digits, never equals a seeded ID "1" to "5".

## Model

| member | source | states |
|---|---|---|
| `Search.FirstIndex` | internal/article/store.go:29-33 | the scan stops at the first element whose key matches: no earlier element matches, and the returned index is in range exactly when an element matches |
| `Decimal.Format` | internal/article/store.go:22 | the `%d` text of a number is non-empty, all digits, one digit exactly for numbers below 10, and without a leading zero |
| `Decimal.ParseFormat` | internal/article/store.go:22 | reading the decimal text back gives the number |
| `Decimal.FormatInjective` | internal/article/store.go:22 | different numbers give different identifiers |
| `Users.FindUser` | internal/user/user.go:22-30 | returns the first user with the ID; fails with "user not found." exactly when no user has it |
| `Users.DBGetUser` | internal/user/user.go:17-30 | over the fixture, a user is found exactly for IDs 100 and 200, and it carries the requested ID |
| `Users.FixtureLookups` | internal/user/user.go:17-20 | 100 is Peter, 200 is Julia, and 0, 300, 400 and 500 are "user not found." |
| `ArticleStore.GetById` | internal/article/store.go:28-36 | first article with the ID; "article not found." exactly when none has it |
| `ArticleStore.GetBySlug` | internal/article/store.go:37-45 | first article with the slug; the copy's own miss message exactly when none has it |
| `ArticleStore.Update` | internal/article/store.go:47-57 | the first article with the ID is replaced by the new one, which is returned; length and every other position are kept; with no match the store is unchanged and the call fails |
| `ArticleStore.Remove` | internal/article/store.go:59-69 | exactly the first article with the ID is removed and returned; the length drops by one and the others keep their order; with no match the store is unchanged and the call fails |
| `ArticleStore.LookupFindsEach` | internal/article/store.go:28-45 | when IDs are unique every stored article is found by its ID; when slugs are unique, by its slug |
| `ArticleStore.FixtureKeysUnique` | internal/article/store.go:13-19 | the seed has five articles with IDs "1".."5" and no repeated ID or slug |
| `ArticleStore.GetAfterUpdate` | internal/article/store.go:47-57 | after an update that keeps the ID, looking the ID up gives the new record whole |
| `ArticleStore.GetAfterRemove` | internal/article/store.go:59-69 | when X is held by exactly one article (other IDs may repeat), removing X returns the article the lookup found, and looking X up afterwards fails |
| `ArticleStore.RemoveKeepsTheRest` | internal/article/store.go:62 | the remaining articles plus the removed one are the old contents, as a multiset |
| `ArticleStore.DuplicateIdShadowed` | internal/article/store.go:21-33 | appending an article whose ID is already held does not change what a lookup of that ID returns: the earlier entry |
| `ArticleStore.GeneratedIdNotSeeded` | internal/article/store.go:13-26 | a generated ID (10 to 109) is not the ID of any seeded article |
| `ArticleStore.Store.InternalPackage` | internal/article/store.go:13-19 | the store starts as the fixture, with the capitalised slug-miss message |
| `ArticleStore.Store.MainPackage` | main.go:741-749 | the store starts as the same fixture, with the lower-case slug-miss message of main.go:782 |
| `ArticleStore.Store.NewArticle` | internal/article/store.go:21-26 | the ID becomes the decimal text of some number from 10 to 109; the article is appended with that ID after unchanged earlier entries; the ID is returned with no error |
| `ArticleStore.Store.GetArticle` | internal/article/store.go:28-36 | the scan returns the first stored article with the ID, or fails with "article not found." exactly when none has it (the result equals `GetById`, whose contract says so) |
| `ArticleStore.Store.GetArticleBySlug` | internal/article/store.go:37-45 | the scan returns the first stored article with the slug, or fails with this copy's miss message exactly when none has it (the result equals `GetBySlug`) |
| `ArticleStore.Store.UpdateArticle` | internal/article/store.go:47-57 | the first article with the ID is replaced in place and returned, every other position kept; with no match the store is untouched and the call fails (result and new contents equal `Update` of the old contents) |
| `ArticleStore.Store.RemoveArticle` | internal/article/store.go:59-69 | the first article with the ID is deleted and returned, the rest keep their order; with no match the store is untouched and the call fails (result and new contents equal `Remove` of the old contents) |
| `ErrResponses.ErrInvalidRequest` | main.go:699-707 | status 400; wraps the error; the body has status "Invalid request." and the error's message |
| `ErrResponses.ErrRender` | main.go:709-717 | status 422; wraps the error; the body has status "Error rendering response." and the error's message |
| `ErrResponses.NotFoundBody` | main.go:719-720 | not-found is a 404 with no wrapped error and the body `{"status":"Resource not found."}` |
| `Locator.ArticleCtx` | internal/article/middleware.go:17-47 | a non-empty ID selects lookup by ID; otherwise a non-empty slug selects lookup by slug; otherwise the answer is `ErrNotFound`; `next` runs only on a successful lookup, once, with the FIRST stored article that has the ID (or slug) under "article"; a failed lookup gives `ErrNotFound` |
| `Locator.SlugIgnoredWithId` | internal/article/middleware.go:22-25 | with an ID parameter the slug parameter has no effect |
| `Locator.LocatesEveryStoredArticle` | internal/article/middleware.go:22-45 | with unique IDs every stored article is handed to `next` by its ID; with unique slugs, by its slug alone |
| `Locator.DeleteThenGetIsNotFound` | main.go:25-29 | on the seeded store, deleting article 1 returns it, and fetching article 1 afterwards is answered with the not-found envelope |
| `UserPayloads.UserPayload.constructor` | internal/userpayload/userpayload.go:23-25 | the payload holds exactly the user and an empty role |
| `UserPayloads.UserPayload.Bind` | internal/userpayload/userpayload.go:29-31 | returns no error and changes nothing |
| `UserPayloads.UserPayload.Render` | internal/userpayload/userpayload.go:33-37 | the role becomes "collaborator" whatever it was, so rendering again changes nothing; the user is kept; no error |
| `ArticleResponses.AuthorOf` | main.go:644-648 | a user is attached exactly when the article's `UserID` is a fixture user's ID (100 or 200), and it is the user `dbGetUser` returns |
| `ArticleResponses.PayloadUserId` | internal/articleresponse/articleresponse.go:44 | reading the user ID through the payload pointer succeeds exactly when the payload is not nil, and then yields that user's ID |
| `ArticleResponses.EnrichAsWritten` | internal/articleresponse/articleresponse.go:37-50 | the constructor as written: `resp.User` starts nil, the nil branch is taken, and reading `resp.User.ID` panics, for every article |
| `ArticleResponses.EnrichAsWrittenPanics` | internal/articleresponse/articleresponse.go:37-50 | as written, building a response for seeded article "1" dereferences nil, while main.go attaches its author Peter |
| `ArticleResponses.ArticleResponse.constructor` | main.go:638-651 | the response wraps exactly the article, `Elapsed` is 0, and the user payload (empty role) is that of the article's author, or absent when the author is unknown |
| `ArticleResponses.ArticleResponse.Render` | internal/articleresponse/articleresponse.go:52-57 | `Elapsed` becomes 10 whatever it was; the article and the user payload are kept; no error |
| `ArticleResponses.ArticleResponse.RenderTree` | internal/articleresponse/articleresponse.go:15-17 | hooks run top-down: afterwards `Elapsed` is 10 and an attached user payload has role "collaborator" and the same user |
| `ArticleResponses.NewArticleListResponse` | main.go:660-667 | one freshly built response per article, same length and order, none shared; empty input gives an empty list |
| `ArticleRequests.Lower` | main.go:617 | the ASCII model of `strings.ToLower` keeps the length of the title |
| `ArticleRequests.LowerPointwise` | main.go:617 | each character of the lower-cased title is that character of the title lower-cased: `A`-`Z` become `a`-`z`, everything else is kept |
| `ArticleRequests.LowerChangesOnlyUpper` | main.go:617 | the lower-cased title has no upper-case letter, and other characters are kept |
| `ArticleRequests.LowerIdempotent` | main.go:617 | lower-casing twice is lower-casing once |
| `ArticleRequests.LowerExample` | main.go:617 | "AWESOME" becomes "awesome" |
| `ArticleRequests.ArticleRequest.constructor` | main.go:594-601 | the request holds the decoded article, user payload and protected ID |
| `ArticleRequests.ArticleRequest.Bind` | main.go:603-620 | with no article it fails with "missing required Article fields." and changes nothing; otherwise the protected ID is cleared, the title is lower-cased, the ID, author, slug and user payload are kept, and no error is returned; binding a bound request changes nothing |
| `FileServers.FileServer` | main.go:273-282 | a path with '{', '}' or '*' panics; an empty path panics on the index; otherwise the pattern is the path, plus "/" when it lacks a trailing slash, plus "*", and a 301 redirect to path + "/" is registered exactly when the slash was missing |
| `FileServers.MountedPatternShape` | main.go:278-286 | a mounted pattern ends in "/*" and has no other parameter character; the prefix the file handler strips is the path without its trailing slash |
| `FileServers.MountNormalised` | main.go:278-282 | mounting at the normalised path gives the same pattern and no redirect |
| `FileServers.SwaggerMount` | main.go:257-286 | "/swagger-ui" redirects to "/swagger-ui/" and serves "/swagger-ui/*" with prefix "/swagger-ui"; "/" serves "/*"; "/{id}" panics |

## Findings

| source | as written | input that shows it | evidently intended | confidence | as-written member | corrected member |
|---|---|---|---|---|---|---|
| internal/articleresponse/articleresponse.go:43-44 | inside `if resp.User == nil` it reads `resp.User.ID`, a nil dereference that panics | any article, e.g. seeded article "1" (`UserID` 100) | look up the article's own `UserID`, as main.go:645 does | not executed; the nil read follows from the branch condition | `ArticleResponses.EnrichAsWrittenPanics` | `ArticleResponses.AuthorOf` |

## Left out

- The internal `NewArticleListResponse` (internal/articleresponse/articleresponse.go:28-35) is not modelled as written. It calls the internal constructor, so it panics on any non-empty list, and with it the internal `ListArticles` and `SearchArticles`. `NewArticleListResponse` models the main.go builder.
- HTTP serving, chi routing and the go-chi/render library. This covers JSON decoding and encoding, `render.Bind` and `render.Render`, and the `render.Respond` override (main.go:523-546). These are foreign library calls. `RenderTree` models only the top-down hook order that articleresponse.go:15-17 documents.
- The JSON shadowing of "id" between `ProtectedID` and the embedded `Article.ID` is decoder behaviour. So is the tag difference between `userId` (internal/model/article.go:7) and `user_id` (main.go:736).
- The handlers (internal/article/api.go, main.go:311-470). They are glue: a context type assertion, a bind, one store call, then a render. `DeleteThenGetIsNotFound` states the end-to-end delete-then-fetch outcome on the functions.
- internal/articlerequest and internal/errresponse are not part of this model. The main.go `ArticleRequest` and `ErrResponse` are modelled, and the locator answers with main.go's `ErrNotFound` for both copies.
- `ErrResponse.Render` (main.go:693-697): it only hands the status code to `render.Status`, a library call.
- Metrics, tracing, zap logging, the `Logger` middleware, docgen and the embedded swagger file system: observability and I/O.
- The serving goroutine and the unsynchronised shared `articles` slice. The store is modelled as sequential.
- `AdminOnly` and `paginate`: stubs keyed on context values.
- client/: a network client.
- The file handler that `FileServer` registers (main.go:284-289). Only the computed patterns, the redirect and the prefix are modelled.
- The `math/rand` source. `NewArticle` draws its number by a nondeterministic choice in [0, 100).
- Aliasing. The store holds `*Article` pointers, and the handlers share them. `dbNewArticle`'s ID write is visible to the caller. In `UpdateArticle`, `Bind` lower-cases the title of the stored article itself before `dbUpdateArticle` runs. The model stores article values, so these shared updates are not captured. `UserPayload`'s embedded `*User` is likewise a value.
- ArticleRequests.Lower: lower-cases ASCII letters only. `strings.ToLower` also maps the rest of Unicode.
- Users.FindUser: user IDs and `UserID` are `int64` in the source and unbounded integers here. No arithmetic is done on them. `Elapsed` is likewise an integer.
