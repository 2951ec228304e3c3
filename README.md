# codercat-server: blog store, queries and create-and-notify, in Dafny

This project models the core of a blog backend. It keeps posts and mailing-list
subscribers in a document store. It answers queries over the posts: featured,
by category with the "All" sentinel, free-text search, most recent,
related posts, distinct categories and popular categories. When a post is
created, it sends one e-mail addressed to the subscribers it reads. Under
"## Findings", a broken subscriber read can leave some of them out.

- **Posts collection** (`blog_repository.dfy`, module `BlogRepository`). The
  collection is an ordered `seq<Blog>`, in the store's natural order, held by the
  class `BlogStore`. `Create`, `Update` and `Delete` are methods that change the
  collection. They also return the caller's post after the call, because the
  source writes the identifier into the caller's struct. Every query is a pure
  function of the sequence. The class invariant is the store's unique `_id` index.
- **Subscribers collection** (`subscriber_repository.dfy`, module
  `SubscriberRepository`). It has `CreateSubscriber`, and `GetAll` as a cursor loop.
- **Blog service** (`blog_service.dfy`, module `BlogService`). `CreateBlog` does the
  steps in order: insert, read subscribers, stop early if there are none, collect
  the addresses, build the announcement and its link, render, launch one send.
  The service records every subscriber read, render and send, in order, in a
  ghost log `effects`. The operations that take an identifier string parse it
  first, then hand it to the repository.
- **Supporting modules.** `ObjectIds`: the 12-byte identifier, with its
  24-digit hex text and parser. `Strings`: binary string order and
  case-insensitive matching. `Seqs`: filter, truncation, de-duplication and a
  stable descending sort, with their lemmas. `Domain`: records and errors.
  `Wrappers`: `Option` and `Result`.

Things the store decides, and how the model stands in for them:
- **A fresh identifier** comes in as the parameter `newId`. An identifier
  already in the collection gets the unique index's `DuplicateKey` error.
- **A failed write** is the parameter `writeFails`. It stands for a write the store refused, so nothing changed (see "## Left out").
- **A failing subscriber read** is a `CursorFaults` value, covering three cases:
  the Find fails, a document cannot be decoded, or the cursor breaks off.
- **Template rendering** is the service's `render` function. It returns no
  value when rendering fails.

Three points about the code that the model keeps as written:
- The subscriber read and the render run before `CreateBlog` returns. Their
  errors go back to the caller while the post stays stored
  (`service/blog_service.go:52-55`, `78-81`). Only the send is launched in
  the background (line 86).
- `Update` of an absent identifier is not an error. Nothing is inserted,
  because there is no upsert option (`repository/blog_repository.go:56`).
- `CreateBlog` reads the subscribers through the repository's `GetAll` as it
  is written (`service/subscriber_service.go:27-29` only passes the call on).
  So the defect under "## Findings" reaches it: `CreateBlog` uses
  `GetAllAsWritten`. `CreateBlogChecked` is the same workflow over the
  corrected read.

The service's pass-throughs add nothing to the repository call
(`service/blog_service.go:115-133`, `143-149`): GetAllBlogs, GetFeaturedBlogs,
GetRecentBlogs, GetBlogsByCategory, SearchBlogs, GetCategories and
GetPopularCategories. A caller of any of them gets exactly `FindAll`,
`FindFeatured`, `FindRecent`, `FindByCategory`, `Search`, `GetCategories` or
`GetPopularCategories` of the stored sequence, so they have no members of their own.

## Model

| member | source | states |
|---|---|---|
| `ObjectIds.FromHex` | service/blog_service.go:92-95 | an identifier text is accepted exactly when it has 24 hexadecimal digits (either case) |
| `ObjectIds.FromHexOfHex` | service/blog_service.go:74 | the hex text of an identifier parses back to the same identifier |
| `ObjectIds.HexInjective` | service/blog_service.go:74 | distinct identifiers have distinct hex texts, so a post URL names one post |
| `Strings.LexLeTotal` | repository/blog_repository.go:101 | any two date strings are comparable in the store's string order |
| `Strings.LexLeTransitive` | repository/blog_repository.go:101 | the store's string order is transitive |
| `Strings.LexLeAntisymmetric` | repository/blog_repository.go:101 | two strings each at or below the other are equal |
| `Strings.EmptyPatternMatchesAll` | repository/blog_repository.go:140-147 | the empty pattern matches every text |
| `Strings.PatternMatchIgnoresCase` | repository/blog_repository.go:142-145 | a match (option "i") is unchanged by folding the case of the pattern or of the text |
| `ObjectIds.Hex` | service/blog_service.go:74 | an identifier's text is 24 lower-case hexadecimal digits |
| `BlogRepository.FindAll` | repository/blog_repository.go:65-80 | every stored post, once, in store order |
| `BlogRepository.FindByID` | repository/blog_repository.go:45-52 | a post is returned exactly when the identifier is stored, and it carries that identifier; otherwise NoDocuments |
| `BlogRepository.FindByIDUnique` | repository/blog_repository.go:45-52 | with unique identifiers, looking up a stored post's identifier returns that post |
| `BlogRepository.CreatedIsFound` | repository/blog_repository.go:39-43 | after inserting a post under an unused identifier, identifiers stay unique, FindByID on it returns it, and every other lookup is unchanged |
| `BlogRepository.Replaced` | repository/blog_repository.go:54-58 | the update keeps the collection's length and changes exactly the records whose identifier is the argument |
| `BlogRepository.FindInReplaced` | repository/blog_repository.go:54-58 | after an update, looking up `id` gives the new contents if `id` was stored and NoDocuments otherwise; other lookups are unchanged |
| `BlogRepository.UpdatedIsFound` | repository/blog_repository.go:54-58 | an update keeps identifiers unique, makes FindByID(id) return the new post, leaves other lookups alone, and changes nothing when `id` is absent |
| `BlogRepository.Removed` | repository/blog_repository.go:60-63 | after `DeleteOne` on `id`, the collection holds exactly the posts whose identifier is not `id`, in store order |
| `BlogRepository.FindInRemoved` | repository/blog_repository.go:60-63 | after a delete, `id` is not found and every other lookup is unchanged |
| `BlogRepository.DeletedIsGone` | repository/blog_repository.go:60-63 | a delete removes exactly one record when `id` is stored and none otherwise (an absent id changes nothing), and keeps identifiers unique |
| `BlogRepository.UniqueIdsNoDups` | repository/blog_repository.go:39-43 | a collection with unique identifiers holds no post twice |
| `BlogRepository.FindFeatured` | repository/blog_repository.go:82-97 | exactly the featured posts, in store order |
| `BlogRepository.FindByCategory` | repository/blog_repository.go:117-136 | "All" returns the same sequence as FindAll; any other category returns exactly its posts, in store order |
| `BlogRepository.Search` | repository/blog_repository.go:138-161 | exactly the posts whose title, excerpt or content, or at least one tag, matches the query, in store order |
| `BlogRepository.SearchEmptyQuery` | repository/blog_repository.go:140-147 | the empty query returns the whole collection |
| `BlogRepository.SearchIgnoresCase` | repository/blog_repository.go:140-147 | for a query without regex syntax (see Left out), the letter case of the query does not change the result |
| `BlogRepository.NewerOrSameIsTotalPreorder` | repository/blog_repository.go:101 | sorting on `date` descending is by a total preorder |
| `BlogRepository.FindRecent` | repository/blog_repository.go:99-115 | min(limit, N) stored posts in non-increasing date order; every post left out is dated at or before the last one returned |
| `BlogRepository.FindRelated` | repository/blog_repository.go:163-190 | NoDocuments exactly when the id is absent. Otherwise at most `limit` posts, in store order, none with the given id, each sharing the category or a tag. A related post is omitted only when `limit` posts are returned |
| `BlogRepository.RelatedFacts` | repository/blog_repository.go:169-176 | the truncated `$ne`/`$or` filter keeps store order, holds only related posts other than the given one, and is cut short only at `limit` |
| `BlogRepository.TwoTechPostsRelated` | repository/blog_repository.go:163-190 | for two "Tech" posts A and B, the posts related to A are exactly [B] |
| `BlogRepository.DistinctCategories` | repository/blog_repository.go:194 | each stored category exactly once, and nothing else |
| `BlogRepository.GetCategories` | repository/blog_repository.go:192-200 | "All" first, then each distinct stored category once; the length is 1 + the number of distinct categories |
| `BlogRepository.Groups` | repository/blog_repository.go:204-207 | one row per distinct stored category, holding its number of posts |
| `BlogRepository.Ranked` | repository/blog_repository.go:203-210 | the `$sort`/`$limit` stages keep at most `limit` of the `$group` rows |
| `BlogRepository.RankedFacts` | repository/blog_repository.go:208-209 | the sorted, limited rows are distinct, non-increasing in count, and every row left out has a count at most the last kept |
| `BlogRepository.PopularFacts` | repository/blog_repository.go:202-231 | the names of the ranked rows are distinct stored categories with non-increasing post counts; a category left out has at most the last one's count |
| `BlogRepository.GetPopularCategories` | repository/blog_repository.go:202-231 | min(limit, number of categories) distinct stored categories with non-increasing post counts; any category left out has at most the smallest included count |
| `BlogRepository.TwoTechPostsPopular` | repository/blog_repository.go:202-231 | for two "Tech" posts, the most popular category (limit 1) is ["Tech"] |
| `BlogRepository.BlogStore.Create` | repository/blog_repository.go:39-43 | the caller's post gets the fresh id, even when the insert fails. On success exactly that record is appended. A refused write (see Left out) or an id already taken leaves the store unchanged |
| `BlogRepository.BlogStore.Update` | repository/blog_repository.go:54-58 | the caller's post gets `id` whatever id it carried; the record with that id takes the new contents and nothing else changes; an absent id is no error and changes nothing |
| `BlogRepository.BlogStore.Delete` | repository/blog_repository.go:60-63 | the record with `id` is removed and nothing else changes; an absent id is no error |
| `SubscriberRepository.ReadAll` | repository/subscriber_repository.go:34-50 | corrected, see Findings: a successful read returns every stored subscriber once, in store order. A failing Find, or a cursor break before any undecodable document, gives CursorFailed. An undecodable document reached first gives DecodeFailed. Every error comes with no list |
| `SubscriberRepository.ReadAllAsWritten` | repository/subscriber_repository.go:34-50 | the loop as written. A failing Find gives CursorFailed. With no cursor break the outcome is the checked one: every subscriber in order, or DecodeFailed and no list. A cursor that breaks before any undecodable document gives success with the subscribers read so far. Any success is a prefix of the stored subscribers |
| `SubscriberRepository.AsWrittenDropsSubscribers` | repository/subscriber_repository.go:42-49 | a cursor that breaks after k of N subscribers makes the loop as written succeed with only k of them |
| `SubscriberRepository.SubscriberStore.CreateSubscriber` | repository/subscriber_repository.go:28-32 | the caller's subscriber gets the fresh id and exactly that record is appended, or the store is unchanged on failure |
| `SubscriberRepository.SubscriberStore.GetAll` | repository/subscriber_repository.go:34-50 | corrected, see Findings: the cursor loop returns exactly ReadAll's outcome: all subscribers in order, or the error and no partial list |
| `SubscriberRepository.SubscriberStore.GetAllAsWritten` | repository/subscriber_repository.go:34-50 | the cursor loop without the final error check returns ReadAllAsWritten's outcome |
| `BlogService.BlogURL` | service/blog_service.go:74 | the link is base URL + "/blogs/" + 24 characters that parse back to the post's identifier |
| `BlogService.NotificationFor` | service/blog_service.go:67-75 | the template data carries the post's title, excerpt, author, category, read time and tags, and a link naming the post |
| `BlogService.Subject` | service/blog_service.go:83 | the subject is the fixed prefix followed by the title, unchanged |
| `BlogService.EmailsOf` | service/blog_service.go:61-64 | one address per subscriber, in subscriber order |
| `BlogService.GetBlogByID` | service/blog_service.go:91-97 | a malformed id gives InvalidHex whatever is stored; a well-formed one gives FindByID's result |
| `BlogService.GetRelatedBlogs` | service/blog_service.go:135-141 | a malformed id gives InvalidHex whatever is stored; a well-formed one gives FindRelated's result |
| `BlogService.LinkFindsThePost` | service/blog_service.go:67-75 | the announcement's URL is base URL + "/blogs/" + 24 hex digits, and looking those digits up returns the announced post |
| `BlogService.Notify` | service/blog_service.go:52-88 | after a stored post, the subscriber read always happens. A read error is returned with nothing else done. Zero subscribers: success, no render, no send. Otherwise the announcement is rendered once. A render failure is returned with no send. Otherwise there is exactly one send, to every subscriber read, in order, with the fixed subject prefix plus the title, and success |
| `BlogService.BrokenReadMailsSome` | service/blog_service.go:52-88 | with the read as written, a cursor that breaks after 0 < k < N subscribers gives success and one send to only the first k. The checked read gives CursorFailed and no send |
| `BlogService.BrokenReadMailsNone` | service/blog_service.go:52-58 | with the read as written, a cursor that breaks before the first subscriber gives success and no send; the checked read gives CursorFailed |
| `BlogService.Service.CreateBlog` | service/blog_service.go:46-89 | an insert failure is returned with no subscriber read, render or send. Otherwise the post stays stored, and the result and the effects are `Notify` over the subscriber read as written |
| `BlogService.Service.CreateBlogChecked` | service/blog_service.go:46-89 | corrected, see Findings: the same as CreateBlog, over the checked subscriber read |
| `BlogService.Service.NotifySubscribers` | service/blog_service.go:52-88 | the address loop, the announcement, the render and the send give exactly `Notify`'s result and effects |
| `BlogService.Service.UpdateBlog` | service/blog_service.go:99-105 | a malformed id gives InvalidHex and changes neither the store nor the caller's post; otherwise it is the repository's Update |
| `BlogService.Service.DeleteBlog` | service/blog_service.go:107-113 | a malformed id gives InvalidHex and leaves the store unchanged; otherwise it is the repository's Delete |

## Left out

- FindFeatured, FindByCategory, Search: these state membership and store order, not how often a post occurs. In a store with unique identifiers no post occurs twice (`UniqueIdsNoDups`).
- Store failures of the read queries are not modelled. This covers FindAll, FindFeatured, FindRecent, FindByCategory, Search, FindRelated's second query, GetCategories and GetPopularCategories, where the Find, Distinct, Aggregate, decode or cursor call can fail. The functions give the successful result. The source returns those errors unchanged, with no logic of its own.
- FindByID: only the no-document case is modelled. Other failures are left out, including the quirk of returning a non-nil post with the error (`repository/blog_repository.go:51`).
- FindRecent, FindRelated, GetPopularCategories require `limit > 0`. The driver gives a limit of 0 or less its own meaning, and that is not modelled.
- "Store order" in the contracts means the order of the model's sequence, and `Create` appends at its end. The contracts that depend on it are `BlogStore.Create`'s `old(blogs) + [written]`, `FindAll`'s index-for-index result, and the `Subsequence` clauses of `FindFeatured`, `FindByCategory`, `Search`, `FindRelated` and `Removed`. The real store guarantees neither that an insert lands last nor that a Find without a sort returns documents in natural order. So these order promises hold of the model, not of every store.
- Ties in the date and count sorts keep sequence order, from a stable sort. Distinct categories come in order of first appearance. The store guarantees neither, and no contract depends on them.
- Search: `$regex` with option "i" is modelled as a literal substring match with ASCII case folding. Regex metacharacters and Unicode case folding are not modelled.
- Update and Delete change every record with the identifier, where the store changes only the first. With the unique index there is at most one.
- A post whose `tags` is nil is treated as having no tags. `Blog.Tags` has no `omitempty` (`domain/blog.go:15`), so such a post is stored with `tags: null`. FindRelated on it then sends `$in: null` (`repository/blog_repository.go:173`), which the server refuses, since `$in` needs an array. The source then returns that store error, where `FindRelated` returns `Ok`.
- BlogStore.Create, BlogStore.Update, BlogStore.Delete, SubscriberStore.CreateSubscriber: `writeFails` stands for a write the store refused, so the contracts leave the store unchanged on an error. The source only passes the driver's error on (`repository/blog_repository.go:41-42`, `56-57`, `61-62`, `repository/subscriber_repository.go:30-31`). An error returned after the write was applied is not modelled, such as a write-concern or network error after the server acted. In that case the post is stored, and `CreateBlog` returns the error without notifying anyone.
- Identifier generation, timestamp and counter bytes are not modelled. The fresh identifier is the `newId` parameter.
- The background send is not modelled as concurrency. It is one `EmailSent` record in the ghost log. Its SMTP delivery and its outcome are left out, because the source discards the outcome (`utils/email.go` is not part of this model).
- Template loading and execution (`service/template_service.go`) are not part of this model. They are the `render` parameter.
- Request contexts, cancellation and deadlines are left out.
- HTTP handlers are left out. This covers the default limits 3, 2 and 5, and the empty-email check in `handler/subscriber_handler.go`. Also left out: routing and CORS (`main.go`), configuration (`config/config.go`), the database connection (`database/database.go`), and `service/subscriber_service.go`, which only passes calls on.
- The subject prefix is the literal characters the source file holds (U+00F0 U+0178 U+0161 U+20AC, then " New Blog Post: "). Those are the UTF-8 bytes of a rocket emoji read a second time as Windows-1252.

## Findings

| source | as written | input that shows it | evidently intended | confidence | as-written member | corrected member |
|---|---|---|---|---|---|---|
| repository/subscriber_repository.go:42-49 | the loop ends when the cursor's Next returns false, and the function returns the list so far with a nil error. It never asks the cursor for its error | a cursor that fails to fetch its next batch after k of N > k subscribers, `CursorFaults(false, None, Some(k))`, gives success with only the first k. CreateBlog then mails k of N subscribers and reports success | return the cursor's error after the loop, as every query in `repository/blog_repository.go` does (for example line 79), so a broken read is an error and not a shorter list | medium; not executed | `SubscriberRepository.SubscriberStore.GetAllAsWritten` (with `SubscriberRepository.AsWrittenDropsSubscribers`, and for CreateBlog `BlogService.BrokenReadMailsSome`) | `SubscriberRepository.SubscriberStore.GetAll` (used by `BlogService.Service.CreateBlogChecked`) |
