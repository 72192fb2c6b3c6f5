# Blog API core, modelled in Dafny

The blog back end is an Express application over one MongoDB collection,
`blogs`. Most routes pass a request straight to a single query. This model
covers the logic inside those handlers. The collection is a sequence of
entries. Each entry pairs the `_id` the store assigned with the document's
fields (`BlogModel.Entry`, `BlogModel.Doc`).

- `Description`: the `$reduce` fold that derives a blog's `description` in
  `GET /blogs/category`. It walks `blog.blocks` left to right with the
  accumulator `{text, found}`. The first paragraph always wins. Failing a
  paragraph, the first quote or header whose text is not null wins,
  whichever of the two kinds comes first. The comment at
  `api/index.js:207` describes the order paragraph, then quote, then
  header. The pipeline as written does not keep that order: an earlier
  header beats a later quote, because both branches test only that the
  accumulated text is null. The model follows the code. A block text is
  missing, null or a string. A missing text is not equal to null in the
  aggregation's `$eq`, so only a null text lets a later quote or header
  take over. The rest of each block and of the body (a header's
  `level`, list items, image URLs, the editor's `time`) is kept as one
  opaque value. The description ignores it, but an update's comparison
  sees it.
- `Listing`: the sort-then-window listings. `GET /blogs/latest` is the 6
  newest documents. `GET /blogs/popular` is the 4 with the most reactions.
  `GET /blogs/category` is one page of the documents whose category equals
  the query, ignoring case. The page holds `limit` documents (default 10)
  after skipping `(page - 1) * limit`, and each carries its description.
- `Create`: validation of `POST /blogs` and the record it builds.
- `Update`: the update set of `PUT /blogs/:id`, which holds only the truthy
  body fields, and the `$set` that applies it.
- `Store`: the class `BlogStore`, the collection as the create and update
  routes change it. It assigns `_id`s on insert, and its invariant says
  that every stored document keeps its required fields.
- `Json`, `Fetch`: `POST /blogs/fetch`. It checks `categories` with
  JavaScript truthiness and `typeof`. It fills the response in a loop, one
  key per member of `categories`. It adds `random` only when `random` is
  truthy.
- `Search`: the input check of `POST /blogs/search`. The query must be a
  string that `trim()` does not reduce to "".

The current time (`new Date()`) is a parameter. The store's refusals that
the route turns into a 500 are modelled as `Fail(500, …)` replies. These
are a negative `$skip`, a `$limit` that is not positive, and a `$sample`
size that is not a non-negative number.

## Model

| member | source | states |
|---|---|---|
| `Description.Step` | api/index.js:212-236 | A found accumulator, and a block that is not a paragraph, quote or header, leave the state unchanged. A paragraph met before anything was found is taken and marks the state found. |
| `Description.FoundIsFinal` | api/index.js:214-215 | Once `found` is true, every later block leaves the accumulator unchanged. |
| `Description.FoldToParagraph` | api/index.js:209-219 | From any state not yet found, the fold ends with the text of the first paragraph and `found = true`. |
| `Description.FirstParagraphWins` | api/index.js:207-219 | If the blocks contain a paragraph, the description is the first paragraph's text (even a null one), whatever blocks precede or follow it. |
| `Description.SettledIsKept` | api/index.js:222-228 | Without paragraphs, a state whose text is not null is never replaced by a later quote or header. |
| `Description.FoldToSettling` | api/index.js:220-228 | Without paragraphs, the fold ends holding the text of the first quote or header whose text is not null. |
| `Description.FirstQuoteOrHeaderWins` | api/index.js:220-245 | With no paragraph, the description is the text of the first quote-or-header block that has a non-null text. A later quote does not replace an earlier header, and a later header does not replace an earlier quote. |
| `Description.NothingSelectedIsNull` | api/index.js:209-245 | With no paragraph and no quote or header carrying a non-null text (including no blocks at all), the state stays `{null, false}` and the description is null. |
| `Description.Fold` | api/index.js:209-237 | The `$reduce` over the blocks: the result is found exactly when the start was or some block is a paragraph. Its text is the start's or that of one of the blocks. |
| `Description.Describe` | api/index.js:208-246 | The description is absent when the body has no `blocks`. Otherwise it is null or the text of one of the blocks. |
| `Listing.Insert` | api/index.js:193 | Inserting into a descending sequence keeps it descending and adds exactly that one element. |
| `Listing.Sort` | api/index.js:193 | The `$sort` stage: the result is descending by the key and is a permutation of the input. |
| `Listing.Window` | api/index.js:194-195 | `$skip` then `$limit`: the result holds positions `[skip, skip + limit)` of the input, as many of them as exist. |
| `Listing.Top` | api/index.js:105-108 | The first `n` by a key: `min(n, size)` elements, descending, drawn from the input. No element left out has a larger key than any element taken. |
| `Listing.Latest` | api/index.js:105-108 | `GET /blogs/latest` returns at most 6 documents, newest first, drawn from the collection. No document left out is newer than any returned. |
| `Listing.Popular` | api/index.js:125-141 | `GET /blogs/popular` returns the projections of the first 4 documents by reactions, `Listing.Top` with `n = 4`. That is at most 4 cards, most reactions first, no stored document taken twice, and no document left out has more reactions than any returned. |
| `Listing.Matching` | api/index.js:189-192 | The category `$match` keeps exactly the documents whose category equals the query, ignoring case, each as often as the collection holds it. |
| `Listing.Pattern` | api/index.js:185-189 | The query category is the pattern text. An absent category is interpolated as "undefined", so it matches exactly what the query "undefined" matches. |
| `Listing.PageOf` | api/index.js:194-206 | A page holds `min(limit, remaining)` summaries: the documents at positions `skip + i` of the ordered matches, each with its description. |
| `Listing.CategoryPage` | api/index.js:185-247 | With defaults page 1 and limit 10, the route fails with 500 exactly when `limit <= 0` or `page < 1`. Otherwise it returns the page at `(page - 1) * limit` of the matching documents, newest first. |
| `Listing.Skip` | api/index.js:186 | `(page - 1) * limit`: for a positive limit, the skip is negative exactly when `page < 1`. |
| `Listing.ConsecutivePages` | api/index.js:186-195 | Pages `p` and `p + 1` are adjacent: together they form the `2 * limit` window that starts at page `p`. |
| `Listing.PageMatchesCategory` | api/index.js:189-195 | Every document on a category page matches the category, and the page is sorted newest first. |
| `Json.Truthy` | api/index.js:73 | `!x` is true of exactly undefined, null, false, 0 and "". |
| `Json.TypeofObject` | api/index.js:73 | `typeof x === "object"` holds exactly for null, arrays and objects. |
| `Json.NatToString` | api/index.js:80 | The property name of array index `n` is its decimal numeral: digits only, no leading zero, reading back as `n`. |
| `Json.NatToStringInjective` | api/index.js:80 | Distinct array indices give distinct property names. |
| `Json.Entries` | api/index.js:80 | `Object.entries` gives an object's members in order, and an array's elements under their decimal indices. |
| `Fetch.IsCategoriesObject` | api/index.js:73-75 | The `categories` check passes exactly for arrays and objects. |
| `Fetch.InCategory` | api/index.js:82 | The fetch `$match` keeps exactly the documents whose category equals the member name, case-sensitively, and draws them from the collection. |
| `Fetch.Sample` | api/index.js:82 | The chosen outcome of `$sample` is a sample: `min(n, size)` documents drawn from its input. |
| `Fetch.Lookup` | api/index.js:80-84 | The count stored under a name is present exactly when some member carries that name. It is a valid size when every count is. |
| `Fetch.LookupAppend` | api/index.js:80-84 | One more loop iteration adds its member's name, and that member's count replaces an earlier count under the same name. |
| `Fetch.SampleEach` | api/index.js:80-84 | The loop fails exactly when some count is not a valid size. Otherwise it answers one key per member name except `__proto__`, each holding a sample of that category's documents of the size its member gives. A `__proto__` member's count is still checked, but assigning it sets the response's prototype instead of an own key. |
| `Fetch.FetchByCategories` | api/index.js:71-91 | 400 exactly when `categories` is falsy or not of `typeof` "object". 500 when a count, or a truthy `random`, is not a valid sample size. Otherwise the response has one key per member name of `categories` except `__proto__`, plus `random` exactly when `random` is truthy. Each value is a sample of its category's documents, or of all documents for `random`. |
| `Search.TextStart` | api/index.js:339 | The position where `trim()` starts: every character before it is white space, and the character at it is not. |
| `Search.TextEnd` | api/index.js:339 | The position where `trim()` ends: every character from it on is white space, and the character before it is not. |
| `Search.Trim` | api/index.js:339 | `trim()` is a slice of the input whose prefix before it and suffix after it are all white space. It is empty exactly when the input is all white space, and otherwise starts and ends with a character that is not white space. |
| `Search.CheckQuery` | api/index.js:336-341 | The query is refused with 400 exactly when it is not a string or holds only white space. Otherwise it is passed on unchanged. |
| `Create.NewBlog` | api/index.js:39-51 | Rejected exactly when one of `id`, `title`, `blog`, `category`, `authorName` is falsy. Otherwise the record has those five inputs, `reactCount = 0`, `createdAt` the given time, `thumbnail` "" and `tags` [] when absent, and its required fields non-empty. |
| `Update.BuildUpdateSet` | api/index.js:302-310 | The update set holds exactly the truthy fields among `title`, `blog`, `thumbnail`, `category`, `tags` and `authorName`, with their values. |
| `Update.UpdateSetIsUnique` | api/index.js:304-310 | The update set is determined by the body. |
| `Update.Apply` | api/index.js:312-315 | `$set`: each field of the set takes the set's value. Every other field keeps its value, and so do `id`, `createdAt` and `reactCount`. |
| `Update.ChangesOnlySuppliedFields` | api/index.js:304-314 | A field the body does not supply truthily is left as it was. |
| `Update.ApplyKeepsComplete` | api/index.js:305-310 | An update built from truthy values never empties a required field. |
| `Update.ApplyIsIdempotent` | api/index.js:312-319 | Applying the same set twice gives the same document as applying it once. |
| `Update.NothingSuppliedChangesNothing` | api/index.js:304-319 | A body with no truthy field leaves the document unchanged. |
| `Store.IndexOf` | api/index.js:312-313 | The filter `{_id}` finds the first entry with that `_id`, and finds none exactly when the `_id` is not stored. |
| `Store.SetWhere` | api/index.js:312-315 | `updateOne` keeps every `_id` and every entry with another `_id`. The matched entry's document becomes the set applied to it. |
| `Store.Modifies` | api/index.js:312-317 | `modifiedCount` is 1 exactly when the update leaves the collection different, which needs a stored document with that `_id`. |
| `Store.NewBodyModifies` | api/index.js:312-319 | A `blog` value that differs from the stored one in any part, including block data the description ignores, modifies the document, so the route answers 200. |
| `Store.InsertedIsFound` | api/index.js:53 | A document inserted under a fresh `_id` is what that `_id` finds. |
| `Store.RepeatedUpdateModifiesNothing` | api/index.js:312-319 | Sending the same update twice modifies nothing the second time, so the second request answers 404. |
| `Store.BlogStore.InsertOne` | api/index.js:53 | Appends the document under an `_id` not yet used and keeps the store invariant. |
| `Store.BlogStore.FindIndex` | api/index.js:312-313 | The scan returns the position `IndexOf` specifies. |
| `Store.BlogStore.UpdateOne` | api/index.js:312-315 | The entries become `SetWhere` of the old ones. `modifiedCount` is 1 exactly when the matched document changed. The invariant is kept. |
| `Store.BlogStore.CreateBlog` | api/index.js:33-58 | Answers 400 and stores nothing exactly when a required field is missing. Otherwise it appends the built record under a fresh `_id` and answers 201 with that `_id` and the client's `id`. |
| `Store.BlogStore.UpdateBlog` | api/index.js:295-321 | Applies the body's update set to the matched document only. Answers 200 exactly when that changed the document, and 404 otherwise. |

## Left out

- Express routing, CORS and JSON middleware, the root route, `app.listen` and the Vercel export (api/index.js:1-9, 28-30, 363-372): framework plumbing.
- `connectDB` and the `MongoClient` lifecycle (api/index.js:11-26): connection I/O.
- `GET /blogs/:id` and `DELETE /blogs/:id` (api/index.js:256-292): a single `findOne` or `deleteOne` by `_id`, outside the modelled core.
- The commented-out earlier category route (api/index.js:151-175): it is not compiled.
- The Fuse.js ranking of `POST /blogs/search` (api/index.js:343-357): an external library. Only the input check is modelled.
- Database failures and the try/catch blocks that turn them into 500 replies. The exceptions are the store's refusals of `$skip`, `$limit` and `$sample` arguments, which are modelled.
- `ObjectId` parsing: `_id`s are natural numbers, and an `:id` that does not parse (a 500 in the source) is not modelled.
- String coercion of `page`, `limit` and the `$sample` counts: they are integers. Numeric strings, fractions and NaN are not modelled.
- The create and update body fields have their intended JSON types (strings, an object body, an array of tags). A value of another type, such as a numeric `id` or a string `blog`, is not modelled.
- A `blocks` value that is not an array (an aggregation error) is not modelled. A block without a `type` counts as a block of no listed kind.
- Fetch.FetchByCategories: promises only that each value is a sample of the right size drawn from the matching documents, because `$sample` picks at random. The body takes the first documents, which is one admissible outcome.
- Listing.Sort: ties are kept in collection order. MongoDB leaves the order of equal keys unspecified, so which of several tied documents fills the last places of a window is not determined by the source.
- Listing.Matching: the category is interpolated unescaped into the regular expression `^…$`. The model treats it as plain text, so regular-expression metacharacters in a query are not modelled. Case is folded for ASCII letters only. The store evaluates the pattern with PCRE, where `$` without the multiline flag also matches before a final newline, so a stored category "Tech\n" is listed for the query "tech". The model rejects it.
- Listing.Latest: returns whole documents. `Listing.Popular` and `Listing.CategoryPage` return the projected fields.
- `Object.entries` ordering: integer-like keys come first in JavaScript. The model visits members in the given order, which does not change the resulting response when member names are distinct. `JSON.parse` keeps only the last value of a repeated name, so the parsed `categories` never holds one twice. `Json.Obj` does not enforce distinct names. For an object written with a repeated name, the model visits every pair, so an invalid earlier count gives 500 where the route answers 200.
- Fetch.FetchByCategories: the `random` value satisfies the same sample predicate as the per-category values, so it holds no document twice. When `$sample` is the first stage of a pipeline, MongoDB may use a pseudo-random cursor that can return the same document more than once (api/index.js:88). The model does not capture those repeats.
- An empty update set: MongoDB 5.0 and later accept `$set: {}` as a no-op, which the model follows (404). Earlier servers reject it with an error, which would give a 500.
- Reactions, featured, category-count, my-blogs and the id list: these routes are not in `api/index.js`.
