# Property listing backend — a verified model

This project models the logic of a property-listing REST backend.
The backend is written in TypeScript on Express, with Mongoose over MongoDB and a Redis cache.
The document store is replaced by in-memory sequences and Redis by a map with a logical clock.
The requester is an input: authentication is not modelled. Four parts are modelled:

- **Property search and ownership-guarded writes.** `getProperties` turns raw query parameters into a MongoDB filter: equality keys, `'true'` flags, `$gte`/`$lte` ranges and a `$in` tag list. It sorts the matches newest first, cuts the page `skip((page-1)*limit).limit(limit)`, and reports the total match count and `ceil(total/limit)` pages. `createProperty` stamps the requester as owner. `updateProperty` and `deleteProperty` answer 404 for an unknown `_id` and 403 for a non-owner, and otherwise change that one document (`PropertySearch`, `PropertyStore`, `PropertyModel`).
- **Favourites.** This is a set of `(user, property _id)` links in which no pair occurs twice. Add and remove find the property by its custom `id`. Each has a 404 exit for a missing property. Add has a 400 exit for an existing link, and remove has a 404 exit for a missing one (`Favorites`).
- **Recommendations.** Creation checks the recipient's e-mail, then the property `_id`, then appends one record. Nothing prevents duplicates. The list shows what the requester received, newest first (`Recommendations`).
- **Cache-aside middleware.** Non-GET requests bypass the cache. The key is `"__express__" + (originalUrl || url)`. A hit serves the parsed stored JSON with status 200 and skips the handler. A miss runs the handler and stores whatever body it sends, for `duration` seconds. A failed lookup runs the handler and stores nothing. `clearCache` deletes the keys that match a pattern (`Cache`, `Json`).

Shared pieces:
- the newest-first sort (`Ordering`);
- JavaScript `split`/`join` on one character (`Strings`);
- the JSON text round trip the cache depends on (`Json`).

Facts of the code that the model keeps:
- no route mounts the cache;
- no write invalidates it;
- cache keys are the raw URL, not a canonical form;
- tags are not trimmed or de-duplicated;
- page numbers and page sizes are not clamped.

One consequence is proved rather than assumed (`Cache.ErrorBodyReplayedAsOk`). The status is not part of a cache entry. So an error body cached on a miss is later served with status 200.

## Model

| member | source | states |
|---|---|---|
| PropertySearch.BuildFilter | src/controllers/propertyController.ts:28-58 | Each text key (`type`, `state`, `city`, `listingType`) is set iff its parameter is present and non-empty, and then holds the parameter verbatim. `bedrooms`/`bathrooms` are numeric equality keys. Each flag is set iff its parameter is non-empty, and is true iff the text is `'true'`. A `price`/`areaSqFt` range exists iff either bound is given, and has exactly the bounds given. The tag list exists iff `tags` is non-empty; its comma-free pieces join back to the raw text. |
| PropertySearch.RangeParam | src/controllers/propertyController.ts:41-52 | The range exists iff a minimum or a maximum is given; `$gte` is the minimum and `$lte` the maximum. |
| PropertySearch.TagsAreThePieces | src/controllers/propertyController.ts:55-58 | The `$in` list is exactly the comma-free pieces that join to the raw text, in order, with nothing trimmed, removed or sorted. |
| PropertySearch.EmptyQueryMatchesAll | src/controllers/propertyController.ts:29-58 | A query with no parameters builds a filter that every property matches. |
| PropertySearch.Matches | src/controllers/propertyController.ts:65 | MongoDB's reading of the filter: every key it sets holds (keys combined by AND). A price range with minimum above maximum matches nothing, and so does an empty `$in` tag list. |
| PropertySearch.Matching | src/controllers/propertyController.ts:65 | `find(filter)` returns exactly the stored properties that satisfy every key of the filter. |
| PropertySearch.MatchingCounts | src/controllers/propertyController.ts:65 | Each matching document appears in the result as often as it is stored, and a non-matching one not at all. |
| PropertySearch.Ranked | src/controllers/propertyController.ts:65-68 | The sorted matches are newest first by `createdAt` and are a permutation of the matches: a property is listed iff it is stored and matches. |
| PropertySearch.Window | src/controllers/propertyController.ts:66-67 | `.skip(s).limit(l)` yields at most `l` items. Item `i` is element `s+i`. The window is full when enough elements follow `s`, and empty when `s` is past the end. |
| PropertySearch.WindowOfRanked | src/controllers/propertyController.ts:65-68 | A page cut from a newest-first list is newest first and holds only its elements. |
| PropertySearch.CeilDiv | src/controllers/propertyController.ts:75 | `pages` is the least count of `limit`-sized pages that holds `total` (`total <= pages*limit < total+limit`), and it is 0 iff `total` is 0. |
| PropertySearch.Search | src/controllers/propertyController.ts:8-81 | A page below 1 (negative skip) is answered 500, and only then. Otherwise `page` is echoed (default 1). `total` is the number of all matches, not the page length. `pages` is `ceil(total/limit)` (limit default 10). The page is the `(page-1)*limit` window of the newest-first matches. |
| PropertySearch.PageContents | src/controllers/propertyController.ts:61-68 | A returned page holds at most `limit` properties, newest first, each stored and matching the filter. |
| PropertySearch.EveryMatchOnItsPage | src/controllers/propertyController.ts:61-68 | Against one newest-first order of the matches, a search for the page whose window `[skip, skip+limit)` covers rank `k` shows the match at rank `k` at position `k - skip`. |
| PropertySearch.RankPosition | src/controllers/propertyController.ts:61-63 | Rank `k` falls inside the window of page `k/limit + 1`. When no two matches share a `createdAt` (so the order is unique, `Ordering.NewestFirstUnique`), paging through the pages reaches every match. |
| PropertySearch.PageStartIsProduct | src/controllers/propertyController.ts:63 | The number of matches before a page, `limit` for each earlier page, is the handler's `(page - 1) * limit`. |
| PropertySearch.PastLastPageEmpty | src/controllers/propertyController.ts:61-76 | A page number above `pages` returns no properties. |
| Ordering.Insert | src/controllers/propertyController.ts:68 | Inserting into a newest-first list keeps it newest first and adds exactly that one element. |
| Ordering.SortNewestFirst | src/controllers/propertyController.ts:68 | `.sort({ createdAt: -1 })` yields a newest-first permutation of its input. |
| Ordering.SortKeepsMembers | src/controllers/propertyController.ts:68 | Sorting neither adds nor drops a member. |
| Ordering.NewestFirstUnique | src/controllers/recommendationController.ts:14 | With distinct timestamps there is only one newest-first permutation, so the sorted list is determined. |
| Strings.Split | src/controllers/propertyController.ts:56 | `split(',')` yields at least one piece, and no piece holds a comma. |
| Strings.JoinSplit | src/controllers/propertyController.ts:56 | Joining the pieces of `split` with the separator gives back the input. |
| Strings.SplitJoin | src/controllers/propertyController.ts:56 | Splitting a join of separator-free pieces gives back those pieces. |
| Strings.SplitKeepsSpacesAndRepeats | src/controllers/propertyController.ts:56-57 | `"b, a,b"` splits to `["b", " a", "b"]`: the space and the repeat survive. |
| PropertyModel.HasRequired | src/models/Property.ts:27-104 | Mongoose's `required` check: every required path is present, and each required String path (`id`, `title`, `type`, `state`, `city`, `listedBy`, `listingType`) is also non-empty. |
| PropertyModel.NewProperty | src/controllers/propertyController.ts:107-112 | The created document's owner is the requester, whatever the body says. It takes the custom id from the body and stamps both timestamps. The schema defaults fill omitted optional fields: empty amenities and tags, not furnished, not verified, empty colour theme, rating 0. |
| PropertyModel.ApplyPatch | src/controllers/propertyController.ts:141-145 | `findByIdAndUpdate(id, body, {new: true})` keeps `_id` and `createdAt`, stamps `updatedAt`, and takes `id` and `createdBy` from the body when it names them. |
| PropertyModel.EmptyPatchKeepsFields | src/controllers/propertyController.ts:141-145 | An empty update body changes nothing but `updatedAt`. |
| PropertyModel.IndexOfOid | src/controllers/propertyController.ts:128 | `findById` finds the position of the document with that `_id`, or reports that none has it. |
| PropertyModel.FindByCustomId | src/controllers/favoriteController.ts:28 | `findOne({ id })` returns a stored document with that custom id, or none exists. |
| PropertyModel.FindByCustomIdExact | src/models/Property.ts:27-31 | Under the unique custom id index, the lookup by `p.id` returns `p` iff `p` is stored. |
| PropertyStore.RemoveAtExact | src/controllers/propertyController.ts:174 | `findByIdAndDelete` removes exactly the document with that `_id` and keeps every other. |
| PropertyStore.RemoveAtKeepsUnique | src/controllers/propertyController.ts:174 | Deleting keeps both the `_id` and the custom id unique. |
| PropertyStore.PropertyTable.Create | src/controllers/propertyController.ts:105-121 | 201 iff the body passes the `required` checks (required text non-empty) and has a free custom id; then exactly one document is appended, owned by the requester. Otherwise 500 and nothing stored. Unique ids are preserved. |
| PropertyStore.PropertyTable.Update | src/controllers/propertyController.ts:126-154 | 404 iff no document has the `_id`. 403 iff one does but its owner is not the requester. 500 iff the owner's patch moves the custom id onto one another document holds; the update succeeds in every other case. On every non-200 exit the store is unchanged. On 200 only that document is replaced, by the patched one, which is returned. |
| PropertyStore.PropertyTable.Delete | src/controllers/propertyController.ts:159-183 | 404 iff no document has the `_id`. 403 iff the requester is not its owner; the store is unchanged on both. On 200 exactly that document is removed and every other kept. |
| Favorites.FindLink | src/controllers/favoriteController.ts:36-39 | `findOne({ user, property })` finds a link with that pair, or no link has it. |
| Favorites.FindLinkFirst | src/controllers/favoriteController.ts:75-78 | The lookup returns the first link with the pair. |
| Favorites.FindAppended | src/controllers/favoriteController.ts:47-50 | A link appended after its pair was found absent is the one the lookup then finds. |
| Favorites.ForUser | src/controllers/favoriteController.ts:10-13 | `find({ user })` returns exactly the links of that user, none more often than it is stored. |
| Favorites.FavoriteSet.Of | src/controllers/favoriteController.ts:8-18 | `getFavorites` lists exactly the requester's links, none more often than it is stored; as stored links are distinct, each appears once. |
| Favorites.RemoveLinkExact | src/controllers/favoriteController.ts:85 | `deleteOne` on the found link removes exactly the links with its pair and keeps all others. |
| Favorites.RemoveLinkKeepsUnique | src/models/Favorite.ts:25 | Deleting a link keeps the `(user, property)` pairs and the `_id`s unique. |
| Favorites.AddThenRemoveRestores | src/controllers/favoriteController.ts:47-85 | Removing the link that an add just appended gives back the original sequence. |
| Favorites.FavoriteSet.Add | src/controllers/favoriteController.ts:23-57 | 404 iff no property has the custom id. 400 iff the requester already links that property's `_id`. Both leave the set unchanged. Otherwise 201 with exactly one new link `(requester, property._id)`. The set never holds a pair twice. |
| Favorites.FavoriteSet.Remove | src/controllers/favoriteController.ts:62-92 | 404 iff the property is missing. 404 iff the link is missing. Both leave the set unchanged. Otherwise exactly that link is deleted and every other link kept. |
| Favorites.AddRemoveRoundTrip | src/controllers/favoriteController.ts:23-92 | After a successful add, a second add of the same property is refused with 400. A remove then succeeds, and the link set is back to what it was before the add. |
| Recommendations.FindUserByEmail | src/controllers/recommendationController.ts:31 | `User.findOne({ email })` returns a user with that e-mail, or none has it. |
| Recommendations.ForRecipient | src/controllers/recommendationController.ts:11 | `find({ to })` returns exactly the records addressed to the requester. |
| Recommendations.Received | src/controllers/recommendationController.ts:11-14 | The list is newest first and a permutation of the requester's records. |
| Recommendations.ReceivedExactly | src/controllers/recommendationController.ts:11-14 | A record is listed iff it is stored and addressed to the requester. |
| Recommendations.ForRecipientAppendOther | src/controllers/recommendationController.ts:11 | A record created for someone else does not change the requester's list. |
| Recommendations.RecommendationLog.Create | src/controllers/recommendationController.ts:26-59 | 404 iff no user has the e-mail; this is checked first. 404 iff the recipient exists but no property has the `_id`. Neither creates anything. Otherwise 201 and exactly one appended record: from the requester, to the recipient, for the property, with the message defaulting to `''` and `isRead` false. |
| Recommendations.RecommendTwice | src/controllers/recommendationController.ts:46-52 | The same recommendation made twice at the same logical time stores two records that differ only in `_id`. Two real requests would also differ in their `createdAt`/`updatedAt` stamps. |
| Json.Stringify | src/middleware/cache.ts:28 | `JSON.stringify` writes non-empty text that does not begin with a closing bracket. |
| Json.Parse | src/middleware/cache.ts:17 | `JSON.parse` succeeds iff the reader takes a value and the whole text is consumed, and then returns that value. |
| Json.ParseValueStringify | src/middleware/cache.ts:17 | Reading the text of a value followed by any text that does not continue a number gives back the value and the following text. |
| Json.ParseStringify | src/middleware/cache.ts:17 | `JSON.parse(JSON.stringify(v))` is `v`. |
| Cache.CacheKey | src/middleware/cache.ts:11 | The key starts with `"__express__"`, and the rest is the effective URL (`originalUrl`, or `url` when that is empty). |
| Cache.CacheKeyInjective | src/middleware/cache.ts:11 | Two requests share a key iff their effective URLs (`originalUrl`, or `url` when that is empty) are equal. |
| Cache.QueryOrderMatters | src/middleware/cache.ts:11 | The same query parameters in another order give a different key. |
| Cache.Get | src/middleware/cache.ts:14 | A value is returned iff its key is stored and unexpired, and it is the stored text. |
| Cache.SetEx | src/middleware/cache.ts:28 | A time-to-live of at least one second makes the key read back the body's JSON text. A smaller one stores nothing. No other key changes. |
| Cache.Respond | src/middleware/cache.ts:4-40 | The handler runs iff the request is not a hit, and then its reply is sent. A hit is sent with status 200. Only a miss changes the store. Non-GET requests bypass the cache, and a failed lookup falls through to the handler; neither changes the store. |
| Cache.HitServesStoredValue | src/middleware/cache.ts:14-20 | When the live entry is the JSON text of `v`, the response is `v` with status 200, the handler does not run, and the store is unchanged. |
| Cache.MissThenHit | src/middleware/cache.ts:14-34 | After a miss at `t`, the same URL at `t+dt` is a hit with the first body while `dt < duration`, whatever the handler would now answer. From `dt >= duration` on it is a miss again. |
| Cache.SixtySecondEntry | src/middleware/cache.ts:28 | A 60-second entry stored at 0 is served at 59 and refetched at 61. |
| Cache.ErrorBodyReplayedAsOk | src/middleware/cache.ts:16-28 | A 500 reply's body cached on a miss is replayed a second later with status 200. |
| Cache.GlobMatches | src/middleware/cache.ts:45 | A KEYS pattern ending in `*` matches the keys it prefixes; any other pattern matches only itself. Every pattern matches its own text. |
| Cache.Clear | src/middleware/cache.ts:43-54 | Exactly the matching keys are deleted; every other key keeps its entry. |
| Cache.ClearIdempotent | src/middleware/cache.ts:43-54 | Clearing a pattern twice is clearing it once. |
| Cache.ClearWithoutMatchIsNoop | src/middleware/cache.ts:47 | With no key matching, the store is unchanged. |
| Cache.PrefixPatternSelectsPages | src/middleware/cache.ts:45 | The pattern `"__express__" + path + "*"` matches a request's key iff its effective URL starts with `path`. |
| Cache.RedisCache.Handle | src/middleware/cache.ts:4-40 | One request through the middleware changes the Redis state and serves exactly as `Respond` says; the clock does not move. |
| Cache.RedisCache.ClearCache | src/middleware/cache.ts:43-54 | Without an error, the entries become `Clear(entries, pattern)`. A KEYS or DEL error is swallowed, leaving the entries unchanged. |
| Cache.RepeatedRead | src/middleware/cache.ts:14-34 | Two identical GETs, the second before expiry: the first misses and sends the handler's reply, the second hits and sends the first body with status 200 without running the handler. |

## Left out

- Server start-up, CORS, route wiring and the Redis connection are not modelled. Two wiring facts: no route mounts the cache middleware, and `GET /api/properties/:id` reaches `getProperties`. The cache is therefore modelled as a standalone component.
- Authentication (JWT checks and the user lookup) is a foreign call. The authenticated requester's id is a parameter of every operation.
- `getPropertyById` is not modelled: it is one lookup answered 200 or 404, and no route reaches it.
- Mongoose `.populate` joins are left out. Favourites and recommendations return the stored ids, not the joined documents.
- Object ids are natural numbers handed out by a counter. Automatic timestamps come from a `now` parameter, which is a logical clock.
- Database and Redis failures are mostly left out. Every handler's `catch` answers 500. The model has only the 500s the data can cause: a required field missing or empty, a taken custom id, a negative skip.
- Concurrency is left out: the check-then-insert race in `addFavorite`, the un-awaited `setEx`, and concurrent cache fills. Cache.SetEx keeps only the effect of a refused `setEx` on the store (none); the unhandled promise rejection that can end the Node process is not modelled. The unique indexes are class invariants rather than races lost at the database.
- Schema type casting is left out: a non-numeric `price` or a malformed `_id` would fail Mongoose validation or casting. Body fields are typed values here.
- PropertySearch.Query: numeric parameters are integers or absent. JavaScript `Number()` on arbitrary text (fractions, `NaN`, `Infinity`) is not modelled. An empty numeric filter parameter is falsy and sets no key. An empty `page` or `limit` is not absent: `Number('')` is 0, so `?page=` gives a negative skip (500) and `?limit=` a limit of 0.
- PropertySearch.Search: requires `limit >= 1`. With `limit = 0` (also from an empty `?limit=`) the source sends every match and reports `Infinity`/`NaN` pages; a negative limit has MongoDB semantics of its own.
- PropertySearch.RankPosition: each page is a separate query, and MongoDB may order matches with equal `createdAt` differently each time. Such a tied match can then appear on two pages or on none. The model's `Ranked` fixes one order for every request, so RankPosition and EveryMatchOnItsPage hold across pages only when no two matches share a `createdAt` (`Ordering.NewestFirstUnique`).
- PropertySearch.Query: every query value is one string. Express's query parser turns a repeated key into an array and a bracket key into an object, and neither is modelled. `?tags=a&tags=b` makes `split` throw, so the answer is 500. `?city[$ne]=x` puts the operator `{ $ne: 'x' }` into the filter instead of an equality.
- PropertyStore.PropertyTable.Create: the body is a plain set of schema fields. A client-sent `_id` is passed through to Mongoose, and a taken one is a duplicate-key error (500); the model always uses the next free `_id`. A client-sent `createdAt` is kept by Mongoose's timestamps and moves the listing in the newest-first order; the model always stamps `now`.
- PropertyStore.PropertyTable.Update: the body is a plain patch of schema fields. Update operators such as `$unset` (which can drop `createdBy`) are applied by Mongoose but not modelled. A changed `_id` is refused as immutable (500); the patch cannot express it.
- Ordering.SortNewestFirst: MongoDB leaves the order of equal `createdAt` values unspecified. The model fixes one order, and its contract promises only a newest-first permutation.
- Prices, areas, ratings and `availableFrom` are integers; floating point and dates are not modelled.
- Cache.GlobMatches: the Redis KEYS glob language is modelled only for a pattern ending in `*` (prefix match) and for a pattern without wildcards (exact match). `?`, `[...]`, escapes and inner `*` are not modelled.
- Json.Value: numbers are integers, strings escape only `"` and `\`, and the text has no whitespace. The reader accepts leading zeros and keeps repeated object keys; JavaScript's `JSON.parse` rejects the first and keeps the last value of the second. Neither case arises from text this model writes.
- Cache.Respond: the Redis calls' own failure modes are reduced to one `lookupFails` flag. A stored text that fails to parse is treated like a failed lookup: the handler runs and nothing is stored.
- Cache.RedisCache.ClearCache: the failure of KEYS or DEL is a `fails` parameter. The log line is I/O and is not modelled.
