# Restaurant store on Redis: key naming and handlers

This project models the repository's own logic in Dafny:

- **Key naming** (`utils/keys.ts`). `getKeyName(...args)` builds every Redis key as `redistraining:` followed by the arguments joined with `:`. Each key builder fixes the first argument, the *namespace* segment.
- **The restaurant and review handlers** (`routes/restaurants.ts`). Create a restaurant, add a review, list reviews page by page, delete a review, and view a restaurant. Each handler is a method of `Restaurants.RestaurantStore`. The class holds the Redis keyspace as a map field, `db`.

## Files and modules

- `wrappers.dfy`, module `Wrappers`: the `Option` type.
- `keys.dfy`, module `Keys`: `GetKeyName`, its inverse `ParseKey`, every key builder and constant key, and the `Key` datatype.
  - `Key` has one constructor per builder. `Name` maps each `Key` to its Redis string.
  - The key facts are proved on the strings themselves: prefix, round trip, injectivity, non-collision of namespaces, and the search-index prefix.
- `redis.dfy`, module `Redis`: the Redis commands the handlers issue, written as pure functions from keyspace to keyspace.
  - The commands are HGETALL, HSET, SADD, SMEMBERS, ZADD, LPUSH, LREM with count 0, DEL, HINCRBY, BF.ADD and BF.EXISTS.
  - Hash fields hold decimal text. `Decimal` and `ParseDecimal` are the counter encoding.
  - The keyspace is indexed by `Keys.Key`. `Keys.NameInjective` proves that distinct keys have distinct Redis names, so nothing is lost by indexing this way.
- `pagination.dfy`, module `Pagination`: the listing window. The defaults are page 1 and limit 10, `start = (page-1)*limit` and `end = start+limit-1`. It includes LRANGE with its inclusive end and proofs that pages tile the list.
- `restaurants.dfy`, module `Restaurants`, which holds:
  - the store invariant `Schema`: each key the modelled handlers use holds the kind of value its builder implies, no such aggregate is stored empty, and every `viewCount` is a decimal numeral; keys of other namespaces (the weather cache, the details documents) are not constrained;
  - one pure function per handler for the keyspace it leaves behind, with lemmas about its effect;
  - the `RestaurantStore` class, whose methods are tied to those functions.

Every handler except create runs behind the `checkRestaurantExists` guard (`middlewares/checkRestaurantId.ts:14-21`). The guard answers 404 "Restaurant Not Found" when the restaurant's hash does not exist, and each method models that branch.

A handler's commands go over one Redis connection, and Redis runs one connection's commands in the order they were issued, including those started together in one `Promise.all`. The model therefore runs them one after another, in source order. In particular, the view handler's HGETALL sees the incremented counter.

`nanoid()` ids and `Date.now()` are parameters. So is the bloom filter's answer for a string never added (`falsePositive`).

A comment in `utils/keys.ts:5-6` shows the form `redistraining:restaurant:<id>`, but the code builds `redistraining:restaurants:<id>`. The model follows the code here too (`Keys.RestaurantKeyFormat`).

## Model

| member | source | states |
|---|---|---|
| Keys.SplitJoin | utils/keys.ts:1-3 | splitting a join of separator-free arguments at `:` gives the arguments back |
| Keys.JoinSplit | utils/keys.ts:1-3 | joining the `:`-separated parts of any string gives the string back |
| Keys.KeyNameRoundTrip | utils/keys.ts:1-3 | every key starts with `redistraining:`, and for non-empty separator-free arguments parsing it gives back the arguments in order |
| Keys.KeyNameInjective | utils/keys.ts:1-3 | separator-free argument lists with the same key are equal |
| Keys.NamespaceOfKey | utils/keys.ts:1-3 | a key's namespace segment is its first argument, whatever the later arguments contain |
| Keys.GetKeyName | utils/keys.ts:1-3 | builds `redistraining:` followed by the arguments joined with `:`; specified by `Keys.KeyNameRoundTrip`, `Keys.KeyNameInjective` and `Keys.NamespaceOfKey` |
| Keys.RestaurantKeyById | utils/keys.ts:10 | the restaurant hash key `redistraining:restaurants:<id>`; specified by `Keys.RestaurantKeyFormat`, `Keys.KeyNamespaces` and `Keys.ConstructorsInjective` |
| Keys.ReviewKeyById | utils/keys.ts:13 | the review-list key in namespace `reviews`; specified by `Keys.KeyNamespaces`, `Keys.ConstructorsInjective` and `Keys.NamespacesNeverCollide` |
| Keys.ReviewDetailsKeyById | utils/keys.ts:15 | the review hash key in namespace `reviews_retails`; specified by `Keys.KeyNamespaces`, `Keys.ConstructorsInjective` and `Keys.NamespacesNeverCollide` |
| Keys.CuisineKey | utils/keys.ts:19 | the key of one cuisine's restaurant set, namespace `cuisine`; specified by `Keys.KeyNamespaces`, `Keys.ConstructorsInjective` and `Keys.NamespacesNeverCollide` |
| Keys.RestaurantCuisinesKeyById | utils/keys.ts:20 | the key of one restaurant's cuisine set, namespace `restaurant_cuisines`; specified by `Keys.KeyNamespaces`, `Keys.ConstructorsInjective` and `Keys.NamespacesNeverCollide` |
| Keys.WeatherKeyById | utils/keys.ts:26 | the weather cache key, namespace `weather`; specified by `Keys.KeyNamespaces` and `Keys.ConstructorsInjective` |
| Keys.RestaurantDetailsKeyById | utils/keys.ts:29 | the details document key, namespace `restaurant_details`; specified by `Keys.KeyNamespaces`, `Keys.ConstructorsInjective` and `Keys.NamespacesNeverCollide` |
| Keys.CuisinesKey | utils/keys.ts:18 | the constant key of the set of all cuisines; specified by `Keys.KeyNamespaces`, `Keys.ConstantKeysDistinct` and `Keys.ConstantKeysNotPerId` |
| Keys.RestaurantsByRatingKey | utils/keys.ts:23 | the constant key of the rating sorted set; specified by `Keys.KeyNamespaces`, `Keys.ConstantKeysDistinct`, `Keys.ConstantKeysNotPerId` and `Keys.NamespacesNeverCollide` |
| Keys.IndexKey | utils/keys.ts:32 | the constant name of the search index; specified by `Keys.KeyNamespaces`, `Keys.ConstantKeysDistinct` and `Keys.ConstantKeysNotPerId` |
| Keys.BloomKey | utils/keys.ts:36 | the constant key of the bloom filter; specified by `Keys.KeyNamespaces`, `Keys.ConstantKeysDistinct` and `Keys.ConstantKeysNotPerId` |
| Keys.KeyFormat | utils/keys.ts:1-3 | a two-argument key is `redistraining:<ns>:<id>` |
| Keys.RestaurantKeyFormat | utils/keys.ts:10 | `restaurantKeyById(id)` is `"redistraining:restaurants:" + id` |
| Keys.KeyNamespaces | utils/keys.ts:10-36 | the namespace segment of each of the eleven keys built by `utils/keys.ts` |
| Keys.ConstructorsInjective | utils/keys.ts:10-29 | each of the seven per-id builders gives distinct ids distinct keys, even for ids containing `:` |
| Keys.NamespacesNeverCollide | utils/keys.ts:10-23 | a `reviews:` key never equals a `reviews_retails:` key; a restaurant key never equals a cuisine-set, details, rating, review-list or review-hash key; a cuisine key never equals a restaurant's cuisine set or the cuisine list |
| Keys.ConstantKeysDistinct | utils/keys.ts:18-36 | the four constant keys are pairwise distinct |
| Keys.ConstantKeysNotPerId | utils/keys.ts:10-36 | no per-id key, for any id, equals a constant key |
| Keys.NotConstantByNamespace | utils/keys.ts:18-36 | a key in a per-id namespace is not a constant key |
| Keys.IndexPrefixCoversRestaurantKeys | seed/createIndex.ts:28 | the index prefix `getKeyName("restaurants")` begins every restaurant hash key and, being a text match, the rating key too; it does not begin the cuisine-set or details keys |
| Keys.NameNamespace | utils/keys.ts:10-36 | the namespace of every built key is the segment its builder puts first |
| Keys.NameInjective | utils/keys.ts:10-36 | two builders give the same Redis key only for the same builder and the same id |
| Redis.RemoveAll | routes/restaurants.ts:198 | LREM with count 0 drops exactly the occurrences of the id and keeps every other element |
| Redis.BfExists | routes/restaurants.ts:71 | the filter never denies an added string, and reports nothing while it does not exist |
| Redis.Decimal | routes/restaurants.ts:161 | a counter is written as a canonical decimal numeral of its value |
| Redis.ParseDecimal | routes/restaurants.ts:161 | a field parses as a number exactly when it is a canonical numeral, and printing the parsed number gives the field back |
| Redis.NumeralRoundTrip | routes/restaurants.ts:161 | a canonical numeral is the decimal form of the value it denotes |
| Pagination.QueryOrDefaults | routes/restaurants.ts:174 | fills in page 1 and limit 10 when the query leaves them out; specified by `Pagination.DefaultQueryListsFirstTen` |
| Pagination.WindowStart | routes/restaurants.ts:176 | the first index of a page, `(page-1)*limit`; specified by `Pagination.WindowShape` |
| Pagination.WindowEnd | routes/restaurants.ts:177 | the last index of a page, inclusive, `start+limit-1`; specified by `Pagination.WindowShape` |
| Pagination.Page | routes/restaurants.ts:182 | the ids the LRANGE window returns; specified by `Pagination.PageSlice`, `Pagination.PagesTile` and `Pagination.FirstPageIsHead` |
| Pagination.WindowShape | routes/restaurants.ts:176-177 | the window starts at 0 or later, spans exactly `limit` positions, page 1 starts at 0, and page p+1 starts right after page p ends |
| Pagination.LRange | routes/restaurants.ts:182 | LRANGE with an inclusive end returns the elements from `start` to `end`, cut at the end of the list |
| Pagination.PageSlice | routes/restaurants.ts:176-182 | a page is the slice from `(page-1)*limit` of length at most `limit` |
| Pagination.PagesTile | routes/restaurants.ts:176-182 | pages 1 to n, concatenated, are the first `n*limit` ids of the list |
| Pagination.AllPagesListEverything | routes/restaurants.ts:176-182 | enough pages list every id exactly once, in order |
| Pagination.FirstPageIsHead | routes/restaurants.ts:176-182 | page 1 is the first `limit` ids |
| Pagination.PushedFirstOnPageOne | routes/restaurants.ts:182 | after a push to the head, page 1 is the pushed id followed by the first `limit-1` older ids |
| Pagination.DefaultQueryListsFirstTen | routes/restaurants.ts:174 | with no query, the page is 1, the limit 10, and the listing is the first ten ids |
| Restaurants.OtherRoutesKeepSchema | routes/restaurants.ts:36-107 | writing any value under a restaurant's weather-cache key (SET at lines 36-38) or details key (JSON.SET at line 107) keeps the store invariant, so the modelled handlers still apply afterwards |
| Restaurants.SchemaHolds | utils/keys.ts:9-23 | under the store invariant, every command meets a key of the kind it expects, so no command replies WRONGTYPE |
| Restaurants.WriteKeepsSchema | utils/keys.ts:9-23 | storing a non-empty value of the key's kind keeps the store invariant |
| Restaurants.SAddKeepsSchema | routes/restaurants.ts:80-82 | SADD on a set key keeps the store invariant |
| Restaurants.BloomString | routes/restaurants.ts:70 | the `name:location` string the filter records; specified by `Restaurants.CreatedEffect` and `Restaurants.CreateTwiceRejected` |
| Restaurants.RestaurantHash | routes/restaurants.ts:77 | the hash `{id, name, location}` of a new restaurant; specified by `Restaurants.CreatedEffect` and `Restaurants.RestaurantStore.CreateRestaurant` |
| Restaurants.AddCuisine | routes/restaurants.ts:80-82 | the three SADDs for one cuisine keep the store invariant |
| Restaurants.AddCuisines | routes/restaurants.ts:79-83 | the SADDs for every cuisine keep the store invariant |
| Restaurants.AddCuisineEffect | routes/restaurants.ts:80-82 | one cuisine joins the cuisine list and the restaurant's cuisine set, the id joins that cuisine's set, and every other key is unchanged |
| Restaurants.AddCuisinesMembers | routes/restaurants.ts:79-83 | afterwards the cuisine list and the restaurant's set hold exactly the old members plus the cuisines; a cuisine's set gains the id exactly when the cuisine is listed |
| Restaurants.AddCuisinesFrame | routes/restaurants.ts:79-83 | the cuisine additions change no key outside the cuisine sets they add to |
| Restaurants.StoreRestaurant | routes/restaurants.ts:84-89 | HSET of the hash, ZADD with score 0 and BF.ADD keep the store invariant |
| Restaurants.StoreRestaurantEffect | routes/restaurants.ts:84-89 | the hash gains `{id, name, location}`, the rating set gives the id score 0, the filter records `name:location`, and every other key is unchanged |
| Restaurants.CreatedDb | routes/restaurants.ts:76-89 | a successful create keeps the store invariant |
| Restaurants.CreatedEffect | routes/restaurants.ts:76-92 | after a create: the hash is `{id, name, location}` merged in, the id has score 0, `name:location` is recorded, and the three kinds of cuisine set gain exactly the listed cuisines or the id |
| Restaurants.CreatedFrame | routes/restaurants.ts:76-89 | a create changes no key but the hash, the rating set, the filter and the cuisine sets it adds to |
| Restaurants.CreateTwiceRejected | routes/restaurants.ts:70-89 | right after a create succeeds, the filter reports its `name:location` as seen, so the next create of that `name:location` is rejected |
| Restaurants.HandlersKeepSeen | routes/restaurants.ts:89-199 | a create only adds to the bloom filter and the other handlers leave it unchanged, so with `Restaurants.CreateTwiceRejected` every later create of a created `name:location` is rejected |
| Restaurants.ReviewHash | routes/restaurants.ts:141 | the review hash has the body's fields plus `id`, `timestamp` and `restaurantId`; the timestamp and restaurant id always win, and `id` is the new id unless the body has one |
| Restaurants.ReviewAddedDb | routes/restaurants.ts:142-145 | adding a review keeps the store invariant |
| Restaurants.ReviewAddedEffect | routes/restaurants.ts:142-145 | the id becomes the head of the restaurant's review list, the review hash is merged in, and nothing else changes |
| Restaurants.NewestReviewListedFirst | routes/restaurants.ts:138-145 | right after a review is added, page 1 (including the default page) begins with it, followed by the older reviews |
| Restaurants.ReviewDeletedDb | routes/restaurants.ts:197-203 | a delete keeps the store invariant, and it finds something exactly when the id is in the list or the review hash exists |
| Restaurants.ReviewDeletedEffect | routes/restaurants.ts:197-200 | the list loses every occurrence of the id and keeps the other ids in order, the review hash is gone, and nothing else changes |
| Restaurants.ReviewNotFoundChangesNothing | routes/restaurants.ts:197-203 | a delete that finds nothing leaves the keyspace exactly as it was |
| Restaurants.RemoveAllNothing | routes/restaurants.ts:198 | removing an id that does not occur leaves the list unchanged |
| Restaurants.DeleteThroughOtherRestaurant | routes/restaurants.ts:191-204 | a delete through a restaurant that does not own the review still succeeds: it removes the review hash and leaves the id in the owner's list |
| Restaurants.ViewedDb | routes/restaurants.ts:161 | a view keeps the store invariant, raises the view count by exactly 1, and changes no other key |
| Restaurants.ViewKeepsOtherFields | routes/restaurants.ts:161 | a view changes no field of the restaurant hash except `viewCount` |
| Restaurants.RestaurantStore.CreateRestaurant | routes/restaurants.ts:63-97 | 409 with no write when the filter reports `name:location`; otherwise the store becomes `CreatedDb` and the reply is the hash with "Added new restaurant" |
| Restaurants.RestaurantStore.AddReview | routes/restaurants.ts:133-151 | 404 with no write when the restaurant does not exist; otherwise the store becomes `ReviewAddedDb` and the reply is the review hash with "Review Added" |
| Restaurants.RestaurantStore.ListReviews | routes/restaurants.ts:172-189 | 404 when the restaurant does not exist; otherwise the reply is the review hashes of the requested page's ids, in list order |
| Restaurants.RestaurantStore.DeleteReview | routes/restaurants.ts:191-208 | 404 "Restaurant Not Found" when the restaurant does not exist; otherwise the store becomes `ReviewDeletedDb`, with 404 "Review not found" exactly when nothing was removed |
| Restaurants.RestaurantStore.ViewRestaurant | routes/restaurants.ts:155-170 | 404 when the restaurant does not exist; otherwise the store becomes `ViewedDb` and the reply is the updated hash with the restaurant's cuisines |

## Left out

- The BullMQ queue, its worker and its routes: the repository only configures the library, and no logic of its own is there to model.
- Weather caching (`routes/restaurants.ts:13-45`): an outbound HTTP request and a one-hour expiry, which are network I/O and wall-clock time.
- Full-text search (`routes/restaurants.ts:48-59`) and index creation: RediSearch calls with no logic of their own. Only the index prefix is modelled.
- Restaurant details (`routes/restaurants.ts:100-131`): a RedisJSON pass-through.
- The contents of the weather-cache and details keys. `Redis.Value` has no plain-string or JSON kind; `Schema` leaves those keys unconstrained, and the modelled handlers never read them.
- `routes/cuisines.ts`: read-only set lookups.
- Request validation (Zod) and the response JSON shaping. A handler's reply is the `Response` value it would send.
- The guard's 400 branch for a missing `restaurantId`: Express never matches these routes with an empty parameter.
- Interleaving of concurrent requests. Each handler runs as one atomic step on the store.
- Redis failures. Every handler hands a failing command to `next(error)` (`routes/restaurants.ts:94-96`, `148-150`, `167-169`, `186-188`, `205-207`), and a failure inside `Promise.all` can leave the earlier writes applied. The model has no failing command: WRONGTYPE and "not an integer" replies are ruled out by `Schema`, and the counter's overflow is listed under `Restaurants.ViewedDb` below.
- Redis.BfExists: the filter's probabilistic false positives are a free parameter, not the 0.0001 error rate, so the model proves only that an added string is never denied.
- Restaurants.RestaurantStore.ListReviews: requires `page >= 1` and `limit >= 1`. The model leaves out `Number()` coercion to NaN and LRANGE's negative indices.
- Restaurants.ViewedDb: the counter is unbounded. HINCRBY's 64-bit overflow error is not modelled.
- Restaurants.RestaurantStore.ViewRestaurant: the reply keeps the hash and the cuisine set apart. The source spreads them into one JSON object, where a hash field named `cuisines` would be overwritten.
- Restaurants.ReviewHash: the review body is a map of text fields. The source's numeric fields (such as a rating) become text when HSET stores them.
- The sorted set's scores are integers. The source writes only the score 0.
