/**
 * The restaurant and review handlers of routes/restaurants.ts, as methods of
 * a store that owns the Redis keyspace.
 *
 * The Express plumbing is stripped: a handler takes its route parameters and
 * validated body, issues its Redis commands one after another (Redis runs
 * one connection's commands in the order they are issued, those started
 * together in one `Promise.all` included), and returns the response it
 * sends. Ids from `nanoid()` and the clock reading `Date.now()` are
 * parameters. Every handler but create runs behind the
 * `checkRestaurantExists` guard, which answers 404 when the restaurant's
 * hash does not exist.
 */
module Restaurants {
  import opened Wrappers
  import opened Keys
  import opened Redis
  import opened Pagination

  /** What a handler sends: `SuccessResponse(res, data, message)` or `errorResponse(res, status, error)`. */
  datatype Response<T> = Success(data: T, message: string) | Failure(status: int, error: string)

  /** The guard's message for a restaurant whose hash does not exist. */
  const RestaurantNotFound := "Restaurant Not Found"

  /** The field of a restaurant hash that counts its views. */
  const ViewCountField := "viewCount"

  // The schema: what each key may hold

  /** The kind of value each key holds; None for keys the modelled handlers never write. */
  function ExpectedKind(key: Key): Option<Kind>
  {
    match key
    case Restaurant(_) => Some(HashKind)
    case ReviewDetails(_) => Some(HashKind)
    case Reviews(_) => Some(ListKind)
    case Cuisines => Some(SetKind)
    case Cuisine(_) => Some(SetKind)
    case RestaurantCuisines(_) => Some(SetKind)
    case RestaurantsByRating => Some(SortedSetKind)
    case Bloom => Some(BloomKind)
    case _ => None
  }

  /** A restaurant hash's view counter, when present, is a canonical decimal. */
  predicate CounterOk(key: Key, v: Value)
  {
    key.Restaurant? && v.HashValue? && ViewCountField in v.fields ==> IsNumeral(v.fields[ViewCountField])
  }

  /**
   * Every key the modelled handlers use holds the kind of value its builder
   * names, no such aggregate is empty, and every view counter is a number.
   * Keys of other namespaces (the weather cache, the details documents) may
   * hold anything. Under it no command of the handlers can reply WRONGTYPE
   * or "not an integer".
   */
  predicate Schema(db: Db)
  {
    forall key :: key in db && ExpectedKind(key).Some? ==>
      ExpectedKind(key) == Some(KindOf(db[key])) && NonEmpty(db[key]) && CounterOk(key, db[key])
  }

  /**
   * The weather route's SET and the details route's JSON.SET write keys the
   * schema leaves free, so the store invariant, and with it every handler's
   * contract, still holds after them.
   */
  lemma OtherRoutesKeepSchema(db: Db, restaurantId: string, v: Value)
    requires Schema(db)
    ensures Schema(db[Weather(restaurantId) := v])
    ensures Schema(db[RestaurantDetails(restaurantId) := v])
  {
  }

  /** `a` and `b` agree on `key`. */
  ghost predicate SameAt(a: Db, b: Db, key: Key)
  {
    (key in a <==> key in b) && (key in a ==> a[key] == b[key])
  }

  /** Under the schema, every command on a key of the application finds the kind it expects. */
  lemma SchemaHolds(db: Db, key: Key)
    requires Schema(db) && ExpectedKind(key).Some?
    ensures Holds(db, key, ExpectedKind(key).value)
  {
  }

  /** `a` and `b` agree on every key outside `keys`. */
  ghost predicate AgreeOutside(a: Db, b: Db, keys: set<Key>)
  {
    forall key :: key !in keys ==> SameAt(a, b, key)
  }

  /** Writing a value of the kind the key's builder names keeps the schema. */
  lemma WriteKeepsSchema(db: Db, key: Key, v: Value)
    requires Schema(db)
    requires ExpectedKind(key) == Some(KindOf(v)) && NonEmpty(v) && CounterOk(key, v)
    ensures Schema(db[key := v])
  {
  }

  /** SADD to a key whose builder names a set keeps the schema. */
  lemma SAddKeepsSchema(db: Db, key: Key, member: string)
    requires Schema(db) && ExpectedKind(key) == Some(SetKind)
    ensures Schema(SAdd(db, key, member))
  {
    var r := SAdd(db, key, member);
    forall k | k in r && ExpectedKind(k).Some?
      ensures ExpectedKind(k) == Some(KindOf(r[k])) && NonEmpty(r[k]) && CounterOk(k, r[k])
    {
      if k == key {
        assert member in r[k].members;
      }
    }
  }

  // Creating a restaurant

  /** The string the bloom filter records for a restaurant: `name:location`. */
  function BloomString(name: string, location: string): string
  {
    name + [Separator] + location
  }

  /** The hash stored for a new restaurant. */
  function RestaurantHash(id: string, name: string, location: string): Fields
  {
    map["id" := id, "name" := name, "location" := location]
  }

  /** The three set additions for one cuisine of a new restaurant. */
  function AddCuisine(db: Db, id: string, cuisine: string): (r: Db)
    requires Schema(db)
    ensures Schema(r)
  {
    var db1 := SAdd(db, Cuisines, cuisine);
    SAddKeepsSchema(db, Cuisines, cuisine);
    var db2 := SAdd(db1, Cuisine(cuisine), id);
    SAddKeepsSchema(db1, Cuisine(cuisine), id);
    SAddKeepsSchema(db2, RestaurantCuisines(id), cuisine);
    SAdd(db2, RestaurantCuisines(id), cuisine)
  }

  /** The set additions for every cuisine of a new restaurant, in order. */
  function AddCuisines(db: Db, id: string, cuisines: seq<string>): (r: Db)
    requires Schema(db)
    ensures Schema(r)
  {
    if cuisines == [] then db
    else AddCuisine(AddCuisines(db, id, cuisines[..|cuisines| - 1]), id, cuisines[|cuisines| - 1])
  }

  /** The keys the cuisine additions of a new restaurant may change. */
  predicate CuisineWrite(key: Key, id: string, cuisines: seq<string>)
  {
    key == Cuisines || key == RestaurantCuisines(id) || (key.Cuisine? && key.name in cuisines)
  }

  /** One cuisine joins the global set and the restaurant's set, and the id joins the cuisine's set. */
  lemma AddCuisineEffect(db: Db, id: string, cuisine: string)
    requires Schema(db)
    ensures var r := AddCuisine(db, id, cuisine);
      && SMembers(r, Cuisines) == SMembers(db, Cuisines) + {cuisine}
      && SMembers(r, RestaurantCuisines(id)) == SMembers(db, RestaurantCuisines(id)) + {cuisine}
      && SMembers(r, Cuisine(cuisine)) == SMembers(db, Cuisine(cuisine)) + {id}
      && forall key :: key != Cuisines && key != RestaurantCuisines(id) && key != Cuisine(cuisine) ==>
           SameAt(db, r, key)
  {
  }

  /**
   * After the cuisine additions, the global cuisine set and the restaurant's
   * cuisine set hold every cuisine, and each cuisine's set holds the id.
   */
  lemma {:induction false} AddCuisinesMembers(db: Db, id: string, cuisines: seq<string>)
    requires Schema(db)
    ensures var r := AddCuisines(db, id, cuisines);
      && (forall c :: c in SMembers(r, Cuisines) <==> c in SMembers(db, Cuisines) || c in cuisines)
      && (forall c :: c in SMembers(r, RestaurantCuisines(id)) <==>
            c in SMembers(db, RestaurantCuisines(id)) || c in cuisines)
      && (forall c, x :: x in SMembers(r, Cuisine(c)) <==>
            x in SMembers(db, Cuisine(c)) || (c in cuisines && x == id))
  {
    if cuisines != [] {
      var init := cuisines[..|cuisines| - 1];
      var last := cuisines[|cuisines| - 1];
      AddCuisinesMembers(db, id, init);
      assert cuisines == init + [last];
      var mid := AddCuisines(db, id, init);
      AddCuisineEffect(mid, id, last);
      var r := AddCuisine(mid, id, last);
      forall c | c != last
        ensures SMembers(r, Cuisine(c)) == SMembers(mid, Cuisine(c))
      {
        assert SameAt(mid, r, Cuisine(c));
      }
    }
  }

  /** The cuisine additions change no key but the cuisine sets they add to. */
  lemma {:induction false} AddCuisinesFrame(db: Db, id: string, cuisines: seq<string>)
    requires Schema(db)
    ensures forall key :: !CuisineWrite(key, id, cuisines) ==> SameAt(db, AddCuisines(db, id, cuisines), key)
  {
    if cuisines != [] {
      var init := cuisines[..|cuisines| - 1];
      var last := cuisines[|cuisines| - 1];
      AddCuisinesFrame(db, id, init);
      assert cuisines == init + [last];
      var mid := AddCuisines(db, id, init);
      AddCuisineEffect(mid, id, last);
      var r := AddCuisine(mid, id, last);
      forall key | !CuisineWrite(key, id, cuisines)
        ensures SameAt(db, r, key)
      {
        assert !CuisineWrite(key, id, init) && key != Cuisine(last);
        assert SameAt(db, mid, key) && SameAt(mid, r, key);
      }
    }
  }

  /** The writes of a create after the cuisines: HSET of the hash, ZADD with score 0, BF.ADD of `name:location`. */
  function StoreRestaurant(db: Db, id: string, name: string, location: string): (r: Db)
    requires Schema(db)
    ensures Schema(r)
  {
    var fields := HGetAll(db, Restaurant(id)) + RestaurantHash(id, name, location);
    assert "id" in fields;
    assert ViewCountField in fields ==> IsNumeral(fields[ViewCountField]) by {
      assert ViewCountField !in RestaurantHash(id, name, location);
      assert Restaurant(id) in db ==> CounterOk(Restaurant(id), db[Restaurant(id)]);
    }
    WriteKeepsSchema(db, Restaurant(id), HashValue(fields));
    var db1 := HSet(db, Restaurant(id), RestaurantHash(id, name, location));
    assert id in ZScores(db1, RestaurantsByRating)[id := 0];
    WriteKeepsSchema(db1, RestaurantsByRating, SortedSetValue(ZScores(db1, RestaurantsByRating)[id := 0]));
    var db2 := ZAdd(db1, RestaurantsByRating, id, 0);
    WriteKeepsSchema(db2, Bloom, BloomValue(BloomAdded(db2, Bloom) + {BloomString(name, location)}));
    BfAdd(db2, Bloom, BloomString(name, location))
  }

  /** The hash gains `{id, name, location}`, the rating set scores the id 0, the filter records the string. */
  lemma StoreRestaurantEffect(db: Db, id: string, name: string, location: string)
    requires Schema(db)
    ensures var r := StoreRestaurant(db, id, name, location);
      && HGetAll(r, Restaurant(id)) == HGetAll(db, Restaurant(id)) + RestaurantHash(id, name, location)
      && ZScores(r, RestaurantsByRating) == ZScores(db, RestaurantsByRating)[id := 0]
      && BloomAdded(r, Bloom) == BloomAdded(db, Bloom) + {BloomString(name, location)}
      && forall key :: key != Restaurant(id) && key != RestaurantsByRating && key != Bloom ==> SameAt(db, r, key)
  {
  }

  /** The keyspace after a successful create. */
  function CreatedDb(db: Db, id: string, name: string, location: string, cuisines: seq<string>): (r: Db)
    requires Schema(db)
    ensures Schema(r)
  {
    StoreRestaurant(AddCuisines(db, id, cuisines), id, name, location)
  }

  /** The keys a create may change. */
  predicate CreateKey(key: Key, id: string, cuisines: seq<string>)
  {
    CuisineWrite(key, id, cuisines) || key == Restaurant(id) || key == RestaurantsByRating || key == Bloom
  }

  /**
   * A successful create stores the hash `{id, name, location}`, gives the id
   * score 0 in the rating set, files the restaurant under each of its
   * cuisines and records `name:location` in the bloom filter.
   */
  lemma CreatedEffect(db: Db, id: string, name: string, location: string, cuisines: seq<string>)
    requires Schema(db)
    ensures var r := CreatedDb(db, id, name, location, cuisines);
      && HGetAll(r, Restaurant(id)) == HGetAll(db, Restaurant(id)) + RestaurantHash(id, name, location)
      && ZScores(r, RestaurantsByRating) == ZScores(db, RestaurantsByRating)[id := 0]
      && BloomAdded(r, Bloom) == BloomAdded(db, Bloom) + {BloomString(name, location)}
      && (forall c :: c in SMembers(r, Cuisines) <==> c in SMembers(db, Cuisines) || c in cuisines)
      && (forall c :: c in SMembers(r, RestaurantCuisines(id)) <==>
            c in SMembers(db, RestaurantCuisines(id)) || c in cuisines)
      && (forall c, x :: x in SMembers(r, Cuisine(c)) <==>
            x in SMembers(db, Cuisine(c)) || (c in cuisines && x == id))
  {
    AddCuisinesMembers(db, id, cuisines);
    AddCuisinesFrame(db, id, cuisines);
    var db1 := AddCuisines(db, id, cuisines);
    StoreRestaurantEffect(db1, id, name, location);
    assert !CuisineWrite(Restaurant(id), id, cuisines) && !CuisineWrite(RestaurantsByRating, id, cuisines);
    assert !CuisineWrite(Bloom, id, cuisines);
    var r := CreatedDb(db, id, name, location, cuisines);
    assert SameAt(db1, r, Cuisines) && SameAt(db1, r, RestaurantCuisines(id));
    forall c
      ensures SMembers(r, Cuisine(c)) == SMembers(db1, Cuisine(c))
    {
      assert SameAt(db1, r, Cuisine(c));
    }
  }

  /** A create changes no key but the ones it writes. */
  lemma CreatedFrame(db: Db, id: string, name: string, location: string, cuisines: seq<string>)
    requires Schema(db)
    ensures forall key :: !CreateKey(key, id, cuisines) ==> SameAt(db, CreatedDb(db, id, name, location, cuisines), key)
  {
    AddCuisinesFrame(db, id, cuisines);
    var db1 := AddCuisines(db, id, cuisines);
    StoreRestaurantEffect(db1, id, name, location);
    var r := CreatedDb(db, id, name, location, cuisines);
    forall key | !CreateKey(key, id, cuisines)
      ensures SameAt(db, r, key)
    {
      assert SameAt(db, db1, key) && SameAt(db1, r, key);
    }
  }

  /**
   * Right after a `name:location` is created, the next create of it is
   * rejected; `HandlersKeepSeen` carries this past any later handler.
   */
  lemma CreateTwiceRejected(db: Db, id: string, name: string, location: string, cuisines: seq<string>,
                            falsePositive: bool)
    requires Schema(db)
    ensures BfExists(CreatedDb(db, id, name, location, cuisines), Bloom, BloomString(name, location),
                     falsePositive)
  {
    CreatedEffect(db, id, name, location, cuisines);
  }

  // Adding, listing and deleting reviews

  /**
   * The hash stored for a review: `{id, ...body, timestamp, restaurantId}`.
   * Later entries win, so the body may replace `id` but never the timestamp
   * or the restaurant id.
   */
  function ReviewHash(reviewId: string, body: Fields, timestamp: nat, restaurantId: string): (h: Fields)
    ensures h.Keys == body.Keys + {"id", "timestamp", "restaurantId"}
    ensures h["timestamp"] == Decimal(timestamp) && h["restaurantId"] == restaurantId
    ensures "id" !in body ==> h["id"] == reviewId
    ensures forall f :: f in body && f != "timestamp" && f != "restaurantId" ==> h[f] == body[f]
  {
    map["id" := reviewId] + body + map["timestamp" := Decimal(timestamp), "restaurantId" := restaurantId]
  }

  /** The keyspace after a review is added: its id pushed on the head of the list, its hash stored. */
  function ReviewAddedDb(db: Db, restaurantId: string, reviewId: string, review: Fields): (r: Db)
    requires Schema(db) && review != map[]
    ensures Schema(r)
  {
    var db1 := LPush(db, Reviews(restaurantId), reviewId);
    HSet(db1, ReviewDetails(reviewId), review)
  }

  /**
   * Adding a review puts its id at the head of the restaurant's list, merges
   * its fields into its hash, and changes no other key.
   */
  lemma ReviewAddedEffect(db: Db, restaurantId: string, reviewId: string, review: Fields)
    requires Schema(db) && review != map[]
    ensures var r := ReviewAddedDb(db, restaurantId, reviewId, review);
      && ListItems(r, Reviews(restaurantId)) == [reviewId] + ListItems(db, Reviews(restaurantId))
      && HGetAll(r, ReviewDetails(reviewId)) == HGetAll(db, ReviewDetails(reviewId)) + review
      && AgreeOutside(db, r, {Reviews(restaurantId), ReviewDetails(reviewId)})
  {
  }

  /** Right after a review is added, page 1 of its restaurant's reviews starts with it. */
  lemma NewestReviewListedFirst(db: Db, restaurantId: string, reviewId: string, review: Fields,
                                page: Option<int>, limit: Option<int>)
    requires Schema(db) && review != map[]
    requires page == None || page == Some(1)
    requires limit.Some? ==> limit.value >= 1
    ensures var r := ReviewAddedDb(db, restaurantId, reviewId, review);
      var (p, l) := QueryOrDefaults(page, limit);
      && p == 1 && l >= 1
      && Page(ListItems(r, Reviews(restaurantId)), p, l) ==
         [reviewId] + ListItems(db, Reviews(restaurantId))[..Min(l - 1, |ListItems(db, Reviews(restaurantId))|)]
  {
    ReviewAddedEffect(db, restaurantId, reviewId, review);
    var (p, l) := QueryOrDefaults(page, limit);
    PushedFirstOnPageOne(ListItems(db, Reviews(restaurantId)), reviewId, l);
  }

  /**
   * The keyspace after a delete, and whether anything was removed: `LREM`
   * of every occurrence of the id from the restaurant's list, then `DEL` of
   * the review's hash.
   */
  function ReviewDeletedDb(db: Db, restaurantId: string, reviewId: string): (r: (Db, bool))
    requires Schema(db)
    ensures Schema(r.0)
    ensures r.1 <==> reviewId in ListItems(db, Reviews(restaurantId)) || ReviewDetails(reviewId) in db
  {
    var (db1, removed) := LRemAll(db, Reviews(restaurantId), reviewId);
    var (db2, deleted) := Del(db1, ReviewDetails(reviewId));
    (db2, removed > 0 || deleted > 0)
  }

  /**
   * A delete leaves no occurrence of the id in the restaurant's list (the
   * other ids keep their order), removes the review's hash, and changes no
   * other key.
   */
  lemma ReviewDeletedEffect(db: Db, restaurantId: string, reviewId: string)
    requires Schema(db)
    ensures var r := ReviewDeletedDb(db, restaurantId, reviewId).0;
      && ListItems(r, Reviews(restaurantId)) == RemoveAll(ListItems(db, Reviews(restaurantId)), reviewId)
      && reviewId !in ListItems(r, Reviews(restaurantId))
      && ReviewDetails(reviewId) !in r
      && AgreeOutside(db, r, {Reviews(restaurantId), ReviewDetails(reviewId)})
  {
    var s := ListItems(db, Reviews(restaurantId));
    var db1 := LRemAll(db, Reviews(restaurantId), reviewId).0;
    var r := Del(db1, ReviewDetails(reviewId)).0;
    assert ListItems(db1, Reviews(restaurantId)) == RemoveAll(s, reviewId);
    assert ListItems(r, Reviews(restaurantId)) == ListItems(db1, Reviews(restaurantId));
    assert reviewId !in multiset(RemoveAll(s, reviewId));
    forall key | key !in {Reviews(restaurantId), ReviewDetails(reviewId)}
      ensures SameAt(db, r, key)
    {
      assert SameAt(db, db1, key);
    }
  }

  /** A delete that finds nothing to remove leaves the keyspace as it was. */
  lemma ReviewNotFoundChangesNothing(db: Db, restaurantId: string, reviewId: string)
    requires Schema(db)
    requires !ReviewDeletedDb(db, restaurantId, reviewId).1
    ensures ReviewDeletedDb(db, restaurantId, reviewId).0 == db
  {
    var s := ListItems(db, Reviews(restaurantId));
    RemoveAllNothing(s, reviewId);
    var r := ReviewDeletedDb(db, restaurantId, reviewId).0;
    if Reviews(restaurantId) in db {
      assert db[Reviews(restaurantId)] == ListValue(s);
    }
    assert forall key :: key in r <==> key in db;
  }

  /** Removing an element that does not occur changes nothing. */
  lemma {:induction false} RemoveAllNothing(s: seq<string>, x: string)
    requires x !in s
    ensures RemoveAll(s, x) == s
  {
    if s != [] {
      RemoveAllNothing(s[1..], x);
    }
  }

  /**
   * The delete handler does not check that the review belongs to the
   * restaurant in the route: deleting review `reviewId` through another
   * restaurant removes the review's hash and leaves the id in its own
   * restaurant's list.
   */
  lemma DeleteThroughOtherRestaurant(db: Db, owner: string, other: string, reviewId: string)
    requires Schema(db) && owner != other
    requires reviewId in ListItems(db, Reviews(owner)) && ReviewDetails(reviewId) in db
    ensures var (r, found) := ReviewDeletedDb(db, other, reviewId);
      && found
      && ReviewDetails(reviewId) !in r
      && reviewId in ListItems(r, Reviews(owner))
  {
    ReviewDeletedEffect(db, other, reviewId);
    var r := ReviewDeletedDb(db, other, reviewId).0;
    assert SameAt(db, r, Reviews(owner));
  }

  // Viewing a restaurant

  /** The view counter of a restaurant; 0 before its first view. */
  function ViewCount(db: Db, restaurantId: string): nat
  {
    var h := HGetAll(db, Restaurant(restaurantId));
    if ViewCountField in h then ParseDecimal(h[ViewCountField]).GetOr(0) else 0
  }

  /** What the view handler returns: the restaurant's hash with its cuisines. */
  datatype RestaurantView = RestaurantView(fields: Fields, cuisines: set<string>)

  /** The keyspace after a view: `HINCRBY viewCount 1` on the restaurant's hash. */
  function ViewedDb(db: Db, restaurantId: string): (r: Db)
    requires Schema(db)
    ensures Schema(r)
    ensures ViewCount(r, restaurantId) == ViewCount(db, restaurantId) + 1
    ensures Restaurant(restaurantId) in r
    ensures AgreeOutside(db, r, {Restaurant(restaurantId)})
  {
    var key := Restaurant(restaurantId);
    assert key in db ==> CounterOk(key, db[key]);
    HIncrBy(db, key, ViewCountField, 1).0
  }

  /** A view changes no field of the restaurant's hash but the counter. */
  lemma ViewKeepsOtherFields(db: Db, restaurantId: string, field: string)
    requires Schema(db) && field != ViewCountField
    ensures var key := Restaurant(restaurantId);
      field in HGetAll(db, key) <==> field in HGetAll(ViewedDb(db, restaurantId), key)
    ensures var key := Restaurant(restaurantId);
      field in HGetAll(db, key) ==> HGetAll(ViewedDb(db, restaurantId), key)[field] == HGetAll(db, key)[field]
  {
  }

  /**
   * No handler takes a string out of the bloom filter: a create adds its
   * `name:location`, and adding a review, deleting one or viewing a
   * restaurant leave the filter as it was. With `CreateTwiceRejected`, a
   * `name:location` once created is rejected by every later create.
   */
  lemma HandlersKeepSeen(db: Db, restaurantId: string, reviewId: string, review: Fields,
                         id: string, name: string, location: string, cuisines: seq<string>)
    requires Schema(db) && review != map[]
    ensures BloomAdded(db, Bloom) <= BloomAdded(CreatedDb(db, id, name, location, cuisines), Bloom)
    ensures BloomAdded(ReviewAddedDb(db, restaurantId, reviewId, review), Bloom) == BloomAdded(db, Bloom)
    ensures BloomAdded(ReviewDeletedDb(db, restaurantId, reviewId).0, Bloom) == BloomAdded(db, Bloom)
    ensures BloomAdded(ViewedDb(db, restaurantId), Bloom) == BloomAdded(db, Bloom)
  {
    CreatedEffect(db, id, name, location, cuisines);
    ReviewAddedEffect(db, restaurantId, reviewId, review);
    assert SameAt(db, ReviewAddedDb(db, restaurantId, reviewId, review), Bloom);
    ReviewDeletedEffect(db, restaurantId, reviewId);
    assert SameAt(db, ReviewDeletedDb(db, restaurantId, reviewId).0, Bloom);
    assert SameAt(db, ViewedDb(db, restaurantId), Bloom);
  }

  // The store

  /** The Redis keyspace the handlers share, and the handlers themselves. */
  class RestaurantStore {
    var db: Db

    ghost predicate Valid()
      reads this
    {
      Schema(db)
    }

    /** An empty keyspace. */
    constructor ()
      ensures Valid() && db == map[]
    {
      db := map[];
    }

    /**
     * POST /: rejects a `name:location` the bloom filter reports as seen with
     * 409 and writes nothing; otherwise files the cuisines, stores the hash,
     * adds the id to the rating set with score 0 and records the string.
     */
    method CreateRestaurant(id: string, name: string, location: string, cuisines: seq<string>,
                            falsePositive: bool) returns (resp: Response<Fields>)
      requires Valid()
      modifies this
      ensures Valid()
      ensures var seen := BfExists(old(db), Bloom, BloomString(name, location), falsePositive);
        && (seen ==> resp == Failure(409, "Restaurant already exists") && db == old(db))
        && (!seen ==> resp == Success(RestaurantHash(id, name, location), "Added new restaurant")
                      && db == CreatedDb(old(db), id, name, location, cuisines))
    {
      if BfExists(db, Bloom, BloomString(name, location), falsePositive) {
        return Failure(409, "Restaurant already exists");
      }
      ghost var start := db;
      for i := 0 to |cuisines|
        invariant db == AddCuisines(start, id, cuisines[..i])
      {
        ghost var before := db;
        var cuisine := cuisines[i];
        SchemaHolds(db, Cuisines);
        SchemaHolds(db, Cuisine(cuisine));
        SchemaHolds(db, RestaurantCuisines(id));
        db := SAdd(db, Cuisines, cuisine);
        db := SAdd(db, Cuisine(cuisine), id);
        db := SAdd(db, RestaurantCuisines(id), cuisine);
        assert db == AddCuisine(before, id, cuisine);
        assert cuisines[..i + 1][..i] == cuisines[..i];
      }
      assert cuisines[..|cuisines|] == cuisines;
      db := StoreRestaurant(db, id, name, location);
      resp := Success(RestaurantHash(id, name, location), "Added new restaurant");
    }

    /**
     * POST /:restaurantId/reviews: pushes the new id on the head of the
     * restaurant's review list and stores the review's hash.
     */
    method AddReview(restaurantId: string, reviewId: string, body: Fields, timestamp: nat)
      returns (resp: Response<Fields>)
      requires Valid()
      modifies this
      ensures Valid()
      ensures Restaurant(restaurantId) !in old(db) ==> resp == Failure(404, RestaurantNotFound) && db == old(db)
      ensures Restaurant(restaurantId) in old(db) ==>
        var review := ReviewHash(reviewId, body, timestamp, restaurantId);
        && resp == Success(review, "Review Added")
        && db == ReviewAddedDb(old(db), restaurantId, reviewId, review)
    {
      if Restaurant(restaurantId) !in db {
        return Failure(404, RestaurantNotFound);
      }
      var review := ReviewHash(reviewId, body, timestamp, restaurantId);
      assert "timestamp" in review;
      ghost var start := db;
      SchemaHolds(db, Reviews(restaurantId));
      SchemaHolds(db, ReviewDetails(reviewId));
      db := LPush(db, Reviews(restaurantId), reviewId);
      db := HSet(db, ReviewDetails(reviewId), review);
      assert db == ReviewAddedDb(start, restaurantId, reviewId, review);
      resp := Success(review, "Review Added");
    }

    /**
     * GET /:restaurantId/reviews: the hashes of the ids on the requested
     * page (page 1 and 10 per page when left out), in list order; a missing
     * hash reads as an empty one.
     */
    method ListReviews(restaurantId: string, page: Option<int>, limit: Option<int>)
      returns (resp: Response<seq<Fields>>)
      requires page.Some? ==> page.value >= 1
      requires limit.Some? ==> limit.value >= 1
      ensures Restaurant(restaurantId) !in db ==> resp == Failure(404, RestaurantNotFound)
      ensures Restaurant(restaurantId) in db ==>
        var (p, l) := QueryOrDefaults(page, limit);
        var ids := Page(ListItems(db, Reviews(restaurantId)), p, l);
        && resp.Success? && resp.message == "success"
        && |resp.data| == |ids|
        && forall i :: 0 <= i < |ids| ==> resp.data[i] == HGetAll(db, ReviewDetails(ids[i]))
    {
      if Restaurant(restaurantId) !in db {
        return Failure(404, RestaurantNotFound);
      }
      var (p, l) := QueryOrDefaults(page, limit);
      var ids := Page(ListItems(db, Reviews(restaurantId)), p, l);
      var keyspace := db;
      var reviews := seq(|ids|, i requires 0 <= i < |ids| => HGetAll(keyspace, ReviewDetails(ids[i])));
      resp := Success(reviews, "success");
    }

    /**
     * DELETE /:restaurantId/reviews/:reviewId: removes every occurrence of
     * the id from the list and deletes the review's hash; 404 when neither
     * removed anything.
     */
    method DeleteReview(restaurantId: string, reviewId: string) returns (resp: Response<string>)
      requires Valid()
      modifies this
      ensures Valid()
      ensures Restaurant(restaurantId) !in old(db) ==> resp == Failure(404, RestaurantNotFound) && db == old(db)
      ensures Restaurant(restaurantId) in old(db) ==>
        var (after, found) := ReviewDeletedDb(old(db), restaurantId, reviewId);
        && db == after
        && (found ==> resp == Success(reviewId, "Review deleted"))
        && (!found ==> resp == Failure(404, "Review not found"))
    {
      if Restaurant(restaurantId) !in db {
        return Failure(404, RestaurantNotFound);
      }
      var (db1, removed) := LRemAll(db, Reviews(restaurantId), reviewId);
      db := db1;
      var (db2, deleted) := Del(db, ReviewDetails(reviewId));
      db := db2;
      if removed == 0 && deleted == 0 {
        return Failure(404, "Review not found");
      }
      resp := Success(reviewId, "Review deleted");
    }

    /**
     * GET /:restaurantId: increments the view counter and returns the hash,
     * counter included, with the restaurant's cuisines.
     */
    method ViewRestaurant(restaurantId: string) returns (resp: Response<RestaurantView>)
      requires Valid()
      modifies this
      ensures Valid()
      ensures Restaurant(restaurantId) !in old(db) ==> resp == Failure(404, RestaurantNotFound) && db == old(db)
      ensures Restaurant(restaurantId) in old(db) ==>
        && db == ViewedDb(old(db), restaurantId)
        && resp == Success(RestaurantView(HGetAll(db, Restaurant(restaurantId)),
                                          SMembers(db, RestaurantCuisines(restaurantId))), "success")
    {
      var key := Restaurant(restaurantId);
      if key !in db {
        return Failure(404, RestaurantNotFound);
      }
      assert CounterOk(key, db[key]);
      var (db1, count) := HIncrBy(db, key, ViewCountField, 1);
      db := db1;
      var restaurant := HGetAll(db, key);
      var cuisines := SMembers(db, RestaurantCuisines(restaurantId));
      resp := Success(RestaurantView(restaurant, cuisines), "success");
    }
  }
}
