/**
 * Redis key naming (utils/keys.ts).
 *
 * Every key of the application is `redistraining:` followed by its
 * arguments joined with `:`. Each key constructor fixes the first argument,
 * the namespace segment, which decides what kind of value the key holds.
 */
module Keys {
  import opened Wrappers

  /** The separator placed between key segments. */
  const Separator := ':'

  /** The root segment that begins every key. */
  const Root := "redistraining"

  /** What every key begins with: the root segment and a separator. */
  const KeyPrefix := Root + [Separator]

  predicate IsPrefix(p: string, s: string)
  {
    |p| <= |s| && s[..|p|] == p
  }

  /** `args.join(":")`. */
  function Join(args: seq<string>): string
  {
    if |args| == 0 then ""
    else if |args| == 1 then args[0]
    else args[0] + [Separator] + Join(args[1..])
  }

  /** The text before the first separator, or all of `s` when it has none. */
  function Head(s: string): (h: string)
    ensures IsPrefix(h, s)
    ensures Separator !in h
    ensures |h| < |s| ==> s[|h|] == Separator
  {
    if s == [] || s[0] == Separator then [] else [s[0]] + Head(s[1..])
  }

  /** Cuts a string at every separator; the inverse of Join. */
  function Split(s: string): (parts: seq<string>)
    ensures |parts| >= 1
    ensures forall i :: 0 <= i < |parts| ==> Separator !in parts[i]
    decreases |s|
  {
    var h := Head(s);
    if |h| == |s| then [s] else [h] + Split(s[|h| + 1..])
  }

  /** True when no argument contains the separator. */
  predicate SeparatorFree(args: seq<string>)
  {
    forall i :: 0 <= i < |args| ==> Separator !in args[i]
  }

  lemma HeadOfSegment(a: string, rest: string)
    requires Separator !in a
    ensures Head(a) == a
    ensures Head(a + [Separator] + rest) == a
  {
    var s := a + [Separator] + rest;
    assert forall i :: 0 <= i < |a| ==> s[i] == a[i];
    assert s[|a|] == Separator;
    assert |Head(s)| == |a|;
    assert s[..|a|] == a;
  }

  /** Splitting a joined list of separator-free segments gives the segments back. */
  lemma {:induction false} SplitJoin(args: seq<string>)
    requires |args| >= 1 && SeparatorFree(args)
    ensures Split(Join(args)) == args
  {
    if |args| == 1 {
      HeadOfSegment(args[0], "");
    } else {
      var tail := Join(args[1..]);
      var s := args[0] + [Separator] + tail;
      HeadOfSegment(args[0], tail);
      assert s[|args[0]| + 1..] == tail;
      SplitJoin(args[1..]);
      assert args == [args[0]] + args[1..];
    }
  }

  /** Joining the parts of any string gives the string back. */
  lemma {:induction false} JoinSplit(s: string)
    ensures Join(Split(s)) == s
    decreases |s|
  {
    var h := Head(s);
    if |h| < |s| {
      var rest := s[|h| + 1..];
      JoinSplit(rest);
      var parts := Split(rest);
      assert Split(s) == [h] + parts;
      assert ([h] + parts)[1..] == parts;
      assert Join([h] + parts) == h + [Separator] + Join(parts);
      assert s == s[..|h|] + [s[|h|]] + rest;
    } else {
      assert h == s[..|h|] == s;
    }
  }

  /** `getKeyName(...args)`: the prefix followed by the joined arguments. */
  function GetKeyName(args: seq<string>): string
  {
    KeyPrefix + Join(args)
  }

  /** The arguments a key was built from, or None for a key outside the application. */
  function ParseKey(key: string): Option<seq<string>>
  {
    if IsPrefix(KeyPrefix, key) then Some(Split(key[|KeyPrefix|..])) else None
  }

  /** The namespace segment of a key: the first argument it was built from. */
  function NamespaceOf(key: string): Option<string>
  {
    if IsPrefix(KeyPrefix, key) then Some(Head(key[|KeyPrefix|..])) else None
  }

  /** Every key starts with `redistraining:` and its arguments follow, in order, separated by `:`. */
  lemma KeyNameRoundTrip(args: seq<string>)
    requires |args| >= 1 && SeparatorFree(args)
    ensures IsPrefix(KeyPrefix, GetKeyName(args))
    ensures ParseKey(GetKeyName(args)) == Some(args)
  {
    var key := GetKeyName(args);
    assert key[|KeyPrefix|..] == Join(args);
    SplitJoin(args);
  }

  /** Separator-free argument lists name distinct keys. */
  lemma KeyNameInjective(args1: seq<string>, args2: seq<string>)
    requires |args1| >= 1 && SeparatorFree(args1)
    requires |args2| >= 1 && SeparatorFree(args2)
    requires GetKeyName(args1) == GetKeyName(args2)
    ensures args1 == args2
  {
    KeyNameRoundTrip(args1);
    KeyNameRoundTrip(args2);
  }

  /** The namespace of a key is its first argument, whatever the later arguments hold. */
  lemma NamespaceOfKey(ns: string, rest: seq<string>)
    requires Separator !in ns
    ensures NamespaceOf(GetKeyName([ns] + rest)) == Some(ns)
  {
    var key := GetKeyName([ns] + rest);
    assert key[|KeyPrefix|..] == Join([ns] + rest);
    if |rest| == 0 {
      HeadOfSegment(ns, "");
    } else {
      assert ([ns] + rest)[1..] == rest;
      HeadOfSegment(ns, Join(rest));
    }
  }

  // Namespace segments

  const RestaurantsNs := "restaurants"
  const ReviewsNs := "reviews"
  const ReviewDetailsNs := "reviews_retails"
  const CuisinesNs := "cuisines"
  const CuisineNs := "cuisine"
  const RestaurantCuisinesNs := "restaurant_cuisines"
  const RestaurantsByRatingNs := "restaurants_by_rating"
  const WeatherNs := "weather"
  const RestaurantDetailsNs := "restaurant_details"
  const IndexNs := "idx"
  const BloomNs := "bloom_restaurants"

  // Per-id key constructors

  /** Hash of one restaurant. */
  function RestaurantKeyById(id: string): string
  {
    GetKeyName([RestaurantsNs, id])
  }

  /** List of the review ids of one restaurant. */
  function ReviewKeyById(id: string): string
  {
    GetKeyName([ReviewsNs, id])
  }

  /** Hash of one review (the source spells the namespace `reviews_retails`). */
  function ReviewDetailsKeyById(id: string): string
  {
    GetKeyName([ReviewDetailsNs, id])
  }

  /** Set of the ids of the restaurants serving one cuisine. */
  function CuisineKey(name: string): string
  {
    GetKeyName([CuisineNs, name])
  }

  /** Set of the cuisines of one restaurant. */
  function RestaurantCuisinesKeyById(id: string): string
  {
    GetKeyName([RestaurantCuisinesNs, id])
  }

  /** Cached weather of one restaurant. */
  function WeatherKeyById(id: string): string
  {
    GetKeyName([WeatherNs, id])
  }

  /** JSON details document of one restaurant. */
  function RestaurantDetailsKeyById(id: string): string
  {
    GetKeyName([RestaurantDetailsNs, id])
  }

  // Constant keys

  /** Set of every cuisine. */
  function CuisinesKey(): string
  {
    GetKeyName([CuisinesNs])
  }

  /** Sorted set of restaurant ids scored by rating. */
  function RestaurantsByRatingKey(): string
  {
    GetKeyName([RestaurantsByRatingNs])
  }

  /** Name of the full-text search index. */
  function IndexKey(): string
  {
    GetKeyName([IndexNs, RestaurantsNs])
  }

  /** Bloom filter of the `name:location` strings already created. */
  function BloomKey(): string
  {
    GetKeyName([BloomNs])
  }


  // Every key the application builds

  /** One constructor per key builder; `Name` gives the Redis key. */
  datatype Key =
    | Restaurant(id: string)
    | Reviews(id: string)
    | ReviewDetails(id: string)
    | Cuisines
    | Cuisine(name: string)
    | RestaurantCuisines(id: string)
    | RestaurantsByRating
    | Weather(id: string)
    | RestaurantDetails(id: string)
    | Index
    | Bloom

  /** The Redis key a builder gives. */
  function Name(k: Key): string
  {
    match k
    case Restaurant(id) => RestaurantKeyById(id)
    case Reviews(id) => ReviewKeyById(id)
    case ReviewDetails(id) => ReviewDetailsKeyById(id)
    case Cuisines => CuisinesKey()
    case Cuisine(name) => CuisineKey(name)
    case RestaurantCuisines(id) => RestaurantCuisinesKeyById(id)
    case RestaurantsByRating => RestaurantsByRatingKey()
    case Weather(id) => WeatherKeyById(id)
    case RestaurantDetails(id) => RestaurantDetailsKeyById(id)
    case Index => IndexKey()
    case Bloom => BloomKey()
  }

  /** The namespace segment a builder puts first. */
  function Namespace(k: Key): string
  {
    match k
    case Restaurant(_) => RestaurantsNs
    case Reviews(_) => ReviewsNs
    case ReviewDetails(_) => ReviewDetailsNs
    case Cuisines => CuisinesNs
    case Cuisine(_) => CuisineNs
    case RestaurantCuisines(_) => RestaurantCuisinesNs
    case RestaurantsByRating => RestaurantsByRatingNs
    case Weather(_) => WeatherNs
    case RestaurantDetails(_) => RestaurantDetailsNs
    case Index => IndexNs
    case Bloom => BloomNs
  }

  /** A key of namespace `ns` for `id` is `redistraining:<ns>:<id>`. */
  lemma KeyFormat(ns: string, id: string)
    ensures GetKeyName([ns, id]) == KeyPrefix + ns + [Separator] + id
  {
    assert [ns, id][1..] == [id];
    assert Join([ns, id]) == ns + [Separator] + id;
  }

  /** The format the code builds: `redistraining:restaurants:<id>`. */
  lemma RestaurantKeyFormat(id: string)
    ensures RestaurantKeyById(id) == "redistraining:restaurants:" + id
  {
    KeyFormat(RestaurantsNs, id);
  }

  // One lemma per constant key keeps each literal evaluation in a proof of its own.

  lemma CuisinesKeyNamespace()
    ensures NamespaceOf(CuisinesKey()) == Some(CuisinesNs)
  {
    NamespaceOfKey(CuisinesNs, []);
  }

  lemma RestaurantsByRatingKeyNamespace()
    ensures NamespaceOf(RestaurantsByRatingKey()) == Some(RestaurantsByRatingNs)
  {
    NamespaceOfKey(RestaurantsByRatingNs, []);
  }

  lemma IndexKeyNamespace()
    ensures NamespaceOf(IndexKey()) == Some(IndexNs)
  {
    NamespaceOfKey(IndexNs, [RestaurantsNs]);
  }

  lemma BloomKeyNamespace()
    ensures NamespaceOf(BloomKey()) == Some(BloomNs)
  {
    NamespaceOfKey(BloomNs, []);
  }

  /** The namespace of every key the application builds. */
  lemma KeyNamespaces(id: string)
    ensures NamespaceOf(RestaurantKeyById(id)) == Some(RestaurantsNs)
    ensures NamespaceOf(ReviewKeyById(id)) == Some(ReviewsNs)
    ensures NamespaceOf(ReviewDetailsKeyById(id)) == Some(ReviewDetailsNs)
    ensures NamespaceOf(CuisineKey(id)) == Some(CuisineNs)
    ensures NamespaceOf(RestaurantCuisinesKeyById(id)) == Some(RestaurantCuisinesNs)
    ensures NamespaceOf(WeatherKeyById(id)) == Some(WeatherNs)
    ensures NamespaceOf(RestaurantDetailsKeyById(id)) == Some(RestaurantDetailsNs)
    ensures NamespaceOf(CuisinesKey()) == Some(CuisinesNs)
    ensures NamespaceOf(RestaurantsByRatingKey()) == Some(RestaurantsByRatingNs)
    ensures NamespaceOf(IndexKey()) == Some(IndexNs)
    ensures NamespaceOf(BloomKey()) == Some(BloomNs)
  {
    NamespaceOfKey(RestaurantsNs, [id]);
    NamespaceOfKey(ReviewsNs, [id]);
    NamespaceOfKey(ReviewDetailsNs, [id]);
    NamespaceOfKey(CuisineNs, [id]);
    NamespaceOfKey(RestaurantCuisinesNs, [id]);
    NamespaceOfKey(WeatherNs, [id]);
    NamespaceOfKey(RestaurantDetailsNs, [id]);
    CuisinesKeyNamespace();
    RestaurantsByRatingKeyNamespace();
    IndexKeyNamespace();
    BloomKeyNamespace();
  }

  /** Each per-id constructor gives distinct ids distinct keys. */
  lemma ConstructorsInjective(a: string, b: string)
    ensures RestaurantKeyById(a) == RestaurantKeyById(b) ==> a == b
    ensures ReviewKeyById(a) == ReviewKeyById(b) ==> a == b
    ensures ReviewDetailsKeyById(a) == ReviewDetailsKeyById(b) ==> a == b
    ensures CuisineKey(a) == CuisineKey(b) ==> a == b
    ensures RestaurantCuisinesKeyById(a) == RestaurantCuisinesKeyById(b) ==> a == b
    ensures WeatherKeyById(a) == WeatherKeyById(b) ==> a == b
    ensures RestaurantDetailsKeyById(a) == RestaurantDetailsKeyById(b) ==> a == b
  {
    forall ns | ns in {RestaurantsNs, ReviewsNs, ReviewDetailsNs, CuisineNs,
                       RestaurantCuisinesNs, WeatherNs, RestaurantDetailsNs}
      ensures GetKeyName([ns, a]) == GetKeyName([ns, b]) ==> a == b
    {
      KeyFormat(ns, a);
      KeyFormat(ns, b);
      var p := KeyPrefix + ns + [Separator];
      assert a == (p + a)[|p|..];
      assert b == (p + b)[|p|..];
    }
  }

  /**
   * Keys of different namespaces never collide, for any ids: review lists
   * against review hashes, and restaurant hashes against the cuisine sets,
   * the details documents and the rating set.
   */
  lemma NamespacesNeverCollide(a: string, b: string)
    ensures ReviewKeyById(a) != ReviewDetailsKeyById(b)
    ensures RestaurantKeyById(a) != RestaurantCuisinesKeyById(b)
    ensures RestaurantKeyById(a) != RestaurantDetailsKeyById(b)
    ensures RestaurantKeyById(a) != RestaurantsByRatingKey()
    ensures RestaurantKeyById(a) != ReviewKeyById(b)
    ensures RestaurantKeyById(a) != ReviewDetailsKeyById(b)
    ensures CuisineKey(a) != RestaurantCuisinesKeyById(b)
    ensures CuisineKey(a) != CuisinesKey()
  {
    KeyNamespaces(a);
    KeyNamespaces(b);
  }

  /** One of the four constant keys. */
  predicate ConstantKey(key: string)
  {
    key == CuisinesKey() || key == RestaurantsByRatingKey() || key == IndexKey() || key == BloomKey()
  }

  /** The constant keys are pairwise distinct. */
  lemma ConstantKeysDistinct()
    ensures CuisinesKey() != RestaurantsByRatingKey() && CuisinesKey() != IndexKey() && CuisinesKey() != BloomKey()
    ensures RestaurantsByRatingKey() != IndexKey() && RestaurantsByRatingKey() != BloomKey() && IndexKey() != BloomKey()
  {
    CuisinesKeyNamespace();
    RestaurantsByRatingKeyNamespace();
    IndexKeyNamespace();
    BloomKeyNamespace();
  }

  /** No per-id key, whatever the id, equals one of the constant keys. */
  lemma ConstantKeysNotPerId(id: string)
    ensures !ConstantKey(RestaurantKeyById(id)) && !ConstantKey(ReviewKeyById(id))
    ensures !ConstantKey(ReviewDetailsKeyById(id)) && !ConstantKey(CuisineKey(id))
    ensures !ConstantKey(RestaurantCuisinesKeyById(id)) && !ConstantKey(WeatherKeyById(id))
    ensures !ConstantKey(RestaurantDetailsKeyById(id))
  {
    KeyNamespaces(id);
    NotConstantByNamespace(RestaurantKeyById(id));
    NotConstantByNamespace(ReviewKeyById(id));
    NotConstantByNamespace(ReviewDetailsKeyById(id));
    NotConstantByNamespace(CuisineKey(id));
    NotConstantByNamespace(RestaurantCuisinesKeyById(id));
    NotConstantByNamespace(WeatherKeyById(id));
    NotConstantByNamespace(RestaurantDetailsKeyById(id));
  }

  /** A key in one of the per-id namespaces is none of the constant keys. */
  lemma NotConstantByNamespace(key: string)
    requires NamespaceOf(key).Some?
    requires NamespaceOf(key).value in {RestaurantsNs, ReviewsNs, ReviewDetailsNs, CuisineNs,
                                        RestaurantCuisinesNs, WeatherNs, RestaurantDetailsNs}
    ensures !ConstantKey(key)
  {
    CuisinesKeyNamespace();
    RestaurantsByRatingKeyNamespace();
    IndexKeyNamespace();
    BloomKeyNamespace();
  }

  /**
   * The search index is declared over the prefix `getKeyName("restaurants")`,
   * which every restaurant hash key begins with. The rating set's key begins
   * with it too, since the match is on text; the cuisine and details keys do not.
   */
  lemma IndexPrefixCoversRestaurantKeys(id: string)
    ensures IsPrefix(GetKeyName([RestaurantsNs]), RestaurantKeyById(id))
    ensures IsPrefix(GetKeyName([RestaurantsNs]), RestaurantsByRatingKey())
    ensures !IsPrefix(GetKeyName([RestaurantsNs]), RestaurantCuisinesKeyById(id))
    ensures !IsPrefix(GetKeyName([RestaurantsNs]), RestaurantDetailsKeyById(id))
  {
    var p := GetKeyName([RestaurantsNs]);
    assert p == "redistraining:restaurants";
    assert RestaurantCuisinesKeyById(id)[24] == '_';
    assert RestaurantDetailsKeyById(id)[24] == '_';
  }

  /** The namespace of every key is the segment its builder puts first. */
  lemma NameNamespace(k: Key)
    ensures NamespaceOf(Name(k)) == Some(Namespace(k))
  {
    match k
    case Cuisines => CuisinesKeyNamespace();
    case RestaurantsByRating => RestaurantsByRatingKeyNamespace();
    case Index => IndexKeyNamespace();
    case Bloom => BloomKeyNamespace();
    case Cuisine(name) => NamespaceOfKey(CuisineNs, [name]);
    case _ => NamespaceOfKey(Namespace(k), [k.id]);
  }

  /** Distinct keys have distinct Redis names, whatever text their ids hold. */
  lemma NameInjective(k1: Key, k2: Key)
    requires Name(k1) == Name(k2)
    ensures k1 == k2
  {
    NameNamespace(k1);
    NameNamespace(k2);
    assert Namespace(k1) == Namespace(k2);
    match k1
    case Cuisines => assert k2.Cuisines?;
    case RestaurantsByRating => assert k2.RestaurantsByRating?;
    case Index => assert k2.Index?;
    case Bloom => assert k2.Bloom?;
    case Cuisine(a) => assert k2.Cuisine?; ConstructorsInjective(a, k2.name);
    case Restaurant(a) => assert k2.Restaurant?; ConstructorsInjective(a, k2.id);
    case Reviews(a) => assert k2.Reviews?; ConstructorsInjective(a, k2.id);
    case ReviewDetails(a) => assert k2.ReviewDetails?; ConstructorsInjective(a, k2.id);
    case RestaurantCuisines(a) => assert k2.RestaurantCuisines?; ConstructorsInjective(a, k2.id);
    case Weather(a) => assert k2.Weather?; ConstructorsInjective(a, k2.id);
    case RestaurantDetails(a) => assert k2.RestaurantDetails?; ConstructorsInjective(a, k2.id);
  }
}
