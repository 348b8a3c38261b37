/**
 * The part of Redis that the restaurant handlers rely on, as pure
 * operations on one keyspace: each command takes the keyspace and gives the
 * keyspace after it (and its reply, when the handler reads the reply).
 *
 * Redis itself is not part of this repository; these are its documented
 * semantics for the commands the handlers issue. A command given a key of
 * the wrong type replies WRONGTYPE in Redis; here it requires the right type,
 * and the restaurant store's schema invariant guarantees it.
 */
module Redis {
  import opened Wrappers
  import opened Keys

  /** The fields of a hash, as Redis stores them: text to text. */
  type Fields = map<string, string>

  /** What a key can hold. The bloom filter is modelled by the set of items added to it. */
  datatype Value =
    | HashValue(fields: Fields)
    | SetValue(members: set<string>)
    | ListValue(items: seq<string>)
    | SortedSetValue(scores: map<string, int>)
    | BloomValue(added: set<string>)

  /**
   * The keyspace, indexed by the keys the application builds. `Keys.Name`
   * gives each its Redis name, and distinct keys have distinct names
   * (`Keys.NameInjective`), so this map is the string-keyed keyspace
   * restricted to those names.
   */
  type Db = map<Key, Value>

  datatype Kind = HashKind | SetKind | ListKind | SortedSetKind | BloomKind

  function KindOf(v: Value): Kind
  {
    match v
    case HashValue(_) => HashKind
    case SetValue(_) => SetKind
    case ListValue(_) => ListKind
    case SortedSetValue(_) => SortedSetKind
    case BloomValue(_) => BloomKind
  }

  /** Redis deletes a hash, set, list or sorted set once it is empty, so none is ever stored empty. */
  predicate NonEmpty(v: Value)
  {
    match v
    case HashValue(f) => f != map[]
    case SetValue(m) => m != {}
    case ListValue(s) => s != []
    case SortedSetValue(z) => z != map[]
    case BloomValue(_) => true
  }

  /** The key is absent or holds a value of `kind`: a command for `kind` will not reply WRONGTYPE. */
  predicate Holds(db: Db, key: Key, kind: Kind)
  {
    key !in db || KindOf(db[key]) == kind
  }

  // Reads. A missing key reads as an empty value, as in Redis.

  /** HGETALL */
  function HGetAll(db: Db, key: Key): Fields
  {
    if key in db && db[key].HashValue? then db[key].fields else map[]
  }

  /** SMEMBERS */
  function SMembers(db: Db, key: Key): set<string>
  {
    if key in db && db[key].SetValue? then db[key].members else {}
  }

  /** The whole list at `key` (LRANGE key 0 -1). */
  function ListItems(db: Db, key: Key): seq<string>
  {
    if key in db && db[key].ListValue? then db[key].items else []
  }

  /** The member-to-score map of a sorted set. */
  function ZScores(db: Db, key: Key): map<string, int>
  {
    if key in db && db[key].SortedSetValue? then db[key].scores else map[]
  }

  /** The items added to a bloom filter. */
  function BloomAdded(db: Db, key: Key): set<string>
  {
    if key in db && db[key].BloomValue? then db[key].added else {}
  }

  // Writes

  /** HSET: merges `fields` into the hash, later values winning. */
  function HSet(db: Db, key: Key, fields: Fields): Db
    requires Holds(db, key, HashKind)
  {
    db[key := HashValue(HGetAll(db, key) + fields)]
  }

  /** SADD of one member. */
  function SAdd(db: Db, key: Key, member: string): Db
    requires Holds(db, key, SetKind)
  {
    db[key := SetValue(SMembers(db, key) + {member})]
  }

  /** ZADD of one member with its score. */
  function ZAdd(db: Db, key: Key, member: string, score: int): Db
    requires Holds(db, key, SortedSetKind)
  {
    db[key := SortedSetValue(ZScores(db, key)[member := score])]
  }

  /** LPUSH of one element: it becomes the head of the list. */
  function LPush(db: Db, key: Key, element: string): Db
    requires Holds(db, key, ListKind)
  {
    db[key := ListValue([element] + ListItems(db, key))]
  }

  /** The list without any occurrence of `x`, the other elements in their order. */
  function RemoveAll(s: seq<string>, x: string): (r: seq<string>)
    ensures multiset(r) == multiset(s)[x := 0]
    ensures |r| == |s| - multiset(s)[x]
  {
    if s == [] then []
    else
      assert s == [s[0]] + s[1..];
      if s[0] == x then RemoveAll(s[1..], x)
      else [s[0]] + RemoveAll(s[1..], x)
  }

  /**
   * LREM key 0 x: removes every occurrence of `x` and replies how many it
   * removed; a list left empty is deleted.
   */
  function LRemAll(db: Db, key: Key, x: string): (Db, nat)
    requires Holds(db, key, ListKind)
  {
    var s := ListItems(db, key);
    var r := RemoveAll(s, x);
    if key !in db then (db, 0)
    else if r == [] then (db - {key}, |s|)
    else (db[key := ListValue(r)], |s| - |r|)
  }

  /** DEL of one key: replies 1 when the key existed, else 0. */
  function Del(db: Db, key: Key): (Db, nat)
  {
    (db - {key}, if key in db then 1 else 0)
  }

  /** BF.ADD: afterwards the filter reports the item as present. */
  function BfAdd(db: Db, key: Key, item: string): Db
    requires Holds(db, key, BloomKind)
  {
    db[key := BloomValue(BloomAdded(db, key) + {item})]
  }

  /**
   * BF.EXISTS. A bloom filter may report an item it never saw (a false
   * positive), never the reverse; `falsePositive` stands for the filter's
   * answer on an item that was not added. A missing filter reports nothing.
   */
  function BfExists(db: Db, key: Key, item: string, falsePositive: bool): (seen: bool)
    ensures item in BloomAdded(db, key) ==> seen
    ensures seen ==> key in db
  {
    key in db && (item in BloomAdded(db, key) || falsePositive)
  }

  // Integers inside hashes. Redis keeps a counter field as its decimal text.

  predicate IsDigit(c: char)
  {
    '0' <= c <= '9'
  }

  predicate AllDigits(s: string)
  {
    forall i :: 0 <= i < |s| ==> IsDigit(s[i])
  }

  /** The canonical decimal text of a natural number: digits only, no leading zero. */
  predicate IsNumeral(s: string)
  {
    |s| >= 1 && AllDigits(s) && (s[0] == '0' ==> |s| == 1)
  }

  function DigitChar(d: nat): (c: char)
    requires d < 10
    ensures IsDigit(c) && c as int - '0' as int == d
  {
    ('0' as int + d) as char
  }

  /** The number a string of digits denotes. */
  function DigitsValue(s: string): nat
    requires AllDigits(s)
  {
    if s == [] then 0 else DigitsValue(s[..|s| - 1]) * 10 + (s[|s| - 1] as int - '0' as int)
  }

  /** The decimal text of `n`, as Redis writes an integer into a hash field. */
  function Decimal(n: nat): (s: string)
    ensures IsNumeral(s)
    ensures DigitsValue(s) == n
  {
    if n < 10 then [DigitChar(n)]
    else
      var prefix := Decimal(n / 10);
      var s := prefix + [DigitChar(n % 10)];
      assert s[..|s| - 1] == prefix;
      s
  }

  /** Reads a counter field; None for text that is not a canonical decimal. */
  function ParseDecimal(s: string): (r: Option<nat>)
    ensures r.Some? <==> IsNumeral(s)
    ensures r.Some? ==> Decimal(r.value) == s
  {
    if IsNumeral(s) then NumeralRoundTrip(s); Some(DigitsValue(s)) else None
  }

  /** Every canonical numeral is the decimal text of the number it denotes. */
  lemma {:induction false} NumeralRoundTrip(s: string)
    requires IsNumeral(s)
    ensures Decimal(DigitsValue(s)) == s
    decreases |s|
  {
    if |s| > 1 {
      var prefix := s[..|s| - 1];
      assert IsNumeral(prefix);
      NumeralRoundTrip(prefix);
      var v := DigitsValue(prefix);
      assert v >= 1;
      var d := s[|s| - 1] as int - '0' as int;
      assert (v * 10 + d) / 10 == v && (v * 10 + d) % 10 == d;
      assert DigitChar(d) == s[|s| - 1];
      assert s == prefix + [s[|s| - 1]];
    } else {
      assert s[..|s| - 1] == [];
      assert DigitsValue(s) == s[0] as int - '0' as int;
      assert DigitChar(DigitsValue(s)) == s[0];
    }
  }

  /**
   * HINCRBY key field increment: adds `increment` to the counter field (a missing field or
   * key counts as 0), stores it as decimal text and replies the new value.
   * A field that does not hold an integer is an error in Redis; here it is
   * required not to happen.
   */
  function HIncrBy(db: Db, key: Key, field: string, increment: nat): (Db, nat)
    requires Holds(db, key, HashKind)
    requires field in HGetAll(db, key) ==> IsNumeral(HGetAll(db, key)[field])
  {
    var h := HGetAll(db, key);
    var n := (if field in h then DigitsValue(h[field]) else 0) + increment;
    (db[key := HashValue(h[field := Decimal(n)])], n)
  }
}
