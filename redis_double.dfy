/**
 * The in-memory Redis double of the backend tests
 * (backend/tests/backend.test.js, class FakeRedis): three JavaScript Maps,
 * `store` for plain values, `sets` for Redis sets and `lists` for Redis lists.
 */
module RedisDouble {
  import opened Wrappers
  import opened JsValues

  predicate NoDup(s: seq<string>) {
    forall i, j :: 0 <= i < j < |s| ==> s[i] != s[j]
  }

  /** `s` without `x`, the rest in order (Array.filter, Set.delete). */
  function Erase(s: seq<string>, x: string): (r: seq<string>)
    ensures forall y :: y in r <==> y in s && y != x
    ensures NoDup(s) ==> NoDup(r)
    ensures x !in s ==> r == s
  {
    if s == [] then []
    else if s[0] == x then Erase(s[1..], x)
    else
      var rest := Erase(s[1..], x);
      assert NoDup(s) ==> s[0] !in s[1..] && NoDup(s[1..]);
      [s[0]] + rest
  }

  /** Set.add: a JavaScript Set keeps its members in first-insertion order. */
  function AddMember(s: seq<string>, x: string): (r: seq<string>)
    ensures NoDup(s) ==> NoDup(r)
    ensures forall y :: y in r <==> y in s || y == x
  {
    if x in s then s else s + [x]
  }

  /** Whether `k` starts with `prefix` (String.startsWith). */
  predicate StartsWith(k: string, prefix: string) {
    |prefix| <= |k| && k[..|prefix|] == prefix
  }

  /** The keys of `ks` that start with `prefix`, in order. */
  function WithPrefix(ks: seq<string>, prefix: string): (r: seq<string>)
    ensures forall k :: k in r <==> k in ks && StartsWith(k, prefix)
  {
    if ks == [] then []
    else (if StartsWith(ks[0], prefix) then [ks[0]] else []) + WithPrefix(ks[1..], prefix)
  }

  /** Array.prototype.slice(from, to) on integer arguments. */
  function Slice(l: seq<string>, from: int, to: int): seq<string> {
    var n := |l|;
    var a := if from < 0 then (if n + from < 0 then 0 else n + from) else (if from > n then n else from);
    var b := if to < 0 then (if n + to < 0 then 0 else n + to) else (if to > n then n else to);
    if a < b then l[a..b] else []
  }

  /**
   * What lrange(key, start, stop) returns for list `l`: a stop of -1 means
   * "to the end"; otherwise both bounds are inclusive.
   */
  function Range(l: seq<string>, start: int, stop: int): (r: seq<string>)
    ensures 0 <= start <= |l| && stop == -1 ==> r == l[start..]
    ensures 0 <= start <= stop < |l| ==> r == l[start..stop + 1]
    ensures |r| <= |l|
  {
    var end := if stop == -1 then |l| - 1 else stop;
    Slice(l, start, end + 1)
  }

  /** getSet / getList: the collection under `key`, empty if there is none yet. */
  function SetAt(sets: map<string, seq<string>>, key: string): seq<string> {
    if key in sets then sets[key] else []
  }

  function ListAt(lists: map<string, seq<string>>, key: string): seq<string> {
    if key in lists then lists[key] else []
  }

  /**
   * What incr(key) computes from the current lookup: parseInt(get(key) || "0", 10) + 1.
   * A missing key, "" and 0 count as 0.
   */
  function IncrResult(cur: Option<Value>): Number {
    var text := if Present(cur) then ValueText(cur.value) else "0";
    Plus1(ParseInt10(text))
  }

  /**
   * incr counts up by one from a missing key, from the number the server
   * writes and from the text an earlier incr wrote.
   */
  lemma IncrCounts(cur: Option<Value>, n: int)
    ensures !Present(cur) ==> IncrResult(cur) == Finite(1)
    ensures cur == Some(Num(n)) ==> IncrResult(cur) == Finite(n + 1)
    ensures cur == Some(Str(NumberText(Finite(n)))) ==> IncrResult(cur) == Finite(n + 1)
  {
    ParseDecimalRoundTrip(0);
    ParseDecimalRoundTrip(n);
    assert DecimalString(0) == "0";
  }

  /** A counter whose text reads NaN stays NaN: incr yields NaN and writes "NaN" back. */
  lemma IncrNaNSticks()
    ensures IncrResult(Some(Str(NumberText(NaN)))) == NaN
    ensures NumberText(IncrResult(Some(Str(NumberText(NaN))))) == NumberText(NaN)
  {
    NaNStays();
  }

  /** Leading white space in a non-empty counter text does not change what incr computes. */
  lemma IncrSkipsSpace(c: char, s: string)
    requires IsSpace(c) && s != ""
    ensures IncrResult(Some(Str([c] + s))) == IncrResult(Some(Str(s)))
  {
    ParseSkipsSpace(c, s);
  }

  class FakeRedis {
    var store: map<string, Value>
    /** The insertion order of store's keys, which Map.keys() follows. */
    var storeOrder: seq<string>
    var sets: map<string, seq<string>>
    var lists: map<string, seq<string>>

    ghost predicate Valid()
      reads this
    {
      && (forall k :: k in store <==> k in storeOrder)
      && NoDup(storeOrder)
      && (forall k :: k in sets ==> NoDup(sets[k]))
    }

    constructor ()
      ensures Valid()
      ensures store == map[] && storeOrder == [] && sets == map[] && lists == map[]
    {
      store, storeOrder, sets, lists := map[], [], map[], map[];
    }

    /** get: the stored value, or null for an absent key. */
    method Get(key: string) returns (r: Option<Value>)
      ensures r.Some? <==> key in store
      ensures r.Some? ==> r.value == store[key]
    {
      r := if key in store then Some(store[key]) else None;
    }

    /** set: stores `value` under `key`; a new key goes to the end of the key order. */
    method Set(key: string, value: Value) returns (reply: string)
      requires Valid()
      modifies this
      ensures Valid()
      ensures store == old(store)[key := value]
      ensures storeOrder == if key in old(store) then old(storeOrder) else old(storeOrder) + [key]
      ensures sets == old(sets) && lists == old(lists)
      ensures reply == "OK"
    {
      if key !in store {
        storeOrder := storeOrder + [key];
      }
      store := store[key := value];
      reply := "OK";
    }

    /** del: drops `key` from all three maps; 1 if it was in `store`, else 0. */
    method Del(key: string) returns (n: int)
      requires Valid()
      modifies this
      ensures Valid()
      ensures n == if key in old(store) then 1 else 0
      ensures store == old(store) - {key} && storeOrder == Erase(old(storeOrder), key)
      ensures sets == old(sets) - {key} && lists == old(lists) - {key}
    {
      var had := key in store;
      store := store - {key};
      storeOrder := Erase(storeOrder, key);
      sets := sets - {key};
      lists := lists - {key};
      n := if had then 1 else 0;
    }

    /** incr: reads the counter as a number (missing = 0), stores String(old + 1), returns old + 1. */
    method Incr(key: string) returns (v: Number)
      requires Valid()
      modifies this
      ensures Valid()
      ensures v == IncrResult(if key in old(store) then Some(old(store)[key]) else None)
      ensures store == old(store)[key := Str(NumberText(v))]
      ensures storeOrder == if key in old(store) then old(storeOrder) else old(storeOrder) + [key]
      ensures sets == old(sets) && lists == old(lists)
    {
      var cur := Get(key);
      var text := if cur.Some? && Truthy(cur.value) then ValueText(cur.value) else "0";
      v := Plus1(ParseInt10(text));
      var _ := Set(key, Str(NumberText(v)));
    }

    /** sadd: adds `value` to the set under `key` (creating it); always replies 1. */
    method Sadd(key: string, value: string) returns (n: int)
      requires Valid()
      modifies this
      ensures Valid()
      ensures n == 1
      ensures sets == old(sets)[key := AddMember(SetAt(old(sets), key), value)]
      ensures store == old(store) && storeOrder == old(storeOrder) && lists == old(lists)
    {
      var s := SetAt(sets, key);
      sets := sets[key := AddMember(s, value)];
      n := 1;
    }

    /** srem: removes `value` from the set under `key` (creating it); 1 iff it was a member. */
    method Srem(key: string, value: string) returns (n: int)
      requires Valid()
      modifies this
      ensures Valid()
      ensures n == if value in SetAt(old(sets), key) then 1 else 0
      ensures sets == old(sets)[key := Erase(SetAt(old(sets), key), value)]
      ensures store == old(store) && storeOrder == old(storeOrder) && lists == old(lists)
    {
      var s := SetAt(sets, key);
      var had := value in s;
      sets := sets[key := Erase(s, value)];
      n := if had then 1 else 0;
    }

    /** smembers: the members in insertion order (an empty set is created for a new key). */
    method Smembers(key: string) returns (r: seq<string>)
      requires Valid()
      modifies this
      ensures Valid()
      ensures r == SetAt(old(sets), key) && NoDup(r)
      ensures sets == old(sets)[key := r]
      ensures store == old(store) && storeOrder == old(storeOrder) && lists == old(lists)
    {
      r := SetAt(sets, key);
      sets := sets[key := r];
    }

    /** keys: for "short:*" the store keys starting with "short:", otherwise every store key. */
    method Keys(pattern: string) returns (r: seq<string>)
      requires Valid()
      ensures pattern == "short:*" ==> forall k :: k in r <==> k in store && StartsWith(k, "short:")
      ensures pattern != "short:*" ==> forall k :: k in r <==> k in store
      ensures NoDup(r)
      ensures r == if pattern == "short:*" then WithPrefix(storeOrder, "short:") else storeOrder
    {
      if pattern == "short:*" {
        r := WithPrefix(storeOrder, "short:");
        WithPrefixNoDup(storeOrder, "short:");
      } else {
        r := storeOrder;
      }
    }

    /** lpush: puts `value` at the front of the list under `key`; replies with the new length. */
    method Lpush(key: string, value: string) returns (n: nat)
      requires Valid()
      modifies this
      ensures Valid()
      ensures lists == old(lists)[key := [value] + ListAt(old(lists), key)]
      ensures n == |lists[key]| == |ListAt(old(lists), key)| + 1
      ensures store == old(store) && storeOrder == old(storeOrder) && sets == old(sets)
    {
      var l := ListAt(lists, key);
      l := [value] + l;
      lists := lists[key := l];
      n := |l|;
    }

    /** lrange: the elements from `start` to `stop` inclusive (-1 = the last); creates an empty list for a new key. */
    method Lrange(key: string, start: int, stop: int) returns (r: seq<string>)
      requires Valid()
      modifies this
      ensures Valid()
      ensures r == Range(ListAt(old(lists), key), start, stop)
      ensures lists == old(lists)[key := ListAt(old(lists), key)]
      ensures store == old(store) && storeOrder == old(storeOrder) && sets == old(sets)
    {
      var l := ListAt(lists, key);
      lists := lists[key := l];
      var end := if stop == -1 then |l| - 1 else stop;
      r := Slice(l, start, end + 1);
    }
  }

  /** Filtering keeps a list free of repeats. */
  lemma {:induction false} WithPrefixNoDup(ks: seq<string>, prefix: string)
    requires NoDup(ks)
    ensures NoDup(WithPrefix(ks, prefix))
  {
    if ks != [] {
      WithPrefixNoDup(ks[1..], prefix);
      var rest := WithPrefix(ks[1..], prefix);
      assert ks[0] !in ks[1..];
      assert ks[0] !in rest;
    }
  }
}
