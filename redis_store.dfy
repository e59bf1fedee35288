/**
 * The Redis server the services share, as a key-value store with four kinds
 * of value: strings, hashes, sets and lists. `Db` is the store's state as a
 * value and its member functions are the commands; `Store` is the connection
 * object whose methods apply a command to the state it holds.
 * Expiry (TTL) is not modelled: a key written with an expiry is simply set.
 */
module Redis {
  import opened Wrappers

  datatype Db = Db(
    strings: map<string, string>,
    hashes: map<string, map<string, string>>,
    sets: map<string, set<string>>,
    lists: map<string, seq<string>>)
  {
    /** `EXISTS key`. */
    predicate Exists(k: string) {
      k in strings || k in hashes || k in sets || k in lists
    }

    /** `GET key`. */
    function Get(k: string): (r: Option<string>)
      ensures r.Some? <==> k in strings
    {
      if k in strings then Some(strings[k]) else None
    }

    /** `DEL key`: the key disappears whatever its kind. */
    function Del(k: string): (r: Db)
      ensures !r.Exists(k)
    {
      Db(strings - {k}, hashes - {k}, sets - {k}, lists - {k})
    }

    /** `SET key value` (also `SETEX`): replaces whatever the key held. */
    function Set(k: string, v: string): (r: Db)
      ensures r.Get(k) == Some(v)
      ensures k !in r.hashes && k !in r.sets && k !in r.lists
    {
      Db(strings[k := v], hashes - {k}, sets - {k}, lists - {k})
    }

    /** `HGETALL key`: the empty hash when the key is missing. */
    function HGetAll(k: string): map<string, string> {
      if k in hashes then hashes[k] else map[]
    }

    /** `HSET key mapping`: fields in `m` are written, other fields are kept. */
    function HSet(k: string, m: map<string, string>): (r: Db)
      ensures r.HGetAll(k) == HGetAll(k) + m
    {
      this.(hashes := hashes[k := HGetAll(k) + m])
    }

    /** `SMEMBERS key`. */
    function Members(k: string): set<string> {
      if k in sets then sets[k] else {}
    }

    /** `SADD key member`. */
    function SAdd(k: string, m: string): (r: Db)
      ensures r.Members(k) == Members(k) + {m}
    {
      this.(sets := sets[k := Members(k) + {m}])
    }

    /** `SREM key member`: a set left empty is removed, as Redis does. */
    function SRem(k: string, m: string): (r: Db)
      ensures r.Members(k) == Members(k) - {m}
    {
      var s := Members(k) - {m};
      if s == {} then this.(sets := sets - {k}) else this.(sets := sets[k := s])
    }

    /** `LRANGE key 0 -1`: the whole list, head first. */
    function List(k: string): seq<string> {
      if k in lists then lists[k] else []
    }

    /** Replace a list, dropping the key when the list becomes empty. */
    function PutList(k: string, xs: seq<string>): (r: Db)
      ensures r.List(k) == xs
    {
      if xs == [] then this.(lists := lists - {k}) else this.(lists := lists[k := xs])
    }

    /** `LPUSH key value`: the value becomes the head. */
    function LPush(k: string, v: string): (r: Db)
      ensures r.List(k) == [v] + List(k)
    {
      PutList(k, [v] + List(k))
    }

    /** `RPOP key` (the element `BRPOP` hands out): the tail, if any. */
    function RPop(k: string): (r: (Option<string>, Db))
      ensures List(k) == [] ==> r.0 == None && r.1 == this
      ensures List(k) != [] ==>
                r.0 == Some(List(k)[|List(k)| - 1]) && List(k) == r.1.List(k) + [r.0.value]
    {
      var xs := List(k);
      if xs == [] then (None, this) else (Some(xs[|xs| - 1]), PutList(k, xs[..|xs| - 1]))
    }
  }

  const Empty := Db(map[], map[], map[], map[])

  /** `DEL` leaves every other key as it was. */
  lemma DelKeepsOthers(db: Db, k: string, j: string)
    requires j != k
    ensures db.Del(k).Exists(j) == db.Exists(j)
    ensures db.Del(k).Get(j) == db.Get(j) && db.Del(k).HGetAll(j) == db.HGetAll(j)
    ensures db.Del(k).Members(j) == db.Members(j) && db.Del(k).List(j) == db.List(j)
  {
  }

  /** `SET` replaces the key's value of any kind and leaves other keys as they were. */
  lemma SetKeepsOthers(db: Db, k: string, v: string, j: string)
    requires j != k
    ensures db.Set(k, v).Get(j) == db.Get(j) && db.Set(k, v).HGetAll(j) == db.HGetAll(j)
    ensures db.Set(k, v).Members(j) == db.Members(j) && db.Set(k, v).List(j) == db.List(j)
  {
  }

  /** `HSET` writes exactly the given fields: new fields appear, the others keep their values. */
  lemma HSetFields(db: Db, k: string, m: map<string, string>)
    ensures db.HSet(k, m).HGetAll(k).Keys == db.HGetAll(k).Keys + m.Keys
    ensures forall f :: f in m ==> db.HSet(k, m).HGetAll(k)[f] == m[f]
    ensures forall f :: f in db.HGetAll(k) && f !in m ==> db.HSet(k, m).HGetAll(k)[f] == db.HGetAll(k)[f]
  {
  }

  /**
   * The position a Redis list index denotes: negative indexes count from
   * the tail, and the index is valid iff -len <= i < len.
   */
  function Position(len: nat, i: int): (p: Option<nat>)
    ensures p.Some? <==> -(len as int) <= i < len
    ensures p.Some? ==> p.value < len && (p.value == i || p.value == len + i)
  {
    if 0 <= i < len then Some(i) else if -(len as int) <= i < 0 then Some(len + i) else None
  }

  /** `LRANGE key i i`: the one element at index `i`, or the empty list. */
  function LRangeOne(xs: seq<string>, i: int): (r: seq<string>)
    ensures |r| <= 1
    ensures r != [] <==> -|xs| <= i < |xs|
  {
    match Position(|xs|, i)
    case Some(p) => [xs[p]]
    case None => []
  }

  /**
   * `LRANGE key start stop`: negative indexes count from the tail, a start
   * before the head is read as 0, a stop past the tail as the last element,
   * and a range that ends before it starts is empty.
   */
  function LRangeOf(xs: seq<string>, start: int, stop: int): (r: seq<string>)
    ensures |r| <= |xs|
  {
    var n := |xs|;
    var s := if start >= 0 then start else if n + start >= 0 then n + start else 0;
    var e := if stop >= 0 then stop else n + stop;
    var e' := if e >= n then n - 1 else e;
    if s > e' then [] else xs[s..e' + 1]
  }

  /**
   * `LRANGE key 0 (limit - 1)`: the first `limit` elements for a positive
   * limit; the whole list for 0; all but the last `-limit` for a negative one.
   */
  lemma LRangeOfHead(xs: seq<string>, limit: int)
    ensures limit > 0 ==> LRangeOf(xs, 0, limit - 1) == xs[..if limit < |xs| then limit else |xs|]
    ensures limit == 0 ==> LRangeOf(xs, 0, limit - 1) == xs
    ensures limit < 0 ==> LRangeOf(xs, 0, limit - 1) == xs[..if |xs| + limit > 0 then |xs| + limit else 0]
  {
    assert xs[0..|xs|] == xs;
  }

  /** `LSET key i v`: `None` stands for Redis's "index out of range" error. */
  function LSet(xs: seq<string>, i: int, v: string): (r: Option<seq<string>>)
    ensures r.Some? <==> -|xs| <= i < |xs|
    ensures r.Some? ==> |r.value| == |xs|
  {
    match Position(|xs|, i)
    case Some(p) => Some(xs[p := v])
    case None => None
  }

  /** `LREM key 1 v`: removes the first occurrence of `v` counted from the head. */
  function LRemFirst(xs: seq<string>, v: string): (r: seq<string>)
    ensures v in xs ==> |r| == |xs| - 1
    ensures v !in xs ==> r == xs
  {
    if xs == [] then []
    else if xs[0] == v then xs[1..]
    else [xs[0]] + LRemFirst(xs[1..], v)
  }

  /** `LREM key 1 v` removes exactly the element at the first position holding `v`. */
  lemma {:induction false} LRemFirstAt(xs: seq<string>, v: string, p: nat)
    requires p < |xs| && xs[p] == v && v !in xs[..p]
    ensures LRemFirst(xs, v) == xs[..p] + xs[p + 1..]
    decreases p
  {
    if p > 0 {
      assert xs[1..][..p - 1] == xs[1..p];
      assert v !in xs[1..][..p - 1];
      LRemFirstAt(xs[1..], v, p - 1);
      assert xs[..p] == [xs[0]] + xs[1..][..p - 1];
    }
  }

  /** A Redis connection: the state it reaches, updated command by command. */
  class Store {
    var strings: map<string, string>
    var hashes: map<string, map<string, string>>
    var sets: map<string, set<string>>
    var lists: map<string, seq<string>>

    function Snapshot(): Db
      reads this
    {
      Db(strings, hashes, sets, lists)
    }

    constructor (init: Db)
      ensures Snapshot() == init
    {
      strings, hashes, sets, lists := init.strings, init.hashes, init.sets, init.lists;
    }

    method Load(d: Db)
      modifies this
      ensures Snapshot() == d
    {
      strings, hashes, sets, lists := d.strings, d.hashes, d.sets, d.lists;
    }

    method Exists(k: string) returns (b: bool)
      ensures b == Snapshot().Exists(k)
    {
      b := k in strings || k in hashes || k in sets || k in lists;
    }

    method Get(k: string) returns (r: Option<string>)
      ensures r == Snapshot().Get(k)
    {
      r := if k in strings then Some(strings[k]) else None;
    }

    method Set(k: string, v: string)
      modifies this
      ensures Snapshot() == old(Snapshot()).Set(k, v)
    {
      Load(Snapshot().Set(k, v));
    }

    method Del(k: string)
      modifies this
      ensures Snapshot() == old(Snapshot()).Del(k)
    {
      Load(Snapshot().Del(k));
    }

    method HGetAll(k: string) returns (m: map<string, string>)
      ensures m == Snapshot().HGetAll(k)
    {
      m := if k in hashes then hashes[k] else map[];
    }

    method HSet(k: string, m: map<string, string>)
      modifies this
      ensures Snapshot() == old(Snapshot()).HSet(k, m)
    {
      Load(Snapshot().HSet(k, m));
    }

    method SAdd(k: string, m: string)
      modifies this
      ensures Snapshot() == old(Snapshot()).SAdd(k, m)
    {
      Load(Snapshot().SAdd(k, m));
    }

    method SRem(k: string, m: string)
      modifies this
      ensures Snapshot() == old(Snapshot()).SRem(k, m)
    {
      Load(Snapshot().SRem(k, m));
    }

    method SCard(k: string) returns (n: nat)
      ensures n == |Snapshot().Members(k)|
    {
      n := |if k in sets then sets[k] else {}|;
    }

    method LPush(k: string, v: string)
      modifies this
      ensures Snapshot() == old(Snapshot()).LPush(k, v)
    {
      Load(Snapshot().LPush(k, v));
    }

    method RPop(k: string) returns (r: Option<string>)
      modifies this
      ensures (r, Snapshot()) == old(Snapshot()).RPop(k)
    {
      var p := Snapshot().RPop(k);
      r := p.0;
      Load(p.1);
    }

    method LRange(k: string) returns (xs: seq<string>)
      ensures xs == Snapshot().List(k)
    {
      xs := if k in lists then lists[k] else [];
    }

    /** `LRANGE key start stop`. */
    method LRangeSlice(k: string, start: int, stop: int) returns (xs: seq<string>)
      ensures xs == LRangeOf(Snapshot().List(k), start, stop)
    {
      xs := LRangeOf(if k in lists then lists[k] else [], start, stop);
    }

    /** `LLEN key`. */
    method LLen(k: string) returns (n: nat)
      ensures n == |Snapshot().List(k)|
    {
      n := |if k in lists then lists[k] else []|;
    }

    /** `LRANGE key i i`. */
    method LRangeAt(k: string, i: int) returns (xs: seq<string>)
      ensures xs == LRangeOne(Snapshot().List(k), i)
    {
      xs := LRangeOne(if k in lists then lists[k] else [], i);
    }

    /** `LSET key i v`; `ok` is false where Redis answers with an error and nothing changes. */
    method LSetAt(k: string, i: int, v: string) returns (ok: bool)
      modifies this
      ensures var r := LSet(old(Snapshot()).List(k), i, v);
              ok == r.Some? && Snapshot() == if ok then old(Snapshot()).PutList(k, r.value) else old(Snapshot())
    {
      var r := LSet(Snapshot().List(k), i, v);
      ok := r.Some?;
      if ok {
        Load(Snapshot().PutList(k, r.value));
      }
    }

    /** `LREM key 1 v`. */
    method LRem(k: string, v: string)
      modifies this
      ensures Snapshot() == old(Snapshot()).PutList(k, LRemFirst(old(Snapshot()).List(k), v))
    {
      Load(Snapshot().PutList(k, LRemFirst(Snapshot().List(k), v)));
    }
  }
}
