/** The LRU cache of model/lru.go as a value, beside the cache it is meant to be: one that throws
    everything away at once when it is purged. */
module Lru {
  import opened Common

  /** An entry of the recency list; `expireAt` is in seconds, zero or less means never. */
  datatype Entry<+K, +V> = Entry(key: K, value: V, expireAt: int, generation: nat)

  /** The most recently used entry comes first. Purging only bumps the generation. */
  datatype Lazy<K, V> = Lazy(size: int, list: seq<Entry<K, V>>, generation: nat, len: int)

  predicate Expired<K, V>(e: Entry<K, V>, now: int) {
    e.expireAt > 0 && now > e.expireAt
  }

  function Deadline(secs: int, now: int): int {
    if secs > 0 then now + secs else secs
  }

  /** The place of key `k`, or the length of the list. */
  function Find<K(==), V>(list: seq<Entry<K, V>>, k: K): (i: nat)
    ensures i <= |list|
    ensures i < |list| ==> list[i].key == k
    ensures forall j | 0 <= j < i :: list[j].key != k
  {
    if list == [] || list[0].key == k then 0 else 1 + Find(list[1..], k)
  }

  function Cut<T>(s: seq<T>, i: nat): (r: seq<T>)
    requires i < |s|
    ensures |r| == |s| - 1
    ensures forall j | 0 <= j < i :: r[j] == s[j]
    ensures forall j | i <= j < |r| :: r[j] == s[j + 1]
  {
    s[..i] + s[i + 1..]
  }

  // ----- operations -----

  datatype Op<K, V> =
    | Add(k: K, v: V, secs: int, now: int)
    | Get(k: K, now: int)
    | Remove(k: K)
    | Purge

  function AddTo<K(==), V>(c: Lazy<K, V>, k: K, v: V, at: int): Lazy<K, V> {
    var i := Find(c.list, k);
    var e := Entry(k, v, at, c.generation);
    if i < |c.list| then
      c.(list := [e] + Cut(c.list, i), len := if c.list[i].generation != c.generation then c.len + 1 else c.len)
    else
      var c1 := c.(list := [e] + c.list, len := c.len + 1);
      if |c1.list| > c.size then CutFrom(c1, |c1.list| - 1) else c1
  }

  /** removeElement */
  function CutFrom<K, V>(c: Lazy<K, V>, i: nat): Lazy<K, V>
    requires i < |c.list|
  {
    c.(list := Cut(c.list, i), len := if c.list[i].generation == c.generation then c.len - 1 else c.len)
  }

  function GetFrom<K(==), V>(c: Lazy<K, V>, k: K, now: int): (Lazy<K, V>, Option<V>) {
    var i := Find(c.list, k);
    if i == |c.list| then (c, None)
    else if c.list[i].generation != c.generation || Expired(c.list[i], now) then (CutFrom(c, i), None)
    else (c.(list := [c.list[i]] + Cut(c.list, i)), Some(c.list[i].value))
  }

  function RemoveFrom<K(==), V>(c: Lazy<K, V>, k: K): Lazy<K, V> {
    var i := Find(c.list, k);
    if i == |c.list| then c else CutFrom(c, i)
  }

  function PurgeAll<K, V>(c: Lazy<K, V>): Lazy<K, V> {
    c.(len := 0, generation := c.generation + 1)
  }

  /** The current entries among `list`, most recent first. */
  function Live<K, V>(list: seq<Entry<K, V>>, g: nat): seq<Entry<K, V>> {
    if list == [] then []
    else if list[0].generation == g then [list[0]] + Live(list[1..], g)
    else Live(list[1..], g)
  }

  /** The keys of a list from oldest to newest. */
  function OldestFirst<K, V>(list: seq<Entry<K, V>>): (keys: seq<K>)
    ensures |keys| == |list|
    ensures forall i | 0 <= i < |keys| :: keys[i] == list[|list| - 1 - i].key
  {
    if list == [] then [] else OldestFirst(list[1..]) + [list[0].key]
  }

  function Step<K(==), V>(c: Lazy<K, V>, op: Op<K, V>): (Lazy<K, V>, Option<V>) {
    match op
    case Add(k, v, secs, now) => (AddTo(c, k, v, Deadline(secs, now)), None)
    case Get(k, now) => GetFrom(c, k, now)
    case Remove(k) => (RemoveFrom(c, k), None)
    case Purge => (PurgeAll(c), None)
  }

  function New<K, V>(size: int): Lazy<K, V> {
    Lazy(size, [], 0, 0)
  }

  // ----- the cache that clears eagerly -----

  datatype Item<K, V> = Item(key: K, value: V, expireAt: int)

  /** Most recently used first; never more than `size` items; a purge empties it. */
  datatype Eager<K, V> = Eager(size: int, list: seq<Item<K, V>>)

  function Place<K(==), V>(list: seq<Item<K, V>>, k: K): (i: nat)
    ensures i <= |list|
    ensures i < |list| ==> list[i].key == k
    ensures forall j | 0 <= j < i :: list[j].key != k
  {
    if list == [] || list[0].key == k then 0 else 1 + Place(list[1..], k)
  }

  /** The list without key `k`. */
  function Others<K(==), V>(list: seq<Item<K, V>>, k: K): seq<Item<K, V>> {
    var i := Place(list, k);
    if i < |list| then Cut(list, i) else list
  }

  function First<T>(s: seq<T>, size: int): seq<T> {
    if size <= 0 then [] else if size < |s| then s[..size] else s
  }

  function EagerStep<K(==), V>(c: Eager<K, V>, op: Op<K, V>): (Eager<K, V>, Option<V>) {
    match op
    case Add(k, v, secs, now) =>
      (c.(list := First([Item(k, v, Deadline(secs, now))] + Others(c.list, k), c.size)), None)
    case Get(k, now) =>
      var i := Place(c.list, k);
      if i == |c.list| then (c, None)
      else if c.list[i].expireAt > 0 && now > c.list[i].expireAt then (c.(list := Others(c.list, k)), None)
      else (c.(list := [c.list[i]] + Others(c.list, k)), Some(c.list[i].value))
    case Remove(k) => (c.(list := Others(c.list, k)), None)
    case Purge => (c.(list := []), None)
  }

  // ----- the representation invariant -----

  function Capacity(size: int): nat {
    if size < 0 then 0 else size
  }

  predicate Distinct<K(==), V>(list: seq<Entry<K, V>>) {
    forall i, j | 0 <= i < j < |list| :: list[i].key != list[j].key
  }

  /** Keys are distinct, the list is within its size, no generation is from the future, and `len` counts
      the current entries, which all come before the stale ones. */
  predicate Sane<K(==), V>(c: Lazy<K, V>) {
    && Distinct(c.list)
    && |c.list| <= Capacity(c.size)
    && 0 <= c.len <= |c.list|
    && (forall i | 0 <= i < c.len :: c.list[i].generation == c.generation)
    && (forall i | c.len <= i < |c.list| :: c.list[i].generation < c.generation)
  }

  function ItemOf<K, V>(e: Entry<K, V>): Item<K, V> {
    Item(e.key, e.value, e.expireAt)
  }

  /** The eager cache that a lazy one stands for. */
  function View<K(==), V>(c: Lazy<K, V>): Eager<K, V>
    requires Sane(c)
  {
    Eager(c.size, seq(c.len, i requires 0 <= i < c.len => ItemOf(c.list[i])))
  }

  /** A key's place in the eager cache is its place in the lazy one, unless it is stale there. */
  lemma SamePlace<K, V>(c: Lazy<K, V>, k: K)
    requires Sane(c)
    ensures Place(View(c).list, k) == if Find(c.list, k) < c.len then Find(c.list, k) else c.len
  {
    var l := View(c).list;
    var i, j := Find(c.list, k), Place(l, k);
    if i < c.len {
      assert l[i].key == k;
    }
  }

  lemma CutRefines<K, V>(c: Lazy<K, V>, i: nat)
    requires Sane(c) && i < |c.list|
    ensures Sane(CutFrom(c, i))
    ensures View(CutFrom(c, i)).list == if i < c.len then Cut(View(c).list, i) else View(c).list
  {}

  /** Put a current entry in front. */
  function Push<K, V>(c: Lazy<K, V>, e: Entry<K, V>): Lazy<K, V> {
    c.(list := [e] + c.list, len := c.len + 1)
  }

  lemma PushRefines<K, V>(c: Lazy<K, V>, e: Entry<K, V>)
    requires Sane(c) && Find(c.list, e.key) == |c.list| < Capacity(c.size) && e.generation == c.generation
    ensures Sane(Push(c, e))
    ensures View(Push(c, e)).list == [ItemOf(e)] + View(c).list
  {}

  /** Taking an entry out and putting one with its key in front. */
  lemma ToFront<K, V>(c: Lazy<K, V>, i: nat, e: Entry<K, V>)
    requires Sane(c) && i < |c.list| && c.list[i].key == e.key && e.generation == c.generation
    ensures Sane(Push(CutFrom(c, i), e))
    ensures View(Push(CutFrom(c, i), e)).list
         == [ItemOf(e)] + if i < c.len then Cut(View(c).list, i) else View(c).list
  {
    hide Sane, View;
    CutRefines(c, i);
    CutOut(c, i);
    PushRefines(CutFrom(c, i), e);
  }

  lemma CutOut<K, V>(c: Lazy<K, V>, i: nat)
    requires Sane(c) && i < |c.list|
    ensures Find(CutFrom(c, i).list, c.list[i].key) == |c.list| - 1 < Capacity(c.size)
  {}

  /** A new entry that pushes the oldest one out; a current entry goes only if none is stale. */
  lemma EvictRefines<K, V>(c: Lazy<K, V>, e: Entry<K, V>)
    requires Sane(c) && Find(c.list, e.key) == |c.list| == Capacity(c.size) && e.generation == c.generation
    requires c.list != []
    ensures AddTo(c, e.key, e.value, e.expireAt) == Push(CutFrom(c, |c.list| - 1), e)
    ensures Sane(Push(CutFrom(c, |c.list| - 1), e))
    ensures View(Push(CutFrom(c, |c.list| - 1), e)).list == First([ItemOf(e)] + View(c).list, c.size)
  {
    var n := |c.list|;
    CutRefines(c, n - 1);
    PushRefines(CutFrom(c, n - 1), e);
  }

  lemma AddRefines<K, V>(c: Lazy<K, V>, k: K, v: V, at: int)
    requires Sane(c)
    ensures Sane(AddTo(c, k, v, at))
    ensures View(AddTo(c, k, v, at)).list == First([Item(k, v, at)] + Others(View(c).list, k), c.size)
  {
    SamePlace(c, k);
    var i, n := Find(c.list, k), |c.list|;
    var e := Entry(k, v, at, c.generation);
    if i < n {
      ToFront(c, i, e);
      assert AddTo(c, k, v, at) == Push(CutFrom(c, i), e);
    } else if n < Capacity(c.size) {
      PushRefines(c, e);
    } else if n > 0 {
      hide Sane, View, AddTo;
      EvictRefines(c, e);
    }
  }

  lemma GetRefines<K, V>(c: Lazy<K, V>, k: K, now: int)
    requires Sane(c)
    ensures Sane(GetFrom(c, k, now).0)
    ensures (View(GetFrom(c, k, now).0), GetFrom(c, k, now).1) == EagerStep(View(c), Get(k, now))
  {
    SamePlace(c, k);
    var i := Find(c.list, k);
    if i < |c.list| {
      CutRefines(c, i);
      if i < c.len {
        ToFront(c, i, c.list[i]);
        assert c.(list := [c.list[i]] + Cut(c.list, i)) == Push(CutFrom(c, i), c.list[i]);
      }
    }
  }

  lemma RemoveRefines<K, V>(c: Lazy<K, V>, k: K)
    requires Sane(c)
    ensures Sane(RemoveFrom(c, k))
    ensures View(RemoveFrom(c, k)).list == Others(View(c).list, k)
  {
    SamePlace(c, k);
    if Find(c.list, k) < |c.list| {
      CutRefines(c, Find(c.list, k));
    }
  }

  lemma PurgeRefines<K, V>(c: Lazy<K, V>)
    requires Sane(c)
    ensures Sane(PurgeAll(c)) && View(PurgeAll(c)) == View(c).(list := [])
  {}

  /** Each operation of the lazy cache keeps the invariant and does what the eager cache does. */
  lemma StepRefines<K, V>(c: Lazy<K, V>, op: Op<K, V>)
    requires Sane(c)
    ensures Sane(Step(c, op).0)
    ensures (View(Step(c, op).0), Step(c, op).1) == EagerStep(View(c), op)
  {
    match op
    case Add(k, v, secs, now) => AddRefines(c, k, v, Deadline(secs, now));
    case Get(k, now) => GetRefines(c, k, now);
    case Remove(k) => RemoveRefines(c, k);
    case Purge => PurgeRefines(c);
  }
}
