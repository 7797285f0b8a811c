/** The Cache object of model/lru.go: a map and a recency list over shared, mutable entries. */
module LruObject {
  import opened Common
  import opened Lru
  import opened LruTheorems

  /** A list element with the entry it holds. */
  class Element<K, V> {
    const key: K
    var value: V
    var expireAtSecs: int
    var generation: nat

    constructor (key: K, value: V, expireAtSecs: int, generation: nat)
      ensures this.key == key && this.value == value
      ensures this.expireAtSecs == expireAtSecs && this.generation == generation
    {
      this.key, this.value, this.expireAtSecs, this.generation := key, value, expireAtSecs, generation;
    }

    ghost function Entry(): Lru.Entry<K, V>
      reads this
    {
      Lru.Entry(key, value, expireAtSecs, generation)
    }
  }

  ghost function Entries<K, V>(s: seq<Element<K, V>>): (r: seq<Entry<K, V>>)
    reads s
    ensures |r| == |s|
    ensures forall i | 0 <= i < |s| :: r[i] == s[i].Entry()
  {
    if s == [] then [] else [s[0].Entry()] + Entries(s[1..])
  }

  lemma EntriesCut<K, V>(s: seq<Element<K, V>>, i: nat)
    requires i < |s|
    ensures Entries(Cut(s, i)) == Cut(Entries(s), i)
  {}

  /** The map and the list hold the same elements, under distinct keys. */
  ghost predicate Linked<K, V>(list: seq<Element<K, V>>, items: map<K, Element<K, V>>) {
    && (forall i, j | 0 <= i < j < |list| :: list[i].key != list[j].key)
    && (forall e | e in list :: e.key in items && items[e.key] == e)
    && (forall k | k in items :: items[k] in list && items[k].key == k)
  }

  lemma LinkedCut<K, V>(list: seq<Element<K, V>>, items: map<K, Element<K, V>>, i: nat)
    requires Linked(list, items) && i < |list|
    ensures Linked(Cut(list, i), items - {list[i].key})
  {
    var r := Cut(list, i);
    forall e | e in list && e != list[i] ensures e in r {
      var j :| 0 <= j < |list| && list[j] == e;
      assert e == r[if j < i then j else j - 1];
    }
    assert forall e | e in r :: e in list;
  }

  lemma LinkedFront<K, V>(list: seq<Element<K, V>>, items: map<K, Element<K, V>>, i: nat)
    requires Linked(list, items) && i < |list|
    ensures Linked([list[i]] + Cut(list, i), items)
  {
    var r := [list[i]] + Cut(list, i);
    forall e | e in list ensures e in r {
      var j :| 0 <= j < |list| && list[j] == e;
      assert e == r[if j == i then 0 else if j < i then j + 1 else j];
    }
    assert forall e | e in r :: e in list;
  }

  lemma LinkedPush<K, V>(list: seq<Element<K, V>>, items: map<K, Element<K, V>>, e: Element<K, V>)
    requires Linked(list, items) && e.key !in items
    ensures Linked([e] + list, items[e.key := e])
  {}

  /** In a linked list, an element is found at its place. */
  lemma LinkedFind<K, V>(list: seq<Element<K, V>>, items: map<K, Element<K, V>>, k: K)
    requires Linked(list, items)
    ensures k in items ==> Find(Entries(list), k) < |list| && list[Find(Entries(list), k)] == items[k]
    ensures k !in items ==> Find(Entries(list), k) == |list|
  {
    var i := Find(Entries(list), k);
    if i < |list| {
      assert list[i] in list;
    }
    if k in items {
      var j :| 0 <= j < |list| && list[j] == items[k];
      assert Entries(list)[j].key == k;
    }
  }

  lemma KeyIn<K, V>(list: seq<Element<K, V>>, items: map<K, Element<K, V>>, k: K)
    requires Linked(list, items)
    ensures k in items ==> items[k] in list && items[k].key == k
  {}

  lemma OnlyFirst<K, V>(list: seq<Element<K, V>>, items: map<K, Element<K, V>>)
    requires Linked(list, items)
    ensures forall j | 0 < j < |list| :: list[j] != list[0]
  {}

  class Cache<K(==), V> {
    const size: int
    const defaultExpiry: int
    var evictList: seq<Element<K, V>>
    var items: map<K, Element<K, V>>
    var currentGeneration: nat
    var len: int

    /** The cache as a value. */
    ghost function Value(): Lazy<K, V>
      reads this, evictList
    {
      Lazy(size, Entries(evictList), currentGeneration, len)
    }

    ghost predicate Valid()
      reads this, evictList
    {
      Linked(evictList, items) && Sane(Value())
    }

    constructor (size: int, defaultExpiry: int)
      ensures Valid() && Value() == New(size) && this.defaultExpiry == defaultExpiry && evictList == []
    {
      this.size, this.defaultExpiry := size, defaultExpiry;
      evictList, items, currentGeneration, len := [], map[], 0, 0;
    }

    method Purge()
      requires Valid()
      modifies this
      ensures Valid() && Value() == PurgeAll(old(Value())) && evictList == old(evictList)
    {
      PurgeRefines(Value());
      len := 0;
      currentGeneration := currentGeneration + 1;
      assert Value() == PurgeAll(old(Value()));
    }

    /** The place of the element under a key. */
    method IndexOf(e: Element<K, V>) returns (i: nat)
      requires Linked(evictList, items) && e in evictList
      ensures i < |evictList| && evictList[i] == e && i == Find(Entries(evictList), e.key)
    {
      i := 0;
      while evictList[i] != e
        invariant i < |evictList| && e in evictList[i..]
        decreases |evictList| - i
      {
        i := i + 1;
      }
      hide Entries;
      LinkedFind(evictList, items, e.key);
    }

    /** removeElement */
    method RemoveElement(i: nat)
      requires Linked(evictList, items) && i < |evictList|
      modifies this`evictList, this`items, this`len
      ensures Linked(evictList, items) && Value() == CutFrom(old(Value()), i)
      ensures forall e | e in evictList :: e in old(evictList)
    {
      hide Linked, Entries;
      LinkedCut(evictList, items, i);
      EntriesCut(evictList, i);
      var e := evictList[i];
      evictList := evictList[..i] + evictList[i + 1..];
      if e.generation == currentGeneration {
        len := len - 1;
      }
      items := items - {e.key};
      assert Value() == CutFrom(old(Value()), i);
    }

    /** MoveToFront */
    method MoveToFront(i: nat)
      requires Linked(evictList, items) && i < |evictList|
      modifies this`evictList
      ensures Linked(evictList, items) && evictList == [old(evictList)[i]] + Cut(old(evictList), i)
      ensures Entries(evictList) == [old(Entries(evictList))[i]] + Cut(old(Entries(evictList)), i)
      ensures forall e | e in evictList :: e in old(evictList)
    {
      hide Linked, Entries;
      LinkedFront(evictList, items, i);
      evictList := [evictList[i]] + (evictList[..i] + evictList[i + 1..]);
    }

    method Add(key: K, value: V, now: int)
      requires Valid()
      modifies this, evictList
      ensures Valid() && Value() == AddTo(old(Value()), key, value, 0)
      ensures forall e | e in evictList :: e in old(evictList) || fresh(e)
    {
      AddWithExpiresInSecs(key, value, 0, now);
    }

    method AddWithDefaultExpires(key: K, value: V, now: int)
      requires Valid()
      modifies this, evictList
      ensures Valid() && Value() == AddTo(old(Value()), key, value, Deadline(defaultExpiry, now))
      ensures forall e | e in evictList :: e in old(evictList) || fresh(e)
    {
      AddWithExpiresInSecs(key, value, defaultExpiry, now);
    }

    method AddWithExpiresInSecs(key: K, value: V, secs: int, now: int)
      requires Valid()
      modifies this, evictList
      ensures Valid() && Value() == AddTo(old(Value()), key, value, Deadline(secs, now))
      ensures forall e | e in evictList :: e in old(evictList) || fresh(e)
    {
      var expireAtSecs := secs;
      if expireAtSecs > 0 {
        expireAtSecs := now + expireAtSecs;
      }
      AddRefines(Value(), key, value, expireAtSecs);
      if key in items {
        Refresh(key, value, expireAtSecs);
      } else {
        Insert(key, value, expireAtSecs);
      }
    }

    /** The existing-item branch of AddWithExpiresInSecs. */
    method Refresh(key: K, value: V, expireAtSecs: int)
      requires Linked(evictList, items) && key in items
      modifies this`evictList, this`len, evictList
      ensures Linked(evictList, items) && Value() == AddTo(old(Value()), key, value, expireAtSecs)
      ensures forall e | e in evictList :: e in old(evictList)
    {
      hide Linked, Entries, Find, AddTo, Cut;
      ghost var c := Value();
      KeyIn(evictList, items, key);
      var i := IndexOf(items[key]);
      AddToExisting(c, key, value, expireAtSecs);
      MoveToFront(i);
      OnlyFirst(evictList, items);
      FrontAndRest(c.list[i], Cut(c.list, i));
      Overwrite(value, expireAtSecs);
    }

    /** Give the element in front a new value and make it current. */
    method Overwrite(value: V, expireAtSecs: int)
      requires evictList != [] && forall j | 0 < j < |evictList| :: evictList[j] != evictList[0]
      modifies this`len, evictList[0]
      ensures Entries(evictList)
           == [Entry(evictList[0].key, value, expireAtSecs, currentGeneration)] + old(Entries(evictList))[1..]
      ensures len == if old(evictList[0].generation) != currentGeneration then old(len) + 1 else old(len)
    {
      hide Entries;
      var e := evictList[0];
      e.value := value;
      e.expireAtSecs := expireAtSecs;
      if e.generation != currentGeneration {
        e.generation := currentGeneration;
        len := len + 1;
      }
    }

    /** The new-item branch of AddWithExpiresInSecs. */
    method Insert(key: K, value: V, expireAtSecs: int)
      requires Linked(evictList, items) && key !in items
      modifies this`evictList, this`items, this`len
      ensures Linked(evictList, items) && Value() == AddTo(old(Value()), key, value, expireAtSecs)
      ensures forall e | e in evictList :: e in old(evictList) || fresh(e)
    {
      hide Linked, Entries, Find;
      LinkedFind(evictList, items, key);
      var ent := new Element(key, value, expireAtSecs, currentGeneration);
      LinkedPush(evictList, items, ent);
      evictList := [ent] + evictList;
      items := items[key := ent];
      len := len + 1;
      assert Entries(evictList) == [Entry(key, value, expireAtSecs, currentGeneration)] + old(Entries(evictList));
      if |evictList| > size {
        RemoveElement(|evictList| - 1);
      }
    }

    method Get(key: K, now: int) returns (value: Option<V>)
      requires Valid()
      modifies this`evictList, this`items, this`len
      ensures Valid() && (Value(), value) == GetFrom(old(Value()), key, now)
      ensures forall e | e in evictList :: e in old(evictList)
    {
      hide Linked, Sane, Entries, Find, View, EagerStep;
      ghost var c := Value();
      GetRefines(c, key, now);
      LinkedFind(evictList, items, key);
      KeyIn(evictList, items, key);
      if key !in items {
        return None;
      }
      var ent := items[key];
      var i := IndexOf(ent);
      if ent.generation != currentGeneration || (ent.expireAtSecs > 0 && now > ent.expireAtSecs) {
        RemoveElement(i);
        assert Value() == GetFrom(c, key, now).0;
        return None;
      }
      MoveToFront(i);
      assert Value() == GetFrom(c, key, now).0;
      return Some(ent.value);
    }

    method Remove(key: K)
      requires Valid()
      modifies this`evictList, this`items, this`len
      ensures Valid() && Value() == RemoveFrom(old(Value()), key)
      ensures forall e | e in evictList :: e in old(evictList)
    {
      hide Linked, Sane, Entries, Find, View, Others;
      RemoveRefines(Value(), key);
      LinkedFind(evictList, items, key);
      KeyIn(evictList, items, key);
      if key in items {
        var i := IndexOf(items[key]);
        RemoveElement(i);
        assert Value() == RemoveFrom(old(Value()), key);
      }
    }

    /** The keys from oldest to newest; the slice of length `len` is filled exactly. */
    method Keys() returns (keys: array<Option<K>>)
      requires Valid()
      ensures fresh(keys) && keys.Length == len
      ensures var live := OldestFirst(Live(Value().list, currentGeneration));
              |live| == len && forall i | 0 <= i < len :: keys[i] == Some(live[i])
    {
      LiveIsPrefix(Entries(evictList), currentGeneration, len);
      hide Entries, Linked, Sane, Live;
      keys := new Option<K>[len](_ => None);
      FillKeys(keys, Entries(evictList));
    }

    /** The loop of Keys, from the back of the list to the front. */
    method FillKeys(keys: array<Option<K>>, ghost list: seq<Entry<K, V>>)
      requires list == Entries(evictList) && keys.Length == |Live(list, currentGeneration)|
      modifies keys
      ensures forall i | 0 <= i < keys.Length :: keys[i] == Some(OldestFirst(Live(list, currentGeneration))[i])
    {
      hide Entries, Live, OldestFirst;
      var i, j := 0, |evictList|;
      ghost var found: seq<K> := [];
      NoneLive(list, currentGeneration);
      while j > 0
        invariant 0 <= j <= |evictList| == |list| && i == |found| <= keys.Length
        invariant found == OldestFirst(Live(list[j..], currentGeneration))
        invariant forall m | 0 <= m < i :: keys[m] == Some(found[m])
      {
        j := j - 1;
        LiveStep(list, currentGeneration, j);
        LiveSuffix(list, currentGeneration, j);
        var e := evictList[j];
        if e.generation == currentGeneration {
          found := found + [e.key];
          keys[i] := Some(e.key);
          i := i + 1;
        }
      }
      assert list[0..] == list;
    }

    method Len() returns (n: int)
      requires Valid()
      ensures n == |Live(Value().list, currentGeneration)|
    {
      LiveIsPrefix(Value().list, currentGeneration, len);
      n := len;
    }
  }

  lemma AddToExisting<K, V>(c: Lazy<K, V>, k: K, v: V, at: int)
    requires Find(c.list, k) < |c.list|
    ensures var i := Find(c.list, k);
            AddTo(c, k, v, at)
            == Lazy(c.size, [Entry(k, v, at, c.generation)] + Cut(c.list, i), c.generation,
                    if c.list[i].generation != c.generation then c.len + 1 else c.len)
  {}

  lemma FrontAndRest<T>(x: T, s: seq<T>)
    ensures ([x] + s)[0] == x && ([x] + s)[1..] == s
  {}

  lemma LiveStep<K, V>(list: seq<Entry<K, V>>, g: nat, j: nat)
    requires j < |list|
    ensures var keys := OldestFirst(Live(list[j + 1..], g));
            && |keys| == |Live(list[j + 1..], g)|
            && if list[j].generation == g
               then OldestFirst(Live(list[j..], g)) == keys + [list[j].key]
                    && |Live(list[j..], g)| == |Live(list[j + 1..], g)| + 1
               else Live(list[j..], g) == Live(list[j + 1..], g)
  {
    assert list[j..][1..] == list[j + 1..];
    var live := Live(list[j + 1..], g);
    assert ([list[j]] + live)[1..] == live;
  }

  lemma NoneLive<K, V>(list: seq<Entry<K, V>>, g: nat)
    ensures OldestFirst(Live(list[|list|..], g)) == []
  {}

  lemma {:induction false} LiveSuffix<K, V>(list: seq<Entry<K, V>>, g: nat, j: nat)
    requires j <= |list|
    ensures |Live(list[j..], g)| <= |Live(list, g)|
    decreases |list|
  {
    if j > 0 {
      LiveSuffix(list[1..], g, j - 1);
      assert list[1..][j - 1..] == list[j..];
    }
  }
}
