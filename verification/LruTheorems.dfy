/** What callers of the LRU cache can rely on, over all sequences of operations. */
module LruTheorems {
  import opened Common
  import opened Lru

  // ----- lazy purging cannot be observed -----

  /** What a caller sees after an operation: the answer of Get, then Len and Keys. */
  datatype Seen<K, V> = Seen(got: Option<V>, len: int, keys: seq<K>)

  function SeenLazy<K, V>(c: Lazy<K, V>, got: Option<V>): Seen<K, V> {
    Seen(got, c.len, OldestFirst(Live(c.list, c.generation)))
  }

  function SeenEager<K, V>(c: Eager<K, V>, got: Option<V>): Seen<K, V> {
    Seen(got, |c.list|, seq(|c.list|, i requires 0 <= i < |c.list| => c.list[|c.list| - 1 - i].key))
  }

  function LazyRun<K(==), V>(c: Lazy<K, V>, ops: seq<Op<K, V>>): seq<Seen<K, V>>
    decreases |ops|
  {
    if ops == [] then []
    else var (c1, got) := Step(c, ops[0]); [SeenLazy(c1, got)] + LazyRun(c1, ops[1..])
  }

  function EagerRun<K(==), V>(c: Eager<K, V>, ops: seq<Op<K, V>>): seq<Seen<K, V>>
    decreases |ops|
  {
    if ops == [] then []
    else var (c1, got) := EagerStep(c, ops[0]); [SeenEager(c1, got)] + EagerRun(c1, ops[1..])
  }

  /** The current entries are exactly the first `len` ones. */
  lemma {:induction false} LiveIsPrefix<K, V>(list: seq<Entry<K, V>>, g: nat, len: nat)
    requires len <= |list|
    requires forall i | 0 <= i < len :: list[i].generation == g
    requires forall i | len <= i < |list| :: list[i].generation < g
    ensures Live(list, g) == list[..len]
    decreases |list|
  {
    if list != [] {
      LiveIsPrefix(list[1..], g, if len > 0 then len - 1 else 0);
    }
  }

  lemma SameSight<K, V>(c: Lazy<K, V>, got: Option<V>)
    requires Sane(c)
    ensures SeenLazy(c, got) == SeenEager(View(c), got)
  {
    LiveIsPrefix(c.list, c.generation, c.len);
  }

  lemma {:induction false} RunsAgree<K, V>(c: Lazy<K, V>, ops: seq<Op<K, V>>)
    requires Sane(c)
    ensures LazyRun(c, ops) == EagerRun(View(c), ops)
    decreases |ops|
  {
    if ops != [] {
      hide Sane, View, SeenLazy, SeenEager, Step, EagerStep;
      StepRefines(c, ops[0]);
      var (c1, got) := Step(c, ops[0]);
      SameSight(c1, got);
      RunsAgree(c1, ops[1..]);
    }
  }

  /** From a new cache on, every Get, Len and Keys is what a cache that clears eagerly would give. */
  lemma PurgeIsInvisible<K, V>(size: int, ops: seq<Op<K, V>>)
    ensures LazyRun(New<K, V>(size), ops) == EagerRun(Eager(size, []), ops)
  {
    RunsAgree(New<K, V>(size), ops);
    assert View(New<K, V>(size)) == Eager(size, []);
  }

  // ----- the invariant over all operation sequences -----

  function After<K(==), V>(c: Lazy<K, V>, ops: seq<Op<K, V>>): Lazy<K, V> {
    if ops == [] then c else Step(After(c, ops[..|ops| - 1]), ops[|ops| - 1]).0
  }

  lemma {:induction false} SaneAfter<K, V>(size: int, ops: seq<Op<K, V>>)
    ensures Sane(After(New<K, V>(size), ops))
    decreases |ops|
  {
    if ops != [] {
      SaneAfter<K, V>(size, ops[..|ops| - 1]);
      StepRefines(After(New<K, V>(size), ops[..|ops| - 1]), ops[|ops| - 1]);
    }
  }

  /** In every reachable state `len` is the number of current entries, and the keys that Keys returns, as many
      as that, are distinct. */
  lemma AlwaysSane<K, V>(size: int, ops: seq<Op<K, V>>)
    ensures var c := After(New<K, V>(size), ops);
            && Sane(c)
            && |Live(c.list, c.generation)| == c.len
            && (forall i, j | 0 <= i < j < c.len ::
                  OldestFirst(Live(c.list, c.generation))[i] != OldestFirst(Live(c.list, c.generation))[j])
  {
    SaneAfter<K, V>(size, ops);
    var c := After(New<K, V>(size), ops);
    LiveIsPrefix(c.list, c.generation, c.len);
  }

  // ----- a hit is the value last added -----

  /** What was last added under `k` and not removed or purged since. */
  function LastAdded<K(==), V>(ops: seq<Op<K, V>>, k: K): Option<(V, int)> {
    if ops == [] then None
    else
      var before := LastAdded(ops[..|ops| - 1], k);
      match ops[|ops| - 1]
      case Add(k', v, secs, now) => if k' == k then Some((v, Deadline(secs, now))) else before
      case Get(_, _) => before
      case Remove(k') => if k' == k then None else before
      case Purge => None
  }

  ghost predicate Truthful<K, V>(list: seq<Item<K, V>>, ops: seq<Op<K, V>>) {
    forall x | x in list :: LastAdded(ops, x.key) == Some((x.value, x.expireAt))
  }

  ghost predicate DistinctItems<K, V>(list: seq<Item<K, V>>) {
    forall i, j | 0 <= i < j < |list| :: list[i].key != list[j].key
  }

  lemma OthersAre<K, V>(list: seq<Item<K, V>>, k: K)
    requires DistinctItems(list)
    ensures forall x :: x in Others(list, k) <==> x in list && x.key != k
  {
    var i, r := Place(list, k), Others(list, k);
    if i < |list| {
      assert list == list[..i] + [list[i]] + list[i + 1..];
    }
  }

  lemma FirstAre<T>(s: seq<T>, size: int)
    ensures forall x | x in First(s, size) :: x in s
  {}

  lemma StepTruthful<K, V>(c: Eager<K, V>, ops: seq<Op<K, V>>, op: Op<K, V>)
    requires DistinctItems(c.list) && Truthful(c.list, ops)
    ensures Truthful(EagerStep(c, op).0.list, ops + [op])
  {
    assert (ops + [op])[..|ops|] == ops;
    match op
    case Add(k, v, secs, now) =>
      OthersAre(c.list, k);
      FirstAre([Item(k, v, Deadline(secs, now))] + Others(c.list, k), c.size);
    case Get(k, _) => OthersAre(c.list, k);
    case Remove(k) => OthersAre(c.list, k);
    case Purge =>
  }

  lemma ViewDistinct<K, V>(c: Lazy<K, V>)
    requires Sane(c)
    ensures DistinctItems(View(c).list)
  {}

  lemma NextTruthful<K, V>(c: Lazy<K, V>, ops: seq<Op<K, V>>, op: Op<K, V>)
    requires Sane(c) && Truthful(View(c).list, ops)
    ensures Sane(Step(c, op).0) && Truthful(View(Step(c, op).0).list, ops + [op])
  {
    hide Truthful, Sane, View, Step, EagerStep, DistinctItems;
    StepRefines(c, op);
    ViewDistinct(c);
    StepTruthful(View(c), ops, op);
  }

  lemma {:induction false} AlwaysTruthful<K, V>(size: int, ops: seq<Op<K, V>>)
    ensures var c := After(New<K, V>(size), ops); Sane(c) && Truthful(View(c).list, ops)
    decreases |ops|
  {
    hide *;
    if ops == [] {
      NewTruthful<K, V>(size, ops);
    } else {
      var front, last := ops[..|ops| - 1], ops[|ops| - 1];
      AlwaysTruthful<K, V>(size, front);
      NextTruthful(After(New<K, V>(size), front), front, last);
      AfterLast(New<K, V>(size), ops);
      assert front + [last] == ops;
    }
  }

  lemma AfterLast<K, V>(c: Lazy<K, V>, ops: seq<Op<K, V>>)
    requires ops != []
    ensures After(c, ops) == Step(After(c, ops[..|ops| - 1]), ops[|ops| - 1]).0
  {
    hide Step;
  }

  lemma NewTruthful<K, V>(size: int, ops: seq<Op<K, V>>)
    requires ops == []
    ensures var c := After(New<K, V>(size), ops); Sane(c) && Truthful(View(c).list, ops)
  {}

  /** A hit returns the value last added for that key, which has not expired and was not removed or purged
      since. */
  lemma HitIsLastAdded<K, V>(size: int, ops: seq<Op<K, V>>, k: K, now: int)
    ensures var got := GetFrom(After(New<K, V>(size), ops), k, now).1;
            got.Some? ==>
              var added := LastAdded(ops, k);
              added.Some? && added.value.0 == got.value && !(added.value.1 > 0 && now > added.value.1)
  {
    var c := After(New<K, V>(size), ops);
    AlwaysTruthful<K, V>(size, ops);
    hide After, LastAdded;
    GetRefines(c, k, now);
    var i := Place(View(c).list, k);
    if i < |View(c).list| {
      assert View(c).list[i] in View(c).list;
    }
  }

  /** What was just added for `secs` seconds is found until that many seconds have passed, and no longer;
      without a positive `secs` it is found at any time. */
  lemma FoundUntilDeadline<K, V>(size: int, before: seq<Op<K, V>>, k: K, v: V, secs: int, added: nat, now: int)
    requires size > 0
    ensures var c := Step(After(New<K, V>(size), before), Add(k, v, secs, added)).0;
            GetFrom(c, k, now).1 == if secs > 0 && now - added > secs then None else Some(v)
  {
    var c := After(New<K, V>(size), before);
    SaneAfter<K, V>(size, before);
    SizeStays(New<K, V>(size), before);
    hide After;
    StepRefines(c, Add(k, v, secs, added));
    GetRefines(Step(c, Add(k, v, secs, added)).0, k, now);
  }

  // ----- lookups do not disturb lookups -----

  /** What a lookup finds: the value under the key, if it is there and has not expired. */
  lemma GetFinds<K, V>(c: Lazy<K, V>, k: K, now: int, x: Item<K, V>)
    requires Sane(c) && x in View(c).list && x.key == k
    ensures GetFrom(c, k, now).1 == if x.expireAt > 0 && now > x.expireAt then None else Some(x.value)
  {
    GetRefines(c, k, now);
    ViewDistinct(c);
    hide Sane, View, GetFrom;
    var l := View(c).list;
    var i := Place(l, k);
    var j := IndexOf(l, x);
    assert l[i].key == l[j].key;
  }

  lemma IndexOf<T>(s: seq<T>, x: T) returns (j: nat)
    requires x in s
    ensures j < |s| && s[j] == x
  {
    j :| j < |s| && s[j] == x;
  }

  lemma GetMisses<K, V>(c: Lazy<K, V>, k: K, now: int)
    requires Sane(c) && forall x | x in View(c).list :: x.key != k
    ensures GetFrom(c, k, now).1 == None
  {
    GetRefines(c, k, now);
    hide Sane, View, GetFrom;
    var l := View(c).list;
    assert forall i | 0 <= i < |l| :: l[i] in l;
  }

  /** After a lookup at `at`, every item is still there, except one that had expired by then. */
  lemma GetKeepsItems<K, V>(c: Lazy<K, V>, k: K, at: int, x: Item<K, V>)
    requires Sane(c)
    ensures var c' := GetFrom(c, k, at).0;
            && Sane(c')
            && (x in View(c').list <==> x in View(c).list && !(x.key == k && x.expireAt > 0 && at > x.expireAt))
  {
    GetRefines(c, k, at);
    ViewDistinct(c);
    hide Sane, View, GetFrom;
    var l := View(c).list;
    OthersAre(l, k);
    var i := Place(l, k);
    if i < |l| {
      assert l[i] in l;
      if x in l && x.key == k {
        var j := IndexOf(l, x);
        assert l[i].key == l[j].key;
      }
    }
  }

  /** `c'` has the items of `c`, except that under `k` if it had expired by `at`. */
  ghost predicate AllBut<K(!new), V(!new)>(c: Lazy<K, V>, c': Lazy<K, V>, k: K, at: int)
    requires Sane(c) && Sane(c')
  {
    forall x: Item<K, V> ::
      x in View(c').list <==> x in View(c).list && !(x.key == k && x.expireAt > 0 && at > x.expireAt)
  }

  lemma GetKeepsAll<K(!new), V(!new)>(c: Lazy<K, V>, k: K, at: int)
    requires Sane(c)
    ensures Sane(GetFrom(c, k, at).0) && AllBut(c, GetFrom(c, k, at).0, k, at)
  {
    GetRefines(c, k, at);
    hide Sane, View, GetFrom;
    var c' := GetFrom(c, k, at).0;
    forall x: Item<K, V>
      ensures x in View(c').list <==> x in View(c).list && !(x.key == k && x.expireAt > 0 && at > x.expireAt)
    {
      GetKeepsItems(c, k, at, x);
    }
  }

  lemma FoundAlike<K(!new), V(!new)>(c: Lazy<K, V>, c': Lazy<K, V>, k: K, at: int, x: Item<K, V>, now: int)
    requires Sane(c) && Sane(c') && AllBut(c, c', k, at) && x in View(c).list && now >= at
    ensures GetFrom(c', x.key, now).1 == GetFrom(c, x.key, now).1
  {
    GetFinds(c, x.key, now, x);
    hide Sane, View, GetFrom;
    if x in View(c').list {
      GetFinds(c', x.key, now, x);
    } else {
      OthersGone(c, c', x);
      GetMisses(c', x.key, now);
    }
  }

  /** A lookup, whether it finds something or not, does not change what any later lookup finds. */
  lemma GetsDoNotDisturb<K(!new), V(!new)>(c: Lazy<K, V>, k: K, at: int, k2: K, now: int)
    requires Sane(c) && now >= at
    ensures GetFrom(GetFrom(c, k, at).0, k2, now).1 == GetFrom(c, k2, now).1
  {
    hide Sane, View, GetFrom;
    var c' := GetFrom(c, k, at).0;
    GetKeepsAll(c, k, at);
    if x :| x in View(c).list && x.key == k2 {
      FoundAlike(c, c', k, at, x, now);
    } else {
      GetMisses(c, k2, now);
      GetMisses(c', k2, now);
    }
  }

  lemma OthersGone<K, V>(c: Lazy<K, V>, c': Lazy<K, V>, x: Item<K, V>)
    requires Sane(c) && Sane(c') && x in View(c).list && x !in View(c').list
    requires forall y: Item<K, V> | y in View(c').list :: y in View(c).list
    ensures forall y | y in View(c').list :: y.key != x.key
  {
    ViewDistinct(c);
    hide Sane, View;
    forall y | y in View(c').list ensures y.key != x.key {
      var i := IndexOf(View(c).list, x);
      var j := IndexOf(View(c).list, y);
      assert i != j;
    }
  }

  // ----- a key is lost only to `size` others -----

  /** The key that an operation uses: adding it, or finding it. */
  function Uses<K(==), V>(c: Eager<K, V>, op: Op<K, V>): set<K> {
    match op
    case Add(k, _, _, _) => {k}
    case Get(k, _) => if EagerStep(c, op).1.Some? then {k} else {}
    case _ => {}
  }

  function EagerAfter<K(==), V>(c: Eager<K, V>, ops: seq<Op<K, V>>): Eager<K, V> {
    if ops == [] then c else EagerStep(EagerAfter(c, ops[..|ops| - 1]), ops[|ops| - 1]).0
  }

  /** The keys used by a sequence of operations. */
  function AllUses<K(==), V>(c: Eager<K, V>, ops: seq<Op<K, V>>): set<K> {
    if ops == [] then {}
    else AllUses(c, ops[..|ops| - 1]) + Uses(EagerAfter(c, ops[..|ops| - 1]), ops[|ops| - 1])
  }

  /** The operation does not mention `k` and is not a purge. */
  predicate LeavesAlone<K(==), V>(op: Op<K, V>, k: K) {
    match op
    case Add(k', _, _, _) => k' != k
    case Get(k', _) => k' != k
    case Remove(k') => k' != k
    case Purge => false
  }

  /** Key `k` is at place `j`, and everything before it is among `used`. */
  ghost predicate Behind<K, V>(list: seq<Item<K, V>>, x: Item<K, V>, used: set<K>, j: nat) {
    j < |list| && list[j] == x && (forall i | 0 <= i < j :: list[i].key in used)
  }

  ghost predicate Kept<K, V>(c: Eager<K, V>, x: Item<K, V>, used: set<K>) {
    |used| >= c.size || exists j: nat :: Behind(c.list, x, used, j)
  }

  /** Distinct keys all among `used`: `used` has at least as many elements. */
  lemma {:induction false} CountKeys<K, V>(list: seq<Item<K, V>>, n: nat, used: set<K>)
    requires n <= |list| && DistinctItems(list) && forall i | 0 <= i < n :: list[i].key in used
    ensures |used| >= n
  {
    if n > 0 {
      var k := list[n - 1].key;
      CountKeys(list, n - 1, used - {k});
    }
  }

  /** Putting `y` in front: `x` stays behind what was used, now including `y`. */
  lemma StaysBehind<K, V>(list: seq<Item<K, V>>, x: Item<K, V>, used: set<K>, j: nat, y: Item<K, V>)
    returns (j': nat)
    requires Behind(list, x, used, j) && y.key != x.key
    ensures Behind([y] + Others(list, y.key), x, used + {y.key}, j')
  {
    var i := Place(list, y.key);
    j' := if i < j then j else j + 1;
    var r := [y] + Others(list, y.key);
    forall m | 0 <= m < j' ensures r[m].key in used + {y.key} {
      if m > 0 {
        assert r[m] == Others(list, y.key)[m - 1];
      }
    }
  }

  lemma AddKeeps<K, V>(c: Eager<K, V>, x: Item<K, V>, used: set<K>, y: Item<K, V>)
    requires DistinctItems(c.list) && Kept(c, x, used) && y.key != x.key
    ensures Kept(c.(list := First([y] + Others(c.list, y.key), c.size)), x, used + {y.key})
  {
    var used' := used + {y.key};
    Bigger(used, used');
    if |used| < c.size {
      var j: nat :| Behind(c.list, x, used, j);
      hide Others, DistinctItems;
      var j' := StaysBehind(c.list, x, used, j, y);
      var r := [y] + Others(c.list, y.key);
      if j' >= c.size {
        DistinctAfter(c.list, y);
        CountKeys(r, j', used');
      } else {
        assert Behind(First(r, c.size), x, used', j');
      }
    }
  }

  lemma Bigger<K>(a: set<K>, b: set<K>)
    requires a <= b
    ensures |a| <= |b|
  {
    assert b == a + (b - a);
  }

  lemma DistinctAfter<K, V>(list: seq<Item<K, V>>, y: Item<K, V>)
    requires DistinctItems(list)
    ensures DistinctItems([y] + Others(list, y.key))
  {
    OthersAre(list, y.key);
    var o := Others(list, y.key);
    assert forall i | 0 <= i < |o| :: o[i] in o;
  }

  lemma OthersKeep<K, V>(c: Eager<K, V>, x: Item<K, V>, used: set<K>, k: K)
    requires Kept(c, x, used) && k != x.key
    ensures Kept(c.(list := Others(c.list, k)), x, used)
  {
    if |used| < c.size {
      var j: nat :| Behind(c.list, x, used, j);
      var i := Place(c.list, k);
      assert Behind(Others(c.list, k), x, used, if i < j then j - 1 else j);
    }
  }

  /** An operation that leaves `x` alone keeps it, or has seen `size` other keys used. */
  lemma StepKeeps<K, V>(c: Eager<K, V>, x: Item<K, V>, used: set<K>, op: Op<K, V>)
    requires DistinctItems(c.list) && Kept(c, x, used) && LeavesAlone(op, x.key)
    ensures Kept(EagerStep(c, op).0, x, used + Uses(c, op))
  {
    hide Kept, DistinctItems, Others, First;
    assert used + {} == used;
    match op
    case Add(k, v, secs, now) => AddKeeps(c, x, used, Item(k, v, Deadline(secs, now)));
    case Get(k, _) =>
      var i := Place(c.list, k);
      if i < |c.list| {
        if EagerStep(c, op).1.Some? {
          GetKeeps(c, x, used, c.list[i]);
        } else {
          OthersKeep(c, x, used, k);
        }
      }
    case Remove(k) => OthersKeep(c, x, used, k);
  }

  lemma GetKeeps<K, V>(c: Eager<K, V>, x: Item<K, V>, used: set<K>, y: Item<K, V>)
    requires Kept(c, x, used) && y.key != x.key
    ensures Kept(c.(list := [y] + Others(c.list, y.key)), x, used + {y.key})
  {
    hide Others;
    Bigger(used, used + {y.key});
    if |used| < c.size {
      var j: nat :| Behind(c.list, x, used, j);
      var j' := StaysBehind(c.list, x, used, j, y);
    }
  }

  lemma {:induction false} AfterRefines<K, V>(c: Lazy<K, V>, ops: seq<Op<K, V>>)
    requires Sane(c)
    ensures Sane(After(c, ops)) && View(After(c, ops)) == EagerAfter(View(c), ops)
    decreases |ops|
  {
    hide Sane, View, Step, EagerStep;
    if ops != [] {
      AfterRefines(c, ops[..|ops| - 1]);
      StepRefines(After(c, ops[..|ops| - 1]), ops[|ops| - 1]);
    }
  }

  lemma {:induction false} RunKeeps<K, V>(c: Lazy<K, V>, x: Item<K, V>, ops: seq<Op<K, V>>)
    requires Sane(c) && View(c).list != [] && View(c).list[0] == x
    requires forall op | op in ops :: LeavesAlone(op, x.key)
    ensures Kept(EagerAfter(View(c), ops), x, AllUses(View(c), ops))
    decreases |ops|
  {
    hide Sane, View, EagerStep, LeavesAlone, DistinctItems, Uses, Kept;
    if ops == [] {
      FirstIsKept(View(c));
    } else {
      var front := ops[..|ops| - 1];
      RunKeeps(c, x, front);
      AfterRefines(c, front);
      ViewDistinct(After(c, front));
      StepKeeps(EagerAfter(View(c), front), x, AllUses(View(c), front), ops[|ops| - 1]);
    }
  }

  lemma FirstIsKept<K, V>(c: Eager<K, V>)
    requires c.list != []
    ensures Kept(c, c.list[0], {})
  {
    assert Behind(c.list, c.list[0], {}, 0);
  }

  /** After an operation that used key `k`, `k` is the most recent entry of a cache with room for one. */
  lemma UsedIsFirst<K, V>(c: Lazy<K, V>, use: Op<K, V>, k: K)
    requires Sane(c) && k in Uses(View(c), use) && c.size > 0
    ensures Sane(Step(c, use).0)
    ensures var l := View(Step(c, use).0).list; l != [] && l[0].key == k
  {
    StepRefines(c, use);
    hide Sane, View, Step, Others;
  }

  /** In a reachable cache, a key that was just used can afterwards be missed only if it has expired, was
      removed or purged, or at least `size` other keys were added or hit in between. */
  lemma LostOnlyToOthers<K, V>(size: int, before: seq<Op<K, V>>, use: Op<K, V>, k: K, ops: seq<Op<K, V>>, now: int)
    requires size > 0
    requires var c := After(New<K, V>(size), before); Sane(c) && k in Uses(View(c), use)
    requires forall op | op in ops :: LeavesAlone(op, k)
    ensures var c := Step(After(New<K, V>(size), before), use).0;
            && Sane(c) && View(c).list != [] && View(c).list[0].key == k
            && (!(View(c).list[0].expireAt > 0 && now > View(c).list[0].expireAt) ==>
                  GetFrom(After(c, ops), k, now).1 == Some(View(c).list[0].value)
                  || |AllUses(View(c), ops)| >= size)
  {
    SizeStays(New<K, V>(size), before);
    var c0 := After(New<K, V>(size), before);
    UsedIsFirst(c0, use, k);
    SizeStays(c0, [use]);
    var c := Step(c0, use).0;
    var x := View(c).list[0];
    RunKeeps(c, x, ops);
    AfterRefines(c, ops);
    SizeStays(c, ops);
    GetRefines(After(c, ops), k, now);
    hide AllUses, EagerAfter, After, Uses, LeavesAlone;
    if |AllUses(View(c), ops)| < size && !(x.expireAt > 0 && now > x.expireAt) {
      KeptIsHit(After(c, ops), x, AllUses(View(c), ops), now);
    }
  }

  lemma KeptIsHit<K, V>(c: Lazy<K, V>, x: Item<K, V>, used: set<K>, now: int)
    requires Sane(c) && Kept(View(c), x, used) && |used| < c.size && !(x.expireAt > 0 && now > x.expireAt)
    ensures GetFrom(c, x.key, now).1 == Some(x.value)
  {
    GetRefines(c, x.key, now);
    var j: nat :| Behind(View(c).list, x, used, j);
    ViewDistinct(c);
    assert Place(View(c).list, x.key) == j;
  }

  lemma {:induction false} SizeStays<K, V>(c: Lazy<K, V>, ops: seq<Op<K, V>>)
    ensures After(c, ops).size == c.size
    decreases |ops|
  {
    if ops != [] {
      SizeStays(c, ops[..|ops| - 1]);
    }
  }
}
