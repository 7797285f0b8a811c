/** Schema lookups through the LRU cache (app/schema.go) over a store whose rows change. */
module SchemaCache {
  import opened Common
  import opened Lru
  import opened LruTheorems
  import opened LruObject

  /** One version of a schema, as the store hands it out. */
  datatype Version = Version(id: int, domainId: int, updatedAt: int, body: string)

  datatype Result = Found(v: Version) | Failed

  /** The store: the current version of each schema. A read fails if there is no such row in the domain or
      if the store is down. */
  type Store = map<int, Version>

  function Read(store: Store, domainId: int, id: int, down: bool): Result {
    if !down && id in store && store[id].domainId == domainId then Found(store[id]) else Failed
  }

  /** The cache and the store; `past` is every version the store has ever held. */
  datatype Site = Site(cache: Lazy<int, Version>, expiry: int, store: Store, past: set<Version>)

  function Fetch(w: Site, domainId: int, id: int, updatedAt: int, now: int, down: bool): (Site, Result) {
    var (c, hit) := GetFrom(w.cache, id, now);
    if hit.Some? && hit.value.updatedAt == updatedAt then (w.(cache := c), Found(hit.value))
    else
      match Read(w.store, domainId, id, down)
      case Failed => (w.(cache := c), Failed)
      case Found(v) => (w.(cache := AddTo(c, id, v, Deadline(w.expiry, now))), Found(v))
  }

  function FetchById(w: Site, domainId: int, id: int, now: int, down: bool): (Site, Result) {
    match Read(w.store, domainId, id, down)
    case Failed => (w, Failed)
    case Found(v) => Fetch(w, domainId, id, v.updatedAt, now, down)
  }

  /** Everything that can happen: rows are written and deleted, schemas are looked up, the cache is purged or
      loses a key. */
  datatype Act =
    | Write(v: Version)
    | Delete(id: int)
    | Lookup(domainId: int, id: int, updatedAt: int, now: int, down: bool)
    | LookupById(domainId: int, id: int, now: int, down: bool)
    | Forget(id: int)
    | Clear

  function Do(w: Site, a: Act): Site {
    match a
    case Write(v) => w.(store := w.store[v.id := v], past := w.past + {v})
    case Delete(id) => w.(store := w.store - {id})
    case Lookup(d, id, u, now, down) => Fetch(w, d, id, u, now, down).0
    case LookupById(d, id, now, down) => FetchById(w, d, id, now, down).0
    case Forget(id) => w.(cache := RemoveFrom(w.cache, id))
    case Clear => w.(cache := PurgeAll(w.cache))
  }

  function DoAll(size: int, expiry: int, acts: seq<Act>): Site {
    if acts == [] then Site(New(size), expiry, map[], {})
    else Do(DoAll(size, expiry, acts[..|acts| - 1]), acts[|acts| - 1])
  }

  /** What is cached under an id, and what is in the store under it, is a version of it the store has held. */
  ghost predicate Known(past: set<Version>, id: int, v: Version) {
    v in past && v.id == id
  }

  ghost predicate Genuine(list: seq<Item<int, Version>>, past: set<Version>) {
    forall x | x in list :: Known(past, x.key, x.value)
  }

  ghost predicate Honest(w: Site) {
    && Sane(w.cache) && Genuine(View(w.cache).list, w.past)
    && (forall id | id in w.store :: Known(w.past, id, w.store[id]))
  }

  lemma GetGenuine(c: Lazy<int, Version>, past: set<Version>, id: int, now: int)
    requires Sane(c) && Genuine(View(c).list, past)
    ensures Sane(GetFrom(c, id, now).0) && Genuine(View(GetFrom(c, id, now).0).list, past)
    ensures GetFrom(c, id, now).1.Some? ==> Known(past, id, GetFrom(c, id, now).1.value)
  {
    GetRefines(c, id, now);
    ViewDistinct(c);
    hide Sane, View;
    OthersAre(View(c).list, id);
    var i := Place(View(c).list, id);
    if i < |View(c).list| {
      assert View(c).list[i] in View(c).list;
    }
  }

  lemma AddGenuine(c: Lazy<int, Version>, past: set<Version>, id: int, v: Version, at: int)
    requires Sane(c) && Genuine(View(c).list, past) && Known(past, id, v)
    ensures Sane(AddTo(c, id, v, at)) && Genuine(View(AddTo(c, id, v, at)).list, past)
  {
    AddRefines(c, id, v, at);
    ViewDistinct(c);
    hide Sane, View, AddTo;
    OthersAre(View(c).list, id);
    FirstAre([Item(id, v, at)] + Others(View(c).list, id), c.size);
  }

  lemma GetSchemaHonest(w: Site, domainId: int, id: int, updatedAt: int, now: int, down: bool)
    requires Honest(w)
    ensures Honest(Fetch(w, domainId, id, updatedAt, now, down).0)
  {
    hide Sane, View, Genuine, AddTo, GetFrom;
    GetGenuine(w.cache, w.past, id, now);
    if Read(w.store, domainId, id, down).Found? {
      AddGenuine(GetFrom(w.cache, id, now).0, w.past, id, w.store[id], Deadline(w.expiry, now));
    }
  }

  lemma DoHonest(w: Site, a: Act)
    requires Honest(w)
    ensures Honest(Do(w, a))
  {
    match a
    case Write(v) =>
    case Delete(_) =>
    case Lookup(d, id, u, now, down) => GetSchemaHonest(w, d, id, u, now, down);
    case LookupById(d, id, now, down) =>
      if Read(w.store, d, id, down).Found? {
        GetSchemaHonest(w, d, id, w.store[id].updatedAt, now, down);
      }
    case Forget(id) =>
      RemoveRefines(w.cache, id);
      ViewDistinct(w.cache);
      hide Sane, View;
      OthersAre(View(w.cache).list, id);
    case Clear => PurgeRefines(w.cache);
  }

  lemma {:induction false} AlwaysHonest(size: int, expiry: int, acts: seq<Act>)
    ensures Honest(DoAll(size, expiry, acts))
  {
    if acts != [] {
      AlwaysHonest(size, expiry, acts[..|acts| - 1]);
      DoHonest(DoAll(size, expiry, acts[..|acts| - 1]), acts[|acts| - 1]);
    }
  }

  /** An id and its time of update determine the version. */
  ghost predicate Determined(past: set<Version>) {
    forall a, b | a in past && b in past && a.id == b.id && a.updatedAt == b.updatedAt :: a == b
  }

  /** Whatever happened before, looking a schema up by id gives exactly what the store gives, provided that an
      id and its time of update determine the version. */
  lemma ByIdIsWhatTheStoreHolds(size: int, expiry: int, acts: seq<Act>, domainId: int, id: int, now: int, down: bool)
    requires Determined(DoAll(size, expiry, acts).past)
    ensures var w := DoAll(size, expiry, acts);
            FetchById(w, domainId, id, now, down).1 == Read(w.store, domainId, id, down)
  {
    AlwaysHonest(size, expiry, acts);
    var w := DoAll(size, expiry, acts);
    hide DoAll;
    GetGenuine(w.cache, w.past, id, now);
  }

  /** A lookup by version finds a version of that id which either has the requested time of update or is what
      the store holds; it fails only if the store does. */
  lemma ByVersionIsRequestedOrCurrent(
    size: int, expiry: int, acts: seq<Act>, domainId: int, id: int, updatedAt: int, now: int, down: bool)
    ensures var w := DoAll(size, expiry, acts);
            var r := Fetch(w, domainId, id, updatedAt, now, down).1;
            && (r.Found? ==> Known(w.past, id, r.v)
                             && (r.v.updatedAt == updatedAt || r == Read(w.store, domainId, id, down)))
            && (r.Failed? ==> Read(w.store, domainId, id, down).Failed?)
  {
    AlwaysHonest(size, expiry, acts);
    var w := DoAll(size, expiry, acts);
    hide DoAll;
    GetGenuine(w.cache, w.past, id, now);
  }

  // ----- the exact conditions -----

  /** The history writes only versions from `all`. */
  predicate WritesFrom(acts: seq<Act>, all: set<Version>) {
    forall a | a in acts && a.Write? :: a.v in all
  }

  lemma {:induction false} PastIsFrom(size: int, expiry: int, acts: seq<Act>, all: set<Version>)
    requires WritesFrom(acts, all)
    ensures DoAll(size, expiry, acts).past <= all
  {
    if acts != [] {
      PastIsFrom(size, expiry, acts[..|acts| - 1], all);
    }
  }

  /** Write a row and look it up: the new version is in a cache that keeps it for ever. */
  function Cached(v: Version, now: int): seq<Act> {
    [Write(v), LookupById(v.domainId, v.id, now, false)]
  }

  lemma CachedIsCached(v: Version, now: int)
    ensures var w := DoAll(1, 0, Cached(v, now));
            && w.cache.list == [Entry(v.id, v, 0, 0)] && w.cache.generation == 0
            && w.store == map[v.id := v] && w.past == {v}
  {
    var a1 := [Write(v)];
    assert Cached(v, now)[..1] == a1 && a1[..0] == [];
    assert DoAll(1, 0, a1) == Do(DoAll(1, 0, []), Write(v));
  }

  /** If a row is changed without changing its time of update, a lookup by id goes on giving the old version
      from the cache, even if the row now belongs to another domain. */
  lemma UndeterminedIsStale(v: Version, v': Version, now: int)
    requires v != v' && v'.id == v.id && v'.updatedAt == v.updatedAt
    ensures var w := DoAll(1, 0, Cached(v, now) + [Write(v')]);
            && FetchById(w, v'.domainId, v.id, now, false).1 == Found(v)
            && Read(w.store, v'.domainId, v.id, false) == Found(v')
  {
    var acts := Cached(v, now) + [Write(v')];
    assert acts[..2] == Cached(v, now);
    CachedIsCached(v, now);
    hide DoAll;
    assert Do(DoAll(1, 0, Cached(v, now)), Write(v')).cache.list == [Entry(v.id, v, 0, 0)];
  }

  /** After every history of versions from `all`, a lookup by id gives what the store gives. */
  ghost predicate AlwaysCurrent(all: set<Version>) {
    forall size: int, expiry: int, acts: seq<Act>, domainId: int, id: int, now: int, down: bool
      | WritesFrom(acts, all) ::
      FetchById(DoAll(size, expiry, acts), domainId, id, now, down).1
      == Read(DoAll(size, expiry, acts).store, domainId, id, down)
  }

  /** Lookups by id are always current exactly if an id and its time of update determine the version. */
  lemma CurrentExactlyIfDetermined(all: set<Version>)
    ensures AlwaysCurrent(all) <==> Determined(all)
  {
    if Determined(all) {
      forall size: int, expiry: int, acts: seq<Act>, domainId: int, id: int, now: int, down: bool
      | WritesFrom(acts, all)
        ensures FetchById(DoAll(size, expiry, acts), domainId, id, now, down).1
             == Read(DoAll(size, expiry, acts).store, domainId, id, down)
      {
        PastIsFrom(size, expiry, acts, all);
        ByIdIsWhatTheStoreHolds(size, expiry, acts, domainId, id, now, down);
      }
    } else {
      var v, v' :| v in all && v' in all && v.id == v'.id && v.updatedAt == v'.updatedAt && v != v';
      UndeterminedIsStale(v, v', 0);
      assert WritesFrom(Cached(v, 0) + [Write(v')], all);
      hide FetchById, DoAll;
      var w := DoAll(1, 0, Cached(v, 0) + [Write(v')]);
      assert FetchById(w, v'.domainId, v.id, 0, false).1 != Read(w.store, v'.domainId, v.id, false);
    }
  }

  /** A lookup by version takes what is cached for the id, in whatever domain it is. */
  lemma OtherDomainIsHandedOut(v: Version, domainId: int, now: int)
    requires v.domainId != domainId
    ensures var w := DoAll(1, 0, Cached(v, now));
            && Fetch(w, domainId, v.id, v.updatedAt, now, false).1 == Found(v)
            && Read(w.store, domainId, v.id, false) == Failed
  {
    CachedIsCached(v, now);
  }

  /** After every history of versions from `all`, such a lookup finds a version in the domain asked for. */
  ghost predicate AlwaysOwn(all: set<Version>, domainId: int, id: int, updatedAt: int) {
    forall size: int, expiry: int, acts: seq<Act>, now: int, down: bool
      | WritesFrom(acts, all) ::
      var r := Fetch(DoAll(size, expiry, acts), domainId, id, updatedAt, now, down).1;
      r.Found? ==> r.v.domainId == domainId
  }

  /** A lookup by version stays in its domain exactly if the versions of that id and time of update do. */
  lemma OwnDomainExactlyIf(all: set<Version>, domainId: int, id: int, updatedAt: int)
    ensures AlwaysOwn(all, domainId, id, updatedAt)
       <==> forall v | v in all && v.id == id && v.updatedAt == updatedAt :: v.domainId == domainId
  {
    if v :| v in all && v.id == id && v.updatedAt == updatedAt && v.domainId != domainId {
      OtherDomainIsHandedOut(v, domainId, 0);
      assert WritesFrom(Cached(v, 0), all);
      hide Fetch, DoAll;
      assert Fetch(DoAll(1, 0, Cached(v, 0)), domainId, id, updatedAt, 0, false).1 == Found(v);
    } else {
      forall size: int, expiry: int, acts: seq<Act>, now: int, down: bool
      | WritesFrom(acts, all)
        ensures var r := Fetch(DoAll(size, expiry, acts), domainId, id, updatedAt, now, down).1;
                r.Found? ==> r.v.domainId == domainId
      {
        PastIsFrom(size, expiry, acts, all);
        ByVersionIsRequestedOrCurrent(size, expiry, acts, domainId, id, updatedAt, now, down);
      }
    }
  }

  // ----- expiry -----

  /** Everything cached expires, by `last` at the latest. */
  ghost predicate Expires(list: seq<Item<int, Version>>, last: int) {
    forall x | x in list :: 0 < x.expireAt <= last
  }

  lemma GetExpires(c: Lazy<int, Version>, id: int, now: int, last: int)
    requires Sane(c) && Expires(View(c).list, last)
    ensures Sane(GetFrom(c, id, now).0) && Expires(View(GetFrom(c, id, now).0).list, last)
    ensures now > last ==> GetFrom(c, id, now).1 == None
  {
    GetRefines(c, id, now);
    ViewDistinct(c);
    hide Sane, View;
    OthersAre(View(c).list, id);
    var i := Place(View(c).list, id);
    if i < |View(c).list| {
      assert View(c).list[i] in View(c).list;
    }
  }

  lemma AddExpires(c: Lazy<int, Version>, id: int, v: Version, at: int, last: int)
    requires Sane(c) && Expires(View(c).list, last) && 0 < at <= last
    ensures Sane(AddTo(c, id, v, at)) && Expires(View(AddTo(c, id, v, at)).list, last)
  {
    AddRefines(c, id, v, at);
    ViewDistinct(c);
    hide Sane, View, AddTo;
    OthersAre(View(c).list, id);
    FirstAre([Item(id, v, at)] + Others(View(c).list, id), c.size);
  }

  lemma FetchExpires(w: Site, domainId: int, id: int, updatedAt: int, now: int, down: bool, last: int)
    requires Sane(w.cache) && Expires(View(w.cache).list, last) && w.expiry > 0 && 0 <= now <= last - w.expiry
    ensures var w' := Fetch(w, domainId, id, updatedAt, now, down).0;
            Sane(w'.cache) && Expires(View(w'.cache).list, last) && w'.expiry == w.expiry
  {
    hide Sane, View, Expires, AddTo, GetFrom;
    GetExpires(w.cache, id, now, last);
    if Read(w.store, domainId, id, down).Found? {
      AddExpires(GetFrom(w.cache, id, now).0, id, w.store[id], Deadline(w.expiry, now), last);
    }
  }

  /** All lookups happen between 0 and `end`. */
  predicate LookedUpBy(acts: seq<Act>, end: int) {
    forall a | a in acts && (a.Lookup? || a.LookupById?) :: 0 <= a.now <= end
  }

  lemma DoExpires(w: Site, a: Act, end: int)
    requires Sane(w.cache) && Expires(View(w.cache).list, end + w.expiry) && w.expiry > 0
    requires a.Lookup? || a.LookupById? ==> 0 <= a.now <= end
    ensures var w' := Do(w, a);
            Sane(w'.cache) && Expires(View(w'.cache).list, end + w.expiry) && w'.expiry == w.expiry
  {
    match a
    case Write(_) =>
    case Delete(_) =>
    case Lookup(d, id, u, now, down) => FetchExpires(w, d, id, u, now, down, end + w.expiry);
    case LookupById(d, id, now, down) =>
      if Read(w.store, d, id, down).Found? {
        FetchExpires(w, d, id, w.store[id].updatedAt, now, down, end + w.expiry);
      }
    case Forget(id) =>
      RemoveRefines(w.cache, id);
      ViewDistinct(w.cache);
      hide Sane, View;
      OthersAre(View(w.cache).list, id);
    case Clear => PurgeRefines(w.cache);
  }

  lemma {:induction false} AlwaysExpires(size: int, expiry: int, acts: seq<Act>, end: int)
    requires expiry > 0 && LookedUpBy(acts, end)
    ensures var w := DoAll(size, expiry, acts);
            Sane(w.cache) && Expires(View(w.cache).list, end + expiry) && w.expiry == expiry
  {
    if acts != [] {
      AlwaysExpires(size, expiry, acts[..|acts| - 1], end);
      hide Sane, View, Expires, Do;
      DoExpires(DoAll(size, expiry, acts[..|acts| - 1]), acts[|acts| - 1], end);
    }
  }

  /** Once the expiry has passed since the last lookup of any schema, every lookup gives what the store
      gives, whatever was written in the meantime. */
  lemma StoreAfterExpiry(
    size: int, expiry: int, acts: seq<Act>, end: int, domainId: int, id: int, updatedAt: int, now: int, down: bool)
    requires expiry > 0 && LookedUpBy(acts, end) && now > end + expiry
    ensures var w := DoAll(size, expiry, acts);
            Fetch(w, domainId, id, updatedAt, now, down).1 == Read(w.store, domainId, id, down)
  {
    AlwaysExpires(size, expiry, acts, end);
    var w := DoAll(size, expiry, acts);
    hide DoAll, Sane, View, Expires, GetFrom;
    GetExpires(w.cache, id, now, end + expiry);
  }

  /** What a lookup had to get from the store is cached under its id for `expiry` seconds, or for ever if that
      is not positive: until then the same version is found even if the store is down, and after that the
      lookup gives what the store gives. */
  lemma FoundIsCached(
    size: int, expiry: int, acts: seq<Act>, domainId: int, id: int, updatedAt: int, at: nat, now: int,
    domainId2: int, down: bool)
    requires size > 0
    requires var w := DoAll(size, expiry, acts);
             Fetch(w, domainId, id, updatedAt, at, true).1 == Failed && Read(w.store, domainId, id, false).Found?
    ensures var w := DoAll(size, expiry, acts);
            var (w', r) := Fetch(w, domainId, id, updatedAt, at, false);
            && r == Read(w.store, domainId, id, false)
            && Fetch(w', domainId2, id, r.v.updatedAt, now, down).1
               == if expiry > 0 && now - at > expiry then Read(w.store, domainId2, id, down) else r
  {
    AlwaysHonest(size, expiry, acts);
    SettingsStay(size, expiry, acts);
    var w := DoAll(size, expiry, acts);
    hide DoAll;
    GetRefines(w.cache, id, at);
    var c := GetFrom(w.cache, id, at).0;
    var v := w.store[id];
    assert c.size == size;
    JustAdded(c, id, v, Deadline(expiry, at), now);
  }

  lemma {:induction false} SettingsStay(size: int, expiry: int, acts: seq<Act>)
    ensures var w := DoAll(size, expiry, acts); w.cache.size == size && w.expiry == expiry
  {
    hide Do;
    if acts != [] {
      SettingsStay(size, expiry, acts[..|acts| - 1]);
      DoKeepsSettings(DoAll(size, expiry, acts[..|acts| - 1]), acts[|acts| - 1]);
    }
  }

  lemma DoKeepsSettings(w: Site, a: Act)
    ensures Do(w, a).cache.size == w.cache.size && Do(w, a).expiry == w.expiry
  {
    hide Cut;
  }

  lemma JustAdded(c: Lazy<int, Version>, id: int, v: Version, at: int, now: int)
    requires Sane(c) && c.size > 0
    ensures GetFrom(AddTo(c, id, v, at), id, now).1 == if at > 0 && now > at then None else Some(v)
  {
    AddRefines(c, id, v, at);
    GetRefines(AddTo(c, id, v, at), id, now);
    hide Sane, AddTo, GetFrom;
  }

  /** A lookup that fails, or that the cache can serve, changes nothing that a later lookup finds. */
  lemma OnlyTheStoreChangesTheCache(
    size: int, expiry: int, acts: seq<Act>, domainId: int, id: int, updatedAt: int, at: int, down: bool,
    domainId2: int, id2: int, updatedAt2: int, now: int, down2: bool)
    requires now >= at
    requires var w := DoAll(size, expiry, acts);
             || Fetch(w, domainId, id, updatedAt, at, down).1 == Failed
             || Fetch(w, domainId, id, updatedAt, at, true).1.Found?
    ensures var w := DoAll(size, expiry, acts);
            Fetch(Fetch(w, domainId, id, updatedAt, at, down).0, domainId2, id2, updatedAt2, now, down2).1
            == Fetch(w, domainId2, id2, updatedAt2, now, down2).1
  {
    AlwaysHonest(size, expiry, acts);
    var w := DoAll(size, expiry, acts);
    hide DoAll, GetFrom, AddTo, Sane, View;
    GetsDoNotDisturb(w.cache, id, at, id2, now);
  }

  // ----- the object -----

  class FlowManager {
    const schemaCache: Cache<int, Version>
    var store: Store

    constructor (size: int, expiry: int)
      ensures schemaCache.Valid() && schemaCache.Value() == New(size) && schemaCache.defaultExpiry == expiry
      ensures store == map[]
    {
      schemaCache := new Cache(size, expiry);
      store := map[];
    }

    ghost function Now(past: set<Version>): Site
      reads this, schemaCache, schemaCache.evictList
    {
      Site(schemaCache.Value(), schemaCache.defaultExpiry, store, past)
    }

    method GetSchema(domainId: int, id: int, updatedAt: int, now: int, down: bool, ghost past: set<Version>)
      returns (r: Result)
      requires schemaCache.Valid()
      modifies schemaCache, schemaCache.evictList
      ensures schemaCache.Valid()
      ensures (Now(past), r) == Fetch(old(Now(past)), domainId, id, updatedAt, now, down)
    {
      hide AddTo, GetFrom, Sane, Linked, Entries;
      var hit := schemaCache.Get(id, now);
      assert forall i | 0 <= i < |schemaCache.evictList| :: schemaCache.evictList[i] in old(schemaCache.evictList);
      if hit.Some? && hit.value.updatedAt == updatedAt {
        return Found(hit.value);
      }
      r := Read(store, domainId, id, down);
      if r.Failed? {
        return;
      }
      schemaCache.AddWithDefaultExpires(id, r.v, now);
    }

    method GetSchemaById(domainId: int, id: int, now: int, down: bool, ghost past: set<Version>) returns (r: Result)
      requires schemaCache.Valid()
      modifies schemaCache, schemaCache.evictList
      ensures schemaCache.Valid()
      ensures (Now(past), r) == FetchById(old(Now(past)), domainId, id, now, down)
    {
      r := Read(store, domainId, id, down);
      if r.Failed? {
        return;
      }
      r := GetSchema(domainId, id, r.v.updatedAt, now, down, past);
    }
  }
}
