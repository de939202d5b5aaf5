/** The TTL LRU cache as objects: a bounded recency list of shared items, and the cache that ages them in place. */
module TtlCache {
  import opened TtlLru
  import opened Wrappers

  /** timeToLiveItem: the list and the cache share it, and a Get touches it in place. */
  class TtlItem<V> {
    const value: V
    var lastTouch: int

    constructor (value: V, lastTouch: int)
      ensures this.value == value && this.lastTouch == lastTouch
    {
      this.value, this.lastTouch := value, lastTouch;
    }
  }

  /** The inner cache: keys from most to least recently used, and an index to the items. */
  class Lru<V> {
    const size: nat
    var order: seq<Key>
    var items: map<Key, TtlItem<V>>

    constructor (size: nat)
      requires size > 0
      ensures this.size == size && order == [] && items == map[]
    {
      this.size, order, items := size, [], map[];
    }

    method Get(k: Key) returns (item: TtlItem?<V>)
      modifies this
      ensures items == old(items)
      ensures if k in items then item == items[k] && order == ToFront(old(order), k) else item == null && order == old(order)
    {
      if k in items {
        order := ToFront(order, k);
        return items[k];
      }
      item := null;
    }

    /** An existing key is overwritten and moved; a new one is pushed in front, and the last one out if the list is too long. */
    method Add(k: Key, item: TtlItem<V>) returns (evicted: bool)
      requires size > 0 && forall x :: x in order ==> x in items
      modifies this
      ensures evicted == (k !in old(items) && |old(order)| >= size)
      ensures k in old(items) ==> order == ToFront(old(order), k) && items == old(items)[k := item]
      ensures k !in old(items) && !evicted ==> order == [k] + old(order) && items == old(items)[k := item]
      ensures evicted ==> order == [k] + Front(old(order)) && items == (old(items) - {Last(old(order))})[k := item]
    {
      if k in items {
        order := ToFront(order, k);
        items := items[k := item];
        return false;
      }
      ghost var before := order;
      order := [k] + order;
      items := items[k := item];
      evicted := |order| > size;
      if evicted {
        var oldest := order[|order| - 1];
        assert oldest == Last(before) && oldest in before;
        order := order[..|order| - 1];
        items := items - {oldest};
        assert order == [k] + Front(before);
      }
    }

    method Remove(k: Key) returns (present: bool)
      modifies this
      ensures present == (k in old(items))
      ensures if present then order == Without(old(order), k) && items == old(items) - {k}
              else order == old(order) && items == old(items)
    {
      present := k in items;
      if present {
        order := Without(order, k);
        items := items - {k};
      }
    }
  }

  /** The cache of the repository: every entry carries the time of its last touch. */
  class TtlCache<V> {
    const ttl: int
    const lru: Lru<V>

    ghost function Items(): set<object>
      reads lru
    {
      set k | k in lru.items :: lru.items[k]
    }

    /** The cache as a value. */
    ghost function Now(): Cache<V>
      reads this, lru, Items()
    {
      Cache(lru.order, map k | k in lru.items :: Item(lru.items[k].value, lru.items[k].lastTouch))
    }

    /** The list and the index agree, and no two keys share an item. */
    ghost predicate Valid()
      reads this, lru, Items()
    {
      && lru.size > 0
      && TtlLru.Valid(Now()) && |lru.order| <= lru.size
      && forall i, j :: i in lru.items && j in lru.items && i != j ==> lru.items[i] != lru.items[j]
    }

    constructor (size: nat, ttl: int)
      requires size > 0
      ensures Valid() && fresh(lru) && lru.size == size && this.ttl == ttl
      ensures Now() == Cache([], map[])
    {
      this.ttl := ttl;
      lru := new Lru(size);
    }

    method PeekItem(k: Key, now: int) returns (item: TtlItem?<V>)
      requires Valid()
      modifies lru
      ensures Valid() && lru.items.Keys <= old(lru.items.Keys)
      ensures forall x :: x in lru.items ==> lru.items[x] == old(lru.items[x])
      ensures Now() == TtlLru.PeekItem(old(Now()), k, now, ttl).0
      ensures item != null <==> TtlLru.PeekItem(old(Now()), k, now, ttl).1.Some?
      ensures item != null ==> k in lru.items && item == lru.items[k]
    {
      hide ToFront;
      hide Without;
      ghost var c := Now();
      PeekKeepsValid(c, k, now, ttl);
      item := lru.Get(k);
      if item == null { return; }
      if now - item.lastTouch > ttl {
        ToFrontThenWithout(c.order, k);
        var _ := lru.Remove(k);
        item := null;
        assert Now().items == c.items - {k};
      } else {
        assert Now().items == c.items;
      }
    }

    /** Get looks at the clock at `now`, and again at `later` to touch what it found. */
    method Get(k: Key, now: int, later: int) returns (value: Option<V>)
      requires Valid()
      modifies lru, Items()
      ensures Valid()
      ensures (Now(), value) == Lookup(old(Now()), k, now, later, ttl)
    {
      ghost var c := Now();
      var item := PeekItem(k, now);
      if item == null { return None; }
      item.lastTouch := later;
      assert Now().items == TtlLru.PeekItem(c, k, now, ttl).0.items[k := Item(item.value, later)];
      value := Some(item.value);
    }

    method Add(k: Key, value: V, now: int) returns (evicted: bool)
      requires Valid()
      modifies lru
      ensures Valid()
      ensures Now() == LruAdd(old(Now()), k, Item(value, now), lru.size)
      ensures evicted == Victim(old(Now()), k, lru.size).Some?
    {
      hide ToFront;
      hide Without;
      hide TtlLru.Valid;
      ghost var c := Now();
      ValidMeansIndexed(c);
      var item := new TtlItem(value, now);
      assert Now() == c;
      LruAddKeepsValid(c, k, Item(value, now), lru.size);
      evicted := lru.Add(k, item);
      assert lru.items[k] == item && forall x :: x in lru.items && x != k ==> lru.items[x] == old(lru.items[x]);
      assert Now().items == LruAdd(c, k, Item(value, now), lru.size).items;
    }

    /** Peek reads the clock once to judge freshness, and twice more to compute the expiration it reports. */
    method Peek(k: Key, now: int, first: int, second: int) returns (found: Option<(V, int)>)
      requires Valid()
      modifies lru
      ensures Valid()
      ensures Now() == TtlLru.PeekItem(old(Now()), k, now, ttl).0
      ensures var item := TtlLru.PeekItem(old(Now()), k, now, ttl).1;
              found == if item.Some? then Some((item.value.value, Expiration(item.value, first, second, ttl))) else None
    {
      var item := PeekItem(k, now);
      if item == null { return None; }
      found := Some((item.value, first + (ttl - (second - item.lastTouch))));
    }

    method Remove(k: Key) returns (present: bool)
      requires Valid()
      modifies lru
      ensures Valid()
      ensures Now() == LruRemove(old(Now()), k) && present == (k in old(Now()).items)
    {
      hide ToFront;
      hide Without;
      ghost var c := Now();
      PeekKeepsValid(c, k, 0, ttl);
      present := lru.Remove(k);
      if !present { RemoveAbsent(c.order, k); }
      assert Now().items == c.items - {k};
    }
  }

  /** New: a size that is not positive is refused. */
  method New<V>(size: int, ttl: int) returns (cache: Option<TtlCache<V>>)
    ensures cache.None? <==> size <= 0
    ensures cache.Some? ==> cache.value.Valid() && cache.value.lru.size == size && cache.value.Now() == Cache([], map[])
  {
    if size <= 0 { return None; }
    var c := new TtlCache(size, ttl);
    cache := Some(c);
  }
}
