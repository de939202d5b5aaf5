/** The TTL LRU cache as a value, its history, and what every history guarantees. */
module TtlLru {
  import opened Wrappers

  /** A cache key; the repository's own keys are strings. */
  datatype Key = Key(text: string)

  /** A cached value and the time it was last touched. */
  datatype Item<V> = Item(value: V, touch: int)

  /** Keys from most to least recently used, and their items. */
  datatype Cache<V> = Cache(order: seq<Key>, items: map<Key, Item<V>>)

  // ------------------------------------------------------------ the bounded recency list

  function Without(order: seq<Key>, k: Key): seq<Key> {
    if order == [] then []
    else if order[0] == k then Without(order[1..], k)
    else [order[0]] + Without(order[1..], k)
  }

  function ToFront(order: seq<Key>, k: Key): seq<Key> {
    [k] + Without(order, k)
  }

  /** The key that adding `k` pushes out. */
  function Victim<V>(c: Cache<V>, k: Key, size: nat): Option<Key> {
    if k !in c.items && |c.order| >= size && c.order != [] then Some(c.order[|c.order| - 1]) else None
  }

  function LruAdd<V>(c: Cache<V>, k: Key, item: Item<V>, size: nat): Cache<V> {
    if k in c.items then Cache(ToFront(c.order, k), c.items[k := item])
    else
      var v := Victim(c, k, size);
      if v.Some? then Cache([k] + c.order[..|c.order| - 1], (c.items - {v.value})[k := item])
      else Cache([k] + c.order, c.items[k := item])
  }

  function LruRemove<V>(c: Cache<V>, k: Key): Cache<V> {
    Cache(Without(c.order, k), c.items - {k})
  }

  // ------------------------------------------------------------ the TTL operations

  /** peekItem, looking at the clock at `now`: the entry moves to the front, or is purged when it has expired. */
  function PeekItem<V>(c: Cache<V>, k: Key, now: int, ttl: int): (Cache<V>, Option<Item<V>>) {
    if k !in c.items then (c, None)
    else if now - c.items[k].touch > ttl then (LruRemove(c, k), None)
    else (Cache(ToFront(c.order, k), c.items), Some(c.items[k]))
  }

  /** Get: a hit at `now` is touched at `later`. */
  function Lookup<V>(c: Cache<V>, k: Key, now: int, later: int, ttl: int): (Cache<V>, Option<V>) {
    var (d, found) := PeekItem(c, k, now, ttl);
    if found.None? then (d, None)
    else (d.(items := d.items[k := Item(found.value.value, later)]), Some(found.value.value))
  }

  /** What may be done to the cache, with the clock readings the operation takes.
      Peek's expiration is computed from two readings of its own and does not change the cache. */
  datatype Op<V> =
    | Add(key: Key, value: V, now: int)
    | Get(key: Key, now: int, later: int)
    | Peek(key: Key, now: int)
    | Remove(key: Key, now: int)

  function Step<V>(c: Cache<V>, op: Op<V>, size: nat, ttl: int): Cache<V> {
    match op
    case Add(k, v, now) => LruAdd(c, k, Item(v, now), size)
    case Get(k, now, later) => Lookup(c, k, now, later, ttl).0
    case Peek(k, now) => PeekItem(c, k, now, ttl).0
    case Remove(k, _) => LruRemove(c, k)
  }

  function Last<T>(h: seq<T>): T
    requires h != []
  {
    h[|h| - 1]
  }

  function Front<T>(h: seq<T>): seq<T>
    requires h != []
  {
    h[..|h| - 1]
  }

  function Run<V>(h: seq<Op<V>>, size: nat, ttl: int): Cache<V> {
    if h == [] then Cache([], map[]) else Step(Run(Front(h), size, ttl), Last(h), size, ttl)
  }

  // ------------------------------------------------------------ well-formedness and the size bound

  ghost predicate Distinct(order: seq<Key>) {
    forall i, j :: 0 <= i < j < |order| ==> order[i] != order[j]
  }

  ghost predicate Valid<V>(c: Cache<V>) {
    Distinct(c.order) && (forall k :: k in c.order ==> k in c.items) && forall k :: k in c.items ==> k in c.order
  }

  lemma ValidMeansIndexed<V>(c: Cache<V>)
    requires Valid(c)
    ensures forall x :: x in c.order ==> x in c.items
    ensures forall x :: x in c.items ==> x in c.order
  {
  }

  lemma {:induction false} RemoveRemoves(order: seq<Key>, k: Key)
    requires Distinct(order)
    ensures Distinct(Without(order, k))
    ensures forall x :: x in Without(order, k) <==> x in order && x != k
    ensures |Without(order, k)| == |order| - (if k in order then 1 else 0)
  {
    if order != [] {
      var t := order[1..];
      assert order == [order[0]] + t;
      RemoveRemoves(t, k);
      assert order[0] !in t;
    }
  }

  lemma FrontMembers(order: seq<Key>)
    requires Distinct(order) && order != []
    ensures Distinct(Front(order))
    ensures forall x :: x in Front(order) <==> x in order && x != Last(order)
  {
    assert order == Front(order) + [Last(order)];
  }

  lemma ToFrontKeepsValid<V>(c: Cache<V>, k: Key, items: map<Key, Item<V>>)
    requires Valid(c) && k in c.items && items.Keys == c.items.Keys
    ensures Valid(Cache(ToFront(c.order, k), items)) && |ToFront(c.order, k)| == |c.order|
  {
    RemoveRemoves(c.order, k);
    var d := Cache(ToFront(c.order, k), items);
    assert d.order == [k] + Without(c.order, k);
    forall x | x in d.order ensures x in d.items { assert x == k || x in c.order; }
  }

  lemma EvictKeepsValid<V>(c: Cache<V>, k: Key, item: Item<V>)
    requires Valid(c) && k !in c.items && c.order != []
    ensures Valid(Cache([k] + Front(c.order), (c.items - {Last(c.order)})[k := item]))
  {
    FrontMembers(c.order);
    var d := Cache([k] + Front(c.order), (c.items - {Last(c.order)})[k := item]);
    forall x | x in d.order ensures x in d.items { assert x == k || x in Front(c.order); }
  }

  lemma LruAddKeepsValid<V>(c: Cache<V>, k: Key, item: Item<V>, size: nat)
    requires Valid(c) && |c.order| <= size && size > 0
    ensures var d := LruAdd(c, k, item, size); Valid(d) && |d.order| <= size
  {
    hide ToFront;
    hide Valid;
    if k in c.items {
      ToFrontKeepsValid(c, k, c.items[k := item]);
    } else if Victim(c, k, size).Some? {
      EvictKeepsValid(c, k, item);
    } else {
      PushKeepsValid(c, k, item);
    }
  }

  lemma PushKeepsValid<V>(c: Cache<V>, k: Key, item: Item<V>)
    requires Valid(c) && k !in c.items
    ensures Valid(Cache([k] + c.order, c.items[k := item]))
  {
  }

  lemma PeekKeepsValid<V>(c: Cache<V>, k: Key, now: int, ttl: int)
    requires Valid(c)
    ensures var d := PeekItem(c, k, now, ttl).0; Valid(d) && |d.order| <= |c.order|
    ensures Valid(LruRemove(c, k)) && |LruRemove(c, k).order| <= |c.order|
  {
    RemoveRemoves(c.order, k);
    var d := LruRemove(c, k);
    assert d.order == Without(c.order, k);
    forall x | x in d.order ensures x in d.items { assert x in c.order; }
  }

  lemma StepKeepsValid<V>(c: Cache<V>, op: Op<V>, size: nat, ttl: int)
    requires Valid(c) && |c.order| <= size && size > 0
    ensures var d := Step(c, op, size, ttl); Valid(d) && |d.order| <= size
  {
    hide LruAdd;
    hide PeekItem;
    hide LruRemove;
    match op
    case Add(k, v, now) => LruAddKeepsValid(c, k, Item(v, now), size);
    case _ => PeekKeepsValid(c, op.key, op.now, ttl); PeekFinds(c, op.key, op.now, ttl);
  }

  lemma PeekFinds<V>(c: Cache<V>, k: Key, now: int, ttl: int)
    ensures var (d, found) := PeekItem(c, k, now, ttl); found.Some? ==> d.items == c.items && k in d.items && d.order != []
  {
  }

  /** The cache never holds more than `size` keys. */
  lemma {:induction false} RunIsBounded<V>(h: seq<Op<V>>, size: nat, ttl: int)
    requires size > 0
    ensures var c := Run(h, size, ttl); Valid(c) && |c.order| <= size
  {
    if h != [] {
      RunIsBounded(Front(h), size, ttl);
      StepKeepsValid(Run(Front(h), size, ttl), Last(h), size, ttl);
    }
  }

  // ------------------------------------------------------------ agreement with a history specification

  function From<V>(op: Op<V>): int {
    op.now
  }

  function To<V>(op: Op<V>): int {
    if op.Get? then op.later else op.now
  }

  /** The clock never runs backwards. */
  ghost predicate Timed<V>(h: seq<Op<V>>) {
    && (forall i :: 0 <= i < |h| ==> From(h[i]) <= To(h[i]))
    && (forall i, j :: 0 <= i < j < |h| ==> To(h[i]) <= From(h[j]))
  }

  ghost predicate NotBefore<V>(h: seq<Op<V>>, t: int) {
    forall i :: 0 <= i < |h| ==> To(h[i]) <= t
  }

  /** What the history alone says about a key: the last value added for it, touched by that Add or by the last Get
      that came in time. It is lost by Remove and by eviction, and never by expiring. */
  ghost function Ideal<V>(h: seq<Op<V>>, k: Key, size: nat, ttl: int): Option<Item<V>> {
    if h == [] then None
    else
      var before := Ideal(Front(h), k, size, ttl);
      match Last(h)
      case Add(x, v, now) =>
        if x == k then Some(Item(v, now))
        else if Victim(Run(Front(h), size, ttl), x, size) == Some(k) then None
        else before
      case Get(x, now, later) =>
        if x == k && before.Some? && now - before.value.touch <= ttl then Some(Item(before.value.value, later)) else before
      case Peek(_, _) => before
      case Remove(x, _) => if x == k then None else before
  }

  /** The cache holds what the history says, except for entries it has purged after they expired. */
  ghost predicate Agrees<V>(item: Option<Item<V>>, ideal: Option<Item<V>>, t: int, ttl: int) {
    item == ideal || (item.None? && t - ideal.value.touch > ttl)
  }

  ghost function Held<V>(c: Cache<V>, k: Key): Option<Item<V>> {
    if k in c.items then Some(c.items[k]) else None
  }

  lemma StepAgrees<V>(h: seq<Op<V>>, k: Key, size: nat, ttl: int, t: int)
    requires size > 0 && h != [] && Timed(h) && t <= From(Last(h))
    requires Agrees(Held(Run(Front(h), size, ttl), k), Ideal(Front(h), k, size, ttl), t, ttl)
    ensures Agrees(Held(Run(h, size, ttl), k), Ideal(h, k, size, ttl), To(Last(h)), ttl)
  {
    RunIsBounded(Front(h), size, ttl);
  }

  lemma {:induction false} CacheRefinesHistory<V>(h: seq<Op<V>>, k: Key, size: nat, ttl: int, t: int)
    requires size > 0 && Timed(h) && NotBefore(h, t)
    ensures Agrees(Held(Run(h, size, ttl), k), Ideal(h, k, size, ttl), t, ttl)
  {
    if h != [] {
      CacheRefinesHistory(Front(h), k, size, ttl, From(Last(h)));
      StepAgrees(h, k, size, ttl, From(Last(h)));
      assert To(Last(h)) <= t;
    }
  }

  /** A lookup after any history hits exactly when the history says that the entry is there and still fresh,
      and returns the value the history says: purging expired entries is never visible. */
  lemma LookupHitsIff<V>(h: seq<Op<V>>, k: Key, size: nat, ttl: int, now: int, later: int)
    requires size > 0 && Timed(h) && NotBefore(h, now)
    ensures var hit := Lookup(Run(h, size, ttl), k, now, later, ttl).1;
            var ideal := Ideal(h, k, size, ttl);
            && (hit.Some? <==> ideal.Some? && now - ideal.value.touch <= ttl)
            && (hit.Some? ==> hit.value == ideal.value.value)
  {
    CacheRefinesHistory(h, k, size, ttl, now);
  }

  /** Entry `i` of the history is the Add that the key's present value comes from. */
  ghost predicate LatestAdd<V>(h: seq<Op<V>>, k: Key, size: nat, ttl: int, i: nat) {
    && i < |h| && h[i].Add? && h[i].key == k
    && forall j :: i < j < |h| ==>
         !((h[j].Add? || h[j].Remove?) && h[j].key == k)
         && !(h[j].Add? && Victim(Run(h[..j], size, ttl), h[j].key, size) == Some(k))
  }

  lemma LatestAddStep<V>(h: seq<Op<V>>, k: Key, size: nat, ttl: int, i: nat)
    requires h != [] && i < |h| - 1
    ensures LatestAdd(h, k, size, ttl, i) <==>
            && LatestAdd(Front(h), k, size, ttl, i)
            && !((Last(h).Add? || Last(h).Remove?) && Last(h).key == k)
            && !(Last(h).Add? && Victim(Run(Front(h), size, ttl), Last(h).key, size) == Some(k))
  {
    hide Run;
    hide Victim;
    var f := Front(h);
    assert forall j :: 0 <= j < |f| ==> h[..j] == f[..j] && h[j] == f[j];
  }

  /** The history specification in closed form: the value is the one of the latest Add that was not undone
      by Remove or eviction. */
  lemma {:induction false} IdealIsLatestAdd<V>(h: seq<Op<V>>, k: Key, size: nat, ttl: int)
    ensures Ideal(h, k, size, ttl).Some? <==> exists i: nat :: LatestAdd(h, k, size, ttl, i)
    ensures forall i: nat :: LatestAdd(h, k, size, ttl, i) ==>
              Ideal(h, k, size, ttl).Some? && Ideal(h, k, size, ttl).value.value == h[i].value
  {
    if h != [] {
      hide Run;
      hide Victim;
      var f, n := Front(h), |h| - 1;
      IdealIsLatestAdd(f, k, size, ttl);
      forall i: nat | i < n ensures LatestAdd(h, k, size, ttl, i) <==>
          LatestAdd(f, k, size, ttl, i) && !((h[n].Add? || h[n].Remove?) && h[n].key == k)
          && !(h[n].Add? && Victim(Run(f, size, ttl), h[n].key, size) == Some(k)) {
        LatestAddStep(h, k, size, ttl, i);
      }
      if h[n].Add? && h[n].key == k { assert LatestAdd(h, k, size, ttl, n); }
    }
  }

  /** Operation `j` touches the key: it adds it, or is a Get of it that hits. */
  ghost predicate Touches<V>(h: seq<Op<V>>, k: Key, size: nat, ttl: int, j: nat) {
    && j < |h| && h[j].key == k
    && (h[j].Add? || (h[j].Get? && Lookup(Run(h[..j], size, ttl), k, h[j].now, h[j].later, ttl).1.Some?))
  }

  ghost predicate LastTouch<V>(h: seq<Op<V>>, k: Key, size: nat, ttl: int, j: nat) {
    Touches(h, k, size, ttl, j) && forall l: nat :: j < l ==> !Touches(h, k, size, ttl, l)
  }

  lemma TouchesInFront<V>(h: seq<Op<V>>, k: Key, size: nat, ttl: int, j: nat)
    requires h != [] && j < |h| - 1
    ensures Touches(h, k, size, ttl, j) <==> Touches(Front(h), k, size, ttl, j)
  {
    assert h[..j] == Front(h)[..j];
  }

  /** What the history counts freshness from is the last Add of the key or Get that hit it, whichever came later;
      a Peek never counts. */
  lemma {:induction false} IdealIsTouchedLast<V>(h: seq<Op<V>>, k: Key, size: nat, ttl: int)
    requires size > 0 && Timed(h)
    ensures Ideal(h, k, size, ttl).Some? ==>
              exists j: nat :: LastTouch(h, k, size, ttl, j) && Ideal(h, k, size, ttl).value.touch == To(h[j])
  {
    if h != [] {
      var f, n, op := Front(h), |h| - 1, Last(h);
      IdealIsTouchedLast(f, k, size, ttl);
      assert h[..n] == f;
      if op.Get? && op.key == k { LookupHitsIff(f, k, size, ttl, op.now, op.later); }
      forall j: nat | j < n ensures Touches(h, k, size, ttl, j) <==> Touches(f, k, size, ttl, j) {
        TouchesInFront(h, k, size, ttl, j);
      }
      hide Run, Lookup, Victim;
      if Touches(h, k, size, ttl, n) {
        assert LastTouch(h, k, size, ttl, n);
      } else if Ideal(h, k, size, ttl).Some? {
        var j: nat :| LastTouch(f, k, size, ttl, j) && Ideal(f, k, size, ttl).value.touch == To(f[j]);
        assert LastTouch(h, k, size, ttl, j);
      }
    }
  }

  // ------------------------------------------------------------ residency

  /** The keys used more recently than `k`. */
  function Ahead(order: seq<Key>, k: Key): set<Key> {
    if order == [] || order[0] == k then {} else {order[0]} + Ahead(order[1..], k)
  }

  lemma {:induction false} AheadIsListed(order: seq<Key>, k: Key, x: Key)
    requires x in Ahead(order, k)
    ensures x in order && x != k
  {
    if x != order[0] { AheadIsListed(order[1..], k, x); }
  }

  lemma {:induction false} AheadSize(order: seq<Key>, k: Key)
    requires Distinct(order) && k in order
    ensures |Ahead(order, k)| < |order|
    ensures order[|order| - 1] == k ==> |Ahead(order, k)| == |order| - 1
  {
    if order[0] != k {
      var t := order[1..];
      assert order == [order[0]] + t;
      AheadSize(t, k);
      if order[0] in Ahead(t, k) { AheadIsListed(t, k, order[0]); }
      hide Ahead;
    }
  }

  lemma AheadCounts(order: seq<Key>, k: Key)
    requires Distinct(order) && k in order
    ensures k !in Ahead(order, k) && |Ahead(order, k)| < |order|
    ensures forall x :: x in Ahead(order, k) ==> x in order
    ensures order[|order| - 1] == k ==> |Ahead(order, k)| == |order| - 1
  {
    AheadSize(order, k);
    hide Ahead;
    forall x | x in Ahead(order, k) ensures x in order && x != k { AheadIsListed(order, k, x); }
  }

  lemma {:induction false} AheadOfRemove(order: seq<Key>, x: Key, k: Key)
    requires x != k && k in order
    ensures Ahead(Without(order, x), k) == Ahead(order, k) - {x}
  {
    if order[0] != k {
      assert order == [order[0]] + order[1..];
      AheadOfRemove(order[1..], x, k);
    }
  }

  lemma {:induction false} AheadOfPrefix(order: seq<Key>, k: Key)
    requires order != [] && k in Front(order)
    ensures Ahead(Front(order), k) == Ahead(order, k)
  {
    if order[0] != k {
      assert Front(order)[1..] == Front(order[1..]);
      assert Front(order) == [order[0]] + Front(order)[1..];
      AheadOfPrefix(order[1..], k);
    }
  }

  /** The operation uses its key: it adds it, or is a Get or Peek that finds it fresh. */
  predicate Refreshes<V>(c: Cache<V>, op: Op<V>, ttl: int) {
    op.Add? || (!op.Remove? && op.key in c.items && op.now - c.items[op.key].touch <= ttl)
  }

  /** The keys used by `later`, run on top of `earlier`, and not taken out again: a Remove takes its key out,
      and so does a Get or Peek that finds it expired. */
  ghost function InUse<V>(earlier: seq<Op<V>>, later: seq<Op<V>>, size: nat, ttl: int): set<Key> {
    if later == [] then {}
    else
      var before, op := InUse(earlier, Front(later), size, ttl), Last(later);
      if Refreshes(Run(earlier + Front(later), size, ttl), op, ttl) then before + {op.key} else before - {op.key}
  }

  /** At no time are `size` keys in use. */
  ghost predicate Roomy<V>(earlier: seq<Op<V>>, later: seq<Op<V>>, size: nat, ttl: int) {
    forall i :: 0 <= i <= |later| ==> |InUse(earlier, later[..i], size, ttl)| < size
  }

  /** What one operation on another key does to `k`, when `used` are the keys in front of `k` then. */
  ghost predicate MovedBack<V>(d: Cache<V>, k: Key, used: set<Key>, size: nat) {
    if k in d.items then Ahead(d.order, k) == used else |used| >= size
  }

  lemma AheadOfCons(x: Key, order: seq<Key>, k: Key)
    requires x != k
    ensures Ahead([x] + order, k) == Ahead(order, k) + {x}
  {
    assert ([x] + order)[1..] == order;
  }

  lemma AddMovesBack<V>(c: Cache<V>, x: Key, item: Item<V>, k: Key, size: nat)
    requires Valid(c) && |c.order| <= size && size > 0 && k in c.items && x != k
    ensures MovedBack(LruAdd(c, x, item, size), k, Ahead(c.order, k) + {x}, size)
  {
    hide Ahead;
    if x in c.items {
      AheadOfRemove(c.order, x, k);
      AheadOfCons(x, Without(c.order, x), k);
    } else if Victim(c, x, size).None? {
      AheadOfCons(x, c.order, k);
    } else if k == Last(c.order) {
      AheadCounts(c.order, k);
      assert x !in Ahead(c.order, k);
      assert |Ahead(c.order, k) + {x}| == |c.order|;
    } else {
      FrontHas(c.order, k);
      AheadOfPrefix(c.order, k);
      AheadOfCons(x, Front(c.order), k);
    }
  }

  lemma FrontHas(order: seq<Key>, k: Key)
    requires k in order && k != Last(order)
    ensures k in Front(order)
  {
    assert order == Front(order) + [Last(order)];
  }

  lemma LruRemoveMovesBack<V>(c: Cache<V>, x: Key, k: Key, size: nat)
    requires Valid(c) && k in c.items && x != k
    ensures MovedBack(LruRemove(c, x), k, Ahead(c.order, k) - {x}, size)
  {
    hide Ahead;
    AheadOfRemove(c.order, x, k);
  }

  lemma FindMovesBack<V>(c: Cache<V>, x: Key, now: int, k: Key, size: nat, ttl: int)
    requires Valid(c) && k in c.items && x != k
    ensures var found := x in c.items && now - c.items[x].touch <= ttl;
            MovedBack(PeekItem(c, x, now, ttl).0, k, if found then Ahead(c.order, k) + {x} else Ahead(c.order, k) - {x}, size)
  {
    AheadCounts(c.order, k);
    hide Ahead;
    AheadOfRemove(c.order, x, k);
    AheadOfCons(x, Without(c.order, x), k);
  }

  lemma {:induction false} RemoveAbsent(order: seq<Key>, x: Key)
    requires x !in order
    ensures Without(order, x) == order
  {
    if order != [] {
      assert order == [order[0]] + order[1..];
      RemoveAbsent(order[1..], x);
    }
  }

  /** One operation on another key: how it moves `k` back, and when it pushes `k` out. */
  lemma OneStepBack<V>(c: Cache<V>, op: Op<V>, k: Key, size: nat, ttl: int)
    requires Valid(c) && |c.order| <= size && size > 0 && k in c.items && op.key != k
    ensures MovedBack(Step(c, op, size, ttl), k,
                      if Refreshes(c, op, ttl) then Ahead(c.order, k) + {op.key} else Ahead(c.order, k) - {op.key}, size)
  {
    hide LruAdd;
    hide LruRemove;
    hide PeekItem;
    match op
    case Add(x, v, now) => AddMovesBack(c, x, Item(v, now), k, size);
    case _ =>
      FindMovesBack(c, op.key, op.now, k, size, ttl);
      LruRemoveMovesBack(c, op.key, k, size);
      PeekFinds(c, op.key, op.now, ttl);
  }

  /** The key is there as long as there was room, and the keys in use are the ones in front of it. */
  ghost predicate Resides<V>(c: Cache<V>, k: Key, used: set<Key>, roomy: bool) {
    (k in c.items <==> roomy) && (k in c.items ==> Ahead(c.order, k) == used)
  }

  lemma ResidesStep<V>(c: Cache<V>, op: Op<V>, k: Key, used: set<Key>, roomy: bool, size: nat, ttl: int)
    requires Valid(c) && |c.order| <= size && size > 0 && op.key != k && Resides(c, k, used, roomy)
    ensures var now := if Refreshes(c, op, ttl) then used + {op.key} else used - {op.key};
            Resides(Step(c, op, size, ttl), k, now, roomy && |now| < size)
  {
    hide Step, Refreshes;
    if k in c.items {
      OneStepBack(c, op, k, size, ttl);
      StepKeepsValid(c, op, size, ttl);
      var d := Step(c, op, size, ttl);
      if k in d.items { AheadCounts(d.order, k); }
    } else {
      StaysOut(c, op, k, size, ttl);
    }
  }

  lemma StaysOut<V>(c: Cache<V>, op: Op<V>, k: Key, size: nat, ttl: int)
    requires k !in c.items && op.key != k
    ensures k !in Step(c, op, size, ttl).items
  {
  }

  lemma {:induction false} ResidesAfter<V>(earlier: seq<Op<V>>, later: seq<Op<V>>, k: Key, size: nat, ttl: int)
    requires size > 0
    requires var c := Run(earlier, size, ttl); k in c.items && c.order != [] && c.order[0] == k
    requires forall op :: op in later ==> op.key != k
    ensures Resides(Run(earlier + later, size, ttl), k, InUse(earlier, later, size, ttl), Roomy(earlier, later, size, ttl))
    decreases |later|
  {
    hide Step;
    hide Refreshes;
    hide Resides;
    hide Roomy;
    if later == [] {
      assert earlier + later == earlier;
      RoomAtFirst(earlier, size, ttl);
      JustUsedResides(Run(earlier, size, ttl), k);
    } else {
      var f, op := Front(later), Last(later);
      assert later == f + [op] && op in later;
      var c := Run(earlier + f, size, ttl);
      ResidesAfter(earlier, f, k, size, ttl);
      RunIsBounded(earlier + f, size, ttl);
      ResidesStep(c, op, k, InUse(earlier, f, size, ttl), Roomy(earlier, f, size, ttl), size, ttl);
      RoomStep(earlier, later, size, ttl);
      assert Front(earlier + later) == earlier + f && Last(earlier + later) == op;
    }
  }

  lemma JustUsedResides<V>(c: Cache<V>, k: Key)
    requires k in c.items && c.order != [] && c.order[0] == k
    ensures Resides(c, k, {}, true)
  {
  }

  lemma RoomAtFirst<V>(earlier: seq<Op<V>>, size: nat, ttl: int)
    requires size > 0
    ensures Roomy(earlier, [], size, ttl)
  {
  }

  lemma RoomStep<V>(earlier: seq<Op<V>>, later: seq<Op<V>>, size: nat, ttl: int)
    requires later != []
    ensures Roomy(earlier, later, size, ttl) <==>
            Roomy(earlier, Front(later), size, ttl) && |InUse(earlier, later, size, ttl)| < size
  {
    hide InUse;
    var f := Front(later);
    assert forall i :: 0 <= i <= |f| ==> later[..i] == f[..i];
    assert later[..|later|] == later;
  }

  /** A key that was just used stays exactly until `size` other keys are in use at one time; and while it stays,
      the keys in front of it are those in use. */
  lemma Residency<V>(earlier: seq<Op<V>>, later: seq<Op<V>>, k: Key, size: nat, ttl: int)
    requires size > 0
    requires var c := Run(earlier, size, ttl); k in c.items && c.order != [] && c.order[0] == k
    requires forall op :: op in later ==> op.key != k
    ensures var c := Run(earlier + later, size, ttl);
            && (k in c.items <==> Roomy(earlier, later, size, ttl))
            && (k in c.items ==> Ahead(c.order, k) == InUse(earlier, later, size, ttl))
  {
    ResidesAfter(earlier, later, k, size, ttl);
  }

  /** A Get or Peek that finds its key expired takes it out, and leaves the others and their order as they were. */
  lemma ExpiredIsTakenOut<V>(c: Cache<V>, op: Op<V>, size: nat, ttl: int)
    requires Valid(c) && (op.Get? || op.Peek?) && op.key in c.items && op.now - c.items[op.key].touch > ttl
    ensures var d := Step(c, op, size, ttl);
            && op.key !in d.items && op.key !in d.order && |d.order| == |c.order| - 1
            && (forall x :: x in c.items && x != op.key ==> x in d.items && d.items[x] == c.items[x])
            && (forall x :: x in c.order && x != op.key ==> x in d.order && Ahead(d.order, x) == Ahead(c.order, x) - {op.key})
  {
    RemoveRemoves(c.order, op.key);
    forall x | x in c.order && x != op.key ensures Ahead(Without(c.order, op.key), x) == Ahead(c.order, x) - {op.key} {
      AheadOfRemove(c.order, op.key, x);
    }
    hide Ahead, Without;
  }

  /** Moving a key to the front before taking it out makes no difference. */
  lemma ToFrontThenWithout(order: seq<Key>, k: Key)
    ensures Without(ToFront(order, k), k) == Without(order, k)
  {
    WithoutTwice(order, k);
    assert ToFront(order, k)[1..] == Without(order, k);
  }

  lemma {:induction false} WithoutTwice(order: seq<Key>, k: Key)
    ensures Without(Without(order, k), k) == Without(order, k)
  {
    if order != [] {
      WithoutTwice(order[1..], k);
      if order[0] != k { assert Without(order, k)[1..] == Without(order[1..], k); }
    }
  }

  // ------------------------------------------------------------ what Peek promises

  /** The expiration Peek reports, from its clock readings at `first` and, a little later, at `second`. */
  function Expiration<V>(item: Item<V>, first: int, second: int, ttl: int): int {
    first + (ttl - (second - item.touch))
  }

  lemma UseLeavesInFront<V>(c: Cache<V>, op: Op<V>, size: nat, ttl: int)
    requires Refreshes(c, op, ttl)
    ensures var d := Step(c, op, size, ttl); op.key in d.items && d.order != [] && d.order[0] == op.key
  {
  }

  /** Since its last Add, or the last Get or Peek that found it fresh, a key stays exactly until `size` other keys are in
      use at one time. */
  lemma ResidencySinceUse<V>(earlier: seq<Op<V>>, op: Op<V>, later: seq<Op<V>>, size: nat, ttl: int)
    requires size > 0 && Refreshes(Run(earlier, size, ttl), op, ttl)
    requires forall other :: other in later ==> other.key != op.key
    ensures var c := Run(earlier + [op] + later, size, ttl);
            && (op.key in c.items <==> Roomy(earlier + [op], later, size, ttl))
            && (op.key in c.items ==> Ahead(c.order, op.key) == InUse(earlier + [op], later, size, ttl))
  {
    var h := earlier + [op];
    assert Front(h) == earlier && Last(h) == op;
    UseLeavesInFront(Run(earlier, size, ttl), op, size, ttl);
    hide Step, InUse, Roomy;
    Residency(h, later, op.key, size, ttl);
  }

  lemma OthersKeepItem<V>(c: Cache<V>, op: Op<V>, k: Key, size: nat, ttl: int)
    requires op.key != k && k in Step(c, op, size, ttl).items
    ensures k in c.items && Step(c, op, size, ttl).items[k] == c.items[k]
  {
  }

  lemma {:induction false} OthersLeaveItem<V>(earlier: seq<Op<V>>, later: seq<Op<V>>, k: Key, size: nat, ttl: int)
    requires forall op :: op in later ==> op.key != k
    requires k in Run(earlier + later, size, ttl).items
    ensures k in Run(earlier, size, ttl).items
    ensures Run(earlier + later, size, ttl).items[k] == Run(earlier, size, ttl).items[k]
    decreases |later|
  {
    hide Step;
    if later == [] {
      assert earlier + later == earlier;
    } else {
      var f, op := Front(later), Last(later);
      assert later == f + [op] && op in later;
      assert Front(earlier + later) == earlier + f && Last(earlier + later) == op;
      OthersKeepItem(Run(earlier + f, size, ttl), op, k, size, ttl);
      OthersLeaveItem(earlier, f, k, size, ttl);
    }
  }

  lemma PeekLeaves<V>(c: Cache<V>, k: Key, at: int, size: nat, ttl: int)
    requires PeekItem(c, k, at, ttl).1.Some?
    ensures var d := Step(c, Peek(k, at), size, ttl);
            && k in d.items && d.order != [] && d.order[0] == k && d.items == c.items
            && PeekItem(c, k, at, ttl).1 == Some(c.items[k])
  {
  }

  /** Peek refreshes recency but not expiry. Whatever operations on other keys follow, as long as fewer than `size` of them
      are in use at any time, a Get hits, with the value that Peek saw, until the reported expiration; the time between Peek's two
      clock readings is all that the report can be too early by. */
  lemma PeekPredictsGet<V>(earlier: seq<Op<V>>, later: seq<Op<V>>, k: Key, at: int, first: int, second: int, now: int,
                           touched: int, size: nat, ttl: int)
    requires size > 0 && at <= first <= second <= now && forall op :: op in later ==> op.key != k
    requires PeekItem(Run(earlier, size, ttl), k, at, ttl).1.Some?
    requires Roomy(earlier + [Peek(k, at)], later, size, ttl)
    ensures var seen := PeekItem(Run(earlier, size, ttl), k, at, ttl).1.value;
            var e := Expiration(seen, first, second, ttl);
            var hit := Lookup(Run(earlier + [Peek(k, at)] + later, size, ttl), k, now, touched, ttl).1;
            && (hit.Some? <==> now <= e + (second - first))
            && (now <= e ==> hit == Some(seen.value))
  {
    var peeked := earlier + [Peek(k, at)];
    assert Front(peeked) == earlier && Last(peeked) == Op<V>.Peek(k, at);
    PeekLeaves(Run(earlier, size, ttl), k, at, size, ttl);
    hide Step;
    Residency(peeked, later, k, size, ttl);
    OthersLeaveItem(peeked, later, k, size, ttl);
    hide Run, Roomy;
  }
}
