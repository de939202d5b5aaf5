/** The resource SKU cache: lookup by name, and the zones some machine size may deploy into. */
module Zones {
  import opened Errors
  import opened Ordering
  import opened Text
  import opened Wrappers

  const VIRTUAL_MACHINES := "virtualMachines"

  datatype LocationInfo = LocationInfo(location: string, zones: seq<string>)

  datatype RestrictionType = Location | Zone

  datatype Restriction = Restriction(kind: RestrictionType, zones: seq<string>)

  datatype Sku = Sku(
    name: Option<string>,
    resourceType: Option<string>,
    locationInfo: seq<LocationInfo>,
    restrictions: Option<seq<Restriction>>
  )

  // ------------------------------------------------------------ which zones are offered

  predicate IsVm(s: Sku) {
    s.resourceType.Some? && EqualFold(s.resourceType.value, VIRTUAL_MACHINES)
  }

  predicate HasSize(s: Sku, size: string) {
    s.name.Some? && EqualFold(s.name.value, size)
  }

  /** Entry `i` is the first one for the location. */
  predicate FirstFor(s: Sku, location: string, i: int) {
    && 0 <= i < |s.locationInfo| && EqualFold(s.locationInfo[i].location, location)
    && forall j :: 0 <= j < i ==> !EqualFold(s.locationInfo[j].location, location)
  }

  /** No restriction closes the location or the zone. */
  predicate Unrestricted(s: Sku, zone: string) {
    s.restrictions.Some? ==> forall r :: r in s.restrictions.value ==> r.kind != Location && zone !in r.zones
  }

  /** The SKU lists the zone in its first entry for the location, and may be deployed there. */
  ghost predicate Offers(s: Sku, location: string, zone: string) {
    Unrestricted(s, zone) && exists i :: FirstFor(s, location, i) && zone in s.locationInfo[i].zones
  }

  ghost function Offered(s: Sku, location: string): set<string> {
    set i, z | 0 <= i < |s.locationInfo| && FirstFor(s, location, i) && z in s.locationInfo[i].zones && Unrestricted(s, z) :: z
  }

  lemma OfferedIsOffers(s: Sku, location: string, zone: string)
    ensures zone in Offered(s, location) <==> Offers(s, location, zone)
  {
  }

  /** The zones that some selected virtual machine SKU offers. A size of `None` selects them all. */
  ghost function ZoneSet(data: seq<Sku>, size: Option<string>, location: string): set<string> {
    set s, z | s in data && Selected(s, size) && z in Offered(s, location) :: z
  }

  predicate Selected(s: Sku, size: Option<string>) {
    (size.Some? ==> HasSize(s, size.value)) && IsVm(s)
  }

  // ------------------------------------------------------------ the loops

  /** The part of the callback that runs for one entry of the right location. */
  method AvailableZones(s: Sku, i: nat) returns (available: set<string>)
    requires i < |s.locationInfo|
    ensures available == set z | z in s.locationInfo[i].zones && Unrestricted(s, z)
  {
    available := {};
    var zones := s.locationInfo[i].zones;
    for j := 0 to |zones|
      invariant available == set z | z in zones[..j]
    {
      assert zones[..j + 1] == zones[..j] + [zones[j]];
      available := available + {zones[j]};
    }
    assert zones[..|zones|] == zones;
    if s.restrictions.None? { return; }
    ghost var all := available;
    var restrictions := s.restrictions.value;
    for j := 0 to |restrictions|
      invariant available == set z | z in all && forall r :: r in restrictions[..j] ==> r.kind != Location && z !in r.zones
    {
      assert restrictions[..j + 1] == restrictions[..j] + [restrictions[j]];
      if restrictions[j].kind == Location {
        assert restrictions[j] in restrictions;
        available := {};
        return;
      }
      ghost var before := available;
      var closed := restrictions[j].zones;
      for k := 0 to |closed|
        invariant available == set z | z in before && z !in closed[..k]
      {
        assert closed[..k + 1] == closed[..k] + [closed[k]];
        available := available - {closed[k]};
      }
      assert closed[..|closed|] == closed;
    }
    assert restrictions[..|restrictions|] == restrictions;
  }

  /** The callback GetZones and GetZonesWithVMSize run over every SKU. */
  method AddZones(s: Sku, size: Option<string>, location: string, zones: set<string>) returns (all: set<string>)
    ensures all == zones + if Selected(s, size) then Offered(s, location) else {}
  {
    all := zones;
    if !Selected(s, size) { return; }
    for i := 0 to |s.locationInfo|
      invariant forall j :: 0 <= j < i ==> !EqualFold(s.locationInfo[j].location, location)
      invariant all == zones
    {
      if EqualFold(s.locationInfo[i].location, location) {
        var available := AvailableZones(s, i);
        assert FirstFor(s, location, i);
        assert available == Offered(s, location);
        all := all + available;
        return;
      }
    }
    assert Offered(s, location) == {};
  }

  // ------------------------------------------------------------ the cache

  /** What a lookup leaves in the cache. An empty answer is a nil list, so it is asked for again the next time. */
  function Kept(data: Option<seq<Sku>>, listed: Result<seq<Sku>, Error>): (kept: Option<seq<Sku>>)
    ensures data.Some? ==> kept == data
    ensures data.None? ==> (kept.Some? <==> listed.Success? && listed.value != []) && (kept.Some? ==> kept.value == listed.value)
  {
    if data.Some? || listed.Failure? || listed.value == [] then data else Some(listed.value)
  }

  function FirstNamed(skus: seq<Sku>, name: string): (sku: Option<Sku>)
    ensures sku.Some? ==> exists i :: 0 <= i < |skus| && skus[i] == sku.value && HasSize(skus[i], name)
                                      && forall j :: 0 <= j < i ==> !HasSize(skus[j], name)
    ensures sku.None? ==> forall s :: s in skus ==> !HasSize(s, name)
  {
    if skus == [] then None
    else
      assert skus == [skus[0]] + skus[1..];
      if HasSize(skus[0], name) then Some(skus[0]) else FirstNamed(skus[1..], name)
  }

  class SkuCache {
    var data: Option<seq<Sku>>

    constructor (data: Option<seq<Sku>>)
      ensures this.data == data
    {
      this.data := data;
    }

    /** The SKUs a lookup sees, when `listed` is the answer of the client. */
    ghost function Loaded(listed: Result<seq<Sku>, Error>): Result<seq<Sku>, Error>
      reads this
    {
      if data.Some? then Success(data.value)
      else match listed
           case Success(skus) => Success(skus)
           case Failure(e) => Failure(Wrapped(e))
    }

    method Refresh(listed: Result<seq<Sku>, Error>) returns (err: Option<Error>)
      modifies this
      ensures err == if listed.Failure? then Some(Wrapped(listed.error)) else None
      ensures listed.Failure? ==> data == old(data)
      ensures listed.Success? ==> data == Kept(None, listed)
    {
      if listed.Failure? { return Some(Wrapped(listed.error)); }
      data := if listed.value == [] then None else Some(listed.value);
      err := None;
    }

    /** The first SKU of the name, whatever its kind; `kind` only goes into the error text. */
    method Get(name: string, kind: string, listed: Result<seq<Sku>, Error>) returns (sku: Result<Sku, Error>)
      modifies this
      ensures data == Kept(old(data), listed)
      ensures var loaded := old(Loaded(listed));
              if loaded.Failure? then sku == Failure(loaded.error)
              else if FirstNamed(loaded.value, name).Some? then sku == Success(FirstNamed(loaded.value, name).value)
              else sku == Failure(Wrapped(SkuNotFound))
    {
      if data.None? {
        var err := Refresh(listed);
        if err.Some? { return Failure(err.value); }
      }
      var skus := if data.Some? then data.value else [];
      for i := 0 to |skus|
        invariant FirstNamed(skus, name) == FirstNamed(skus[i..], name)
      {
        assert skus[i..][1..] == skus[i + 1..];
        if HasSize(skus[i], name) { return Success(skus[i]); }
      }
      sku := Failure(Wrapped(SkuNotFound));
    }

    /** GetZones, and with a size GetZonesWithVMSize: the sorted list, without repetitions, of the zones that
        some selected virtual machine SKU offers. */
    method GetZones(size: Option<string>, location: string, listed: Result<seq<Sku>, Error>)
      returns (zones: Result<seq<string>, Error>)
      modifies this
      ensures data == Kept(old(data), listed)
      ensures var loaded := old(Loaded(listed));
              if loaded.Failure? then zones == Failure(loaded.error)
              else zones.Success? && Lists(zones.value, ZoneSet(loaded.value, size, location))
    {
      if data.None? {
        var err := Refresh(listed);
        if err.Some? { return Failure(err.value); }
      }
      var skus := if data.Some? then data.value else [];
      var all: set<string> := {};
      for i := 0 to |skus|
        invariant all == ZoneSet(skus[..i], size, location)
        invariant data == Kept(old(data), listed)
      {
        ZoneSetGrows(skus, i, size, location);
        all := AddZones(skus[i], size, location, all);
      }
      assert skus[..|skus|] == skus;
      var list: seq<string> := [];
      var rest := all;
      while rest != {}
        invariant rest <= all && Elements(list) == all - rest
        invariant forall i, j :: 0 <= i < j < |list| ==> list[i] != list[j]
        invariant data == Kept(old(data), listed)
        decreases rest
      {
        var zone :| zone in rest;
        assert forall i :: 0 <= i < |list| ==> list[i] in Elements(list);
        assert Elements(list + [zone]) == Elements(list) + {zone};
        list := list + [zone];
        rest := rest - {zone};
      }
      var sorted := SortStrings(list);
      zones := Success(sorted);
    }
  }

  lemma ZoneSetGrows(data: seq<Sku>, i: nat, size: Option<string>, location: string)
    requires i < |data|
    ensures ZoneSet(data[..i + 1], size, location) ==
            ZoneSet(data[..i], size, location) + if Selected(data[i], size) then Offered(data[i], location) else {}
  {
    assert data[..i + 1] == data[..i] + [data[i]];
  }

  // ------------------------------------------------------------ when a lookup honours the kind

  /** A SKU's kind as the error text compares it; none reads as "". */
  function KindOf(s: Sku): string {
    if s.resourceType.Some? then s.resourceType.value else ""
  }

  /** A lookup returns a SKU of the kind it is asked for, whenever there is one of that name. */
  ghost predicate HonoursKind(skus: seq<Sku>) {
    forall s, name :: s in skus && HasSize(s, name) ==>
      FirstNamed(skus, name).Some? && KindOf(FirstNamed(skus, name).value) == KindOf(s)
  }

  /** Two SKUs share a name, up to letter case, but not the kind. */
  ghost predicate NameInTwoKinds(skus: seq<Sku>) {
    exists s, t :: s in skus && t in skus && s.name.Some? && HasSize(t, s.name.value) && KindOf(s) != KindOf(t)
  }

  /** Lookups honour the kind exactly when no name occurs in two kinds. */
  lemma KindIsHonouredIff(skus: seq<Sku>)
    ensures HonoursKind(skus) <==> !NameInTwoKinds(skus)
  {
    if s, t :| s in skus && t in skus && s.name.Some? && HasSize(t, s.name.value) && KindOf(s) != KindOf(t) {
      var name := s.name.value;
      assert HasSize(s, name) && HasSize(t, name);
    } else {
      forall s, name | s in skus && HasSize(s, name)
        ensures FirstNamed(skus, name).Some? && KindOf(FirstNamed(skus, name).value) == KindOf(s)
      {
        var first := FirstNamed(skus, name).value;
        assert first in skus && HasSize(s, first.name.value);
      }
    }
  }

  /** An availability-set SKU in front of a virtual machine SKU of its name is what a lookup of the latter returns. */
  lemma KindIsIgnored()
    ensures var s, t := Sku(Some("x"), Some("availabilitySets"), [], None), Sku(Some("x"), Some(VIRTUAL_MACHINES), [], None);
            FirstNamed([s, t], "x") == Some(s) && KindOf(s) != VIRTUAL_MACHINES && KindOf(t) == VIRTUAL_MACHINES
  {
    assert "availabilitySets"[0] != VIRTUAL_MACHINES[0];
  }

  // ------------------------------------------------------------ what follows for the zones

  /** A zone, spelled out: some SKU for virtual machines, of the size if one is asked for, lists it in its first entry for
      the location, and none of its restrictions is on locations or names the zone. */
  lemma ZonesAre(data: seq<Sku>, size: Option<string>, location: string, zone: string)
    ensures zone in ZoneSet(data, size, location) <==>
            exists s, i: nat ::
              && s in data && s.resourceType.Some? && EqualFold(s.resourceType.value, "virtualMachines")
              && (size.Some? ==> s.name.Some? && EqualFold(s.name.value, size.value))
              && i < |s.locationInfo| && EqualFold(s.locationInfo[i].location, location) && zone in s.locationInfo[i].zones
              && (forall j :: 0 <= j < i ==> !EqualFold(s.locationInfo[j].location, location))
              && (s.restrictions.Some? ==> forall r :: r in s.restrictions.value ==> r.kind == RestrictionType.Zone && zone !in r.zones)
  {
    hide EqualFold;
    if zone in ZoneSet(data, size, location) {
      var s :| s in data && Selected(s, size) && zone in Offered(s, location);
      var i :| 0 <= i < |s.locationInfo| && FirstFor(s, location, i) && zone in s.locationInfo[i].zones && Unrestricted(s, zone);
    }
    forall s, i: nat |
      && s in data && s.resourceType.Some? && EqualFold(s.resourceType.value, "virtualMachines")
      && (size.Some? ==> s.name.Some? && EqualFold(s.name.value, size.value))
      && i < |s.locationInfo| && EqualFold(s.locationInfo[i].location, location) && zone in s.locationInfo[i].zones
      && (forall j :: 0 <= j < i ==> !EqualFold(s.locationInfo[j].location, location))
      && (s.restrictions.Some? ==> forall r :: r in s.restrictions.value ==> r.kind == RestrictionType.Zone && zone !in r.zones)
      ensures zone in ZoneSet(data, size, location)
    {
      assert FirstFor(s, location, i) && Unrestricted(s, zone) && Selected(s, size);
      assert zone in Offered(s, location);
    }
  }

  /** The order of the SKUs does not matter: the lists of zones are equal. */
  lemma ZonesIgnoreOrder(data: seq<Sku>, other: seq<Sku>, size: Option<string>, location: string, a: seq<string>, b: seq<string>)
    requires multiset(data) == multiset(other)
    requires Lists(a, ZoneSet(data, size, location)) && Lists(b, ZoneSet(other, size, location))
    ensures a == b
  {
    assert forall s :: s in data <==> s in multiset(data);
    assert forall s :: s in other <==> s in multiset(other);
    assert ZoneSet(data, size, location) == ZoneSet(other, size, location);
    ListingIsUnique(a, b, ZoneSet(data, size, location));
  }

  /** The second list is the first with restrictions added. */
  ghost predicate MoreRestricted(data: seq<Sku>, other: seq<Sku>) {
    |data| == |other| && forall i :: 0 <= i < |data| ==>
      && other[i].(restrictions := data[i].restrictions) == data[i]
      && (data[i].restrictions.Some? ==>
            other[i].restrictions.Some? && forall r :: r in data[i].restrictions.value ==> r in other[i].restrictions.value)
  }

  lemma RestrictingOnlyShrinks(data: seq<Sku>, other: seq<Sku>, size: Option<string>, location: string)
    requires MoreRestricted(data, other)
    ensures ZoneSet(other, size, location) <= ZoneSet(data, size, location)
  {
    forall z | z in ZoneSet(other, size, location) ensures z in ZoneSet(data, size, location) {
      var s :| s in other && Selected(s, size) && z in Offered(s, location);
      var i :| 0 <= i < |other| && other[i] == s;
      OfferedIsOffers(s, location, z);
      var k :| FirstFor(s, location, k) && z in s.locationInfo[k].zones;
      assert FirstFor(data[i], location, k) && Unrestricted(data[i], z);
      OfferedIsOffers(data[i], location, z);
      assert data[i] in data;
    }
  }

  /** When every virtual machine SKU has a name, the zones of the location are the zones of its sizes together. */
  lemma ZonesAreUnionOverSizes(data: seq<Sku>, location: string, zone: string)
    requires forall s :: s in data && IsVm(s) ==> s.name.Some?
    ensures zone in ZoneSet(data, None, location) <==>
            exists s :: s in data && s.name.Some? && zone in ZoneSet(data, s.name, location)
  {
  }
}
