/** The Azure tags of a machine: user tags of the infrastructure and of the machine's spec, and the cluster's own tag. */
module Tags {
  import opened Sets
  import opened Text
  import opened Wrappers

  type TagMap = map<string, string>

  datatype TagEntry = TagEntry(key: string, value: string)

  datatype TagError = NoClusterId | DuplicateKeys(groups: map<string, nat>) | TooManyTags(count: nat)

  const OWNED := "owned"
  const MAX_CLUSTER_TAGS := 5
  const MAX_USER_TAGS := 45

  function OwnershipKey(clusterId: string): string {
    "kubernetes.io_cluster." + clusterId
  }

  // ------------------------------------------------------------ duplicate keys

  /** The keys with the title-case form. */
  function Group(keys: set<string>, title: string): set<string> {
    set k | k in keys && Title(k) == title
  }

  /** Two keys that Azure does not tell apart. */
  ghost predicate HasTwins(keys: set<string>) {
    exists a, b :: a in keys && b in keys && a != b && Title(a) == Title(b)
  }

  lemma GroupGrows(keys: set<string>, key: string, title: string)
    requires key !in keys
    ensures |Group(keys + {key}, title)| == |Group(keys, title)| + if Title(key) == title then 1 else 0
  {
    if Title(key) == title {
      assert Group(keys + {key}, title) == Group(keys, title) + {key};
    } else {
      assert Group(keys + {key}, title) == Group(keys, title);
    }
  }

  lemma LargeGroupIffTwins(keys: set<string>)
    ensures HasTwins(keys) <==> exists title :: |Group(keys, title)| > 1
  {
    if HasTwins(keys) {
      var a, b :| a in keys && b in keys && a != b && Title(a) == Title(b);
      SubsetCounts({a, b}, Group(keys, Title(a)));
    }
    if title :| |Group(keys, title)| > 1 {
      var a :| a in Group(keys, title);
      assert |Group(keys, title) - {a}| > 0;
      var b :| b in Group(keys, title) - {a};
    }
  }

  /** How many of the keys have each title-case form. */
  ghost predicate Counts(counts: map<string, nat>, keys: set<string>) {
    forall t :: |Group(keys, t)| == if t in counts then counts[t] else 0
  }

  function Bump(counts: map<string, nat>, title: string): map<string, nat> {
    counts[title := 1 + if title in counts then counts[title] else 0]
  }

  lemma BumpCounts(counts: map<string, nat>, keys: set<string>, key: string)
    requires key !in keys && Counts(counts, keys)
    ensures Counts(Bump(counts, Title(key)), keys + {key})
  {
    hide Group, Title;
    forall t { GroupGrows(keys, key, t); }
  }

  /** The duplicates: the title-case forms that several keys share, each with the number of those keys. */
  ghost predicate ListsTwins(duplicates: map<string, nat>, keys: set<string>) {
    && (forall t :: t in duplicates <==> |Group(keys, t)| > 1)
    && forall t :: t in duplicates ==> duplicates[t] == |Group(keys, t)|
  }

  function Repeated(counts: map<string, nat>): map<string, nat> {
    map t | t in counts && counts[t] > 1 :: counts[t]
  }

  lemma RepeatedCountsListTwins(counts: map<string, nat>, keys: set<string>)
    requires Counts(counts, keys)
    ensures ListsTwins(Repeated(counts), keys)
  {
    hide Group;
  }

  lemma TwinsListed(duplicates: map<string, nat>, keys: set<string>)
    requires ListsTwins(duplicates, keys)
    ensures duplicates == map[] <==> !HasTwins(keys)
  {
    LargeGroupIffTwins(keys);
    hide Group, HasTwins;
    if duplicates != map[] {
      assert exists t :: t in duplicates;
    }
  }

  /** findDuplicateTagKeys. */
  method FindDuplicateTagKeys(tagSet: TagMap) returns (duplicates: map<string, nat>)
    ensures ListsTwins(duplicates, tagSet.Keys)
    ensures duplicates == map[] <==> !HasTwins(tagSet.Keys)
  {
    var counts: map<string, nat> := map[];
    var rest := tagSet.Keys;
    ghost var done: set<string> := {};
    assert Counts(counts, done) by { assert forall t :: Group(done, t) == {}; }
    hide *;
    while rest != {}
      invariant rest !! done && rest + done == tagSet.Keys
      invariant Counts(counts, done)
      decreases rest
    {
      var k :| k in rest;
      BumpCounts(counts, done, k);
      counts := Bump(counts, Title(k));
      rest, done := rest - {k}, done + {k};
    }
    assert done == tagSet.Keys;
    RepeatedCountsListTwins(counts, done);
    duplicates := Repeated(counts);
    TwinsListed(duplicates, done);
  }

  // ------------------------------------------------------------ merging

  /** Copies tags over others. */
  method CopyTags(tags: TagMap, from: TagMap) returns (merged: TagMap)
    ensures merged == tags + from
  {
    merged := tags;
    var rest := from.Keys;
    while rest != {}
      invariant rest <= from.Keys
      invariant merged == tags + (from - rest)
      decreases rest
    {
      var k :| k in rest;
      merged := merged[k := from[k]];
      rest := rest - {k};
    }
    assert from - {} == from;
  }

  function OrEmpty(tags: Option<TagMap>): TagMap {
    if tags.Some? then tags.value else map[]
  }

  /** The keys that users add to those of the cluster. */
  function UserKeys(ocp: TagMap, infra: Option<TagMap>, spec: Option<TagMap>): set<string> {
    (OrEmpty(infra).Keys + OrEmpty(spec).Keys) - ocp.Keys
  }

  /** Every key has the cluster's value, or else that of the machine's spec, or else that of the infrastructure. */
  ghost predicate Merges(tags: TagMap, ocp: TagMap, infra: Option<TagMap>, spec: Option<TagMap>) {
    forall k ::
      (if k in ocp then k in tags && tags[k] == ocp[k]
       else if k in OrEmpty(spec) then k in tags && tags[k] == OrEmpty(spec)[k]
       else if k in OrEmpty(infra) then k in tags && tags[k] == OrEmpty(infra)[k]
       else k !in tags)
  }

  /** A key of one set and a key of the other differ, but Azure does not tell them apart. */
  ghost predicate Rivals(a: set<string>, b: set<string>) {
    exists x, y :: x in a && y in b && x != y && Title(x) == Title(y)
  }

  /** The keys that a merge brings together without looking: twins within the infrastructure's tags or the cluster's,
      rivals among the user tags of different origin, or a user tag that rivals one of the cluster's. */
  ghost predicate Clash(ocp: set<string>, infra: set<string>, spec: set<string>) {
    HasTwins(infra) || HasTwins(ocp) || Rivals(infra, spec) || Rivals(infra + spec, ocp)
  }

  /** When the spec is free of twins, the merged tags have twins exactly if the keys clash. */
  lemma MergedTwinsIff(tags: TagMap, ocp: TagMap, infra: Option<TagMap>, spec: Option<TagMap>)
    requires Merges(tags, ocp, infra, spec) && !HasTwins(OrEmpty(spec).Keys)
    ensures HasTwins(tags.Keys) <==> Clash(ocp.Keys, OrEmpty(infra).Keys, OrEmpty(spec).Keys)
  {
    var i, s := OrEmpty(infra).Keys, OrEmpty(spec).Keys;
    assert tags.Keys == ocp.Keys + i + s;
    hide Merges, OrEmpty, Title;
    if HasTwins(tags.Keys) {
      var a, b :| a in tags.Keys && b in tags.Keys && a != b && Title(a) == Title(b);
      assert !(a in s && b in s);
      assert a in i && b in s ==> Rivals(i, s);
      assert b in i && a in s ==> Rivals(i, s);
      assert a in ocp.Keys && b in i + s ==> Rivals(i + s, ocp.Keys);
      assert b in ocp.Keys && a in i + s ==> Rivals(i + s, ocp.Keys);
    }
  }

  lemma UnionMerges(ocp: TagMap, infra: Option<TagMap>, spec: Option<TagMap>)
    ensures var tags := OrEmpty(infra) + OrEmpty(spec) + ocp;
            && Merges(tags, ocp, infra, spec) && |tags| == |ocp| + |UserKeys(ocp, infra, spec)|
  {
    var tags := OrEmpty(infra) + OrEmpty(spec) + ocp;
    assert tags.Keys == ocp.Keys + UserKeys(ocp, infra, spec);
    assert |tags.Keys| == |tags| && |ocp.Keys| == |ocp|;
  }

  lemma EmptyAdds(tags: TagMap)
    ensures map[] + tags == tags
  {
  }

  lemma NoUserTags(ocp: TagMap, infra: Option<TagMap>, spec: Option<TagMap>)
    requires infra.None? && spec.None?
    ensures OrEmpty(infra) + OrEmpty(spec) + ocp == ocp && !HasTwins(OrEmpty(spec).Keys)
  {
    EmptyAdds(ocp);
    EmptyAdds(map[]);
  }

  /** Without user tags nothing is checked; with some, the spec must be free of twins and the numbers within bounds. */
  ghost predicate Accepted(ocp: TagMap, infra: Option<TagMap>, spec: Option<TagMap>) {
    || (spec.None? && infra.None?)
    || (!HasTwins(OrEmpty(spec).Keys) && |ocp| <= 5 && |UserKeys(ocp, infra, spec)| <= 45)
  }

  /** getTagList. */
  method GetTagList(ocp: TagMap, infra: Option<TagMap>, spec: Option<TagMap>) returns (r: Result<TagMap, TagError>)
    ensures r.Success? <==> Accepted(ocp, infra, spec)
    ensures r.Success? ==>
              (HasTwins(r.value.Keys) <==> Clash(ocp.Keys, OrEmpty(infra).Keys, OrEmpty(spec).Keys))
    ensures r.Success? ==> Merges(r.value, ocp, infra, spec) && |r.value| == |ocp| + |UserKeys(ocp, infra, spec)|
    ensures r.Failure? ==> (r.error.DuplicateKeys? <==> HasTwins(OrEmpty(spec).Keys))
    ensures r.Failure? && !r.error.DuplicateKeys? ==> r.error == TooManyTags(|ocp| + |UserKeys(ocp, infra, spec)|)
  {
    UnionMerges(ocp, infra, spec);
    EmptyAdds(OrEmpty(infra));
    hide Merges, UserKeys, HasTwins, ListsTwins, OrEmpty, Clash;
    if spec.None? && infra.None? {
      NoUserTags(ocp, infra, spec);
      MergedTwinsIff(ocp, ocp, infra, spec);
      return Success(ocp);
    }
    var duplicates := FindDuplicateTagKeys(OrEmpty(spec));
    if duplicates != map[] { return Failure(DuplicateKeys(duplicates)); }
    var tags: TagMap := CopyTags(map[], OrEmpty(infra));
    tags := CopyTags(tags, OrEmpty(spec));
    tags := CopyTags(tags, ocp);
    if |ocp| > MAX_CLUSTER_TAGS || |tags| - |ocp| > MAX_USER_TAGS { return Failure(TooManyTags(|tags|)); }
    MergedTwinsIff(tags, ocp, infra, spec);
    r := Success(tags);
  }

  /** getInfraResourceTags: of several entries with one key the last one counts. */
  method GetInfraResourceTags(entries: Option<seq<TagEntry>>) returns (tags: Option<TagMap>)
    ensures tags.Some? <==> entries.Some?
    ensures tags.Some? ==> forall k :: k in tags.value <==> exists i :: 0 <= i < |entries.value| && entries.value[i].key == k
    ensures tags.Some? ==>
              forall i :: 0 <= i < |entries.value| &&
                          (forall j :: i < j < |entries.value| ==> entries.value[j].key != entries.value[i].key)
                          ==> tags.value[entries.value[i].key] == entries.value[i].value
  {
    if entries.None? { return None; }
    var list, result: TagMap := entries.value, map[];
    for i := 0 to |list|
      invariant forall k :: k in result <==> exists j :: 0 <= j < i && list[j].key == k
      invariant forall j :: 0 <= j < i && (forall l :: j < l < i ==> list[l].key != list[j].key)
                            ==> result[list[j].key] == list[j].value
    {
      result := result[list[i].key := list[i].value];
    }
    tags := Some(result);
  }

  /** getOCPTagList. */
  function GetOcpTagList(clusterId: string): (r: Result<TagMap, TagError>)
    ensures r.Failure? <==> clusterId == ""
    ensures r.Success? ==> |r.value| == 1
  {
    if clusterId == "" then Failure(NoClusterId) else Success(map[OwnershipKey(clusterId) := OWNED])
  }

  /** The tags of a machine scope. Nothing a user writes takes the ownership tag away from the cluster. */
  method MachineTags(clusterId: string, entries: Option<seq<TagEntry>>, spec: Option<TagMap>) returns (r: Result<TagMap, TagError>)
    ensures r.Success? ==>
              var key := "kubernetes.io_cluster." + clusterId; key == OwnershipKey(clusterId) && key in r.value && r.value[key] == "owned"
    ensures r.Success? ==> |r.value| <= 46
    ensures r.Success? ==>
              var own, infra, users := {OwnershipKey(clusterId)}, EntryKeys(entries), OrEmpty(spec).Keys;
              HasTwins(r.value.Keys) <==> HasTwins(infra) || Rivals(infra, users) || Rivals(infra + users, own)
    ensures r.Success? <==>
            clusterId != "" && ((spec.None? && entries.None?) || (!HasTwins(OrEmpty(spec).Keys) &&
                                |EntryKeys(entries) + OrEmpty(spec).Keys - {OwnershipKey(clusterId)}| <= 45))
  {
    var ocp := GetOcpTagList(clusterId);
    if ocp.Failure? { return Failure(ocp.error); }
    var infra := GetInfraResourceTags(entries);
    assert OrEmpty(infra).Keys == EntryKeys(entries);
    hide Merges, HasTwins, Rivals, OwnershipKey, OrEmpty, EntryKeys, UserKeys, Accepted, Clash;
    OwnTagsAlone(clusterId, infra, spec);
    r := GetTagList(ocp.value, infra, spec);
    if r.Success? { OwnTagWins(r.value, clusterId, infra, spec); }
  }

  /** What the general statements come to when the cluster has just its ownership tag. */
  lemma OwnTagsAlone(clusterId: string, infra: Option<TagMap>, spec: Option<TagMap>)
    ensures var own := map[OwnershipKey(clusterId) := OWNED];
            var i, s, key := OrEmpty(infra).Keys, OrEmpty(spec).Keys, {OwnershipKey(clusterId)};
            && |own| == 1
            && (Accepted(own, infra, spec) <==> (spec.None? && infra.None?) || (!HasTwins(s) && |i + s - key| <= 45))
            && (Accepted(own, infra, spec) ==> |UserKeys(own, infra, spec)| <= 45)
            && (Clash(own.Keys, i, s) <==> HasTwins(i) || Rivals(i, s) || Rivals(i + s, key))
  {
    var own := map[OwnershipKey(clusterId) := OWNED];
    assert own.Keys == {OwnershipKey(clusterId)};
    assert !HasTwins(own.Keys);
    assert infra.None? && spec.None? ==> UserKeys(own, infra, spec) == {};
    hide HasTwins, Rivals, OwnershipKey, OrEmpty;
  }

  lemma OwnTagWins(tags: TagMap, clusterId: string, infra: Option<TagMap>, spec: Option<TagMap>)
    requires Merges(tags, map[OwnershipKey(clusterId) := OWNED], infra, spec)
    ensures OwnershipKey(clusterId) in tags && tags[OwnershipKey(clusterId)] == OWNED
  {
  }

  function EntryKeys(entries: Option<seq<TagEntry>>): set<string> {
    if entries.None? then {} else set entry | entry in entries.value :: entry.key
  }

  lemma OneKeyHasNoTwins(key: string)
    ensures !HasTwins({key})
  {
  }

  /** Accepted tags with two keys that Azure does not tell apart: a spec that respells an infrastructure tag. */
  lemma RespelledInfraTagPasses(ocp: TagMap, key: string, twin: string, value: string, tags: TagMap)
    requires |ocp| <= 5 && key != twin && Title(key) == Title(twin)
    requires Merges(tags, ocp, Some(map[key := value]), Some(map[twin := value]))
    ensures Accepted(ocp, Some(map[key := value]), Some(map[twin := value])) && HasTwins(tags.Keys)
  {
    var infra, spec: Option<TagMap> := Some(map[key := value]), Some(map[twin := value]);
    assert OrEmpty(infra).Keys == {key} && OrEmpty(spec).Keys == {twin};
    hide OrEmpty, Merges, Title;
    OneKeyHasNoTwins(twin);
    assert Rivals({key}, {twin});
    hide HasTwins, Rivals;
    MergedTwinsIff(tags, ocp, infra, spec);
    SubsetCounts(UserKeys(ocp, infra, spec), {key, twin});
  }

  lemma EnvIsRespelled()
    ensures "env" != "Env" && Title("env") == Title("Env")
  {
    assert "env"[0] != "Env"[0];
  }

  /** Another such pair: a spec that respells the cluster's own tag. */
  lemma RespelledOwnershipTagPasses(clusterId: string, tags: TagMap)
    requires clusterId != ""
    requires Merges(tags, map[OwnershipKey(clusterId) := OWNED], None, Some(map["K" + OwnershipKey(clusterId)[1..] := "user"]))
    ensures Accepted(map[OwnershipKey(clusterId) := OWNED], None, Some(map["K" + OwnershipKey(clusterId)[1..] := "user"]))
    ensures HasTwins(tags.Keys)
  {
    var key := OwnershipKey(clusterId);
    var twin := "K" + key[1..];
    assert key[0] == 'k' && twin[0] == 'K' && key != twin;
    assert Title(key) == Title(twin);
    assert key in tags && twin in tags;
    SubsetCounts(UserKeys(map[key := OWNED], None, Some(map[twin := "user"])), {twin});
  }
}
