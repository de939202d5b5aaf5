/** How a network interface joins the backend pools of its load balancers, by IP family. */
module NicPools {
  import opened Sequences
  import opened Wrappers

  /** A load balancer: for every frontend whether it is IPv6, the IDs of its pools, the IDs of its NAT rules. */
  datatype LoadBalancer = LoadBalancer(ipv6: seq<bool>, pools: seq<string>, natRules: seq<string>) {

    /** The number of frontends that have a pool. */
    function Paired(): (n: nat)
      ensures n <= |ipv6| && n <= |pools| && (n == |ipv6| || n == |pools|)
    {
      if |ipv6| <= |pools| then |ipv6| else |pools|
    }

    ghost predicate NoIpv6() {
      forall i :: 0 <= i < Paired() ==> !ipv6[i]
    }
  }

  /** An IP configuration of the interface; `None` is a list that was never set. */
  datatype IpConfig = IpConfig(pools: Option<seq<string>>, natRules: Option<seq<string>>)

  datatype IpConfigs = IpConfigs(v4: IpConfig, v6: IpConfig)

  /** What the interface is asked to join; `rule` is an index into the NAT rules of the public load balancer. */
  datatype Spec = Spec(public: Option<LoadBalancer>, internal: Option<LoadBalancer>, rule: Option<nat>, subnetHasIpv6: bool) {

    function Public(): LoadBalancer {
      if public.Some? then public.value else LoadBalancer([], [], [])
    }

    function Internal(): LoadBalancer {
      if internal.Some? then internal.value else LoadBalancer([], [], [])
    }

    /** The rule is looked up as soon as one frontend has a pool. */
    predicate RuleInRange() {
      rule.Some? && Public().Paired() > 0 ==> rule.value < |Public().natRules|
    }
  }

  // ------------------------------------------------------------ the reference

  /** The indices below `n` whose frontend is of the family, in order. */
  function Family(ipv6: seq<bool>, v6: bool, n: nat): (indices: seq<nat>)
    requires n <= |ipv6|
    ensures |indices| <= n && forall k :: 0 <= k < |indices| ==> indices[k] < n
  {
    if n == 0 then [] else Family(ipv6, v6, n - 1) + if ipv6[n - 1] == v6 then [n - 1] else []
  }

  function Select(pools: seq<string>, indices: seq<nat>): seq<string>
    requires forall k :: 0 <= k < |indices| ==> indices[k] < |pools|
  {
    seq(|indices|, k requires 0 <= k < |indices| => pools[indices[k]])
  }

  /** The pools of one family, for the first `n` frontends. */
  function First(lb: LoadBalancer, v6: bool, n: nat): seq<string>
    requires n <= lb.Paired()
  {
    Select(lb.pools, Family(lb.ipv6, v6, n))
  }

  /** The pools of one family. */
  function Pools(lb: LoadBalancer, v6: bool): (pools: seq<string>)
    ensures |pools| <= lb.Paired()
  {
    First(lb, v6, lb.Paired())
  }

  /** `n` times the NAT rule. */
  function Rules(lb: LoadBalancer, rule: nat, n: nat): seq<string>
    requires n > 0 ==> rule < |lb.natRules|
  {
    if n == 0 then [] else seq(n, _ => lb.natRules[rule])
  }

  function Split(s: Spec): IpConfigs
    requires s.RuleInRange()
  {
    var lb, inner, blank := s.Public(), s.Internal(), if s.subnetHasIpv6 then Some([]) else None;
    var ruled := s.public.Some? && s.rule.Some?;
    IpConfigs(
      IpConfig(Some(Pools(lb, false) + Pools(inner, false)),
               Some(if ruled then Rules(lb, s.rule.value, |Pools(lb, false)|) else [])),
      IpConfig(if s.subnetHasIpv6 then Some(Pools(lb, true) + Pools(inner, true)) else None,
               if ruled then Some(Rules(lb, s.rule.value, |Pools(lb, true)|)) else blank))
  }

  /** The form for Azure Stack Hub, which takes every frontend for IPv4. */
  function StackSplit(s: Spec): IpConfigs
    requires s.RuleInRange()
  {
    var lb, inner, blank := s.Public(), s.Internal(), if s.subnetHasIpv6 then Some([]) else None;
    var ruled := s.public.Some? && s.rule.Some?;
    IpConfigs(
      IpConfig(Some(lb.pools[..lb.Paired()] + inner.pools[..inner.Paired()]),
               Some(if ruled then Rules(lb, s.rule.value, lb.Paired()) else [])),
      IpConfig(blank, if ruled then Some([]) else blank))
  }

  // ------------------------------------------------------------ the loops

  /** The lists the loops append to, for one family. */
  datatype Joined = Joined(pools: seq<string>, rules: seq<string>)

  /** What a family's lists are after the first `n` frontends of a load balancer. */
  function After(a: Joined, lb: LoadBalancer, rule: Option<nat>, v6: bool, n: nat): Joined
    requires n <= lb.Paired() && (rule.Some? && lb.Paired() > 0 ==> rule.value < |lb.natRules|)
  {
    var pools := First(lb, v6, n);
    Joined(a.pools + pools, a.rules + if rule.Some? then Rules(lb, rule.value, |pools|) else [])
  }

  lemma FirstGrows(lb: LoadBalancer, v6: bool, n: nat)
    requires 0 < n <= lb.Paired()
    ensures First(lb, v6, n) == if lb.ipv6[n - 1] == v6 then First(lb, v6, n - 1) + [lb.pools[n - 1]] else First(lb, v6, n - 1)
  {
  }

  lemma RulesGrow(lb: LoadBalancer, rule: nat, n: nat)
    requires rule < |lb.natRules|
    ensures Rules(lb, rule, n + 1) == Rules(lb, rule, n) + [lb.natRules[rule]]
    ensures |Rules(lb, rule, n)| == n
  {
  }

  lemma AfterNone(a: Joined, lb: LoadBalancer, rule: Option<nat>, v6: bool)
    requires rule.Some? && lb.Paired() > 0 ==> rule.value < |lb.natRules|
    ensures After(a, lb, rule, v6, 0) == a
  {
    assert First(lb, v6, 0) == [];
  }

  lemma AfterOneMore(a: Joined, lb: LoadBalancer, rule: Option<nat>, v6: bool, i: nat)
    requires i < lb.Paired() && (rule.Some? ==> rule.value < |lb.natRules|)
    ensures var less, more := After(a, lb, rule, v6, i), After(a, lb, rule, v6, i + 1);
            if lb.ipv6[i] == v6 then more.pools == less.pools + [lb.pools[i]] &&
                                     more.rules == if rule.Some? then less.rules + [lb.natRules[rule.value]] else less.rules
            else more == less
  {
    var pools := First(lb, v6, i);
    FirstGrows(lb, v6, i + 1);
    if rule.Some? { RulesGrow(lb, rule.value, |pools|); }
    hide First, Rules;
    if lb.ipv6[i] == v6 {
      AssociateOne(a.pools, pools, lb.pools[i]);
      if rule.Some? { AssociateOne(a.rules, Rules(lb, rule.value, |pools|), lb.natRules[rule.value]); }
    }
  }

  /** The loop over the frontends of one load balancer; the internal one is joined without a rule. */
  method Join(lb: LoadBalancer, rule: Option<nat>, before: Joined, beforeV6: Joined) returns (v4: Joined, v6: Joined)
    requires rule.Some? && lb.Paired() > 0 ==> rule.value < |lb.natRules|
    ensures v4 == After(before, lb, rule, false, lb.Paired())
    ensures v6 == After(beforeV6, lb, rule, true, lb.Paired())
  {
    v4, v6 := before, beforeV6;
    AfterNone(before, lb, rule, false);
    AfterNone(beforeV6, lb, rule, true);
    hide After;
    for i := 0 to |lb.ipv6|
      invariant i <= lb.Paired()
      invariant v4 == After(before, lb, rule, false, i)
      invariant v6 == After(beforeV6, lb, rule, true, i)
    {
      if i >= |lb.pools| { return; }
      AfterOneMore(before, lb, rule, false, i);
      AfterOneMore(beforeV6, lb, rule, true, i);
      if lb.ipv6[i] {
        v6 := v6.(pools := v6.pools + [lb.pools[i]]);
      } else {
        v4 := v4.(pools := v4.pools + [lb.pools[i]]);
      }
      if rule.Some? {
        if lb.ipv6[i] {
          v6 := v6.(rules := v6.rules + [lb.natRules[rule.value]]);
        } else {
          v4 := v4.(rules := v4.rules + [lb.natRules[rule.value]]);
        }
      }
    }
  }

  lemma AfterBoth(s: Spec, v6: bool)
    requires s.RuleInRange()
    ensures var lb, inner := s.Public(), s.Internal();
            var one := After(Joined([], []), lb, s.rule, v6, lb.Paired());
            && (s.rule.Some? ==> one.rules == Rules(lb, s.rule.value, |Pools(lb, v6)|))
            && After(one, inner, None, v6, inner.Paired()).pools == Pools(lb, v6) + Pools(inner, v6)
  {
  }

  /** The part of CreateOrUpdate that joins the load balancers. */
  method JoinLoadBalancers(s: Spec) returns (configs: IpConfigs)
    requires s.RuleInRange()
    ensures configs == Split(s)
  {
    var blank := if s.subnetHasIpv6 then Some([]) else None;
    configs := IpConfigs(IpConfig(None, Some([])), IpConfig(None, blank));
    var v4, v6 := Joined([], []), Joined([], []);
    forall family { AfterBoth(s, family); }
    if s.public.None? {
      AfterNone(v4, s.Public(), s.rule, false);
      AfterNone(v6, s.Public(), s.rule, true);
    }
    hide After;
    if s.public.Some? {
      v4, v6 := Join(s.public.value, s.rule, v4, v6);
      if s.rule.Some? {
        configs := IpConfigs(configs.v4.(natRules := Some(v4.rules)), configs.v6.(natRules := Some(v6.rules)));
      }
    }
    if s.internal.Some? {
      v4, v6 := Join(s.internal.value, None, v4, v6);
    } else {
      AfterNone(v4, s.Internal(), None, false);
      AfterNone(v6, s.Internal(), None, true);
    }
    configs := configs.(v4 := configs.v4.(pools := Some(v4.pools)));
    if s.subnetHasIpv6 { configs := configs.(v6 := configs.v6.(pools := Some(v6.pools))); }
  }

  /** The loop of the Stack Hub form. */
  method StackJoin(lb: LoadBalancer, rule: Option<nat>, before: seq<string>, rulesBefore: seq<string>)
    returns (pools: seq<string>, rules: seq<string>)
    requires rule.Some? && lb.Paired() > 0 ==> rule.value < |lb.natRules|
    ensures pools == before + lb.pools[..lb.Paired()]
    ensures rules == rulesBefore + if rule.Some? then Rules(lb, rule.value, lb.Paired()) else []
  {
    pools, rules := before, rulesBefore;
    for i := 0 to |lb.ipv6|
      invariant i <= lb.Paired()
      invariant pools == before + lb.pools[..i]
      invariant rules == rulesBefore + if rule.Some? then Rules(lb, rule.value, i) else []
    {
      if i >= |lb.pools| { return; }
      pools := pools + [lb.pools[i]];
      if rule.Some? { rules := rules + [lb.natRules[rule.value]]; }
    }
  }

  method StackJoinLoadBalancers(s: Spec) returns (configs: IpConfigs)
    requires s.RuleInRange()
    ensures configs == StackSplit(s)
  {
    var blank := if s.subnetHasIpv6 then Some([]) else None;
    configs := IpConfigs(IpConfig(None, Some([])), IpConfig(None, blank));
    var pools, rules := [], [];
    if s.public.Some? {
      pools, rules := StackJoin(s.public.value, s.rule, pools, rules);
      if s.rule.Some? {
        assert rules == Rules(s.Public(), s.rule.value, s.Public().Paired());
        configs := IpConfigs(configs.v4.(natRules := Some(rules)), configs.v6.(natRules := Some([])));
      }
    }
    if s.internal.Some? { pools, rules := StackJoin(s.internal.value, None, pools, rules); }
    assert pools == s.Public().pools[..s.Public().Paired()] + s.Internal().pools[..s.Internal().Paired()];
    configs := configs.(v4 := configs.v4.(pools := Some(pools)));
    if s.subnetHasIpv6 { configs := configs.(v6 := configs.v6.(pools := Some([]))); }
  }

  // ------------------------------------------------------------ what the split does

  ghost predicate Increasing(indices: seq<nat>) {
    forall j, k :: 0 <= j < k < |indices| ==> indices[j] < indices[k]
  }

  lemma {:induction false} FamilyIsOrdered(ipv6: seq<bool>, v6: bool, n: nat)
    requires n <= |ipv6|
    ensures Increasing(Family(ipv6, v6, n))
  {
    if n > 0 {
      FamilyIsOrdered(ipv6, v6, n - 1);
    }
  }

  lemma {:induction false} FamilyHas(ipv6: seq<bool>, v6: bool, n: nat, i: nat)
    requires n <= |ipv6|
    ensures i in Family(ipv6, v6, n) <==> i < n && ipv6[i] == v6
  {
    if n > 0 { FamilyHas(ipv6, v6, n - 1, i); }
  }

  lemma {:induction false} FamilySizes(ipv6: seq<bool>, n: nat)
    requires n <= |ipv6|
    ensures |Family(ipv6, false, n)| + |Family(ipv6, true, n)| == n
  {
    if n > 0 { FamilySizes(ipv6, n - 1); }
  }

  /** The indices of both families are in order, share none and together are all of them. */
  lemma FamilyPartition(ipv6: seq<bool>, n: nat)
    requires n <= |ipv6|
    ensures forall v6 :: Increasing(Family(ipv6, v6, n))
    ensures forall v6, i: nat :: i in Family(ipv6, v6, n) <==> i < n && ipv6[i] == v6
    ensures |Family(ipv6, false, n)| + |Family(ipv6, true, n)| == n
  {
    forall v6 { FamilyIsOrdered(ipv6, v6, n); }
    forall v6, i: nat ensures i in Family(ipv6, v6, n) <==> i < n && ipv6[i] == v6 { FamilyHas(ipv6, v6, n, i); }
    FamilySizes(ipv6, n);
  }

  /** Every pool that has a frontend goes to one family, once. */
  lemma PoolsPartition(lb: LoadBalancer)
    ensures |Pools(lb, false)| + |Pools(lb, true)| == lb.Paired()
    ensures multiset(Pools(lb, false)) + multiset(Pools(lb, true)) == multiset(lb.pools[..lb.Paired()])
  {
    FamilyPartition(lb.ipv6, lb.Paired());
    SelectPartition(lb, lb.Paired());
  }

  lemma JoiningOne(a: seq<string>, b: seq<string>, all: seq<string>, x: string)
    requires multiset(a) + multiset(b) == multiset(all)
    ensures multiset(a + [x]) + multiset(b) == multiset(all + [x])
    ensures multiset(a) + multiset(b + [x]) == multiset(all + [x])
  {
  }

  lemma {:induction false} SelectPartition(lb: LoadBalancer, n: nat)
    requires n <= lb.Paired()
    ensures multiset(First(lb, false, n)) + multiset(First(lb, true, n)) == multiset(lb.pools[..n])
  {
    if n > 0 {
      SelectPartition(lb, n - 1);
      var v4, v6, all, pool := First(lb, false, n - 1), First(lb, true, n - 1), lb.pools[..n - 1], lb.pools[n - 1];
      JoiningOne(v4, v6, all, pool);
      assert all + [pool] == lb.pools[..n];
      if lb.ipv6[n - 1] {
        assert First(lb, true, n) == v6 + [pool] && First(lb, false, n) == v4 by { FirstGrows(lb, false, n); FirstGrows(lb, true, n); }
      } else {
        assert First(lb, false, n) == v4 + [pool] && First(lb, true, n) == v6 by { FirstGrows(lb, false, n); FirstGrows(lb, true, n); }
      }
    }
  }

  lemma {:induction false} AllV4(lb: LoadBalancer, n: nat)
    requires n <= lb.Paired() && forall i :: 0 <= i < n ==> !lb.ipv6[i]
    ensures Select(lb.pools, Family(lb.ipv6, false, n)) == lb.pools[..n]
    ensures Family(lb.ipv6, true, n) == []
  {
    if n > 0 { AllV4(lb, n - 1); }
  }

  lemma NoIpv6IffNoPools(lb: LoadBalancer)
    ensures lb.NoIpv6() <==> |Pools(lb, true)| == 0
    ensures lb.NoIpv6() <==> |Pools(lb, false)| == lb.Paired()
    ensures lb.NoIpv6() ==> Pools(lb, false) == lb.pools[..lb.Paired()]
  {
    FamilyPartition(lb.ipv6, lb.Paired());
    if lb.NoIpv6() { AllV4(lb, lb.Paired()); }
    forall i | 0 <= i < lb.Paired() && lb.ipv6[i] ensures |Pools(lb, true)| > 0 {
      assert i in Family(lb.ipv6, true, lb.Paired());
    }
  }

  /** The public and the Stack Hub form agree exactly when no frontend with a pool is IPv6. */
  lemma FormsAgreeIff(s: Spec)
    requires s.RuleInRange()
    ensures Split(s) == StackSplit(s) <==> s.Public().NoIpv6() && s.Internal().NoIpv6()
  {
    NoIpv6IffNoPools(s.Public());
    NoIpv6IffNoPools(s.Internal());
  }

  /** Every frontend's pool is joined exactly once, unless the subnet has no IPv6 while a frontend with a pool is IPv6:
      the pools of those frontends are then dropped. */
  lemma EveryPoolIsJoinedIff(s: Spec)
    requires s.RuleInRange()
    ensures var v4, v6 := Split(s).v4.pools, Split(s).v6.pools;
            v4.Some? && (s.subnetHasIpv6 || (s.Public().NoIpv6() && s.Internal().NoIpv6())
                         <==> multiset(v4.value) + multiset(if v6.Some? then v6.value else [])
                              == multiset(s.Public().pools[..s.Public().Paired()] + s.Internal().pools[..s.Internal().Paired()]))
  {
    PoolsPartition(s.Public());
    PoolsPartition(s.Internal());
    NoIpv6IffNoPools(s.Public());
    NoIpv6IffNoPools(s.Internal());
    var lb, inner := s.Public(), s.Internal();
    var v4, v6 := Pools(lb, false) + Pools(inner, false), Pools(lb, true) + Pools(inner, true);
    var all := lb.pools[..lb.Paired()] + inner.pools[..inner.Paired()];
    hide Pools, LoadBalancer.NoIpv6;
    assert multiset(v4) + multiset(v6) == multiset(all);
    assert |multiset(v4)| == |v4| && |multiset(v6)| == |v6| && |multiset(all)| == |all|;
    assert |v6| == 0 ==> v6 == [];
  }

  lemma {:induction false} PlaceInFamily(ipv6: seq<bool>, n: nat, i: nat)
    requires i < n <= |ipv6|
    ensures var place := |Family(ipv6, ipv6[i], i)|;
            place < |Family(ipv6, ipv6[i], n)| && Family(ipv6, ipv6[i], n)[place] == i
  {
    if i < n - 1 { PlaceInFamily(ipv6, n - 1, i); }
  }

  lemma PlaceInPools(lb: LoadBalancer, i: nat)
    requires i < lb.Paired()
    ensures var place, pools := |Family(lb.ipv6, lb.ipv6[i], i)|, Pools(lb, lb.ipv6[i]);
            place < |pools| && pools[place] == lb.pools[i]
  {
    PlaceInFamily(lb.ipv6, lb.Paired(), i);
    hide Family;
  }

  /** The number of the first `n` frontends that are of the family. */
  function Count(ipv6: seq<bool>, v6: bool, n: nat): nat
    requires n <= |ipv6|
  {
    if n == 0 then 0 else Count(ipv6, v6, n - 1) + if ipv6[n - 1] == v6 then 1 else 0
  }

  lemma {:induction false} FamilyCounts(ipv6: seq<bool>, v6: bool, n: nat)
    requires n <= |ipv6|
    ensures |Family(ipv6, v6, n)| == Count(ipv6, v6, n)
  {
    if n > 0 { FamilyCounts(ipv6, v6, n - 1); }
  }

  /** Where each pool goes: to the configuration of its frontend's family, behind the pools of the earlier frontends of that
      family; those of the internal load balancer come behind all of the public one. */
  lemma PoolsGoTo(s: Spec, i: nat)
    requires s.RuleInRange()
    ensures var lb, inner, split := s.Public(), s.Internal(), Split(s);
            && split.v4.pools.Some? && (split.v6.pools.Some? <==> s.subnetHasIpv6)
            && (i < lb.Paired() && (!lb.ipv6[i] || s.subnetHasIpv6) ==>
                  var pools := if lb.ipv6[i] then split.v6.pools.value else split.v4.pools.value;
                  var place := Count(lb.ipv6, lb.ipv6[i], i);
                  place < |pools| && pools[place] == lb.pools[i])
            && (i < inner.Paired() && (!inner.ipv6[i] || s.subnetHasIpv6) ==>
                  var pools := if inner.ipv6[i] then split.v6.pools.value else split.v4.pools.value;
                  var place := Count(lb.ipv6, inner.ipv6[i], lb.Paired()) + Count(inner.ipv6, inner.ipv6[i], i);
                  place < |pools| && pools[place] == inner.pools[i])
  {
    var lb, inner := s.Public(), s.Internal();
    hide Family, Count, Pools, Rules;
    if i < lb.Paired() {
      PlaceInPools(lb, i);
      FamilyCounts(lb.ipv6, lb.ipv6[i], i);
      AtFront(Pools(lb, lb.ipv6[i]), Pools(inner, lb.ipv6[i]), Count(lb.ipv6, lb.ipv6[i], i));
    }
    if i < inner.Paired() {
      PlaceInPools(inner, i);
      FamilyCounts(inner.ipv6, inner.ipv6[i], i);
      FamilyCounts(lb.ipv6, inner.ipv6[i], lb.Paired());
      assert |Pools(lb, inner.ipv6[i])| == Count(lb.ipv6, inner.ipv6[i], lb.Paired()) by { PoolsAreFamily(lb, inner.ipv6[i]); }
      AtBack(Pools(lb, inner.ipv6[i]), Pools(inner, inner.ipv6[i]), Count(inner.ipv6, inner.ipv6[i], i));
    }
  }

  lemma PoolsAreFamily(lb: LoadBalancer, v6: bool)
    ensures |Pools(lb, v6)| == |Family(lb.ipv6, v6, lb.Paired())|
  {
  }

  /** With a rule and a public load balancer, each configuration gets the rule once for every pool of its family there, that
      of IPv6 even on a subnet without it; otherwise it gets none, and that of IPv6 no list without IPv6. */
  lemma RulesGoTo(s: Spec)
    requires s.RuleInRange()
    ensures var lb, v4, v6 := s.Public(), Split(s).v4.natRules, Split(s).v6.natRules;
            if s.public.Some? && s.rule.Some? then
              && v4.Some? && |v4.value| == Count(lb.ipv6, false, lb.Paired())
              && v6.Some? && |v6.value| == Count(lb.ipv6, true, lb.Paired())
              && (forall id :: id in v4.value + v6.value ==> lb.Paired() > 0 && id == lb.natRules[s.rule.value])
            else v4 == Some([]) && v6 == (if s.subnetHasIpv6 then Some([]) else None)
  {
    FamilyCounts(s.Public().ipv6, false, s.Public().Paired());
    FamilyCounts(s.Public().ipv6, true, s.Public().Paired());
    hide Family, Count;
  }

  // ------------------------------------------------------------ application security groups

  /** What the lookup of a group answers: the group, that there is none, or another failure. */
  datatype GroupLookup = Group(id: string) | NoSuchGroup | LookupFailed

  /** The IDs of the groups the interface is to join, `None` for a group without one; no list when an error is returned. */
  function SecurityGroups(answers: seq<GroupLookup>): Option<seq<Option<string>>> {
    if NoSuchGroup in answers then None
    else Some(seq(|answers|, i requires 0 <= i < |answers| => if answers[i].Group? then Some(answers[i].id) else None))
  }

  /** The loop tests an error of an earlier call, which is nil by then. A group that does not exist comes back as nil and is
      noticed by its type; any other failure comes back with a group that has no ID, and is not noticed. */
  method JoinSecurityGroups(answers: seq<GroupLookup>) returns (groups: Option<seq<Option<string>>>)
    ensures groups == SecurityGroups(answers)
  {
    var list: seq<Option<string>> := [];
    for i := 0 to |answers|
      invariant NoSuchGroup !in answers[..i]
      invariant |list| == i
      invariant forall j :: 0 <= j < i ==> list[j] == if answers[j].Group? then Some(answers[j].id) else None
    {
      match answers[i] {
        case NoSuchGroup => return None;
        case Group(id) => list := list + [Some(id)];
        case LookupFailed => list := list + [None];
      }
    }
    assert answers[..|answers|] == answers;
    assert list == SecurityGroups(answers).value;
    groups := Some(list);
  }

  /** The groups come in the order of their lookups: what precedes does not change what follows. */
  lemma GroupsKeepOrder(a: seq<GroupLookup>, b: seq<GroupLookup>, id: string)
    ensures SecurityGroups(a).Some? && SecurityGroups(b).Some? <==> SecurityGroups(a + b).Some?
    ensures SecurityGroups(a + b).Some? ==> SecurityGroups(a + b).value == SecurityGroups(a).value + SecurityGroups(b).value
    ensures SecurityGroups([Group(id)]) == Some([Some(id)])
  {
    assert NoSuchGroup in a + b <==> NoSuchGroup in a || NoSuchGroup in b;
    if NoSuchGroup !in a + b { assert SecurityGroups(a + b).value == SecurityGroups(a).value + SecurityGroups(b).value; }
    assert SecurityGroups([Group(id)]).value == [Some(id)];
  }

  /** An error is returned for exactly the lists with a failed lookup, as it should be, if and only if some group does not
      exist or no lookup fails otherwise. */
  lemma FailedLookupIsReportedIff(answers: seq<GroupLookup>)
    ensures (SecurityGroups(answers).None? <==> exists a :: a in answers && !a.Group?) <==>
            NoSuchGroup in answers || LookupFailed !in answers
  {
    if exists a :: a in answers && !a.Group? {
      var a :| a in answers && !a.Group?;
      assert a == NoSuchGroup || a == LookupFailed;
    }
  }

  /** A single lookup that fails, say for want of permission: the interface is asked to join a group without an ID. */
  lemma FailedLookupSlipsThrough()
    ensures SecurityGroups([LookupFailed]) == Some([None])
  {
    assert SecurityGroups([LookupFailed]).value == [None];
  }
}
