/** The addresses of a machine and its internal load balancer, as found by looking at its interfaces. */
module Addresses {
  import opened Sequences
  import opened Wrappers

  datatype AddressType = HostName | InternalDNS | InternalIP | ExternalIP | ExternalDNS

  datatype Address = Address(kind: AddressType, address: string)

  /** The public IP of a configuration: there is none, or what its lookup answered. */
  datatype PublicIp = NoPublicIp | LookupFailed | PublicIp(address: Option<string>, fqdn: Option<string>)

  datatype IpConfig = IpConfig(privateIp: Option<string>, publicIp: PublicIp)

  datatype Nic = Nic(dnsSuffix: Option<string>, configs: Option<seq<IpConfig>>)

  /** A load balancer with the private address of every frontend. */
  datatype LoadBalancer = LoadBalancer(name: Option<string>, frontends: Option<seq<Option<string>>>)

  /** What the lookups answer for each interface of the virtual machine, in order; `None` is a failed lookup. */
  type Interfaces = seq<Option<Nic>>
  type Balancers = seq<Option<seq<LoadBalancer>>>

  // ------------------------------------------------------------ the reference

  function Entry(kind: AddressType, address: Option<string>): seq<Address> {
    if address.Some? then [Address(kind, address.value)] else []
  }

  /** The host name pair. */
  function HostPart(computer: Option<string>): seq<Address> {
    Entry(HostName, computer) + Entry(InternalDNS, computer)
  }

  function PublicPart(ip: PublicIp): seq<Address> {
    match ip
    case PublicIp(address, fqdn) => Entry(ExternalIP, address) + Entry(ExternalDNS, fqdn)
    case _ => []
  }

  function ConfigPart(c: IpConfig): seq<Address> {
    Entry(InternalIP, c.privateIp) + PublicPart(c.publicIp)
  }

  function ConfigsPart(cs: seq<IpConfig>): seq<Address> {
    if cs == [] then [] else ConfigsPart(cs[..|cs| - 1]) + ConfigPart(cs[|cs| - 1])
  }

  function DnsPart(computer: Option<string>, nic: Nic): seq<Address> {
    if computer.Some? && nic.dnsSuffix.Some?
    then [Address(InternalDNS, computer.value + "." + nic.dnsSuffix.value)] else []
  }

  /** What an interface contributes. */
  function NicPart(computer: Option<string>, nic: Option<Nic>): seq<Address> {
    if nic.None? then []
    else DnsPart(computer, nic.value) + if nic.value.configs.None? then [] else ConfigsPart(nic.value.configs.value)
  }

  function NicsPart(computer: Option<string>, nics: Interfaces): seq<Address> {
    if nics == [] then [] else NicsPart(computer, nics[..|nics| - 1]) + NicPart(computer, nics[|nics| - 1])
  }

  function AddressList(computer: Option<string>, nics: Interfaces): seq<Address> {
    HostPart(computer) + NicsPart(computer, nics)
  }

  // ------------------------------------------------------------ the loops

  lemma OneMoreConfig(cs: seq<IpConfig>, j: nat)
    requires j < |cs|
    ensures ConfigsPart(cs[..j + 1]) == ConfigsPart(cs[..j]) + ConfigPart(cs[j])
  {
    Prefixes(cs, j);
  }

  lemma OneMoreNic(computer: Option<string>, nics: Interfaces, i: nat)
    requires i < |nics|
    ensures NicsPart(computer, nics[..i + 1]) == NicsPart(computer, nics[..i]) + NicPart(computer, nics[i])
  {
    Prefixes(nics, i);
  }

  method AddConfig(c: IpConfig, before: seq<Address>) returns (list: seq<Address>)
    ensures list == before + ConfigPart(c)
  {
    list := before;
    if c.privateIp.Some? { list := list + [Address(InternalIP, c.privateIp.value)]; }
    match c.publicIp {
      case NoPublicIp =>
      case LookupFailed =>
      case PublicIp(address, fqdn) =>
        if address.Some? { list := list + [Address(ExternalIP, address.value)]; }
        if fqdn.Some? { list := list + [Address(ExternalDNS, fqdn.value)]; }
    }
  }

  method AddNic(computer: Option<string>, nic: Nic, before: seq<Address>) returns (list: seq<Address>)
    ensures list == before + NicPart(computer, Some(nic))
  {
    list := before;
    if nic.dnsSuffix.Some? && computer.Some? {
      list := list + [Address(InternalDNS, computer.value + "." + nic.dnsSuffix.value)];
    }
    ghost var dns := DnsPart(computer, nic);
    assert list == before + dns;
    DropEmpty(dns);
    if nic.configs.None? { return; }
    var configs := nic.configs.value;
    ghost var start := list;
    DropEmpty(start);
    hide ConfigPart, DnsPart;
    for j := 0 to |configs|
      invariant list == start + ConfigsPart(configs[..j])
    {
      OneMoreConfig(configs, j);
      Associate(start, ConfigsPart(configs[..j]), ConfigPart(configs[j]));
      hide ConfigsPart;
      list := AddConfig(configs[j], list);
    }
    Whole(configs);
    Associate(before, dns, ConfigsPart(configs));
  }

  /** The address part of Update. */
  method ListAddresses(computer: Option<string>, nics: Interfaces) returns (list: seq<Address>)
    ensures list == AddressList(computer, nics)
  {
    list := [];
    if computer.Some? {
      list := list + [Address(HostName, computer.value)];
      list := list + [Address(InternalDNS, computer.value)];
    }
    ghost var host := HostPart(computer);
    assert list == host;
    DropEmpty(host);
    for i := 0 to |nics|
      invariant list == host + NicsPart(computer, nics[..i])
    {
      OneMoreNic(computer, nics, i);
      Associate(host, NicsPart(computer, nics[..i]), NicPart(computer, nics[i]));
      DropEmpty(list);
      hide NicsPart, HostPart;
      if nics[i].None? { continue; }
      hide NicPart;
      list := AddNic(computer, nics[i].value, list);
    }
    Whole(nics);
  }

  // ------------------------------------------------------------ failures drop exactly their part

  lemma LastConfig(cs: seq<IpConfig>)
    requires cs != []
    ensures ConfigsPart(cs) == ConfigsPart(cs[..|cs| - 1]) + ConfigPart(cs[|cs| - 1])
  {
  }

  lemma {:induction false} ConfigsAround(cs: seq<IpConfig>, j: nat)
    requires j < |cs|
    ensures ConfigsPart(cs) == ConfigsPart(cs[..j]) + ConfigPart(cs[j]) + ConfigsPart(cs[j + 1..])
  {
    var last := |cs| - 1;
    LastConfig(cs);
    if j < last {
      ConfigsAround(cs[..last], j);
      LastConfig(cs[j + 1..]);
      Slices(cs, j);
      hide ConfigsPart, ConfigPart;
      Associate(ConfigsPart(cs[..j]) + ConfigPart(cs[j]), ConfigsPart(cs[..last][j + 1..]), ConfigPart(cs[last]));
    } else {
      DropEmpty(ConfigsPart(cs[..j]) + ConfigPart(cs[j]));
      assert cs[j + 1..] == [];
      hide ConfigPart;
    }
  }

  lemma LastNic(computer: Option<string>, nics: Interfaces)
    requires nics != []
    ensures NicsPart(computer, nics) == NicsPart(computer, nics[..|nics| - 1]) + NicPart(computer, nics[|nics| - 1])
  {
  }

  lemma {:induction false} NicsAround(computer: Option<string>, nics: Interfaces, k: nat)
    requires k < |nics|
    ensures NicsPart(computer, nics)
            == NicsPart(computer, nics[..k]) + NicPart(computer, nics[k]) + NicsPart(computer, nics[k + 1..])
  {
    var last := |nics| - 1;
    LastNic(computer, nics);
    if k < last {
      NicsAround(computer, nics[..last], k);
      LastNic(computer, nics[k + 1..]);
      Slices(nics, k);
      hide NicsPart, NicPart;
      Associate(NicsPart(computer, nics[..k]) + NicPart(computer, nics[k]), NicsPart(computer, nics[..last][k + 1..]),
                NicPart(computer, nics[last]));
    } else {
      DropEmpty(NicsPart(computer, nics[..k]) + NicPart(computer, nics[k]));
      assert nics[k + 1..] == [];
      hide NicPart;
    }
  }

  /** The list with interface `k` replaced by any answer. */
  lemma ListAround(computer: Option<string>, nics: Interfaces, k: nat, nic: Option<Nic>)
    requires k < |nics|
    ensures var before, after := HostPart(computer) + NicsPart(computer, nics[..k]), NicsPart(computer, nics[k + 1..]);
            AddressList(computer, nics[k := nic]) == before + NicPart(computer, nic) + after
  {
    var other := nics[k := nic];
    NicsAround(computer, other, k);
    assert other[..k] == nics[..k] && other[k + 1..] == nics[k + 1..];
    hide NicsPart, NicPart, HostPart;
    Associate(HostPart(computer), NicsPart(computer, nics[..k]), NicPart(computer, nic));
    Associate(HostPart(computer), NicsPart(computer, nics[..k]) + NicPart(computer, nic), NicsPart(computer, nics[k + 1..]));
  }

  /** When the lookup of interface `k` fails, exactly what it would have contributed is missing. */
  lemma FailedInterfaceDropsItsPart(computer: Option<string>, nics: Interfaces, k: nat)
    requires k < |nics|
    ensures var before, after := HostPart(computer) + NicsPart(computer, nics[..k]), NicsPart(computer, nics[k + 1..]);
            && AddressList(computer, nics) == before + NicPart(computer, nics[k]) + after
            && AddressList(computer, nics[k := None]) == before + after
  {
    ListAround(computer, nics, k, nics[k]);
    ListAround(computer, nics, k, None);
    Same(nics, k);
    assert NicPart(computer, None) == [];
    hide NicsPart, NicPart, HostPart, AddressList;
    DropEmpty(HostPart(computer) + NicsPart(computer, nics[..k]));
  }

  /** Interface `k` when the lookup of the public IP of its configuration `j` fails. */
  function LosePublicIp(nic: Nic, j: nat): Nic
    requires nic.configs.Some? && j < |nic.configs.value|
  {
    var cs := nic.configs.value;
    nic.(configs := Some(cs[j := cs[j].(publicIp := LookupFailed)]))
  }

  /** What an interface contributes before the public IP of its configuration `j`. */
  function UpToPublicIp(computer: Option<string>, nic: Nic, j: nat): seq<Address>
    requires nic.configs.Some? && j < |nic.configs.value|
  {
    var cs := nic.configs.value;
    DnsPart(computer, nic) + ConfigsPart(cs[..j]) + Entry(InternalIP, cs[j].privateIp)
  }

  /** When the lookup of a public IP fails, exactly the entries of that IP are missing. */
  lemma FailedPublicIpDropsItsEntries(computer: Option<string>, nics: Interfaces, k: nat, j: nat)
    requires k < |nics| && nics[k].Some? && nics[k].value.configs.Some? && j < |nics[k].value.configs.value|
    ensures var nic := nics[k].value;
            var before := HostPart(computer) + NicsPart(computer, nics[..k]) + UpToPublicIp(computer, nic, j);
            var after := ConfigsPart(nic.configs.value[j + 1..]) + NicsPart(computer, nics[k + 1..]);
            && AddressList(computer, nics) == before + PublicPart(nic.configs.value[j].publicIp) + after
            && AddressList(computer, nics[k := Some(LosePublicIp(nic, j))]) == before + after
  {
    var nic := nics[k].value;
    NicLosesPublicIp(computer, nic, j);
    ListAround(computer, nics, k, nics[k]);
    ListAround(computer, nics, k, Some(LosePublicIp(nic, j)));
    Same(nics, k);
    hide NicsPart, NicPart, HostPart, AddressList, PublicPart, LosePublicIp, UpToPublicIp, ConfigsPart;
    Regroup(HostPart(computer) + NicsPart(computer, nics[..k]), UpToPublicIp(computer, nic, j),
            PublicPart(nic.configs.value[j].publicIp), ConfigsPart(nic.configs.value[j + 1..]),
            NicsPart(computer, nics[k + 1..]));
  }

  lemma NicLosesPublicIp(computer: Option<string>, nic: Nic, j: nat)
    requires nic.configs.Some? && j < |nic.configs.value|
    ensures var before, after := UpToPublicIp(computer, nic, j), ConfigsPart(nic.configs.value[j + 1..]);
            && NicPart(computer, Some(nic)) == before + PublicPart(nic.configs.value[j].publicIp) + after
            && NicPart(computer, Some(LosePublicIp(nic, j))) == before + after
  {
    var cs, less := nic.configs.value, LosePublicIp(nic, j).configs.value;
    ConfigsAround(cs, j);
    ConfigsAround(less, j);
    assert less[..j] == cs[..j] && less[j + 1..] == cs[j + 1..];
    DropEmpty(Entry(InternalIP, cs[j].privateIp));
    hide ConfigsPart, DnsPart, Entry, PublicPart;
    RegroupFront(DnsPart(computer, nic), ConfigsPart(cs[..j]), Entry(InternalIP, cs[j].privateIp),
                 PublicPart(cs[j].publicIp), ConfigsPart(cs[j + 1..]));
  }

  // ------------------------------------------------------------ which addresses there are

  lemma NoConfigs(cs: seq<IpConfig>)
    ensures |ConfigsPart(cs[..0])| == 0
  {
  }

  lemma NoNics(computer: Option<string>, nics: Interfaces)
    ensures |NicsPart(computer, nics[..0])| == 0
  {
  }

  lemma {:induction false} InConfigs(cs: seq<IpConfig>, n: nat, a: Address)
    requires n <= |cs|
    ensures Has(ConfigsPart(cs[..n]), a) <==> exists j :: 0 <= j < n && Has(ConfigPart(cs[j]), a)
  {
    hide Has, ConfigsPart, ConfigPart;
    if n == 0 {
      NoConfigs(cs);
      HasNone(ConfigsPart(cs[..0]), a);
    } else {
      InConfigs(cs, n - 1, a);
      OneMoreConfig(cs, n - 1);
      HasEither(ConfigsPart(cs[..n - 1]), ConfigPart(cs[n - 1]), a);
    }
  }

  lemma {:induction false} InNics(computer: Option<string>, nics: Interfaces, n: nat, a: Address)
    requires n <= |nics|
    ensures Has(NicsPart(computer, nics[..n]), a) <==> exists i :: 0 <= i < n && Has(NicPart(computer, nics[i]), a)
  {
    hide Has, NicsPart, NicPart;
    if n == 0 {
      NoNics(computer, nics);
      HasNone(NicsPart(computer, nics[..0]), a);
    } else {
      InNics(computer, nics, n - 1, a);
      OneMoreNic(computer, nics, n - 1);
      HasEither(NicsPart(computer, nics[..n - 1]), NicPart(computer, nics[n - 1]), a);
    }
  }

  predicate HasConfig(nics: Interfaces, i: int, j: int) {
    0 <= i < |nics| && nics[i].Some? && nics[i].value.configs.Some? && 0 <= j < |nics[i].value.configs.value|
  }

  function ConfigAt(nics: Interfaces, i: int, j: int): IpConfig
    requires HasConfig(nics, i, j)
  {
    nics[i].value.configs.value[j]
  }

  /** The address comes from interface `i`: from its suffix, or from one of its configurations. */
  ghost predicate ComesFrom(computer: Option<string>, nics: Interfaces, i: nat, a: Address) {
    && i < |nics| && nics[i].Some?
    && (Has(DnsPart(computer, nics[i].value), a) || exists j: nat :: HasConfig(nics, i, j) && Has(ConfigPart(ConfigAt(nics, i, j)), a))
  }

  lemma InNicPart(computer: Option<string>, nics: Interfaces, i: nat, a: Address)
    requires i < |nics|
    ensures Has(NicPart(computer, nics[i]), a) <==> ComesFrom(computer, nics, i, a)
  {
    hide Has, ConfigsPart, ConfigPart, DnsPart;
    if nics[i].None? {
      HasNone(NicPart(computer, nics[i]), a);
    } else {
      var nic := nics[i].value;
      if nic.configs.Some? {
        var cs := nic.configs.value;
        InConfigs(cs, |cs|, a);
        Whole(cs);
        HasEither(DnsPart(computer, nic), ConfigsPart(cs), a);
        assert forall j: nat :: j < |cs| <==> HasConfig(nics, i, j);
        assert forall j: nat :: j < |cs| ==> ConfigAt(nics, i, j) == cs[j];
      } else {
        DropEmpty(DnsPart(computer, nic));
        assert forall j: nat :: !HasConfig(nics, i, j);
      }
    }
  }

  lemma InList(computer: Option<string>, nics: Interfaces, a: Address)
    ensures Has(AddressList(computer, nics), a) <==>
            Has(HostPart(computer), a) || exists i: nat :: ComesFrom(computer, nics, i, a)
  {
    HasEither(HostPart(computer), NicsPart(computer, nics), a);
    InNics(computer, nics, |nics|, a);
    Whole(nics);
    forall i: nat | i < |nics| ensures Has(NicPart(computer, nics[i]), a) <==> ComesFrom(computer, nics, i, a) {
      InNicPart(computer, nics, i, a);
    }
    assert forall i: nat :: ComesFrom(computer, nics, i, a) ==> i < |nics|;
    hide Has, NicsPart, NicPart, HostPart, ComesFrom;
  }

  lemma PartsHave(computer: Option<string>, nic: Nic, c: IpConfig, kind: AddressType, x: string)
    ensures Has(HostPart(computer), Address(kind, x)) <==> (kind == HostName || kind == InternalDNS) && computer == Some(x)
    ensures Has(DnsPart(computer, nic), Address(kind, x)) <==>
            kind == InternalDNS && computer.Some? && nic.dnsSuffix.Some? && x == computer.value + "." + nic.dnsSuffix.value
    ensures Has(ConfigPart(c), Address(kind, x)) <==>
            || (kind == InternalIP && c.privateIp == Some(x))
            || (kind == ExternalIP && c.publicIp.PublicIp? && c.publicIp.address == Some(x))
            || (kind == ExternalDNS && c.publicIp.PublicIp? && c.publicIp.fqdn == Some(x))
  {
  }

  /** Interface `i` was found and gives the computer this name under its suffix. */
  ghost predicate NamesComputer(computer: Option<string>, nics: Interfaces, i: nat, x: string) {
    && i < |nics| && nics[i].Some? && computer.Some? && nics[i].value.dnsSuffix.Some?
    && x == computer.value + "." + nics[i].value.dnsSuffix.value
  }

  predicate HasPrivate(nics: Interfaces, i: nat, j: nat, x: string) {
    HasConfig(nics, i, j) && ConfigAt(nics, i, j).privateIp == Some(x)
  }

  predicate HasPublic(nics: Interfaces, i: nat, j: nat, x: string) {
    && HasConfig(nics, i, j) && ConfigAt(nics, i, j).publicIp.PublicIp? && ConfigAt(nics, i, j).publicIp.address == Some(x)
  }

  predicate HasPublicName(nics: Interfaces, i: nat, j: nat, x: string) {
    && HasConfig(nics, i, j) && ConfigAt(nics, i, j).publicIp.PublicIp? && ConfigAt(nics, i, j).publicIp.fqdn == Some(x)
  }

  /** Which addresses of which kind a machine has: its name as host name and internal name, the name under the suffix of each
      interface found, the private address of each configuration, and the address and name of each public IP found. */
  lemma AddressesAre(computer: Option<string>, nics: Interfaces, x: string)
    ensures var list := AddressList(computer, nics);
            && (Has(list, Address(HostName, x)) <==> computer == Some(x))
            && (Has(list, Address(InternalDNS, x)) <==>
                  computer == Some(x) || exists i: nat :: NamesComputer(computer, nics, i, x))
            && (Has(list, Address(InternalIP, x)) <==> exists i: nat, j: nat :: HasPrivate(nics, i, j, x))
            && (Has(list, Address(ExternalIP, x)) <==> exists i: nat, j: nat :: HasPublic(nics, i, j, x))
            && (Has(list, Address(ExternalDNS, x)) <==> exists i: nat, j: nat :: HasPublicName(nics, i, j, x))
  {
    hide AddressList, HostPart, ComesFrom, Has, NamesComputer, HasPrivate, HasPublic, HasPublicName;
    forall kind: AddressType
      ensures Has(AddressList(computer, nics), Address(kind, x)) <==>
              Has(HostPart(computer), Address(kind, x)) || exists i: nat :: ComesFrom(computer, nics, i, Address(kind, x))
      ensures Has(HostPart(computer), Address(kind, x)) <==> (kind == HostName || kind == InternalDNS) && computer == Some(x)
    {
      InList(computer, nics, Address(kind, x));
      PartsHave(computer, Nic(None, None), IpConfig(None, NoPublicIp), kind, x);
    }
    forall i: nat { ComesFromReads(computer, nics, i, x); }
    forall i: nat, j: nat
      ensures HasPrivate(nics, i, j, x) ==> ComesFrom(computer, nics, i, Address(InternalIP, x))
      ensures HasPublic(nics, i, j, x) ==> ComesFrom(computer, nics, i, Address(ExternalIP, x))
      ensures HasPublicName(nics, i, j, x) ==> ComesFrom(computer, nics, i, Address(ExternalDNS, x))
    {
      ComesFromReads(computer, nics, i, x);
    }
  }

  /** The order within the list: host name, internal name, name under the suffix, private address, public address, public
      name; ListAround and FailedPublicIpDropsItsEntries say in which order interfaces and configurations follow. */
  lemma OrderReads(h: string, suffix: string, a: string, b: string, c: string)
    ensures AddressList(Some(h), [Some(Nic(Some(suffix), Some([IpConfig(Some(a), PublicIp(Some(b), Some(c)))])))]) ==
            [Address(HostName, h), Address(InternalDNS, h), Address(InternalDNS, h + "." + suffix),
             Address(InternalIP, a), Address(ExternalIP, b), Address(ExternalDNS, c)]
  {
    var config := IpConfig(Some(a), PublicIp(Some(b), Some(c)));
    var nic := Nic(Some(suffix), Some([config]));
    assert ConfigsPart([config]) == ConfigPart(config) by {
      LastConfig([config]);
      assert [config][..0] == [];
      DropEmpty(ConfigPart(config));
    }
    assert NicsPart(Some(h), [Some(nic)]) == NicPart(Some(h), Some(nic)) by {
      LastNic(Some(h), [Some(nic)]);
      assert [Some(nic)][..0] == [];
      DropEmpty(NicPart(Some(h), Some(nic)));
    }
    hide ConfigsPart, NicsPart;
  }

  lemma ComesFromReads(computer: Option<string>, nics: Interfaces, i: nat, x: string)
    ensures !ComesFrom(computer, nics, i, Address(HostName, x))
    ensures ComesFrom(computer, nics, i, Address(InternalDNS, x)) <==> NamesComputer(computer, nics, i, x)
    ensures ComesFrom(computer, nics, i, Address(InternalIP, x)) <==> exists j: nat :: HasPrivate(nics, i, j, x)
    ensures ComesFrom(computer, nics, i, Address(ExternalIP, x)) <==> exists j: nat :: HasPublic(nics, i, j, x)
    ensures ComesFrom(computer, nics, i, Address(ExternalDNS, x)) <==> exists j: nat :: HasPublicName(nics, i, j, x)
  {
    if i < |nics| && nics[i].Some? {
      var nic := nics[i].value;
      forall j: nat | HasConfig(nics, i, j)
        ensures !Has(ConfigPart(ConfigAt(nics, i, j)), Address(HostName, x))
        ensures !Has(ConfigPart(ConfigAt(nics, i, j)), Address(InternalDNS, x))
        ensures Has(ConfigPart(ConfigAt(nics, i, j)), Address(InternalIP, x)) <==> HasPrivate(nics, i, j, x)
        ensures Has(ConfigPart(ConfigAt(nics, i, j)), Address(ExternalIP, x)) <==> HasPublic(nics, i, j, x)
        ensures Has(ConfigPart(ConfigAt(nics, i, j)), Address(ExternalDNS, x)) <==> HasPublicName(nics, i, j, x)
      {
        forall kind: AddressType { PartsHave(computer, nic, ConfigAt(nics, i, j), kind, x); }
      }
      assert forall j: nat :: HasPrivate(nics, i, j, x) || HasPublic(nics, i, j, x) || HasPublicName(nics, i, j, x) ==> HasConfig(nics, i, j);
      forall kind: AddressType ensures Has(DnsPart(computer, nic), Address(kind, x)) <==>
          kind == InternalDNS && computer.Some? && nic.dnsSuffix.Some? && x == computer.value + "." + nic.dnsSuffix.value {
        PartsHave(computer, nic, IpConfig(None, NoPublicIp), kind, x);
      }
      hide Has, DnsPart, ConfigPart, HasPrivate, HasPublic, HasPublicName;
    }
  }

  // ------------------------------------------------------------ the internal load balancer

  predicate HasPrivateFrontend(lb: LoadBalancer) {
    lb.frontends.Some? && exists i :: 0 <= i < |lb.frontends.value| && lb.frontends.value[i].Some?
  }

  function NameOf(lb: LoadBalancer): string {
    if lb.name.Some? then lb.name.value else ""
  }

  /** The load balancers that were found, in order. */
  function Found(balancers: Balancers): seq<LoadBalancer> {
    if balancers == [] then []
    else var last := balancers[|balancers| - 1];
         Found(balancers[..|balancers| - 1]) + if last.Some? then last.value else []
  }

  /** The name is that of the last load balancer with a private frontend; `current` when there is none. */
  ghost predicate IsLastInternal(name: string, current: string, lbs: seq<LoadBalancer>) {
    || (exists i :: 0 <= i < |lbs| && HasPrivateFrontend(lbs[i]) && name == NameOf(lbs[i])
                    && forall j :: i < j < |lbs| ==> !HasPrivateFrontend(lbs[j]))
    || ((forall lb :: lb in lbs ==> !HasPrivateFrontend(lb)) && name == current)
  }

  function LastInternal(current: string, lbs: seq<LoadBalancer>): (name: string)
    ensures IsLastInternal(name, current, lbs)
  {
    if lbs == [] then current
    else
      var last, rest := lbs[|lbs| - 1], lbs[..|lbs| - 1];
      assert lbs == rest + [last];
      OneMoreBalancer(LastInternal(current, rest), current, rest, last);
      if HasPrivateFrontend(last) then NameOf(last) else LastInternal(current, rest)
  }

  /** What is found is what some lookup answered. */
  lemma {:induction false} FoundIs(balancers: Balancers, lb: LoadBalancer)
    ensures lb in Found(balancers) <==>
            exists i :: 0 <= i < |balancers| && balancers[i].Some? && lb in balancers[i].value
  {
    if balancers != [] {
      var last := |balancers| - 1;
      FoundIs(balancers[..last], lb);
      assert forall i :: 0 <= i < last ==> balancers[..last][i] == balancers[i];
    }
  }

  lemma OneMoreBalancer(name: string, current: string, lbs: seq<LoadBalancer>, lb: LoadBalancer)
    requires IsLastInternal(name, current, lbs)
    ensures IsLastInternal(if HasPrivateFrontend(lb) then NameOf(lb) else name, current, lbs + [lb])
  {
    var more := lbs + [lb];
    if HasPrivateFrontend(lb) {
      assert more[|lbs|] == lb;
    } else if i :| 0 <= i < |lbs| && HasPrivateFrontend(lbs[i]) && name == NameOf(lbs[i])
                   && forall j :: i < j < |lbs| ==> !HasPrivateFrontend(lbs[j]) {
      assert more[i] == lbs[i];
    }
  }

  ghost predicate FirstPrivate(lbs: seq<LoadBalancer>, i: nat) {
    i < |lbs| && HasPrivateFrontend(lbs[i]) && forall j :: 0 <= j < i ==> !HasPrivateFrontend(lbs[j])
  }

  ghost predicate LastPrivate(lbs: seq<LoadBalancer>, i: nat) {
    i < |lbs| && HasPrivateFrontend(lbs[i]) && forall j :: i < j < |lbs| ==> !HasPrivateFrontend(lbs[j])
  }

  /** The name that a search ending at the first match would keep. */
  function FirstInternal(current: string, lbs: seq<LoadBalancer>): (name: string)
    ensures forall i: nat :: FirstPrivate(lbs, i) ==> name == NameOf(lbs[i])
    ensures (forall lb :: lb in lbs ==> !HasPrivateFrontend(lb)) ==> name == current
  {
    if lbs == [] then current
    else
      assert lbs == [lbs[0]] + lbs[1..];
      assert forall i: nat :: i > 0 && FirstPrivate(lbs, i) ==> FirstPrivate(lbs[1..], i - 1);
      if HasPrivateFrontend(lbs[0]) then NameOf(lbs[0]) else FirstInternal(current, lbs[1..])
  }

  /** The name kept is that of the first match exactly when the first and the last load balancer with a private frontend
      have the same name, or there is none. */
  lemma FirstIsKeptIff(current: string, lbs: seq<LoadBalancer>)
    ensures LastInternal(current, lbs) == FirstInternal(current, lbs) <==>
            forall i: nat, j: nat :: FirstPrivate(lbs, i) && LastPrivate(lbs, j) ==> NameOf(lbs[i]) == NameOf(lbs[j])
  {
    var last := LastInternal(current, lbs);
    hide HasPrivateFrontend, NameOf, LastInternal, FirstInternal;
    if i: nat :| LastPrivate(lbs, i) && last == NameOf(lbs[i]) {
      var k := LeastPrivate(lbs, i);
      assert forall j: nat :: FirstPrivate(lbs, j) ==> j == k;
      assert forall j: nat :: LastPrivate(lbs, j) ==> j == i;
    }
  }

  lemma {:induction false} LeastPrivate(lbs: seq<LoadBalancer>, i: nat) returns (k: nat)
    requires i < |lbs| && HasPrivateFrontend(lbs[i])
    ensures FirstPrivate(lbs, k)
  {
    if j: nat :| j < i && HasPrivateFrontend(lbs[j]) {
      k := LeastPrivate(lbs, j);
    } else {
      k := i;
    }
  }

  /** With two private load balancers of different names the second one is kept. */
  lemma SecondBalancerIsKept(current: string)
    ensures var a, b := LoadBalancer(Some("a"), Some([Some("10.0.0.4")])), LoadBalancer(Some("b"), Some([Some("10.0.0.5")]));
            LastInternal(current, [a, b]) == "b" && FirstInternal(current, [a, b]) == "a"
  {
    var a, b := LoadBalancer(Some("a"), Some([Some("10.0.0.4")])), LoadBalancer(Some("b"), Some([Some("10.0.0.5")]));
    assert a.frontends.value[0].Some? && b.frontends.value[0].Some?;
    assert HasPrivateFrontend(a) && HasPrivateFrontend(b);
  }

  /** The loop over the frontends of one load balancer. */
  method HasInternalFrontend(lb: LoadBalancer) returns (internal: bool)
    ensures internal == HasPrivateFrontend(lb)
  {
    if lb.frontends.None? { return false; }
    for k := 0 to |lb.frontends.value|
      invariant forall l :: 0 <= l < k ==> lb.frontends.value[l].None?
    {
      if lb.frontends.value[k].Some? { return true; }
    }
    internal := false;
  }

  /** The search for the internal load balancer. Leaving the loop over the frontends does not end it, so the last
      load balancer with a private frontend is kept. */
  method FindInternalBalancer(current: string, balancers: Balancers) returns (name: string)
    ensures name == LastInternal(current, Found(balancers))
  {
    name := current;
    assert Found(balancers[..0]) == [];
    for i := 0 to |balancers|
      invariant name == LastInternal(current, Found(balancers[..i]))
    {
      FoundOneMore(balancers, i);
      hide Found;
      if balancers[i].None? { continue; }
      var lbs := balancers[i].value;
      ghost var seen := Found(balancers[..i]);
      DropEmpty(seen);
      hide LastInternal;
      for j := 0 to |lbs|
        invariant name == LastInternal(current, seen + lbs[..j])
      {
        OneMoreAfter(seen, lbs, j);
        var internal := HasInternalFrontend(lbs[j]);
        LastInternalOneMore(current, seen + lbs[..j], lbs[j]);
        if internal { name := NameOf(lbs[j]); }
      }
      Whole(lbs);
    }
    Whole(balancers);
  }

  lemma LastInternalOneMore(current: string, lbs: seq<LoadBalancer>, lb: LoadBalancer)
    ensures LastInternal(current, lbs + [lb]) == if HasPrivateFrontend(lb) then NameOf(lb) else LastInternal(current, lbs)
  {
    assert (lbs + [lb])[..|lbs|] == lbs;
  }

  lemma FoundOneMore(balancers: Balancers, i: nat)
    requires i < |balancers|
    ensures Found(balancers[..i + 1]) ==
            if balancers[i].None? then Found(balancers[..i]) else Found(balancers[..i]) + balancers[i].value
  {
    Prefixes(balancers, i);
    DropEmpty(Found(balancers[..i]));
  }
}
