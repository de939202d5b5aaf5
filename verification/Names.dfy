/** Names of the Azure resources that belong to a machine. */
module Names {
  import opened Text
  import opened Wrappers

  function OSDiskName(machine: string): string {
    machine + "_OSDisk"
  }

  function DataDiskName(machine: string, suffix: string): string {
    machine + "_" + suffix
  }

  function NicName(machine: string): string {
    machine + "-nic"
  }

  function PublicIpName(cluster: string, machine: string): string {
    cluster + "-" + machine
  }

  /** GenerateMachinePublicIPName: `None` when the name would be longer than 63 characters. */
  function MachinePublicIpName(cluster: string, machine: string): Option<string> {
    var name := PublicIpName(cluster, machine);
    if |name| < 64 then Some(name) else None
  }

  /** getAvailabilitySetName, from the machine-set and cluster labels; a missing label reads as "". */
  function AvailabilitySetName(machineSet: string, cluster: string): string {
    var name := if HasPrefix(machineSet, cluster) then machineSet else cluster + "_" + machineSet;
    (if |name| >= 77 then name[..77] else name) + "-as"
  }

  /** Different machines of a cluster never share a disk, an interface or a public IP. */
  lemma NamesAreInjective(cluster: string)
    ensures forall a, b :: OSDiskName(a) == OSDiskName(b) ==> a == b
    ensures forall a, b :: NicName(a) == NicName(b) ==> a == b
    ensures forall a, b :: PublicIpName(cluster, a) == PublicIpName(cluster, b) ==> a == b
  {
    forall a, b | OSDiskName(a) == OSDiskName(b) ensures a == b { SuffixCancels(a, b, "_OSDisk"); }
    forall a, b | NicName(a) == NicName(b) ensures a == b { SuffixCancels(a, b, "-nic"); }
    forall a, b | PublicIpName(cluster, a) == PublicIpName(cluster, b) ensures a == b {
      var n := |cluster + "-"|;
      assert a == PublicIpName(cluster, a)[n..] && b == PublicIpName(cluster, b)[n..];
    }
  }

  lemma SuffixCancels(a: string, b: string, suffix: string)
    requires a + suffix == b + suffix
    ensures a == b
  {
    assert a == (a + suffix)[..|a|];
    assert b == (b + suffix)[..|b|];
    assert |a| == |b|;
  }

  /** The names as Azure shows them. */
  lemma NamesAre(cluster: string, machine: string, suffix: string)
    ensures OSDiskName(machine) == machine + "_OSDisk" && DataDiskName(machine, suffix) == machine + "_" + suffix
    ensures NicName(machine) == machine + "-nic"
    ensures MachinePublicIpName(cluster, machine).None? <==> |cluster| + 1 + |machine| > 63
    ensures MachinePublicIpName(cluster, machine).Some? ==>
              MachinePublicIpName(cluster, machine).value == cluster + "-" + machine
              && PublicIpName(cluster, machine) == cluster + "-" + machine
  {
  }

  /** The name fits Azure's 80-character limit: it is the machine set's, with the cluster's in front unless it starts with
      that already, as a whole where it fits and its first 77 characters where not. */
  lemma AvailabilitySetNameFits(machineSet: string, cluster: string)
    ensures var name := AvailabilitySetName(machineSet, cluster);
            var full := if cluster <= machineSet then machineSet else cluster + "_" + machineSet;
            && 3 <= |name| <= 80 && name[|name| - 3..] == "-as"
            && (|full| <= 77 ==> name == full + "-as")
            && (|full| > 77 ==> |name| == 80 && name[..77] == full[..77])
  {
  }
}
