/** The data disks of a virtual machine: which lists are accepted, and what is asked of Azure. */
module DataDisks {
  import opened Names
  import opened Wrappers

  const ULTRA_SSD := "UltraSSD_LRS"
  const MAX_NAME := 80
  const MIN_SIZE := 4
  const MAX_LUN := 63

  /** A data disk of the machine's spec. */
  datatype DiskSpec = DiskSpec(
    nameSuffix: string,
    sizeGB: int,
    lun: int,
    account: string,
    caching: string,
    encryptionSet: Option<string>,
    deletionPolicy: string
  )

  /** A data disk of the request; `encryptionSet` is the ID of the referenced set. */
  datatype DataDisk = DataDisk(
    createOption: string,
    sizeGB: int,
    lun: int,
    name: string,
    caching: string,
    deleteOption: string,
    account: string,
    encryptionSet: Option<string>
  )

  /** What can be wrong with a disk, in the order in which it is looked for. */
  datatype Fault = NameTooLong | BadSuffix | TooSmall | SuffixTaken | CachedUltra | BadLun | LunTaken | BadDeletionPolicy
  {
    function Rank(): nat {
      match this
      case NameTooLong => 0
      case BadSuffix => 1
      case TooSmall => 2
      case SuffixTaken => 3
      case CachedUltra => 4
      case BadLun => 5
      case LunTaken => 6
      case BadDeletionPolicy => 7
    }
  }

  /** The machine configuration is invalid: disk `index` has the fault. */
  datatype Rejection = Rejection(index: nat, fault: Fault)

  predicate Alphanumeric(c: char) {
    'a' <= c <= 'z' || 'A' <= c <= 'Z' || '0' <= c <= '9'
  }

  /** Letters, digits, underscores, periods and hyphens, with a letter or a digit at both ends. */
  predicate SuffixMatches(s: string) {
    && s != "" && Alphanumeric(s[0]) && Alphanumeric(s[|s| - 1])
    && forall i :: 0 <= i < |s| ==> Alphanumeric(s[i]) || s[i] in "_.-"
  }

  /** The suffix pattern in character codes: digits and letters, and in between also `_`, `.` and `-`. */
  lemma SuffixReads(s: string, c: char)
    ensures Alphanumeric(c) <==> 48 <= c as int <= 57 || 65 <= c as int <= 90 || 97 <= c as int <= 122
    ensures SuffixMatches(s) <==>
            || (|s| == 1 && Alphanumeric(s[0]))
            || (|s| >= 2 && Alphanumeric(s[0]) && Alphanumeric(s[|s| - 1])
                && forall i :: 0 < i < |s| - 1 ==> Alphanumeric(s[i]) || s[i] == '_' || s[i] == '.' || s[i] == '-')
  {
  }

  /** Disk `k` has the fault, given the disks before it. */
  predicate Has(fault: Fault, vm: string, disks: seq<DiskSpec>, k: nat)
    requires k < |disks|
  {
    var disk := disks[k];
    match fault
    case NameTooLong => |DataDiskName(vm, disk.nameSuffix)| > MAX_NAME
    case BadSuffix => !SuffixMatches(disk.nameSuffix)
    case TooSmall => disk.sizeGB < MIN_SIZE
    case SuffixTaken => exists j :: 0 <= j < k && disks[j].nameSuffix == disk.nameSuffix
    case CachedUltra => disk.account == ULTRA_SSD && disk.caching !in ["None", ""]
    case BadLun => !(0 <= disk.lun <= MAX_LUN)
    case LunTaken => exists j :: 0 <= j < k && disks[j].lun == disk.lun
    case BadDeletionPolicy => disk.deletionPolicy !in ["Delete", "Detach"]
  }

  /** A disk that could be alone. */
  predicate Sound(vm: string, disk: DiskSpec) {
    && |vm| + 1 + |disk.nameSuffix| <= 80 && SuffixMatches(disk.nameSuffix) && disk.sizeGB >= 4
    && (disk.account == ULTRA_SSD ==> disk.caching == "None" || disk.caching == "")
    && 0 <= disk.lun <= 63 && (disk.deletionPolicy == "Delete" || disk.deletionPolicy == "Detach")
  }

  ghost predicate Distinct(disks: seq<DiskSpec>) {
    forall i, j :: 0 <= i < j < |disks| ==> disks[i].nameSuffix != disks[j].nameSuffix && disks[i].lun != disks[j].lun
  }

  ghost predicate Acceptable(vm: string, disks: seq<DiskSpec>) {
    (forall disk :: disk in disks ==> Sound(vm, disk)) && Distinct(disks)
  }

  ghost predicate Describes(out: DataDisk, vm: string, disk: DiskSpec) {
    && out.createOption == "Empty" && out.sizeGB == disk.sizeGB && out.lun == disk.lun
    && out.name == DataDiskName(vm, disk.nameSuffix) && out.caching == disk.caching
    && out.deleteOption == disk.deletionPolicy && out.account == disk.account && out.encryptionSet == disk.encryptionSet
  }

  /** The checks of one disk, in order. */
  method CheckDisk(vm: string, disks: seq<DiskSpec>, k: nat, suffixes: set<string>, luns: set<int>) returns (fault: Option<Fault>)
    requires k < |disks|
    requires suffixes == set j | 0 <= j < k :: disks[j].nameSuffix
    requires luns == set j | 0 <= j < k :: disks[j].lun
    ensures fault.None? ==> forall f: Fault :: !Has(f, vm, disks, k)
    ensures fault.Some? ==> Has(fault.value, vm, disks, k) &&
                            forall f: Fault :: f.Rank() < fault.value.Rank() ==> !Has(f, vm, disks, k)
  {
    var disk := disks[k];
    if |DataDiskName(vm, disk.nameSuffix)| > MAX_NAME { return Some(NameTooLong); }
    if !SuffixMatches(disk.nameSuffix) { return Some(BadSuffix); }
    if disk.sizeGB < MIN_SIZE { return Some(TooSmall); }
    if disk.nameSuffix in suffixes { return Some(SuffixTaken); }
    if disk.account == ULTRA_SSD && disk.caching != "None" && disk.caching != "" { return Some(CachedUltra); }
    if disk.lun < 0 || disk.lun > MAX_LUN { return Some(BadLun); }
    if disk.lun in luns { return Some(LunTaken); }
    if disk.deletionPolicy != "Delete" && disk.deletionPolicy != "Detach" { return Some(BadDeletionPolicy); }
    fault := None;
  }

  const BLANK := DataDisk("", 0, 0, "", "", "", "", None)

  /** generateDataDisks. */
  method GenerateDataDisks(vm: string, disks: seq<DiskSpec>) returns (r: Result<seq<DataDisk>, Rejection>)
    ensures r.Success? <==> Acceptable(vm, disks)
    ensures r.Success? ==> |r.value| == |disks| && forall i :: 0 <= i < |disks| ==> Describes(r.value[i], vm, disks[i])
    ensures r.Failure? ==>
              var k, fault := r.error.index, r.error.fault;
              && k < |disks| && Acceptable(vm, disks[..k]) && !Acceptable(vm, disks[..k + 1])
              && Has(fault, vm, disks, k)
              && forall f: Fault :: f.Rank() < fault.Rank() ==> !Has(f, vm, disks, k)
  {
    var suffixes: set<string>, luns: set<int> := {}, {};
    var out := new DataDisk[|disks|](_ => BLANK);
    for i := 0 to |disks|
      invariant suffixes == set j | 0 <= j < i :: disks[j].nameSuffix
      invariant luns == set j | 0 <= j < i :: disks[j].lun
      invariant Acceptable(vm, disks[..i])
      invariant forall j :: 0 <= j < i ==> Describes(out[j], vm, disks[j])
    {
      var disk := disks[i];
      var fault := CheckDisk(vm, disks, i, suffixes, luns);
      ExtendsIffFaultless(vm, disks, i);
      if fault.Some? {
        PrefixOfAcceptable(vm, disks, i + 1);
        return Failure(Rejection(i, fault.value));
      }
      suffixes, luns := suffixes + {disk.nameSuffix}, luns + {disk.lun};
      out[i] := DataDisk("Empty", disk.sizeGB, disk.lun, DataDiskName(vm, disk.nameSuffix), disk.caching,
                         disk.deletionPolicy, disk.account, None);
      if disk.encryptionSet.Some? {
        out[i] := out[i].(encryptionSet := disk.encryptionSet);
      }
    }
    assert disks[..|disks|] == disks;
    r := Success(out[..]);
  }

  lemma PrefixOfAcceptable(vm: string, disks: seq<DiskSpec>, k: nat)
    requires k <= |disks|
    ensures Acceptable(vm, disks) ==> Acceptable(vm, disks[..k])
  {
  }

  /** Disk `k` may join acceptable disks exactly when it has none of the faults. */
  lemma ExtendsIffFaultless(vm: string, disks: seq<DiskSpec>, k: nat)
    requires k < |disks| && Acceptable(vm, disks[..k])
    ensures Acceptable(vm, disks[..k + 1]) <==> forall f: Fault :: !Has(f, vm, disks, k)
  {
    var more, disk := disks[..k + 1], disks[k];
    assert more == disks[..k] + [disk];
    if forall f: Fault :: !Has(f, vm, disks, k) {
      assert !Has(NameTooLong, vm, disks, k) && !Has(BadSuffix, vm, disks, k) && !Has(TooSmall, vm, disks, k);
      assert !Has(CachedUltra, vm, disks, k) && !Has(BadLun, vm, disks, k) && !Has(BadDeletionPolicy, vm, disks, k);
      assert !Has(SuffixTaken, vm, disks, k) && !Has(LunTaken, vm, disks, k);
      assert Sound(vm, disk);
    }
    if Acceptable(vm, more) {
      assert disk in more && Sound(vm, disk);
      forall f: Fault ensures !Has(f, vm, disks, k) {
        assert forall j :: 0 <= j < k ==> more[j] == disks[j];
        assert more[k] == disk;
      }
    }
  }

  /** Whether the ultra SSD capability is set on the virtual machine; `None` leaves it unset. */
  method UltraSsdEnabled(capability: string, disks: seq<DiskSpec>) returns (enabled: Option<bool>)
    ensures enabled == Some(false) <==> capability == "Disabled"
    ensures enabled == Some(true) <==>
            capability == "Enabled" || (capability != "Disabled" && exists disk :: disk in disks && disk.account == ULTRA_SSD)
  {
    if capability == "Disabled" { return Some(false); }
    if capability == "Enabled" { return Some(true); }
    enabled := None;
    for i := 0 to |disks|
      invariant enabled != Some(false)
      invariant enabled == Some(true) <==> exists j :: 0 <= j < i && disks[j].account == ULTRA_SSD
    {
      if disks[i].account == ULTRA_SSD && capability != "Disabled" { enabled := Some(true); }
    }
  }

  // ------------------------------------------------------------ what acceptance means

  /** The request names every disk differently, within Azure's length limit, on its own LUN. */
  lemma AcceptedDisksAreDistinct(vm: string, disks: seq<DiskSpec>, out: seq<DataDisk>)
    requires Acceptable(vm, disks)
    requires |out| == |disks| && forall i :: 0 <= i < |disks| ==> Describes(out[i], vm, disks[i])
    ensures forall i :: 0 <= i < |out| ==> |out[i].name| <= 80
    ensures forall i, j :: 0 <= i < j < |out| ==> out[i].name != out[j].name && out[i].lun != out[j].lun
  {
    forall i, j | 0 <= i < j < |out| ensures out[i].name != out[j].name {
      var n := |vm + "_"|;
      assert out[i].name[n..] == disks[i].nameSuffix && out[j].name[n..] == disks[j].nameSuffix;
    }
    forall i | 0 <= i < |out| ensures |out[i].name| <= 80 { assert disks[i] in disks; }
  }

  /** No more disks are accepted than there are LUNs. */
  lemma AtMost64Disks(vm: string, disks: seq<DiskSpec>)
    requires Acceptable(vm, disks)
    ensures |disks| <= 64
  {
    assert forall i :: 0 <= i < |disks| ==> disks[i] in disks;
    Pigeonhole(seq(|disks|, i requires 0 <= i < |disks| => disks[i].lun), 64);
  }

  lemma {:induction false} Pigeonhole(xs: seq<int>, n: nat)
    requires forall i :: 0 <= i < |xs| ==> 0 <= xs[i] < n
    requires forall i, j :: 0 <= i < j < |xs| ==> xs[i] != xs[j]
    ensures |xs| <= n
  {
    if xs != [] {
      assert 0 <= xs[0] < n;
      if n - 1 in xs {
        var k :| 0 <= k < |xs| && xs[k] == n - 1;
        Pigeonhole(xs[..k] + xs[k + 1..], n - 1);
      } else {
        Pigeonhole(xs, n - 1);
      }
    }
  }

  /** Acceptance does not depend on the order of the disks, and dropping disks never breaks it. */
  lemma AcceptanceIgnoresOrder(vm: string, disks: seq<DiskSpec>, other: seq<DiskSpec>)
    requires multiset(other) <= multiset(disks) && Acceptable(vm, disks)
    ensures Acceptable(vm, other)
  {
    forall disk | disk in other ensures disk in disks { assert disk in multiset(other); }
    forall i, j | 0 <= i < j < |other|
      ensures other[i].nameSuffix != other[j].nameSuffix && other[i].lun != other[j].lun
    {
      assert other[i] in disks && other[j] in disks;
      if other[i] == other[j] {
        TwiceInSequence(other, i, j);
        OnceInSequence(disks, other[i]);
      }
    }
  }

  lemma TwiceInSequence(disks: seq<DiskSpec>, i: nat, j: nat)
    requires i < j < |disks| && disks[i] == disks[j]
    ensures multiset(disks)[disks[i]] >= 2
  {
    assert disks == disks[..j] + [disks[j]] + disks[j + 1..];
    assert disks[i] in disks[..j];
  }

  lemma OnceInSequence(disks: seq<DiskSpec>, disk: DiskSpec)
    requires Distinct(disks) && disk in disks
    ensures multiset(disks)[disk] == 1
  {
    var i :| 0 <= i < |disks| && disks[i] == disk;
    assert disks == disks[..i] + [disk] + disks[i + 1..];
  }

  /** A data disk is called like the OS disk exactly when its suffix is `OSDisk`, which is an accepted suffix. */
  lemma OsDiskNameClash(vm: string, disk: DiskSpec)
    ensures DataDiskName(vm, disk.nameSuffix) == OSDiskName(vm) <==> disk.nameSuffix == "OSDisk"
    ensures |vm| <= 73 ==> Acceptable(vm, [DiskSpec("OSDisk", 4, 0, "", "", None, "Delete")])
  {
    var n := |vm + "_"|;
    assert DataDiskName(vm, disk.nameSuffix)[n..] == disk.nameSuffix;
    assert OSDiskName(vm) == (vm + "_") + "OSDisk";
    assert OSDiskName(vm)[n..] == "OSDisk";
    assert SuffixMatches("OSDisk");
  }
}
