# The Azure machine controller: a verified model

The repository is a machine actuator for Azure: Create, Update, Delete and Exists are called over and over for every
machine, against a cloud in which any call can fail. This project models that state machine and the algorithms around it
in Dafny 4.11, and proves properties of them. `dafny verify dfyconfig.toml` checks everything.

## How it is laid out

| modules | what they hold |
|---|---|
| `Cloud`, `Services`, `CalmCloud` | the cloud: virtual machines, disks, interfaces, public IPs, availability sets, one step per service call, and what the operations do when nothing interferes |
| `Reconciler`, `ReconcilerObject` | the reconciler's operations, as functions on the cloud and as an object that performs them in place |
| `Isolation`, `Lifecycle`, `Runs`, `Teardown`, `Creation`, `AvailabilitySets`, `Verdicts` | what one operation may do, what every run of operations on any machines keeps, convergence of Delete and of Create, exact conditions for availability sets, failures as the actuator reports them |
| `Errors`, `Names`, `Text`, `Wrappers`, `Ordering`, `Sets`, `Sequences` | error chains and the actuator's classification, resource names, ASCII folding, options and results, sorted listings, cardinalities, regrouping of sequences |
| `TtlLru`, `TtlCache` | the TTL LRU cache as a value with a history specification, and as objects with shared, aging items |
| `Zones` | the SKU cache and its zone computation |
| `ResourceId` | the resource-ID recogniser, its grammar, and the ID printers |
| `DataDisks`, `Tags`, `NicPools` | validation of data disks, merging of tags, splitting of backend pools by IP family, joining of application security groups |
| `Addresses`, `Conditions`, `Scope`, `ScopeObject` | what Update finds out about a machine, and everything the operations write to the machine object |
| `Writes`, `Report` | what the operations leave in the machine object, value by value; both sides of one run: what the cloud holds and what the machine object says |

The adversary of the cloud model is an arbitrary function from call numbers to answers. An answer says whether the call
reports a fault, which error, whether the call took effect all the same, which questions are answered with yes, and what
Azure does on its own before the call: any virtual machine may change its provisioning state or disappear. All statements hold for every adversary. An object that
works in place (`ReconcilerObject.MachineReconciler`, `Services.AzureCloud`, `TtlCache.TtlCache`, `ScopeObject.MachineScope`)
has methods whose contracts equate its new state with a function of its old one; the lemmas are about those functions.

## Findings

Properties one would expect that the code does not have. Each comes with the exact condition under which it holds and with
inputs for which it fails.

- A generated availability set leaks when another machine names it explicitly in its spec: it is still occupied when its
  owner is deleted, and the borrower's Delete asks only for its own generated name (`AvailabilitySets.SetsNeverLeakIff`,
  `AvailabilitySets.BorrowedSetLeaks`).
- An availability set that a user created is deleted once it is empty, if its name is the one generated for some machine
  (`AvailabilitySets.UserSetSurvivesIff`, whose proof runs that Delete).
- Without a virtual network in its configuration a machine's Delete never returns nil, although nothing can have been
  created for it (`Teardown.WithoutVnetNeverDone`; with one, `Teardown.DeleteFaults`).
- Doubled slashes and letter case never matter to `parseAzureResourceID`, but `validateAzureCapacityReservationGroupID`
  strips the case-sensitive prefix `azure://` first, and for it they can (`ResourceId.DoubledSlashValidates` with
  `ResourceId.DoubledSlashCanMatter`, `ResourceId.LetterCaseValidates` with `ResourceId.UpperCasePrefixIsRefused`).
- A rejected create request that says "Failure sending request" is terminal whatever its status code
  (`Errors.RejectedRequestVerdict`, with a status 500 in `Errors.ServerFaultOnSendingIsTerminal`).
- `Cache.Get` of the SKU cache ignores the kind it is asked for. It returns a SKU of that kind whenever there is one of the
  name exactly if no name occurs in two kinds (`Zones.KindIsHonouredIff`, `Zones.KindIsIgnored`).
- A data disk has the name of the OS disk exactly if its suffix is `OSDisk`, which is accepted (`DataDisks.OsDiskNameClash`).
- The merged tags can hold two keys that Azure does not tell apart, because only the spec is searched for such twins. They
  do exactly if the infrastructure's tags hold twins, the spec respells one of the infrastructure's, or a user tag
  respells the ownership tag (`Tags.MachineTags`, for all cluster tags `Tags.MergedTwinsIff`; `Tags.RespelledInfraTagPasses`,
  as `Env` for `env`, `Tags.EnvIsRespelled`; `Tags.RespelledOwnershipTagPasses`).
- On a subnet without IPv6, the pools of a load balancer's IPv6 frontends are not joined, and no error says so
  (`NicPools.EveryPoolIsJoinedIff`).
- A failed lookup of an application security group is reported when the group does not exist, but any other failure puts a
  group without an ID into the request: the loop tests another variable. Lists with a failed lookup end in an error exactly
  if some group does not exist or no lookup fails otherwise (`NicPools.FailedLookupIsReportedIff`,
  `NicPools.FailedLookupSlipsThrough`).
- The search for the internal load balancer does not end at the first match, as its comment suggests: the last one is kept.
  It is the first one's name exactly if both have the same name, or nothing matches (`Addresses.FirstIsKeptIff`,
  `Addresses.SecondBalancerIsKept`).

## Model

| member | source | states |
|---|---|---|
| Runs.RunKeepsInv | pkg/cloud/azure/actuators/machine/reconciler.go:122-154 | the invariant behind all properties of runs (dependency order, placement, tallies, nothing left of machines that were deleted, every generated availability set accounted for) holds after any sequence of Create, Update, Delete and Exists on any machines of a cluster, against every adversary |
| Runs.DependencyOrder | pkg/cloud/azure/actuators/machine/reconciler.go:547-641 | in every reachable state a virtual machine has its disk, a disk its interface, an interface of a machine with a public IP has that IP, and nothing exists for a machine whose configuration Create rejects |
| Runs.NoLeak | pkg/cloud/azure/actuators/machine/reconciler.go:457-541 | in every reachable state, nothing (virtual machine, OS disk, interface, public IP) is left of a machine whose Delete has returned nil since its last Create; this includes the early return for an over-long public-IP name |
| Runs.DeletedStaysDeleted | pkg/cloud/azure/actuators/machine/reconciler.go:457-541 | from the moment Delete returns nil nothing of the machine exists until its next Create, through any operations on it or others |
| Runs.DeletedIsReportedMissing | pkg/cloud/azure/actuators/machine/reconciler.go:423-435 | in every reachable state Exists reports a machine missing whose Delete has returned nil since its last Create, unless its lookup fails |
| Runs.CreatesAreBounded | pkg/cloud/azure/actuators/machine/reconciler.go:653-747 | no create request ever meets an existing virtual machine; a machine appears at most once more than it disappears, exactly once more while it exists, and never more often than it was requested |
| Runs.GeneratedSetsExist | pkg/cloud/azure/actuators/machine/reconciler.go:769-811 | a virtual machine placed in a generated availability set is in the set of its own generated name, and that set exists |
| Runs.OccupiedSetsStay | pkg/cloud/azure/services/availabilitysets/availabilitysets.go:68-100 | no operation on any machine takes away an availability set that has a virtual machine in it |
| Runs.NoSetLeak | pkg/cloud/azure/actuators/machine/reconciler.go:533-538 | once every machine is deleted only the users' availability sets are left, if no machine borrows another's generated set |
| Runs.UserSetsSurvive | pkg/cloud/azure/actuators/machine/reconciler.go:533-538 | a user's availability set survives every run unless its name is generated for a machine |
| Runs.BystandersAreLeftAlone | pkg/cloud/azure/actuators/machine/reconciler.go:107-541 | isolation: over any run of operations on other machines, from any state and whatever fails, a machine's virtual machine stays as it was unless Azure itself changes it, and its disk, interface and public IP are there exactly if they were |
| AvailabilitySets.SetsNeverLeakIff | pkg/cloud/azure/actuators/machine/reconciler.go:533-538 | finished runs leave only users' availability sets, against every adversary, if and only if no bootable machine names explicitly a set that is generated for others and not for itself |
| AvailabilitySets.BorrowedSetLeaks | pkg/cloud/azure/actuators/machine/reconciler.go:769-811 | the four operations after which a borrowed set is left for good, for every such configuration, without a single failing call |
| AvailabilitySets.UserSetSurvivesIff | pkg/cloud/azure/actuators/machine/reconciler.go:533-538 | a user's availability set survives every run, against every adversary, if and only if it bears no name generated for a machine whose Delete gets that far |
| Teardown.DeleteFaults | pkg/cloud/azure/actuators/machine/reconciler.go:457-541 | with a virtual network Delete returns nil exactly when no call failed, and otherwise exactly one call failed, the last one it made: it stops at the first failing call; without one it always returns an error |
| Teardown.TeardownConverges | pkg/cloud/azure/actuators/machine/reconciler.go:457-541 | of attempts in a row, one of F+1 returns nil exactly if at most F calls fail |
| Teardown.DeletesConverge | pkg/cloud/azure/actuators/machine/reconciler.go:457-541 | in any run, with any operations on any machines in between: every Delete of a machine with a virtual network returns nil or has exactly one failing call, so with at most F failing calls in its Deletes one of F+1 returns nil |
| Teardown.WithoutVnetNeverDone | pkg/cloud/azure/actuators/machine/reconciler.go:489-491 | without a virtual network no number of attempts makes Delete return nil |
| Teardown.DeleteAgain | pkg/cloud/azure/actuators/machine/reconciler.go:457-541 | a further Delete of a machine of which nothing is left changes no resource but an unoccupied availability set |
| Teardown.DeleteFollowsOrder | pkg/cloud/azure/actuators/machine/reconciler.go:457-541 | an attempt only takes away, and what it takes away is a prefix of: virtual machine, disk, interface, public IP |
| Creation.NilMeansComplete | pkg/cloud/azure/actuators/machine/reconciler.go:122-154 | whenever Create returns nil, against any adversary, the machine was complete (virtual machine, disk, interface, public IP if asked for) and rightly placed in the very state in which the final Update's Get found the cloud, and no operation changed anything since |
| Creation.NilCreateIsReported | pkg/cloud/azure/actuators/machine/reconciler.go:423-454 | from every state, against every adversary: when Create has returned nil and Azure leaves the machine alone, Exists reports it, if its own lookup does not fail |
| Creation.UndisturbedCreate | pkg/cloud/azure/actuators/machine/reconciler.go:643-750 | from every state, when the counted calls of a Create go well (an accepted request that is not finished yet among them) and Azure keeps still, whatever the answer about zones: an absent bootable machine is booted in the availability set that was chosen, a Succeeded machine is left alone with nil, and a Failed machine is deleted with an error |
| Creation.FailedMachineIsRecreated | pkg/cloud/azure/actuators/machine/reconciler.go:737-743 | two such Creates make a Failed machine anew, and change no other |
| Creation.ChosenSetIs | pkg/cloud/azure/actuators/machine/reconciler.go:769-811 | against any adversary: the set chosen is the user's, or else the generated one exactly if the location is reported without zones and the configuration asks for it, and that one then exists |
| Creation.FailedCreateHadSetback | pkg/cloud/azure/actuators/machine/reconciler.go:122-154 | from every state, against every adversary: a Create of a bootable machine fails only if it looked at the machine and found it unfinished (on its way, or Failed), or one of its calls did not go well: it failed (an accepted create request did not), denied what the configuration asked for in that call, or came with Azure moving the machine anywhere but to Succeeded; when all calls go well it fails exactly for an unfinished machine |
| Creation.CreatesConverge | pkg/cloud/azure/actuators/machine/reconciler.go:122-154 | in any run, with any operations on any machines in between: with at most F such calls and unfinished machines in its Creates, one of F+1 Creates of a bootable machine returns nil |
| Lifecycle.CreateKeepsGood | pkg/cloud/azure/actuators/machine/reconciler.go:122-154 | one Create, with the Delete of a Failed machine nested in it, keeps the invariant of the machine itself and of every other machine of the cluster |
| Lifecycle.DeleteKeepsGood | pkg/cloud/azure/actuators/machine/reconciler.go:457-541 | so does one Delete, wherever it fails |
| Lifecycle.CreateIsConfined | pkg/cloud/azure/actuators/machine/reconciler.go:122-154 | Create touches only its own machine's resources and its own generated availability set; every other virtual machine stays as it was unless Azure itself changes it |
| Isolation.DeleteSpares | pkg/cloud/azure/actuators/machine/reconciler.go:457-541 | Delete touches no virtual machine but its own: every other one stays as it was unless Azure itself changes it |
| Isolation.UpdateSpares | pkg/cloud/azure/actuators/machine/reconciler.go:157-343 | Update touches no virtual machine at all |
| Lifecycle.DeleteCleans | pkg/cloud/azure/actuators/machine/reconciler.go:457-541 | a Delete that returns nil leaves nothing of a machine that was in dependency order |
| Verdicts.RequestsFollowAbsence | pkg/cloud/azure/actuators/machine/reconciler.go:653-747 | a create request is sent only if the Get just before reported the machine not found: never after another error, never for an existing machine in any state |
| Verdicts.UpdateFailureIsRetried | pkg/cloud/azure/actuators/machine/reconciler.go:146-168 | a Create that fails with its virtual machine in place is always retried; a failure before that gets the verdict of its own error |
| Verdicts.FailedMachineVerdict | pkg/cloud/azure/actuators/machine/reconciler.go:737-743 | a Failed machine is deleted and then retried; if the Delete fails its error decides |
| Verdicts.ExistsAnswers | pkg/cloud/azure/actuators/machine/reconciler.go:423-454 | from the one call and the cloud it finds: missing exactly if the machine is absent or Failed, present exactly in any other reported state but Deleting, an error exactly for a failed lookup or Deleting |
| Verdicts.FailedDeleteVerdict | pkg/cloud/azure/actuators/machine/reconciler.go:457-541 | an error of Delete holds that of its last call and leads to the same verdict; only a missing virtual network has an error of its own, and it is retried |
| Verdicts.NetworkOutcome | pkg/cloud/azure/actuators/machine/reconciler.go:547-641 | createNetworkInterface succeeds exactly if the configuration is not refused, the size supports what is asked of it and every call succeeds; a size that is unknown or does not support it is the machine's fault and creates nothing; any other error is that of the last call |
| Verdicts.SetOutcome | pkg/cloud/azure/actuators/machine/reconciler.go:769-811 | getOrCreateAvailabilitySet succeeds exactly if the calls it needs do, and otherwise returns the error of the last one |
| Verdicts.RequestOutcome | pkg/cloud/azure/actuators/machine/reconciler.go:655-719 | without a virtual machine: the request is sent exactly if diagnostics, cluster label and capacity group are in order and the secret, if one is named, is read and holds user data; it succeeds exactly if its call does or is reported as still under way; what every other error leads to |
| Verdicts.BootOutcome | pkg/cloud/azure/actuators/machine/reconciler.go:643-750 | from the first call and the cloud it finds: an undecodable key does nothing and is retried, a failed lookup decides by its own error, a Succeeded machine is left alone with nil, a Failed one is deleted, one in any other state is left alone and waited for |
| Verdicts.RefusedCreatesNothing | pkg/cloud/azure/actuators/machine/reconciler.go:547-617 | a configuration without virtual network or subnet, or with an over-long public-IP name, never creates anything, and is terminal, except that a lookup of the machine size that fails first, with anything but not-found, decides by its own error |
| ReconcilerObject.MachineReconciler.Delete | pkg/cloud/azure/actuators/machine/reconciler.go:457-541 | in place, call by call: the new cloud and the error are those of the function that the properties are about |
| ReconcilerObject.MachineReconciler.CreateNetworkInterface | pkg/cloud/azure/actuators/machine/reconciler.go:547-641 | in place, call by call: validation of the configuration, then the public IP, then the interface; new cloud and error are those of the function |
| ReconcilerObject.MachineReconciler.GetOrCreateAvailabilitySet | pkg/cloud/azure/actuators/machine/reconciler.go:769-811 | in place: new cloud, error, and the set name the virtual machine is to be placed in are those of the function |
| ReconcilerObject.MachineReconciler.CreateVirtualMachine | pkg/cloud/azure/actuators/machine/reconciler.go:643-750 | in place: the request after a not-found Get, the Delete of a Failed machine, and every early error leave the cloud and the error of the function |
| ReconcilerObject.MachineReconciler.CreateMachine | pkg/cloud/azure/actuators/machine/reconciler.go:122-154 | in place: interface, availability set, virtual machine, Update, stopping at the first error, as the function does |
| ReconcilerObject.MachineReconciler.CheckExists | pkg/cloud/azure/actuators/machine/reconciler.go:423-454 | in place: the cloud and the answer are those of the function; a Failed machine is reported missing, as the actuator does it (actuator.go:232-240) |
| Services.AzureCloud.DeleteAvailabilitySet | pkg/cloud/azure/services/availabilitysets/availabilitysets.go:68-100 | deletes only an existing set without virtual machines; both of its calls can fail |
| Services.AzureCloud.GetVm | pkg/cloud/azure/services/virtualmachines/virtualmachines.go:94-107 | not found, another error and a machine are told apart |
| Services.AzureCloud.DropVm | pkg/cloud/azure/services/virtualmachines/virtualmachines.go:353-382 | success means that the machine is gone; an error may leave it or not |
| Services.AzureCloud.CreateVm | pkg/cloud/azure/services/virtualmachines/virtualmachines.go:110-153 | an error may leave the machine with its disk, the disk alone, or nothing |
| Names.NamesAreInjective | pkg/cloud/azure/defaults.go:80-135 | machines of a cluster never share a disk, an interface or a public IP |
| Reconciler.ResourcesAre | pkg/cloud/azure/actuators/machine/reconciler.go:816-836 | the names of a machine's disk, interface and public IP, and its generated availability set from its machine-set and cluster labels |
| Names.NamesAre | pkg/cloud/azure/defaults.go:80-135 | the names as Azure shows them, and that the public-IP name is refused exactly above 63 characters |
| Names.AvailabilitySetNameFits | pkg/cloud/azure/actuators/machine/reconciler.go:820-836 | the generated name has at most 80 characters and ends in `-as`; in front of that is the machine set's name, behind the cluster's unless it starts with it, whole up to 77 characters and cut there otherwise |
| Errors.CreateIsTerminalIff | pkg/cloud/azure/actuators/machine/actuator.go:102-140 | over every error chain, a failed Create is terminal exactly when the first DetailedError has an int code in 400..499 other than 401 or the chain holds a MachineError, and requeued otherwise; without an error it has created exactly if the scope was persisted |
| Errors.RequestFailureIs | pkg/cloud/azure/actuators/machine/reconciler.go:705-719 | over every error chain, a create request counts as accepted exactly if the chain says that the creation is still under way; else it is the machine's fault exactly if the first DetailedError says "Failure sending request", and wrapped otherwise |
| Errors.NotFoundIsTopOnly | pkg/cloud/azure/errors.go:26-31 | a not-found is a DetailedError with code 404 on top of the chain |
| Errors.WrappingKeepsVerdict | pkg/cloud/azure/errors.go:25-40 | any number of `%w` layers keep the verdict, and hide a 404 from ResourceNotFound |
| Errors.RejectedRequestVerdict | pkg/cloud/azure/actuators/machine/reconciler.go:705-719 | a rejected create request is terminal exactly when its first DetailedError says "Failure sending request" or its chain is terminal anyway |
| Errors.ServerFaultOnSendingIsTerminal | pkg/cloud/azure/actuators/machine/reconciler.go:713-716 | a status 500 for which the message decides |
| Errors.AsDetailedFindsFirst | pkg/cloud/azure/actuators/machine/actuator.go:109-119 | the search for a DetailedError finds the first one of the flattened chain |
| Errors.IsSearchesChain | pkg/cloud/azure/actuators/machine/reconciler.go:706 | the comparison with an error value searches the flattened chain |
| TtlLru.RunIsBounded | pkg/util/cache/ttllru/ttllru.go:27-41 | after any history the cache holds at most `size` keys, each once, and the list and the index agree |
| TtlLru.CacheRefinesHistory | pkg/util/cache/ttllru/ttllru.go:74-126 | the cache holds what the history says, except for expired entries it has purged |
| TtlLru.LookupHitsIff | pkg/util/cache/ttllru/ttllru.go:74-82 | with a clock that never runs backwards, Get hits, with the value, exactly when the history's entry is fresh: purging is never visible |
| TtlLru.IdealIsLatestAdd | pkg/util/cache/ttllru/ttllru.go:85-93 | the history's value is that of the latest Add that was not undone by Remove or eviction |
| TtlLru.IdealIsTouchedLast | pkg/util/cache/ttllru/ttllru.go:80 | what it is fresh since is the latest Add of the key or Get that hit it, whichever came later; never a Peek |
| TtlLru.ResidencySinceUse | pkg/util/cache/ttllru/ttllru.go:74-126 | since its last Add, or the last Get or Peek that found it fresh, a key stays exactly until `size` other keys are in use at one time, that is, used since and not taken out again by Remove or by a lookup that found them expired; while it stays, those are the keys in front of it |
| TtlLru.ExpiredIsTakenOut | pkg/util/cache/ttllru/ttllru.go:120-123 | a Get or Peek that finds its key expired takes it out of index and list, and keeps the others and their order |
| TtlLru.PeekPredictsGet | pkg/util/cache/ttllru/ttllru.go:96-104 | whatever operations on other keys follow a Peek, with fewer than `size` of them in use at any time, a Get hits with the value Peek saw until the expiration it reported; the report is early by exactly the time between its two clock readings |
| TtlCache.TtlCache.Get | pkg/util/cache/ttllru/ttllru.go:74-82 | in place, through the shared item: cache and answer are those of the value model |
| TtlCache.TtlCache.Add | pkg/util/cache/ttllru/ttllru.go:85-93 | in place: the new cache, and whether a key was pushed out |
| TtlCache.TtlCache.Peek | pkg/util/cache/ttllru/ttllru.go:96-104 | in place: the new cache, the value and the expiration |
| TtlCache.TtlCache.PeekItem | pkg/util/cache/ttllru/ttllru.go:106-126 | in place: moves the key to the front, or purges it when it has expired |
| TtlCache.Lru.Add | vendor/github.com/hashicorp/golang-lru/simplelru/lru.go:51-70 | the bounded recency list under it: overwrite and move, or push in front and drop the last |
| TtlCache.New | pkg/util/cache/ttllru/ttllru.go:57-71 | a size that is not positive is refused; a new cache is empty |
| Zones.SkuCache.GetZones | pkg/cloud/azure/services/resourceskus/cache.go:167-281 | for both functions (a size of None is GetZones): the sorted, duplicate-free list of the zones that some selected virtual machine SKU lists in its first entry for the location without a restriction on the location or the zone; and what is kept in the cache |
| Zones.ZonesAre | pkg/cloud/azure/services/resourceskus/cache.go:169-208 | a zone is in the set exactly if some SKU for virtual machines, of the size if one is asked for, lists it in its first entry for the location, has no restriction on locations and none that names the zone |
| Ordering.LessIs | pkg/cloud/azure/services/resourceskus/cache.go:219-222 | the order of the list is the lexicographic one |
| Zones.SkuCache.Get | pkg/cloud/azure/services/resourceskus/cache.go:125-146 | the first SKU of the name, whatever its kind, or an error that wraps not-found |
| Zones.KindIsHonouredIff | pkg/cloud/azure/services/resourceskus/cache.go:120-136 | a lookup returns a SKU of the kind it is asked for, for every name and kind that has one, if and only if no two SKUs share a name up to letter case but not the kind |
| Zones.KindIsIgnored | pkg/cloud/azure/services/resourceskus/cache.go:132-136 | a list for which it returns one of the wrong kind |
| Zones.AvailableZones | pkg/cloud/azure/services/resourceskus/cache.go:174-196 | the loops that add, bail out and delete compute the listed zones that no restriction closes |
| Zones.AddZones | pkg/cloud/azure/services/resourceskus/cache.go:169-208 | one SKU adds exactly the zones it offers, by its first entry for the location |
| Zones.ZonesIgnoreOrder | pkg/cloud/azure/services/resourceskus/cache.go:214-222 | permuted SKUs give the same list |
| Zones.RestrictingOnlyShrinks | pkg/cloud/azure/services/resourceskus/cache.go:183-196 | adding restrictions only takes zones away |
| Zones.ZonesAreUnionOverSizes | pkg/cloud/azure/services/resourceskus/cache.go:226-266 | when all virtual machine SKUs are named, the zones of a location are those of the sizes together |
| ResourceId.AcceptsIffDerivable | pkg/cloud/azure/actuators/machine/reconciler.go:912-933 | the recursive check accepts exactly the segment lists of the grammar |
| ResourceId.DerivationIsUnique | pkg/cloud/azure/actuators/machine/reconciler.go:912-933 | the grammar is unambiguous |
| ResourceId.EvenLengthIsAccepted | pkg/cloud/azure/actuators/machine/reconciler.go:912-933 | every even-length list is accepted |
| ResourceId.GrammarReads | pkg/cloud/azure/actuators/machine/reconciler.go:912-933 | what a single tail, a pair, a provider at the end or in front of another, and a provider's resource do to the rest |
| ResourceId.ParsesIff | pkg/cloud/azure/actuators/machine/reconciler.go:883-899 | the parser accepts exactly the strings that start with a slash and have at least two segments, the first `subscriptions` or `providers` in any letter case, that the grammar derives; which error every other string gets |
| ResourceId.ValidatesIff | pkg/cloud/azure/actuators/machine/reconciler.go:873-880 | so does the validator, behind the provider prefix or without it |
| ResourceId.SplitStringAndOmitEmpty | pkg/cloud/azure/actuators/machine/reconciler.go:901-910 | the loop yields the non-empty pieces in order |
| ResourceId.SegmentsOfPrint | pkg/cloud/azure/actuators/machine/reconciler.go:901-910 | splitting undoes printing of non-empty slash-free segments |
| ResourceId.PrintedIsValid | pkg/cloud/azure/actuators/machine/reconciler.go:873-899 | any printed identifier of an even number of segments behind `subscriptions` or `providers` passes, with or without the provider prefix |
| ResourceId.DoubledSlashParses | pkg/cloud/azure/actuators/machine/reconciler.go:883-899 | doubling any slash keeps the parser's verdict |
| ResourceId.DoubledSlashValidates | pkg/cloud/azure/actuators/machine/reconciler.go:873-880 | the validator's verdict changes exactly when the doubled slash completes its prefix in front of a valid remainder |
| ResourceId.DoubledSlashCanMatter | pkg/cloud/azure/actuators/machine/reconciler.go:873-880 | identifiers for which it does |
| ResourceId.LetterCaseParses | pkg/cloud/azure/actuators/machine/reconciler.go:883-933 | the parser's verdict does not depend on letter case |
| ResourceId.LetterCaseValidates | pkg/cloud/azure/actuators/machine/reconciler.go:873-880 | the validator's does exactly when only one spelling carries the prefix and a valid remainder follows |
| ResourceId.UpperCasePrefixIsRefused | pkg/cloud/azure/actuators/machine/reconciler.go:873-880 | identifiers for which it does |
| ResourceId.ProviderIDAgreesWithParser | pkg/cloud/azure/defaults.go:109-120 | a printed provider ID passes the check and splits back into its parts |
| ResourceId.ProviderIDReads | pkg/cloud/azure/defaults.go:110-120 | the provider ID as it reads for any parts, with subscription and resource group in lower case |
| ResourceId.ManagedIdentityNameAgreesWithParser | pkg/cloud/azure/defaults.go:100-107 | so does a managed-identity ID |
| ResourceId.AvailabilitySetIDAgreesWithParser | pkg/cloud/azure/services/virtualmachines/virtualmachines.go:394-396 | so does an availability-set ID |
| DataDisks.GenerateDataDisks | pkg/cloud/azure/services/virtualmachines/virtualmachines.go:555-644 | succeeds exactly when every disk is sound and suffixes and LUNs are pairwise distinct; output i describes disk i; an error names the first offending index and the first check it fails |
| DataDisks.CheckDisk | pkg/cloud/azure/services/virtualmachines/virtualmachines.go:564-618 | finds the first of the eight faults in the order of the checks, or none |
| DataDisks.SuffixReads | pkg/cloud/azure/services/virtualmachines/virtualmachines.go:558-560 | the suffix pattern in character codes |
| DataDisks.AcceptedDisksAreDistinct | pkg/cloud/azure/services/virtualmachines/virtualmachines.go:555-644 | the names in the request are distinct and at most 80 long, the LUNs distinct |
| DataDisks.AtMost64Disks | pkg/cloud/azure/services/virtualmachines/virtualmachines.go:599-609 | at most 64 disks are ever accepted |
| DataDisks.AcceptanceIgnoresOrder | pkg/cloud/azure/services/virtualmachines/virtualmachines.go:555-644 | acceptance survives reordering and dropping disks |
| DataDisks.OsDiskNameClash | pkg/cloud/azure/defaults.go:122-130 | a data disk has the OS disk's name exactly when its suffix is `OSDisk`, which is accepted |
| DataDisks.UltraSsdEnabled | pkg/cloud/azure/services/virtualmachines/virtualmachines.go:299-314 | true, false or unset, exactly by capability and presence of an ultra disk |
| Tags.GetTagList | pkg/cloud/azure/actuators/machine_scope.go:497-543 | in whatever order the maps are visited: every key has the cluster's value, else the spec's, else the infrastructure's; with user tags it errs exactly on twins in the spec, more than 5 cluster tags or more than 45 other keys; which error |
| Tags.FindDuplicateTagKeys | pkg/cloud/azure/actuators/machine_scope.go:572-593 | the title-case forms shared by several keys with their exact counts; none exactly when there are no twins |
| Text.TitleFoldsToo | pkg/cloud/azure/actuators/machine_scope.go:577-580 | two keys share a title-case form exactly if they are equal up to letter case |
| Tags.GetInfraResourceTags | pkg/cloud/azure/actuators/machine_scope.go:553-561 | of several entries with one key the last counts |
| Tags.MachineTags | pkg/cloud/azure/actuators/machine_scope.go:108-118 | composed: the ownership tag is always "owned", at most 46 tags result, exactly when it succeeds, and exactly when two of the resulting keys are the same to Azure |
| Tags.MergedTwinsIff | pkg/cloud/azure/actuators/machine_scope.go:502-530 | for every merge with a twin-free spec: the result holds two keys that Azure does not tell apart if and only if the infrastructure's or the cluster's tags do, a spec key respells one of the infrastructure's, or a user key respells one of the cluster's |
| Tags.RespelledInfraTagPasses | pkg/cloud/azure/actuators/machine_scope.go:508-524 | a spec that respells an infrastructure tag is accepted, and both end up in the request |
| Tags.RespelledOwnershipTagPasses | pkg/cloud/azure/actuators/machine_scope.go:526-530 | so is one that respells the ownership tag |
| NicPools.JoinLoadBalancers | pkg/cloud/azure/services/networkinterfaces/networkinterfaces.go:158-241 | the loops produce the split by family: pools and NAT rules of both configurations |
| NicPools.StackJoinLoadBalancers | pkg/cloud/azure/services/networkinterfaces/networkinterfaces_stack.go:116-184 | the Stack Hub loops take every frontend for IPv4 |
| NicPools.FamilyPartition | pkg/cloud/azure/services/networkinterfaces/networkinterfaces.go:174-201 | the frontends chosen for the two families are each in order, disjoint, and together all that have a pool |
| NicPools.PoolsPartition | pkg/cloud/azure/services/networkinterfaces/networkinterfaces.go:174-201 | the two lists of pools hold min(frontends, pools) entries, each pool once |
| NicPools.PoolsGoTo | pkg/cloud/azure/services/networkinterfaces/networkinterfaces.go:174-241 | each pool stands in the configuration of its frontend's family, behind those of the earlier frontends of that family, the internal load balancer's behind all of the public one's |
| NicPools.RulesGoTo | pkg/cloud/azure/services/networkinterfaces/networkinterfaces.go:192-206 | with a rule, each configuration gets it once for every pool of its family in the public load balancer; without one it gets none |
| NicPools.FormsAgreeIff | pkg/cloud/azure/services/networkinterfaces/networkinterfaces_stack.go:116-184 | the public and the Stack Hub form agree exactly when no frontend with a pool is IPv6 |
| NicPools.EveryPoolIsJoinedIff | pkg/cloud/azure/services/networkinterfaces/networkinterfaces.go:238-241 | every pool with a frontend is joined exactly when the subnet has IPv6 or no such frontend is IPv6 |
| NicPools.JoinSecurityGroups | pkg/cloud/azure/services/networkinterfaces/networkinterfaces.go:257-275 | an error exactly if some group does not exist; otherwise the groups in order, one without an ID for every lookup that failed otherwise |
| NicPools.GroupsKeepOrder | pkg/cloud/azure/services/networkinterfaces/networkinterfaces.go:260-274 | the groups come in the order of their lookups |
| NicPools.FailedLookupIsReportedIff | pkg/cloud/azure/services/networkinterfaces/networkinterfaces.go:262-269 | a list with a failed lookup ends in an error if and only if some group does not exist or no lookup fails otherwise |
| NicPools.FailedLookupSlipsThrough | pkg/cloud/azure/services/networkinterfaces/networkinterfaces.go:262-269 | a lookup for which it does not |
| Addresses.ListAddresses | pkg/cloud/azure/actuators/machine/reconciler.go:180-269 | the nested loops produce the host name pair and then each interface's contribution in order |
| Addresses.AddressesAre | pkg/cloud/azure/actuators/machine/reconciler.go:180-269 | which addresses of which kind are in the list: the computer name as host name and internal name, the name under each interface's suffix, each private address, each public IP's address and name, and no others |
| Addresses.OrderReads | pkg/cloud/azure/actuators/machine/reconciler.go:180-269 | the order of the kinds for any name, suffix and configuration |
| Addresses.FailedInterfaceDropsItsPart | pkg/cloud/azure/actuators/machine/reconciler.go:206-219 | a failed interface lookup drops exactly that interface's part, at its place between those of the interfaces before and after it |
| Addresses.FailedPublicIpDropsItsEntries | pkg/cloud/azure/actuators/machine/reconciler.go:241-267 | a failed public-IP lookup drops exactly that IP's entries, at their place behind the private address of their configuration |
| Addresses.ListAround | pkg/cloud/azure/actuators/machine/reconciler.go:203-269 | whatever one interface's lookup answers, the list before and after its part is the same |
| Addresses.FindInternalBalancer | pkg/cloud/azure/actuators/machine/reconciler.go:271-310 | the name kept is that of the last load balancer with a private frontend |
| Addresses.FoundIs | pkg/cloud/azure/actuators/machine/reconciler.go:275-294 | the load balancers searched are those that some lookup answered |
| Addresses.FirstIsKeptIff | pkg/cloud/azure/actuators/machine/reconciler.go:299-306 | it is what a search ending at the first match would keep if and only if the first and the last match have the same name or there is none |
| Addresses.SecondBalancerIsKept | pkg/cloud/azure/actuators/machine/reconciler.go:299-306 | two load balancers for which it is not |
| Conditions.SetCondition | pkg/cloud/azure/actuators/machine/conditions.go:35-65 | the in-place change or append is the one the lemmas below are about |
| Conditions.FindCondition | pkg/cloud/azure/actuators/machine/conditions.go:69-76 | the first condition of the type, or none exists |
| Conditions.PutKeepsKinds | pkg/cloud/azure/actuators/machine/conditions.go:35-65 | types stay unique |
| Conditions.PutChangesOne | pkg/cloud/azure/actuators/machine/conditions.go:35-65 | the condition of the type is set, all others keep content and order |
| Conditions.HistoryOfKind | pkg/cloud/azure/actuators/machine/conditions.go:51-62 | over any history LastTransitionTime is the time of the last change of status |
| Conditions.ShowsLastReport | pkg/cloud/azure/actuators/machine/conditions.go:35-65 | over any history a condition shows the last report of its type |
| Scope.MachineCreatedFollowsLastReport | pkg/cloud/azure/actuators/machine/reconciler.go:108-119 | over any sequence of operations types stay unique, other conditions untouched, and MachineCreated shows the last Create or successful Update, since the last change of its status |
| Scope.StateFollowsAnnotation | pkg/cloud/azure/actuators/machine/reconciler.go:464-469 | over any sequence of operations, Delete's first writes among them, the state in the provider status is the one in the annotation |
| Report.ConditionTellsTheCloud | pkg/cloud/azure/actuators/machine/reconciler.go:107-343 | after any run of a new machine among any operations on others, against any adversary: MachineCreated is the outcome of the last Create or successful Update, and it is True only if the last Get of that operation found the machine complete (with disk, interface and public IP), in order and rightly placed |
| Report.CreatesAgree | pkg/cloud/azure/actuators/machine/reconciler.go:108-154 | the cloud's side and the machine object's side of a Create agree on whether it succeeds |
| Scope.OwnLabelsAreKept | pkg/cloud/azure/actuators/machine/reconciler.go:386-420 | no operation writes the labels of cluster, machine set and role, so Delete asks for the availability set that Create named |
| Scope.BalancerIsSetOnce | pkg/cloud/azure/actuators/machine/reconciler.go:271-310 | a known internal load balancer is never replaced, and only a master gets one |
| Scope.UpdateIsIdempotent | pkg/cloud/azure/actuators/machine/reconciler.go:157-343 | a second Update with the same answers changes nothing, whenever it comes |
| Scope.GetVmState | pkg/cloud/azure/actuators/machine/reconciler.go:345-384 | the provisioning state, or the name of the first telling status code |
| Writes.PowerStateReads | pkg/cloud/azure/actuators/machine/reconciler.go:359-383 | nil codes and the one for succeeded provisioning are passed over, and of the others the first one counts |
| Writes.PowerStateNames | pkg/cloud/azure/actuators/machine/reconciler.go:363-380 | the table of power states |
| Writes.VmStateReads | pkg/cloud/azure/actuators/machine/reconciler.go:345-356 | an unfinished machine is in its provisioning state, a finished one in its power state |
| Writes.UpdateWrites | pkg/cloud/azure/actuators/machine/reconciler.go:157-343 | what Update leaves: VM ID, state in status and annotation, addresses, and the provider ID spelled out with subscription, resource group and computer name in their places, none without a name; everything as it was on an error |
| Writes.UpdateLabels | pkg/cloud/azure/actuators/machine/reconciler.go:386-420 | which label gets which value, and that every other stays |
| Writes.UpdateBalancer | pkg/cloud/azure/actuators/machine/reconciler.go:274-310 | a master without an internal load balancer gets the last one found, any other machine keeps its own |
| Writes.AddressesFollowLastUpdate | pkg/cloud/azure/actuators/machine/reconciler.go:314-326 | over any sequence of operations, provider ID and addresses are those of the last successful Update, on its own or within a Create |
| Writes.CreateWrites | pkg/cloud/azure/actuators/machine/reconciler.go:122-154 | a Create that succeeds leaves what its Update leaves, after noting a machine that was there |
| Writes.FailedCreateWrites | pkg/cloud/azure/actuators/machine/reconciler.go:731-747 | one that fails notes only a machine seen in a provisioning state, a Failed one as being deleted, and keeps addresses, provider ID and load balancer |
| Writes.DeleteWrites | pkg/cloud/azure/actuators/machine/reconciler.go:462-469 | before its first call Delete notes the machine as Deleting, in status and annotation, and nothing else |
| Writes.ReasonFollowsStatus | pkg/cloud/azure/actuators/machine/reconciler.go:328-334 | over any sequence of operations, MachineCreated gives the reason and message of its status |
| ScopeObject.MachineScope.Update | pkg/cloud/azure/actuators/machine/reconciler.go:157-343 | in place: everything Update writes; on an error nothing |
| ScopeObject.MachineScope.Create | pkg/cloud/azure/actuators/machine/reconciler.go:108-154 | in place: everything Create writes, through the machine that was seen, the Delete of a Failed one and the Update that follows |
| Scope.StepKeepsOwnLabels | pkg/cloud/azure/actuators/machine/reconciler.go:386-420 | no single operation adds, drops or changes the labels of cluster, machine set and role |

## Left out

Assumptions of the cloud model:

- Calls that take effect after the operation that made them has returned, and other actors that create, edit or delete resources. Deletions and state changes of virtual machines by Azure itself are modelled, at every call.
- Reconcile operations that run at the same time; operations of any machines follow each other in any order.
- A plain 404 that is not true, where a client takes it for an answer about existence: in the Gets and in the requests to delete. Any other call, and the result of an accepted deletion, can fail with a 404 like with any other error.
- A service method is one call with one fault, except the deletion of an availability set, which makes two. The lookups inside CreateOrUpdate of an interface or a virtual machine, the wait on a future, and the derivation of the request belong to that one call: its error is arbitrary.
- Configurations that change: a machine keeps its spec and the labels that name its cluster and machine set. `Scope.OwnLabelsAreKept` shows that the controller does not change those labels.
- A virtual machine without a network profile: in `Reconciler` the missing virtual network always fails an Update; `Scope` models the guard as it is.
- The variants of the services for Azure Stack Hub, except for the backend pools.

Simplifications:

- The reconciler's effect on the cloud and its writes to the machine object are two models, `Reconciler` and `Scope`, of the same operations; `Scope` takes what the calls answered as its input, and `Report` feeds it with the answers of the other.
- Text: strings are sequences of characters with ASCII folding in place of Unicode folding and title case; lengths are in characters. The suffix pattern of data disks is written out as a predicate.
- Nil maps read as empty ones where the code makes no difference; integer widths, since no arithmetic is done on them.
- Nil pointers the code dereferences without a check: the provisioning state in Exists (modelled as a crash), the lists of a SKU's location or a load balancer, an out-of-range NAT rule (a precondition).
- Cache keys are wrapped strings; the clock readings of an operation are parameters; the mutex, and Get's write outside of it, are not modelled.
- Errors carry what the code inspects, not their texts; data-disk errors name an index in place of the disk's name.

Not modelled:

- Persisting the scope: it rests on the API server's patch behaviour, which is not part of this model. A failure to persist appears only in the actuator's verdict.
- GetCache, the process-wide cache of SKU caches; and the availability-zones service, whose answer is a question to the adversary: it lists the SKUs itself, keeps the last matching location entry and ignores restrictions. Nothing but tests calls GetZones and GetZonesWithVMSize.
- Static IPs, security groups and the other literal parts of an interface.
- Credentials, secrets, passwords, OS profiles, security profiles, OS disks, spot options, boot diagnostics (its error is a parameter), image plans: literal requests and finite tables.
- The create-only services, events, metrics, logging, the termination handler, machine-set annotations.

Weaker than one might expect:

- Zones.SkuCache.Get: the list of valid SKUs in the error text is not modelled.
