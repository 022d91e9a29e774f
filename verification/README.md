# IPAM: verified models of the service's hard core

This project models seven pieces of the IPAM service and proves what each of them keeps, over every input, every run
or every interleaving. Each piece is written twice: once as the specification (functions, predicates and a state
machine where the code is concurrent) and once in the code's own form (methods with loops, classes that update their
fields), with the second proved equal to the first.

- **Addresses and subnets** (`Ipnet`, `FreeSearch`, `Placement`, `Allocator`, on `Arith`). CIDR blocks as exact
  ranges, laminarity, subdivision, first-free and bulk search with a pigeonhole bound on the work, placement in the
  most specific subnet, and allocation while other callers create, change and delete rows between any two steps.
- **Host sync** (`HostReport`, `HostPlan`, `HostStore`, `HostLoad`, `HostTables`, `HostParts`, one module per section
  of the plan, `HostSync`, `HostSyncResults`, `HostIds`, `HostPlaces`, `HostConflict`). A report is turned into an
  ordered list of writes over seven tables and the audit log. The main results: the store is in sync afterwards, a
  store in sync plans nothing, hence applying a report twice plans nothing the second time; what is not reported is
  left alone; the next id stays unused, so reports can follow each other for ever; a report is refused if and only if
  a device name or a subnet name is taken twice over (`HostLawful`, `HostOpened`, `HostNewSubnets`, `HostRefusal`).
  What the applied store holds is also stated column by column over the old rows and the report, without the planner
  (`HostMatch`, `HostColumns`, `HostRows`), and so is what the log tells (`HostTold`). `HostLaws` says what the
  store's own checks keep under any list of writes.
  `HostPlanner` is the planner as an object, `HostMem` the transactional store (with `HostGone`, what marking a device
  does), `HostRunner` the poll and `HostReconcile` the reconcile over that store.
- **KVM sessions** (`Kvm`, `KvmProtocol`, `KvmCounts`, `KvmSafety`, `KvmLocks`, `KvmSteps`, `KvmRuns`, `KvmProgress`,
  `KvmManager`, `KvmBinding`, on `MapCount`). Threads, the manager lock, one lock per session, BMC logins and
  background logouts as a state machine whose steps are the code's critical sections and external calls; safety in
  every interleaving, and progress: no thread waits on a cycle, and every run without new arrivals drains. A record of
  the run says which device, session and time every token and console stands for, and only a request for that device
  gets through.
- **Switch ports** (`PortRank`, `PortRankRun`, `PortFields`, `PortLinks`, `PortHistory`). The ranking of access ports
  and the per-switch link sets over a whole history of runs.
- **ARP** (`Arp`, `ArpFilter`, `ArpSafety`, `ArpRun`, `ArpReplay`, `ArpResults`, `ArpOutcome`). The planner with its
  filters over the bytes of an entry, the guarded apply, its outcome row by row, and replay.
- **Scan queue** (`ScanQueue`). Workers, retries and cancels.
- **Rate limiter** (`RateLimiter`). The pruned index against the full request history.

Conventions. One tenant; row ids are natural numbers with 0 for none, new ids come from a counter; time is an integer.
An address is a family and a number, a CIDR is a family, an address and a prefix length; an address text is what it
parses to and how it is spelled. Go maps are maps, and wherever the code ranges over a map or relies on an unstable
sort, the model picks an arbitrary order and the contract holds for all of them.

Properties that do not hold as one might read them are stated with the exact condition: `HostRunner.ListedAgain` and
`ListedAgainIff` (reports with equal change times can be passed over; `EqualTimesPassed` is the smallest instance),
`HostReconcile.ReconcileConverges` and `SecondDoesNothing` (live hosts that inventory omits from its listing, or lists
without a digest), `HostRefusal.RefusedExactly` (names taken twice over; `AnyReportCanClash` is the smallest
instance), `ScanQueue.BackoffExact` (the delay overflows from the 32nd retry on).

## Model

| member | source | states |
|---|---|---|
| Ipnet.ContainsIsRange | internal/ipnet/ipnet.go:262-275 | masking an address gives the block's base exactly when it lies in the block's address range |
| Ipnet.Laminar | internal/ipnet/ipnet.go:195-227 | two blocks that share an address are nested, the longer prefix inside the shorter |
| Ipnet.OverlapsIffShare | internal/ipnet/ipnet.go:195-206 | `Overlaps` holds if and only if some address lies in both blocks |
| Ipnet.WithinIffStrictSubset | internal/ipnet/ipnet.go:209-227 | `Within` holds if and only if the child's addresses are a subset of the parent's and the blocks differ |
| Ipnet.Subdivide | internal/ipnet/ipnet.go:231-259 | the loop yields pairwise disjoint blocks of the asked prefix that cover the parent exactly, 2^(difference) of them; both errors hold exactly when stated, the limit being 1024 blocks |
| Ipnet.ChildrenPartition | internal/ipnet/ipnet.go:231-259 | the arithmetic progression of children is a partition of the parent |
| FreeSearch.HostRangeFits | internal/ipnet/ipnet.go:85-101 | the usable host range is never empty and stays inside the block, for every prefix length of both families (which addresses it holds: `RangeIsUsable`) |
| FreeSearch.RangeIsUsable | internal/ipnet/ipnet.go:80-101 | an address is in the search range if and only if it is a host of the block: in it, and not its first or last (IPv4 below /31), not its first (IPv6 below /127) |
| FreeSearch.BoundsAreAdmissible | internal/ipnet/ipnet.go:126-150 | the bounds carved by skipFirst and skipLast leave exactly the usable hosts with that many usable hosts below and above |
| FreeSearch.CanonIs | internal/ipnet/placement.go:21-34 | exactly the addresses of ::ffff:0:0/96 are taken for another one, the IPv4 address in their low 32 bits |
| FreeSearch.Hosts | internal/ipnet/ipnet.go:105-124 | exactly the usable hosts of the block, each once and ascending; refused exactly when the block has more than 65536 of them |
| FreeSearch.Pigeonhole | internal/ipnet/ipnet.go:126-150 | a run of blocked addresses is no longer than the blocked set |
| FreeSearch.FirstFree | internal/ipnet/ipnet.go:131-150 | the least host that is usable with enough others on either side of it and is neither the gateway nor excluded under any spelling, or none if and only if the block has none; after inspecting at most one address more than the blocked set holds |
| FreeSearch.IterFreeAscending | internal/ipnet/ipnet.go:154-180 | iterated first-free answers are free, in range and strictly ascending |
| FreeSearch.IterFreeComplete | internal/ipnet/ipnet.go:154-180 | iterated first-free answers pass over no free host |
| FreeSearch.BulkFree | internal/ipnet/ipnet.go:154-180 | one pass over the range equals n iterated first-free searches with growing excludes; exhausted exactly when there are fewer than n |
| FreeSearch.FreeCandidates | internal/addresses/addresses.go:433-449 | the candidate list is the same ascending prefix of iterated first-free answers |
| Placement.FindMostSpecific | internal/ipnet/placement.go:21-34 | the one-pass loop returns a containing candidate that no containing candidate beats by prefix length, then id; none exactly when none contains the address |
| Placement.MostSpecificIsBest | internal/ipnet/placement.go:21-34 | in columns: the longest prefix of the subnets that contain the address, the lowest id among equals |
| Placement.MostSpecificOrderFree | internal/ipnet/placement.go:21-34 | the chosen subnet does not depend on the order of the candidates |
| Placement.MostSpecificIsInnermost | internal/ipnet/placement.go:21-34 | the chosen subnet lies inside every subnet that contains the address |
| Placement.AutoCidrIsRoot | internal/ipnet/placement.go:38-61 | the subnet made for an address that no subnet contains lies inside no existing subnet |
| Placement.AutoCidrExact | internal/ipnet/placement.go:46-61 | the opened network contains the address and has the reported prefix length when that is 8 to 32 (IPv4) or 16 to 127 (IPv6), otherwise 32 or 64 |
| Placement.RecordableIsCanonical | internal/ipnet/placement.go:92-117 | an address worth recording is its own text identity: IPv4-mapped addresses are never recorded |
| Placement.RecordableExact | internal/ipnet/placement.go:90-117 | exactly which addresses are recorded, as numeric ranges: not unspecified, loopback, link-local, multicast, broadcast or IPv4-mapped |
| Allocator.LiveTextsUnique | internal/memstore/memstore.go:370-405 | after any history of guarded inserts, re-spellings and deletes no two live rows share an address text |
| Allocator.ReleasedBetween | internal/memstore/memstore.go:379-405 | two inserts of one text are separated by a change or delete of the first row |
| Allocator.TwiceReleased | internal/addresses/addresses.go:365-409 | a value one allocator hands out twice: the log position and row of the first time are named, and that row was changed or deleted before the second insert |
| Allocator.AddressStore.CreateAddress | internal/memstore/memstore.go:379-405 | refused exactly when a live row has the text; otherwise one row is added and the history stays guarded |
| Allocator.AddressStore.UpdateAddress | internal/memstore/memstore.go:486-506 | refused exactly when the row is missing or its new text belongs to another row |
| Allocator.AddressStore.DeleteAddress | internal/memstore/memstore.go:508-520 | removes exactly that row |
| Allocator.AllocInto | internal/addresses/addresses.go:365-409 | whatever the other callers do: a success is the lowest value that was not the gateway, skipped, excluded, below startFrom or lost to another row, and was free at its insert; exhausted means every usable value was lost; a conflict means twenty different values were lost; the loop terminates; the value is the allocator's one insert, at a named position of the log |
| Allocator.AllocateNext | internal/addresses/addresses.go:245-258 | the same for the exclude set read at the start; the result is a usable host with enough others on either side, neither the gateway nor excluded under any spelling |
| Allocator.AllocatedIsLowest | internal/addresses/addresses.go:365-409 | read off the block: the value handed out is open, and every open value between the start and it was lost to another row |
| Allocator.BulkAllocate | internal/addresses/addresses.go:263-291 | the values ascend strictly, also on partial failure; each was handed out, and every usable value up to the last is among them or was lost to another row; the values are, one for one and in order, the allocator's own inserts in the log, plus at most the one whose row was gone when read back |
| RateLimiter.WindowBound | internal/httpapi/snmp.go:26-63 | no window of the configured length ever holds more than `per` allowed requests of a key |
| RateLimiter.AllowedIff | internal/httpapi/snmp.go:40-63 | over every history: a request is allowed if and only if the set of earlier allowed requests of its key less than the window ago has fewer than `per` members |
| RateLimiter.LoadIsRecent | internal/httpapi/snmp.go:40-63 | what a window ending later holds was recent for the last request in it |
| RateLimiter.Limiter.Evict | internal/httpapi/snmp.go:40-63 | dropping the idle keys loses nothing the history still demands |
| RateLimiter.Limiter.Compact | internal/httpapi/snmp.go:51-56 | the in-place loop, with its read and write positions, leaves exactly the timestamps inside the window at the front |
| RateLimiter.Limiter.Allow | internal/httpapi/snmp.go:40-63 | a request is allowed if and only if fewer than `per` earlier allowed requests of its key lie less than the window ago in the full history |
| KvmManager.Manager.GcLocked | internal/kvm/kvm.go:346-356 | whatever order the maps yield, the sweep ends every expired token and console and nothing else |
| KvmSafety.AcquireAccounted | internal/kvm/kvm.go:292-302 | taking a session keeps every session's account: references are holders, registered exactly while held |
| KvmCounts.ReleaseAccounted | internal/kvm/kvm.go:306-315 | giving one up keeps every session's account, and the last holder puts it on its one way out |
| KvmSteps.StepInv | internal/kvm/kvm.go:207-438 | every step of every thread keeps the invariant: references, registration, logins, tokens, locks |
| KvmRuns.RunInv | internal/kvm/kvm.go:141-155 | the invariant holds after every possible run |
| KvmRuns.RefsAreHolders | internal/kvm/kvm.go:292-315 | in every interleaving a session's references are its tokens plus its consoles plus its starts in flight |
| KvmRuns.HeldIsLive | internal/kvm/kvm.go:292-335 | a session is registered if and only if somebody holds it; a held session is open; any other is closed or being retired, never both |
| KvmRuns.OneSessionPerKey | internal/kvm/kvm.go:292-302 | one host and user never has two sessions in use |
| KvmRuns.LoggedOutOnce | internal/kvm/kvm.go:318-335 | no login is logged out twice or while a session stores it |
| KvmRuns.NothingLeaks | internal/kvm/kvm.go:318-401 | once nobody holds a session and the background has drained, every login ever made was logged out exactly once |
| KvmRuns.TokenOnce | internal/kvm/kvm.go:405-422 | in every interleaving a start token opens at most one console, and none while it can still be redeemed; which requests open it: `KvmBinding.ExchangeOnlyOwn` |
| KvmBinding.EntriesStand | internal/kvm/kvm.go:207-233 | after every run each token and console carries the device and the session of the start it came from, until 60 s after the start (token) or an hour after its exchange (console) |
| KvmBinding.ExchangeOnlyOwn | internal/kvm/kvm.go:403-422 | after every run an exchange uses up the token and opens one console if and only if the token was started for the asked device, less than 60 s ago; otherwise tokens, consoles and uses are unchanged and the request ends |
| KvmBinding.ConsoleOnlyOwn | internal/kvm/kvm.go:424-438 | after every run a request goes on, on the console's session, if and only if the console was opened for the asked device less than an hour ago; the manager is unchanged either way |
| KvmBinding.LatestPassword | internal/kvm/kvm.go:289-302 | after every run a login of a registered session uses the password of the latest start for that host and user |
| KvmBinding.SweptExact | internal/kvm/kvm.go:346-356 | in whatever order a sweep runs, exactly the entries whose time has not come stay, unchanged |
| KvmBinding.SweepByAge | internal/kvm/kvm.go:337-356 | after every run a sweep keeps exactly the tokens started less than 60 s ago and the consoles opened less than an hour ago |
| KvmBinding.RequestUsesLogin | internal/kvm/kvm.go:358-370 | a request uses the login its open session stores, starts one only when there is none, and ends at a closed session |
| KvmBinding.LoginStamped | internal/kvm/kvm.go:370-381 | a login is stored on its session with the time it was made |
| KvmBinding.DroppedWhenOld | internal/kvm/kvm.go:383-401 | a refused login is dropped and handed to a logout if and only if the session still stores it and it is at least 10 s old |
| KvmRuns.SweepExists | internal/kvm/kvm.go:346-356 | a sweep is always possible and ends |
| KvmProgress.NeverStuck | internal/kvm/kvm.go:207-438 | in every reachable state every thread can go on itself, or the holder of the lock it waits for can, or the holder of the lock that one waits for: no thread waits on a cycle of the two kinds of lock |
| KvmProgress.StepWork | internal/kvm/kvm.go:207-438 | every step that is neither an arrival nor the clock makes the work left in the system smaller |
| KvmProgress.QuietRunsEnd | internal/kvm/kvm.go:207-438 | after any run, a continuation of such steps is no longer than the work left |
| KvmProgress.StuckIsDone | internal/kvm/kvm.go:207-438 | a run that no such step can continue has no thread left |
| KvmProgress.RunsDrain | internal/kvm/kvm.go:318-401 | every run can be continued by such steps until no thread is left; with the two results above every way of continuing it as far as possible ends there |
| HostReport.BMCNames | internal/hostplan/bmc.go:12-29 | the names recognised as BMC ports are exactly the names given to BMC ports |
| HostReport.BMCNameInjective | internal/hostplan/bmc.go:12-18 | different BMC ports get different names |
| HostReport.ParseDecimal | internal/hostplan/bmc.go:12-29 | reading back a printed number gives the number |
| HostReport.WantedDistinct | internal/hostplan/address.go:38-53 | the interfaces of a normalised report, BMC ports included, have different names |
| HostReport.TrimIs | internal/hostplan/match.go:40-50 | trimming takes blanks off both ends and only blanks, as many as there are |
| HostReport.LowerIs | internal/hostplan/match.go:40-50 | folding maps exactly the capital letters to their small ones |
| HostLoad.MatchIsStored | internal/hostplan/match.go:88-112 | the matched device is a stored one, linked to this host or to none |
| HostMatch.MatchIsDecided | internal/hostplan/match.go:83-112 | over the stored devices alone, whatever order the candidates are loaded in: the host's own device; else the only device with the reported, identifying serial if no other host has it; else one named like the report, not linked to another host, if the name is not a generic one; otherwise none, exactly when no rule gives one |
| HostLoad.NoneIsNew | internal/hostsync/apply.go:14-95 | loading nothing for a new device is loading everything about it |
| HostPlanner.BuildPlan | internal/hostplan/plan.go:123-134 | the planner object, run section by section, yields the specified plan |
| HostPlanner.Planner.ReportedInterfaces | internal/hostplan/address.go:38-53 | the loop collects the recorded interfaces and the BMC ports |
| HostPlanner.Planner.BmcInterfaces | internal/hostplan/bmc.go:33-62 | BMC ports get their names in order, names the host itself uses are skipped, the BMC address sits on the first port |
| HostPlanner.Planner.Interfaces | internal/hostplan/address.go:58-108 | interface writes as specified: created, refreshed, marked lost |
| HostPlanner.Planner.Addresses | internal/hostplan/address.go:132-179 | address writes as specified: every recorded address once, then the releases |
| HostPlanner.Planner.Packages | internal/hostplan/updates.go:16-63 | the package rows wanted, replaced only when one is new, changed or gone |
| HostPlanner.Planner.Guests | internal/hostplan/virt.go:14-82 | guest links, unlinks and the replaced guest rows |
| HostPlanner.Planner.OwnHypervisor | internal/hostplan/virt.go:113-151 | the device's own hypervisor link and the guest rows pointing at it |
| HostIfaces.IfacesSettle | internal/hostplan/address.go:58-108 | afterwards the device's interfaces are exactly as reported, lost ones marked; other devices' rows are the same |
| HostIfaces.SettledPlanNothing | internal/hostplan/address.go:58-129 | settled interfaces plan no write |
| HostRows.WantedAre | internal/hostplan/address.go:38-53 | the interfaces wanted are exactly the recorded ones of the report and the BMC ports whose name no recorded interface has |
| HostRows.IfaceColumns | internal/hostplan/address.go:58-129 | every interface row after an applied report, column by column: rows of other devices as before, own rows as reported or marked lost, BMC rows kept while the BMC is silent, new rows from exactly one wanted interface |
| HostSections.AddrsSettle | internal/hostplan/address.go:132-239 | afterwards every reported address has its one row with the wanted columns, everything else on the device is released, rows of other devices with unreported addresses are the same |
| HostSections.SettledAddrsPlanNothing | internal/hostplan/address.go:132-263 | settled addresses plan no write, conflict and move columns included |
| HostRows.AddrColumns | internal/hostplan/address.go:132-263 | every address row after an applied report, column by column over the old row and the claim that settles its text: device, interface, state, DNS name, times, and the move and conflict columns by move and window; unclaimed rows released or as before; new rows from their claim |
| HostSections.PackagesSettle | internal/hostplan/updates.go:16-63 | afterwards every pending package has its wanted row and no other name is stored |
| HostSections.PackagesExact | internal/hostplan/updates.go:16-63 | package names stay distinct, and then the rows are exactly the pending packages, one for each |
| HostSections.SettledPackagesPlanNothing | internal/hostplan/updates.go:16-63 | settled packages plan no write |
| HostSections.HardwareSettle | internal/hostplan/hardware.go:25-59 | afterwards the stored digest and free bytes are the reported ones, and so is the whole profile when equal digests mean equal hardware |
| HostSections.SettledHardwarePlanNothing | internal/hostplan/hardware.go:25-79 | settled hardware plans no write |
| HostRows.HardwareColumns | internal/hostplan/hardware.go:25-59 | the hardware row after an applied report: unchanged when none is reported or digest and free bytes are equal, otherwise the reported profile and digest with the time of collection |
| HostGuests.LinksSettle | internal/hostplan/virt.go:14-82 | afterwards exactly the devices that carry a guest's MAC, each the only one, are linked to this host |
| HostGuestRows.RowsSettle | internal/hostplan/virt.go:14-109 | afterwards the host's guest rows are exactly the reported guests with their links, other hosts' rows are the same |
| HostGuestRows.SettledGuestsPlanNothing | internal/hostplan/virt.go:14-109 | settled guests and links plan no write |
| HostRows.GuestColumns | internal/hostplan/virt.go:14-109 | the device's guest rows after an applied report are exactly the reported guests with their columns, each linked to the one stored device that carries its MACs; they are the old rows, or all of now, and a guest that had a row keeps its id |
| HostRows.HypervisorColumns | internal/hostplan/virt.go:14-82 | the hypervisor of every device after an applied report: the one host that lists the reporting device; the reporting device for the only carriers of its guests; none for a device that is no longer its guest; otherwise as before |
| HostSelf.DeviceSettles | internal/hostplan/device.go:39-105 | afterwards the device is named, linked and described as the planner wants it and is the only one linked to the host (the columns themselves: `HostColumns.DeviceColumns`) |
| HostColumns.PlannedColumns | internal/hostplan/device.go:39-90 | the device planned, column by column over the old row (or a new one) and the report: name or fallback name, type and virtualisation by role, each reported text, address, flag and time taken when it is given and kept otherwise |
| HostColumns.DeviceColumns | internal/hostplan/device.go:39-105 | the same of the applied store: the device the store decides on has exactly these columns, its administrator fields are the old ones or the defaults of a new device, and no other device changes a column |
| HostSelf.SettledDevicePlansNothing | internal/hostplan/device.go:39-156 | a settled device is matched again and plans no write |
| HostSelf.SelfSettles | internal/hostplan/virt.go:113-151 | afterwards the device hangs under the one host that lists one of its MACs, and those guest rows point at it |
| HostSelf.SettledSelfPlansNothing | internal/hostplan/virt.go:113-151 | a settled own link plans no write |
| HostRows.SelfColumns | internal/hostplan/virt.go:113-151 | after an applied report the device hangs under the host whose guest rows list its MACs when that is one host; exactly those rows are pointed at it, and every other row of other hosts is as before |
| HostParts.PlanKinds | internal/hostplan/plan.go:123-134 | which tables each section of a plan writes |
| HostTables.ExecTables | internal/hostsync/apply.go:99-140 | running a list of writes acts on each table by itself |
| HostSync.AppliedInSync | internal/hostsync/apply.go:14-140 | a report that was applied leaves every table as the report wants it, although later sections write tables of earlier ones |
| HostSync.InSyncPlansNothing | internal/hostplan/plan.go:120-134 | a store in sync plans no write and matches the same device |
| HostSyncResults.Idempotent | internal/hostplan/doc.go:1-9 | for every well-formed store and normalised report, load, plan and execute, then load and plan again with any next id: no write |
| HostSyncResults.ReportedHasOneRow | internal/hostplan/address.go:132-239 | every recorded address has exactly one row, bound to the device and state reported |
| HostSyncResults.OnlyReportedIsBound | internal/hostplan/address.go:132-179 | every row left reported on the device was reported, or sits on a BMC port while the BMC was silent |
| HostSyncResults.OthersKept | internal/hostplan/address.go:132-239 | rows of other devices change only if their address was reported |
| HostSyncResults.AdminUntouched | internal/memstore/hostsync.go:502-604 | administrator fields of every device, interface, address and subnet that existed keep their values |
| HostSyncResults.Audited | internal/hostsync/apply.go:99-140 | the log grows by exactly the writes' rows in order; only a usage refresh of hardware has none |
| HostTold.PlanTold | internal/hostsync/apply.go:99-140 | which rows each planned write puts in the log: the type that fits what the write does to the stored row, on the right subject, and none for a write that only refreshes |
| HostSyncResults.AppliedWellFormed | internal/hostsync/apply.go:14-140 | applying a report keeps the store well-formed |
| HostIds.AppliedUnused | internal/hostplan/plan.go:123-134 | nothing the plan brings into the store reaches the planner's next id, so the next report starts from the same premises |
| HostStore.ExecAudit | internal/hostsync/apply.go:99-140 | any list of writes appends exactly its audit rows in order |
| HostPlaces.PlanPlaces | internal/hostplan/address.go:265-288 | every planned address lies in the most specific subnet known by then; every planned subnet lies in none known by then and is directly followed by the address it holds |
| HostLawful.ExecLawful | internal/hostsync/apply.go:99-140 | a list of writes whose references are stored and whose new keys are new and distinct goes through if and only if no subnet it creates has a stored name, and otherwise fails with a conflict |
| HostOpened.NamesDiffer | internal/hostplan/address.go:269-285 | different networks get different subnet names, with and without the suffix, up to case |
| HostOpened.OpenedCovers | internal/hostplan/address.go:265-288 | once a report's networks are opened no recorded address is left without a row or a subnet around it |
| HostRefusal.AddrsLawful | internal/hostplan/address.go:132-288 | the subnets a plan creates are those of exactly the networks the report opens, read off the stored rows and the report alone, and its address writes are lawful |
| HostRefusal.DevicePasses | internal/hostplan/match.go:115-130 | the device write fails if and only if another device has the reported name up to case and another one the fallback name |
| HostRefusal.RefusedExactly | internal/memstore/hostsync.go:483-575 | for every well-formed store and normalised report the transaction fails, always with a conflict, if and only if the device name and its fallback are taken, or a network the report opens has both its name and the suffixed one taken |
| HostRefusal.AnyReportCanClash | internal/hostplan/match.go:115-130 | two stored devices are enough to refuse a report: one with its name, one with its fallback name |
| HostRefusal.ClashWhenUnique | internal/hostplan/match.go:115-130 | with unique device names the check is the two names alone: the device to be written cannot have the fallback name already |
| HostRefusal.ExecUniqueNames | internal/memstore/hostsync.go:483-530 | every list of writes keeps device names unique |
| HostLaws.ExecLaws | internal/memstore/hostsync.go:523-575 | every list of writes keeps interface names per device, address texts and subnet names unique, no device under itself, and no hardware row without its device |
| HostLaws.ExecLinks | internal/memstore/hostsync.go:483-500 | devices created by any list of writes never share a host link with another device |
| HostConflict.CountsMoves | internal/hostplan/address.go:203-224 | over every history the move count is the number of moves since the window began, all within the window |
| HostConflict.FlaggedOnlyByMoves | internal/hostplan/address.go:203-224 | the flag turns on only by a move that completes enough moves within one window |
| HostConflict.ClearedOnlyWhenQuiet | internal/memstore/hostsync.go:207-222 | the flag turns off only by an administrator or after a move-free time longer than the window |
| HostConflict.QuietEnds | internal/hostplan/address.go:203-224 | a report that finds the address quiet for longer than the window ends the conflict |
| HostMem.Collect | internal/memstore/hostsync.go:350-408 | the rows of a table that satisfy a predicate, each once, in any order |
| HostMem.Mem.DeviceByInventoryHost | internal/memstore/hostsync.go:338-348 | the device linked to the host, case folded; none exactly when there is none |
| HostMem.Mem.DevicesByMAC | internal/memstore/hostsync.go:434-450 | exactly the owners of the MACs with their hypervisors |
| HostMem.Mem.LoadCandidates | internal/hostsync/apply.go:14-29 | the candidates for matching, each list exactly the rows asked for |
| HostMem.Mem.Load | internal/hostsync/apply.go:14-95 | every list the planner reads is exactly the stored rows it stands for, for a matched device and for a new one |
| HostMem.Mem.ReplaceGuestRows | internal/memstore/hostsync.go:623-637 | the host's rows are replaced, other hosts' rows stay |
| HostMem.Mem.Do | internal/hostsync/apply.go:99-140 | each kind of write does exactly its one change or fails with its error and changes nothing |
| HostMem.Mem.Execute | internal/hostsync/apply.go:99-140 | all writes in order, or the first error: the store's own fault or the first refused write |
| HostMem.Mem.Restore | internal/memstore/hostsync.go:296-300 | every table and the log are as in the snapshot |
| HostMem.Mem.ApplyHostReport | internal/memstore/hostsync.go:313-328 | a disabled tenant is refused; otherwise the planner's plan ran completely and the store is synced and framed, or it failed for a stated reason and every table and the log are as before; either way the store is ready for the next report |
| HostRunner.Poll | internal/hostsync/runner.go:351-378 | the loop computes the watermark of the reports before the first failure |
| HostRunner.MarkFrom | internal/hostsync/runner.go:351-378 | the watermark is the change time of a report before which nothing failed |
| HostRunner.NeverPastFailure | internal/hostsync/runner.go:268-378 | the persisted watermark never exceeds the change time of a failed or unvisited report |
| HostRunner.NeverBack | internal/memstore/hostsync.go:115-138 | the persisted watermark never moves back |
| HostRunner.ListedAgainIff | internal/hostsync/runner.go:351-378 | a failed or unvisited report is listed by the next poll if and only if no report before the first failure was visited with the same change time |
| HostRunner.ListedAgain | internal/invclient/invclient.go:213-215 | every such report comes again, for all outcomes and stopping points, if and only if the change times are pairwise distinct |
| HostRunner.EqualTimesPassed | internal/hostsync/runner.go:351-378 | the smallest instance: two reports with equal change times where the failed one is passed over |
| HostGone.UnreportsAll | internal/memstore/hostsync.go:665-688 | after marking a device nothing on it stays reported and every row of other devices keeps its values |
| HostGone.GoneColumns | internal/memstore/hostsync.go:665-688 | marking a host changes states only: the device's, and those of the reported interfaces and addresses on it; every other column, row and table is as before, and one audit row is added |
| HostGone.MarkKeeps | internal/hostsync/runner.go:492-512 | marking a host, or failing to, keeps the store well-formed and the administrator fields |
| HostMem.Mem.MarkDeviceNotReported | internal/memstore/hostsync.go:665-688 | both loops, in any map order, mark exactly the reported rows of the device |
| HostMem.Mem.MarkGone | internal/hostsync/runner.go:492-512 | a host's device in use is marked with one audit row, or nothing changes: no such device, a disabled tenant, or a fault at any of its calls |
| HostReconcile.SyncedTook | internal/hostsync/runner.go:443-487 | an applied report makes its host's device reported with its digest and changes how no other host's device is seen |
| HostReconcile.GoneTook | internal/hostsync/runner.go:492-512 | marking a host makes its device not reported and changes how no other host's device is seen |
| HostReconcile.DeviceDigests | internal/hostsync/runner.go:391-402 | the index holds exactly the linked devices by folded host id |
| HostReconcile.Handle | internal/hostsync/runner.go:405-433 | the report applied or the retired host marked, or nothing changed for a stated reason |
| HostReconcile.ReconcileListed | internal/hostsync/reconcile.go:28-60 | the loop over the listing visits every row, and every host is as its action leaves it, or as before if it was not reached or failed |
| HostReconcile.ReconcileMissing | internal/hostsync/reconcile.go:61-82 | the same for the linked devices the listing did not mention, in any map order |
| HostReconcile.Reconcile | internal/hostsync/reconcile.go:16-84 | over the real store: a run that goes through leaves every host that did not fail as its action leaves it and acts on exactly the hosts that need it; any run keeps the store fit and the administrator fields, and one that acts on nothing changes nothing; it stops only for a disabled tenant or a fault |
| HostReconcile.ReconcileConverges | internal/hostsync/reconcile.go:12-15 | after a run without failure a linked device is reported with inventory's digest, or not reported when its host is gone or retired, if and only if its host was not a live, unlisted host whose device had been given up |
| HostReconcile.SecondDoesNothing | internal/hostsync/reconcile.go:16-84 | a second run leaves a host alone if and only if it is not a live host listed without a digest, or unlisted with a device in use |
| HostReconcile.CompleteListingSettles | internal/hostsync/reconcile.go:12-15 | with a complete listing and digests every linked device converges and a second run has nothing to do |
| HostReconcile.SecondRunIdle | internal/hostsync/reconcile.go:16-84 | such a second run acts on nothing and leaves the whole store as it was |
| PortRank.ForeignMACs | internal/portlink/rank.go:167-175 | the count of learned MACs not related to the host, in any iteration order |
| PortRank.OnSwitchUnique | internal/portlink/rank.go:91-162 | a host has at most one link on a switch |
| PortRank.LinkIsAccess | internal/portlink/rank.go:66-80 | no link uses a port that faces another switch |
| PortRank.HostLinksUnique | internal/portlink/rank.go:91-162 | a host's ranked links are determined by the input |
| PortRank.PrimaryIsFirst | internal/portlink/rank.go:177-190 | exactly the first link is primary and precedes every other |
| PortFields.PrimaryIsBest | internal/portlink/rank.go:177-190 | in columns: no link of the host beats the primary one, LLDP before forwarding table, then fewer MACs, then the lower switch, then the lower port |
| PortFields.LinkExact | internal/portlink/rank.go:91-147 | a host is linked on a switch to exactly the first edge port in input order whose neighbour announces it, or, with none, the edge port that learned its MAC with strictly the fewest unrelated MACs; with the port, name, VLAN, source and count of that port |
| PortRankRun.GroupByMac | internal/portlink/rank.go:97-107 | the index holds exactly the access ports that learned each MAC |
| PortRankRun.LldpLinks | internal/portlink/rank.go:196-222 | per switch the first access port in input order whose neighbour names the host |
| PortRankRun.SortPorts | internal/portlink/rank.go:124-130 | a permutation of the ports sorted by foreign MACs, then by port id |
| PortRankRun.FirstWins | internal/portlink/rank.go:124-136 | after any such sort the first port is taken if and only if it has strictly the fewest foreign MACs |
| PortRankRun.FdbLinks | internal/portlink/rank.go:110-136 | a forwarding-table link exists on a switch without an LLDP link if and only if one eligible port wins strictly |
| PortRankRun.SortLinks | internal/portlink/rank.go:140-145 | a sorted permutation of the links |
| PortRankRun.LinksOf | internal/portlink/rank.go:108-147 | exactly the host's links in primary order, the first one flagged |
| PortRankRun.Rank | internal/portlink/rank.go:91-162 | the output is the final order over every host's links |
| PortRankRun.RankHolds | internal/portlink/rank.go:91-162 | the output holds exactly the links of the hosts, sorted by interface, address, primary flag and switch |
| PortRankRun.RankDeterministic | internal/portlink/rank.go:91-162 | whatever order the maps were walked in, the output is the same |
| PortRankRun.StableOrderSorted | internal/portlink/rank.go:148-161 | the final ordering sorts |
| PortRankRun.StableOrderAll | internal/portlink/rank.go:148-161 | the final ordering loses and adds no link |
| PortHistory.OutputOrder | internal/portlink/rank.go:148-161 | in columns: the output ascends by interface, then address, the primary link first, then switch |
| PortHistory.FirstIsBest | internal/portlink/portlink.go:128-150 | in columns: no link of an interface beats the first one, which the correlator writes to the flat fields |
| PortLinks.MergeSet | internal/portlink/portlink.go:187-226 | the ranked links, then the unranked ones that are not stale; changed exactly when something must be written |
| PortLinks.SetIsExact | internal/portlink/portlink.go:128-226 | over every history the set is exactly each switch's most recently ranked link that the last run confirmed or that is not stale, at most one per switch |
| PortLinks.PrimaryIsMember | internal/portlink/portlink.go:128-226 | over every history a linked primary port is in the set, with the same source, VLAN and last-seen time |
| PortLinks.LinksDistinct | internal/portlink/portlink.go:187-226 | over every history the set has at most one link per switch |
| PortLinks.SetInColumns | internal/portlink/portlink.go:187-226 | over every history a link is stored if and only if a run ranked it with these columns at this time, no later run ranked its switch, and that run is the last one or not longer before it than the stale age |
| PortLinks.FlatInColumns | internal/portlink/portlink.go:144-165 | over every history the flat fields are those of the first link of the last run that ranked any, while that run is recent enough, with switch and port name from a run whose first link had the same port, source and VLAN; otherwise they are empty |
| PortHistory.RankedDistinct | internal/portlink/portlink.go:128-141 | grouped by interface, the ranking's output has at most one link per switch |
| PortHistory.FirstIsPrimary | internal/portlink/portlink.go:128-150 | the first of the links the ranking gives an interface is its primary one and precedes all its others in primary order, so taking the first link for the flat fields takes the primary |
| PortHistory.RankingsAreExact | internal/portlink/portlink.go:128-226 | over every history of rankings the link set and the primary port are as the two results above say |
| ArpRun.ReadObservations | internal/arpplan/plan.go:26-53 | the candidates are exactly the entries that are valid unicast MACs, neither zero nor of a VRRP or HSRP range nor of a network device, from devices not excluded, in device order; and the count of every reason is the number of entries it applies to |
| ArpFilter.CandidatesExact | internal/arpplan/filter.go:15-47 | over the bytes, both ways: a candidate is exactly an entry of a device that is not excluded, with a valid address, whose six MAC bytes are not all zero, not a group address, not 00:00:5e:00:01/02:xx, 00:00:0c:07:ac:xx or 00:00:0c:9f:fx:xx, and not of a network device |
| ArpFilter.ReasonsCounted | internal/arpplan/plan.go:33-53 | for each reason the count is the number of entries it applies to, in the order the reasons are tried |
| ArpFilter.PlacedExact | internal/arpplan/plan.go:54-72 | the candidates planned are exactly those whose MAC answers for at most the threshold of addresses (8 unless configured) and that lie in a known subnet |
| ArpFilter.WinnerIsHighest | internal/arpplan/plan.go:30-75 | an address is learned from a planned candidate for it of the highest device id |
| ArpRun.FilterProxy | internal/arpplan/filter.go:58-75 | the two-pass loop keeps exactly the candidates whose MAC answers for few enough addresses, and counts the rest |
| ArpRun.Place | internal/arpplan/plan.go:56-76 | the last candidate per placed address wins, and every candidate is placed or counted |
| ArpRun.SortedKeys | internal/arpplan/plan.go:84-88 | the winners' addresses in strict order, from any map order |
| ArpRun.Build | internal/arpplan/plan.go:16-100 | the plan as specified; every ignored count is the number of entries or candidates its reason applies to; entries read equal the ignored counts plus the entries placed |
| ArpRun.ArpStore.ApplyOp | internal/memstore/arp.go:98-142 | one guarded write: exactly the row and columns of its kind, or nothing |
| ArpRun.ArpStore.ApplyARP | internal/memstore/arp.go:71-91 | the guarded writes in order; no foreign MAC changed, no row replaced, audit rows only of writes that ran |
| ArpSafety.NeverOverwrites | internal/memstore/arp.go:71-142 | for any list of writes, stale or repeated, no row is replaced and no MAC from another source is changed |
| ArpSafety.NoSilentAudit | internal/memstore/arp.go:71-91 | the log grows by the rows of exactly the writes whose guard let them run |
| ArpSafety.NeverDuplicates | internal/memstore/arp.go:98-142 | for any list of writes, stale or repeated, no address text gets two rows and no row an unknown subnet |
| ArpSafety.ReadCounts | internal/arpplan/plan.go:33-53 | entries read equal the ignored ones plus the candidates |
| ArpSafety.ProxyBound | internal/arpplan/filter.go:58-75 | no surviving MAC answers for more than the threshold of addresses |
| ArpResults.NothingSkipped | internal/memstore/arp.go:98-142 | without interference every planned write passes its guard, also when one address is stored under several spellings |
| ArpOutcome.RowOutcome | internal/arpplan/plan.go:126-151 | every stored row after plan and apply: changed only if it is the one found for an address heard of, and then MAC, source, device, time and conflict as the provenance of its MAC demands |
| ArpOutcome.NewRowOutcome | internal/arpplan/plan.go:119-124 | every new row is that of an address heard of that no stored row held, with the columns of the observation |
| ArpOutcome.HeardHasRow | internal/arpplan/plan.go:90-100 | every address heard of has a row afterwards |
| ArpOutcome.PlanTold | internal/arpplan/plan.go:119-151 | every planned write is told by the audit row that fits it, or none for a refresh, and the created and applied counts are those of the writes |
| ArpResults.Replay | internal/arpplan/plan.go:128-151 | planning, applying and planning again on the same observations yields only touches, nothing applied, nothing created, for any store listed newest first |
| ArpResults.OrderFree | internal/arpplan/plan.go:31-53 | with one observation per device the plan does not depend on their order |
| ScanQueue.StepInv | internal/scan/executor.go:49-74 | every step of a worker, a cancel, a start or the clock keeps the queue invariant |
| ScanQueue.RunInv | internal/memstore/memstore.go:1904-1958 | the invariant holds after every interleaving |
| ScanQueue.OneWorkerPerJob | internal/memstore/memstore.go:1920-1958 | a job has at most one worker, and a pending job has none |
| ScanQueue.ClaimsBounded | internal/scan/executor.go:381-406 | a job is claimed at most MaxRetries + 1 times |
| ScanQueue.ClaimedWhenDue | internal/memstore/memstore.go:1920-1936 | after every interleaving a job can be claimed if and only if it is pending and, from its n-th retry on, the n-th delay has passed since the failure was recorded: 5 s times 2^(n-1) up to n = 31 |
| ScanQueue.FailedAfterAllTries | internal/scan/executor.go:379-398 | in every interleaving a job is failed only after MaxRetries + 1 claims |
| ScanQueue.EndsForAReason | internal/scan/executor.go:381-420 | in every interleaving a job is cancelled only by a cancel and completed only by its worker |
| ScanQueue.BackoffExact | internal/scan/executor.go:381-406 | with 64-bit wrap-around the n-th delay is 5 s times 2^(n-1) if and only if n is at most 31 |
| ScanQueue.UsableIsRange | internal/scan/scan.go:245-254 | the host count is the size of the usable range, for every IPv4 block |
| ScanQueue.EnumerateTargets | internal/scan/executor.go:451-460 | an accepted IPv4 scan within the enumeration limit probes every usable host, none cut off |

## Left out

- Tenants: every model has one tenant; the code keys every table by tenant.
- Text: parsing of CIDRs, addresses, MACs and LLDP strings, Unicode cleaning and exclusion patterns are inputs or flags; case folding is ASCII; CIDR names are rendered numerically. IPv4-mapped CIDR blocks are not modelled.
- Report normalisation: what it guarantees (unique interface names, guest refs and package names, valid addresses, lower-case host id) is the premise of the host-sync results, and the store's own constraints (unique host links, interface names and address texts, interfaces owned by devices) are the premise on the store.
- ConflictWindow: taken as not negative, as the configuration guarantees (1 to 168 hours).
- Order of loaded rows: the sorting of loaded lists is abstracted to any order.
- Audit details, events, counted issues, the per-device sync state row, created and updated times: not modelled; audit rows carry their type and subject.
- HostReconcile.Reconcile: inventory does not change during a run, so a listed host whose report is gone at the fetch is not modelled; listing pages, pauses, cancelled contexts, rejected reports and events are left out.
- HostRunner.Poll: reports are given by their change times and outcomes.
- RateLimiter.Limiter.Prune: the stored entry is a value, so its timestamps are copied into the buffer that is compacted and back; the aliasing of the old and the new slice is not captured.
- PortHistory.RankingsAreExact: takes as given that every host interface and address enters the ranking once, as the input is built.
- PortLinks.FlatInColumns: takes as given that ranked ports are stored ports, that is, have an id.
- HostTold.PlanTold: takes as given that every guest row has a host, as the store's foreign key demands.
- PortLinks.Correlate: models one interface; the address links of correlateAddresses and the linked and unlinked audit rows are left out.
- ArpRun.ArpStore.ApplyARP: the conflict counter and the summary rows are left out.
- KvmManager.Manager.GcLocked: the manager's `Close`, configurable lifetimes and the handlers around the critical sections are left out; a BMC login succeeds with a fresh credential or fails.
- ScanQueue.StepInv: a cancel may be overwritten by a worker's later write, as in the code; the probes are outcomes.
- HostPlanner.Planner.ReportHardware: the hardware change list of the audit detail is left out; the digest function itself is not modelled.
- SQL bindings and migrations, HTTP and gRPC handlers, authorisation, credentials, IPMI, ICMP, SNMP and TCP probes, WebSocket relay, exports, groups, VLANs, locations and statistics: left out; they would add wiring or shallow members.
