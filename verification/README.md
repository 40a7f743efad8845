# A verified model of a Proxmox panel's address manager, app installer, permissions and reset tokens

The panel manages guests of Proxmox clusters. This project models the parts of its backend whose
guarantees span several functions, and proves those guarantees for every input, run or reachable state.

* **Address manager** (`Ipam*.dfy`). Networks, pools, address rows, the guest cache and the history log are
  one state; `IpamModel` says what each operation does to it, `IpamServices` carries the operations out with
  the loops of the original, and the other modules prove what follows. A table is the set of its rows,
  because no query orders rows unless it says so: every loop is proved for whatever order the database
  picks. Steps of a run are the service methods, each atomic; guests and servers may change in any way
  between two steps. An endpoint is a short sequence of steps (`IpamEndpoints`), so runs include it.
  `IpamEffects` and `IpamLinking` say what the steps do to single rows, the log and the addresses shown.
* **App Store text pipeline** (`Shell`, `CommandLines`, `EnvSubst`, `BindMounts`, `BindMountCommand`,
  `BindMountEffect`, `Compose*`). `Shell` reads a command line by the quoting and token rules of the
  POSIX.1-2017 Shell Command Language (sections 2.2.1 to 2.2.3 and 2.3), and is the decoder the quoting is
  proved against; `BindMountEffect` runs the scripts on a file system. Compose files are parsed trees
  (`YamlTree`); `Compose` specifies the normalisation, `ComposeSteps` carries it out on dictionaries that
  change step by step, `ComposeProofs` states what it guarantees, and `ComposeMain` tells from the file alone
  which service is published and how.
* **Permissions** (`Rbac*`, `OwnerBackfill`, `OwnerEvidence`). The conversion between old and new permission
  names, the check it must not change, and the start-up chain that touches roles, on any role table
  (`RbacBoot`) and on the panel's own tables (`RbacTables`, `RbacPanel`, `RbacRegistry`); `RbacOutcome`
  accounts for every value after a start. Converting depends on the order of a dictionary's entries, so it is
  a function of the entries in order; a role is known only as a map, and its conversion is the relation of
  what some order gives.
* **Password-reset tokens** (`ResetTokens`, `ResetRuns`, `ResetHistory`). The table of tokens, its runs, a
  machine with one slot per user that the table refines, and the same decisions told from the history alone.
* **Network-card strings** (`NetParser`, `NetPrinting`, `GuestNics`).

Four obvious claims are false of the code; each is kept as it is, with a concrete counterexample and the exact condition.

* Rebinding a discovered address keeps its primary flag, so a guest can end up with two primary addresses:
  `IpamPrimary.RebindingCanBreakTheRule`, `IpamPrimary.StepKeepsOne`.
* The first address linked to a new guest is not always the one the list shows: a primary row taken over from a
  guest that is gone displaces it: `IpamLinking.TakeoverDisplacesTheFirst`, `IpamLinking.FirstAcceptedIsShownIff`.
* `lstrip('./')` strips a set of characters, so `./.env` is looked for as `env`, and `../data` inside the
  application directory: `BindMounts.HiddenFileIsRenamed`, `BindMounts.RelativeSource`.
* The one-time removal of `setting:view` is undone by the next start for default roles that have it by
  default: `RbacPanel.FreshModeratorLosesAndRegains`, `RbacBoot.TakenAwayIsGivenBack`, `RbacPanel.PanelReadds`.

Two more things the code does that its comments do not say: converting old permission names can lose a
grant when the old name stands next to its denied new name (`RbacConversion.OrderKeepsMeaningIff` has the
exact condition for one order, `RbacConversion.MeaningIsKeptIffNoConflict` for all of them), and the one-time
grant of Coolify permissions never changes anything, since the defaults merged earlier in the same start
already contain them (`RbacBoot.CoolifyStepIsVacuous`).

## Model

| member | source | states |
|---|---|---|
| IpamLedger.HistoryAccountsForRows | backend/app/ipam_service.py:382-400 | in every state of every run, for every address of every network, "allocated" minus "released" log entries is the number of rows, which is 0 or 1; addresses are unique |
| IpamLedger.StepKeeps | backend/app/ipam_service.py:302-400 | every operation keeps the whole invariant: fresh and unique ids, unique addresses, rows and pools inside their networks, disjoint pools, a balanced ledger, one default network per workspace |
| IpamLedger.RunKeeps | backend/app/ipam_service.py:268-903 | the invariant holds in every reachable state, starting from empty tables |
| IpamLedger.RunGoesOn | backend/app/ipam_service.py:268-903 | a run can be continued by any possible steps to the state they lead to |
| IpamLedger.AfterKeeps | backend/app/ipam_service.py:268-903 | any possible sequence of steps keeps the invariant |
| IpamLedger.ReplayCounts | backend/app/ipam_service.py:949-975 | a log that replays without contradiction has counts that differ by exactly the replayed state |
| IpamLedger.DeleteNetworkKeeps | backend/app/api/ipam.py:246-251 | deleting a network erases rows, pools and log together and leaves the ledger balanced on both sides |
| IpamLedger.PoolsOfRunsAreDisjoint | backend/app/ipam_service.py:758-794 | in every reachable state pools are non-empty ranges inside their CIDR and two pools of a network share no address |
| IpamLedger.UpdateNetworkKeeps | backend/app/api/ipam.py:191-211 | a network update cannot move the CIDR, so rows and pools stay inside |
| IpamLedger.GuestReleaseIsExact | backend/app/ipam_service.py:515-549 | releasing a guest leaves it no active row; a row that carries a server goes only if it is held by that very guest, so the legacy fallback never touches another server |
| IpamLedger.CleanupIsExact | backend/app/api/ipam.py:708-793 | cleanup removes precisely the orphans and a second scan finds none |
| IpamSearch.FirstFreeIsAccepted | backend/app/ipam_service.py:302-342 | in every valid state the address the pool search proposes is accepted by the allocation and tagged with the very pool it was found in |
| IpamSearch.PoolForIs | backend/app/ipam_service.py:327-342 | with disjoint pools the pool detection has one answer, whatever order the rows come in |
| IpamSearch.FirstFreeHostIsAccepted | backend/app/ipam_service.py:238-266 | the address the network scan proposes is accepted and is no known guest's or server's |
| IpamSearch.NextFreeIsAccepted | backend/app/api/ipam.py:1199-1278 | whatever the search proposes for an extra guest address is accepted |
| IpamSearch.NothingIsNotFree | backend/app/ipam_service.py:188-266 | the search cannot both propose an address and be right to propose none |
| IpamSearch.FirstFreeUnique | backend/app/ipam_service.py:210-236 | the first free address in (pool id, address) order is determined |
| IpamSearch.NetworkBounds | backend/app/ipam_service.py:315-319 | no CIDR, parsed with host bits dropped, reaches past the last IPv4 address |
| IpamServices.IpamService.GetNextAvailableIp | backend/app/ipam_service.py:158-266 | returns the first free address of the searched pools, or of the network when scanning is asked for, and nothing exactly when there is none |
| IpamServices.IpamService.AllocateIp | backend/app/ipam_service.py:268-404 | the new state and row, or the first applicable refusal and no change |
| IpamServices.IpamService.AutoAllocateIp | backend/app/ipam_service.py:406-444 | fails only when nothing is free; otherwise the first free address, with its own pool |
| IpamServices.IpamService.ReleaseIp | backend/app/ipam_service.py:446-495 | one row less and one entry more, or an error and no change |
| IpamServices.IpamService.ReleaseIpByVmid | backend/app/ipam_service.py:497-549 | releases the guest's active rows, or its legacy rows when it has none, each once |
| IpamServices.IpamService.ReleaseAllByServer | backend/app/ipam_service.py:671-717 | releases every active row of a server, each with its own entry |
| IpamServices.IpamService.UpdateAllocation | backend/app/ipam_service.py:551-609 | only sent fields change, and an entry is written only when something did |
| IpamServices.IpamService.FindAllocationsByResource | backend/app/ipam_service.py:611-622 | exactly the guest's active rows, primary first and then by id |
| IpamServices.IpamService.SetPrimaryAddress | backend/app/ipam_service.py:637-669 | succeeds exactly for a row of the guest, raises its flag and lowers the guest's others |
| IpamServices.IpamService.SyncFromProxmoxVm | backend/app/ipam_service.py:818-903 | refuses an address of a live guest, rebinds one of a gone guest, creates the rest; on success the guest holds the address |
| IpamServices.IpamService.LinkGuest | backend/app/api/ipam.py:1039-1090 | the linking loop for one guest is the specified fold over its discoveries, keeps the invariant, and every address it reports is bound to the guest |
| IpamServices.IpamService.RefreshPrimaryCache | backend/app/api/ipam.py:1173-1178 | the new state is the old one with the first active address of the guest cached, primary first and then by id; without one nothing changes |
| IpamServices.IpamService.SetGuestPrimaryAddress | backend/app/api/ipam.py:1303-1325 | succeeds exactly for a row of the guest; the new state is that after the steps "primary set" and "cache refreshed"; an active row ends up in the cache |
| IpamServices.IpamService.PlaceAddress | backend/app/api/ipam.py:1242-1269 | refused exactly when the allocation is, and then nothing changes; otherwise the new state is that after the steps "allocated", "primary set" if asked for, and "cache refreshed" |
| IpamServices.IpamService.AddGuestAddress | backend/app/api/ipam.py:1199-1278 | a given address is refused exactly when the allocation is, a search fails only when nothing is free; on success the state is that after the steps above and nothing else, and the invariant holds |
| IpamServices.IpamService.RemoveGuestAddress | backend/app/api/ipam.py:1327-1364 | exactly the aliases of the guest can be removed; the state is that after the steps "released" and "cache refreshed", and the invariant holds |
| IpamServices.IpamService.GetOrphanAllocations | backend/app/api/ipam.py:701-767 | the two scans together list exactly the active rows whose guest or server is gone |
| IpamServices.IpamService.CleanupOrphanAllocations | backend/app/api/ipam.py:768-800 | all orphans are released and none is left |
| IpamServices.IpamService.DetectConflicts | backend/app/ipam_service.py:905-945 | reports an address exactly when two rows have it, of one network or of all, with those rows; hence nothing in a valid state |
| IpamServices.IpamService.ValidatePoolRange | backend/app/ipam_service.py:745-796 | succeeds exactly for a non-inverted range inside the network that overlaps no other pool |
| IpamServices.IpamService.AddPool | backend/app/api/ipam.py:294-322 | a pool is created exactly when its range is accepted |
| IpamServices.IpamService.ChangePool | backend/app/api/ipam.py:325-357 | a changed range is validated against all pools but itself |
| IpamServices.IpamService.RemovePool | backend/app/api/ipam.py:360-379 | the pool goes and no row keeps its tag |
| IpamServices.IpamService.AddNetwork | backend/app/api/ipam.py:168-189 | succeeds exactly for a CIDR no network has and returns the new row; it becomes its workspace's only default if it is one; a refusal changes nothing |
| IpamServices.IpamService.ChangeNetwork | backend/app/api/ipam.py:191-224 | only sent fields change, never the CIDR, and siblings lose the default flag |
| IpamServices.IpamService.RemoveNetwork | backend/app/api/ipam.py:227-255 | rows, pools and log go together; a network in use goes only by force |
| IpamEndpoints.EndpointsArePossible | backend/app/api/ipam.py:1199-1364 | the steps of the address endpoints are possible in every state, so what is proved of runs holds after them |
| IpamEndpoints.AddEffect | backend/app/api/ipam.py:1242-1269 | adding an address is an allocation, a primary flag if asked for, and a refreshed cache; all the rest of the state stays |
| IpamEndpoints.AddedAddressIs | backend/app/api/ipam.py:1242-1269 | an added address is an allocated alias of the guest, and its primary address only on request |
| IpamEndpoints.LinkEachIsSteps | backend/app/api/ipam.py:1039-1090 | the linking of any list of discoveries is a sequence of steps of a run |
| IpamEffects.InNetworkIs | backend/app/ipam_service.py:315-319 | an address belongs to a CIDR exactly when both lie in the same block of its size |
| IpamEffects.BlockSizes | backend/app/ipam_service.py:64-68 | a /0 is the whole address space, a /32 one address, and each bit halves a block |
| IpamEffects.AllocationIs | backend/app/ipam_service.py:300-404 | an address is given out exactly when no row has it and its network contains it other than as the gateway; the one new row carries what was asked for and is primary when that was demanded, or when its kind says so and the guest has no primary |
| IpamEffects.RefusalNames | backend/app/ipam_service.py:300-323 | a refusal names the first thing that is wrong: taken, no such network, outside it, its gateway |
| IpamEffects.SyncOfNewAddress | backend/app/ipam_service.py:884-903 | a discovered address nobody has becomes a row of the guest, its primary address when it has none and of the given kind otherwise; one that no network takes changes nothing |
| IpamEffects.SyncOfKnownAddress | backend/app/ipam_service.py:840-882 | an address of the guest itself or of another live guest stays; the row of a guest that is gone moves, and only its guest changes |
| IpamEffects.UpdateIs | backend/app/ipam_service.py:551-609 | each sent field has the value sent, all others stay, no other row changes, and the log grows exactly when something did |
| IpamEffects.LogTellsEveryChange | backend/app/ipam_service.py:382-400 | a step on one address writes one entry that tells what happened to that address, and no row of another address changes but for primary flags; without an entry nothing changed |
| IpamEffects.ServerReleaseIsExact | backend/app/ipam_service.py:671-717 | removing a server releases its active rows and no other |
| IpamEffects.LegacyReleaseIsExact | backend/app/ipam_service.py:515-549 | the fallback releases rows that carry the number of the guest and no server, and only when the guest has no active row |
| IpamEffects.CleanupLeavesNoStray | backend/app/api/ipam.py:701-800 | after a cleanup every active row with a server names an existing one, and an existing guest if it names any |
| IpamEffects.CacheShows | backend/app/api/ipam.py:1173-1178 | the address shown is the active primary one, and without one the active address with the smallest id |
| IpamEffects.CacheStays | backend/app/api/ipam.py:1173-1178 | without an active address the list shows what it did |
| IpamEffects.OtherGuestsKeepTheirs | backend/app/ipam_service.py:637-669 | marking an address primary changes no row of another guest |
| IpamEffects.ProposalIsFree | backend/app/ipam_service.py:158-266 | what is proposed is free and lies in an active auto-assign pool that may be searched; only a requested scan goes further, and it avoids every known address |
| IpamEffects.ProposalIsLeast | backend/app/ipam_service.py:188-236 | nothing in a pool with a smaller id, and nothing smaller in its own pool, is free |
| IpamEffects.NothingIsLeft | backend/app/ipam_service.py:188-266 | when an active network proposes nothing, no address of its searched pools is free |
| IpamEffects.RangeAcceptedIff | backend/app/ipam_service.py:745-796 | a range is accepted exactly when it is not inverted, lies in the network, and shares no address with another pool |
| IpamEffects.CreatedNetworkIs | backend/app/api/ipam.py:168-189 | a new default takes the flag from the networks of its workspace, and no other network changes |
| IpamEffects.UpdatedNetworkIs | backend/app/api/ipam.py:191-224 | each sent field has the value sent, the others and the CIDR stay |
| IpamEffects.UpdatedPoolIs | backend/app/api/ipam.py:325-357 | likewise for a pool, whose moved range must be accepted |
| IpamEffects.DeletionIs | backend/app/api/ipam.py:227-255 | a network goes exactly when it is unused or by force, with its rows, pools and log and nothing else |
| IpamEffects.PoolDeletionIs | backend/app/api/ipam.py:360-379 | rows tagged with the pool lose the tag, and nothing else of them changes |
| IpamLinking.LinkingShows | backend/app/api/ipam.py:1054-1085 | after a guest without rows is linked, the list shows the last primary row taken over, failing that the first new address, failing that what it showed; no other entry changes |
| IpamLinking.FirstNewIsShown | backend/app/api/ipam.py:1072-1076 | when nobody has the addresses found, the first one accepted is shown |
| IpamLinking.FirstAcceptedIsShownIff | backend/app/api/ipam.py:1054-1085 | in general the first accepted address is shown exactly when it is the last primary row taken over, or none is taken over and it is new, or nothing becomes primary and it was shown before |
| IpamLinking.TakeoverDisplacesTheFirst | backend/app/api/ipam.py:1054-1085 | after a run of three steps, linking a new guest shows another address than the first one accepted |
| IpamPrimary.StepKeepsOne | backend/app/ipam_service.py:798-903 | a step keeps "one primary address per guest" if and only if it is not one of the listed steps that add a second |
| IpamPrimary.UpdateKeepsOne | backend/app/ipam_service.py:579-609 | an update keeps the rule exactly when it does not move a primary row to a guest that has one |
| IpamPrimary.SyncKeepsOne | backend/app/ipam_service.py:859-903 | discovery keeps the rule exactly when it does not rebind a primary row to a guest that has one; its create branch always does |
| IpamPrimary.AllocateKeepsOne | backend/app/ipam_service.py:351-356 | allocation keeps the rule exactly when the flag was not forced onto a guest that has a primary |
| IpamPrimary.SetPrimaryLeavesOne | backend/app/ipam_service.py:637-669 | afterwards the guest has exactly one primary row, the chosen one |
| IpamPrimary.RunHasOnePrimary | backend/app/ipam_service.py:798-806 | a run without such a step has at most one primary address per guest in every state |
| IpamPrimary.RebindingCanBreakTheRule | backend/app/ipam_service.py:859-870 | a run of five steps from empty tables (network, two allocations, deletion of the first guest, rediscovery for the second) after which a guest has two primary addresses |
| IpamDiscovery.ExtractIpv4s | backend/app/api/ipam.py:811-842 | every usable reported address once, in the order of first mention, with the first network that contains it |
| IpamDiscovery.PassedOver | backend/app/api/ipam.py:826-836 | the addresses passed over are 127.\*.\*.\* and 169.254.\*.\* |
| IpamDiscovery.SyncsSpareLive | backend/app/ipam_service.py:840-858 | over any sequence of discoveries a row bound to a live guest stays bound to it |
| IpamDiscovery.LinkingTwiceIsLinkingOnce | backend/app/api/ipam.py:1039-1090 | linking the same discoveries again, in any order, changes neither rows nor history |
| IpamCapacity.TotalCountsHosts | backend/app/ipam_service.py:64-68 | for every prefix length the total is the number of usable hosts |
| IpamCapacity.CapacityIsExact | backend/app/ipam_service.py:74-90 | free + allocated + reserved is the total, and free is the free hosts minus the rows on the network or broadcast address, of which there are at most two |
| IpamCapacity.AvailableIsBounded | backend/app/ipam_service.py:89-90 | free is never below -2, and not below 0 when no counted row sits on those two addresses |
| IpamCapacity.AvailableCanBeNegative | backend/app/ipam_service.py:89-90 | the bound of -2 is reached, by a run that fills a /30 |
| Shell.QuoteIsVerbatim | backend/app/appstore/pipeline.py:172-174 | reading the quoted form of any text extends the current word by exactly that text |
| CommandLines.SplittingUndoesQuoting | backend/app/appstore/pipeline.py:541-543 | splitting the joined quoted forms of any list of strings gives back that list |
| CommandLines.TextMeans | backend/app/appstore/pipeline.py:541-563 | a script of plain words, quoted texts, redirections and operators is read as exactly those tokens |
| BindMountCommand.PctDelivers | backend/app/appstore/pipeline.py:167-169 | the node's shell hands the inner command over as one argument, verbatim |
| BindMountCommand.PrepareBindMounts | backend/app/appstore/pipeline.py:531-563 | the command is wrapped once, and the container's shell reads the inner command as the intended scripts with every path as one word |
| BindMountCommand.BindCommandIsRead | backend/app/appstore/pipeline.py:541-563 | the joined texts for directories and files are read as the joined meanings |
| BindMountEffect.BindScriptsPrepare | backend/app/appstore/pipeline.py:536-563 | run by a shell as one command, directories first, the scripts succeed where nothing obstructs them, leave every directory and file source in place and open to everybody, and lose nothing |
| BindMountEffect.DirScriptOpens | backend/app/appstore/pipeline.py:541-543 | the directories are made and opened with all that is in them; nothing else changes |
| BindMountEffect.FileScriptMakesFile | backend/app/appstore/pipeline.py:544-562 | the file is there and open, replacing at most an empty directory; a directory that holds something stays as it is |
| BindMountEffect.FileMountIs | backend/app/appstore/pipeline.py:515-528 | a source is a file when its name has a dot, and, if it starts with one, when it starts with `.env` in any case |
| BindMountEffect.EnvIsFile | backend/app/appstore/pipeline.py:515-528 | `.env`, for which the rule was made, is a file |
| EnvSubst.SubstEvaluates | backend/app/appstore/pipeline.py:450-465 | substituting in the printed form of a template concatenates its literals, values and defaults |
| EnvSubst.SubstEvaluatesThen | backend/app/appstore/pipeline.py:450-465 | the same with any text after it |
| EnvSubst.OnlyNamedVariablesMatter | backend/app/appstore/pipeline.py:455-465 | for any text the result depends only on the variables it refers to |
| BindMounts.VolumeSourceIsEvaluated | backend/app/appstore/pipeline.py:500-510 | the source found is the evaluated source exactly when that has no colon, even when a default contains one |
| BindMounts.RelativeSource | backend/app/appstore/pipeline.py:508-510 | for every volume whose evaluated source is not absolute: the path found has the names of the source below those of the application directory exactly when its first name does not start with a dot, so `.env`, `./.env` and `../data` are all misplaced |
| BindMounts.RelativeText | backend/app/appstore/pipeline.py:508-510 | the text of such a source is kept exactly when what follows an optional `./` starts with neither a dot nor a slash |
| BindMounts.HiddenFileIsRenamed | backend/app/appstore/pipeline.py:498-510 | volumes with the sources `./.env` and `.env` are both looked for as `env` |
| BindMounts.DistinctKeepsOrder | backend/app/appstore/pipeline.py:511-512 | each path once, in the order of first mention |
| BindMounts.BindMountHosts | backend/app/appstore/pipeline.py:468-512 | the loops over services and volumes collect exactly the paths of the specification |
| BindMounts.BindsWhen | backend/app/appstore/pipeline.py:494-510 | a volume binds a host path exactly when it has a target, starts like a path or with a variable, and evaluates to a non-empty source; an absolute source is the path |
| BindMounts.HostsAreThoseBound | backend/app/appstore/pipeline.py:481-512 | the paths collected are exactly those some volume of some service binds |
| ComposeSteps.NormalizeCompose | backend/app/appstore/pipeline.py:327-423 | carried out step by step, with the networks added in any order, the result is one the specification allows |
| ComposeSteps.StripDanglingDepends | backend/app/appstore/pipeline.py:225-241 | filters the dependencies of every service, removed keys taken out in any order |
| ComposeSteps.CutUmbrelRuntime | backend/app/appstore/pipeline.py:282-288 | the remaining services, and whether anything was cut |
| ComposeSteps.DeclareNetworks | backend/app/appstore/pipeline.py:373-385 | every missing name is added once as external and nothing declared changes; flagged exactly when something was added |
| ComposeSteps.PublishMain | backend/app/appstore/pipeline.py:392-415 | the main service's ports and the port reported |
| ComposeProofs.NetworksAreDeclared | backend/app/appstore/pipeline.py:359-385 | every network a remaining service names is declared |
| ComposeProofs.DeclarationsAreKept | backend/app/appstore/pipeline.py:373-385 | declared networks stay as they were, added ones are external and were named |
| ComposeProofs.UmbrelRuntimeIsGone | backend/app/appstore/pipeline.py:264-291 | a service is left if and only if it was there and is no runtime service |
| ComposeProofs.NoDanglingDepends | backend/app/appstore/pipeline.py:225-241 | no dependency names a removed service, and the others stay in order |
| ComposeProofs.RestIsFaithful | backend/app/appstore/pipeline.py:327-423 | nothing else changes: order of services, all other fields, the rest of the file |
| ComposeProofs.TextIsKeptIffTreeIs | backend/app/appstore/pipeline.py:417-420 | the original text is handed back exactly when the tree is unchanged |
| ComposeProofs.PortEntryReadsBack | backend/app/appstore/pipeline.py:309-324 | a generated port entry is read back as the published port, unless that is negative |
| ComposeProofs.RuntipiIsIdempotent | backend/app/appstore/pipeline.py:394-420 | normalising the result again changes nothing, and reports the same port exactly when it reads back |
| ComposeMain.PortsGoToMain | backend/app/appstore/pipeline.py:327-423 | only the main service's ports change: they are published, on the chosen port or its own, when the port it listens on is known and it declares none; the port reported is that one, or the first declared |
| ComposeMain.UmbrelMainIs | backend/app/appstore/pipeline.py:244-261 | the main service of an Umbrel file is the first one left whose name occurs in APP_HOST, failing that the only one left, the first with an image, or the first |
| ComposeMain.UmbrelMainExists | backend/app/appstore/pipeline.py:244-261 | an Umbrel file with a service left has a main service |
| ComposeMain.RuntipiMainIs | backend/app/appstore/pipeline.py:188-201 | that of a Runtipi file is the first one declared so, or the only one |
| ComposeMain.NoMainNoPorts | backend/app/appstore/pipeline.py:188-201 | without a main service no ports change and none is reported |
| ComposeMain.ProceedsIff | backend/app/appstore/pipeline.py:225-241 | the normalisation goes ahead exactly when services are a dictionary and no list searched for removed services holds a list or a dictionary |
| ComposeMain.NetworksMatch | backend/app/appstore/pipeline.py:359-385 | a network is declared in the result exactly when it was declared or a remaining service names it |
| ComposeMain.RuntimeIs | backend/app/appstore/pipeline.py:220-222 | the runtime services are the app proxy, Tor, and names that end in `_tor` or `-tor`, in any case |
| ComposeMain.AppPortIsRead | backend/app/appstore/pipeline.py:309-324 | an entry of the form `${APP_PORT:-3001}:3001` is read as the port chosen, or as its own default |
| ComposeMain.AddressedPortIsRead | backend/app/appstore/pipeline.py:309-324 | with an address in front the middle part is read |
| ComposeMain.LongPortIsRead | backend/app/appstore/pipeline.py:309-324 | in the long form the published port is read |
| RbacConversion.ConvertPermissionsToNewFormat | backend/app/rbac/migration.py:211-244 | the loop over the entries in their order gives the specified map, which is an outcome of the relation |
| RbacConversion.ConvertsIffSomeOrder | backend/app/rbac/migration.py:226-244 | the outcomes of the relation are exactly what the orders of the entries give |
| RbacConversion.ConvertingTwiceIsConvertingOnce | backend/app/rbac/migration.py:211-244 | converting again changes nothing |
| RbacConversion.MeaningIsKept | backend/app/rbac/migration.py:226-244 | without a conflict exactly the granted permissions stay granted, under their new names |
| RbacConversion.NothingIsGained | backend/app/rbac/migration.py:226-244 | conversion never grants anything new |
| RbacConversion.MeaningIsKeptIffNoConflict | backend/app/rbac/migration.py:226-244 | every order keeps the meaning, and all orders agree, if and only if no granted old name stands next to its denied new name |
| RbacConversion.OrderKeepsMeaningIff | backend/app/rbac/migration.py:226-244 | read in a given order, the conversion grants what was granted if and only if no granted old name is followed by its denied new name with no granted old name of it after that |
| RbacConversion.GrantedInOrder | backend/app/rbac/migration.py:226-244 | read in a given order, exactly what was granted stays granted, less what is denied last |
| RbacConversion.ReverseMap | backend/app/rbac/migration.py:262 | one old name for each new name that has any |
| RbacConversion.ConvertPermissionsToLegacyFormat | backend/app/rbac/migration.py:247-277 | exactly the granted permissions, under old names where there are any |
| RbacConversion.BackAndForthKeepsMeaning | backend/app/rbac/migration.py:211-277 | going to the old names and back grants what was granted, whichever of two shared names is used |
| RbacEngine.GetUserPermissions | backend/app/rbac/engine.py:26-45 | the loop collects exactly the enabled codes |
| RbacEngine.AllowsPlainCode | backend/app/rbac/engine.py:70-96 | a plain code is allowed by itself, by the wildcard, or by `manage` for the implied actions |
| RbacEngine.ManageAloneAllows | backend/app/rbac/engine.py:85-96 | `manage` alone allows exactly seven actions of its resource, not to create or to delete |
| RbacEngine.ManageOfOtherAllowsNothing | backend/app/rbac/engine.py:85-96 | it allows nothing of another resource |
| RbacEngine.WithoutRole | backend/app/rbac/engine.py:33-35 | an administrator may do everything, an account without a role nothing |
| RbacEngine.DecisionIsKeptIff | backend/app/rbac/engine.py:70-96 | a decision survives conversion, in whatever order the entries are read, if and only if it does not hang on a grant that is denied under its new name |
| RbacEngine.DecisionsAreKept | backend/app/rbac/permissions.py:868-871 | a corollary of `RbacConversion.MeaningIsKept`: without a conflict no decision changes |
| RbacEngine.NoDecisionIsGained | backend/app/rbac/engine.py:70-96 | conversion lets nobody do more, conflict or not |
| RbacBoot.StartsConverge | backend/migrations/migrations.py:1973-2341 | from any role table the third start changes nothing, and the second only gives `setting:view` back to default roles that have it by default and lack it |
| RbacBoot.BootSettles | backend/app/rbac/migration.py:346-470 | what one start leaves is what later starts look for: no old names, defaults and split-off permissions present |
| RbacBoot.ConvertedValuesStay | backend/app/rbac/migration.py:448-470 | in any role, every value the conversion gives under a new name stays, but for the two every start dictates and the one the one-time step takes, with its exact condition on the converted map and the defaults |
| RbacBoot.ExplicitValuesStay | backend/app/rbac/migration.py:448-470 | in a role without old names these are the values themselves |
| RbacBoot.ViewAfterStart | backend/migrations/migrations.py:1897-1934 | in any role, `setting:view` is there after a start exactly when the converted map or the defaults had it and it was not taken away |
| RbacBoot.TakenAwayIsGivenBack | backend/migrations/migrations.py:1913-1925 | a role that any start leaves without `setting:view` has it after the next start if and only if its defaults contain it |
| RbacBoot.CoolifyStepIsVacuous | backend/migrations/migrations.py:1942-1970 | the one-time grant finds all its permissions granted by the defaults |
| RbacOutcome.EveryValueIsExplained | backend/migrations/migrations.py:1973-2341 | every value in any role after a start: the two dictated ones, the one taken away, else what the conversion gives, else the default, else the own-guest permission, and otherwise granted exactly for parts of a permission the role holds |
| RbacOutcome.PartsAreThere | backend/app/rbac/migration.py:512-553 | a part of a permission that the role holds is there, with the value it had or missed as a default, and granted otherwise |
| RbacOutcome.NoOldNameIsLeft | backend/app/rbac/migration.py:346-403 | no old name is left in any role |
| RbacOutcome.OneTimeGrantIs | backend/migrations/migrations.py:1942-1970 | the one-time grant adds what a role lacks, granted, and overwrites nothing |
| RbacPanel.PanelTablesAreSound | backend/app/rbac/migration.py:14-208 | the panel's tables have all that convergence needs |
| RbacPanel.PanelStartsConverge | backend/migrations/migrations.py:1973-2341 | with the panel's tables the third start is idle and the second gives back no more than `setting:view` |
| RbacPanel.PanelReadds | backend/app/rbac/migration.py:14-208 | what a start gives back is `setting:view`, to admin and moderator only |
| RbacPanel.FreshModeratorLosesAndRegains | backend/migrations/migrations.py:1973-2341 | with the panel's tables and no roles yet, the moderator has no `setting:view` after the first start and has it after the second |
| RbacPanel.ServerViewersSeeStorages | backend/app/rbac/migration.py:490-553 | with the panel's tables a role of one's own that may see servers may see storages, nodes and firewalls after any start |
| RbacPanel.ServerViewersSeeThree | backend/app/rbac/migration.py:490-553 | in particular storage:view, node:view and firewall:view |
| RbacPanel.ServerViewersSeeNoMore | backend/app/rbac/migration.py:494-500 | and nothing more: not the network configuration, which is meant for administrators |
| RbacRegistry.OldNamesLeadToRegistered | backend/app/rbac/permissions.py:829-866 | every old name is turned into a registered permission |
| RbacRegistry.AdministratorHasAll | backend/app/rbac/permissions.py:198-820 | the administrator has all registered permissions by default, but for those on apps and scripts |
| RbacRegistry.DefaultsAreRegistered | backend/app/rbac/migration.py:14-208 | the defaults of the other roles are registered |
| RbacRegistry.PartsAreRegistered | backend/app/rbac/migration.py:490-511 | so are the permissions that were split off |
| RbacRegistry.DefaultsGrant | backend/app/rbac/migration.py:14-208 | whatever a default names it grants, but for the dashboard of plain users |
| RbacRegistry.OwnGuestsAreNotRegistered | backend/migrations/migrations.py:827-856 | what plain users get for their own guests is under names that are not registered |
| RbacStore.RoleStore.Start | backend/migrations/migrations.py:1973-2341 | running the steps row by row is a start of the specification |
| RbacStore.RoleStore.InsertMissingRoles | backend/migrations/migrations.py:444-457 | missing built-in roles are inserted, existing ones stay |
| RbacStore.RoleStore.MigrateAllRoles | backend/app/rbac/migration.py:346-403 | exactly the roles with old names are converted, and counted |
| RbacStore.RoleStore.EnsureDefaultRoles | backend/app/rbac/migration.py:406-487 | defaults fill what is missing and overwrite nothing |
| RbacStore.RoleStore.GrantOwnGuests | backend/migrations/migrations.py:827-856 | missing permissions on own guests are added to the user role |
| RbacStore.RoleStore.AdoptClusterManage | backend/migrations/migrations.py:1086-1105 | the admin role manages clusters, under the new name only |
| RbacStore.RoleStore.HideDashboardFromUsers | backend/migrations/migrations.py:1250-1269 | the user role does not see the dashboard, under the new name only |
| RbacStore.RoleStore.BackfillGranularPermissions | backend/app/rbac/migration.py:512-553 | permissions split off from a held one are granted where missing |
| RbacStore.RoleStore.SplitSettingView | backend/migrations/migrations.py:1897-1934 | once, `setting:view` is taken from roles that administer nothing |
| RbacStore.RoleStore.GrantCoolify | backend/migrations/migrations.py:1942-1970 | once, missing Coolify permissions are granted |
| OwnerBackfill.StrongestUnanimousDecides | backend/migrations/migrations.py:1671-1684 | an instance goes to a user if and only if the strongest source that names exactly one user names that one |
| OwnerBackfill.UnmatchedIffNoEvidence | backend/migrations/migrations.py:1686-1693 | "unmatched" means no evidence in any source |
| OwnerBackfill.OrderDoesNotMatter | backend/migrations/migrations.py:1643-1665 | the order of tasks and log entries does not matter |
| OwnerBackfill.CountsAddUp | backend/migrations/migrations.py:1667-1700 | assigned + ambiguous + unmatched is the number of orphans |
| OwnerBackfill.SecondRunAssignsNothing | backend/migrations/migrations.py:1622-1700 | a second run assigns nothing and changes nothing |
| OwnerBackfill.OwnedRowsStay | backend/migrations/migrations.py:1671-1700 | owned and deleted instances are left alone, and only the owner of an orphan changes |
| OwnerBackfill.OwnersExist | backend/migrations/migrations.py:1632-1665 | only existing accounts become owners |
| OwnerBackfill.PickBackfillOwner | backend/migrations/migrations.py:1573-1585 | the one user all candidates name, or none |
| OwnerBackfill.InstanceTable.BackfillInstanceOwner | backend/migrations/migrations.py:1588-1706 | the new table and the three counts |
| OwnerEvidence.OwnerIsBacked | backend/migrations/migrations.py:1632-1700 | an orphan goes to the one user whom all deploy tasks that apply to it name, or failing that to the one whom all successful log entries name; a record applies when it has the VMID and no server or the same |
| OwnerEvidence.NobodyOwnsUnbacked | backend/migrations/migrations.py:1671-1684 | an owner is backed by a record about this very instance |
| OwnerEvidence.OtherServersDoNotCount | backend/migrations/migrations.py:1677 | records of the same VMID on other servers give nobody anything |
| ResetTokens.ResetService.ForgotPassword | backend/app/api/auth.py:840-895 | issues exactly for an active account without a token of the last minute; all older tokens of the user are spent |
| ResetTokens.ResetService.ValidateResetToken | backend/app/api/auth.py:923-931 | valid exactly when the token exists, is unused and not expired |
| ResetTokens.ResetService.ResetPassword | backend/app/api/auth.py:934-992 | accepted exactly for a valid token of an active account and a password that meets the policy; otherwise nothing changes |
| ResetRuns.RunKeepsOrder | backend/app/api/auth.py:868-895 | in every run tokens are stored in order, those of a user more than a minute apart, all but the newest used |
| ResetRuns.OneUnusedToken | backend/app/api/auth.py:881-885 | a user never has two unused tokens |
| ResetRuns.SucceedsAtMostOnce | backend/app/api/auth.py:943-992 | no token succeeds twice |
| ResetRuns.SuccessInvalidatesAll | backend/app/api/auth.py:986-992 | a success leaves the user no valid token |
| ResetRuns.IssueRateIsBounded | backend/app/api/auth.py:868-879 | n tokens of one user within W satisfy 60 s * (n - 1) <= W, strictly for two or more |
| ResetRuns.IssuedTokensStay | backend/app/api/auth.py:880-895 | no step takes a token off the list or reopens a used one |
| ResetRuns.TableAgreesWithSlots | backend/app/models/auth.py:165-171 | the table issues and accepts exactly when a machine with one slot per user does |
| ResetRuns.TableRefinesSlots | backend/app/api/auth.py:868-992 | every step of the table is a step of that machine |
| ResetHistory.AcceptedIff | backend/app/api/auth.py:943-992 | a reset is accepted exactly when the password meets the policy, the account is active, and its hash was granted to it, is not expired, and neither a later grant nor a redemption came in between |
| ResetHistory.GrantedIff | backend/app/api/auth.py:855-895 | a request is granted exactly for an active account that was granted none in the last minute |
| ResetHistory.ResetEffect | backend/app/api/auth.py:979-984 | an accepted reset sets the password of the token's user, clears lock, failures and forced change, and touches no other account; a refused one touches none |
| ResetHistory.PasswordStays | backend/app/api/auth.py:934-992 | no step but an accepted reset or a change made elsewhere alters a password |
| ResetHistory.PasswordIsOfLastReset | backend/app/api/auth.py:979-980 | otherwise it is that of the last accepted reset |
| NetParser.ParseNetString | backend/app/proxmox/net_parser.py:80-126 | the token loop computes the specified card |
| NetParser.TokensMayBeReordered | backend/app/proxmox/net_parser.py:85-124 | tokens with different options, at most one of which carries the MAC address, may come in any order |
| NetParser.PrintedIsFilled | backend/app/proxmox/net_parser.py:85-124 | a printed list of options is read option by option |
| NetParser.AnyCaseIsRead | backend/app/proxmox/net_parser.py:85-92 | the name of an option may be in any case |
| NetParser.MacIsUpper | backend/app/proxmox/net_parser.py:94-98 | a MAC address is kept in upper case, with the model when a model carries it |
| NetParser.LaterTokenCounts | backend/app/proxmox/net_parser.py:85-124 | of two tokens for one option the later one counts |
| NetPrinting.FlagSpellings | backend/app/proxmox/net_parser.py:76-77 | a flag is set by 1, true, yes and on, in any case |
| NetPrinting.ParsingUndoesPrinting | backend/app/proxmox/net_parser.py:80-126 | parsing the printed form of any well-formed card gives it back, in either dialect |
| NetPrinting.InstallerStringIsRead | backend/app/appstore/pipeline.py:722-723 | the string the installer builds is read back as what was asked for |
| GuestNics.ParseGuestNics | backend/app/proxmox/net_parser.py:129-139 | an index-ordered permutation of the `netN` entries, stable for equal indices |
| GuestNics.ListedIs | backend/app/proxmox/net_parser.py:132-137 | every card is one such entry, and every such entry gives a card |
| GuestNics.CardKeys | backend/app/proxmox/net_parser.py:32 | the keys of cards are `net` and a number |
| GuestNics.CardNumbers | backend/app/proxmox/net_parser.py:32 | `net` and a printed number give that number |
| PyText.PrintedIntIsParsed | backend/app/proxmox/net_parser.py:62-66 | converting the printed form of any integer gives it back |
| PyText.SplitJoin | backend/app/proxmox/net_parser.py:85 | splitting undoes joining |

## Left out

- SSH, the Proxmox API, HTTP, e-mail and WebSocket calls: only the command text and the state changes are modelled.
- SQL sessions and transactions: every service method and endpoint is one atomic step, and database errors are not modelled.
- Malformed address text: stored addresses are numbers below 2^32 and a CIDR is an address with a prefix length.
- Names, MAC addresses, notes, timestamps and users of address rows and of history entries: an update that changes only these is the flag `others`.
- The interface changes that follow when a guest address is added or removed (`guest_ip_service` is not part of this model).
- Rows with a missing server in discovery: a guest is a server and a number.
- YAML text, its parser and its printer: documents are trees whose keys are text and whose dictionaries have no repeated key (`ComposeSteps.Parsed`); a list or dictionary where text is expected is only marked by its brackets.
- Idempotence for Umbrel files: cutting the proxy loses the port it named; only the structure of the result is proved.
- Shell expansions: the reader gives no tokens for unquoted text that would be expanded or matched against file names, and reserved words are ordinary words.
- Letters outside ASCII keep their case, and only ASCII digits count as digits.
- The NIC option `rate`, which is a float: it sets no modelled field.
- JSON values of permissions other than true and false, display names and descriptions of roles, and installations without the tables the migrations look for.
- Deleting accounts: the cascade that removes their tokens is not modelled, and accounts may otherwise change in any way between requests.
- Token hashes of different requests differ, as random tokens do; application and database share one non-decreasing clock.
- Looking up the account for an address by pattern: the account found is a parameter, as are the password policy's verdict and the token's lifetime.
- The sessions that a successful password reset ends.
- The text `~` at the start of a volume's source: it is kept as a name, as the code does, and not compared with what a compose tool makes of it.
- Shells and file systems beyond what the bind-mount scripts use: paths are compared as text, there are no links, and modes are only "open to everybody" or not.
- Account names are taken to be unique, as the database has them.
- Quotas and background workers: they act on what the Proxmox API reports.
- Catalogue, settings, notifications, audit queries, dashboards and the frontend: single queries and views, with no invariant that spans several of them.
