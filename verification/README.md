# A verified model of pxe-beacon

pxe-beacon is a provisioning server: it answers PXE clients with proxyDHCP offers, serves them one iPXE script that is compiled from the fleet file, and follows each machine through its installation. This project models the parts of it where mistakes are hard to see and proves what they promise. `dafny verify dfyconfig.toml` checks the whole project. Nothing was executed: every statement below is a proof about the model, and the model follows the Go code branch by branch.

## What is modelled

* **The dispatch compiler** (`Dispatch`, `Ipxe`, `DispatchMeaning`, `DispatchLayout`, `DispatchCorrect`, `DispatchFlow`, `DispatchEnds`, `DispatchShadow`, `DispatchNames`, `BootTargets`). `RenderDispatch` writes a flat iPXE program into a buffer. `Ipxe` gives the program's lines as an instruction type and interprets them: `goto` takes the first line of the file that defines the label, a failing `iseq` skips its `goto`, a failing `choose` leaves the menu variable as it was, and a `goto` to an unset variable or an undefined label stops the script. `DispatchMeaning` says what the program should mean, a lookup of the client in the fleet, and the main theorem says that it does. Labels are not injective in the code; the theorem needs that no block defines a label a later machine's block names. `DispatchShadow` shows that this is exactly what the jumps need and says what the script does for the clearest ways of breaking it, with an accepted fleet among them. `DispatchNames` has the exact condition on the machine names: they are tidy if and only if the script means the lookup in every order of the machines, for every accepted choice of targets, every set of intents, every client and all answers. `DispatchEnds` shows that the run ends in any case. `BootTargets` says the outcome out loud, without the compiler's own plans: which kernel, initrd and arguments each boot target and a rescue end in, URL by URL.
* **The fleet store** (`FleetTypes`, `FleetFile`, `ETag`, `FleetAccept`, `FleetOps`, `FleetStore`, `FleetTxn`). `FleetStore.Fleet` is the store as a class, one call at a time. `FleetTxn` starts from any fleet file that was loaded, hand-written or not, takes the same operations apart into their locked sections and file steps and lets any number of goroutines interleave them, with a save that may fail at each step. `FleetFile` is the codec between memory and the fleet file, with the path rewriting in `Paths` and the MAC spellings in `Mac`; `FleetAccept` says field by field which files and which calls are accepted.
* **The install lifecycle** (`Offer`, `Pending`, `Tracker`, `Lifecycle`, `EndToEnd`). The offer decision, the queued intents with their time to live, the reports of the installer, and the prune after a reload, as one state machine with statements about every run. `EndToEnd` follows one intent through the firmware's request, iPXE's request and the script that is served.
* **Small stores and protocols**: the discovery feed (`Sightings`), the "never fetched" hint (`Hints`), the asset download with a stop after any filesystem step (`Fetch`), callback tokens (`Token`, `Numbers`), the install log (`InstallLog`) and list paging (`Paging`).

Objects the program updates in place are classes whose methods are proved against functions of the old state; the theorems are about those functions. Where the program ranges over a Go map, the model picks keys in any order and the proofs show that the order does not matter.

## Where the code differs from its own description

* `internal/fleet/txn.go:32` says the tag covers every profile field; the code leaves out `Rescue`. `internal/fleet/txn.go:50` says the NULs leave no ambiguity between fields; they do when a field contains a NUL. `ETag.TagIdentifies` and `ETag.NulFieldsCollide` follow the code.
* `internal/fleet/status.go:23` and `:107` call `installer-failed` terminal; the next report replaces it. `Tracker.StageClosedForm` follows the code.
* `internal/httpd/httpd.go:903-906` promises that a completed install never clears a freshly queued rescue; the code checks and cancels in two locked sections. Both sections are actions of the runs: `Lifecycle.ReportsKeepRescue` is about a call that nothing interrupts, `Lifecycle.RescueQueuedBetween` says exactly when a rescue queued in between survives, and `Lifecycle.RescueFallsOnlyInRace` that a report loses a rescue in no other way.
* `internal/cache/fetch.go:170-171` relies on atomic renames so that a crash leaves no half-written file, and that holds for each file. For the target as a whole it holds only when no manifest was there before: over an old manifest a stop can leave a populated target whose manifest is false, which `Fetch.SafeToInterrupt` makes exact and `Fetch.RunPassesFalseManifest` finds in every successful run from an outdated manifest.
* Comments beside the generated table (`internal/boot/dispatch.go:148-156`) say that a failing `iseq` skips its `goto` and the script goes on. The interpreter takes that as iPXE's rule. If such a line ended the script instead, the table would be unreachable: the arch gate begins with a comparison that fails for every client whose buildarch is not arm64, so all of those would stop there, before DHCP, and no machine of the fleet would boot.

## Assumptions

* SHA-256 and HMAC (RFC 2104) are functions without collisions. YAML is the identity on the parsed configuration, JSON on the manifest.
* Strings are sequences of bytes. Names and paths that are printed into `echo` lines hold no line break.
* `echo`, `sleep`, `set`, comment and phone-home lines are `Quiet` instructions: they change nothing the outcome depends on.
* `sort.Slice` and `sort.Strings` are one insertion sort, and every list they are used on has distinct keys, for which any correct sort gives the same list.
* Times are integers, in nanoseconds where it matters. The zero time is 0.
* Failing I/O is nondeterministic; files, clocks and what the client can fetch are parameters.

## Model

| member | source | states |
|---|---|---|
| DispatchCorrect.ScriptMeansLookup | internal/boot/dispatch.go:64-225 | Compiler correctness: for every fleet without shadowed labels, every client and every sequence of menu answers, the script terminates with the outcome of the plain lookup: refusal on ARM, reboot without DHCP, else the arm of the first machine one of net0..net3 carries, else the netboot.xyz chain |
| DispatchCorrect.RunArm | internal/boot/dispatch.go:227-465 | From a machine's label, through any number of menus and shell visits, the run ends as the selection says: boot target by default, netboot.xyz, or a stop when the first choose is interrupted |
| DispatchCorrect.RunBoot | internal/boot/dispatch.go:336-465 | The boot section boots exactly its kernel and initrd if both can be fetched, and otherwise reboots through the error block of the failing step |
| DispatchCorrect.RunTable | internal/boot/dispatch.go:139-174 | The first matching row jumps, rows before it do nothing, and without a match the default arm is reached |
| DispatchCorrect.OwnLabel | internal/boot/dispatch.go:551-571 | A jump to any label of a machine's block lands on the block's own definition if and only if no earlier machine's block defines that label |
| DispatchCorrect.EntryLabel | internal/boot/dispatch.go:161-171 | The same for the jump from the table to the machine's label |
| DispatchShadow.UnshadowedIsOwnJumps | internal/boot/dispatch.go:304-543 | No block defines a label that a later block names if and only if every jump of every block to a label of its own lands in its own block |
| DispatchShadow.TidyIsUnshadowed | internal/boot/dispatch.go:551-571 | If the machines' labels are pairwise distinct and none is another one followed by a block suffix or `_fail`, nothing is shadowed, whatever the order, the targets and the intents |
| DispatchShadow.TidyScriptMeansLookup | internal/boot/dispatch.go:64-225 | Compiler correctness from that condition on the names |
| DispatchNames.TidyIsExact | internal/boot/dispatch.go:551-571 | For named machines and any MACs: the names are tidy if and only if, in every order of the machines and with every accepted choice of targets, the script means the lookup for all intents, clients and answers |
| DispatchNames.ArrangedIsByMac | internal/boot/dispatch.go:139-146 | The lists that this is about are those the script is rendered for |
| DispatchNames.TwinsAreFine | internal/boot/dispatch.go:161-171 | Shadowing alone need not be wrong: two machines with one label and one plan shadow, and the script still means the lookup |
| DispatchEnds.EveryRunEnds | internal/boot/dispatch.go:64-543 | For every fleet, shadowed labels or not, every client and all answers, the run of the script ends |
| BootTargets.EachTargetBoots | internal/boot/dispatch.go:336-465 | With nobody at the menu, a machine whose boot target is B ends in the kernel URL, arguments and initrd of B's own distribution and release, its autoinstall URLs naming its own hyphenated MAC; custom chains its own script, menu chains netboot.xyz; and a reboot if a file cannot be had |
| BootTargets.RescueBoots | internal/boot/dispatch.go:478-497 | With a rescue armed, whatever the target, the run ends in SystemRescue from the server's assets with the machine's own sysrescue.yaml |
| BootTargets.OtherAnswers | internal/boot/dispatch.go:304-334 | The second menu entry ends in the netboot.xyz menu, the third visits the shell and comes back to the menu, an interrupt stops the script, and one after a shell visit visits the shell again |
| BootTargets.OtherClients | internal/boot/dispatch.go:64-225 | ARM clients and those without DHCP reboot; a client of no machine ends in the netboot.xyz menu |
| DispatchShadow.SameLabelBootsOther | internal/boot/dispatch.go:551-571 | Of two machines with one label, every client of the later gets the earlier one's menu and target |
| DispatchShadow.DefaultEntersOther | internal/boot/dispatch.go:311-334 | With x after x_boot, the boot default of x's menu enters x_boot's block and ends with that machine's target |
| DispatchShadow.EntryBootsOther | internal/boot/dispatch.go:161-171 | With x_boot after x, every client of x_boot boots x's target without a menu |
| DispatchShadow.DefaultReboots | internal/boot/dispatch.go:503-543 | With x_fail after an installer machine x, the boot default of x_fail reboots |
| DispatchShadow.KubeNamesCollide | internal/boot/dispatch.go:551-571 | A fleet that passes every check, with the names kube-1 and kube_1, for which a machine set to the menu installs Debian |
| DispatchFlow.OnlyShellGoesBack | internal/boot/dispatch.go:304-334 | Without shadowing, every goto, alternative and menu item names a defined label, and the only backward jump follows `shell`: a goto through a menu choice goes down whatever was chosen |
| DispatchFlow.BlocksEnd | internal/boot/dispatch.go:429-463 | The last line of every block jumps away or reboots, so no block falls through into the next |
| DispatchFlow.MatchIsLookup | internal/boot/dispatch.go:139-174 | For a client that carries the MAC of one member, the first match in MAC order is that member of the map |
| Dispatch.RenderDispatch | internal/boot/dispatch.go:57-225 | Whatever order the fleet map is ranged over, the emitted program is the script of the machines in MAC order |
| Dispatch.WriteMachineBlock | internal/boot/dispatch.go:227-497 | Appends exactly the machine's block to the buffer: the rescue arm if armed, else the arm of its target |
| Dispatch.LabelOfMachine | internal/boot/dispatch.go:551-571 | The byte-by-byte loop yields the sanitised name or MAC behind `m_` |
| Dispatch.LabelSpells | internal/boot/dispatch.go:551-571 | Byte by byte: letters, digits and underscores stay, every other byte becomes an underscore, `m_` comes first |
| Dispatch.ByMacIsDetermined | internal/boot/dispatch.go:145-146 | There is one list of the machines in MAC order, strictly ascending |
| Text.LessMeans | internal/boot/dispatch.go:145-146 | The order of all sorted lists: a proper prefix comes first, else the smaller byte where two strings first differ |
| DispatchLayout.BlockLabelsDistinct | internal/boot/dispatch.go:304-543 | No block defines a label twice |
| Ipxe.OneOutcome | internal/boot/dispatch.go:148-156 | A script run has at most one outcome |
| FleetTxn.EveryInterleavingIsSerial | internal/fleet/txn.go:81-191 | From any loaded file, in every interleaving of transactions and reloads with saves and reads that fail anywhere, results are those of one serial order; the file is whole, the initial one until the first save and the encoding of the committed store afterwards; with the save lock free memory is that store, and reading the file gives it back if and only if the side files are in place and, once saved, the paths survive the round trip |
| FleetTxn.StepKeepsConsistency | internal/fleet/writer.go:58-133 | Each single step of each goroutine keeps the invariant, partly written temporary files and rollback included |
| FleetTxn.ReturnedResultIsLogged | internal/fleet/txn.go:81-191 | What a call returns is what the serial order recorded for it |
| FleetTxn.UpdateIsCompareAndSwap | internal/fleet/txn.go:120-155 | Over any run a successful update replaced a profile with the caller's If-Match tag, hence with the caller's hashed fields, and touched no other machine or tag |
| FleetTxn.LoggedTookEffect | internal/fleet/txn.go:81-191 | In every run, each operation of the serial order met a committed store and left one, which the next three lemmas are about |
| FleetTxn.CreateTakesFreeMac | internal/fleet/txn.go:81-112 | In every run a create is refused as existing exactly when its MAC was there; once stored, the caller's profile is there with the tag returned, and all other machines are as they were; in any other case nothing changed |
| FleetTxn.UpdateNeedsTheTag | internal/fleet/txn.go:120-155 | In every run an update finds no machine exactly when it was absent, fails its precondition exactly when the machine was there with another tag, and otherwise stores the caller's profile alone or, when the save fails, nothing |
| FleetTxn.DeleteNeedsTheTag | internal/fleet/txn.go:162-191 | In every run a delete reports absence exactly when the machine was absent, fails its precondition exactly when it was there and a given If-Match was another tag, and otherwise removes it alone or, when the save fails, nothing |
| FleetTxn.ReaderSeesRolledBackChange | internal/fleet/txn.go:101-110 | A reader can see a machine whose creation is then rolled back and never was on disk |
| FleetTxn.TempsAreInUse | internal/fleet/writer.go:112-130 | At every point of every run there is a temporary file for exactly the goroutines in the middle of a save; a failed save takes its file away |
| FleetOps.ChangeIsUndone | internal/fleet/txn.go:101-110 | Undoing any change restores the map exactly, and no change touches another machine |
| FleetStore.Fleet.CreateAndSave | internal/fleet/txn.go:81-112 | The result, memory and file of one create: all of it or, when the save fails, nothing; refused for its MAC exactly when it spells none, and for its profile exactly when the side files are not in place |
| FleetStore.Fleet.UpdateAndSave | internal/fleet/txn.go:120-155 | The same for an update under If-Match, with its refusals in the code's order and the same causes |
| FleetStore.Fleet.DeleteAndSave | internal/fleet/txn.go:162-191 | The same for a delete, which succeeds on an absent machine |
| FleetStore.Fleet.Reload | internal/fleet/fleet.go:189-302 | Memory becomes the decoded file, or stays as it was when reading or any entry fails |
| FleetStore.Fleet.Save | internal/fleet/writer.go:58-133 | The file becomes the sorted encoding of memory, or stays as it was |
| FleetStore.Fleet.AddOrUpdate | internal/fleet/writer.go:17-32 | Inserts under the canonical MAC exactly when the input spells a MAC and the side files its target uses are in place |
| FleetStore.Fleet.Remove | internal/fleet/writer.go:36-48 | Removes exactly the named machine and says whether it was there |
| FleetStore.Fleet.ListMachines | internal/fleet/writer.go:151-165 | The machines sorted by name and MAC, whatever the map order |
| FleetStore.ByNameIsDetermined | internal/fleet/writer.go:151-165 | There is one such list, strictly ascending by name and then MAC, and it holds each MAC once |
| FleetAccept.FileAccepted | internal/fleet/fleet.go:198-285 | A file loads if and only if the defaults and every entry have a known target or none and their side files in place, every entry spells a MAC, and no two the same; then each machine has its entry's fields with paths made absolute, and there is no other |
| FleetAccept.CallsAccepted | internal/fleet/txn.go:81-191 | Which calls are refused before the lock, and as what: a MAC that spells none, a profile whose side files are not in place, an update without If-Match; every other call goes on under the MAC it spells with its own profile and tag |
| FleetTypes.ValidIsInPlace | internal/fleet/fleet.go:305-381 | Validation accepts exactly the profiles whose set and used side files exist, whose custom target has its script, and whose cloud_init defines no phone_home |
| FleetAccept.ResolvedPath | internal/fleet/fleet.go:499-507 | Empty and rooted paths stay, any other is joined to the fleet directory and cleaned |
| FleetFile.SaveThenReload | internal/fleet/writer.go:58-147 | Reload after save rebuilds exactly the fleet if and only if MACs are canonical, targets known, side-file paths survive and the profiles validate at that time |
| FleetFile.EntryRoundTrip | internal/fleet/fleet.go:225-275 | The same, both directions, for one machine entry |
| FleetFile.FileStands | internal/fleet/fleet.go:198-285 | Even when a reload rewrites a path in memory, saving what it read would write the same file again |
| FleetFile.DecodedIsAdmitted | internal/fleet/fleet.go:218-285 | Whatever reload accepts has canonical MACs, known targets and empty or rooted paths, like a request of the API |
| FleetFile.ReadAgain | internal/fleet/fleet.go:198-285 | A file that was read once reads back as the same fleet or not at all, and does so if and only if its profiles are valid for the side files of that moment |
| FleetFile.LookupMeans | internal/fleet/fleet.go:423-436 | Key by key for any spelling: own params keep their values, a key only the defaults have takes theirs, there is no other, all other fields are the machine's own; an unknown or malformed MAC gets the defaults |
| FleetFile.LookupSurvivesReload | internal/fleet/fleet.go:423-436 | After a save and reload every lookup is still the saved machine's own fields layered key by key over the saved defaults, and the stored machines have not absorbed the defaults' params |
| FleetFile.SaveIgnoresMapOrder | internal/fleet/writer.go:58-133 | The written list does not depend on the map order |
| FleetFile.SavedInOrder | internal/fleet/writer.go:93-99 | The written entries ascend by name and then MAC |
| FleetFile.DecodedEntries | internal/fleet/fleet.go:225-275 | Whatever reload accepts has canonical MACs, no two entries that spell one MAC, and each entry under its own MAC |
| FleetFile.UncleanPathChanges | internal/httpd/api.go:245-250 | An accepted, unclean rooted path below the fleet directory is changed by the next reload |
| FleetTypes.CollectMachines | internal/fleet/writer.go:151-165 | Ranging over the map yields each machine once |
| Paths.ResolveOfRelativize | internal/fleet/writer.go:138-147 | A path survives relativize and resolvePath if and only if it is empty, or rooted and clean or not below the fleet directory |
| Paths.EntryStands | internal/fleet/writer.go:138-147 | An empty or rooted path is written back as it stood in the file, even when resolving it cleaned it |
| Paths.ReloadedPathStays | internal/fleet/fleet.go:499-507 | The path that reload made of an entry survives a later save and reload if and only if the entry is empty or relative, or rooted and round trips |
| Paths.RelativizeMeans | internal/fleet/writer.go:135-147 | Below the fleet directory a path is written as the steps down from it behind `./`, any other rooted path as it is |
| Paths.CleanStep | internal/fleet/fleet.go:499-507 | Cleaning, one element after another: an empty one or a dot adds nothing, two dots take the last away, any other is appended |
| ETag.TagIdentifies | internal/fleet/txn.go:53-75 | NUL-free entries have equal tags if and only if MAC and every field but Rescue agree |
| ETag.NulFieldsCollide | internal/fleet/txn.go:49-52 | A cloud_init path that ends in a NUL can be moved behind the name without changing the tag, in any profile and under every digest, and the result is accepted if the original is |
| ETag.AcceptedProfilesCollide | internal/fleet/txn.go:49-52 | Two accepted profiles exist that share a tag under every digest |
| ETag.ProfileETag | internal/fleet/txn.go:53-75 | The hashing loops compute that tag in any map order |
| ETag.TagIsWeak | internal/fleet/txn.go:53-75 | The tag is a quoted weak one around the digest of the NUL-terminated fields |
| ETag.HashedInOrder | internal/fleet/txn.go:53-75 | What is hashed, in order: the seven fields, then each param's key and value by ascending key |
| Mac.CanonicalMacReads | internal/fleet/fleet.go:470-497 | An input is accepted with result o if and only if it spells o in colon, hyphen, dotted or bare form, in any letter case |
| Mac.CanonicalMacDenotes | internal/fleet/fleet.go:470-497 | What it returns is the colon form of the octets the input spells, and an input that spells any is read |
| Mac.CleanDropsBlanks | internal/fleet/fleet.go:480 | Blanks and underscores are dropped before the bare form is read, and nothing else |
| Mac.CanonicalMacFixed | internal/httpd/httpd.go:328-342 | Canonicalising is idempotent and undoes the hyphen form of URLs |
| Mac.HyphenatedInjective | internal/boot/dispatch.go:161-169 | Different machines have different hyphen forms |
| Lifecycle.FirmwareNeedsStandingIntent | internal/proxydhcp/proxydhcp.go:269-294 | At any point of any run, a firmware request of a named machine is answered if and only if an earlier step queued an intent less than ttl ago (any age if ttl <= 0) that nothing has taken back |
| Lifecycle.EntriesAreStanding | internal/pending/pending.go:75-172 | After any run the store holds exactly the intents not taken back |
| Lifecycle.AnswersAreNoted | internal/proxydhcp/listener.go:218-230 | An answered request is noted for its MAC as ipxe-dhcp if it was iPXE and as firmware-dhcp if not, and changes nothing else; an unanswered one changes nothing |
| Lifecycle.ReportsAreNoted | internal/httpd/httpd.go:895-917 | A report advances the stage of its MAC and of no other; only a finished install has the intent looked at |
| Lifecycle.StageIsObserved | internal/fleet/status.go:86-119 | At any point of any run the stage of a machine is that of the reports about it and its answered requests, in their order |
| Lifecycle.SkippedAsDeployed | internal/proxydhcp/proxydhcp.go:269-294 | At any point of any run a named machine without a live intent is skipped, as deployed exactly when a finished install is the furthest seen of it since its last failure |
| Lifecycle.ReportsKeepRescue | internal/httpd/httpd.go:910-917 | Uninterrupted, installer-done clears a live install and never a rescue, any other report clears nothing, and other machines are untouched |
| Lifecycle.RescueQueuedBetween | internal/httpd/httpd.go:912-915 | Whatever other actions come between the check and the cancel, a rescue that is there at the cancel survives if and only if the check saw no live install |
| Lifecycle.RescueFallsOnlyInRace | internal/httpd/httpd.go:912-915 | In every run, when a cancel removes a rescue, an earlier check had seen a live install and the rescue was queued after that check |
| Lifecycle.RescueLost | internal/httpd/httpd.go:912-915 | From every world with that machine, a run in which a standing rescue is lost that way |
| Lifecycle.StaleIntentsChangeNoReply | internal/proxydhcp/proxydhcp.go:172-294 | Worlds that differ only in intents for machines outside the fleet answer every request alike |
| Lifecycle.PruneLeavesFleet | cmd/pxe-beacon/main.go:300-320 | Uninterrupted, reload and prune leave intents for fleet members only and keep all of theirs |
| Lifecycle.PruneGoesByItsList | cmd/pxe-beacon/main.go:314-317 | In every run a prune takes an intent back if and only if its machine was no member when the list was taken |
| Lifecycle.MemberFallsOnlyIfAdded | cmd/pxe-beacon/main.go:314-317 | So a member loses its intent to a prune only if it was added after the list was taken |
| Lifecycle.LateMemberLosesIntent | cmd/pxe-beacon/main.go:314-317 | A run in which that happens |
| Lifecycle.DeleteTakesBoth | internal/httpd/api.go:335-345 | Uninterrupted, a delete takes the machine and its intent and nothing else |
| Lifecycle.DeleteFollowsTheMachine | internal/httpd/api.go:335-345 | In every run the cancel of a delete finds its machine in the fleet only if that was added again in between, and then takes the new intent |
| EndToEnd.IntentDecidesBoot | cmd/pxe-beacon/main.go:205-211 | With an intent live through rendering, firmware is handed the boot binary of its own architecture, iPXE the script URL and never a binary, and the script's default ends in SystemRescue with the machine's own configuration if the intent is a rescue, else in the literal kernel, arguments and initrd of its target and never in the rescue kernel |
| EndToEnd.StaleIntentsChangeNoScript | internal/boot/dispatch.go:175-180 | Intents for machines outside the fleet do not change the script |
| EndToEnd.TargetIsNotRescue | internal/boot/dispatch.go:336-497 | No configured target loads the rescue kernel |
| Offer.BuildOffer | internal/proxydhcp/proxydhcp.go:150-345 | The decision, field by field: skips, gates, architecture, boot file, message type |
| Offer.NoChainloadLoop | internal/proxydhcp/proxydhcp.go:208-345 | iPXE is always answered and only with the script; firmware never gets the script; OFFER answers DISCOVER and ACK answers REQUEST |
| Offer.FirmwareIsHanded | internal/proxydhcp/proxydhcp.go:296-345 | Every firmware reply by the first option-93 code: undionly by TFTP for BIOS or no code, the ARM build for ARM, snponly for the rest and for unknown codes, a URL for the two HTTP codes; and who is noted as discovered |
| Offer.OthersAreTold | internal/proxydhcp/proxydhcp.go:150-294 | Each refusal with its exact cause, and what iPXE is handed |
| Offer.ClassesMean | internal/proxydhcp/proxydhcp.go:347-366 | Who counts as a PXE client and who as iPXE |
| Offer.FirmwareAnswer | internal/proxydhcp/proxydhcp.go:269-294 | A firmware client is answered if and only if it is unnamed, or has an intent, or intents are not in use and it is not already deployed; and a skip as deployed is told apart from a missing intent |
| Pending.Store.Queue | internal/pending/pending.go:75-88 | Queues under the canonical MAC, replacing what was there, and returns the expiry |
| Pending.Store.Cancel | internal/pending/pending.go:92-102 | Removes exactly that intent and says whether there was one |
| Pending.Store.StatusOf | internal/pending/pending.go:114-132 | Live until ttl has passed, for ever if ttl <= 0 |
| Pending.Store.RetainOnly | internal/pending/pending.go:161-172 | Keeps exactly the known machines and lists the dropped ones |
| Tracker.StageClosedForm | internal/fleet/status.go:86-119 | After any reports the stage is installer-failed if that came last, else the furthest stage since the last failure |
| Tracker.StageIsTopRung | internal/fleet/status.go:31-37 | After any reports the stage is a rung of the ladder if and only if that was reported since the last failure, nothing above it was, and the last report was no failure |
| Tracker.OrderDoesNotMatter | internal/fleet/status.go:86-119 | The order of the reports since a failure does not matter |
| Tracker.HistoryIsSqueezed | internal/fleet/status.go:86-119 | The history is the reports without adjacent repeats |
| Tracker.SnapshotIsDetermined | internal/fleet/status.go:144-198 | The status page is one determined list with one row for each configured or observed MAC |
| Tracker.RowShows | internal/fleet/status.go:144-210 | Each row of the status page field by field: name and target from the fleet before the tracker's, stage and time as tracked, stalled exactly when seen before the cutoff in one of the four stages that are on the way |
| Tracker.RowsAreOrdered | internal/fleet/status.go:187-196 | Named rows first, by name and then MAC |
| Tracker.StatusTracker.Snapshot | internal/fleet/status.go:144-198 | The collecting loops and the sort produce that list |
| Tracker.StatusTracker.Note | internal/fleet/status.go:86-119 | One report: name and target read afresh, stage and history advanced |
| Tracker.StatusTracker.LastEvent | internal/fleet/status.go:127-138 | The stage of that machine, or none |
| Sightings.StoreIsLru | internal/sightings/sightings.go:62-92 | After any Notes with an advancing clock the store holds exactly the 256 most recently seen MACs, each with its first and last time and its count since it was last new, and with the latest architecture and vendor class that were not empty |
| Sightings.EvictionIsDetermined | internal/sightings/sightings.go:152-163 | The outcome does not depend on the map order |
| Sightings.VictimIsLast | internal/sightings/sightings.go:152-163 | The entry evicted is the least recently seen one |
| Sightings.Store.Note | internal/sightings/sightings.go:62-92 | One sighting: refresh, insert, or evict an oldest entry and insert |
| Sightings.Store.EvictOldest | internal/sightings/sightings.go:152-163 | The minimum loop removes some oldest entry and nothing else |
| Hints.HintsForItsStamp | internal/proxydhcp/listener.go:233-265 | In every interleaving, whatever the stamps, a timer hints if and only if some OFFER to its MAC with its stamp is the latest one with no clearing fetch since |
| Hints.HintsExactlyTheWaiting | internal/proxydhcp/listener.go:233-265 | With distinct stamps that OFFER is the timer's own |
| Hints.OneHintPerBurst | internal/proxydhcp/listener.go:233-265 | Whatever the stamps, between two hints for a MAC there is a fresh OFFER to it that the second one is for |
| Hints.NoEntryLeaks | internal/proxydhcp/listener.go:233-265 | Each pending entry has a timer still to go off; once all have, the map is empty |
| Hints.EqualStampsHintEarly | internal/proxydhcp/listener.go:249-252 | A timer whose own OFFER no longer waits hints if and only if a different OFFER with the same stamp does |
| Hints.Listener.NoteServed | internal/proxydhcp/listener.go:101-115 | A known MAC clears its own entry, any other tag clears all, the empty tag none |
| Hints.Listener.NotePending | internal/proxydhcp/listener.go:233-242 | Records the OFFER and starts a timer unless hints are off or the MAC is empty |
| Hints.Listener.Wake | internal/proxydhcp/listener.go:243-258 | Fires and clears exactly when the entry still carries this OFFER's time |
| Fetch.SafeToInterrupt | internal/cache/fetch.go:43-113 | A fetch is safe to stop at any step (populated implies a true manifest) if and only if no manifest was there at the start |
| Fetch.RunPassesFalseManifest | internal/cache/fetch.go:80-112 | Every successful run from a manifest that disagrees with the new content of some file passes through a populated state with a false manifest |
| Fetch.RefetchIsHonest | internal/cache/fetch.go:43-113 | Refetching a true target keeps every populated state true if and only if the image holds the files that are already there |
| Fetch.PopulatedOnlyWhenFinished | internal/cache/fetch.go:43-113 | From no manifest, a stop leaves the target unpopulated until the manifest is renamed, and then complete |
| Fetch.FilesAreWhole | internal/cache/fetch.go:172-200 | Wherever it stops, each file is its complete old or complete new content, and nothing else changed |
| Fetch.FinishedIsConsistent | internal/cache/cache.go:166-200 | After success each file holds the image's content, the manifest names the target, the source, the time and every file's true size and hash, and the target is populated unless the image held an empty file |
| Fetch.BodyIsWhole | internal/cache/fetch.go:115-166 | A body read to its end is all chunks joined, and a read error before the end gives none |
| Fetch.ContentsNeed | internal/cache/fetch.go:61-79 | A download counts exactly when the status is 200, the body is whole and the image can be opened |
| Fetch.Disk.Fetch | internal/cache/fetch.go:43-113 | Every state the run passes through is one of the allowed ones; a populated target without Force is left alone; success is exactly the finished state, with no temporary file left but an ISO that would not go; and a failed fetch leaves no new one but the ISO, unless a step on that file went wrong |
| Fetch.EndsCleared | internal/cache/fetch.go:103-112 | After a fetch that succeeds no temporary file is there, but for an ISO that could not be removed |
| Fetch.Disk.DownloadFile | internal/cache/fetch.go:115-166 | The read loop changes temporary files only, and on success the file is the whole body |
| Fetch.Disk.ExtractFile | internal/cache/fetch.go:172-200 | The file goes from old to complete new in one step, with the size and hash of the new content |
| Fetch.Disk.WriteManifest | internal/cache/cache.go:186-200 | The manifest appears in one step, after a state in which all else was in place |
| Fetch.Disk.IsPopulated | internal/cache/cache.go:166-183 | Manifest readable and every file present and not empty |
| Fetch.TargetsAreARegistry | internal/cache/cache.go:64-103 | The registered targets' file names never clash with the temporary names |
| Fetch.TargetsAre | internal/cache/cache.go:64-100 | The three targets with their image URLs and the paths inside the image |
| Token.MintThenVerify | internal/callbacktoken/callbacktoken.go:52-83 | A token minted for A and checked for B at t is a mismatch if A is not B, else valid while t is before the second the lifetime ends in, else expired |
| Token.ValidTokens | internal/callbacktoken/callbacktoken.go:59-77 | Exactly which strings verify: a spelling of a future expiry, a dot, the signature over MAC, dot and printed expiry |
| Token.GuardAdmitsTheMinted | internal/httpd/httpd.go:979-1014 | With tokens on, a call with a minted token passes if and only if its path spells that MAC, in any form, before expiry |
| Token.GuardAnswers | internal/httpd/httpd.go:979-1014 | With tokens off every call passes; with tokens on a path without a MAC is a bad request, and a call without a token is forbidden exactly under enforcement |
| Token.OnlyMissingTokensDependOnPolicy | internal/httpd/httpd.go:979-1014 | Enforcement changes the answer exactly for calls without a token; under either policy a call with a token passes if and only if the token is valid for the MAC of its path |
| Numbers.ParseOfFormat | internal/callbacktoken/callbacktoken.go:64-67 | Printing and parsing a 64-bit number gives it back, negative ones included |
| Numbers.ParseMeans | internal/httpd/api.go:432-458 | A string is a number if and only if it is digits, or digits behind one sign, in the 64-bit range; its value is that of the digits under that sign |
| Numbers.FormatIsPlain | internal/callbacktoken/callbacktoken.go:52-57 | Numbers are printed without leading zeros, negative ones behind a minus |
| InstallLog.LogIsTheTail | internal/installlog/installlog.go:34-49 | After any posts a machine's log is the last 65536 bytes of all that was posted for it, under any spelling |
| InstallLog.PostsJoin | internal/installlog/installlog.go:34-49 | How the bytes were cut into posts does not matter |
| InstallLog.Store.Append | internal/installlog/installlog.go:34-49 | One append, other machines untouched |
| InstallLog.Store.Get | internal/installlog/installlog.go:52-66 | A fresh copy of the tail, or nothing |
| InstallLog.GetAndOverwrite | internal/installlog/installlog.go:52-66 | Overwriting the returned copy leaves the store as it was |
| Paging.WalkIsTheWholeList | internal/httpd/api.go:392-458 | Walking by the echoed limit gives the whole list, each machine once and in order, for every valid limit |
| Paging.ItemsAreThoseAsked | internal/httpd/api.go:404-414 | The items are those at the offset, no more than the limit, fewer only at the end |
| Paging.ParametersMean | internal/httpd/api.go:432-458 | Refused exactly when a parameter that is given is no number or negative; an absent, zero or larger limit is 500, an absent offset is 0 |
| Paging.List | internal/httpd/api.go:392-427 | The clamping and copying compute that window, and bad parameters are refused |
| Paging.ParsePaging | internal/httpd/api.go:432-458 | Defaults, cap and refusals of the two parameters |

## Left out

- DispatchCorrect.ScriptMeansLookup: asks that no block defines a label a later machine's block names. For one given fleet that is sufficient and not necessary, as `DispatchNames.TwinsAreFine` shows; it is exact for where the jumps land (`DispatchShadow.UnshadowedIsOwnJumps`). The condition that is exact for the meaning of the script is the one on the names, over all orders and targets (`DispatchNames.TidyIsExact`). iPXE beyond the lines the script uses is not modelled.
- DispatchNames.TidyIsExact: is about named machines. A machine without a name is labelled by its MAC; for fleets with such machines `DispatchShadow.TidyScriptMeansLookup` has the sufficient half.
- DispatchCorrect.RunArm: what a person does inside the iPXE shell other than leaving it is not modelled.
- FleetTxn.EveryInterleavingIsSerial: covers the transactions and reload. The bare `AddOrUpdate`, `Remove` and `Save` of the admin form do not take the save lock and are modelled only in the class. Calls are those the HTTP layer lets through, with known boot targets and empty or rooted paths. The run starts with a file that was loaded, and nobody edits it by hand while it lasts.
- FleetTxn.TempsAreInUse: taking the temporary file away after a failed save is taken to succeed; the code ignores its error.
- FleetFile.LookupSurvivesReload: asks for paths that survive the round trip; `SaveThenReload` is the full equivalence.
- ETag.TagIdentifies: asks for NUL-free fields, because it is false otherwise, as `NulFieldsCollide` shows.
- Mac.CanonicalMacReads: `net.ParseMAC` is modelled for six octets; its 8 and 20 octet results are refused by the callers.
- Lifecycle.ReportsKeepRescue: is about a call that nothing interrupts; the race has its own lemmas.
- EndToEnd.IntentDecidesBoot: asks that the intent is still live when the script is rendered; a rescue that expires in between yields the configured target.
- Tracker.SnapshotIsDetermined: the fleet is fixed during the call; the code reads it twice.
- Sightings.StoreIsLru: asks for a strictly advancing clock; with equal times map order may choose the victim. List, Forget and RetainOnly of the feed are not part of the statement.
- Hints.HintsExactlyTheWaiting: asks for distinct times on OFFERs to one MAC, which `HintsForItsStamp` does without; how long a timer sleeps is not modelled, a wake-up may come at any time after its OFFER.
- Fetch.Disk.Fetch: one fetch at a time; directories, ISO9660 parsing and the order in which the operating system makes renames durable are not modelled.
- Token.MintThenVerify: asks that the expiry is a second a Go time can hold.
- Paging.WalkIsTheWholeList: the list stays the same between the requests.
- Sockets, DHCP wire encoding, message handling of the network libraries, HTTP plumbing, goroutine start and shutdown.
- Text of preseed, kickstart and user-data files, mirror URLs beyond what a script line carries, echo text, the status and admin pages, CSRF, logging, the vendor table.
- The discovered-machines list, and the pruning of the install logs and of the discovery feed after a reload.
- `Profile.IsDefault`: a marker that nothing modelled here reads.
