# IPv6 proxy manager: a verified model of the control plane

The program manages SOCKS5 proxies on one machine: each proxy listens on a TCP port of the public IPv4 address and goes
out through its own IPv6 address of a routed prefix. This project models the control plane and the two protocols it
depends on, and proves what they keep over every input, every fault schedule, every interleaving and every run.

## How it is built

- `Model`, `Text`, `Netip`, `Order`: the records, the string functions of Go's standard library that matter, the laws
  of `net/netip` (an arbitrary library that obeys them; `Netip.ToyIsLawful` shows that one exists), and sorting.
- `Config`, `ConfigLaws`, `Meaning`, `ListLaws`, `Import`, `Printers`: the printers and parsers, their round trips,
  3proxy's reading of the configuration against the built-in engine's table, and the import of an older installation.
- `AddOffset`, `Allocate`, `AllocateLaws`, `FirstFit`, `Lifetime`: the allocator, its exactness and how long its
  supplies last.
- `Store`: the state file and its backup under interruption.
- `Lists`, `Health`, `History`: list actions and dashboard views, the effect of health checks, and all histories of
  committed changes.
- `Apply`, `ApplyLaws`, `Faultless`, `Outcomes`, `Undoing`, `PrefixProbe`, `Operations`, `Answers`, `Startup`, `WholeRuns`,
  `Recovery`: the transaction with its rollback as a function on a world (addresses, files, state store, engine) under an
  arbitrary schedule of faults; what each outcome guarantees and which faults lead to it; when a failure leaves something
  behind; what each operation and the first start answer; and whole runs of operations.
- `Inputs`: concrete states and schedules for the cases listed below, with the program's own printers.
- `Service`: the same operations as imperative methods over mutable fields and a mutable store, each proved equal to its
  specification in `Apply` and `Operations`.
- `Generation`, `Pool`: the generation counter with its cancel function, and the worker pool, as interleaved steps.
- `Socks`, `SocksLaws`, `Client`, `Handshakes`, `Checker`: both halves of SOCKS5 over fragmented streams, the server as
  a recogniser, the two halves composed, and the health checker's retry loop.

Loops of the source are loops here, each tied to a specification function by its invariant; the theorems are about the
specification functions. In `Apply` a step consults `fails(time, step)`, so a theorem for all `Env` is a theorem for
every fault schedule. An engine restart runs Prepare first, as install.sh:133 arranges. Proxies may store any text for
an address; the addresses of the interface carry canonical names, because `CurrentIPv6` formats them
(internal/system/host.go:134), and the theorems compare what is bound with what the stored texts mean.

## Where the code does less than it may seem to

- Two early returns of `applyCandidate` remove none of the addresses added before them (`Undoing.EarlyReturnsLeak` gives
  the exact condition, `Inputs.FailedConfigWriteLeaks` and `Inputs.ProxyOutsidePrefixLeaks` an input for each).
- Addresses are compared as text, and imported texts are copied verbatim. With a text that is not canonical, undoing and
  deletion can remove an address that should stay: `Undoing.AliasesAreLost` and `Undoing.SurvivorKeepsAddress` give the
  exact conditions, `Inputs.AliasedRollbackUnbinds` and `Inputs.AliasedDeletionUnbindsSurvivor` inputs. So safety over
  whole runs takes canonical texts as a premise, which every operation keeps; nothing else does.
- For the same reason a new proxy can get the address of a proxy that is still stored, if it was imported under a text
  that is not canonical (`Lifetime.ReusedExactlyWhen` says when, `Inputs.ImportedAddressGivenTwice` is an input).
- The comment on `stopCheck` promises that no results of an older configuration are written. That holds of exactly the
  checks that have not passed their cancellation test (`Generation.StopLetsWriteExactly`, with the run
  `Generation.PassedStillWrites`); what the others write reaches only the proxies they measured
  (`History.ResultsReachTheirProxy`).
- The address of a deleted imported proxy may be given out again, because the address cursor does not start behind
  imported addresses (`Lifetime.ReusedExactlyWhen` says when the next creation does it, `Lifetime.ComesBackExactlyWhen`
  whether any run can, `Inputs.ImportedAddressComesBack` is an input).
- The import accepts repeated ports and repeated or non-canonical addresses (`Import.BootstrapKept`, with the input
  `Inputs.RepeatedPortImported`).
- The probe of a detected prefix gives up looking after 4096 addresses and then binds and removes the last one even if
  it was in use (`PrefixProbe.ProbeExact`, with the input `Inputs.CrowdedProbeUnbinds`).
- A save over a corrupt main file copies the corruption over the backup (`Store.LostExactlyWhen`).

## Model

| member | source | states |
|---|---|---|
| `ApplyLaws.ApplyEffect` | internal/app/service.go:289-381 | For every fault schedule, every outcome of the transaction and whatever the address texts are: what is bound, stored, printed and served afterwards. Applied: state saved, config and lists printed from it, addresses bound, engine serving exactly its enabled proxies. Rolled back: stored proxies are the original's (or the candidate's if the rollback's save failed), the bound set is restored as far as AliasesAreLost says, and the engine is down or serves what is stored if the config was readable, and otherwise is as the failed launch left it; early returns change nothing but addresses |
| `ApplyLaws.BindEffect` | internal/app/service.go:306-326 | Where the binding loop stops, exactly the enabled addresses before that place have been bound, by their canonical names, and the texts counted as added are exactly those of them that were not bound as such; nothing else changes |
| `ApplyLaws.BindStops` | internal/app/service.go:312-314 | The loop reports the first enabled proxy outside the prefix exactly when it got there, completes exactly when there is none, and otherwise stops before it at a failed addition |
| `ApplyLaws.UnbindEffect` | internal/app/service.go:340-342 | Removing the added texts takes away at most the addresses they name, each of them whose removal succeeds, and all of them when removals succeed, canonical or not; a text that names no address ip accepts removes nothing |
| `ApplyLaws.CountedAliases` | internal/app/service.go:315-317 | The texts counted as added name an address that was bound before if and only if some enabled proxy names a bound address by a text that is not bound as such |
| `ApplyLaws.PrepareStateEffect` | internal/app/service.go:247-287 | Prepare only binds enabled addresses of the stored state and prints its config, full list and live list in that order, stopping at the first failure; when it succeeds all of that is done |
| `ApplyLaws.RestartEffect` | internal/system/host.go:200-206 | A restart in the middle of anything refreshes the world for whichever state is stored at that moment; an engine that runs afterwards serves exactly that state's enabled proxies |
| `ApplyLaws.LaunchEffect` | internal/app/service.go:355-376 | From the saved candidate on, with the one retry: every intermediate Prepare sees the candidate; without a failing stage everything of the candidate is in place and running, and with one the engine is down or serves the candidate |
| `ApplyLaws.RollbackEffect` | internal/app/service.go:331-343 | The rollback stores the original exactly when its save succeeds, writes back the full list, and, only if the config was readable, puts it back and restarts: the engine is then down or serves what is stored, and otherwise is left as it was; everything the added texts name is unbound, address by address as its removal succeeds, even though the restart runs Prepare in between |
| `ApplyLaws.InstallEffect` | internal/app/service.go:330-380 | After the addresses are bound: applied means everything of the candidate is in force; a failed config write changes nothing more; a rollback at any later point stores the original again if it can, keeps config and list coherent if it can write them, leaves the engine down or serving what is stored if the config was readable, and with working removals restores the addresses up to those that aliases lose |
| `ApplyLaws.SaveEffect` | internal/store/store.go:84-103 | A save inside a transaction is all or nothing for what Load returns |
| `Faultless.AppliedExactly` | internal/app/service.go:289-381 | When nothing fails, or one probe at most finds the engine unstable, a transaction is applied if and only if the network is known, the proxies can be rendered and every enabled address lies in the prefix, whatever the world was like |
| `Outcomes.RefusedExactly` | internal/app/service.go:289-305 | A transaction is refused if and only if the network is not known, its prefix cannot be parsed, the proxies cannot be rendered or the addresses of the interface cannot be listed |
| `Outcomes.SteadyOutcome` | internal/app/service.go:289-381 | For any set of steps that keep failing, the outcome of a transaction between acceptable states: which of them decides it, at which stage it is rolled back, and applied when none is among them |
| `Outcomes.UndoneCompletely` | internal/app/service.go:331-343 | A rolled-back transaction whose config was readable, with nothing failing from the moment of failure on, leaves stored state, config, both lists and the running engine as they were for the original, and the addresses up to aliases |
| `Outcomes.OneMomentUndone` | internal/app/service.go:289-381 | Whatever fails at one moment, and however much at once: a transaction between acceptable states over an existing config is applied, refused, or undone completely, engine and live list included |
| `Outcomes.EngineServesAgain` | internal/app/service.go:335-338 | The rollback's restart is tried whatever became of its saves: with nothing failing from then on, the engine serves the original's enabled proxies, or the candidate's exactly when the original could not be stored |
| `Outcomes.BootsExactly` | internal/app/service.go:239-287 | When nothing fails a reboot brings the engine up if and only if the stored state can be prepared, and it then serves exactly its enabled proxies |
| `Undoing.RollbackExact` | internal/app/service.go:319-342 | If removals succeed and the candidate names no bound address by another text, as with canonical texts, a transaction that fails inside an address addition or at or after the state save leaves a bound set between before and before plus enabled(original) minus enabled(candidate); it equals before when the original's addresses were bound |
| `Undoing.EarlyReturnsLeak` | internal/app/service.go:312-346 | For every text: the two early returns leave the bound set unchanged if and only if every enabled address, or every one before the first proxy outside the prefix, was bound; they change nothing else |
| `Inputs.FailedConfigWriteLeaks` | internal/app/service.go:344-346 | An input: enabling a disabled proxy by its line of the list, with the config not writable, leaves the new address bound and the stored state as it was |
| `Inputs.ProxyOutsidePrefixLeaks` | internal/app/service.go:312-314 | An input: a repair in which nothing fails stops at a proxy outside the prefix and leaves the address before it bound |
| `Inputs.AliasedRollbackUnbinds` | internal/app/service.go:340-342 | An input: a rolled-back repair takes away the bound address of an imported proxy stored under a text that is not canonical |
| `Inputs.AliasedRepairLoses` | internal/app/service.go:340-342 | The same for any lawful address library and any state with an enabled proxy whose address is bound under another text |
| `Undoing.AliasesAreLost` | internal/app/service.go:306-343 | For every text, canonical or not: when removals succeed, a rolled-back transaction loses no bound address if and only if no enabled proxy of the candidate names a bound address by a text that is not bound as such; one that fails while binding restores the bound set if and only if that holds of the proxies before the one that failed; where it holds of all of them the bound set ends between before and before plus what only the original uses |
| `Undoing.ReleaseExact` | internal/app/service.go:212-219 | What a deletion unbinds, canonical or not: at most the addresses named by texts no remaining proxy has, each whose removal succeeds, and all of them when removals succeed |
| `Undoing.SurvivorKeepsAddress` | internal/app/service.go:212-219 | A remaining proxy, under whatever text it is stored, keeps its bound address if and only if no deleted proxy names the same address by a text no remaining proxy uses |
| `Inputs.AliasedDeletionUnbindsSurvivor` | internal/app/service.go:212-219 | Inputs: of two proxies stored under two texts of one address, whichever is deleted takes the other's address with it, although nothing fails |
| `Inputs.AliasedDeletionLoses` | internal/app/service.go:212-219 | The same for any lawful address library and any deletion of a proxy that names a remaining proxy's address by a text no remaining proxy has |
| `Recovery.FailureRestoresEverything` | internal/app/service.go:289-381 | With working files and removals, a transaction that fails anywhere except at an address outside the prefix leaves stored state, config, full list and, unless the candidate names a bound address by another text, addresses as they were, the last up to those only the original uses |
| `Recovery.TransactionUndone` | internal/app/service.go:331-343 | With working files every rollback saves the original and writes back config and full list |
| `Recovery.OperationUndone` | internal/app/service.go:130-381 | The same for every operation |
| `Recovery.CrashThenBoot` | internal/app/service.go:237-287 | Wherever a run from any decodable state is cut off, a later successful boot puts the last durable state in force, without changing the state files, whatever the address texts |
| `Recovery.AlwaysCoherent` | internal/app/service.go:130-535 | Over every run with working files from any decodable state, whatever else fails and whatever the texts: config and full list are always those of the stored state |
| `WholeRuns.EveryRun` | internal/app/service.go:130-381 | Over every run of creations, list actions, repairs, token rotations, reboots and check sections, under every fault schedule, from any decodable state, repeated ports and addresses included: the stored state results from the very changes of the events that succeeded or could not be undone, re-saves, and nothing else; if rollbacks could save and write, config and full list stay those of the stored state; if rollbacks could save, boots succeeded and the first texts were canonical, every enabled address stays bound |
| `WholeRuns.PortsStayOverRuns` | internal/proxy/allocate.go:97-97 | Over every run, whatever fails and whatever the texts, a port behind the cursor that one stored proxy has, as every port in a state with distinct ports is, is never another proxy's |
| `WholeRuns.AddressesStayOverRuns` | internal/proxy/allocate.go:98-98 | Over every run, whatever fails, an address behind the cursor that one stored proxy has is never another proxy's, under any text |
| `WholeRuns.SuppliesLastOverRuns` | internal/proxy/allocate.go:50-58 | Over every run, failed and undone operations included, no more proxies are created than ports were left, and the stored ones are at most the first and those created |
| `WholeRuns.SuccessHeals` | internal/app/service.go:289-381 | Any operation whose transaction succeeds leaves files coherent and the engine serving the stored state, whatever the world and the texts were before, and the enabled addresses bound, for a deletion if stored texts are canonical |
| `WholeRuns.TransactionKeeps` | internal/app/service.go:289-381 | One transaction keeps coherence for all texts, safety unless the candidate names a bound address by another text, and leaves the original or the candidate stored |
| `WholeRuns.CreateSteps` | internal/app/service.go:130-148 | From any decodable state, create commits the allocation with these options and this randomness when it succeeds or cannot store the original again, at most a re-save when it is rolled back, and otherwise nothing; coherence is kept, and safety for canonical texts |
| `WholeRuns.ActSteps` | internal/app/service.go:150-224 | From any decodable state, a list action commits the planned edit by the entries of this text when it succeeds or cannot store the original again, at most a re-save when it is rolled back, and otherwise nothing; coherence is kept, and for canonical texts remaining addresses stay bound |
| `WholeRuns.RepairSteps` | internal/app/service.go:226-235 | From any decodable state, repair commits nothing or a re-save; coherence is kept, and safety for canonical texts |
| `WholeRuns.ReleaseEffect` | internal/app/service.go:212-220 | After a deletion nothing but addresses changes, none is added, and with canonical texts only addresses of no remaining proxy are unbound |
| `WholeRuns.MarkSteps` | internal/app/service.go:422-431 | From any decodable state, the first section of a check commits the marks if it could store them and otherwise nothing, and keeps safety and coherence |
| `WholeRuns.MergeSteps` | internal/app/service.go:485-512 | From any decodable state, the second section commits exactly the merge of these results if it could store it and otherwise nothing, and keeps safety and coherence |
| `WholeRuns.RebootSteps` | internal/app/service.go:237-287 | From any decodable state, after a reboot that clears the addresses, a successful Prepare and start make the world safe and coherent |
| `WholeRuns.BootstrapStarts` | internal/app/service.go:63-106 | A successful bootstrap without stored proxies gives a state from which all runs go on, with fitting statuses and a cursor above every port; its ports are distinct, its texts distinct, its texts canonical if and only if the same holds of the old list's usable entries and the addresses the old config gives them; a boot then makes the world safe and coherent |
| `Operations.CheckIsItsSections` | internal/app/service.go:418-513 | An uninterrupted check leaves the world of its two critical sections run one after the other, or of the first alone when cancelled or not stored |
| `Answers.CreateAnswers` | internal/app/service.go:130-148 | For every fault schedule create changes nothing and says that the state cannot be loaded or why the allocator refuses, or is exactly the transaction from the stored state to the allocated one |
| `Answers.ActAnswers` | internal/app/service.go:150-224 | For every fault schedule a list action answers with the first of: list refused, unknown action, state not loaded, no entry means a stored proxy, none of which changes anything; otherwise it is the transaction to the stored state with exactly the meant proxies switched or removed, after which only an applied deletion unbinds addresses |
| `Answers.RepairAnswers` | internal/app/service.go:226-235 | For every fault schedule repair cannot load the state, or is exactly the transaction from the stored state to itself |
| `Answers.UpdateExactly` | internal/store/store.go:68-103 | An update, under any fault schedule, gives up without a trace when the state cannot be loaded and otherwise stores the edited state exactly when both renames of its save work |
| `Answers.ChecksStored` | internal/app/service.go:418-513 | When nothing fails and nothing interrupts, a check ends with every enabled proxy stored with its own counting result, nothing else changed, and both lists printed from that |
| `Answers.AppliedInFull` | internal/app/service.go:289-381 | When nothing fails, or one probe at most, a transaction to an acceptable candidate leaves exactly it stored, printed in config and both lists, bound and served |
| `Printers.PrintersIgnoreStatus` | internal/proxy/config.go:36-131 | Config and full list do not depend on status, error or time of last check |
| `Printers.FaithfulIsBlind` | internal/app/service.go:512-512 | So a check's list write keeps the full list coherent, for the real printers |
| `Service.Service.constructor` | internal/app/service.go:40-51 | A service starts in the given world |
| `Service.Service.Load` | internal/store/store.go:25-60 | Absent gives a new state, unreadable an error, undecodable the backup; defaults filled in |
| `Service.Service.Save` | internal/store/store.go:62-103 | Copies a readable main file to the backup, then replaces it; a fault stops it before either rename |
| `Service.Service.CurrentIPv6` | internal/system/host.go:117-139 | The bound set, or an error |
| `Service.Service.AddIPv6` | internal/system/host.go:141-147 | Binds the canonical text; already there is no error; a text with a zone is refused |
| `Service.Service.RemoveIPv6` | internal/system/host.go:192-198 | Unbinds the canonical text; not there is no error; a text with a zone is refused |
| `Service.Service.ProbeRoutedPrefix` | internal/system/host.go:149-190 | Binds an address that looks unused, asks the network, and removes it again, as specified |
| `PrefixProbe.FindCandidate` | internal/system/host.go:161-170 | The walking loop finds the first address after the first of the prefix that is not bound, or the last one tried, or the end of the prefix |
| `PrefixProbe.ProbeEffect` | internal/system/host.go:149-190 | For every fault schedule a probe changes only the bound set, takes nothing from it unless the first 4096 addresses are all bound, and succeeds only when answered |
| `PrefixProbe.ProbeExact` | internal/system/host.go:149-190 | When nothing fails a probe leaves the interface as it was if and only if one of the first 4096 addresses is not bound or the prefix ends before; otherwise it removes the last of them, which was in use |
| `Inputs.CrowdedProbeUnbinds` | internal/system/host.go:161-175 | Inputs, for any lawful address library and large enough prefix: all addresses tried are bound, the probe succeeds and the last of them is gone |
| `Service.Service.EngineActive` | internal/system/host.go:208-242 | Succeeds only for a running engine, unless the probe fails |
| `Service.Service.WriteLists` | internal/app/service.go:527-535 | Both lists from the loop printers, stopping at the first failure |
| `Service.Service.Bind` | internal/app/service.go:306-326 | The in-place binding loop equals its specification |
| `Service.Service.Unbind` | internal/app/service.go:340-342 | The in-place removal loop equals its specification |
| `Service.Service.Prepare` | internal/app/service.go:239-287 | The whole of Prepare equals its specification |
| `Service.Service.PrepareState` | internal/app/service.go:247-287 | Prepare after the load equals its specification |
| `Service.Service.RestartEngine` | internal/system/host.go:200-206 | Stop, Prepare, start, load, as specified |
| `Service.Service.Rollback` | internal/app/service.go:331-343 | The rollback closure equals its specification |
| `Service.Service.Launch` | internal/app/service.go:355-376 | Restart, stability test, one retry, lists, as specified |
| `Service.Service.Install` | internal/app/service.go:330-380 | Config, save, launch and both rollbacks, as specified |
| `Service.Service.ApplyCandidate` | internal/app/service.go:289-381 | The whole transaction equals its specification |
| `Service.Service.Create` | internal/app/service.go:130-148 | Create equals its specification, with the in-place allocator |
| `Service.Service.ApplyListAction` | internal/app/service.go:150-224 | A list action equals its specification, with the in-place matching loops |
| `Service.Service.Release` | internal/app/service.go:212-220 | The removal loop after a deletion equals its specification |
| `Service.Service.Repair` | internal/app/service.go:226-235 | Repair equals its specification |
| `Service.Service.MarkAll` | internal/app/service.go:422-431 | The first critical section equals its specification |
| `Service.Service.MergeAll` | internal/app/service.go:485-508 | The second critical section equals its specification |
| `Service.Service.CheckAll` | internal/app/service.go:418-513 | A whole check equals its specification for every delivery order of the pool |
| `Service.Service.RotateToken` | internal/app/service.go:108-118 | Token rotation equals its specification |
| `Service.Service.Bootstrap` | internal/app/service.go:63-106 | Bootstrap equals its specification, with the prefix probe and the in-place import; what detection finds and what the network answers is given |
| `Startup.ImportsExactly` | internal/app/service.go:537-596 | An import succeeds if and only if the old list is absent, blank, or parses while some config has a service; each failure is named exactly; with nothing to import the state is unchanged |
| `Import.ImportsFieldByField` | internal/app/service.go:574-596 | An import of a list that can be read appends, in list order and field by field, exactly the proxies whose port the first config with any service knows with an address; of the rest of the state only the port cursor changes |
| `Startup.ProbesExactly` | internal/system/host.go:149-190 | When nothing fails a probe succeeds if and only if it was answered, the prefix is IPv6 and among offsets 1 to 4096 inside it one is not bound, or 4096 itself is inside |
| `Startup.BootstrapsExactly` | internal/app/service.go:63-106 | When nothing fails, a state without proxies is bootstrapped if and only if the network is known, or detected and its probe answered, and the old list is fine; it is unsupported exactly when the former fails; with nothing to import the stored state is the loaded one with the detected network |
| `Startup.BootstrapKeepsProxies` | internal/app/service.go:63-106 | With proxies stored the old files are not looked at: state and both lists keep them |
| `Startup.FreshMachine` | internal/app/service.go:63-106 | A machine on which the program never ran, with a routed prefix that answers: it ends with the detected network, no proxies and the first cursors |
| `AddOffset.AddOffset` | internal/proxy/allocate.go:103-118 | Exact 128-bit addition for every base and 64-bit offset; an error exactly when the sum reaches 2^128 or the base is not IPv6; the carry fits 64 bits |
| `AddOffset.TotalKept` | internal/proxy/allocate.go:109-113 | Each turn of the carry loop keeps value plus carry times place |
| `AddOffset.PrefixHolds` | internal/proxy/allocate.go:62-63 | For a masked /n base the sum exists and lies in the prefix if and only if the offset is below 2^(128-n) |
| `AddOffset.HoldsExactly` | internal/app/service.go:312-312 | A prefix, of either family, holds exactly the addresses of its family without a zone in one aligned block of its size |
| `Allocate.Allocate` | internal/proxy/allocate.go:20-101 | The in-place allocator equals its specification; on any error the state is untouched |
| `Allocate.FindAddress` | internal/proxy/allocate.go:60-70 | The address search equals its specification and terminates, 64-bit wraparound included |
| `Allocate.FindPort` | internal/proxy/allocate.go:50-58 | The port search finds the first unused port up to 65534, or none |
| `Allocate.TakeTurn` | internal/proxy/allocate.go:49-96 | One turn of the outer loop equals its specification |
| `Allocate.TriedIsFew` | internal/proxy/allocate.go:61-70 | Distinct offsets give distinct texts, so the address search passes at most as many addresses as are used |
| `Allocate.Credentials` | internal/proxy/allocate.go:72-82 | Random credentials pass validation; custom ones are used as given; the only failure is the random source's |
| `Allocate.RandomCredential` | internal/proxy/allocate.go:120-126 | A generated credential has the base64url length and only credential characters |
| `AllocateLaws.AllocatedFresh` | internal/proxy/allocate.go:83-100 | Success adds exactly count pending proxies on ascending unused ports with addresses of the prefix under distinct canonical texts that no stored proxy has, on every input |
| `AllocateLaws.RefusesExactly` | internal/proxy/allocate.go:20-38 | Count, mode, user name, password and prefix are refused in this order with exactly these bounds; only ports, addresses or the random source can fail afterwards |
| `AllocateLaws.CredentialsExactly` | internal/proxy/allocate.go:72-82 | The k-th new proxy has the given custom credentials, or the encodings of the first 9 and 16 bytes of reads 2k and 2k+1 behind their prefixes |
| `AllocateLaws.Base64Injective` | internal/proxy/allocate.go:120-126 | Different bytes have different encodings |
| `AllocateLaws.CredentialsDiffer` | internal/proxy/allocate.go:72-82 | Two new proxies have the same random user name if and only if their reads gave the same 9 bytes, and the same password if and only if theirs gave the same 16 |
| `Inputs.Base64Vectors` | internal/proxy/allocate.go:120-126 | Inputs: encodings of three byte strings, with the two characters that are special to URLs |
| `FirstFit.TakesTheFirst` | internal/proxy/allocate.go:46-99 | Away from offset wraparound: exactly the smallest unused ports from NextPort paired in order with the lowest unused addresses, cursors just past the last taken |
| `FirstFit.SuppliesDecide` | internal/proxy/allocate.go:46-70 | With valid options, a routed prefix and, for random credentials, a working random source, it succeeds if and only if count free ports from NextPort to 65534 and count free addresses remain |
| `History.EveryRunKeeps` | internal/proxy/allocate.go:39-99 | Over every history of changes, each for itself: ports pairwise distinct and below the cursor, address texts pairwise distinct, texts canonical, statuses fit; the port cursor never goes back and the network stays |
| `History.PortNeverReused` | internal/proxy/allocate.go:97-97 | A port behind the cursor that one proxy has is never given to another proxy, even after deletion; with distinct ports that is every port, whatever the addresses are |
| `History.CreationKeeps` | internal/proxy/allocate.go:97-99 | A creation moves the port cursor past count ports and keeps each part of the invariant |
| `History.ChangeDescends` | internal/app/service.go:166-207 | Every change other than a creation only drops or relabels proxies, in order |
| `Lifetime.PortsLast` | internal/proxy/allocate.go:50-58 | From any state, at most as many proxies are ever created as there are ports from the cursor to the last, and at most as many new address texts are ever stored |
| `Lifetime.OffsetsLast` | internal/proxy/allocate.go:66-66 | The address cursor never goes back, only passes addresses that were stored at some time, and never reaches 64-bit wraparound |
| `Lifetime.AddressNeverReused` | internal/proxy/allocate.go:98-98 | An address behind the cursor, as every allocated one is, that one stored proxy has never goes to another proxy, under any text, even after deletion |
| `Lifetime.ReusedExactlyWhen` | internal/proxy/allocate.go:60-70 | The address of any proxy, deleted or still stored, is handed out by the next creation if and only if no stored proxy has its canonical text, it is ahead of the cursor, in the prefix, and fewer than count free addresses precede it |
| `Lifetime.ComesBackExactlyWhen` | internal/proxy/allocate.go:46-99 | Some run stores the address of a proxy that is not stored if and only if it is ahead of the cursor, in the prefix, and more ports are left than free addresses precede it |
| `Inputs.ImportedAddressGivenTwice` | internal/proxy/allocate.go:60-70 | An input: an imported proxy is stored under a text that is not canonical, and the next created proxy gets the same address |
| `Inputs.ImportedAddressComesBack` | internal/proxy/allocate.go:60-70 | An input: an imported proxy is deleted and the next created proxy, on another port, gets its address |
| `Config.RenderConfigText` | internal/proxy/config.go:36-111 | The loop printer equals its specification, whatever order Go walks the user map in |
| `Config.AcceptedExactly` | internal/proxy/config.go:40-67 | A set is rendered if and only if every enabled proxy can be served, no two share a port and no user name has two passwords |
| `Config.RejectsExactly` | internal/proxy/config.go:40-67 | A refused set is refused for the first enabled proxy that cannot join those before it, with its port and its first flaw |
| `Inputs.OneProxyConfig` | internal/proxy/config.go:69-111 | An input: every line of the config rendered for one proxy |
| `Config.CollectLoop` | internal/proxy/config.go:40-67 | The collecting loop equals its specification, with the first flaw in source order |
| `Config.NamesOf` | internal/proxy/config.go:90-94 | The sorted user names do not depend on the map's order |
| `Config.FormatListText` | internal/proxy/config.go:113-124 | The list printer's loop equals its specification |
| `Config.ParseListText` | internal/proxy/config.go:133-163 | The list parser's loop equals its specification, with line numbers and scanner limit |
| `Config.Parse3ProxyServicesText` | internal/proxy/config.go:171-195 | The config parser's loops equal their specification |
| `ConfigLaws.ConfigRoundTrip` | internal/proxy/config.go:171-195 | Reading a rendered config back gives exactly the enabled ports with their host and IPv6; the keepalive line adds nothing |
| `ConfigLaws.ServiceLineExactly` | internal/proxy/config.go:174-192 | A line of a config adds the service of its flags under its port if it is a socks line with a port and an address, replacing an earlier one, and otherwise changes nothing |
| `ConfigLaws.LastFlagCounts` | internal/proxy/config.go:180-189 | Of repeated port, host or address flags the last one counts |
| `Inputs.RoundTripsHaveInputs` | internal/proxy/config.go:40-67 | An input for the premises of the round trips: a proxy set that can be printed and listed, with an enabled proxy |
| `ConfigLaws.SocksFields` | internal/proxy/config.go:107-107 | A rendered socks line splits into exactly its words |
| `ConfigLaws.AllPlain` | internal/proxy/config.go:72-110 | Every rendered line fits the scanner and comes back whole |
| `Meaning.Run` | internal/engine/server.go:31-58 | The engine's listener table: one per enabled proxy in stored order, or the loopback one; otherwise the port of the first listener that could not be opened |
| `Meaning.ConfigMeansEngine` | internal/proxy/config.go:72-110 | 3proxy's reading of the rendered config opens exactly the listeners, outbound addresses and logins that the engine opens, in port order, plus the loopback keepalive |
| `Meaning.SameListeners` | internal/engine/server.go:31-56 | Whatever the order and however many are enabled, none included, 3proxy under the rendered config has exactly the engine's listeners and the loopback one without logins; with none enabled that one alone, on both sides |
| `Meaning.ObeyServices` | internal/proxy/config.go:102-109 | Each allow, socks, flush group starts one service for one user and leaves no access list behind |
| `ListLaws.ListRoundTrip` | internal/proxy/config.go:113-163 | Reading back a printed list gives what it shows of every proxy in port order; only the empty list is refused |
| `ListLaws.LiveListRoundTrip` | internal/proxy/config.go:113-163 | Reading back a printed live list gives exactly the enabled live proxies, in port order; without any it is refused as empty |
| `ListLaws.ListExactly` | internal/proxy/config.go:133-163 | A pasted text is read as these entries if and only if there is one, no line is too long, and its lines that are not blank say exactly them, in order |
| `ListLaws.ListFlaws` | internal/proxy/config.go:133-163 | A refused text is refused for its first line that is flawed, with that line's number and flaw, and otherwise because a line is too long or nothing is there |
| `Text.TooLongExactly` | internal/proxy/config.go:135-158 | The line scanner gives up on a text if and only if 65536 characters follow each other in it without a line break |
| `Text.ScansByLine` | internal/proxy/config.go:135-139 | The line scanner takes a text apart at its line breaks, drops a carriage return before each, and needs none after the last line |
| `Text.TrimExactly` | internal/proxy/config.go:139-139 | Trimming takes away exactly the white space around a text |
| `Text.FieldsExactly` | internal/proxy/config.go:175-175 | The fields of a line are its longest stretches without white space, in order |
| `ListLaws.LineExactly` | internal/proxy/config.go:139-154 | A line is skipped if and only if it is blank, and says an entry if and only if it is four cells with an IPv4 host and a port from 1 to 65535 |
| `ListLaws.LineFlaws` | internal/proxy/config.go:143-153 | Which of the three flaws a line has: not four cells, else no port from 1 to 65535, else no IPv4 host |
| `Inputs.OneProxyList` | internal/proxy/config.go:113-124 | An input: the text of the list of one proxy |
| `ListLaws.OwnListMatchesAll` | internal/app/service.go:166-191 | The full list pasted back matches every proxy exactly once, with nothing unmatched |
| `ListLaws.OwnListReachesAll` | internal/app/service.go:192-210 | Enabling or disabling by it sets exactly the switch, the status pending or disabled and an empty error of every proxy and nothing else; deleting by it leaves none |
| `ListLaws.LineReadsBack` | internal/proxy/config.go:121-121 | One printed line parses to its own entry |
| `Lists.Plan` | internal/app/service.go:166-210 | The matching loops equal their specification, report included |
| `Lists.ReportAddsUp` | internal/app/service.go:168-191 | Submitted equals not found plus found; with distinct ports the chosen proxies are exactly those some entry names |
| `Lists.EnablesExactly` | internal/app/service.go:166-209 | Enabling switches on exactly the first proxy each entry means, as pending and without an error; all others are unchanged; nothing is planned exactly when no entry means a proxy |
| `Lists.DisablesExactly` | internal/app/service.go:166-209 | Disabling switches off exactly those, as disabled and without an error; all others are unchanged |
| `Lists.DeletesExactly` | internal/app/service.go:166-199 | Deletion leaves exactly the proxies no entry means first, unchanged and in order |
| `Lists.ReportsExactly` | internal/app/service.go:166-191 | The report counts the entries and the distinct proxies meant, and quotes in order exactly the entries that mean none |
| `Lists.KeepExact` | internal/app/service.go:192-199 | Deletion keeps proxies of the old list at the kept indexes, in order |
| `Lists.KeptIndexesExact` | internal/app/service.go:193-199 | The kept indexes are exactly the unmatched ones, ascending |
| `Lists.SwitchLoop` | internal/app/service.go:200-209 | Enabling or disabling does not depend on the order Go walks the matched map in |
| `Lists.FilteredList` | internal/app/service.go:614-632 | A view is the matching proxies sorted by port |
| `Lists.Summarize` | internal/model/model.go:49-67 | The counting loop equals its specification |
| `Lists.SummaryAgrees` | internal/model/model.go:49-67 | With fitting statuses the four counts partition the total and equal the lengths of their views |
| `Lists.ViewsExactly` | internal/app/service.go:614-632 | What each of the five named views shows of every proxy |
| `Lists.OtherViewsAreEmpty` | internal/app/service.go:614-632 | Any other view is empty |
| `History.DashboardAgrees` | internal/app/service.go:614-632 | In every reachable state the total counts every proxy; when the first statuses fit, as after every import, the cards add up and agree with the lists they open |
| `Order.SortedUnique` | internal/proxy/config.go:115-115 | Proxies with distinct ports have one sorted order, so the sort algorithm cannot matter |
| `Import.ImportExisting` | internal/app/service.go:537-596 | The in-place import equals its specification; on an error the state is untouched |
| `Import.FirstServicesLoop` | internal/app/service.go:556-570 | The first readable config with any service is used |
| `Import.MigrationRoundTrip` | internal/app/service.go:537-596 | From the full list and rendered config of a set with distinct ports, an import rebuilds exactly the enabled proxies in port order and the cursor above them, whatever unusable configs come first |
| `Import.AboveExact` | internal/app/service.go:575-594 | The cursor is not below where it was, above every imported port, and no higher than needed |
| `Import.AllocateAvoidsImported` | internal/app/service.go:574-594 | After any import a following Allocate gives out no imported port, no text of an imported address, and no address imported under its canonical text, whatever the old files say |
| `Import.BootstrapKept` | internal/app/service.go:574-594 | The imported state always has fitting statuses and a cursor above every port; its ports are distinct, its texts distinct, its texts canonical if and only if the same holds of the old list's usable entries and the addresses the old config gives them |
| `Inputs.RepeatedPortImported` | internal/app/service.go:574-594 | An input: a list that names a proxy twice is imported twice on one port |
| `Store.Store.LoadLocked` | internal/store/store.go:31-60 | Load as specified: absent, unreadable, decoded, from backup, corrupt; defaults filled |
| `Store.Store.SaveLocked` | internal/store/store.go:84-103 | The main file goes to the backup if it could be read, then the stamped state to the main file; the call succeeds only when both renames happened |
| `Store.Store.Update` | internal/store/store.go:68-82 | Load, edit, save; a failed load or edit leaves both files alone |
| `Store.StoreIsAtomic` | internal/store/store.go:31-103 | Over any saves and updates stopped anywhere, from an absent or decodable file: Load succeeds and returns the state of an atomic register |
| `Store.CorruptionCostsOneSave` | internal/store/store.go:40-46 | After two complete saves, corrupting the main file makes Load return the preceding save |
| `Store.LostExactlyWhen` | internal/store/store.go:94-99 | A loadable store becomes unloadable by a save if and only if the main file was corrupt and the save stopped between its two renames |
| `Store.SavedComesBack` | internal/store/store.go:31-103 | A saved state is loaded back with version 1 and unset cursors at their first values; a store never written gives the same first values |
| `Store.BackupStandsIn` | internal/store/store.go:31-60 | An unreadable main file is an error; the backup stands in only for one that was read and does not decode, and only if it can be read and decoded itself |
| `Store.BackupIsPrevious` | internal/store/store.go:84-103 | After a save, wherever it stopped, the backup is the previous main file if that could be read and the first rename was reached, and otherwise what it was |
| `Health.FirstPass` | internal/app/service.go:461-464 | The collecting loop files every result by port, a later result of a port replacing an earlier one, in whatever order the workers deliver |
| `Health.RetryTail` | internal/app/service.go:469-484 | The retry tail equals its specification, repeated ports included: only failures still filed are retried, and only 1 to 1000 of them |
| `Health.CollectRetries` | internal/app/service.go:472-477 | The failures to retry and their number do not depend on the order Go walks the result map in |
| `Health.RetriesExact` | internal/app/service.go:472-477 | With unique ports the failures filed are all the failures of the first pass |
| `Health.ChecksExact` | internal/app/service.go:461-484 | With unique ports each enabled proxy of the snapshot has exactly its own result, checked once, or twice when 1 to 1000 failed and it did |
| `Health.ChecksKeepIdentity` | internal/app/service.go:422-508 | A check changes only status, error and time, keeps statuses fitting, and marks only enabled proxies live or failed |
| `Health.MarkLoop` | internal/app/service.go:423-431 | The marking loop equals its specification |
| `Health.MergeLoop` | internal/app/service.go:486-508 | The merging loop equals its specification |
| `History.ResultsReachTheirProxy` | internal/app/service.go:466-508 | Whatever commits between the critical sections, and whatever the addresses are: every enabled proxy on a port of the snapshot is then stored with its own result, measured on the very same proxy, as live or failed with its error and the time; one on another port is unchanged, and a disabled one is only shown as disabled |
| `History.MarksExactly` | internal/app/service.go:422-431 | The first section shows every enabled proxy as being checked, without an error, and changes nothing else |
| `History.LiveOnlyByCheck` | internal/app/service.go:150-508 | Over every history an enabled proxy is live or failed only if it was from the start or a merged check of its port said so |
| `WholeRuns.LiveOnlyByResults` | internal/app/service.go:130-513 | The same over every run of operations, whatever fails: some event of the run stored these results |
| `Pool.PoolDelivers` | internal/app/service.go:440-465 | For any number of workers and any interleaving: bounded steps, no deadlock, and at the end each enabled index checked once and delivered once |
| `Pool.StepPartitions` | internal/app/service.go:440-465 | Unsent, in-flight and delivered indexes partition the work at every step |
| `Pool.NoDeadlock` | internal/app/service.go:440-465 | Until the results are closed some party can move |
| `Pool.StepDecreases` | internal/app/service.go:440-465 | Every step decreases a measure |
| `Pool.RunsOut` | internal/app/service.go:440-465 | From any point the pool can be run to its end |
| `Pool.NeverMoreAtOnce` | internal/app/service.go:432-460 | In every interleaving at most as many checks run at once as the concurrency, raised to one, allows |
| `Pool.AsManyAtOnce` | internal/app/service.go:432-460 | Some interleaving runs that many at once, if as many proxies are enabled |
| `Pool.PoolFilesExactly` | internal/app/service.go:461-484 | So the results filed by port are exact whatever the interleaving was |
| `Generation.Checks.StartCheck` | internal/app/service.go:383-394 | Cancels the check under way, if any, and makes a new generation, one above the last number, the current one |
| `Generation.Checks.StopCheck` | internal/app/service.go:407-416 | Cancels the check under way, if any, and leaves no generation current |
| `Generation.Checks.FinishCheck` | internal/app/service.go:397-402 | A finished generation clears the current check only if it is still the current one |
| `Generation.AlwaysConsistent` | internal/app/service.go:383-416 | In every interleaving, whenever checkMu is free: checking, a stored cancel function and one unfinished current generation coincide; every other unfinished generation is cancelled |
| `Generation.FromIdle` | internal/app/service.go:383-416 | The same from the start of the program |
| `Generation.CancelledNeverWrites` | internal/app/service.go:466-485 | A check cancelled with its test still ahead never stores results |
| `Generation.StopSilences` | internal/app/service.go:405-416 | stopCheck silences every check that has not passed its test |
| `Generation.StopLetsWriteExactly` | internal/app/service.go:405-416 | In every reachable interleaving: of the unfinished checks that have stored nothing, one can still store results after stopCheck if and only if it has passed its cancellation test |
| `Generation.UnmarkedNeverWrites` | internal/app/service.go:432-435 | A check that could not store its marks never stores results |
| `Generation.StoredByUpdate` | internal/app/service.go:485-511 | In every interleaving results are stored by a second update that worked, by nothing else, and stay |
| `Generation.RunsToItsEnd` | internal/app/service.go:393-401 | Every check can be run to its end; it stores its results exactly if it was not cancelled before its test, and the current one leaves none current |
| `Generation.PassedStillWrites` | internal/app/service.go:466-485 | An input: a check stopped between its test and its second update stores its results |
| `Socks.Conn.ReadFull` | internal/engine/server.go:139-139 | A full read returns exactly n bytes or everything left and an error, for every fragmentation |
| `Socks.Authenticate` | internal/engine/server.go:137-182 | The method equals its specification on the whole stream, independent of fragmentation |
| `Socks.ReadLogin` | internal/engine/server.go:158-181 | From the credentials on: version byte, both lengths, comparison and answer, independent of fragmentation |
| `Socks.ReadConnectRequest` | internal/engine/server.go:184-224 | The method equals its specification, with the reply code of every error |
| `Socks.ReadHostAndPort` | internal/engine/server.go:195-223 | Address bytes of the announced length and the port in network order, or error code 1 |
| `Socks.ServeConnection` | internal/engine/server.go:110-135 | The whole connection up to the tunnel: replies, target and unread bytes |
| `Socks.HalfThenRest` | internal/engine/server.go:113-116 | Authentication followed by the request is one run of the server |
| `SocksLaws.GreetingAnswers` | internal/engine/server.go:137-159 | What a greeting is answered with, byte for byte, and how much of it is read, for every stream |
| `SocksLaws.LoginAnswers` | internal/engine/server.go:157-163 | How the login is read up to the user name, for every stream |
| `SocksLaws.PasswordAnswers` | internal/engine/server.go:164-181 | How the password is read and what both are answered with: 1 0 exactly when both are the server's, otherwise 1 1 |
| `SocksLaws.RequestAnswers` | internal/engine/server.go:184-218 | Which request leads on, with which address length, and the code 1, 7 or 8 of every other |
| `SocksLaws.HostAnswers` | internal/engine/server.go:195-223 | Address and port of the announced length become the target, anything shorter is refused with 1 |
| `SocksLaws.ReplyAnswers` | internal/engine/server.go:116-135 | The ten bytes of every reply: code 0 for a target that can be reached, 5 for one that cannot, the request's own code otherwise |
| `SocksLaws.Recognises` | internal/engine/server.go:137-224 | The server accepts exactly the streams that start with a greeting offering method 2, its credentials and a CONNECT of type 1, 3 or 4; it reads exactly that prefix and dials exactly that target |
| `SocksLaws.HandshakeAccepted` | internal/engine/server.go:137-224 | Every such stream is accepted, with what follows left unread |
| `SocksLaws.RequestFound` | internal/engine/server.go:184-224 | Whenever the server dials, what it read last was a CONNECT request of one of the three address types |
| `SocksLaws.LoginFound` | internal/engine/server.go:158-181 | Whenever the server dials, what it read before the request was exactly its own credentials |
| `SocksLaws.GreetingFound` | internal/engine/server.go:138-157 | Whenever the server dials, what it read first was a greeting that offers method 2 |
| `SocksLaws.DialTextIsExact` | internal/engine/server.go:223-223 | The dialed text determines host text and port; for names it determines the target |
| `Client.SocksAuthenticate` | internal/proxy/check.go:165-193 | The method equals its specification, with the failure of every step |
| `Client.SocksConnect` | internal/proxy/check.go:195-233 | The method equals its specification; the bound address is consumed |
| `Client.ReadReply` | internal/proxy/check.go:208-231 | Succeeds only on code 0 with a known address type, and then has read the whole bound address; otherwise names the failure |
| `Client.LoginTalk` | internal/proxy/check.go:165-193 | What the client makes of every answer while it logs in, the bytes of its credentials, and how much it reads |
| `Client.AskTalk` | internal/proxy/check.go:195-207 | The exact bytes of the request, port high byte first; a host of more than 255 bytes is not asked for |
| `Client.ReplyTalk` | internal/proxy/check.go:208-231 | What the client makes of every reply, by code and address type, with the exact number of bytes it reads |
| `Handshakes.HandshakeWorks` | internal/proxy/check.go:165-233 | Client against server, all credentials and hosts to 255 bytes, all ports, any fragmentation and interleaving: bounded, never stuck, connected if and only if both credentials match and the target is reachable, exact target, both streams fully read, no tunnel without credentials |
| `Handshakes.NeverBothBlocked` | internal/engine/server.go:137-229 | The two sides are never both blocked on a read, and neither is once the other has finished |
| `Handshakes.StepKeeps` | internal/engine/server.go:137-229 | Every step of either side keeps the joint invariant |
| `Handshakes.ServerMethodAgrees` | internal/engine/server.go:137-224 | The server method accepts exactly what the client says |
| `Handshakes.ClientMethodAgrees` | internal/proxy/check.go:165-233 | The client method, given the server's success replies, says exactly that and reads everything |
| `Checker.Check` | internal/proxy/check.go:80-105 | The retry loop stops at the first success, the first cancelled wait or the last attempt, whichever comes first |
| `Checker.OnceExact` | internal/proxy/check.go:107-117 | A check passes if and only if either endpoint confirms the proxy; otherwise its error is the first endpoint's, or names both when a second is configured |
| `Netip.ToyIsLawful` | internal/app/service.go:307-307 | The laws assumed of the address library can be met, by one with IPv4 and IPv6 texts and two prefixes |

## Left out

- HTTP routing, JSON request decoding, browser assets, flags and the installer, apart from the restart that runs Prepare.
- Real sockets, deadlines, DNS, `relay`, `acceptLoop` and its connection limit, the HTTP request of a health check: a
  check's result is arbitrary, a connection is two byte streams, and writes to it succeed.
- Real `ip`, `systemctl` and `curl` runs and systemd's own restarts: steps on the world that a fault schedule may fail.
- Route detection, and what the endpoints of `ProbeRoutedPrefix` answer: parameters of Bootstrap.
- JSON text: a state file decodes as a whole or not at all.
- The remove-then-rename fallback of `writeAtomic` (internal/store/store.go:135-141), which is not atomic.
- CreatedAt and UpdatedAt; the time of a check is arbitrary.
- Text is a sequence of characters: UTF-8 and its invalid forms are not modelled.
- The sort algorithm: proxies with equal ports keep the order of an insertion sort; with distinct ports there is one order.
- Coherence of the live list, and of the full list when a check's list write interleaves with another operation.
- Summary's override of the checking count (internal/app/service.go:521-523), which breaks the partition on purpose.
- `checkID` does not wrap around 2^64.
- RotateToken bypasses the service lock; runs take it as one step, and a concurrent older save that overwrites it is not modelled.
- Step texts and address counts in the reports of operations.
- Undo results: the source drops the errors of its rollback; the model returns them so that theorems can speak of them.
- Service.Service.EngineActive: one fault of the probe stands for each of its commands failing and for the process
  number changing during the stability delay, because real `systemctl` runs are not modelled.
- FirstFit.TakesTheFirst: assumes that the 64-bit offset cannot wrap during the call; Lifetime.OffsetsLast shows that it cannot for a state with a cursor far from 2^64.
- Service.Service.Create: assumes that a stored list is no longer than a Go slice can be.
- ConfigLaws.ConfigRoundTrip: assumes IPv6 texts without a zone, because a zone may hold any character, white space included.
