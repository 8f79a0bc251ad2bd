# P2pKit supervision and evidence: a Dafny model

P2pKit's scripts supervise native processes, bound their output, collect their reports and account for every
second of a hosted job. This project models the logic that those guarantees rest on and proves it for every
input, every schedule and every failure.

- **Process ownership.** `Kernel` is an operating system whose processes fork, exec, exit and reuse PIDs between
  any two calls, driven by an arbitrary schedule. `LinuxScope` is the Linux scope on top of it: census, pidfd
  acquisition, signalling, the bounded drain and the once-only close; `ScopeRecognition` puts the real ownership
  test into it. `DarwinLineage` is ownership by proof on Darwin, `DarwinDrain` the drain on top of it, `ExecGate` the
  two-process exec handshake, `Retirement` the carrier of cleanup failures, and `DrainTimes` the phase ends of both
  drains. The kernel keeps its own record of the supervisor's calls, and the drains' promises are about that record.
- **Text formats.** `Json` and `OwnershipEnvironment` (nested ownership domains), `BatchCommandLine` (Windows batch
  quoting against the C runtime), `JavaProperties` (path escaping), over `Texts`.
- **Collection.** `ReportTrie` (the case-folding trie and the pairwise rule it stands for), `FilePlan`,
  `FileInventory` and `CollectFiles` (from an accepted inventory to its copy), `LargeInventory` (one that is too
  large), `LeafLedger` and `StagingLeaf` (whose duty each handle is).
- **Time.** `ServiceTime`, `Allocation` and `PhaseWindow` (job basis, fences, traces, clock windows).
- **Results.** `CommandEvidence` (when a command may be called PASS), `LinuxCommand` (the same on the Linux scope)
  and `CarryForward` (which attempt executed).

Objects whose methods update fields are classes; whatever the host, a clock or a parent may answer is an
unconstrained function or record parameter, so a contract holds for all of its answers. Times are integer
nanoseconds where the scripts use floats, except the local deadlines of `PhaseWindow`, which are reals with
directed rounding as a stated promise. SHA-256 is a parameter, injective where a result depends on it.

Where a promise turned out not to hold as it stands, the model keeps the code and proves the exact condition:

- a domain survives the environment exactly when no string holds a high surrogate directly followed by a low one
  (`OwnershipEnvironment.EnvironmentRoundTrip`, `SurrogatePairRenamed`);
- the two batch quoters differ exactly on an empty argument list (`BatchCommandLine.CommandLinesAgree`);
- an accepted report inventory can still be refused by the collector, exactly for a name, a depth or more than
  10000 members (`FileInventory.Setup`, `DeepReportRefused`, `LargeInventory.LargeInventoryRefused`), although up to
  20000 entries are accepted;
- the retirement carrier counts each row once exactly when no failure that carries rows is the carrier itself or
  occurs twice (`Retirement.CountedOnceExactly`); a Darwin close does so exactly when the scope had not failed, no
  handle raises and the pipe's failures carry nothing twice (`CloseCountsOnceExactly`), so the first failing handle
  already counts twice (`FirstCloseCountsTwice`) and repeated closes double the rows (`CloseAgain`);
- the staging leaf dispatches a close twice exactly when it is asked for a handle that it has closed, or the parent
  has not marked it (`StagingLeaf.OnceExactly`, `Run`, `UnmarkedTwice`, `NamedTwice`).

`dafny verify dfyconfig.toml` checks the whole project.

## Model
| member | source | states |
|---|---|---|
| `Kernel.AdvanceUndisturbed` | scripts/audit_processes.py:838-857 | Whatever processes do between two calls (fork, exec, exit, reap, PID reuse, descriptor traffic of others), lifetimes, keys and the scope's open pidfds keep their meaning |
| `Kernel.KeySandwich` | scripts/audit_processes.py:887-898 | If the same key is read before and after a `pidfd_open`, the descriptor is bound to exactly that lifetime, however often the PID was reused in between |
| `Kernel.RetirementIsFinal` | scripts/audit_processes.py:666-673 | A lifetime seen to have left its PID, or to have stopped running, never runs again |
| `Kernel.Machine.PidfdOpen` | scripts/audit_processes.py:887-898 | Opening binds the descriptor to the lifetime that held the PID at that instant; no held descriptor changes |
| `Kernel.Machine.PidfdSend` | scripts/audit_processes.py:900-904 | A delivery reaches only the lifetime its descriptor is bound to; the dispatch is on the kernel's record with the clock value that the call before it read, if it read one |
| `Kernel.NewlyDelivered` | scripts/audit_processes.py:900-904 | Whatever was newly delivered is a dispatch newly on record |
| `LinuxScope.Scope.IdentityOf` | scripts/audit_processes.py:838-857 | One identity read, with denial told apart from absence for tracked or required PIDs |
| `LinuxScope.Scope.InspectEnvironment` | scripts/audit_processes.py:867-876 | An unreadable environment counts as ended only when the lifetime is positively gone; a permission error only after a denied read, and no unreadable answer without a refused or malformed reply |
| `LinuxScope.Scope.Acquire` | scripts/audit_processes.py:887-898 | A returned handle denotes exactly the requested lifetime; on every failure exactly the descriptor just opened is closed, and a failed close is the scope's failure; a failure other than a vanished lifetime had a refused reply |
| `LinuxScope.Scope.Failed` | scripts/audit_processes.py:794-814 | A denied lifetime gets its own pending message; a message of any other class is permanent |
| `LinuxScope.Scope.Resolve` | scripts/audit_processes.py:579-583 | Resolving a lifetime removes its own message and no other |
| `LinuxScope.Scope.Consider` | scripts/audit_processes.py:606-665 | One census entry: what becomes known is that entry's lifetime, and it was live, of the same user and not foreign; a candidate is afterwards known, over, recorded as uninspected, or shown to be unmarked |
| `LinuxScope.Scope.Discover` | scripts/audit_processes.py:588-673 | Census: invariants kept under every schedule; the listing is the one that the host returned; whoever held a listed PID all along was read or some access was refused; every candidate read is settled; each known lifetime that is not returned has stopped running |
| `LinuxScope.Scope.Send` | scripts/audit_processes.py:900-904 | The call just before every dispatch read a clock value below the limit, by the kernel's own record; it reaches only the key's own lifetime |
| `LinuxScope.Scope.SignalAll` | scripts/audit_processes.py:705-721 | Every dispatch goes to a known (hence proven, never foreign) lifetime, directly after a reading below the limit; without a failure every known lifetime was delivered to or no longer runs; another failure has a reason |
| `LinuxScope.Scope.PhaseEnds` | scripts/audit_processes.py:88-98 | Exactly which reading is refused, and both ends from one reading within the deadline |
| `LinuxScope.Scope.DrainRound` | scripts/audit_processes.py:127-144 | One round: a clean census adds one listing on record, between two readings before the end, to the streak; a continuing round moves the clock and, if unclean, has delivered to every known lifetime that still runs; it expires only at the phase end and fails only for a reason |
| `LinuxScope.StreakGrows` | scripts/audit_processes.py:127-138 | One more clean census: its listing is a new one on the kernel's record, after every earlier round and every dispatch |
| `LinuxScope.Scope.DrainPhase` | scripts/audit_processes.py:123-154 | A phase ends retired after enough clean timely censuses in a row, expired at its end and not before, or failed for a reason; every due signalling is made before the next census; it terminates |
| `LinuxScope.Scope.BoundedDrain` | scripts/audit_processes.py:113-158 | By the kernel's record: the first call reads the clock, which fixes both ends or refuses the drain before any census or signal; the call before every dispatch read a value below the first end (TERM) or from there to below the second (KILL); an empty result follows the required number of listings in a row, each between two readings before one phase end, no dispatch and no other listing since the first, each leaving only the foreign, refused, other users' and unmarked running, with no error ever recorded that cannot be reconciled and nothing known running; a non-empty one is the last timely census, at the second end; any other failure has a reason |
| `LinuxScope.Scope.Drain` | scripts/audit_processes.py:879-885 | The Linux drain with a deadline: the same on the record, three quiet censuses, and no pending lifetime in any returned result |
| `LinuxScope.Scope.Close` | scripts/audit_processes.py:770-788 | The first close attempts every held descriptor exactly once, after which none that the scope opened is left; later closes touch nothing; the failure is the earlier one, else there is one iff some close failed |
| `LinuxScope.Scope.TakeBaseline` | scripts/audit_processes.py:488-492 | The baseline gains exactly the keys read, all of started lifetimes; every PID that the host listed was read, and whoever held one all along was read as itself, or some access was refused |
| `LinuxScope.CloseAll` | scripts/audit_processes.py:192-202 | Every descriptor of the roster is released once, whatever fails; true iff no close failed |
| `LinuxScope.Session` | scripts/audit_processes.py:588-788 | Over all call sequences and schedules: deliveries only to proven, never foreign lifetimes that ran as the scope's user; only own descriptors closed, and all of them after a close; no signal is dispatched after a close that failed, and such a failure blocks every later call; what each call did and what its reply means |
| `LinuxScope.Perform` | scripts/audit_processes.py:588-788 | One call: what it did by the kernel's record, and that a failure has a reason |
| `LinuxScope.Scope.SurveyClears` | scripts/audit_processes.py:127-138 | A clean census leaves running only the foreign, the refused, other users' and the unmarked |
| `LinuxScope.Supervise` | scripts/audit_processes.py:475-788 | From the first census on: nothing it read is ever signalled, and a lifetime that was there before, was listed and is there still was read unless some access was refused |
| `ScopeRecognition.OwnedNamesDomain` | scripts/audit_processes.py:555-572 | An environment is recognised only if its chain parses and holds the scope's full domain |
| `ScopeRecognition.SessionReachesOnlyItsDomain` | scripts/audit_processes.py:549-572 | Every signalled lifetime once exposed an environment whose chain holds the scope's full domain |
| `DarwinDrain.Scope.Resolve` | scripts/audit_processes.py:579-583 | Resolving a pending lifetime takes only its own message away |
| `DarwinDrain.Scope.Fail` | scripts/audit_processes.py:1378-1400 | One current message per pending lifetime, of a reconcilable class; any other class is permanent |
| `DarwinDrain.Scope.ConsiderEntry` | scripts/audit_processes.py:606-665 | One entry: it becomes known only if it is eligible, its token was acquired and the host's answers warrant the proof; it does if marker, pipe or lineage own it; a denied one leaves its message; whoever was judged is handled |
| `DarwinDrain.Scope.Discover` | scripts/audit_processes.py:588-673 | Every PID that the host listed was read afterwards and whoever was read was judged, is known or needs no judgement; all were judged against one memory that holds them all; each known lifetime that is not returned was seen ended; a failure has a reason |
| `DarwinDrain.Scope.Recheck` | scripts/audit_processes.py:666-673 | Every known lifetime is looked at: what is not returned was just seen ended |
| `DarwinDrain.Scope.Reconcile` | scripts/audit_processes.py:1654-1664 | Exactly which pending signals leave: those whose lifetime was seen ended between timely readings; the others were seen alive |
| `DarwinDrain.Scope.Send` | scripts/audit_processes.py:1569-1585 | The turn just before every dispatch read a clock below the limit; the dispatch goes to the key through its token |
| `DarwinDrain.Scope.SignalOne` | scripts/audit_processes.py:1692-1732 | A delivery clears the pending signal, an exhausted token sets it, and a send that found nobody makes every pending signal be looked at |
| `DarwinDrain.Scope.SignalAll` | scripts/audit_processes.py:1666-1732 | Every dispatch has the phase's signal and directly follows a reading below the limit; without a failure every known lifetime was delivered to, in doubt, not found, or just seen ended |
| `DarwinDrain.Scope.DrainRound` | scripts/audit_processes.py:1774-1803 | One round of the Darwin phase loop: a clean census between two readings before the end adds to the streak; a continuing unclean round has an answer for every known lifetime; the phase is over only at its end |
| `DarwinDrain.Scope.TakeCensus` | scripts/audit_processes.py:1774-1790 | An accepted census lies between two readings before the end; in between it surveyed its listing and saw each known lifetime alive or ended |
| `DarwinDrain.Scope.Drain` | scripts/audit_processes.py:1734-1843 | The first turn reads the clock, which fixes both ends or refuses the drain before any census or signal; the turn before every dispatch read a clock below the first end (TERM) or from there to below the second (KILL); every known lifetime is attested by what the host showed and answered; an empty result follows three clean censuses in a row, at increasing turns, each between two readings before one phase end, no signal since the first, each of which surveyed its listing and saw every lifetime then known ended, nothing irreconcilable ever recorded; else the last timely census at the second end; every doubtful signal was delivered later or its lifetime seen ended later; a structural failure has a reason |
| `DarwinLineage.WalkExact` | scripts/audit_processes.py:1187-1208 | The lineage walk owns a lifetime by a line exactly when recorded, untraced, reaper-free parents form it without repetition, its last member alone known and none foreign |
| `DarwinLineage.WalkAscends` | scripts/audit_processes.py:1187-1208 | A line found consists of recorded lifetimes and leads upwards |
| `DarwinLineage.NoCircularProof` | scripts/audit_processes.py:1148-1150 | The graph of retained proofs is acyclic |
| `DarwinLineage.Grounded` | scripts/audit_processes.py:1152-1208 | Every proof unwinds to a domain, a pipe or a spawn gate |
| `DarwinLineage.AdmissionKeepsProofs` | scripts/audit_processes.py:660-664 | A proof resting on an earlier one keeps the whole graph ranked by admission |
| `DarwinLineage.Scope.Remember` | scripts/audit_processes.py:1137-1146 | Exactly when a lifetime is recorded; a unique ID never changes lifetime |
| `DarwinLineage.Scope.ParentProof` | scripts/audit_processes.py:1187-1208 | The loop computes the walk |
| `DarwinLineage.Scope.OwnershipProof` | scripts/audit_processes.py:1152-1185 | What marker, pipe, lineage and audit session each decide; an undecided lineage is foreign only in another valid session |
| `DarwinLineage.Scope.Consider` | scripts/audit_processes.py:614-665 | A lifetime becomes known iff it is eligible, its token was acquired and marker, pipe or lineage own it, by exactly the proof that the answers warrant; earlier proofs stay |
| `DarwinLineage.Scope.Discover` | scripts/audit_processes.py:588-665 | Each entry is judged with its own answers against a history that holds the whole census; only its members can become known; it fails only for an entry that cannot be recorded or could be refused |
| `DarwinLineage.Scope.BindSpawn` | scripts/audit_processes.py:1236-1288 | The gate is released iff the child is the directly spawned, same-user, non-foreign lifetime that holds the pipe, whose token was acquired and which could be filed |
| `DarwinLineage.Run` | scripts/audit_processes.py:588-1310 | Over any run: known and baseline are disjoint; each known key has a proof that never changes and that answers given in the run support; no circular chain; what each operation did and what its result means |
| `ExecGate.StepKeepsInvariants` | scripts/audit_processes.py:1243-1310 | Each call of either process, a crash or a kill keeps the protocol and the descriptor ledger |
| `ExecGate.GateSafety` | scripts/audit_processes.py:1243-1310 | Every interleaving: product run only if `G` was written, `G` only after identity, pipe and token checks and registration; no gate descriptor closed twice, all closed on return |
| `ExecGate.EofRefuses` | scripts/audit_exec_gate.py:14-29 | Once the release end is gone without a `G`, no continuation runs the product |
| `ExecGate.FailedAdmissionNeverExecutes` | scripts/audit_processes.py:1294-1310 | A failed spawn leaves a gate that never runs the product |
| `ExecGate.GateAdvances` | scripts/audit_exec_gate.py:14-33 | The gate waits only for a live parent that has neither answered nor let go |
| `ExecGate.GateCanOpen` | scripts/audit_exec_gate.py:14-33 | Some interleaving does run the product |
| `Retirement.FlattenWeighs` | scripts/audit_processes.py:205-216 | Rows gathered plus rows lost are all rows fed in |
| `Retirement.RetireActions` | scripts/audit_processes.py:192-202 | Every action is attempted once, in order, whatever raised before; the failures are exactly the raising ones |
| `Retirement.Gather` | scripts/audit_processes.py:205-226 | At most 256 rows kept, the first ones; kept plus omitted grows by one per failure and all it carried |
| `Retirement.CountedOnceExactly` | scripts/audit_processes.py:205-226 | Each row fed in is counted once iff no failure that carries rows is the carrier itself or occurs twice |
| `Retirement.Finish` | scripts/audit_processes.py:205-234 | Which exception is raised: the first cancellation, else a new one that stands for exactly the failures |
| `Retirement.Scope.Retire` | scripts/audit_processes.py:534-544 | The first failure stays the scope's failure; the others are gathered on it |
| `Retirement.Scope.CloseScope` | scripts/audit_processes.py:770-788 | Roster withdrawn before release; each resource released at most once; a second close only repeats the failure |
| `Retirement.Scope.Close` | scripts/audit_processes.py:1559-1567 | The Darwin close raises iff the scope had failed or some action fails now; what it leaves is the earlier failure, else the first failing handle's, else the first failing pipe end's, and stays; its two gatherings and its exact total |
| `Retirement.Echo` | scripts/audit_processes.py:205-226 | A failure gathered on itself counts its rows twice, plus one |
| `Retirement.CloseAgain` | scripts/audit_processes.py:1559-1567 | After n more closes a failed scope's row count plus one has doubled n times; nothing is released again |
| `Retirement.CloseCountsOnceExactly` | scripts/audit_processes.py:1559-1567 | A close counts each row once iff the scope had not failed, no handle raises, and the pipe's failures carry nothing twice |
| `Retirement.FirstCloseCountsTwice` | scripts/audit_processes.py:1559-1567 | One raising handle: the first close already counts three rows where two were fed in |
| `Json.ReadEscaped` | scripts/audit_processes.py:335-335 | Reading back an ASCII-escaped string gives it with adjacent surrogate pairs joined |
| `Json.MergeKeepsExactlyClean` | scripts/audit_processes.py:335-335 | That is the string itself exactly when no high surrogate is directly followed by a low one |
| `Json.LoadDump` | scripts/audit_processes.py:293-295 | Reading back a written list of objects |
| `OwnershipEnvironment.EnvironmentRoundTrip` | scripts/audit_processes.py:311-340 | What is emitted parses back to the inherited domains and the new one, if and only if all strings survive the encoding and state and home are non-empty and NUL-free |
| `OwnershipEnvironment.SurrogatePairRenamed` | scripts/audit_processes.py:334-339 | A state directory named by a surrogate pair is accepted, and the domain parsed back names another directory |
| `OwnershipEnvironment.NestingKeepsDomains` | scripts/audit_processes.py:311-340 | After any number of nestings: all domains in order, ids distinct, depth at most 32, current context is the last domain |
| `OwnershipEnvironment.NestedRecognition` | scripts/audit_processes.py:555-572 | Exactly the scopes whose full tuple is in the chain recognise the child |
| `OwnershipEnvironment.InheritedBound` | scripts/audit_processes.py:277-308 | Accepted domains are bound one by one to the ids of the chain |
| `BatchCommandLine.CommandLineRoundTrip` | scripts/audit_processes.py:1919-1937 | The C runtime's backslash rules split the tail of an accepted line into exactly the arguments |
| `BatchCommandLine.SplitTail` | scripts/audit_processes.py:1932-1936 | The same for any arguments without quotes |
| `BatchCommandLine.CommandLinesAgree` | scripts/hosted_cache_bootstrap_producer.py:168-174 | The two quoters agree exactly when there is an argument or the program name is refused |
| `JavaProperties.EscapeHome` | scripts/hosted_cache_bootstrap_initialization.py:79-90 | Which paths can be written, and the escaped text |
| `JavaProperties.Installations` | scripts/hosted_cache_bootstrap_initialization.py:73-95 | Exactly which lists of JDK paths are accepted, and the joined value |
| `JavaProperties.Unescape` | scripts/application_release_version.py:29-47 | The decoding loop gives the value's meaning or refuses a cut or malformed escape |
| `JavaProperties.InstallationsRoundTrip` | scripts/hosted_cache_bootstrap_initialization.py:79-95 | Decoding and splitting at commas returns each path's UTF-16 units with slashes for backslashes |
| `ReportTrie.FitsExactly` | scripts/hosted_cache_bootstrap_collection.py:101-119 | The trie admits a path exactly when it is compatible with every path in it |
| `ReportTrie.Trie.Insert` | scripts/hosted_cache_bootstrap_collection.py:101-119 | Insertion into the nested dictionaries: taken iff pairwise compatible; a refusal changes nothing; the count is the new prefixes beyond the report index |
| `ReportTrie.CountGrows` | scripts/hosted_cache_bootstrap_collection.py:107-119 | The entry count grows by exactly the new distinct prefixes |
| `ReportTrie.PairwiseExactly` | scripts/hosted_cache_bootstrap_collection.py:101-119 | Accepted in sequence iff every two paths are compatible |
| `ReportTrie.OrderIrrelevant` | scripts/hosted_cache_bootstrap_collection.py:101-134 | Neither acceptance nor the entry count depends on order |
| `ReportTrie.RootLocal` | scripts/hosted_cache_bootstrap_collection.py:81-98 | The report index depends only on the components before the report directory |
| `ReportTrie.Reports` | scripts/hosted_cache_bootstrap_collection.py:122-152 | An inventory is accepted iff every row is well formed, rows strictly increase, paths are pairwise compatible, bytes and entries are within limits; with the exact summary |
| `FilePlan.InsertTotal` | scripts/hosted_cache_bootstrap_collect_files.py:131-147 | Insertion adds exactly the new members, and the file's cap once |
| `FilePlan.InsertFiles` | scripts/hosted_cache_bootstrap_collect_files.py:131-147 | Insertion adds exactly the one file |
| `FilePlan.CollidesExactly` | scripts/hosted_cache_bootstrap_collect_files.py:140-147 | A path collides iff it or a planned path is a prefix of the other |
| `FileInventory.BuildExactly` | scripts/hosted_cache_bootstrap_collect_files.py:122-129 | A plan can be built iff the declared paths are pairwise unrelated |
| `FileInventory.Setup` | scripts/hosted_cache_bootstrap_collect_files.py:122-147 | Setup succeeds iff names and depths are portable, nothing collides and the plan has at most 10000 members; the counter is the plan's size |
| `FileInventory.EntriesExactly` | scripts/hosted_cache_bootstrap_collect_files.py:140-147 | The members are exactly the distinct prefixes of the declared paths |
| `FileInventory.InventoryFits` | scripts/hosted_cache_bootstrap_collect_files.py:32-32 | Every accepted inventory is collision-free and within the byte limit |
| `FileInventory.DeepReportRefused` | scripts/hosted_cache_bootstrap_collect_files.py:135-139 | An accepted inventory that setup refuses for its depth |
| `LargeInventory.LargeInventoryRefused` | scripts/hosted_cache_bootstrap_collect_files.py:142-144 | 5000 accepted reports whose plan has more than 10000 members |
| `CollectFiles.SizeWithinCaps` | scripts/hosted_cache_bootstrap_collect_files.py:438-448 | A conforming source is no larger than its plan's caps |
| `CollectFiles.Copier.Stream` | scripts/hosted_cache_bootstrap_collect_files.py:398-436 | Reads to the declared end under any portioning; success, exact charges, and that only a mismatch, a short write or a limit fails |
| `CollectFiles.Copier.CopyFile` | scripts/hosted_cache_bootstrap_collect_files.py:458-487 | Success means the copy read back is the file as first read; stable conforming files within limits succeed |
| `CollectFiles.Copier.CopyTree` | scripts/hosted_cache_bootstrap_collect_files.py:489-511 | Whole-tree copy: contents, exact byte and member counts, total on stable conforming sources |
| `CollectFiles.Copier.FinalTree` | scripts/hosted_cache_bootstrap_collect_files.py:513-531 | The last listing succeeds iff nothing changed (within the member limit), and counts every member |
| `CollectFiles.Copier.AdmitMetadata` | scripts/hosted_cache_bootstrap_collect_files.py:450-456 | Each metadata file has its declared name, size and bytes; the exact charge |
| `CollectFiles.Copier.Collect` | scripts/hosted_cache_bootstrap_collect_files.py:553-586 | Success: destination equals source byte for byte and all four member counters equal the plan; no limit is met on a stable conforming source |
| `CollectFiles.CollectInventory` | scripts/hosted_cache_bootstrap_collect_files.py:553-586 | From an accepted inventory to its copy: success implies portable names, at most 10000 members, a conforming source and unchanged listings, and these with a stable source imply success |
| `LeafLedger.Leaf.Acquire` | scripts/hosted_cache_bootstrap_collect_files.py:274-318 | A handle that the factory made and no row owned is acquired and pinned, whatever the parent does then, and retirement is unknown unless it is registered once; a borrowed or duplicate handle is never pinned |
| `LeafLedger.AcquireKeeps` | scripts/hosted_cache_bootstrap_collect_files.py:274-318 | An acquisition keeps the ledger of duties; a new handle is nobody else's |
| `LeafLedger.Leaf.CloseOne` | scripts/hosted_cache_bootstrap_collect_files.py:320-352 | At most one dispatch per handle, none while unknown; exactly when it succeeds; a close not known to have worked makes retirement unknown |
| `LeafLedger.Leaf.Close` | scripts/hosted_cache_bootstrap_collect_files.py:354-371 | Every acquired handle is attempted or retirement is unknown; success iff nothing failed or is unknown and all are closed; a leaf without a failure succeeds with a parent that closes in time |
| `LeafLedger.SweepKeeps` | scripts/hosted_cache_bootstrap_collect_files.py:354-371 | What the final close makes of any duties: all attempted or unknown, nothing new fails with a good parent, what was unknown stops it |
| `LeafLedger.Run` | scripts/hosted_cache_bootstrap_collect_files.py:274-371 | Whole leaf, every parent behaviour: no handle closed twice, none foreign, none while unknown; every handle that the factories made is attempted or retirement is unknown; success only with all of them closed |
| `LeafLedger.AcquiredExactly` | scripts/hosted_cache_bootstrap_collect_files.py:274-318 | What a run acquires is exactly what its factories made and no row owned at that time |
| `StagingLeaf.Leaf.CloseOne` | scripts/hosted_cache_bootstrap_staging.py:350-361 | Asks the parent again whether or not it did before; exactly what is dispatched and marked, and when it succeeds |
| `StagingLeaf.Leaf.Close` | scripts/hosted_cache_bootstrap_staging.py:363-376 | The final close dispatches exactly the swept handles; success means all marked and closed, and an obliging parent gets there |
| `StagingLeaf.SweptExactly` | scripts/hosted_cache_bootstrap_staging.py:363-376 | A handle is swept iff its registered row is unmarked, nothing is unknown, and no later handle leaves retirement unknown first |
| `StagingLeaf.OnceExactly` | scripts/hosted_cache_bootstrap_staging.py:350-376 | Over any calls and parent: no handle dispatched twice iff every call was safe at the stage where it was made |
| `StagingLeaf.Run` | scripts/hosted_cache_bootstrap_staging.py:350-376 | The leaf comes to the stage that its calls make of its beginning, and no handle is dispatched twice iff every call was safe when made, that is, did not name a dispatched handle or find it unmarked |
| `StagingLeaf.CarefulRun` | scripts/hosted_cache_bootstrap_staging.py:350-376 | A parent that marks on dispatch and callers that name no handle twice are enough |
| `StagingLeaf.UnmarkedTwice` | scripts/hosted_cache_bootstrap_staging.py:363-376 | A parent that does not mark: the same handle is dispatched twice |
| `StagingLeaf.NamedTwice` | scripts/hosted_cache_bootstrap_staging.py:350-361 | A handle named twice is dispatched twice |
| `ServiceTime.EndIsConservative` | scripts/hosted_cache_bootstrap_service_time.py:51-76 | Job end no later than true start plus 5400 s whenever the charged age covers the true one |
| `ServiceTime.ChargeCovers` | scripts/hosted_cache_bootstrap_service_time.py:42-64 | The charge covers a true age iff the service understates it by at most 66 s |
| `ServiceTime.BasisRefusals` | scripts/hosted_cache_bootstrap_service_time.py:51-66 | Exactly when a basis is refused |
| `Allocation.AllCaps` | scripts/hosted_cache_bootstrap_allocation.py:26-44 | The 48 caps sum to 4650 s, below 5400 s |
| `Allocation.GroupsFit` | scripts/hosted_cache_bootstrap_allocation.py:45-53 | Every capture group is contiguous and below 900 s |
| `Allocation.FenceArithmetic` | scripts/hosted_cache_bootstrap_allocation.py:95-119 | Exactly when fences exist; job end minus fence k is the sum of all later caps |
| `Allocation.FencesAreConservative` | scripts/hosted_cache_bootstrap_allocation.py:95-119 | No fence later than true start plus 5400 s less the remaining caps |
| `Allocation.OlderIsNoLater` | scripts/hosted_cache_bootstrap_allocation.py:95-119 | A larger service age never moves a fence later |
| `Allocation.DeriveTrace` | scripts/hosted_cache_bootstrap_allocation.py:140-222 | A trace is accepted iff every row is well formed and follows its predecessor and none but the last is adverse; with every derived field |
| `Allocation.OnlyLastAdverse` | scripts/hosted_cache_bootstrap_allocation.py:167-168 | Only the last row can be adverse |
| `Allocation.TimesAreMonotone` | scripts/hosted_cache_bootstrap_allocation.py:176-177 | Times never go back, from any row to any later one |
| `Allocation.RowInTime` | scripts/hosted_cache_bootstrap_allocation.py:182-204 | A row that is not adverse ended before its fence, in its cap, in its group span under 900 s, new work within 90 s |
| `Allocation.TamperEvident` | scripts/hosted_cache_bootstrap_allocation.py:175-212 | The last digest fixes the whole trace and its predecessor |
| `PhaseWindow.Window.Sample` | scripts/hosted_cache_bootstrap_staging.py:256-277 | Exactly when a sample passes, and the high-water marks after it, also on failure |
| `PhaseWindow.Open` | scripts/hosted_cache_bootstrap_staging.py:240-254 | A window opens iff it follows its predecessor and has time left on both clocks; what it fixes |
| `PhaseWindow.MarksExactly` | scripts/hosted_cache_bootstrap_staging.py:256-277 | If all samples pass, the marks are the last readings themselves and the reading of the last new work |
| `PhaseWindow.Leaf` | scripts/hosted_cache_bootstrap_staging.py:549-624 | A leaf returns iff every sample of its work and of its last checks passes, with exactly those readings; its record passes both successor checks |
| `PhaseWindow.StageThenSeed` | scripts/hosted_cache_bootstrap_custody.py:63-85 | Stage then seed: both return iff both windows open and every sample passes; the full order of all times, below fences, job end and 120 local seconds |
| `CarryForward.OriginalExecution` | scripts/ci_qualification.py:367-410 | The shrinking-history loop computes the walk and terminates |
| `CarryForward.WalkFindsOriginal` | scripts/ci_qualification.py:367-410 | It answers an attempt iff that attempt is a sole, successful, genuine execution and every later row is a sole, successful copy of the one before |
| `CarryForward.CopiesAgree` | scripts/ci_qualification.py:393-409 | Every later row agrees with the original on all stable fields |
| `CommandEvidence.Capture.WriteAll` | scripts/ci_evidence.py:232-239 | Partial writes: what is written is always a prefix of what was kept, all of it if the sink keeps advancing |
| `CommandEvidence.Capture.Copy` | scripts/ci_evidence.py:216-249 | The log is a prefix of the stream within the limit, and the whole stream at an end without error; with a willing host the only error is a stream over the limit |
| `CommandEvidence.Poll` | scripts/ci_evidence.py:365-395 | The decision that the turns determine; PASS only on exit 0 seen before the deadline, and always when the first exit seen is 0 after calm turns |
| `CommandEvidence.RunCommand` | scripts/ci_evidence.py:344-471 | PASS iff the turns decide PASS, cleanup is known and captures are closed; under PASS drain empty, no discovery error, both logs complete; and PASS for a calm timely exit 0 with a willing host, streams within the limit and a good cleanup |
| `CommandEvidence.Settle` | scripts/ci_evidence.py:399-471 | The result from decision and cleanup: the exact code, when cleanup is known, when captures are closed |
| `LinuxCommand.Run` | scripts/ci_evidence.py:344-471 | On the Linux scope, PASS means that no known process runs, nothing uninspected is left, the drain's last census cleared everyone it could see, and every descriptor that the scope opened was closed without a failure; a calm exit with complete logs ends in its own code, or in a cleanup failure for which something speaks |
| `LinuxCommand.PollScope` | scripts/ci_evidence.py:365-395 | A census is taken in exactly the turns in which one is due; calm turns to an exit decide by it, or a census raised for a reason |

## Left out

- Windows ownership (job objects, handles, suspended start): foreign calls whose contracts would restate them.
- The drain without an explicit deadline: its last line returns one bare census, so it promises no quiet streak.
- Darwin observation retries, Mach ports and audit-token internals: an observation is one answer of the host, and a token denotes the lifetime it was acquired for.
- Darwin drain timing diagnostics, pending-context labels and diagnostic roles: they decide nothing.
- The Linux admission probe, leader polling, launch records and the order of a census result: `Discover` returns its lifetimes as a map.
- Discovery messages are pairs of PID and exception class instead of their text.
- Non-finite clock readings are modelled where the drains check for them; the bare readings of the Darwin phase loop are finite.
- ExecGate: a gate descriptor is present or absent; descriptor numbers and the inherited pipe list are not modelled.
- JSON values other than arrays of objects of strings are one refusal, because each of them ends in the same ownership error.
- Path normalisation in `ownership_environment` and the file-system encoding are parameters; the encoding keeps ASCII.
- `Retirement`: exceptions are named, and their notes and message text are not kept.
- The fixed lines of the generated Gradle properties, and `from_properties`, whose continuation rules differ from Java's.
- Report rows are typed records: JSON shapes and the empty-file digest are a row type and a parameter.
- FilePlan: directory entries stand in insertion order; the collector visits them sorted, which changes no result.
- File identities, aliases, path races and bindings: a file is what its passes deliver, and a changed binding is one flag of the last listing.
- LeafLedger: the roster comparison of `state()` and the error texts are part of the parent's free behaviour.
- StagingLeaf: acquisition is not modelled a second time (it follows the collector's rule for borrowed handles); a leaf begins with its handles and rows.
- Record grammars of allocation observations: parsing is a parameter; a phase name is its place in the roster.
- Parent records of custody, receipts, manifests, GitHub API access and archives: field lists and transport.
- CommandEvidence: captures are followed to their end one after the other; a capture that is still active at the end is a flag of the cleanup.
- CarryForward: the service's agreement with a row, and the presence of its stable fields, are one answer and one flag.
- `hosted_cache_bootstrap_export.py` and `hosted_cache_bootstrap_save_set.py` reuse the same windows and ledgers and would add easy members only.
