# A model of Ironic's shared logic

Ironic manages bare metal servers. This project models seven components under `ironic/common`
and `ironic/command` that everything else relies on, and proves what they promise.

- **Hash rings** (`HashRing*.dfy`). The class-wide cache of conductor hash rings: a lock-free
  hot path, a second look under the lock, a timeout, `reset`, and the retry in `get_ring`. It is
  a step machine in which any number of threads interleave while the clock advances and the
  conductor table changes. The same methods are given as classes for one caller; scheduled alone,
  a thread of the machine does what `Ring`, `Reset` and `GetRing` do.
- **Kernel command lines** (`Kernel*.dfy`, `Strings.dfy`). The parser for the grammar, the
  printer, and the dictionary that groups repeated keys.
- **Online data migrations** (`OnlineMigrations.dfy`). The budgeted pass over the ordered list of
  migrations and the loop that repeats it until done.
- **State machines with targets** (`Fsm.dfy`, `Provision*.dfy`). The generic machine for every
  sequence of calls, and the provisioning machine as the calls that build it.
- **OCI artifacts** (`OciImages.dfy`). The filter over an index of manifests and the choice of one.
- **Hardware interfaces** (`DriverInterfaces.dfy`). Enabled lists, defaults, and the pass that
  checks and completes a node.
- **Argument validation** (`Args*.dfy`). `string_list`, the combinators, and the `validate`
  decorator, compared with Python's own binding of arguments to parameters.

Code that updates state is a class or a method with loops, proved against a function or predicate;
the theorems are about that function, over all inputs, runs or schedules.

## What turned out to need a condition

- A cached ring is never older than the call less the interval if and only if the interval is not
  negative and the database is not SQLite (`HashRingTheorems.FreshExactly`). Nothing in the code
  keeps the interval from being negative.
- Printing a parsed command line and parsing again gives the same result if and only if there is
  no bare `--` parameter past the first with something after it that could be init arguments
  (`KernelRoundTrip.RoundTripExactly`); in particular whenever no parameter is keyed `--`.
  `KernelRoundTrip.RoundTripFails` gives a line that parses and does not survive.
- A machine in an unstable state has a target, unless `initialize` was given a target it rejects:
  it has moved to the start state by then (`Fsm.GuidedExactly`,
  `ProvisionTheorems.RejectedTargetStrands`).
- With explicit targets a machine can be at its own target; `Fsm.AtTargetExactly` says when.
- A validator of `*args` is handed named positional arguments too unless the last of them has a
  validator of its own (`ArgsTheorems.RestIsExtra`), and may lose them
  (`ArgsTheorems.NamedArgumentLost`). The function sees what it should whatever that validator is,
  if and only if the last one has (`ArgsTheorems.ArgsFitExactly`). Likewise a validator of
  `**kwargs` is handed named keywords that have no validator (`ArgsTheorems.LeftIsExtra`,
  `ArgsTheorems.NamedKeywordLost`, `ArgsTheorems.KwargsFitExactly`).
- `string_list` takes a list of strings as it is, without lower-casing or removing repetitions,
  though its documentation speaks only of strings (`Args.StringList`).

## Model

| member | source | states |
|---|---|---|
| HashRingSafety.StepKeeps | ironic/common/hash_ring.py:40-116 | every step of every thread, of the clock and of the table keeps the invariant: one lock holder, cached pair whole and loaded under the lock since the last reset, publications spaced |
| HashRingSafety.RunKeeps | ironic/common/hash_ring.py:40-116 | the invariant holds after every schedule of any number of threads |
| HashRingTheorems.HistoryIsTheRun | ironic/common/hash_ring.py:50-63 | the recorded instants are the states the run went through |
| HashRingTheorems.FailedAtIsTheFailure | ironic/common/hash_ring.py:90-102 | the recorded instant of failure is one at which that thread's first look-up, for the same call, really failed |
| HashRingTheorems.RaiseMeansMissing | ironic/common/hash_ring.py:90-116 | in every interleaving, `get_ring` raises only if the table was empty, respectively had no entry for `group:driver` (without groups, for the driver), at an instant after its own first look-up failed |
| HashRingTheorems.FoundMeansPresent | ironic/common/hash_ring.py:104-116 | a ring handed out has just the hosts that the table listed under `group:driver` (without groups, under the driver) at one instant: for an uncached manager after the call began; for a cached one while its publisher held the lock, and outside SQLite with a fresh stamp |
| HashRingTheorems.CachedRingIsWhole | ironic/common/hash_ring.py:41-82 | a cached access returns one whole snapshot of the table, taken by its publisher holding the lock and stamped after that; outside SQLite it is stamped after the call began or within the interval |
| HashRingTheorems.FreshExactly | ironic/common/hash_ring.py:42-66 | no cached access ever returns a ring stamped before call start less the interval, if and only if the interval is not negative and the database is not SQLite |
| HashRingTheorems.PublicationsApart | ironic/common/hash_ring.py:59-63 | in every run, publications `i` and `j` between the same two resets are more than `j - i` intervals apart |
| HashRingTheorems.RebuildsRationed | ironic/common/hash_ring.py:58-63 | however many threads race, `n` rebuilds between resets within a window `w` need `n <= w / interval + 1` |
| HashRingTheorems.NoDeadlock | ironic/common/hash_ring.py:58-88 | at most one thread is in a critical section, and while calls are open one of them can move |
| HashRingTheorems.EveryStepCounts | ironic/common/hash_ring.py:40-102 | every step of an unblocked thread lowers a measure of what its call has left, at most 24 |
| HashRingTheorems.CallsAreShort | ironic/common/hash_ring.py:40-102 | over every schedule, no call takes more than 24 unblocked steps of its own, retry included |
| HashRingManager.HashRingManager.LoadHashRings | ironic/common/hash_ring.py:68-82 | the loop makes one ring for each entry of the table and no other |
| HashRingManager.HashRingManager.Ring | ironic/common/hash_ring.py:40-66 | answer and cached pair after one access, whatever another thread published between the hot path and the lock |
| HashRingManager.HashRingManager.Reset | ironic/common/hash_ring.py:84-88 | the pair is empty and stamped zero |
| HashRingManager.HashRingManager.GetRing | ironic/common/hash_ring.py:90-102 | the first answer if it is no error, and otherwise the answer and the pair of a second access from an empty pair |
| HashRingManager.RetryLooksAfresh | ironic/common/hash_ring.py:90-116 | if nobody interferes with the retry, an error means that its own table has no entry under the written-out key, and `TemporaryFailure` just that it is empty |
| HashRingManager.ListedIsFound | ironic/common/hash_ring.py:90-116 | an undisturbed `get_ring` finds a ring whenever the table lists `group:driver` (without groups, the driver), and with nothing cached the ring of just the listed hosts |
| HashRingManager.CachedIsFound | ironic/common/hash_ring.py:50-56 | an entry of a recent enough cached pair is handed out and the pair stays |
| HashRingManager.NoSecondRebuild | ironic/common/hash_ring.py:58-66 | a caller that finds a recent pair under the lock takes it and leaves it alone |
| HashRingManager.RebuildIsStamped | ironic/common/hash_ring.py:60-63 | a rebuild takes the whole table and is stamped with the clock at publication |
| HashRingManager.AloneIsSequential | ironic/common/hash_ring.py:40-66 | a thread scheduled alone in the step machine does what the method `Ring` does, within nine steps |
| HashRingManager.AloneReset | ironic/common/hash_ring.py:84-88 | alone, `reset` in the step machine leaves the pair as the method `Reset` does, in three steps |
| HashRingManager.AloneGetRing | ironic/common/hash_ring.py:90-102 | alone, `get_ring` in the step machine ends with the answer and the pair of the method `GetRing`, retry included, within 21 steps |
| KernelParameters.ParameterList | ironic/common/kernel_parameters.py:210-217 | the loop that fills the dictionary yields the grouping by key |
| KernelParameters.RegroupedRearranges | ironic/common/kernel_parameters.py:210-217 | the grouped parameters are the parsed ones: same multiset, order within a key kept, keys in first-occurrence order |
| KernelParameters.RegroupFlatten | ironic/common/kernel_parameters.py:97-103 | writing a dictionary out and grouping it again gives the same dictionary |
| KernelParameters.AsDictIsFirstValue | ironic/common/kernel_parameters.py:77-119 | `as_parameter_set().asdict()` maps each key that occurs, and no other, to the first value it was given |
| KernelGrammar.ReadLayout | ironic/common/kernel_parameters.py:173-197 | the deterministic parser reads every text the grammar spells back into the parameters and init arguments it was spelled from, unless a bare `--` separates earlier |
| KernelRoundTrip.Layable | ironic/common/kernel_parameters.py:173-197 | whatever the parser accepts is spelled by the grammar from just the parameters and init arguments it returned |
| KernelRoundTrip.AcceptedExactly | ironic/common/kernel_parameters.py:105-114 | a line parses if and only if, stripped, the grammar lays it out; it parses to what every layout of it contains in which no bare `--` separates earlier, and there is one |
| KernelRoundTrip.ParseIgnoresEnds | ironic/common/kernel_parameters.py:106-109 | whitespace around a line makes no difference, and nothing else is cut off |
| KernelRoundTrip.AlphabetExactly | ironic/common/kernel_parameters.py:183-192 | keys are written in letters, digits, `_`, `-` and `.`, values in printable ASCII without the double quote, bare ones without the blank |
| KernelRoundTrip.ParseYields | ironic/common/kernel_parameters.py:173-217 | keys, values and init arguments of a parsed line use only admissible characters, and the groups are a proper grouping |
| KernelRoundTrip.TextIsLayout | ironic/common/kernel_parameters.py:97-103 | the printed text is the layout with single blanks and quotes just around values with blanks |
| KernelRoundTrip.RoundTripExactly | ironic/common/kernel_parameters.py:97-114 | a printed parse always parses, and to the same keys, values and init arguments if and only if no bare `--` in it can be taken for the separator |
| KernelRoundTrip.RoundTripFails | ironic/common/kernel_parameters.py:49-114 | the line `a -- b="x"` parses, prints as `a -- b=x`, and that parses to one parameter and init arguments |
| KernelRoundTrip.RoundTrip | ironic/common/kernel_parameters.py:49-114 | for every accepted line without a parameter keyed `--`, one print is canonical |
| KernelRoundTrip.AcceptedIsSane | ironic/common/kernel_parameters.py:22-33 | an accepted line, once stripped, contains nothing that sanitizing would remove |
| KernelRoundTrip.SanitizeExactly | ironic/common/kernel_parameters.py:22-33 | sanitizing drops just the line breaks and null characters and keeps the rest in its order |
| OnlineMigrations.Database.Migrate | ironic/command/dbsync.py:41-61 | the documented contract of a migration function: up to the limit from the front, everything for zero, no other queue touched |
| OnlineMigrations.DBCommand.RunMigrationFunctions | ironic/command/dbsync.py:162-196 | a pass is `Pass`: it migrates exactly the first `max_count` pending rows in list order, is done if and only if fewer were pending, and calls no migration ahead of an earlier one or with limit zero |
| OnlineMigrations.DBCommand.RunBatches | ironic/command/dbsync.py:232-241 | the loop of default batches migrates all rows in list order, in as many passes as it takes until one is not full |
| OnlineMigrations.DBCommand.RunOnlineDataMigrations | ironic/command/dbsync.py:219-255 | exit code 127 exactly for bad input and then without effect; without a maximum all rows in list order in `P / 50 + 1` passes; otherwise one pass |
| OnlineMigrations.ParseOptions | ironic/command/dbsync.py:219-229 | refuses exactly the lists with a malformed option; otherwise collects what was given and nothing else, the last of several values winning |
| OnlineMigrations.ParseOptionExactly | ironic/command/dbsync.py:222-229 | an option parses to migration, key and value if and only if it is those joined by the first dot and the first equals sign after it |
| OnlineMigrations.RerunConserves | ironic/command/dbsync.py:162-196 | over any re-runs of that pass migrated and pending rows together stay the same sequence, and the budgets are not exceeded |
| OnlineMigrations.RerunFinishes | ironic/command/dbsync.py:182-196 | re-runs report completion exactly when the budgets exceed the pending work |
| OnlineMigrations.BatchSizeDoesNotMatter | ironic/command/dbsync.py:231-255 | whatever the budgets, finished re-runs have migrated all queues in list order, and unfinished ones a prefix of it as long as the budgets |
| Fsm.ApplyKeeps | ironic/common/fsm.py:79-158 | every call, failed or not, keeps the table and the live fields sound |
| Fsm.EveryMachineIsSound | ironic/common/fsm.py:79-158 | after any sequence of calls, registered targets and the live one are none or stable, and each default target was registered before its state |
| Fsm.ChainsEnd | ironic/common/fsm.py:84-99 | following default targets, each the stable target of the one before, ends in a state without one, within as many steps as states were registered before |
| Fsm.AtTargetExactly | ironic/common/fsm.py:101-158 | for every call, whether it leaves the machine at its own target |
| Fsm.ImplicitRunsNeverAtTarget | ironic/common/fsm.py:101-158 | over every run without explicit targets the machine never has its current state as its target |
| Fsm.GuidedExactly | ironic/common/fsm.py:128-158 | a call loses the target of an unstable state if and only if it is an `initialize` with a rejected target when there was no target |
| Fsm.CarefulRunsAreGuided | ironic/common/fsm.py:128-158 | over every run whose `initialize` targets are accepted, an unstable current state has a target |
| Fsm.BuiltFromCalls | ironic/common/fsm.py:79-99 | after any building sequence, every state and transition is as some call asked |
| Fsm.CallTakesEffect | ironic/common/fsm.py:79-99 | a building call whose states are there has its effect in the machine at the end |
| Fsm.EventTargets | ironic/common/fsm.py:101-108 | an event without a target: a default target of the new state takes over, and otherwise the old one stays unless it was reached |
| Fsm.EventExplicitTargets | ironic/common/fsm.py:143-158 | an event with a target: a registered stable one is taken, any other is an error after the move |
| Fsm.InitializeTargets | ironic/common/fsm.py:128-141 | starting takes the given target or that of the state; a refused one leaves the old target in the new state |
| Fsm.OutcomesExactly | ironic/common/fsm.py:79-158 | when building calls succeed, and which calls are errors without effect |
| Fsm.FSM.IsStable | ironic/common/fsm.py:67-77 | stability of a registered state, an error otherwise |
| Fsm.FSM.ValidateTargetState | ironic/common/fsm.py:110-126 | accepts exactly no target or a registered stable one |
| Fsm.FSM.AddState | ironic/common/fsm.py:80-99 | the new machine and outcome of the call, which keeps the invariant; an error changes nothing |
| Fsm.FSM.AddTransition | ironic/common/fsm.py:61 | the same for transitions |
| Fsm.FSM.PostProcessEvent | ironic/common/fsm.py:101-108 | a reached target is dropped and a default target of the new state takes over |
| Fsm.FSM.Initialize | ironic/common/fsm.py:128-141 | the new machine and outcome, including the move that precedes a rejected target |
| Fsm.FSM.ProcessEvent | ironic/common/fsm.py:143-158 | the new machine and outcome, including the move and default target that precede a rejected target |
| ProvisionStates.BuildMachine | ironic/common/state_machine.py:59-373 | the loop over the stable states and the calls after it build the machine the theorems are about |
| ProvisionTable.BuildRespects | ironic/common/state_machine.py:61-373 | every call registers the expected default target and stability, or a transition that leads where its verb does |
| ProvisionTable.TableRespects | ironic/common/state_machine.py:59-373 | the resulting table holds nothing but listed transitions, every state with its default target |
| ProvisionTable.AllRegistered | ironic/common/state_machine.py:61-315 | every provisioning state is registered, stable if and only if it has no default target |
| ProvisionTable.ListedIsTaken | ironic/common/state_machine.py:85-373 | no transition is listed before its states are registered: each one ends up in the table |
| ProvisionTable.TableExactly | ironic/common/state_machine.py:85-373 | the table holds exactly the transitions that a second listing, verb by verb, has, with their ends |
| ProvisionTable.VerbLaws | ironic/common/state_machine.py:85-373 | wherever it is taken, each verb leads where it says: `delete` to DELETING, `service` to SERVICING and so on, `done` to the default target, `fail` to a state of failure |
| ProvisionTheorems.OnwardTaken | ironic/common/state_machine.py:104-373 | for each state on its way somewhere, the transition that takes it on is in the table and leads there |
| ProvisionTheorems.ProvisioningBehaves | ironic/common/state_machine.py:59-373 | a machine with the built table has only safe transitions and a way on from every state that needs one |
| ProvisionTheorems.LeavesOccupied | ironic/common/state_machine.py:104-373 | a run of any length from deployment to beyond tear-down takes the `clean` step from DELETING to CLEANING |
| ProvisionTheorems.ActiveToAvailable | ironic/common/state_machine.py:104-373 | every run from ACTIVE to AVAILABLE takes the `clean` step from DELETING to CLEANING and later enters AVAILABLE for good by `done` from CLEANING |
| ProvisionTheorems.EnrollIsVerified | ironic/common/state_machine.py:233-293 | every run that leaves ENROLL and VERIFYING takes `done` from VERIFYING |
| ProvisionTheorems.UnstableIsGuided | ironic/common/state_machine.py:61-102 | over every run with accepted `initialize` targets a state not listed as stable has a target that is |
| ProvisionTheorems.RejectedTargetStrands | ironic/common/fsm.py:137-141 | `initialize` into CLEANING with an unstable target fails and leaves the machine cleaning without a target |
| ProvisionTheorems.WayWorks | ironic/common/state_machine.py:61-373 | the chosen events take the machine from any state to any target it is on the way to |
| ProvisionTheorems.TargetsAreReachable | ironic/common/state_machine.py:61-373 | from every unstable state a run of events ends in its default target |
| ProvisionTheorems.StuckStatesFail | ironic/common/states.py:262-270 | every state treated as failed when its conductor dies has a `fail` transition to a state of failure |
| ProvisionTheorems.StuckExactly | ironic/common/states.py:262-270 | the states listed as stuck are just those with a `fail` transition that cannot be resumed |
| ProvisionTheorems.FailedDeletionKeepsTarget | ironic/common/fsm.py:101-108 | a node whose tear-down fails is in ERROR and still bound for AVAILABLE |
| OciImages.SortedPositions | ironic/common/image_service.py:764 | sorting by key keeps equal keys in their order and loses none |
| OciImages.Classify | ironic/common/image_service.py:725-762 | a manifest is kept exactly if its architecture is compatible and its disk type known or absent, and is then marked with its priority and normalized type |
| OciImages.FilterManifests | ironic/common/image_service.py:699-764 | the result is exactly the wanted manifests by priority, and by position where that is equal |
| OciImages.IdentifySpecificImage | ironic/common/image_service.py:919-995 | nothing is found exactly when no manifest is eligible; otherwise the best one is reported with its format, checksum and digest |
| OciImages.IdentifyFromIndex | ironic/common/image_service.py:898-1041 | the same for an index: a lone manifest is its own list, anything else without manifests and a download through swift are errors |
| OciImages.BestIsUnique | ironic/common/image_service.py:919-948 | no two manifests are best |
| OciImages.BestExists | ironic/common/image_service.py:919-948 | if any manifest is eligible there is a best one |
| OciImages.EligibleExactly | ironic/common/image_service.py:728-781 | who is eligible, written out: same machine under either name or no name given, a known disk type or none, and one layer or a container image |
| OciImages.BestByFormat | ironic/common/image_service.py:702-764 | the best is the first manifest of the first format that any eligible one has, from qcow2, qemu, raw, applehv when served locally, and raw, applehv, qcow2, qemu otherwise; one without a format only if none has any |
| OciImages.ReportExactly | ironic/common/image_service.py:926-994 | the format, digest and checksum reported, the checksum being what stands between the first two colons |
| OciImages.BootcIsLastResort | ironic/common/image_service.py:926-957 | a bootc image is chosen only if no wanted manifest with a known disk type has a single layer |
| OciImages.FormatPreferred | ironic/common/image_service.py:702-718 | of eligible images with a disk type, the conductor serves an uncompressed one only if no compressed one is there, and the agent is sent a compressed one only if no raw one is |
| OciImages.AliasesChangeNothing | ironic/common/image_service.py:728-745 | giving node or manifests the other name of an architecture changes neither the choice nor the report |
| DriverInterfaces.InterfaceFactory.SetFromOption | ironic/common/driver_factory.py:387-408 | the enabled list is the option without repetitions and empty names |
| DriverInterfaces.OptionList | ironic/common/driver_factory.py:387-408 | that list: the names of the option but the empty one, each once, in the order they first come up |
| DriverInterfaces.InterfaceFactory.SetEnabledDrivers | ironic/common/driver_factory.py:532-551 | failing an option, the enabled list is the first choices of the hardware types without repetition, and it is an error exactly if one of these has no entry point |
| DriverInterfaces.FirstEnabledIsSupported | ironic/common/driver_factory.py:153-165 | the default without configuration belongs to the first supported implementation that is enabled; there is none exactly if none is enabled |
| DriverInterfaces.GetInterfaceExactly | ironic/common/driver_factory.py:97-115 | the loaded entry point of that name, if its class is supported or the hardware is fake; incompatible exactly if it is loaded and neither; not found exactly if none is loaded |
| DriverInterfaces.FirstNameExactly | ironic/common/driver_factory.py:540-548 | the name a class goes by is that of its last entry point |
| DriverInterfaces.DefaultExactly | ironic/common/driver_factory.py:134-178 | a configured default, if it can be used, with the error that it deserves otherwise; without one the first supported class that is loaded |
| DriverInterfaces.DefaultPasses | ironic/common/driver_factory.py:136-178 | every default passes the check that given values have to pass |
| DriverInterfaces.CalculatedDefaults | ironic/common/driver_factory.py:536-551 | with calculated enabled lists and no configured default, every enabled hardware type gets its own first choice |
| DriverInterfaces.CheckInterface | ironic/common/driver_factory.py:207-235 | one interface type: values set are checked, a default is set exactly if node and instance left it unset, and on an error the node is unchanged and which check failed is told |
| DriverInterfaces.CheckAndUpdateNodeInterfaces | ironic/common/driver_factory.py:199-237 | fields after the pass, changed exactly where both node and instance left them unset; true exactly if something changed; on an error, which check failed and what was set until then |
| DriverInterfaces.EverythingSetPasses | ironic/common/driver_factory.py:199-237 | after a pass that went through, everything set can be used and everything is set |
| DriverInterfaces.EverythingSetIsUsable | ironic/common/driver_factory.py:199-237 | after the pass every interface is set, in node or instance, and every value names a loaded implementation of a supported class, unless the hardware is fake |
| DriverInterfaces.UpdatedExactly | ironic/common/driver_factory.py:208-235 | only what neither node nor instance had set is set, to the default; every other field stays |
| DriverInterfaces.SecondPassIsIdle | ironic/common/driver_factory.py:199-237 | a second pass stops nowhere and changes nothing |
| Args.Or | ironic/common/args.py:179-187 | the answer is that of the first validator that does not say invalid, failing that of the last |
| Args.And | ironic/common/args.py:203-206 | the value goes through all validators in turn, each working on the result of the one before, up to the first error |
| Args.StringList | ironic/common/args.py:122-142 | the outcome for null, strings, lists and other values |
| Args.ItemsAreNormal | ironic/common/args.py:136-142 | items are distinct, not empty, trimmed, lower-case and free of commas |
| Args.ItemsCover | ironic/common/args.py:136-142 | the items are exactly the lower-cased tokens less the whitespace at their ends, of those that are more than whitespace |
| Args.ItemsInOrder | ironic/common/args.py:136-142 | items come in the order in which their first tokens do |
| Args.ItemsRoundTrip | ironic/common/args.py:136-142 | joining the items with commas and parsing again gives the same items |
| Strings.SplitJoin | ironic/common/args.py:138 | splitting what was joined from parts without commas gives the parts |
| Strings.StripExactly | ironic/common/args.py:139 | stripping cuts whitespace at the ends and nothing else; nothing is left exactly of whitespace |
| ArgsValidate.ValidateParam | ironic/common/args.py:358-379 | one parameter: its argument is validated in place, wherever it was given, or the complaint about it raised |
| ArgsValidate.ValidateParams | ironic/common/args.py:356-379 | the loop leaves positional, next index, remaining and validated keyword arguments as specified, or raises the first complaint in parameter order |
| ArgsValidate.Wrapper | ironic/common/args.py:341-400 | the call made or the error raised |
| ArgsTheorems.NothingMoves | ironic/common/args.py:341-400 | without validators for extra arguments it calls through exactly if no keyword is unexpected and no parameter complains; then each validated argument is converted once, in place, and every other is unchanged |
| ArgsTheorems.RefusedExactly | ironic/common/args.py:347-379 | the error raised: for just the keywords that no parameter takes, or for the first parameter in order whose validator refuses or which is mandatory and missing |
| ArgsTheorems.IdentityIsTransparent | ironic/common/args.py:341-400 | with identity validators, for every signature and call, the function sees just what it sees undecorated, errors included |
| ArgsTheorems.RestIsExtra | ironic/common/args.py:381-387 | the `*args` validator is handed exactly the extra arguments if and only if the last parameter given by position is validated |
| ArgsTheorems.LeftIsExtra | ironic/common/args.py:389-398 | the `**kwargs` validator is handed exactly the extra keywords if and only if every parameter given by keyword is validated |
| ArgsTheorems.ExtrasHandedOver | ironic/common/args.py:381-398 | everything after the last validated argument goes through the `*args` validator, and what the `**kwargs` validator returns overrides validated keywords of the same name |
| ArgsTheorems.NamedArgumentLost | ironic/common/args.py:381-387 | an input on which the `*args` validator makes a named argument disappear |
| ArgsTheorems.NamedKeywordLost | ironic/common/args.py:389-398 | an input on which the `**kwargs` validator makes a named argument disappear |
| ArgsTheorems.FunctionSees | ironic/common/args.py:341-400 | if those validators see just the extras, every variable of the function is what its own validator made of what the undecorated function would have seen |
| ArgsTheorems.ArgsFitExactly | ironic/common/args.py:381-387 | for every signature and call, the function sees every variable through its own validator whatever the `*args` validator is, if and only if the last parameter given by position is validated |
| ArgsTheorems.KwargsFitExactly | ironic/common/args.py:389-398 | the same for every `**kwargs` validator that adds no parameter names, if and only if every parameter given by keyword is validated |

## Left out

- The tooz ring itself: it is opaque but for the hosts it was built from, and so are its partitions and hash function.
- HashRingSafety.RunKeeps: users of the cached pair are taken to agree on `use_groups`, because the pair belongs to the class; a process in which a pinned release makes one cached manager ignore groups while another heeds them is not covered.
- HashRingManager.HashRingManager.Ring: stands for one caller; what others do is one pair appearing between the hot path and the lock. The interleavings are in the step machine, which the class is compared with only for a thread scheduled alone.
- Reading the cached pair is one step, as is publishing it, since both are a single attribute of the class.
- Configuration options other than the interval, and their change at run time.
- KernelGrammar.ReadLayout: where the grammar is ambiguous the parser has one rule: terminals match as long as they can, the first bare `--` that can start the init part does, and all blanks after it are skipped.
- `UnsafeKernelCommandLine` and the wording of parse errors.
- Exceptions out of a migration function, which end the command, and what is printed.
- OnlineMigrations.Database.Migrate: the migrations themselves are other files; they are taken to keep the contract documented for them.
- Migration options are collected but the modelled migrations ignore them.
- Fsm.FSM.AddState: automaton is not part of this repository; adding a known state, an unknown transition or event, and starting in an unknown state are taken to be errors without effect. Terminal states, default start states, frozen machines and the logging callbacks are left out.
- State names are never the empty string, so an explicit target is given exactly if it is not `None`.
- Node fields that persist the provisioning state, and the code that drives the machine.
- OciImages.IdentifySpecificImage: sizes, file names, media and compression types, URLs and credentials of the result are left out; the registry answers every digest with a list of layers.
- OciImages.Classify: the body of the filter's loop is a method of its own here.
- OciImages.IdentifyFromIndex: image references that already name a digest take another path in the source, which is left out.
- Loading of entry points by stevedore, its errors, the two-phase initialization of drivers and the warnings; the entry points of an interface type have distinct names.
- DriverInterfaces.InterfaceFactory.SetEnabledDrivers: a hardware type that supports nothing and one whose first choice has no entry point are two Python exceptions, and one error here.
- ArgsValidate.Wrapper: validators return a value or raise; they do not change their argument in place. A validator of `*args` returns a list and one of `**kwargs` a dictionary. The three parts of the wrapper are methods of their own. The order of keyword arguments is not modelled.
- Args.StringList: `str.lower` is a parameter with assumed properties, of which lower-casing ASCII is an instance (`Args.AsciiLowerFolds`).
- The other validators of `args.py`: each is a test of one value.
- Logging, translation and all input and output.
