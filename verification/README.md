# Verified models of the uscxml core

Dafny models of the parts of uscxml whose correctness is least visible in their code,
with proofs. `dafny verify dfyconfig.toml` checks the whole project; every file holds
one module.

## What is modelled

**The SCXML microstep.** `Charts`, `EntrySets`, `Transitions`, `MicroSteps` and
`Stepping` describe the step function of the interpreter on values: a chart is a table
of states in document order and a table of transitions, a step maps one stepper state
to the next and lists the callbacks made. `Interpreter.FastMicroStep` is the
interpreter object, whose methods update its fields with the loops of the original and
are proved equal to that function. `Initialization` builds the tables from parents,
kinds and targets. The main result is that configurations are legal in the sense of
section 3.11 of the SCXML Recommendation, although no loop mentions legality:
`Stepping.RunsAreLegal` for every run of every chart in order, and `Exactness.RunsExact`,
for every run of every well-formed chart, exactly when. `Gaps` proves the exact condition
for one pass over the entry set, and `DefaultEntries` reads it off the chart where no
pseudo-state is met. `DoneEvents`, `DoneInSteps`, `Invocations`, `HandlerOrder`,
`ContentOrder`, `Endings`, `Histories` and `Snapshots` hold the further results about
runs: done events, invocations, which content runs how often and in which order, how
runs end, what history restores.

**Generated C.** `GeneratedTables` shows that listing direct children instead of all
descendants makes no difference. `ByteSets` proves the bit macros and loops,
`GeneratedCode` relates the generated step function, which keeps taking events until a
transition is found, to runs of the interpreter, `DeepInitials` and `GeneratedLegality`
show that its configurations stay legal on more charts than the interpreter's, and
`GeneratedMachine` proves the step function on byte arrays.

**Enumerating configurations.** `Configurations` proves that the list of all
configurations is exactly the set of legal ones, each once; `Reachable` relates it to
runs.

**Option parsing.** `Rotation` proves the in-place exchange of two blocks by
gcd-many cycles, `Getopt` the scanner that uses it.

**Codecs.** `Base64` and `BitStrings` (the text form of the interpreter's bit sets),
`WebSocket` (the resumable frame reader and the sender), `Jsmn` (the JSON tokenizer),
`Brackets` (which texts it accepts), `Json`, `JsonAtoms` and `JsonRoundTrip` (writer,
reader and their round trip).

**Event names.** `Tries` is the prefix index.

Guards, event matching, event queues and executable content are inputs of a step (the
sets of transitions matched and of guards that hold, whether an event was found) or
logged callbacks. One action per state stands for all elements of a kind in that state:
`OnEntry(i)` for its entry handlers, `Invoke(i)` for its invocations, and so on.

## Assumptions about charts

`Transitions.WellFormed` collects what is assumed of every chart, `Transitions.ChartOk` is a
chart in order. `Examples.PlayerOk` shows a chart in order; `Examples.LooperWellFormed` one
that is only well formed.

Well formed:

- A compound state completes to one state below it: to an `<initial>` child with one
  transition to compatible states below the compound state, or to a proper state at any
  depth.
- Any two targets of one transition are ancestor-related or lie in different regions
  of a parallel state. (`hasLegalCompletion` accepts any common parallel ancestor.)
- Exit sets and conflicts are those of `getExitSet` and `conflictsCached`.
- Pseudo-states come before the proper states below their parent, as initialization
  sorts them.
- A history state covers its siblings, or all proper states below its parent when deep,
  and has a default transition to compatible proper states below the parent.

In order: moreover

- compound states complete to children,
- history defaults leave no gap below the history's parent,
- no transition to a history state has that state's parent as its domain.

A run of a well-formed chart goes wrong exactly where one of these three is violated and
the violation takes effect, see below.

## Where the code does not do what it is for

- A compound state whose `initial` attribute names a deeper descendant is entered by the
  interpreter without the states in between. They stay out unless an `<initial>` element
  is met further down, whose transition enters all ancestors of its targets, and even
  then the regions of a parallel state in between stay out. `Gaps.Gaping` is this
  condition on the chart, and a step is illegal exactly if such a state is completed
  (`Exactness.SelectionExact`, `Exactness.StartExact`; `DeepInitials.DeepInitialGap` and
  `DeepInitials.DeepInitialHealed` are runs of either kind). Generated C adds the states
  in between (`GeneratedLegality.GeneratedCodeIsLegal`).
- A transition to a history state from inside its parent leaves the parent without an
  active child exactly if nothing is recorded under the history's mask, as long as history
  states of different parents cover different states (`Exactness.SelectionExact`,
  `Examples.HistoryFromInside`).
- The default of a deep history state with several targets adds the ancestors of the first
  only. `Gaps.GapingDefault` says when states stay out for good, and again the step is
  illegal exactly if such a default is taken (`Examples.HistoryDefaultGap`).
- A parallel state with a history child, or without any, never raises its done event,
  even when Appendix D of the SCXML Recommendation calls it finished; nor does a parallel
  state around it. `DoneEvents.DoneEventsExact` has this as its exact condition.
- Generated C takes a final state for a top-level one if the ancestors other than the
  root all lie beyond the first eight states (`GeneratedCode.FirstByteExact`;
  `GeneratedLegality.FirstByteRuns` is a run that ends too early).
- Without long options, a cluster of short options that ends in a dash that is no option
  stops getopt without moving the skipped arguments (`Getopt.ReadAll`, `Getopt.LastDash`,
  `Getopt.LastDashOnly`).
- A finished interpreter may be serialized, but read back it goes on
  (`Snapshots.SavedFinished`).
- A vertical tab is written to JSON as an escape that the tokenizer refuses, and a NUL
  ends the text early (`JsonRoundTrip.RoundTrip`).
- Messages of 65536 bytes or more are announced with a two-byte length, and an empty
  message is not delivered before the next byte arrives (`WebSocket.SentExact`).
- The base64 decoder's range check admits one index past its table; what is read there
  is the parameter `beyond`, and no result depends on it.
- In the interpreter nothing ever sets the flag for states with history, so its branch
  for nested histories is never taken.

## Model

| member | source | states |
|---|---|---|
| EntrySets.PassAll | src/uscxml/interpreter/FastMicroStep.cpp:863-978 | Where no `initial` attribute reaches past a child and no history default leaves a gap, one pass in document order over the growing set keeps, state by state, what the finished set needs: closed upward, one child per compound, all regions per parallel, nothing left to complete below |
| EntrySets.PassLegal | src/uscxml/interpreter/FastMicroStep.cpp:863-1053 | A finished pass leads to a legal next configuration in the sense of section 3.11 of the SCXML Recommendation |
| EntrySets.PassGraft | src/uscxml/interpreter/FastMicroStep.cpp:889-953 | Adding what a history record, a history default or an `<initial>` transition names at once keeps the pass on track |
| EntrySets.PassHistory | src/uscxml/interpreter/FastMicroStep.cpp:889-938 | Resolving a history state, by record or by default, keeps the pass invariant |
| EntrySets.PassInitial | src/uscxml/interpreter/FastMicroStep.cpp:940-953 | Resolving an `<initial>` element keeps the pass invariant and removes the element from the set |
| EntrySets.PassParallel | src/uscxml/interpreter/FastMicroStep.cpp:884-887 | A parallel state brings in every region |
| EntrySets.PassCompound | src/uscxml/interpreter/FastMicroStep.cpp:955-974 | A compound state with nothing below it in the set is completed to one child |
| EntrySets.KeptNotCompleted | src/uscxml/interpreter/FastMicroStep.cpp:956-959 | A compound state that stays active is never completed: the test on descendants sees its active child unless something below is entered |
| EntrySets.DefaultInside | src/uscxml/interpreter/FastMicroStep.cpp:895-915 | A history default adds nothing outside its parent's subtree that is not being entered anyway |
| Transitions.LccaSpec | src/uscxml/util/Predicates.cpp:72-109 | The computed domain is the nearest compound at or above the start with all the states below it |
| Transitions.DomainSpec | src/uscxml/util/Predicates.cpp:275-295 | The transition domain is compound, is the source or above it, and has all targets properly below |
| Transitions.ExitSetExact | src/uscxml/util/Predicates.cpp:147-171 | An internal transition of a compound state to states below it leaves exactly the proper states below its source and stays in the source; every other transition with a target leaves its source, with everything below the nearest compound state properly above it that has all targets below |
| Transitions.TargetlessLeavesNothing | src/uscxml/util/Predicates.cpp:147-171 | A transition without a target leaves nothing |
| Transitions.ConflictSymmetric | src/uscxml/interpreter/FastMicroStep.cpp:213-227 | The conflict relation, filled for one half of the matrix and mirrored, is symmetric |
| Transitions.ConflictExact | src/uscxml/interpreter/FastMicroStep.cpp:213-227 | Two normal transitions conflict if and only if their sources are the same or nested or some state is left by both |
| Transitions.SelectSpec | src/uscxml/interpreter/FastMicroStep.cpp:772-805 | The selection is exactly what greedy preemption in table order leaves, with the unions of targets, exit sets and conflicts |
| Transitions.SelectMaximal | src/uscxml/interpreter/FastMicroStep.cpp:772-805 | No two selected transitions conflict, and every enabled one passed over conflicts with a selected one of smaller index |
| Transitions.SelectedMeans | src/uscxml/interpreter/FastMicroStep.cpp:772-805 | A transition is selected if and only if it is a normal one of an active state, matches the event or has none when none is processed, its guard holds, and no selected transition of smaller index conflicts with it |
| Transitions.SelectedSourcesApart | src/uscxml/interpreter/FastMicroStep.cpp:772-805 | No two selected transitions have the same or nested sources or leave a state in common |
| MicroSteps.DriversApart | src/uscxml/interpreter/FastMicroStep.cpp:213-227 | Selected targeted transitions have pairwise incomparable domains |
| MicroSteps.ZoneIsOk | src/uscxml/interpreter/FastMicroStep.cpp:807-812 | The states below the selected domains form whole subtrees under active compound states |
| MicroSteps.ExitsAreZone | src/uscxml/interpreter/FastMicroStep.cpp:807-812 | What is left is exactly the active part of these subtrees |
| MicroSteps.SeedsInv | src/uscxml/interpreter/FastMicroStep.cpp:863-872 | Targets with their ancestors meet the invariant with which the pass over descendants starts |
| MicroSteps.RememberRecords | src/uscxml/interpreter/FastMicroStep.cpp:842-861 | A history state whose parent is left records the active states under its mask |
| MicroSteps.RememberKeeps | src/uscxml/interpreter/FastMicroStep.cpp:842-861 | While a history state's parent is inactive its record stays or is dropped as a whole, however masks overlap |
| MicroSteps.RememberOwn | src/uscxml/interpreter/FastMicroStep.cpp:842-861 | Where history states of different parents cover different states, a record changes only when its own parent is left |
| MicroSteps.RememberUsable | src/uscxml/interpreter/FastMicroStep.cpp:842-861 | ... and then the records of active parents stay usable as well |
| MicroSteps.InsideSeed | src/uscxml/interpreter/FastMicroStep.cpp:863-872 | A targeted history state's parent is kept exactly if a transition leads to it from inside that parent |
| MicroSteps.RememberLegal | src/uscxml/interpreter/FastMicroStep.cpp:842-861 | Records stay usable: each is empty or the legal part of a configuration below its parent |
| Stepping.StartLegal | src/uscxml/interpreter/FastMicroStep.cpp:694-702 | The first microstep of a fresh interpreter enters a legal configuration |
| Stepping.SelectionSetting | src/uscxml/interpreter/FastMicroStep.cpp:767-872 | Selecting, remembering and adding ancestors establish what the pass needs, for whatever is enabled |
| Stepping.SelectionLegal | src/uscxml/interpreter/FastMicroStep.cpp:767-1184 | A microstep leads from a legal configuration with usable history to another such |
| Stepping.StepSound | src/uscxml/interpreter/FastMicroStep.cpp:633-1204 | Every call of the step function keeps the configuration legal and the history usable |
| Stepping.RunsAreLegal | src/uscxml/interpreter/FastMicroStep.cpp:633-1204 | In every run from the pristine state, for every chart in order, whatever events, guards and cancellations come, the configuration is legal from the first microstep on (with parallel, history and `<initial>` elements, and however history masks overlap) |
| Gaps.PassExact | src/uscxml/interpreter/FastMicroStep.cpp:863-1053 | For every well-formed chart: the pass leads to a legal configuration if and only if it completes no gaping compound state (one whose initial state is no child and whose skipped states no later `<initial>` element brings in with all their regions), takes no gaping history default, and enters no history state of a kept parent without a record |
| Gaps.GapFatal | src/uscxml/interpreter/FastMicroStep.cpp:892-915 | A completion or a history default that leaves states out for good ends in an illegal configuration, whatever is entered afterwards |
| Gaps.StrandedFatal | src/uscxml/interpreter/FastMicroStep.cpp:892-919 | A history state entered below a kept parent with nothing recorded leaves that parent without an active child |
| Gaps.GapStepCompletes | src/uscxml/interpreter/FastMicroStep.cpp:955-974 | What a deep completion skips is brought in later if an `<initial>` element is met below it: with the missing states the set is as it should be |
| Exactness.SelectionExact | src/uscxml/interpreter/FastMicroStep.cpp:767-1053 | From a legal configuration a microstep leads to a legal one if and only if no selected transition enters a history state from inside its parent while nothing is recorded under its mask, and no gap is opened |
| Exactness.StartExact | src/uscxml/interpreter/FastMicroStep.cpp:694-702 | The first microstep leads to a legal configuration if and only if it opens no gap |
| Exactness.StepExact | src/uscxml/interpreter/FastMicroStep.cpp:633-1204 | One call keeps a stepper healthy (legal configuration, usable records) if and only if it does not go wrong in one of these ways |
| Exactness.RunsExact | src/uscxml/interpreter/FastMicroStep.cpp:633-1204 | A run of any well-formed chart is legal throughout if and only if none of its calls goes wrong |
| Exactness.SoundCharts | src/uscxml/interpreter/FastMicroStep.cpp:633-1204 | Every run is legal on every well-formed chart that has no gaping compound state or default and enters no history state from inside |
| Exactness.InOrderDoesNotGape | src/uscxml/interpreter/FastMicroStep.cpp:892-974 | Charts in order are among these |
| DefaultEntries.GapDecided | src/uscxml/interpreter/FastMicroStep.cpp:878-978 | Where the targets leave only proper states to default entry, a gap is opened if and only if one of these compound states names an initial state that is no child |
| DefaultEntries.PlainSelectionExact | src/uscxml/interpreter/FastMicroStep.cpp:767-1053 | So whether such a microstep stays legal is read off the chart and the targets before it is made |
| DefaultEntries.PlainStartExact | src/uscxml/interpreter/FastMicroStep.cpp:694-702 | ... and likewise for the first microstep |
| Stepping.EnteredConfiguration | src/uscxml/interpreter/FastMicroStep.cpp:1033-1053 | The entering loop adds exactly the proper states of the entry set |
| GeneratedTables.MeetsChildren | src/uscxml/interpreter/FastMicroStep.cpp:407-419 | A set closed upward meets the descendants of a state exactly if it meets its children |
| GeneratedTables.SameCompletes | apps/arduino/stateMachine.c:1143-1160 | The completion test gives the same answer on direct children as on all descendants, although the exit set is not closed upward |
| GeneratedTables.GeneratedAgrees | apps/arduino/stateMachine.c:1060-1165 | From any legal configuration both tables lead to the same next configuration, history and flags, for whatever is enabled |
| GeneratedTables.GeneratedRuns | apps/arduino/stateMachine.c:892-1238 | ... and whole runs on both tables coincide |
| DoneEvents.ClearUpExact | src/uscxml/interpreter/FastMicroStep.cpp:1141-1166 | Climbing from a finished region clears exactly the parallel states all of whose regions have been taken out |
| DoneEvents.RemainExact | src/uscxml/interpreter/FastMicroStep.cpp:1127-1173 | After the first states up to `k`, what remains is exactly what active final states below `k` have not covered; each XOR hits an intact subtree |
| DoneEvents.RemainDetects | src/uscxml/interpreter/FastMicroStep.cpp:1127-1177 | Nothing remains exactly if every region, pseudo-states counted, is finished |
| DoneEvents.DetectsExactly | src/uscxml/interpreter/FastMicroStep.cpp:1127-1177 | Counting pseudo-states makes a difference exactly if a parallel state in the tower has a history child or no child |
| DoneEvents.DoneEventsExact | src/uscxml/interpreter/FastMicroStep.cpp:1096-1184 | Entering a final state raises the done event of a parallel state if and only if this entry makes it finished (isInFinalState of Appendix D of the SCXML Recommendation) and no parallel state down to its regions has a history child or no child |
| DoneInSteps.DoneInMicroStep | src/uscxml/interpreter/FastMicroStep.cpp:1033-1184 | A whole microstep raises the done event of a parallel state exactly once if it is unfinished among the states that stay and finished in the configuration reached, under the same exact condition, and not at all otherwise |
| DoneInSteps.DoneInFirst | src/uscxml/interpreter/FastMicroStep.cpp:1033-1184 | ... and so does the first microstep |
| DoneInSteps.CompoundDone | src/uscxml/interpreter/FastMicroStep.cpp:1097-1106 | On any chart with right tables, a microstep raises the done event of a state that is not parallel as often as it enters final children of that state, and never that of the root |
| DoneInSteps.CompoundDoneInMicroStep | src/uscxml/interpreter/FastMicroStep.cpp:1097-1106 | From a legal configuration a microstep raises the done event of a compound state other than the root once if it enters a final child of it and not at all otherwise, and none of any state that is neither compound nor parallel |
| DoneInSteps.CompoundDoneInFirst | src/uscxml/interpreter/FastMicroStep.cpp:1097-1106 | ... and so does the first microstep |
| Interpreter.FastMicroStep.constructor | src/uscxml/interpreter/FastMicroStep.cpp:94-96 | A fresh interpreter is the pristine stepper |
| Interpreter.FastMicroStep.Step | src/uscxml/interpreter/FastMicroStep.cpp:633-1204 | One call updates configuration, history, invocations, flags and callback log exactly as the step on values, and keeps the configuration legal |
| Interpreter.FastMicroStep.SelectTransitions | src/uscxml/interpreter/FastMicroStep.cpp:767-812 | The loop over transitions computes the greedy selection |
| Interpreter.FastMicroStep.RememberHistory | src/uscxml/interpreter/FastMicroStep.cpp:842-861 | The loop over states records history in place |
| Interpreter.FastMicroStep.AddAncestors | src/uscxml/interpreter/FastMicroStep.cpp:866-872 | Visiting members of the growing set with find-next adds all ancestors |
| Interpreter.FastMicroStep.EstablishEntrySet | src/uscxml/interpreter/FastMicroStep.cpp:863-978 | The find-next loop over the growing set is the pass over all states |
| Interpreter.FastMicroStep.ExitStates | src/uscxml/interpreter/FastMicroStep.cpp:982-1003 | Exit handlers run innermost first and the states leave the configuration |
| Interpreter.FastMicroStep.TakeTransitions | src/uscxml/interpreter/FastMicroStep.cpp:1005-1025 | Content of normal transitions in table order |
| Interpreter.FastMicroStep.EnterStates | src/uscxml/interpreter/FastMicroStep.cpp:1033-1184 | Entering, data initialization, default transitions and done events, in order |
| Interpreter.FastMicroStep.RemainingBelow | src/uscxml/interpreter/FastMicroStep.cpp:1127-1173 | The temporary set after taking out the finished regions |
| Interpreter.FastMicroStep.ClearParallels | src/uscxml/interpreter/FastMicroStep.cpp:1141-1166 | The climb through parallel ancestors on the temporary set |
| Interpreter.FastMicroStep.ManageInvocations | src/uscxml/interpreter/FastMicroStep.cpp:714-738 | Uninvoke and invoke in document order; afterwards the invoked states are the active ones |
| Interpreter.FastMicroStep.Shutdown | src/uscxml/interpreter/FastMicroStep.cpp:657-692 | Exit handlers and uninvocations, innermost first |
| Interpreter.FastMicroStep.MarkAsCancelled | src/uscxml/interpreter/FastMicroStep.cpp:629-631 | Cancelling changes nothing else |
| Initialization.Relations | src/uscxml/interpreter/FastMicroStep.cpp:397-419 | Walking up from every state fills in all ancestors and all descendants |
| Initialization.ProperAncestors | src/uscxml/util/Predicates.cpp:120-145 | The list of ancestors, nearest first |
| Initialization.FindLcca | src/uscxml/util/Predicates.cpp:72-109 | The scan over ancestors finds the nearest compound with all states below |
| Initialization.TransitionDomain | src/uscxml/util/Predicates.cpp:275-295 | The loop computes the domain of a transition |
| Initialization.ExitSet | src/uscxml/util/Predicates.cpp:147-171 | The exit set is every proper state below the domain, empty without targets |
| Initialization.ConflictMatrix | src/uscxml/interpreter/FastMicroStep.cpp:505-527 | Filling one half and mirroring the other gives the whole symmetric conflict matrix |
| Initialization.Init | src/uscxml/interpreter/FastMicroStep.cpp:397-527 | From parents, kinds and targets, initialization builds ancestors, descendants, domains, exit sets and the conflict matrix (completions and the sorted order of the states are given) |
| Invocations.InvocationsAlternate | src/uscxml/interpreter/FastMicroStep.cpp:657-738 | In every run invoke and uninvoke strictly alternate for every state, starting with invoke, and the books agree |
| Invocations.StablePoints | src/uscxml/interpreter/FastMicroStep.cpp:714-765 | At every stable point exactly the active states are invoked; once FINISHED is returned nothing is |
| HandlerOrder.MicroStepOrder | src/uscxml/interpreter/FastMicroStep.cpp:982-1072 | A microstep runs each exit handler once, children before parents, and each entry handler once, parents before children, and no others |
| ContentOrder.MicroStepContent | src/uscxml/interpreter/FastMicroStep.cpp:982-1095 | The content of a microstep, in this order: exit handlers of the states left, innermost first; content of the selected transitions in table order; for each state entered in document order its data if new, its entry handler, and the content of the default transitions taken below it |
| ContentOrder.SelectionContent | src/uscxml/interpreter/FastMicroStep.cpp:767-1095 | ... for every step that selects transitions |
| ContentOrder.FirstContent | src/uscxml/interpreter/FastMicroStep.cpp:694-702 | ... and for the first microstep, which leaves nothing and takes no normal transition |
| ContentOrder.ContentExact | src/uscxml/interpreter/FastMicroStep.cpp:1005-1095 | On charts in order, the content of every selected transition and of every default transition taken runs exactly once in the step, that of no other transition runs, and a state's data is initialized exactly once, if it is entered and never was before |
| ContentOrder.ExpectedTimes | src/uscxml/interpreter/FastMicroStep.cpp:1005-1095 | ... in the expected content of any chart a default transition's runs once exactly if the state above its pseudo-state is entered |
| ContentOrder.ExpectedOrder | src/uscxml/interpreter/FastMicroStep.cpp:1005-1025 | Content of a selected transition runs behind every exit handler, before every entry handler, all data and all default content, and in table order |
| ContentOrder.ExpectedFollows | src/uscxml/interpreter/FastMicroStep.cpp:1066-1094 | Content of a default transition runs behind the entry handler of the state above its pseudo-state and before that of any later state |
| ContentOrder.GeneratedContent | apps/arduino/stateMachine.c:1170-1233 | A microstep of generated code runs the same content in the same order |
| ContentOrder.GeneratedSelectionContent | apps/arduino/stateMachine.c:978-1233 | ... and so does a generated step that selects transitions |
| Endings.MicroStepEnds | src/uscxml/interpreter/FastMicroStep.cpp:1096-1103 | A microstep decides to stop exactly if it enters a final child of the root |
| Endings.FinishesExactly | src/uscxml/interpreter/FastMicroStep.cpp:654-765 | A call of a run finishes if a final child of the root is active and otherwise only if the run was cancelled; a cancellation is reported only if there was one, the machine is stable, no event is left, and no such child is active |
| Endings.CancelEnds | src/uscxml/interpreter/FastMicroStep.cpp:756-760 | A cancelled run that is stable and has no event left reports the cancellation, in the same configuration, and the next call finishes |
| Endings.LastCall | src/uscxml/interpreter/FastMicroStep.cpp:657-690 | The call that finishes leaves every active state and ends every invocation, each once and nothing else, from the inside out; later calls do nothing |
| Endings.ShutdownExact | src/uscxml/interpreter/FastMicroStep.cpp:657-690 | What is run on the way out, and in which order |
| Histories.HistoryIsLastLeft | src/uscxml/interpreter/FastMicroStep.cpp:842-861 | Where history states of different parents cover different states, the record is, over whole runs, the configuration under the mask just before the parent was last left, or empty |
| Histories.HistoryRestores | src/uscxml/interpreter/FastMicroStep.cpp:916-919 | Entering a history state makes exactly the record active below its parent: the recorded children if shallow, the whole recorded part if deep |
| Histories.HistoryDefaults | src/uscxml/interpreter/FastMicroStep.cpp:892-915 | Without a record its default transition is taken and the default targets are entered |
| Histories.TargetedHistory | src/uscxml/interpreter/FastMicroStep.cpp:889-938 | A selected transition to a history state, from outside or with a record from inside, makes exactly the record active under its mask; without one the default targets are entered |
| Snapshots.Restored | src/uscxml/interpreter/FastMicroStep.cpp:98-135 | Written as text and read back, the four bit sets are those saved, and the saved invocations are issued again |
| Snapshots.StableIsAtRest | src/uscxml/interpreter/FastMicroStep.cpp:740-765 | Every idle or macrostepped point of a run that has not been cancelled is at rest |
| Snapshots.RestoredRun | src/uscxml/interpreter/FastMicroStep.cpp:98-135 | Restored from rest, the stepper shows one extra stable configuration and then exactly what the original shows under all later events |
| Snapshots.SavedRun | src/uscxml/interpreter/FastMicroStep.cpp:98-135 | ... for any idle or macrostepped point of any run |
| Snapshots.SavedFinished | src/uscxml/interpreter/InterpreterImpl.cpp:229-230 | A finished interpreter may be saved as well, but restored it invokes its active states again and goes on instead of staying finished |
| Snapshots.ReinvokePhase | src/uscxml/interpreter/FastMicroStep.cpp:112-123 | The invocations issued again put every state where the books say it stands |
| Configurations.GetAllConfigurations | src/uscxml/debug/InterpreterIssue.cpp:52-105 | Returns exactly the legal configurations of the subtree, each once, without the document element; their number is the sum over children for compounds and the product over regions for parallels |
| Configurations.Product | src/uscxml/debug/InterpreterIssue.cpp:69-85 | Combining two lists of configurations of disjoint regions pairs them all, once |
| Configurations.JoinParts | src/uscxml/debug/InterpreterIssue.cpp:69-94 | Configurations of all regions of a parallel state join to one of the state |
| Configurations.SplitParallel | src/uscxml/debug/InterpreterIssue.cpp:69-85 | A legal configuration of a parallel state splits into legal ones of its regions, uniquely |
| Configurations.SplitCompound | src/uscxml/debug/InterpreterIssue.cpp:86-94 | A legal configuration of a compound state is one of exactly one child, with the state |
| Reachable.ChartInhabited | src/uscxml/debug/InterpreterIssue.cpp:52-105 | In a chart in order every compound state has a proper child, as the enumeration needs |
| Reachable.ReachableIsListed | src/uscxml/debug/InterpreterIssue.cpp:52-105 | Every configuration of every run is in the list |
| GeneratedCode.GeneratedCodeRefines | apps/arduino/stateMachine.c:892-1238 | Every run of the generated step function is a run of the interpreter: after every call the same configuration, history, invocations and flags, and the same callbacks in the same order, done events and stability reports aside |
| GeneratedLegality.GeneratedCodeIsLegal | apps/arduino/stateMachine.c:892-1238 | In every run generated code keeps its configuration legal, also where initial states lie deeper than a child and where its top-level-final test is wrong |
| GeneratedCode.DequeueRefines | apps/arduino/stateMachine.c:944-1023 | One call that goes on taking events until a transition is found does what several interpreter calls do |
| GeneratedCode.CRunWithin | apps/arduino/stateMachine.c:892-1215 | On no table and in no run is anything but a state ever recorded: bits at or beyond the number of states stay clear |
| GeneratedCode.GarbageExits | apps/arduino/stateMachine.c:934-942 | The exit set is not written before the first microstep, and that makes no difference |
| GeneratedCode.ClimbAdds | apps/arduino/stateMachine.c:1061-1069 | Adding ancestors in place, in document order, adds all of them |
| GeneratedCode.FirstByteExact | apps/arduino/stateMachine.c:1240-1243 | The top-level-final test on one byte is right if and only if the final state is a child of the root or has another ancestor among the first eight states |
| GeneratedLegality.FirstByteRuns | apps/arduino/stateMachine.c:1240-1243 | On a chart in order whose ninth state holds a final state the first call ends the generated program and not the interpreter |
| ByteSets.BitHas | apps/arduino/stateMachine.c:97 | The macro is membership |
| ByteSets.BitSetAt | apps/arduino/stateMachine.c:98 | The macro adds one member |
| ByteSets.BitClear | apps/arduino/stateMachine.c:99 | The macro removes one member |
| ByteSets.BitHasAnd | apps/arduino/stateMachine.c:822-828 | True exactly if the sets meet |
| ByteSets.BitClearAll | apps/arduino/stateMachine.c:834-838 | Leaves the empty set |
| ByteSets.BitOr | apps/arduino/stateMachine.c:854-858 | Union in place |
| ByteSets.BitCopy | apps/arduino/stateMachine.c:864-868 | Copy |
| ByteSets.BitAndNot | apps/arduino/stateMachine.c:873-877 | Difference in place |
| ByteSets.BitAnd | apps/arduino/stateMachine.c:882-886 | Intersection in place |
| GeneratedMachine.SelectTransitions | apps/arduino/stateMachine.c:978-1015 | Selection on byte arrays is the greedy selection on sets |
| GeneratedMachine.RememberHistory | apps/arduino/stateMachine.c:1040-1058 | History on byte arrays |
| GeneratedMachine.AddDescendants | apps/arduino/stateMachine.c:1071-1165 | The switch over the growing bit set is the pass on sets |
| GeneratedMachine.ResolveHistoryState | apps/arduino/stateMachine.c:1080-1126 | History states on byte arrays |
| GeneratedMachine.ResolveInitialState | apps/arduino/stateMachine.c:1128-1142 | Initial pseudo-states on byte arrays |
| GeneratedMachine.ResolveCompoundState | apps/arduino/stateMachine.c:1143-1160 | Compound states on byte arrays, deep completion included |
| GeneratedMachine.Context.Step | apps/arduino/stateMachine.c:892-1238 | One call on the byte arrays is one call on sets, for every machine that fits the declared array sizes |
| GeneratedMachine.Context.ExitStates | apps/arduino/stateMachine.c:1170-1181 | Exiting on byte arrays |
| GeneratedMachine.Context.EnterStates | apps/arduino/stateMachine.c:1201-1243 | Entering on byte arrays |
| GeneratedMachine.Context.ManageInvocations | apps/arduino/stateMachine.c:953-966 | Invocations on byte arrays |
| GeneratedMachine.Context.Shutdown | apps/arduino/stateMachine.c:913-932 | Exiting all remaining states |
| GeneratedMachine.RunProgram | apps/arduino/stateMachine.c:892-1238 | A run on byte arrays is a run on sets: it ends in a legal configuration, and on charts in order the callbacks are the interpreter's |
| DeepInitials.GeneratedDeepLegal | apps/arduino/stateMachine.c:1143-1160 | With direct children listed a microstep keeps the configuration legal however deep the initial states lie |
| DeepInitials.GeneratedCompletion | apps/arduino/stateMachine.c:1143-1160 | Generated code adds the initial state together with everything between it and the compound state |
| DeepInitials.DeepInitialGap | src/uscxml/interpreter/FastMicroStep.cpp:955-974 | A run on a chart whose `initial` attribute names a grandchild: the first call enters it without its parent |
| DeepInitials.DeepInitialHealed | src/uscxml/interpreter/FastMicroStep.cpp:940-953 | A run on a chart with such an attribute that stays legal, since an `<initial>` element below brings in what was skipped |
| Examples.PlayerOk | src/uscxml/interpreter/FastMicroStep.cpp:633-1204 | The assumptions made about charts can be met: a chart with history and parallel states and its tables |
| Examples.HistoryFromInside | src/uscxml/interpreter/FastMicroStep.cpp:889-938 | A run, from the start, on which a transition to a history state from inside its parent leaves that parent without an active child, as nothing is recorded yet |
| Examples.HistoryFromInsideRecorded | src/uscxml/interpreter/FastMicroStep.cpp:916-919 | The same transition keeps the configuration legal once something is recorded |
| Examples.LooperWellFormed | src/uscxml/interpreter/FastMicroStep.cpp:889-938 | That chart is well formed and differs from a chart in order in this transition only |
| Examples.HistoryDefaultGap | src/uscxml/interpreter/FastMicroStep.cpp:899-909 | A run on which a deep history state with two default targets leaves out the parent of the second |
| Rotation.PermuteArgs | contrib/src/getopt/getopt.c:157-187 | The two blocks are exchanged, each in its order, and nothing else changes |
| Rotation.Gcd | contrib/src/getopt/getopt.c:137-150 | The loop computes the greatest common divisor |
| Rotation.CycleLength | contrib/src/getopt/getopt.c:164-170 | Every cycle has total/gcd places |
| Rotation.VisitsDiffer | contrib/src/getopt/getopt.c:172-186 | A cycle visits no place twice, and two cycles never meet |
| Rotation.CycleCovers | contrib/src/getopt/getopt.c:172-186 | Together the cycles visit every place |
| Rotation.RunCycle | contrib/src/getopt/getopt.c:172-186 | One cycle of swaps delivers every element on it |
| Getopt.Scanner.Next | contrib/src/getopt/getopt.c:359-513 | One call returns the plan's next code and `optarg`, keeps what was skipped in one block in order, and the vector a permutation; at the end options, skipped arguments and the rest stand in order with `optind` at the first non-option, unless a last dash stopped it |
| Getopt.ReadAll | contrib/src/getopt/getopt.c:359-513 | Reading all options returns exactly the plan's codes, each with its `optarg`, and the arguments end up sorted if and only if no cluster ended in a dash that is no option, or nothing was skipped; with a table of long options they always do |
| Getopt.Scanner.Permute | contrib/src/getopt/getopt.c:398-407 | The skipped block moves behind the options after it |
| Getopt.Scanner.Finish | contrib/src/getopt/getopt.c:362-379 | At the end of the vector or at `--` |
| Getopt.Scanner.ReadOption | contrib/src/getopt/getopt.c:441-455 | Long options |
| Getopt.Scanner.ReadShort | contrib/src/getopt/getopt.c:457-512 | Short options in a cluster: the plan's next code and `optarg`, and what is used up of the vector |
| Getopt.PlainLetter | contrib/src/getopt/getopt.c:489-494 | A letter with no colon behind it in the option string is reported alone, and the rest of the cluster is read as options |
| Getopt.RequiredLetter | contrib/src/getopt/getopt.c:489-509 | A letter with exactly one colon takes the rest of its argument, or else the next argument, which is kept; at the end of the vector the missing argument is reported, as a colon if the option string begins with one |
| Getopt.OptionalLetter | contrib/src/getopt/getopt.c:491-510 | A letter with two colons takes the rest of its argument if there is one and never the next argument |
| Getopt.UnknownLetter | contrib/src/getopt/getopt.c:457-473 | A letter that is not in the option string, a colon, and a dash inside a cluster are reported as unknown, and the rest of the cluster is read on |
| Getopt.ArgumentKinds | contrib/src/getopt/getopt.c:380-433 | Arguments not beginning with a dash, and a single dash that is no option, are skipped; two dashes end the options; everything else is read as options |
| Getopt.PermutationOfParts | contrib/src/getopt/getopt.c:359-433 | However far scanning has come, the vector is a permutation of the original |
| Getopt.MarkedPermutes | contrib/src/getopt/getopt.c:359-433 | Kept and skipped arguments together are all of them |
| Getopt.Scanner.Skip | contrib/src/getopt/getopt.c:380-411 | A non-option joins the block, which moves up to it first |
| Getopt.Scanner.Advance | contrib/src/getopt/getopt.c:491-509 | Using up an argument, and the next one for its value |
| Getopt.LastDash | contrib/src/getopt/getopt.c:457-466 | A concrete vector on which scanning stops behind the option with the skipped argument still in front of it |
| Getopt.LastDashOnly | contrib/src/getopt/getopt.c:457-466 | Scanning is given up only without a table of long options, if a dash is no option, at an argument of more than two characters that begins and ends with a dash |
| Base64.EncodeChunks | src/uscxml/util/Base64.c:105-164 | Coding in two blocks with carried state is coding in one |
| Base64.DecodeChunks | src/uscxml/util/Base64.c:25-87 | Decoding in two blocks with carried state is decoding in one |
| Base64.RoundTrip | src/uscxml/util/Base64.c:25-187 | What is coded and closed decodes to itself, with or without the final line break |
| Base64.EncodeIsLined | src/uscxml/util/Base64.c:105-187 | The text is the groups of section 4 of RFC 4648, padded, with a line break after every 18 whole groups |
| Base64.LineBreaks | src/uscxml/util/Base64.c:155-160 | Line breaks stand exactly at every 73rd place |
| Base64.Padding | src/uscxml/util/Base64.c:166-187 | Equals signs stand only at the end, one for every byte the last group lacks |
| Base64.Alphabet | src/uscxml/util/Base64.c:89-97 | The digits are those of table 1 in RFC 4648 |
| Base64.GroupSextets | src/uscxml/util/Base64.c:124-154 | The digits of a group are the sextets of its 24 bits |
| Base64.DigitInverse | src/uscxml/util/Base64.c:10-17 | Every digit decodes to its value |
| Base64.Encoder.EncodeBlock | src/uscxml/util/Base64.c:105-164 | The loop entered at the noted label, control falling through from label to label, does one step of the state per byte |
| Base64.Encoder.EncodeBlockEnd | src/uscxml/util/Base64.c:166-187 | Closing a text |
| Base64.Decoder.DecodeBlock | src/uscxml/util/Base64.c:25-87 | The decoder's loop entered at the noted label, fillers skipped at each label |
| Base64.Base64Encode | src/uscxml/util/Base64.hpp:16-38 | One call on all data, without the final line break; any decoder gets the data back |
| BitStrings.BitStringRoundTrip | src/uscxml/interpreter/FastMicroStep.cpp:600-627 | A bit set with its appended length word is read back, for every length that fits a block |
| BitStrings.SetRoundTrip | src/uscxml/interpreter/FastMicroStep.cpp:600-627 | A set of states survives being written and read |
| BitStrings.WordRoundTrip | src/uscxml/interpreter/FastMicroStep.cpp:603-606 | A number survives as the bytes of a block |
| BitStrings.BlocksRoundTrip | src/uscxml/interpreter/FastMicroStep.cpp:600-625 | The blocks hold exactly the bits |
| WebSocket.ReceiveChunks | contrib/src/evws/evws.c:336-453 | However a byte stream is cut into reads, the same frames come out and the same state is left, for all streams |
| WebSocket.DecodesReference | contrib/src/evws/evws.c:336-453 | Decoding byte by byte is collecting bytes until they are a whole frame of section 5.2 of RFC 6455, unmasked as in section 5.3; an empty frame comes out with the byte after it |
| WebSocket.StreamDecodes | contrib/src/evws/evws.c:336-453 | Well-formed frames sent one after the other come out in order with their payloads; only an empty last one is held back |
| WebSocket.WireParses | contrib/src/evws/evws.c:336-441 | A frame on the wire is one whole frame and reads as itself, masked or not, with any length form |
| WebSocket.SentExact | contrib/src/evws/evws.c:455-493 | Decoding what the server sends gives the same opcode and payload if and only if the message has 1 to 65535 bytes |
| WebSocket.LongIsCut | contrib/src/evws/evws.c:479-490 | From 65536 bytes on the first frame that comes out ends early |
| WebSocket.Connection.ReadFrame | contrib/src/evws/evws.c:336-453 | One buffer, taken in stage by stage in bulk, has the effect of its bytes one by one |
| WebSocket.Connection.ReadPayload | contrib/src/evws/evws.c:413-433 | The payload loop with its running mask index |
| WebSocket.Send | contrib/src/evws/evws.c:455-493 | The bytes sent |
| Tries.Trie.AddWord | src/uscxml/transform/Trie.cpp:76-100 | Adding a word keeps the index in order with one word more |
| Tries.Trie.GetNodeWithPrefix | src/uscxml/transform/Trie.cpp:102-119 | The node at the prefix's tokens, or none if no path extends them |
| Tries.Trie.GetChildsWithWords | src/uscxml/transform/Trie.cpp:132-146 | Every node with a word at or below, each once |
| Tries.Trie.GetWordsWithPrefix | src/uscxml/transform/Trie.cpp:121-130 | One node for every class of token-equal words that extend the prefix, each once, with the spelling added first |
| Tries.FirstsRepresent | src/uscxml/transform/Trie.cpp:94-99 | Every added word has exactly one representative |
| Tries.FirstsEarliest | src/uscxml/transform/Trie.cpp:94-99 | ... and it is the spelling added first |
| Tries.TokensArePieces | src/uscxml/transform/Trie.cpp:49-68 | Tokens are not empty and contain no separator |
| Tries.TokensOfJoined | src/uscxml/transform/Trie.cpp:49-68 | Splitting undoes joining: the tokens of pieces put together with separators are the pieces that are not empty, whatever separators lead, trail or are doubled |
| Tries.PiecesOf | src/uscxml/transform/Trie.cpp:49-68 | Every word consists of such pieces |
| Tries.TokenEqual | src/uscxml/transform/Trie.cpp:49-68 | Two words count as one if and only if they have the same non-empty pieces |
| Tries.TokensOfCharacters | src/uscxml/transform/Trie.cpp:49-68 | Without a separator every character is a token |
| Tries.Trie.NodeFor | src/uscxml/transform/Trie.cpp:76-93 | The walk that makes missing nodes ends at the word's path |
| Jsmn.TokensNest | contrib/src/jsmn/jsmn.c:134-245 | On success every token is closed, starts increase, any two tokens are nested or apart, and every container's size is the number of tokens whose innermost container it is |
| Brackets.AcceptsExactly | contrib/src/jsmn/jsmn.c:134-245 | With enough room a text is accepted if and only if its brackets match, read with a stack of open brackets instead of the token table, and its strings and primitives end; otherwise it is refused with the error of the first thing wrong |
| Jsmn.EnoughRoom | contrib/src/jsmn/jsmn.c:8-21 | As many tokens as characters are always enough |
| Jsmn.MoreRoom | contrib/src/jsmn/jsmn.c:134-245 | With more room the result is the same unless room was the problem |
| Jsmn.Parser.Parse | contrib/src/jsmn/jsmn.c:134-245 | The parser on its token array computes that result |
| Jsmn.Parser.ParseString | contrib/src/jsmn/jsmn.c:82-129 | Strings with their escapes |
| Jsmn.Parser.ParsePrimitive | contrib/src/jsmn/jsmn.c:37-77 | Primitives in the non-strict mode |
| Jsmn.Parser.CloseContainer | contrib/src/jsmn/jsmn.c:160-203 | The searches for the last open token |
| Json.RetryIsEnough | src/uscxml/messages/Data.cpp:107-119 | The retries end with enough tokens, so their outcome is that of unlimited room |
| Json.TokenizeText | src/uscxml/messages/Data.cpp:107-119 | The retry loop |
| Json.BuildData | src/uscxml/messages/Data.cpp:145-193 | The loop over tokens with its two stacks |
| Json.ReadJSON | src/uscxml/messages/Data.cpp:75-196 | Reading a text |
| Json.Writer.ToJSON | src/uscxml/messages/Data.cpp:208-276 | Writing with indentation and padded keys |
| Json.JsonEscape | src/uscxml/messages/Data.cpp:332-361 | The escaper |
| Json.JsonUnescape | src/uscxml/messages/Data.cpp:278-330 | The unescaper with its flag |
| JsonRoundTrip.UnescapeEscape | src/uscxml/messages/Data.cpp:278-361 | Escaping is undone for strings without vertical tab and NUL |
| JsonRoundTrip.ScanValue | contrib/src/jsmn/jsmn.c:134-245 | Tokenizing a written value gives exactly its tokens in place if it is clean, and an error if not |
| JsonRoundTrip.TextTokenizes | src/uscxml/messages/Data.cpp:107-145 | ... for a whole text, through the retries |
| JsonRoundTrip.BuildValue | src/uscxml/messages/Data.cpp:145-193 | From the tokens of a value the stacks rebuild the value and are left as they were |
| JsonRoundTrip.RoundTrip | src/uscxml/messages/Data.cpp:75-361 | Non-empty compounds of quoted strings and primitives are read back from their JSON as they were if and only if no key and no quoted string holds a vertical tab or a NUL; otherwise reading fails with an error |
| JsonAtoms.AtomRead | src/uscxml/messages/Data.cpp:75-98 | Text that opens no compound behind its blanks is read as an atom, blanks included, and as a number if and only if only digits, points and minus signs come before the first NUL |
| JsonAtoms.BlankRead | src/uscxml/messages/Data.cpp:75-90 | Blank text is read as the default |
| JsonAtoms.EscapeRead | src/uscxml/messages/Data.cpp:278-330 | After any text without backslashes an escape stands for one character: the control characters of section 7 of RFC 8259 for b, t, n, f and r, the escaped character itself for every other, so `\u` is no more than a letter |
| JsonAtoms.OpenEscape | src/uscxml/messages/Data.cpp:278-330 | A backslash at the end is dropped |
| JsonAtoms.EscapedIsSafe | src/uscxml/messages/Data.cpp:332-361 | Escaped text holds none of the control characters 8 to 13 and no quotation mark without a backslash before it |

## Left out

- Interpreter.FastMicroStep.Step: leaves out monitors, logging, the warning about running in circles and the cache files; exceptions of callbacks are swallowed in the original and do not appear.
- Interpreter.FastMicroStep.EnterStates: early and late data binding are not told apart; data of a state is initialized when it is first entered.
- Stepping.RunsAreLegal: charts that are well formed but not in order, for which `Exactness.RunsExact` says when they stay legal.
- Exactness.RunsExact: charts that combine history states entered from inside their parent with a deep history state around another parent's history state, whose records may mix.
- Histories.HistoryIsLastLeft: history masks of different parents that overlap, for which only usability of the record is proved (`MicroSteps.RememberLegal`).
- Initialization.Init: completions and the order of the states are inputs; reading them from the document is not part of the model.
- GeneratedCode.GeneratedCodeRefines: charts on which the one-byte test for top-level final states errs, and charts that are not in order, on which interpreter and generated code differ; done events are not compared, since generated C looks only at states entered so far.
- GeneratedMachine.Context.Step: does not model raising done events, error codes returned by handlers, absent queue callbacks or states marked as having nested histories.
- Snapshots.SavedRun: the state of the event queues is not part of the saved bit sets.
- Configurations.GetAllConfigurations: the document element is a compound state; a document element of another kind is not part of the model.
- Getopt.Scanner.Next: does not state the error messages, and the table of long options is a function from names to answers; `-W`, leading `-` and `+` in the option string and POSIXLY_CORRECT are not part of the model.
- Getopt.ReadAll: the in-argument text already scanned is kept as a string rather than a pointer into the vector.
- Base64.Encoder.EncodeBlock: output is a sequence; the caller's buffer, its size and the partial byte kept in it are not modelled.
- WebSocket.Connection.ReadFrame: reading from the socket, allocation of the payload buffer and the handshake.
- Tries.Trie.GetWordsWithPrefix: the order of the result, which depends on addresses in the original, and the escaped identifiers of nodes.
- Tries.Trie.AddWord: nodes are places in a table rather than separate objects.
- Json.BuildData: arrays are recognized and reported, not built; a pointer on the data stack is modelled as a value that is written back when it is popped, and texts whose objects hold objects without a key, for which the original runs past the bottom of a stack, are reported as undefined.
- Json.Writer.ToJSON: arrays, DOM nodes and binary data.
- Jsmn.Parser.Parse: the variants compiled with JSMN_STRICT or JSMN_PARENT_LINKS, and the parser's position after an error.
- DOM and URL handling, data models, plugins, the HTTP server, the debugger, timers of delayed events, the other code generators and the number formatting helpers.
