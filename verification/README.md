# A verified model of Splitbrain's checker, stores and fault schedules

Splitbrain records what clients saw while it broke the network under a small
key-value store, and then asks whether any single order of the operations could
explain it. This project models the code that answers that question, the code
that produces the histories, and the code that decides what to break, and
proves what each of them promises.

**The specification** (`History`, `Model`, `Registers`, `Linearization`). A history is a
sequence of operations with an interval each. An order is a linearization when
it holds exactly the operations of the history, no operation comes after one it
precedes in real time (`complete <= invoke`), and the register accepts every
operation in turn. The registers in turn are measured against an independent rule: every
answer is about what was put last. Everything below is measured against this definition.

**The search** (`Timeline`, `Layout`, `Machine`, `MachineInvariant`,
`MachineResult`, `SearchTheorems`, `SearchCost`). The Wing-Gong/Lowe search as a
deterministic machine over a fixed order of endpoints, with its invariant: every
remembered configuration is either on the stack or exhausted. From it follow
exactness, soundness of the prune, maximality of the culprit, termination, cost,
and what budgets can and cannot change.

**The search on the heap** (`EntryList`, `ListInvariant`, `Bitset`, `Cache`,
`SearchSteps`, `Search`). The same search as the program runs it: entries with
real `prev` and `next` pointers spliced out and back in, a bitset changed in
place, a cache of buckets under an arbitrary hash, a stack of entries. The method
is proved to return what the machine returns, so all of the above holds of it.

**Around the search** (`KeySearch`, `Budgets`, `BruteForce`, `Truncating`, `Minimise`,
`Pairs`, `Validity`, `Slicing`, `Sorting`, `Workers`, `Locality`, `Check`,
`Wire`). The one-sided fast path, the brute-force oracle, the minimisation by
cutting in time, the validity rules, the workers that search keys side by side,
locality, the whole call, and the on-disk form.

**The stores** (`Store`, `Client`, `Forward`, `Runs`, `Recordings`, `Promotion`,
`Quorum`). The leader, the forwarding follower and the client's three-way rule as
a transition system in which requests and replies are lost, delayed, refused, and
applied late; every history it records linearizes unless a follower was provoked
into promoting itself. The replicated store converges under loss, duplication and
reordering.

**The schedules** (`Faults`, `Partitions`, `Generators`). The builders of fault
timelines, for every stream of random numbers.

What the program does not control is arbitrary in the model: the clock may be past
the deadline at any reading, any worker may go on next, any hash may be computed, any
numbers may be drawn, any message may be lost or come late.

## What came out differently from what the source says

- `Options.MaxVisits` is documented as a cap on the transitions of each key, beyond
  which the verdict is Unknown and never a pass (internal/checker/checker.go:62-64).
  The operations the fast path appends are not counted against it (675-682). Where the
  ceiling on memory leaves room for as many operations as the budget allows transitions,
  `Budgets.CapHoldsIff` says when it is a cap: exactly for keys on which every operation
  got an answer. For every other number of them, and every budget,
  `Budgets.CapIsExceeded` is a valid key that exceeds the budget by just that number and
  passes. Under any ceiling and any clock, so does a key with more operations without
  an answer than the budget allows (`Budgets.CapIsExceededAnyway`). `KeySearch.KeyCost`
  is the bound that always holds.
- `Options.Timeout` is documented in the same way (66-68). `Budgets.LateClockIff`: with a
  clock past the deadline from the start a key is undecided exactly if something on it
  was answered, or an operation is refused when all are applied in turn. Otherwise it
  passes, because nothing is searched and the clock is never read.
- `Validate` accepts indeterminate operations invoked at the largest timestamp
  (internal/history/history.go:457-460). Two of them on one key precede each other, so
  no order exists (`Validity.TwoAtTheEnd`), and yet they can pass the search as well as
  the fast path (`Validity.ValidateAcceptsACollision`, `Budgets.LateWritesPass` for any
  number of them). Nothing is assumed about them: every refusal is true, and a pass is
  true exactly when there are not two of them on a key (`Check.VerdictIsTrue`,
  `Budgets.TruthfulIff`).
- With one such operation the moment after the latest event overflows
  (internal/checker/checker.go:846), and the minimisation looks at the history without
  it. `Minimise.Minimise` says what it then reports. To the compare-and-swap register
  the operation makes no difference (`Minimise.LateCallsAreHarmless`), to the plain one
  exactly if it is a compare-and-swap (`Minimise.LateSwapsAreNot`,
  `Minimise.LateCallMattersIff`); then `Check.EndOfTimeMisleads` is a valid history that
  is refused and of which nothing at all is reported as the smallest failing part.
- Zero-width operations are refused per key only. `Check.SharedInstantPasses` is a valid
  history that passes though no one order explains all of it; `Locality.KeysDecide` and
  `Check.PassWithoutGlobalOrder` say exactly when that happens.
- The first failing cut is not the event time the binary search ends at: already
  the moment right after the event before it fails. What is returned is the same
  history either way. `Minimise.Minimise` states the exact moment: the cut at t
  linearizes if and only if t is at or before one event, and the result is the cut
  right after that event.
- Widening completions by a clock tick keeps recorded precedence true
  (`Client.CompletionIsSafe`), but a client does not wait for the tick to pass.
  `Recordings.RecordedIsValidIff` says exactly which runs record a history that
  `Validate` accepts, and `Recordings.ImpatientRun` is a run without any fault, for
  every granularity of the clock, whose history it refuses.
- A partition of the nodes is drawn by tossing coins until the outcome is neither none
  nor all (internal/harness/topology.go:278-288), which for some streams never ends
  (`Faults.Rng.ConstantIsNotFair`). The theorems about it hold for every stream on which
  each such draw ends (`Faults.Rng.Fair`; `Faults.Rng.AlternatingIsFair` is one). The
  other generators ask nothing of the stream.

## Model

| member | source | states |
|---|---|---|
| `History.CollidingMeansInstants` | internal/history/history.go:467-491 | among ordered operations, two precede each other exactly when both are instants at the same moment, which is how `Validate` looks for them |
| `Model.RegistersForgive` | internal/model/model.go:67-97 | an accepted operation, once its answer is forgotten, has the same effect and is accepted in every state |
| `Model.StepStaysInStates` | internal/model/model.go:67-97 | registers only ever hold the initial value or one some operation puts there, which bounds what a search can remember |
| `Registers.RegisterHoldsLastPut` | internal/model/model.go:67-97 | the register accepts answered operations in this order exactly when every read observed, and every compare-and-swap reports about, the value of the last write or successful swap before it |
| `Registers.UnansweredDoesTheSame` | internal/model/model.go:67-97 | an operation without an answer is accepted, and does what it does with the right one |
| `Registers.PlainLinearizesIff` | internal/model/model.go:131-137 | a history linearizes for the plain register exactly when it does for the other and holds no compare-and-swap |
| `Registers.AnsweredLinearizesIff` | internal/model/model.go:67-97 | with answers to everything, a history linearizes exactly when some order of it respects real time and every answer is about what was put last, or zero |
| `Linearization.LayoutIndependent` | internal/history/history.go:163-165 | whether an order exists does not depend on the order in the slice |
| `Linearization.CollectRespectsRealTime` | internal/checker/checker.go:853-868 | dropping operations or widening intervals keeps an order within real time |
| `Layout.LessIsTotal` | internal/checker/checker.go:422-435 | the endpoint order is a strict total order |
| `Layout.LessIsRealTime` | internal/checker/checker.go:407-435 | an operation's return is laid before another's call exactly when the first precedes the second; of two that precede each other the first in the slice is laid first |
| `Layout.CallBeforeReturn` | internal/checker/checker.go:391-420 | a call is laid before its own return, also when both happen at once |
| `Layout.LaidIsValid` | internal/checker/checker.go:439-458 | sorting the endpoints yields a timeline that agrees with real time, and has chosen between operations that precede each other |
| `Timeline.Timeline.MinimalIsEarly` | internal/checker/brute.go:65-75 | an operation nothing outstanding precedes has its call before every remaining return |
| `Timeline.Timeline.EarlyIsMinimal` | internal/checker/checker.go:741-757 | and conversely the calls before the first remaining return are exactly those operations |
| `EntryList.UnlinkRemoves` | internal/checker/checker.go:469-478 | bypassing a listed entry leaves a well-formed list of the others, in order |
| `EntryList.LiftLinks` | internal/checker/checker.go:469-478 | lifting a call and its return leaves the list of all other entries and both of them knowing where they belong |
| `EntryList.UnliftLinks` | internal/checker/checker.go:484-492 | unlifting puts both back where they were |
| `EntryList.UnliftUndoesLift` | internal/checker/checker.go:460-492 | unlift after lift restores every pointer of every entry, adjacent pairs included |
| `EntryList.CallFirstAgrees` | internal/checker/checker.go:480-492 | putting the call back first restores the same list |
| `EntryList.Entry.Lift` | internal/checker/checker.go:469-478 | the method on real pointers does exactly that |
| `EntryList.Entry.Unlift` | internal/checker/checker.go:484-492 | likewise, and the list is the one before the lift |
| `EntryList.Entry.UnliftCallFirst` | internal/checker/checker.go:480-492 | the other order of the two reinsertions has the same outcome |
| `Bitset.NewBitset` | internal/checker/bitset.go:9-11 | a new bitset is the empty set in as many words as it takes |
| `Bitset.Set` | internal/checker/bitset.go:13 | setting a bit in place adds one member and touches no other |
| `Bitset.Clear` | internal/checker/bitset.go:14 | clearing a bit in place removes one member and touches no other |
| `Bitset.Equal` | internal/checker/bitset.go:22-32 | word-wise comparison is equality of the word sequences |
| `Bitset.SameMembersSameWords` | internal/checker/bitset.go:22-32 | bitsets of one width are equal word by word exactly when they hold the same members |
| `Cache.Cache.Contains` | internal/checker/checker.go:540-547 | says yes exactly for what was added, whatever the hash |
| `Cache.Cache.Add` | internal/checker/checker.go:549-553 | remembers one configuration more, by value, and counts its bytes |
| `MachineInvariant.PruneIsSound` | internal/checker/checker.go:757-765 | a branch abandoned because its configuration is remembered goes no deeper than what is recorded, and cannot be completed |
| `MachineInvariant.Preserved` | internal/checker/checker.go:717-792 | every iteration keeps the invariant: stack legal, everything before the cursor tried in vain, everything remembered on the stack or exhausted |
| `MachineInvariant.Established` | internal/checker/checker.go:688-716 | the search starts with it |
| `MachineInvariant.NeverOffTheEnd` | internal/checker/checker.go:742-750 | the walk never runs off the end of the list while operations remain |
| `MachineInvariant.Progress` | internal/checker/checker.go:717-792 | every iteration shrinks (configurations not remembered, stack, distance to the end), so the search terminates |
| `MachineResult.CanPlaceGivesOrder` | internal/checker/brute.go:36-75 | placing minimal operations one after the other yields an order of the rest within real time |
| `MachineResult.OrderGivesCanPlace` | internal/checker/brute.go:36-75 | every such order arises that way |
| `MachineResult.CanPlaceAllIff` | internal/checker/brute.go:36-75 | where there was nothing to choose, all operations can be placed exactly when a linearization exists |
| `SearchTheorems.PassHasWitness` | internal/checker/checker.go:717-805 | on a pass, the order of placement is a linearization ending in the state reported |
| `SearchTheorems.StuckIsExhaustive` | internal/checker/checker.go:766-796 | giving up with an empty stack means nothing deeper exists |
| `SearchTheorems.CulpritIsMaximal` | internal/checker/checker.go:711-715 | a refusal names a culprit, minimal and rejected where it was met, at the greatest depth any legal partial order reaches |
| `SearchTheorems.FirstDeepestIsKept` | internal/checker/checker.go:711-770 | of the refusals at the greatest depth it is the first one met that is kept |
| `SearchTheorems.SearchIsExact` | internal/checker/checker.go:688-805 | a refusal is true under any budget, a pass exactly when no two operations precede each other; without a budget it is one or the other |
| `SearchTheorems.MoreVisitsNeverLose` | internal/checker/checker.go:719-739 | a larger transition budget changes nothing about a run the smaller one did not stop |
| `SearchTheorems.WithinBudget` | internal/checker/checker.go:719-739 | from any state on, transitions never exceed the budget, remembered bytes stay below the ceiling plus one entry |
| `SearchTheorems.RemembersWithinCeiling` | internal/checker/checker.go:734-739 | so a search never remembers more than the ceiling plus one entry |
| `SearchTheorems.UnknownIsEarned` | internal/checker/checker.go:720-739 | a search gives up only when a limit was reached: the transitions, the bytes, or the deadline at an iteration divisible by 4096 |
| `SearchTheorems.DecidedInTime` | internal/checker/checker.go:725-729 | and when it reaches a verdict the clock was in time at every such iteration up to the number of its transitions |
| `SearchTheorems.RunIgnoresClock` | internal/checker/checker.go:719-739 | without a deadline the clock plays no part |
| `SearchCost.VisitsAreBounded` | internal/checker/checker.go:717-792 | at most n (1 + remembered) transitions |
| `SearchCost.RememberedIsBounded` | internal/checker/checker.go:549-553 | for the registers, at most 2^n (n + 1) remembered configurations |
| `ListInvariant.ParkedAfterPush` | internal/checker/checker.go:757-765 | lifting one more operation keeps every entry lifted before restorable |
| `ListInvariant.ParkedAfterPop` | internal/checker/checker.go:766-791 | so does putting the last one back |
| `ListInvariant.PlacingShrinksList` | internal/checker/checker.go:757-765 | the list is always the sorted endpoints without those of the placed operations |
| `Search.BuildEntries` | internal/checker/checker.go:439-458 | builds the linked list of all endpoints in order, each mated with its other end |
| `Search.SearchFull` | internal/checker/checker.go:688-805 | on any operations that end no earlier than they begin, the heap search returns the machine's verdict, culprit, visits and final state; a refusal is true, a pass exactly when no two operations precede each other, and it gives up only when a limit was reached |
| `Search.FullIsExact` | internal/checker/checker.go:688-805 | what it answers is true in that sense, with a final state or a culprit |
| `Search.FullHasWitness` | internal/checker/checker.go:797-801 | the final state of a true pass is that of a linearization |
| `Search.CulpritIsFurthest` | internal/checker/checker.go:360-377 | the culprit reported could come next after a legal partial order, is refused there, and no legal partial order is longer |
| `Search.FullUnknownIsEarned` | internal/checker/checker.go:720-739 | what it reports when it gives up shows a limit that was reached, as 64 bytes and 8 a word are remembered for a transition at most |
| `Search.FullDecidedInTime` | internal/checker/checker.go:725-729 | a verdict is reached in time |
| `Budgets.NamelessIsYoung` | internal/checker/checker.go:766-796 | a search that gives up and names no culprit has not even made one transition for each operation |
| `KeySearch.Halves` | internal/checker/checker.go:646-662 | every operation is among those that returned or those that did not |
| `KeySearch.UnansweredLast` | internal/checker/checker.go:620-645 | operations that never returned may all come last, if at most the last of them was called at the end of time |
| `KeySearch.FastPathHasWitness` | internal/checker/checker.go:646-684 | when the fast path says yes, the order found followed by the unanswered operations is a linearization |
| `KeySearch.FastPathFailsOnlyIf` | internal/checker/checker.go:646-684 | it says no only if there is nothing to put last, no order of what returned, a limit reached (that of the call, or 32 transitions per operation), or the rest is refused after some order of what returned |
| `KeySearch.IndeterminateLast` | internal/checker/checker.go:646-684 | the method returns the fast path's answer and cost, and a yes is true if no two operations precede each other |
| `KeySearch.KeyIsExact` | internal/checker/checker.go:577-618 | deciding a key is exact in the same sense, fast path included |
| `KeySearch.KeyUnknownIsEarned` | internal/checker/checker.go:577-618 | a key is left undecided only when a limit of the call was reached by the transitions of both searches together |
| `KeySearch.KeyCulpritIsFurthest` | internal/checker/checker.go:360-377 | the culprit of a refused key could come next after a legal partial order, is refused there, and no legal partial order is longer |
| `KeySearch.FastPathChangesNothing` | internal/checker/checker.go:577-618 | without a budget `searchKey` and `searchFull` give the same verdict |
| `KeySearch.KeyMonotone` | internal/checker/checker.go:596-614 | raising the transition budget never loses or flips a decisive verdict |
| `KeySearch.KeyCost` | internal/checker/checker.go:663-683 | transitions stay within the budget plus the number of unanswered operations |
| `Budgets.SmoothSearch` | internal/checker/checker.go:741-765 | a search none of whose operations is ever refused passes after exactly one transition each, if the budgets have room for them |
| `Budgets.CapIsExceeded` | internal/checker/checker.go:675-682 | for every budget and every number of operations without an answer, a valid key that passes and costs the budget plus that number, if the ceiling on memory has room for the budget |
| `Budgets.CapIsExceededAnyway` | internal/checker/checker.go:675-682 | under any ceiling and clock, a valid key that passes though it exceeds the budget |
| `Budgets.CapHoldsIff` | internal/checker/checker.go:62-64 | with that room, the budget caps every key with so many operations without an answer exactly when there are none |
| `Budgets.CapFailsAnyway` | internal/checker/checker.go:62-64 | and whatever the ceiling, it caps none with more of them than it allows transitions |
| `Budgets.UnansweredIsAppended` | internal/checker/checker.go:646-684 | a key on which nothing was answered is decided by applying its operations in turn, and no budget, ceiling or clock is looked at |
| `Budgets.LateClockIff` | internal/checker/checker.go:66-68 | past the deadline from the start, a key is undecided exactly if something was answered or an operation is refused when all are applied in turn |
| `Budgets.LateClockPassesTheUnanswered` | internal/checker/checker.go:66-68 | for the compare-and-swap register, exactly if something was answered |
| `Budgets.LateWritesPass` | internal/history/history.go:457-460 | any number of unanswered writes at the end of time pass, and there is an order of them only if there is no more than one |
| `Budgets.TruthfulIff` | internal/checker/checker.go:577-618 | every decisive verdict on keys with so many calls at the end of time is true exactly if that is none or one |
| `Budgets.SufficientDecides` | internal/checker/checker.go:577-618 | for the registers, a key of at most n operations is decided if the budgets exceed an explicit worst case for n and the deadline does not pass |
| `Budgets.SufficientMinimises` | internal/checker/checker.go:885-914 | and then every probe of its minimisation is |
| `Budgets.SmallKeysAreDecided` | internal/checker/checker.go:151-211 | a history of such keys is decided, and if it is refused no probe is in the way of a counterexample |
| `Budgets.DefaultSuffices` | cmd/splitbrain/main.go:374-375 | with the limits the command sets, that is so for thirteen operations on each key |
| `KeySearch.KeyIgnoresClock` | internal/checker/checker.go:577-618 | without a deadline the outcome depends on the question alone |
| `KeySearch.SearchKey` | internal/checker/checker.go:577-618 | the method returns that outcome, exact in the same sense, within the bound and undecided only when a limit was reached, on operations sorted by invocation |
| `BruteForce.BruteMinimal` | internal/checker/brute.go:65-75 | says yes exactly for an operation that is not placed and that nothing outstanding precedes |
| `BruteForce.BruteSearch` | internal/checker/brute.go:36-56 | finds a completion exactly when there is one and leaves the marks as it found them |
| `BruteForce.Decide` | internal/checker/brute.go:18-32 | the oracle decides the specification for every history within its limit |
| `BruteForce.SearchAgreesWithOracle` | internal/checker/brute.go:9-32 | oracle and search agree |
| `Truncating.TruncationComposes` | internal/checker/checker.go:853-868 | cutting at u and then earlier at t is cutting at t |
| `Truncating.TruncationIsAccepted` | internal/checker/checker.go:873-884 | restricting an accepted order to what was known at t leaves it accepted |
| `Truncating.Downward` | internal/checker/checker.go:880-884 | "the truncation at t linearizes" is downward closed |
| `Truncating.NothingHappens` | internal/checker/checker.go:823-848 | between two events the truncation does not change |
| `Minimise.TruncationIsSearchable` | internal/checker/checker.go:853-868 | a truncation of a valid key drops every call made at the end of time, and no two of the rest precede each other |
| `Minimise.EventTimes` | internal/checker/checker.go:823-848 | exactly the distinct event times and the moment after the latest, in order; that moment wraps around at the end of time |
| `Minimise.EventBefore` | internal/checker/checker.go:823-848 | only an event comes right before a time at which the truncation fails, overflow or not |
| `Minimise.TurnsBetween` | internal/checker/checker.go:885-908 | where neighbouring times differ in verdict, it turns right after the earlier one |
| `Minimise.Minimise` | internal/checker/checker.go:885-914 | under any budget, what is reported of a key that is known to fail by the end of time is the truncation right after the single event at which the verdict turns, and it fails; of a key that is not, it is all that is known by then; nothing is reported only if the search of some truncation under the budgets of the caller is undecided |
| `Minimise.LateCallsAreHarmless` | internal/checker/checker.go:890-893 | for the compare-and-swap register a key linearizes exactly when it does without its call at the end of time |
| `Minimise.LateSwapsAreNot` | internal/checker/checker.go:890-893 | for the plain register, exactly when it does without it and it is not a compare-and-swap |
| `Minimise.LateCallMattersIff` | internal/checker/checker.go:890-893 | so such a call leaves every failing key of the plain register failing without it exactly if it is not a compare-and-swap |
| `Minimise.FailsByTheEnd` | internal/checker/checker.go:890-893 | a failing key is known to fail by the end of time for the compare-and-swap register, for the plain one without a compare-and-swap called then, and for any model if nothing was called then |
| `Minimise.SortedIsRecorded` | internal/checker/checker.go:269-272 | once sorted, the operations of a valid key are what deciding it asks for |
| `Minimise.SmallestFailure` | internal/checker/checker.go:870-884 | it is contained in every failing truncation, and cutting it further makes it linearizable |
| `Pairs.PairwiseRearranged` | internal/history/history.go:496-506 | a symmetric condition on pairs does not depend on the layout |
| `Validity.NeighboursSuffice` | internal/history/history.go:502-520 | comparing neighbours in start order is equivalent to comparing all pairs |
| `Validity.CheckProcess` | internal/history/history.go:494-521 | accepts one process's operations exactly when each pair takes turns |
| `Validity.Validate` | internal/history/history.go:439-522 | accepts exactly the histories that satisfy the order-free conditions, and gives a justified reason otherwise |
| `Validity.ValidHistoryIs` | internal/history/history.go:431-522 | those conditions one by one: each operation has a key, starts at zero or later, ends no earlier, has a completion exactly if it was answered, and changes something if it swaps; no two are instants on one key at one moment; each two of a process take turns |
| `Validity.ValidIffNoComplaint` | internal/history/history.go:439-522 | a history is valid exactly when no complaint about it is justified |
| `Validity.ValidRearranged` | internal/history/history.go:494-506 | validity does not depend on the layout |
| `Validity.TruncationIsValid` | internal/checker/checker.go:853-868 | truncating a valid history at any time leaves it valid |
| `Validity.ValidKeyIsSearchableIff` | internal/history/history.go:439-522 | no two operations of a valid key precede each other exactly when no two are invoked at the end of time |
| `Validity.ValidKeyIsCheckable` | internal/history/history.go:439-522 | a key of a valid history is what the search and the minimisation ask for |
| `Validity.TwoAtTheEnd` | internal/history/history.go:457-460 | with two operations invoked at the end of time no order of a valid key respects real time |
| `Validity.ValidateAcceptsACollision` | internal/history/history.go:457-460 | a valid history that no order explains, which the search has placed after two transitions and the fast path appends without a search |
| `Slicing.ByInvokeSorts` | internal/history/history.go:359-366 | sorted by invocation, ties by process |
| `Slicing.ByInvokeIsStable` | internal/history/history.go:359-366 | earlier first, lower process first among equals, and what agrees in both stays in the order it was in |
| `Slicing.DropFailed` | internal/history/history.go:401-409 | exactly the operations that did not fail, in order |
| `Slicing.ByKey` | internal/history/history.go:390-396 | exactly the keys that occur, each with its sub-history |
| `Slicing.Keys` | internal/history/history.go:369-380 | every key once, and of two the earlier is a prefix of the later or has the smaller letter where they first differ |
| `Slicing.NoLaterIsDictionaryOrder` | internal/history/history.go:369-380 | the comparison by first letters is that order |
| `Slicing.OneSortedArrangement` | internal/history/history.go:369-380 | which leaves no freedom |
| `Workers.SearchAll` | internal/checker/checker.go:226-263 | under every interleaving of the workers each slot is filled exactly once, with its own key's answer |
| `Workers.Claims` | internal/checker/checker.go:252-258 | taking the next slot hands no slot out twice and loses none |
| `Workers.Fills` | internal/checker/checker.go:252-258 | filling a slot finds it empty and disturbs no other |
| `Workers.KeyAnswerIsExact` | internal/checker/checker.go:269-272 | the answer for a key is exact in the same sense though the operations were sorted first |
| `Locality.Merge` | internal/history/history.go:382-396 | separate legal orders of the keys can be merged into one within real time |
| `Locality.RestrictToKey` | internal/history/history.go:382-396 | one order for all keys restricts to a linearization of each |
| `Locality.KeysDecide` | internal/history/history.go:382-396 | one order for everything exists exactly when every key linearizes and no two operations precede each other |
| `Locality.SharedInstantIsNotLocal` | internal/history/history.go:426-433 | without the second condition this fails |
| `Check.Check` | internal/checker/checker.go:151-211 | an error exactly for malformed histories; otherwise every key's statistics, the first key with the verdict reported in dictionary order, the total, and when asked for a minimal counterexample, if the key is known to fail by the end of time, and else all that is known by then; without one only if a probe of the minimisation of that key is undecided |
| `Check.AttachDetail` | internal/checker/checker.go:336-357 | the counterexample is the smallest failing truncation with its last-invoked operation as culprit, if the key is known to fail by the end of time, and else all that is known by then; without one a probe is undecided and the culprit is the search's own |
| `Check.EndOfTimeMisleads` | internal/checker/checker.go:846 | a valid history refused by the plain register of which nothing is known by the end of time, so that nothing is reported |
| `Check.VerdictIsTrue` | internal/checker/checker.go:151-211 | a refusal means the key named does not linearize, a pass that every key does, exactly when no key has two calls at the end of time; without a budget it is one or the other |
| `Check.WorstKeyIsReported` | internal/checker/checker.go:176-208 | one refused key is never hidden by keys that ran out of a budget, nor those by keys that pass; the key named is the first in dictionary order with that verdict |
| `Check.KeyIsAnswered` | internal/checker/checker.go:265-272 | in every report, undecided keys have reached a limit and the culprits of refused keys are furthest |
| `Check.VerdictIsGlobal` | internal/checker/checker.go:151-211 | without a budget, Linearizable exactly when one global order exists, given no shared instants across keys |
| `Check.PassWithoutGlobalOrder` | internal/checker/checker.go:151-211 | under any budget a refusal means that no global order exists, and a pass that one does, exactly when no two operations precede each other |
| `Check.SharedInstantPasses` | internal/history/history.go:426-433 | a valid history that passes without one |
| `Check.ReportIsDetermined` | internal/checker/checker.go:147-150 | without a deadline verdict, key and statistics depend on the input alone |
| `Check.MoreBudgetNeverLoses` | internal/checker/checker.go:596-614 | raising the transition budget never loses or flips a decisive verdict of the whole call |
| `Check.LayoutDoesNotMatter` | internal/checker/checker.go:265-272 | without a budget, and without two calls at the end of time on a key, verdict and key do not even depend on the layout |
| `Wire.RoundTrip` | internal/history/history.go:187-260 | saving and loading an operation loses exactly the fields without a meaning, once |
| `Wire.NothingIsMadeUp` | internal/history/history.go:262-305 | an accepted line states every field the checker reads |
| `Wire.AcceptedIff` | internal/history/history.go:216-305 | a line is accepted exactly when its kind and outcome are known names and no field is missing that they give a meaning to |
| `Wire.TheRestIsKept` | internal/history/history.go:216-260 | what else it says is kept, and what it leaves out is zero |
| `Wire.StepIgnoresTheRest` | internal/model/model.go:67-97 | the registers cannot tell the two apart |
| `Wire.Save` | internal/history/history.go:312-325 | one line per operation, by invocation time |
| `Wire.Load` | internal/history/history.go:330-355 | succeeds exactly when every line does |
| `Wire.LoadAfterSave` | internal/history/history.go:312-355 | loading what was saved never fails and yields the normalised history |
| `Wire.NormalLinearizes` | internal/history/history.go:187-260 | which has a linearization exactly when the original does |
| `Wire.ReloadedIsValid` | internal/history/history.go:312-355 | a valid history is valid after reloading |
| `Wire.ReloadedIsValidIff` | internal/history/history.go:218-260 | and one that is valid after reloading was valid before, exactly if no indeterminate operation carried a completion time |
| `Wire.ReloadKeepsVerdict` | internal/history/history.go:312-355 | for a model that reads only what is written, saving and loading changes neither verdict nor reported key |
| `Wire.RegistersSurviveReloading` | internal/history/history.go:312-355 | for both registers that asks nothing but a valid history with at most one call at the end of time on each key |
| `Store.PerformIsStep` | internal/kv/single.go:39-62 | the store's step is that of either register, and no other key changes |
| `Store.PerformDoesWhatWasAsked` | internal/kv/single.go:39-62 | a write leaves its value, a compare-and-swap its new value exactly if the key held what it expected, and a read answers what is held |
| `Store.OtherAnswersAreRefused` | internal/kv/single.go:39-62 | either register refuses a recorded operation exactly when it claims another answer, and the plain one every compare-and-swap |
| `Store.SingleStore.Apply` | internal/kv/single.go:39-62 | carries out that step on its map and never declines |
| `Client.Do` | internal/kv/client.go:161-218 | records a definite failure exactly if nothing was sent or the server declined, a success exactly if a well-formed reply says so, with what it says, and otherwise nothing; all but the last with a completion |
| `Client.CompletionIsSafe` | internal/clock/clock.go:60-79 | the recorded completion lies after every moment at which the call may really have ended and after the invocation, however coarse the clock, and is the earliest that does |
| `Forward.LoyalOnlyForwards` | internal/kv/forward.go:98-151 | a follower that has not promoted itself answers the leader's reply, declines when the request never left, and otherwise says that it does not know |
| `Forward.RepliesArePassedOn` | internal/kv/forward.go:98-196 | every follower passes a well-formed reply on, which ends promotion and the row of failures; anything else is a failure, and promotes it exactly if promotion is on and they have become `promoteAfter` |
| `Forward.NothingIsCached` | internal/kv/forward.go:156-180 | with promotion off, or a refusal, nothing is cached |
| `Forward.CutOffServesItsCache` | internal/kv/forward.go:198-221 | a promoted follower answers as the single store would if that held its cache |
| `Forward.CacheStaysCurrent` | internal/kv/forward.go:156-180 | a cache that agrees with the leader still does after any reply heard from it, and what took effect is in it |
| `Forward.HearingKeepsCurrent` | internal/kv/forward.go:156-180 | so a follower that may promote itself and hears what the leader did keeps its cache current |
| `Forward.LoyalUnlessCutOff` | internal/kv/forward.go:153-196 | a follower never promotes itself exactly when promotion is off or it never has `promoteAfter` failed forwards in a row |
| `Forward.ForwardStore.Apply` | internal/kv/forward.go:98-151 | leader and follower, promoted or not, do as those functions say |
| `Forward.ForwardStore.ForwardSucceeded` | internal/kv/forward.go:156-180 | clears the count, demotes, and caches only with promotion on |
| `Forward.ForwardStore.ForwardFailed` | internal/kv/forward.go:184-196 | counts, and promotes at the threshold |
| `Forward.ForwardStore.ServeFromCache` | internal/kv/forward.go:201-221 | answers from the cache as though it were the data |
| `Runs.StepKeeps` | internal/kv/forward.go:98-196 | every step of clients, network, followers and leader keeps the records honest and the leader's log faithful to its data |
| `Runs.RunKeeps` | internal/kv/forward.go:98-196 | so does every run without promotion |
| `Runs.WhatIsWrittenDown` | internal/kv/client.go:161-218 | what each way for a call to end has the client write down: a refused connection a failure, a lost answer nothing, a reply what it says |
| `Runs.WhatALoyalFollowerAnswers` | internal/kv/forward.go:98-151 | what each way for a forward to end has a follower answer that has not promoted itself |
| `Runs.FollowerIsItsLog` | internal/kv/forward.go:153-196 | in every run a follower is what the outcomes of its own forwards made of it |
| `Recordings.LoyalIffNotProvoked` | internal/kv/forward.go:182-196 | it is loyal throughout exactly when promotion is off or no `promoteAfter` of them in a row failed |
| `Recordings.RunsLinearize` | internal/kv/single.go:13-24 | at every moment of a run without provoked followers the recorded history has one legal order |
| `Recordings.NeverAccused` | internal/kv/single.go:15-19 | whenever `Validate` accepts what such a run recorded, the checker never refuses it under any budget, and passes it without one |
| `Recordings.FailedIsNeverApplied` | internal/kv/client.go:190-215 | an operation recorded as failed was not applied and never is |
| `Recordings.UnprovokedIsLoyal` | internal/kv/forward.go:182-196 | in a run whose steps provoke no follower, none ever promotes itself |
| `Recordings.RecordedIsValidIff` | internal/history/history.go:439-522 | `Validate` accepts what a run recorded exactly when its requests are proper and every client waited for the completion recorded before |
| `Recordings.NextCallNeedsATick` | internal/clock/clock.go:74-79 | that wait is one tick after the answer was read |
| `Recordings.ImpatientRun` | internal/harness/harness.go:328-368 | nothing makes a client wait: for every granularity a run without faults that is refused |
| `Promotion.ProvokedIsCaught` | internal/kv/forward.go:198-221 | for every `promoteAfter`, a run in which a follower is provoked and whose history no order explains |
| `Quorum.DominatesIsStrictOrder` | internal/kv/quorum.go:98-103 | versions are strictly and totally ordered |
| `Quorum.DominatesIs` | internal/kv/quorum.go:98-103 | the greater stamp wins, and at one stamp the node whose name comes later in dictionary order |
| `Quorum.StampIsLeast` | internal/kv/quorum.go:248-263 | a new stamp is the least one, from the clock on, that is ahead of what is held |
| `Quorum.LocalIsStep` | internal/kv/quorum.go:130-162 | what a node does on its own is the register's step on the value it holds, and no other key changes |
| `Quorum.OtherLocalAnswersAreRefused` | internal/kv/quorum.go:130-162 | the register refuses an operation recorded of it exactly when it claims another answer |
| `Quorum.AloneIsSingle` | internal/kv/quorum.go:123-162 | a node left to itself answers any sequence of requests as the single store does, whatever its clock reads |
| `Quorum.ChangesAreSent` | internal/kv/quorum.go:130-162 | every change, and nothing else, is sent out, with the value asked for, the node's name and the least stamp |
| `Quorum.LocalUpdateWins` | internal/kv/quorum.go:248-263 | a local write or swap always beats what its node held |
| `Quorum.ReceiveCommutes` | internal/kv/quorum.go:291-300 | updates may arrive in any order and repeatedly |
| `Quorum.QuorumStore.Apply` | internal/kv/quorum.go:130-162 | answers from the local map as those laws say, and hands out the update it stored |
| `Quorum.QuorumStore.HandleReplicate` | internal/kv/quorum.go:273-288 | takes an update with a key and a node, if it beats what is held |
| `Quorum.QuorumStore.ApplyReplication` | internal/kv/quorum.go:291-300 | takes the update if it beats what is held, and says whether it did |
| `Quorum.NewVersionIsNew` | internal/kv/quorum.go:248-263 | no two updates of a run carry one version of a key with different values |
| `Quorum.StepKeeps` | internal/kv/quorum.go:130-300 | every step keeps each entry the greatest version seen |
| `Quorum.EntryIsGreatestSeen` | internal/kv/quorum.go:93-103 | on every run each entry is the greatest version its node generated or received |
| `Quorum.Converges` | internal/kv/quorum.go:48-50 | nodes that saw the same updates hold the same entry, whatever the order, duplication or loss |
| `Quorum.EntriesOnlyAdvance` | internal/kv/quorum.go:248-300 | no step moves an entry back |
| `Faults.NewSchedule` | internal/faultnet/schedule.go:71-102 | accepts exactly events that name known links, lie within the run and delay by no less than nothing, and sorts them by time |
| `Faults.MomentsAreKept` | internal/faultnet/schedule.go:95-99 | events of one moment stay in the order they were given |
| `Faults.OnlyThePhaseUnderWay` | internal/faultnet/schedule.go:213-219 | at every moment a link suffers the fault of the one phase under way that hits it, or none |
| `Faults.EndsWhole` | internal/faultnet/schedule.go:213-219 | after the last cure every link passes |
| `Partitions.CutEvents` | internal/harness/topology.go:143-156 | one event for exactly the peer links across the boundary |
| `Partitions.CutClientEvents` | internal/harness/topology.go:165-174 | one event for the client link of each node given |
| `Partitions.HealEvents` | internal/harness/topology.go:177-184 | one event for every link |
| `Faults.Rng.ConstantIsNotFair` | internal/harness/topology.go:278-288 | a stream on which drawing a subset never ends |
| `Faults.Rng.ProperSubset` | internal/harness/topology.go:274-289 | some but not all of the nodes: what the first round of coins says that is neither none nor all |
| `Partitions.PartitionSchedule` | internal/harness/topology.go:197-241 | whatever is drawn, the schedule is accepted, in order, and a sequence of cuts each healed before the next; they are what the stream says, 300 to 1200 ms long and 200 to 900 ms apart from an eighth of the run on, until less than that is left before its last eighth |
| `Partitions.SingleNodeSchedule` | internal/harness/topology.go:244-267 | likewise for one node and any stream, with blips of 200 to 700 ms, also for runs too short for a full one |
| `Partitions.NeverQuietForLong` | internal/harness/topology.go:197-241 | between the first eighth of any run and its last it is never more than 900 ms since a cut |
| `Partitions.EighthIs` | internal/harness/topology.go:210-213 | which is an eighth, rounded down |
| `Partitions.OnlyInsideABlip` | internal/harness/topology.go:244-267 | the client link suffers inside a blip and at no other moment, and at the end it passes |
| `Partitions.WholeOrSplit` | internal/harness/topology.go:186-196 | while a cut lasts the network is split in two with a reachable node on either side, and at every other moment, as at the end, it is whole |
| `Generators.BoundsAreSane` | internal/faultnet/schedule.go:301-326 | phase lengths are positive, 300 to 1500 ms in a run of six seconds or more, and otherwise squeezed to a quarter of it |
| `Generators.BlipIsAThird` | internal/faultnet/schedule.go:321-326 | blips last a third of that, and no less than a millisecond |
| `Generators.RoundedIsNearest` | internal/faultnet/schedule.go:277 | delays are rounded to the nearest millisecond, halves up |
| `Generators.Shuffle` | internal/faultnet/schedule.go:295 | rearranges the links as the stream says and loses none |
| `Generators.StrictSubset` | internal/faultnet/schedule.go:287-299 | for every stream, some but not all of the links, or none if there are fewer than two |
| `Generators.Generate` | internal/faultnet/schedule.go:220-285 | for every random stream, turn by turn what the stream says until a turn no longer fits: a sequence of faults within the run, each of a kind asked for and cured before the next, none longer or further apart than the bounds allow |
| `Generators.SomethingStrikes` | internal/faultnet/schedule.go:301-303 | a run of four milliseconds or more has a fault in its first quarter, if one can strike |
| `Generators.OneLinkIsNeverCut` | internal/faultnet/schedule.go:180-183 | with fewer than two links nothing is ever cut |
| `Generators.GeneratedIsAcceptable` | internal/faultnet/schedule.go:46-102 | it is in order and would be accepted |
| `Generators.NeverEveryLink` | internal/faultnet/schedule.go:175-183 | no moment finds every link cut |
| `Generators.GeneratedEndsWhole` | internal/faultnet/schedule.go:213-219 | at the end every link passes |

## Left out

- HTTP, sockets, processes, JSON text, logging and signals: a message arrives, is lost or is late, and a line of a file is a record.
- `internal/faultnet/link.go`, `internal/faultnet/nemesis.go` and `internal/cluster`: lifetimes of proxies and processes, and applying a schedule on a wall clock.
- `internal/report`, `cmd` and `tools`, flags, `Explain`, `Describe`, reasons and elapsed times: presentation.
- `CheckKey` and the error for a nil model: the same search on one key without the split.
- The values of PCG, FNV and maphash: numbers and hashes are arbitrary functions.
- Generic model states: a state is an integer, as in both registers.
- Kinds, outcomes and faults outside the declared constants, which `Validate` and `NewNamedSchedule` would meet as raw bytes.
- `Pending` and 64-bit timestamps are modelled; overflow of stamps in the replicated store and of schedule durations is not.
- Sorting: `sort.Slice` and `sort.SliceStable` are a stable sort as a function. The order of the entries, the event times and the keys does not depend on stability.
- `bitset.clone` and cached bitsets are sequences of words, which cannot be aliased.
- Lifting an entry: the two statements that bypass an entry are a method of their own, with the test for a missing successor that only a return needs.
- Searching with `searchAll` copies nothing: sorting the slice of a key in place is modelled as sorting a value, seen by the search and the minimisation of that key only.
- `ForwardStore.Configure`, `QuorumStore.Configure` and `peerBase`: the configuration is fixed for a run; an address that is refused is one of the exchanges.
- What a promoted follower answers, beyond that it can be caught, and reads and synchronous mode of the replicated store: deliberately without a guarantee.
- The bounded queues of the replicated store's fan-out: an update may be lost or arrive at any time, which covers a full queue.
- Error texts of clients and followers: one fixed text for each case.
- Link names: a link is a value, and the events of one cut stand in the order they were found or drawn in, where the source sorts them by printed name.
- The workload generator and the quiescent reads of the harness: a client may call anything at any time.
