# phenolphthalein, modelled in Dafny

phenolphthalein is a harness for running concurrency litmus tests. A test is a
shared-object entry point with a manifest of integer variables, some atomic and
some plain. The harness:

- allocates an environment of integer slots for those variables and resets it
  to their initial values;
- runs one automaton per thread, synchronised so that one thread per iteration
  observes the environment;
- collects the distinct states it observes, with their occurrence counts and
  the checker's verdict;
- stops or rotates the threads according to halting rules;
- prints the resulting histogram.

Several generations of the same modules sit side by side in the repository, and
this model keeps them apart. Each Dafny module models one source file. Module
names in the `Legacy` family are the earlier generation (`src/obs.rs`,
`src/run.rs`, `src/test.rs`, `src/c.rs`, `src/manifest.rs`).

The model covers seven parts of the harness:

- **Environment slot stores.**
  - `RustEnv` models `src/api/rust/env.rs`: a class over two vectors, with
    bounds-checked reads and writes.
  - `CEnv` models `src/api/c/env.c` and its identical copy
    `src/testapi/c/env.c`. It covers the C struct, `calloc` and `free` over an
    explicit heap, and the getters and setters with their guard as written.
- **Slot reservation.** `Slot` models `src/model/slot.rs`.
  - `LegacyManifest` models `src/manifest.rs`: a thread count and two maps,
    one per kind, with records holding only an initial value.
    `src/model/manifest.rs` has the same shape under the field names
    `atomic_i32s` and `i32s`.
  - `Manifest` models the later generation that `src/run/obs.rs` and
    `src/api/c/manifest.rs` use: a non-zero thread count and one `i32s` map
    whose records carry their slot.
- **Observation.**
  - `RunObs` models the observer and the manifested environment of
    `src/run/obs.rs`. It is a class holding the deduplicating map from states to
    information records, plus the first-seen history.
  - `LegacyObs` models `src/obs.rs`.
  - `ModelState`, `ModelObs`, `ModelReport` and `ModelOutcome`/`ModelCheck`
    model `src/model/`.
- **Halting and run control.**
  - `Halt`/`HaltRule` model the halting conditions and the halt-byte encoding.
  - `Shared` models `src/run/shared.rs`, and `LegacyRun` models `src/run.rs`.
  - `Fsa` models `src/fsa.rs`, and `RunFsa` models `src/run/fsa.rs`. They are
    the per-thread automata, built on `Cells` (shared cells), `Join` (the join
    fold) and `Shuffle` (the random permuter).
  - `Instance` models `src/run/instance.rs`, `Runner` models
    `src/run/runner.rs`, and `LegacyTest` models `src/test.rs`.
- **Configuration.** `ConfigCheck`, `ConfigIter`, `ConfigSync`,
  `ConfigPermute` and `ConfigTop` model `src/config/`. `ConfigClap` and
  `UxClap` model the two command-line merges, and `UxArgs`/`MainArgs` model the
  two earlier argument parsers. Command-line matches are a `map<string, string>`.
- **C manifests.** `ApiCManifest` models `src/api/c/manifest.rs`.
  `LegacyCManifest` models `src/c.rs` and its line-for-line copy
  `src/testapi/c/manifest.rs`. Raw pointers are sequences, and C strings are
  already decoded.
- **Output.** `OutChoice`/`OutConfig` model the outputter choices. `UxHisto`
  models the histogram lines of `src/ux/out/histo.rs`, and `UxObs` models the
  padding and sigils of `src/ux/obs.rs`.

`Wrappers` (`Option`/`Result`), `Prim` (`usize`, `i32`, `u8` and saturating
arithmetic), `Text` (ASCII lower-casing, decimal printing and Rust's `usize`
parsing, joining and splitting at a separator, string order) and `OrdMap`
(`BTreeMap<String, _>` as a strictly key-sorted association list) stand in for
the Rust standard library.

Things the model cannot see are parameters:

- the synchroniser's choice of observer is a `bool`;
- spawning and joining threads are functions over `Result`;
- the random generator is a function `nat -> nat` driving a Fisher-Yates
  shuffle;
- whether a C allocation succeeds is a `bool`;
- whether the tester state is solely owned when it is taken is a `bool`.

## Model

| member | source | states |
|---|---|---|
| RustEnv.Read | src/api/rust/env.rs:93-106 | `vec.get(i).unwrap_or_default()`: the element in range, 0 past the end |
| RustEnv.Write | src/api/rust/env.rs:108-116 | a store through `get`/`get_mut`: only an in-range index changes, the length never does |
| RustEnv.ReadWriteSame | src/api/rust/env.rs:108-116 | a value stored in range reads back |
| RustEnv.ReadWriteOther | src/api/rust/env.rs:108-116 | a store leaves every other index's reading unchanged |
| RustEnv.WriteOutOfRange | src/api/rust/env.rs:110-115 | an out-of-range store is ignored |
| RustEnv.ReadSlot | src/api/rust/env.rs:85-91 | `get` reads the atomic vector for an atomic slot, the plain one otherwise |
| RustEnv.WriteSlot | src/api/rust/env.rs:108-116 | `set` changes only the slot's own vector and keeps both lengths |
| RustEnv.ReadSlotWriteSlotSame | src/api/rust/env.rs:85-116 | get after set of the same in-range slot gives the value set |
| RustEnv.ReadSlotWriteSlotOther | src/api/rust/env.rs:85-116 | set of one slot does not change the reading of any other slot |
| RustEnv.WriteSlotOutOfRange | src/api/rust/env.rs:108-116 | setting an out-of-range slot changes nothing |
| RustEnv.DefaultVec | src/api/rust/env.rs:119-124 | a fresh vector of exactly `len` zeroes |
| RustEnv.Slotset.constructor | src/api/rust/env.rs:53-61 | `Slotset::new`: zero-filled vectors of the reserved atomic and plain lengths |
| RustEnv.Slotset.Get | src/api/rust/env.rs:85-91 | dispatches on `is_atomic` to the matching vector's reading |
| RustEnv.Slotset.GetAtomic | src/api/rust/env.rs:93-95 | the atomic element, or 0 past the end |
| RustEnv.Slotset.GetNonAtomic | src/api/rust/env.rs:97-106 | the plain element, or 0 past the end |
| RustEnv.Slotset.Set | src/api/rust/env.rs:108-116 | the new vectors are `Write` of the old on the slot's side, the other side untouched |
| RustEnv.Env.constructor | src/api/rust/env.rs:16-21 | a slot set sized by the 32-bit reservation, all zero |
| RustEnv.Env.OfReservations | src/api/rust/env.rs:16-21 | always `Ok`; every slot of the new environment reads 0 |
| RustEnv.Env.GetI32 | src/api/rust/env.rs:23-25 | `ReadSlot` of the environment's contents |
| RustEnv.Env.SetI32 | src/api/rust/env.rs:27-29 | the new contents are `WriteSlot` of the old |
| CEnv.Heap.CallocI32 | src/api/c/env.c:15 | `calloc` of an int32 array: a fresh zero-filled block of `n` elements added to the live set, or NULL with the heap unchanged |
| CEnv.Heap.CallocEnv | src/api/c/env.c:11-12 | `calloc` of `struct env`: counts 0 and both pointers NULL, or NULL with the heap unchanged |
| CEnv.Heap.Free | src/api/c/env.c:32-34 | `free` removes exactly that block from the live set |
| CEnv.AllocEnv | src/api/c/env.c:8-26 | NULL exactly when one of the three allocations fails, and then nothing stays allocated; otherwise both arrays are fresh, distinct, zero-filled and of the requested lengths, and exactly the environment's blocks are added to the heap |
| CEnv.FreeEnv | src/api/c/env.c:28-35 | NULL is a no-op; otherwise exactly the environment's blocks (struct and its non-NULL arrays) leave the heap |
| CEnv.GuardAdmitsOnePastEnd | src/api/c/env.c:40 | the guard `count < c` lets `c == count` through, an index outside an array of `count` elements |
| CEnv.Load | src/api/c/env.c:37-49 | on every index the written guard keeps in bounds: the stored element in range, 0 beyond the end |
| CEnv.Store | src/api/c/env.c:51-63 | on every index the written guard keeps in bounds: only the in-range index changes, the length never does |
| CEnv.LoadStore | src/api/c/env.c:37-63 | a value stored at an in-range index reads back |
| CEnv.LoadStoreOther | src/api/c/env.c:37-63 | a store leaves the reading of every other index unchanged |
| CEnv.GetInt32 | src/api/c/env.c:37-42 | `get_int32` is `Load` of the plain array |
| CEnv.GetAtomicInt32 | src/api/c/env.c:44-49 | `get_atomic_int32` is `Load` of the atomic array |
| CEnv.SetInt32 | src/api/c/env.c:51-56 | `set_int32` changes only the plain array, by `Store` |
| CEnv.SetAtomicInt32 | src/api/c/env.c:58-63 | `set_atomic_int32` changes only the atomic array, by `Store` |
| CEnv.LoadChecked | src/api/c/env.c:37-49 | with the guard `count <= c`: total, the element in range and 0 for every index at or past the end |
| CEnv.StoreChecked | src/api/c/env.c:51-63 | with the guard `count <= c`: total, every out-of-range store ignored, an in-range one changes that index only |
| CEnv.CheckedAgrees | src/api/c/env.c:40-61 | the corrected accessors agree with the written ones on every index where those stay in bounds |
| CEnv.GetInt32Checked | src/api/c/env.c:37-42 | corrected `get_int32` is `LoadChecked` of the plain array |
| CEnv.GetAtomicInt32Checked | src/api/c/env.c:44-49 | corrected `get_atomic_int32` is `LoadChecked` of the atomic array |
| CEnv.SetInt32Checked | src/api/c/env.c:51-56 | corrected `set_int32` is `StoreChecked` on the plain array |
| CEnv.SetAtomicInt32Checked | src/api/c/env.c:58-63 | corrected `set_atomic_int32` is `StoreChecked` on the atomic array |
| CEnv.AllocThenRead | src/api/c/env.c:8-49 | a freshly allocated environment reads 0 at every index, atomic and plain |
| Prim.SaturatingInc | src/model/state.rs:69 | `saturating_add(1)`: one more below `usize::MAX`, stuck at `usize::MAX`, never smaller |
| ModelOutcome.OrderIsTotal | src/model/outcome.rs:14-23 | the derived order is total and antisymmetric, with Pass < Fail < Unknown |
| ModelOutcome.Max | src/model/outcome.rs:14 | `Ord::max` is an upper bound of both arguments and is one of them |
| ModelOutcome.MaxOpt | src/model/outcome.rs:14 | `max` on options: `None` only when both are `None`, otherwise an upper bound of every `Some` present, and one of the arguments |
| ModelOutcome.MaxOf | src/model/outcome.rs:8-10 | `Iterator::max`: `None` exactly on no outcomes; otherwise a member that bounds every outcome |
| ModelOutcome.MaxOfMeaning | src/model/outcome.rs:8-10 | the documented reading of `max`: `None` iff empty, `Unknown` iff any unknown, `Pass` iff non-empty and all pass, `Fail` iff some fail and none unknown |
| ModelOutcome.MaxOfExamples | src/model/outcome.rs:131-164 | the five `max` cases of the module's tests |
| ModelOutcome.ToString | src/model/outcome.rs:45-57 | `Display` prints one of the three lower-case names |
| ModelOutcome.FromStr | src/model/outcome.rs:70-83 | a failed parse returns the lowercased input as its error |
| ModelOutcome.FromStrToString | src/model/outcome.rs:45-83 | printing then parsing gives the outcome back |
| ModelOutcome.FromStrOk | src/model/outcome.rs:74-82 | parsing yields an outcome exactly when the lowercased input is that outcome's printed name |
| ModelOutcome.FromStrCaseInsensitive | src/model/outcome.rs:59-60 | parsing is case-insensitive: the result only depends on the lowercased input |
| ModelOutcome.Default | src/model/outcome.rs:85-90 | the default outcome is the greatest, `Unknown` |
| ModelOutcome.All | src/model/outcome.rs:93-107 | exactly the three outcomes, each once |
| ModelOutcome.FromPassBool | src/model/outcome.rs:109-125 | never `Unknown`; `Pass` exactly when the flag is set |
| ModelCheck.FromPassBool | src/model/check.rs:14-20 | `Passed` exactly when the flag is set |
| Slot.AddSlot | src/model/slot.rs:36-45 | the count of the slot's kind grows to cover the slot's index, to exactly `index + 1` or not at all; the other kind's count is unchanged |
| Slot.AddSlotIdempotent | src/model/slot.rs:36-45 | adding the same slot twice reserves what adding it once does |
| Slot.OfSlots | src/model/slot.rs:48-53 | the folded reservation covers every slot's index in the count of that slot's kind |
| Slot.OfSlotsIsTight | src/model/slot.rs:50-52 | each count of `of_slots` is one more than the largest index of that kind, or 0 when the kind is absent |
| Slot.TightBoundUnique | src/model/slot.rs:50-52 | there is only one such tight count |
| Slot.OfSlotsOrderIndependent | src/model/slot.rs:50-52 | `of_slots` gives the same reservation for any order of the same slots |
| Text.Lower | src/model/outcome.rs:75 | `to_lowercase` restricted to ASCII: same length, each capital letter replaced by its lower-case letter, every other character kept |
| AbsCheck.Check | src/api/abs/check.rs:15-36 | a function checker returns its function's verdict on the environment; an outcome used as a checker returns that outcome |
| AbsCheck.OutcomeChecksItself | src/api/abs/check.rs:81-87 | an outcome checker gives the same outcome on every environment |
| AbsCheck.MakeUnknown | src/api/abs/check.rs:45-47 | the made checker says `Unknown` on every environment |
| AbsCheck.MakeOptional | src/api/abs/check.rs:65-74 | with an item, the maker's checker; without one, a checker that says `Unknown` on every environment |
| Abs.OptionChecker | src/api/abs.rs:38-47 | with an item, the maker's checker; without one, a checker that says `Unknown` on every environment |
| Abs.OptionCheckerIsMakeOptional | src/api/abs.rs:38-47 | `option_checker` and `make_optional` build the same checker for every maker and option |
| Abs.TestI32GetSet | src/api/abs.rs:74-89 | against the Rust environment, a one-slot reservation reads 0, then 42 after storing 42, and the helper returns `Ok` |
| ModelState.ValueToString | src/model/state.rs:26-36 | a value prints as its decimal digits, preceded by `-` when negative, with no type tag |
| ModelState.ValueToStringReadsBack | src/model/state.rs:26-36 | a non-negative value's printed form parses back to the same number |
| ModelState.NegativeValueToString | src/model/state.rs:26-36 | a negative value prints as `-` followed by digits that parse back to its magnitude |
| ModelState.NewInfo | src/model/state.rs:56-62 | a new record has seen the state once, at the given iteration, with the given outcome |
| ModelState.Inc | src/model/state.rs:67-72 | one more occurrence, saturating at `usize::MAX`; iteration and outcome kept |
| ModelState.IncTimesCount | src/model/state.rs:67-72 | `n` increments add `n` occurrences capped at `usize::MAX`, keeping iteration and outcome |
| ModelObs.Inc | src/model/obs.rs:27-32 | one more occurrence, saturating at `usize::MAX`, never fewer; the check result kept |
| ModelObs.IncPreservesResult | src/model/obs.rs:27-32 | any number of increments keeps the check result and never lowers the count |
| ModelReport.Outcomes | src/model/report.rs:33-40 | the outcomes of the report's states, one per state, in order |
| ModelReport.StatesOf | src/model/report.rs:33-40 | the observed states of the report, one per entry, in order |
| ModelReport.OutcomesSnoc | src/model/report.rs:25-28 | the maximum outcome after appending a state is the old maximum raised to that state's outcome |
| ModelReport.Report.constructor | src/model/report.rs:9-21 | an empty report has no outcome and keeps the invariant that the outcome is the maximum over the states |
| ModelReport.Report.Insert | src/model/report.rs:25-28 | appends the state and raises the outcome to cover it, keeping the outcome the maximum over all states (so `None` only for an empty report) |
| Manifest.Slots | src/run/obs.rs:118-119 | the slots of the manifest's records, one per variable, in key order |
| Manifest.Reserve | src/run/obs.rs:141 | the reservation made for a manifest is `of_slots` over its records' slots |
| Manifest.ReserveCovers | src/run/obs.rs:139-143 | every variable's slot lies inside the reservation made for its manifest |
| RunObs.Capped | src/run/obs.rs:35 | a count that stops at `usize::MAX`: never above the true count, equal to it while it fits |
| RunObs.ValuesOf | src/run/obs.rs:124-137 | one (name, value) pair per variable, in key order, holding the value read from that variable's slot |
| RunObs.CurrentStateOf | src/run/obs.rs:82-86 | the current state is ordered by name, with exactly one entry per variable in key order, holding the value in that variable's slot |
| RunObs.ResetAllShape | src/run/obs.rs:117-121 | resetting keeps the lengths of both vectors |
| RunObs.ResetAllReads | src/run/obs.rs:117-121 | after a reset, every in-range variable reads its initial value, or 0 without one, when no two variables share a slot |
| RunObs.Manifested.ForManifest | src/run/obs.rs:140-143 | always `Ok` for the native environment: a fresh environment sized by the manifest's reservation, every slot 0, carrying the manifest |
| RunObs.Manifested.Values | src/run/obs.rs:124-137 | one pair per variable, in key order, with the value `get_i32` gives for its slot |
| RunObs.Manifested.CurrentState | src/run/obs.rs:82-86 | the current state is `CurrentStateOf` the manifest over the environment's contents |
| RunObs.Manifested.Reset | src/run/obs.rs:117-121 | the new contents are the old ones with each variable's initial value (or 0) written in key order |
| RunObs.ObsOfMeaning | src/run/obs.rs:42-63 | the observation map holds exactly the states seen; each has its occurrence count (capped), the iteration of its first sighting (capped) and the checker's outcome from that first sighting |
| RunObs.ObsOfSize | src/run/obs.rs:42-54 | the map never has more entries than there were observations |
| RunObs.ListsExactlySnoc | src/run/obs.rs:72-74 | appending an unlisted map entry to the report lists one more state, still each once |
| RunObs.Observer.constructor | src/run/obs.rs:24-26 | a new observer has no observations and no iterations |
| RunObs.Observer.Observe | src/run/obs.rs:29-40 | the state is recorded in the history, the iteration count grows by one saturating, the map entry for the state is the summary's information, and the map stays the deduplication of the whole history |
| RunObs.Observer.ObserveState | src/run/obs.rs:42-54 | a seen state's information is incremented; an unseen one gets the checker's outcome, one occurrence and the current iteration count |
| RunObs.Observer.ObserveStateForFirstTime | src/run/obs.rs:56-63 | the checker's outcome on the environment, seen once, at the current iteration |
| RunObs.Observer.IntoReport | src/run/obs.rs:66-77 | the report lists every observed state exactly once with its information, the outcome is the maximum of theirs, and `None` exactly when nothing was observed |
| RunObs.Observer.InsertAll | src/run/obs.rs:72-74 | starting from an empty report, one report state per map entry is appended, each state exactly once with its own information, and the report stays consistent with its outcome |
| LegacyObs.Inc | src/obs.rs:52-57 | one more occurrence, the check result kept |
| LegacyObs.SlotValues | src/obs.rs:108-109 | one (name, value) pair per variable in key order, the `i`-th variable read from slot `i` (0 past the end) |
| LegacyObs.AtomicIntValues | src/obs.rs:108 | one pair per atomic variable, in key order, the `i`-th read from atomic slot `i` (0 past the end) |
| LegacyObs.IntValues | src/obs.rs:109 | one pair per plain variable, in key order, the `i`-th read from plain slot `i` (0 past the end) |
| LegacyObs.CurrentState | src/obs.rs:105-111 | the current state is an ordered map |
| LegacyObs.SlotValuesSorted | src/obs.rs:105-111 | value pairs keep the manifest's name order |
| LegacyObs.CurrentStatePlainWins | src/obs.rs:105-111 | each name holds its plain value when it names a plain variable, else its atomic value: plain values, inserted second, win |
| LegacyObs.ObsOfMeaning | src/obs.rs:82-100 | the map holds exactly the observed states, each with its exact occurrence count and the checker's verdict from its first sighting |
| LegacyObs.Observer.constructor | src/obs.rs:61-66 | an empty map and no iterations |
| LegacyObs.Observer.Observe | src/obs.rs:69-80 | the state is recorded, the iteration count grows by one, the summary carries the new count and the state's entry, and the map stays the deduplication of the history |
| LegacyObs.Observer.ObserveState | src/obs.rs:82-100 | a seen state is incremented without consulting the checker; an unseen one is checked and stored with one occurrence |
| LegacyRun.ShouldExit | src/run.rs:15-19 | exit exactly when the iteration count has reached `n` |
| LegacyRun.ShouldExitMonotone | src/run.rs:17 | once a condition says exit, it says so for every later iteration count |
| LegacyRun.ShouldExitZero | src/run.rs:17 | `ExitOnNIterations(0)` exits on every summary |
| LegacyRun.SharedState.constructor | src/run.rs:59-66 | the shared state holds the given checker, exit condition and observer |
| LegacyRun.SharedState.Handle | src/run.rs:69-72 | the environment is observed, and the answer is exit exactly when the observer has now seen at least `n` iterations |
| Halt.OrderFacts | src/run/halt.rs:31-40 | the derived order is total and antisymmetric, with Rotate strictly below Exit |
| Halt.Max | src/run/halt.rs:33-40 | the larger of two types bounds both and is one of them |
| Halt.MaxOf | src/run/halt.rs:33-40 | `Iterator::max` over types: `None` exactly when empty, otherwise a member that bounds them all |
| Halt.ToU8 | src/run/halt.rs:43-49 | the halt byte is always 1 or 2, never the "no halt" 0 |
| Halt.FromU8 | src/run/halt.rs:50-57 | every byte other than 1 and 2 decodes to no halt |
| Halt.FromU8ToU8 | src/run/halt.rs:43-57 | decoding an encoded type gives it back |
| Halt.ToU8FromU8 | src/run/halt.rs:43-57 | decoding succeeds exactly on 1 and 2, and encoding the result gives the byte back |
| Halt.ExitIf | src/run/halt.rs:23-29 | the type exactly when the predicate holds, nothing otherwise |
| Halt.ConditionExitType | src/run/halt.rs:16-20 | the condition's type exactly when the iteration count is a multiple of `n` (`n` non-zero, as `%` demands) |
| Halt.ConditionPeriodic | src/run/halt.rs:18 | a condition gives the same answer `n` iterations later |
| Halt.ModAddPeriod | src/run/halt.rs:18 | adding the period does not change the remainder the condition tests |
| HaltRule.ExitRule | src/config/check.rs:141 | `Condition::exit`: a rule with that condition and type Exit |
| HaltRule.RotateRule | src/config/iter.rs:46-48 | `Condition::rotate`: a rule with that condition and type Rotate |
| HaltRule.RuleExitType | src/run/shared.rs:34 | a rule gives its type exactly when its condition fires on the summary |
| HaltRule.RuleAgreesWithCondition | src/run/halt.rs:16-20 | a periodic rule answers exactly as the periodic condition of the halting module |
| Shared.FiredTypes | src/run/shared.rs:32-34 | the types of exactly the rules that fire on the summary |
| Shared.ExitType | src/run/shared.rs:31-36 | `None` exactly when no rule fires; otherwise the type of a firing rule, and Exit whenever some firing rule says Exit |
| Shared.NoRulesNoHalt | src/run/shared.rs:31-36 | with no halt rules the test never halts by itself |
| Shared.State.constructor | src/run/shared.rs:11-20 | the shared state holds the given checker, environment, rules and observer |
| Shared.State.Observe | src/run/shared.rs:24-28 | the observer records the state as it was before the reset, the environment is then reset to the manifest's initial values, and the answer is the rules' verdict on the new summary |
| ConfigCheck.Default | src/config/check.rs:43-47 | the default strategy neither disables checks nor halts on an outcome (it is Report) |
| ConfigCheck.ToString | src/config/check.rs:79-87 | `Display` prints lower-case text |
| ConfigCheck.FromStr | src/config/check.rs:59-76 | errors are only `BadCheckStrategy` (carrying the lowercased input, which lacks the `exit-on-` prefix) or `BadCheckOutcome`; on prefixed input the result succeeds exactly when the outcome parser accepts the lowercased rest, giving that outcome, and otherwise `BadCheckOutcome` carries the outcome parser's error, the lowercased rest |
| ConfigCheck.FromStrToString | src/config/check.rs:59-87 | printing then parsing gives every strategy back |
| ConfigCheck.ToStringFromStr | src/config/check.rs:59-87 | a successful parse prints back as the lowercased input |
| ConfigCheck.FromStrCaseInsensitive | src/config/check.rs:63 | parsing depends only on the lowercased input |
| ConfigCheck.All | src/config/check.rs:132-136 | five strategies covering every strategy |
| ConfigCheck.AllStringsInSync | src/config/check.rs:184-190 | the printed forms of `all()` are exactly the strings of `string::ALL` |
| ConfigCheck.HaltOutcome | src/config/check.rs:146-151 | an outcome exactly for an exit-on strategy, and it is that strategy's outcome |
| ConfigCheck.HaltRules | src/config/check.rs:139-143 | at most one rule, present exactly when there is a halt outcome: exit on seeing that outcome |
| ConfigCheck.HaltRulesOnlyForExitOn | src/config/check.rs:139-166 | disabling and reporting produce no halt rule; exit-on strategies produce exactly one |
| ConfigIter.FromInts | src/config/iter.rs:71-77 | the strategy's iteration count is the first argument unless it is 0 (no halting); its period is the second unless either is 0 |
| ConfigIter.Iterations | src/config/iter.rs:54-60 | no count exactly for NoHalt |
| ConfigIter.Period | src/config/iter.rs:63-68 | a period exactly for ExitAndRotate |
| ConfigIter.Default | src/config/iter.rs:34-38 | exit after 1000000 iterations, rotating every 100000 |
| ConfigIter.HaltRules | src/config/iter.rs:42-51 | at most two rules: an exit rule every `iterations` first, present iff there is a count, then a rotate rule every `period`, present iff there is a period |
| ConfigSync.ToString | src/config/sync.rs:55-67 | every strategy prints as one of the strings of `string::ALL` |
| ConfigSync.FromStr | src/config/sync.rs:41-52 | succeeds exactly on the strings of `string::ALL`, matched exactly and case-sensitively; any other input is `BadSyncStrategy` carrying it verbatim |
| ConfigSync.FromStrToString | src/config/sync.rs:41-67 | printing then parsing gives every strategy back |
| ConfigSync.ToStringFromStr | src/config/sync.rs:41-67 | a successful parse prints back as exactly the input |
| ConfigSync.All | src/config/sync.rs:70-72 | all three strategies |
| ConfigSync.Default | src/config/sync.rs:34-38 | the default strategy is the one named `spinner`, selecting the spinner factory |
| ConfigSync.AllStringsInSync | src/config/sync.rs:92-97 | the printed forms of `all()` are exactly the strings of `string::ALL` |
| ConfigSync.ToFactory | src/config/sync.rs:76-82 | each strategy selects its own synchroniser factory, and only that strategy selects it |
| ConfigPermute.ToString | src/config/permute.rs:50-61 | every strategy prints as one of the strings of `string::ALL` |
| ConfigPermute.FromStr | src/config/permute.rs:37-47 | succeeds exactly on the strings of `string::ALL`, matched exactly; any other input is `BadPermuteStrategy` carrying it verbatim |
| ConfigPermute.FromStrToString | src/config/permute.rs:37-61 | printing then parsing gives every strategy back |
| ConfigPermute.ToStringFromStr | src/config/permute.rs:37-61 | a successful parse prints back as exactly the input |
| ConfigPermute.All | src/config/permute.rs:75-77 | both strategies |
| ConfigPermute.Default | src/config/permute.rs:30-34 | the default strategy is the one named `random`, selecting the random permuter |
| ConfigPermute.AllStringsInSync | src/config/permute.rs:93-100 | the printed forms of `all()` are exactly the strings of `string::ALL` |
| ConfigPermute.ToPermuter | src/config/permute.rs:79-84 | the static strategy, and only it, gives the no-op permuter; random gives the random generator |
| ConfigTop.Default | src/config/top.rs:7-18 | the derived default: random permutation, spinner, report-only checks, exit after 1000000 iterations rotating every 100000 |
| ConfigTop.HaltRules | src/config/top.rs:22-26 | an outcome rule comes only from an exit-on check strategy, as an exit rule on its outcome; a rotate rule comes only from an exit-and-rotate iteration strategy, every `period` iterations |
| ConfigTop.HaltRulesShape | src/config/top.rs:22-26 | at most three rules; the check strategy adds one only when it is exit-on, and that exit-on-outcome rule comes last |
| ConfigTop.DefaultHaltRules | src/config/top.rs:22-26 | the default configuration exits every 1000000 iterations and rotates every 100000, and nothing else |
| ConfigClap.ValueOf | src/config/clap.rs:35 | a value exactly for an argument that was given, and it is that argument's value |
| ConfigClap.AsUsize | src/config/clap.rs:78-80 | 0 exactly for no count, otherwise the count itself |
| ConfigClap.ParseOr | src/config/clap.rs:82-84 | the default when no string was given, otherwise whatever parsing the string gives |
| ConfigClap.ParseOrElse | src/config/clap.rs:86-91 | the same result as `parse_or` with the default computed up front |
| ConfigClap.FromIntsRoundTrip | src/config/clap.rs:53-60 | `from_ints` of the strategy's own counts read through `as_usize` gives the strategy back |
| ConfigClap.ParseCheck | src/config/clap.rs:44-48 | the strategy unchanged when the flag is absent, otherwise the parse of the flag's value |
| ConfigClap.ParseSync | src/config/clap.rs:72-76 | the strategy unchanged when the flag is absent, otherwise the parse of the flag's value |
| ConfigClap.ParsePermute | src/config/clap.rs:65-69 | the strategy unchanged when the flag is absent, otherwise the parse of the flag's value |
| ConfigClap.ParseIter | src/config/clap.rs:51-62 | a bad iteration count is `BadIterationCount`, checked first; a bad period then `BadPeriod`; on success the strategy is rebuilt by `from_ints` from the given counts, falling back to the strategy's own |
| ConfigClap.ParseIterUnchanged | src/config/clap.rs:51-62 | with neither count given the iteration strategy is returned unchanged |
| ConfigClap.ParseIterDecimal | src/config/clap.rs:51-62 | counts given in decimal are exactly the counts the new strategy gets |
| ConfigClap.ParseConfig | src/config/clap.rs:32-42 | succeeds exactly when every part parses; the input is replaced only when given; the first error, in the order check, iterations, sync, permute, is returned |
| ConfigClap.ParseConfigEmpty | src/config/clap.rs:32-42 | with no arguments the configuration comes back unchanged |
| OutChoice.Default | src/ux/out/choice.rs:44-48 | the default choice is the one named `histogram` |
| OutChoice.FromStr | src/ux/out/choice.rs:50-61 | succeeds exactly when the lowercased input is one of `string::ALL`, giving Histogram exactly for `histogram`; otherwise `BadOutputter` carrying the lowercased input |
| OutChoice.FromStrCaseInsensitive | src/ux/out/choice.rs:54 | parsing depends only on the lowercased input |
| OutChoice.AllParse | src/ux/out/choice.rs:40 | every string of `string::ALL` parses, the first to Histogram and the second to Json |
| OutConfig.DefaultChoice | src/ux/out/config.rs:45-49 | the default choice is the one named `histogram` |
| OutConfig.FromStr | src/ux/out/config.rs:51-62 | succeeds exactly when the lowercased input is one of `string::ALL`, giving Histogram exactly for `histogram`; otherwise `BadOutputter` carrying the lowercased input |
| OutConfig.FromStrCaseInsensitive | src/ux/out/config.rs:55 | parsing depends only on the lowercased input |
| OutConfig.AllParse | src/ux/out/config.rs:41 | every string of `string::ALL` parses, the first to Histogram and the second to Json |
| OutConfig.Default | src/ux/out/config.rs:81-88 | the default configuration uses the default choice and writes to standard output |
| UxClap.FromConfig | src/ux/clap.rs:66 | `?` lifts a configuration error into this layer's error unchanged |
| UxClap.ParseConfig | src/ux/clap.rs:53-62 | succeeds exactly when every strategy parses from its own flag, giving the merged configuration; otherwise the first error, in the order check, iterations, sync, permute, is returned, lifted into a configuration error |
| UxClap.ParseConfigEmpty | src/ux/clap.rs:53-62 | with no arguments the configuration comes back unchanged |
| UxClap.ParseChoice | src/ux/clap.rs:99-103 | the choice unchanged when the output-type flag is absent, otherwise the (case-insensitive) parse of its value |
| UxClap.ParseOutConfig | src/ux/clap.rs:106-112 | succeeds exactly when the choice parses; only the choice changes, the writer is kept |
| UxClap.ParseAction | src/ux/clap.rs:144-155 | dumping the configuration wins over dumping its path, which wins over running; running without an input is `NoInput`; with an input and no dump flag the result is a run of that input with the default output configuration merged with the arguments, or the output configuration's error |
| UxClap.ParseActionRunsInput | src/ux/clap.rs:144-155 | with only an input, the action runs that input with the default output configuration |
| Cells.Flag.constructor | src/fsa.rs:269 | a new halt-state byte starts at 0, no halt requested |
| Cells.Cell.constructor | src/run/fsa.rs:201 | a new shared cell holds the given value |
| Join.JoinOne | src/run/fsa.rs:344 | a handle that failed to spawn gives its spawn error; otherwise whatever joining it gives |
| Join.LastJoinedSnoc | src/fsa.rs:247-251 | one more joined handle: an earlier error sticks, else this handle's error, else its result becomes the last |
| Join.LastJoinedMeaning | src/fsa.rs:246-252 | joining succeeds exactly when every handle spawned and joined, with the last handle's result (none for no handles); otherwise the error is that of the first handle that failed |
| Join.LastJoinedOk | src/fsa.rs:246-252 | joining succeeds exactly when every handle spawned and joined, and then keeps the last handle's result |
| Join.LastJoinedErr | src/fsa.rs:246-252 | a failed join carries the error of the first handle that failed to spawn or join |
| Fsa.OrderFacts | src/fsa.rs:150-156 | the derived order is total and antisymmetric, with Rotate strictly below Exit |
| Fsa.ToU8 | src/fsa.rs:160-165 | the state byte is always 1 or 2, never the "no halt" 0 |
| Fsa.FromU8 | src/fsa.rs:167-173 | a byte decodes to an exit type exactly when it is 1 or 2 |
| Fsa.U8RoundTrip | src/fsa.rs:158-174 | decoding an encoded exit type gives it back, and encoding a decoded byte gives the byte back |
| Fsa.Run | src/fsa.rs:60-78 | done, with the thread id and the decoded type, exactly when the halt byte decodes; otherwise observe exactly when the synchroniser picks this thread, else wait, carrying the same automaton |
| Fsa.Start | src/fsa.rs:20-24 | the runnable handle carries the same automaton |
| Fsa.Resume | src/fsa.rs:100-104 | after waiting, the runnable handle carries the same automaton |
| Fsa.Relinquish | src/fsa.rs:122-127 | after observing, the runnable handle carries the same automaton |
| Fsa.CycleKeepsThread | src/fsa.rs:60-127 | while no halt is requested a thread is never done, and waiting or observing leads back to the same runnable automaton |
| Fsa.Kill | src/fsa.rs:131-136 | the shared byte now encodes the type, and the relinquished automaton is done with that type however the synchroniser answers |
| Fsa.NewSet | src/fsa.rs:261-281 | the environment error, then the synchroniser error, aborts; otherwise `n_threads` automata, thread `i` at position `i`, identical apart from the id, sharing a halt byte that starts at 0 |
| Fsa.Spawned | src/fsa.rs:242 | one handle per automaton, in order, each spawned from that automaton's ready state |
| Fsa.RunSet | src/fsa.rs:234-253 | the joined result of the spawned handles: the first error aborts; otherwise the last thread's exit type (Exit for no threads) with the same automata |
| Fsa.LastJoinedErrSticks | src/fsa.rs:247-248 | once a prefix of the handles fails to join, the whole join fails with the same error |
| Fsa.RunSetAllJoined | src/fsa.rs:246-252 | when every thread joins, a non-empty set reports the last thread's exit type |
| RunFsa.Run | src/run/fsa.rs:65-83 | done, with the thread id and the decoded halt type, exactly when the halt byte decodes; otherwise observe exactly when the synchroniser picks this thread, else wait, carrying the same automaton |
| RunFsa.Start | src/run/fsa.rs:25-29 | the runnable handle carries the same automaton |
| RunFsa.Resume | src/run/fsa.rs:105-109 | after waiting, the runnable handle carries the same automaton |
| RunFsa.Relinquish | src/run/fsa.rs:136-141 | after observing, the runnable handle carries the same automaton |
| RunFsa.CycleKeepsThread | src/run/fsa.rs:65-141 | while no halt is requested a thread is never done, and waiting or observing leads back to the same runnable automaton |
| RunFsa.SetHaltState | src/run/fsa.rs:208-211 | the byte encodes the given halt type, or is 0 to erase it, and decodes back to exactly the given option |
| RunFsa.Kill | src/run/fsa.rs:145-150 | the shared byte now encodes the type, and the relinquished automaton is done with that type however the synchroniser answers |
| RunFsa.GetState | src/run/fsa.rs:217-220 | the tester state exactly when this handle is its sole owner, else `LockReleaseFailed` |
| RunFsa.JoinAll | src/run/fsa.rs:338-349 | the joined result of the handles: the first spawn or join error aborts; otherwise the last thread's halt type, Exit for no handles |
| RunFsa.LastJoinedErrSticks | src/run/fsa.rs:343-344 | once a prefix of the handles fails to join, the whole join fails with the same error |
| RunFsa.Set.constructor | src/run/fsa.rs:391-393 | the set holds exactly the given automata |
| RunFsa.Set.First | src/run/fsa.rs:273-275 | the first automaton exactly when there is one, else `NotEnoughThreads` |
| RunFsa.Set.Permute | src/run/fsa.rs:299-302 | the automata after a Fisher-Yates shuffle driven by the generator's choices (a permutation, by `Shuffle.ShuffledPermutes`) |
| RunFsa.Set.SpawnAll | src/run/fsa.rs:308-317 | one spawn result per automaton, in order |
| RunFsa.Set.IntoOutcome | src/run/fsa.rs:319-335 | an empty set is `NotEnoughThreads`; rotating erases the halt byte and keeps the set; exiting leaves the byte alone and takes out the tester state, failing unless this is its sole owner |
| RunFsa.Set.RunSet | src/run/fsa.rs:287-296 | a join error is returned as is; after a successful join an empty set fails with `NotEnoughThreads`, a joined `Rotate` keeps the set with its halt byte erased, and a joined `Exit` is `get_state` of the first automaton wrapped as an exit (so only a sole owner exits, with the tester state) |
| RunFsa.NewWithEnvAndSync | src/run/fsa.rs:382-399 | `nthreads` fresh automata, thread `i` at position `i`, identical apart from the id, sharing a new halt byte at 0 and a new cell holding the tester state |
| RunFsa.New | src/run/fsa.rs:357-374 | the environment error, then the synchroniser error, aborts; otherwise a fresh set of `n_threads` replicated automata with the halt byte at 0 |
| Shuffle.Swap | src/run/fsa.rs:301 | the two positions exchange their elements, every other position is kept |
| Shuffle.SwapPermutes | src/run/fsa.rs:301 | a swap keeps the same elements with their multiplicities |
| Shuffle.Pick | src/run/fsa.rs:301 | the generator's choice for a position is never above it |
| Shuffle.ShuffledPermutes | src/run/fsa.rs:299-302 | shuffling keeps the length and the multiset of elements, whatever the generator chooses |
| Shuffle.ShuffledIdentity | src/run/fsa.rs:299-302 | a generator that always picks the top position leaves the order alone |
| Instance.Instance.constructor | src/run/instance.rs:92-94 | the instance holds exactly the given automata |
| Instance.Instance.First | src/run/instance.rs:75-77 | the first automaton exactly when there is one, else `NotEnoughThreads` |
| Instance.Instance.ReadyAll | src/run/instance.rs:47 | one ready handle per automaton, wrapping the automaton at the same position |
| Instance.Instance.SpawnAll | src/run/instance.rs:42-50 | the ready handles in the permuter's order: the same length and the same handles with their multiplicities |
| Instance.Instance.IntoOutcome | src/run/instance.rs:52-68 | an empty instance is `NotEnoughThreads`; rotating erases the halt byte and hands the instance back; exiting leaves the byte alone and gives the tester state, failing unless it is solely owned |
| Instance.Instance.Run | src/run/instance.rs:27-36 | a spawn or join error is returned unchanged; otherwise the outcome of the joined halt type, as `IntoOutcome` states it |
| Instance.New | src/run/instance.rs:84-95 | a synchroniser error aborts; otherwise a fresh instance of `n_threads` replicated automata, the last with id `n_threads - 1`, sharing a halt byte at 0 and the given tester state |
| Runner.Builder.constructor | src/run/runner.rs:31-39 | no halt rules, the spinner synchroniser, a checker that answers `Unknown` on every environment, and the no-op permuter |
| Runner.Builder.AddHaltRules | src/run/runner.rs:42-45 | the rules are appended after the existing ones, in order, and nothing else changes |
| Runner.Builder.WithChecker | src/run/runner.rs:48-51 | only the checker factory changes |
| Runner.Builder.WithSync | src/run/runner.rs:54-57 | only the synchroniser factory changes |
| Runner.Builder.WithPermuter | src/run/runner.rs:60-63 | only the permuter factory changes |
| Runner.Builder.MakeSharedState | src/run/runner.rs:84-98 | the environment's allocation error aborts; otherwise a fresh valid tester state: the environment for the manifest with every variable reset to its initial value, an empty observer and history, the entry's checker and a copy of the halt rules |
| Runner.Builder.Build | src/run/runner.rs:69-82 | the manifest error, then the environment's allocation error, then the synchroniser error, aborts; otherwise a fresh valid runner with one automaton per thread, no report, the builder's permuter and an empty observer |
| Runner.Runner.constructor | src/run/runner.rs:73-81 | the runner holds the instance, no report and the permuter |
| Runner.Runner.RunRotation | src/run/runner.rs:123-129 | a panic becomes `ThreadPanic`, a join error is passed on, and the result rotates exactly when the rotation asks to go round again |
| Runner.Runner.Run | src/run/runner.rs:110-121 | rotations run until the first one that does not rotate; that one's panic, join error or failure to own the tester state ends the run with its error; an exit yields a fresh report, kept in the runner, listing exactly the observer's states; without an instance, the old report or `LockReleaseFailed` |
| LegacyTest.Barrier.constructor | src/test.rs:107 | a barrier for the given number of threads |
| LegacyTest.Run | src/test.rs:42-50 | the entry point has run once on the thread's environment, and the thread goes on to observe exactly when the barrier makes it the leader |
| LegacyTest.Start | src/test.rs:32-35 | the runnable test carries the same test |
| LegacyTest.Resume | src/test.rs:56-60 | after the barrier, the runnable test carries the same test |
| LegacyTest.Relinquish | src/test.rs:78-80 | after observing, the test waits as the same test |
| LegacyTest.CycleKeepsTest | src/test.rs:33-80 | from ready through running and either waiting or observing, the thread comes back runnable with its id, entry point and barrier, and the environment its entry point left |
| LegacyTest.Build | src/test.rs:100-123 | no threads is `NotEnoughThreads`; then an environment or entry-point error aborts; otherwise one ready test per thread, thread `i` at position `i`, all sharing the environment, the entry point and one fresh barrier for that many threads |
| UxArgs.SyncFromStr | src/ux/args.rs:92-102 | exactly the two names in `SYNC_ALL` parse, each to its own method; any other string is kept in a `BadSyncMethod` error |
| UxArgs.Parse | src/ux/args.rs:25-41 | a bad iteration count is `BadIterationCount`; otherwise the sync name decides success; the period is read from the same string as the iteration count, so it always equals it, and `BadParseCount` can never arise |
| UxArgs.Conds | src/ux/args.rs:44-59 | an exit condition at the iteration count exactly when it is non-zero, a rotation condition at the period exactly when it lies strictly between zero and the iteration count, and nothing else, exit first |
| UxArgs.ParsedConds | src/ux/args.rs:25-59 | arguments that parse never yield a rotation condition, and yield the exit condition exactly when the iteration count is non-zero |
| UxArgs.SyncFactory | src/ux/args.rs:63-68 | the barrier factory exactly for the barrier method, the spinner factory exactly for the spinner |
| MainArgs.FromErr | src/main.rs:180-184 | a test error is kept, unchanged, inside `RunningTest` |
| MainArgs.SyncFromStr | src/main.rs:30-40 | exactly the two names in `SYNC_ALL` parse, each to its own method; any other string is kept in a `BadSyncMethod` error |
| MainArgs.Parse | src/main.rs:123-139 | a bad iteration count is `BadIterationCount`; otherwise the sync name decides success; the period always equals the iteration count |
| MainArgs.ParseIgnoresPeriod | src/main.rs:64-72 | whatever the `period` argument holds, parsing gives the same result |
| MainArgs.Conds | src/main.rs:141-156 | an exit condition at the iteration count exactly when it is non-zero, a rotation condition at the period exactly when it is non-zero, and nothing else, exit first |
| MainArgs.ParsedConds | src/main.rs:123-156 | arguments that parse with a non-zero count yield exactly an exit and a rotation condition at that count; a zero count yields none |
| MainArgs.SyncFactory | src/main.rs:158-163 | the barrier factory exactly for the barrier method, the spinner factory exactly for the spinner |
| ApiCManifest.Names | src/api/c/manifest.rs:69-78 | exactly `n` names, the first `n` of the array, and none (without touching the array) for a zero count |
| ApiCManifest.Initials | src/api/c/manifest.rs:80-86 | exactly `n` values, the first `n` of the array, and none for a zero count |
| ApiCManifest.LiftToVarMap | src/api/c/manifest.rs:88-97 | a sorted map binding exactly the names that have a value beside them; a name whose position is its last one maps to the value at that position, in the slot of that index and kind |
| ApiCManifest.I32Map | src/api/c/manifest.rs:47-55 | a sorted map in which each atomic variable's binding wins, and the plain variables keep the names no atomic variable takes |
| ApiCManifest.ToManifest | src/api/c/manifest.rs:58-65 | fails, with `NotEnoughThreads`, exactly for a zero thread count; otherwise keeps the count and gives the sorted merged variable map |
| ApiCManifest.AtomicWins | src/api/c/manifest.rs:49-53 | an atomic variable's last occurrence decides its record: its initial value, in the atomic slot of that index |
| LegacyCManifest.LiftToVarMap | src/c.rs:102-110 | a sorted map binding exactly the names that have a value beside them, the rest being dropped; a name whose position is its last one maps to `Some` of the value at that position (the same in src/testapi/c/manifest.rs:86-94) |
| LegacyCManifest.AtomicIntMap | src/c.rs:53-55 | a sorted map naming exactly the first `n_atomic_ints` atomic names, each at its last position bound to `Some` of its initial value (the same in src/testapi/c/manifest.rs:36-38) |
| LegacyCManifest.IntMap | src/c.rs:65-67 | a sorted map naming exactly the first `n_ints` plain names, each at its last position bound to `Some` of its initial value (the same in src/testapi/c/manifest.rs:48-50) |
| LegacyCManifest.KindNames | src/c.rs:83-100 | the map for one kind of variable names exactly the first `n` names of its array, reading nothing for a zero count (the same in src/testapi/c/manifest.rs:67-84) |
| LegacyCManifest.ToManifest | src/c.rs:69-79 | fails, with `NotEnoughThreads`, exactly for a zero thread count; otherwise keeps the count and gives two sorted maps, each naming exactly the variables of its own kind (the same in src/testapi/c/manifest.rs:53-63) |
| LegacyCManifest.MapsIndependent | src/c.rs:53-55 | the atomic map depends only on the atomic count, names and initial values, not on the plain ones (the same in src/testapi/c/manifest.rs:36-38) |
| UxHisto.Segments | src/ux/out/histo.rs:66-68 | one `name=value` segment per variable of the valuation, in key order |
| UxHisto.StringifyValuation | src/ux/out/histo.rs:63-71 | an empty valuation gives the empty string, and a single variable gives just its segment |
| UxHisto.StringifySplits | src/ux/out/histo.rs:63-71 | for names without tabs or newlines, splitting the text at tabs gives back the segments, in key order |
| UxHisto.ValueHasNo | src/ux/out/histo.rs:68 | a printed value holds no tab and no newline |
| UxHisto.CheckSigil | src/ux/out/histo.rs:53-59 | one character: `*` exactly for a pass, `:` exactly for a failure, `?` exactly when unknown |
| UxHisto.LineFields | src/ux/out/histo.rs:42-51 | a state's line splits at tabs into the occurrence count, the sigil with `>`, the valuation's segments and the `(iter N)` field, and the first field reads back as the occurrence count |
| UxHisto.Line | src/ux/out/histo.rs:42-51 | a state's line starts with the occurrence count and a tab, and ends with the `(iter N)` field |
| UxHisto.LineHasNoNewline | src/ux/out/histo.rs:42-51 | a state's line has no newline before the one `writeln!` adds |
| UxHisto.Lines | src/ux/out/histo.rs:35-40 | one line per state, in vector order |
| UxHisto.RenderSplits | src/ux/out/histo.rs:35-51 | the written text splits at newlines into exactly one line per state, in vector order, then an empty remainder |
| UxHisto.Histogram.constructor | src/ux/out/histo.rs:29-33 | nothing has been written yet |
| UxHisto.Histogram.DumpState | src/ux/out/histo.rs:42-51 | the state's line and a newline are appended to what was written |
| UxHisto.Histogram.DumpStates | src/ux/out/histo.rs:35-40 | the rendering of all the states, in vector order, is appended to what was written |
| UxHisto.Histogram.Output | src/ux/out/histo.rs:20-24 | the rendering of the report's states is appended to what was written |
| UxObs.Padding | src/ux/obs.rs:46-51 | the padding is at least the decimal width of every occurrence count and equals the width of one of them; it is 0 for an empty set and at least 1 otherwise |
| UxObs.CheckSigil | src/ux/obs.rs:38-43 | one character: `*` exactly for a pass, `:` exactly for a failure |

## Left out

- Threads, barriers and spinners, `crossbeam` scopes and `Arc` reference counts are not modelled. The synchroniser's answer, the spawn and join results, thread panics and sole ownership of the tester state are inputs, as described above. Threads do not change the observer during a rotation.
- Memory orderings of the atomics (`Acquire`, `Release`, `Relaxed`) are not modelled: atomic loads and stores are plain reads and writes of one cell.
- Foreign code is not modelled: the test's entry point (`run`), the C `check` function, dynamic loading through `dlopen`, and the FFI `Env` of `src/c.rs`. Their effect is a function parameter or a `Result` input.
- Output I/O is not modelled: `println!`, the tab writer's column alignment, terminal colours, writer and flush errors, `print_obs` in `src/main.rs`, `main`/`run`/`run_with_args`, `Outputtable::output` and `to_outputter`/`into_outputter`. The text handed to the writer is modelled.
- `HistogramDumper::dump_obs` in `src/ux/obs.rs` is not modelled. It prints `v.iteration`, a field the observation records of `src/model/obs.rs` do not have. Only its `padding` and `check_sigil` are modelled.
- `Config::config_file` (a file-system lookup) and the TOML serialisation of `Config` are not modelled.
- `ConfigCheck`'s `to_factory` is not modelled: it returns checker factories, which are foreign functions.
- `Bundle::new` in `src/fsa.rs` and `TestBuilder::new` in `src/test.rs` are not modelled: they load the foreign entry point.
- The `run::Condition::EveryNIterations` type built by `src/main.rs` and `src/ux/args.rs` is not part of this model: `src/run.rs` has `ExitCondition` instead. Module `RunCondition` gives it the shape those files use.
- The `halt::Rule` generation used by `src/config/*.rs`, `src/run/shared.rs` and `src/run/runner.rs` is not part of this model: `src/run/halt.rs` has only `Condition`. Module `HaltRule` gives it the shape those files use, and its exit rule is modelled on `Condition::exit_type`.
- The `env` module that `src/test.rs` uses (`Env::new`, `load_test`, `env::Error`) is not part of this model. Its environment and entry point are `Result` inputs.
- `Manifest::reserve` of `src/model/manifest.rs` is not part of this model. `Manifest.Reserve` defines it as `of_slots` over the records' slots, which is the reservation `src/run/obs.rs:139-143` needs.
- `observe_and_reset`, called by `src/run.rs`, is not part of this model. It is modelled as `LegacyObs.Observer.Observe`.
- The legacy environment's `atomic_int_values` and `int_values` are not part of this model. `LegacyObs.AtomicIntValues` and `LegacyObs.IntValues` read the `i`-th variable of each kind from slot `i`, through `LegacyObs.SlotValues`.
- `src/run/instance.rs` relies on an `fsa::Inner::new` with four arguments and on `replicate`, which are not part of this model. It is modelled over `RunFsa`'s construction.
- `Text.Lower` lowercases ASCII letters only, where Rust's `to_lowercase` is Unicode-aware. The parsers compare the result with ASCII names, so only non-ASCII spellings of those names would differ.
- `UxClap`: the `?` on output-configuration errors in `src/ux/clap.rs` has no conversion into `ux::err::Error` in the shown source. The model returns a local sum of the two error types.
- `UxArgs.Parse`, `MainArgs.Parse` and their `ParsedConds` require the input, iteration-count and sync arguments to be present. Clap always supplies them (required or defaulted), and `src/ux/args.rs:26-32` and `src/main.rs:124-130` `unwrap` them. The two `ParseConfig` merges have no such requirement: they read every argument through `value_of` and handle its absence.
- The slot-carrying manifest generation (a `NonZeroUsize` thread count, one `i32s` map, records that carry a slot) used by `src/run/obs.rs` and `src/api/c/manifest.rs` is not part of this model: `src/model/manifest.rs` has two maps and records without a slot. Module `Manifest` gives it the shape those files use. `src/model/manifest.rs` itself has the shape of `LegacyManifest`.
- `Slot.AddSlot`: reservation counts are unbounded. The source's `slot.index + 1` on `usize` (`src/model/slot.rs:43`) panics in debug builds, and wraps to 0 in release builds, at `index == usize::MAX`. The model's count then still covers the slot, where the source's would not.
- `LegacyObs.Inc`: the occurrence count is unbounded. The source's `occurs + 1` on `usize` would overflow at `usize::MAX`.
- `LegacyObs.Observer.Observe`: the iteration count is unbounded, for the same reason.
- `RunFsa.NewWithEnvAndSync`, `RunFsa.New` and `Fsa.NewSet` require a non-zero thread count. The source computes `n_threads - 1`, which panics on zero; every manifest loader rejects zero first.
- `Runner.Runner.Run` is modelled for runs whose rotations eventually stop rotating. A test that rotates forever does not terminate in the source either.
- `Vec` capacities and allocation failures inside Rust collections are not modelled.
- `Runner.Builder` builds its shared state over the native environment of `src/api/rust/env.rs`. The C environment that `src/bin/phph.rs` runs differs, for the builder, only in that `of_reservations` can fail with `EnvAllocFailed` (`src/api/c/env.rs:53-64`). That failure enters `Runner.Builder.MakeSharedState` and `Runner.Builder.Build` as their `envErr` input, and the C environment's slot storage is `CEnv`.
- The `// For now` reading of the period from the iteration string in `src/ux/args.rs` and `src/main.rs` is modelled as written (`UxArgs.Parse`, `MainArgs.ParseIgnoresPeriod`).

## Findings

| source | as written | input that shows it | evidently intended | confidence | as-written member | corrected member |
|---|---|---|---|---|---|---|
| src/api/c/env.c:40,47,54,61 | the guard `count < c` lets `c == count` through to the array access | `c == count`: the getter reads, and the setter writes, one element past the end of the `calloc`ed array | `count <= c`, so that every index from `count` upwards reads 0 and is ignored on write | not executed | CEnv.GuardAdmitsOnePastEnd | CEnv.CheckedAgrees |
