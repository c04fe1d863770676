# SpotBugs null-analysis support, modelled in Dafny

This project models the control-flow-graph-level dataflow logic that SpotBugs
uses around its null-pointer analysis, and proves what that logic promises.

- **Exception-thrower summaries.** `ExceptionThrowerSet` is a tag (ALWAYS or
  CONDITIONAL) with a set of parameter indices. `BuildExceptionThrowerDatabase`
  fills a summary database. A method without arguments is ALWAYS when every
  edge into the exit comes from a throw. A method with arguments is explored
  by an explicit-stack depth-first walk that records which argument slots are
  null-tested on the throwing path.
- **The nullness instruction-modelling visitor.** `IsNullValueFrameModelingVisitor`
  holds the frame-update rules: the assertion reset, the new-null slot,
  tightening parameters that must be non-null, thrower summaries at call
  sites, the return-value priority table, and the known-value shortcut.
- **The dynamic non-null call-result tracker.** A `DynamicFrame` is a set of
  method names. `DynamicDataflow` makes one pass in a given block order. It adds
  a method's name on the non-null edge after `invoke; ifnull` or
  `aconst_null; …; invoke; if_acmp` (the call right before the comparison,
  the `aconst_null` pushed before the call's arguments).
- **Branch decisions and value-number-correlated refinement.**
  `CreatorDataValueDecision` and `CreatorDataAnalysis` hold the decision table
  per comparison opcode, the per-edge decision lookup, the slot rewrite in
  `replaceValues`, and the per-slot merge.

Each mutable Java object is a class whose methods change its fields in
place: the thrower set, the nullness frame, the visitor, the dynamic frame,
the dataflow, the creator frame and the analysis. Each method is proved
against a specification function over values, and lemmas are proved about
those functions. The graph is given data (`Bytecode.Cfg`): one instruction
list per method, the index of each block's last instruction, and the edges
with their kinds. The other analyses (value numbering, type dataflow, deref
analysis, annotation and return-value databases, call-target resolution, the
field summary) are oracle fields of an environment record. The nullness
predicates `isDefinitelyNull`, `isNullOnSomePath` and `isDefinitelyNotNull`
are an oracle record too. The JSON classifier is another.

Files:
- `wrappers.dfy`: Option and Result, and a witness for a non-empty set.
- `bytecode.dfy`: instructions, edges and the graph.
- `exception_thrower_set.dfy`
- `build_exception_thrower_database.dfy`
- `is_null_value.dfy`: nullness values and the return-value table.
- `is_null_value_frame.dfy`
- `is_null_value_frame_modeling_visitor.dfy`
- `dynamic_frame.dfy`
- `dynamic_dataflow.dfy`
- `creator_data_value_decision.dfy`
- `creator_data_analysis.dfy`

## Model

| member | source | states |
|---|---|---|
| ExceptionThrowerSets.ExceptionThrowerSet.constructor | spotbugs/src/main/java/edu/umd/cs/findbugs/classfile/engine/bcel/ExceptionThrowerSet.java:11-13 | a new set carries the given tag and has no parameter index set |
| ExceptionThrowerSets.ExceptionThrowerSet.NewConditionalThrowerType | spotbugs/src/main/java/edu/umd/cs/findbugs/classfile/engine/bcel/ExceptionThrowerSet.java:15-17 | the set it builds is fresh, conditional and empty |
| ExceptionThrowerSets.ExceptionThrowerSet.SetParam | spotbugs/src/main/java/edu/umd/cs/findbugs/classfile/engine/bcel/ExceptionThrowerSet.java:19-21 | afterwards the index is set, every other index keeps its old answer, and the bit set grows by exactly that index; the tag is not touched |
| ExceptionThrowerSets.ExceptionThrowerSet.Clear | spotbugs/src/main/java/edu/umd/cs/findbugs/classfile/engine/bcel/ExceptionThrowerSet.java:23-25 | afterwards no index is set; the tag is not touched |
| ExceptionThrowerSets.ExceptionThrowerSet.Snapshot | spotbugs/src/main/java/edu/umd/cs/findbugs/classfile/engine/bcel/ExceptionThrowerSet.java:27-38 | the stored summary is conditional exactly when the set is, and holds exactly the indices `isIndexSet` answers true for |
| ExceptionThrowerSets.SetParamTwice | spotbugs/src/main/java/edu/umd/cs/findbugs/classfile/engine/bcel/ExceptionThrowerSet.java:19-21 | setting the same index twice leaves the same set as setting it once |
| BuildExceptionThrowerDatabase.VisitClassContext | spotbugs/src/main/java/edu/umd/cs/findbugs/detect/BuildExceptionThrowerDatabase.java:26-40 | an ineligible class (not application, interface or abstract) leaves the database unchanged; for an eligible one the database ends as `ConsiderMethods` of the methods in call order, so no entry is removed and every written entry belongs to a static or public method of the class, is ALWAYS for a method without arguments and conditional with indices below the argument count for one with arguments |
| BuildExceptionThrowerDatabase.ConsiderMethod | spotbugs/src/main/java/edu/umd/cs/findbugs/detect/BuildExceptionThrowerDatabase.java:29-36 | one method changes at most its own entry: a static or public method with a graph gets the conditional summary of its walk (with arguments, unless a violation is reachable) or ALWAYS (without arguments, when every exit edge throws); anything else leaves the database as it was |
| BuildExceptionThrowerDatabase.ConsiderMethodsChanges | spotbugs/src/main/java/edu/umd/cs/findbugs/detect/BuildExceptionThrowerDatabase.java:29-37 | examining the methods removes no key, and every key that changes belongs to an examined static or public method with a graph and holds a summary that fits its argument count |
| BuildExceptionThrowerDatabase.ConsiderMethodsKeepsOthers | spotbugs/src/main/java/edu/umd/cs/findbugs/detect/BuildExceptionThrowerDatabase.java:29-37 | a key under which no examined method is stored is left as it was |
| BuildExceptionThrowerDatabase.ConsiderMethodsRecordsEach | spotbugs/src/main/java/edu/umd/cs/findbugs/detect/BuildExceptionThrowerDatabase.java:29-37 | every method is examined: with distinct descriptors, each method's entry after the class is exactly what examining that method alone would store |
| BuildExceptionThrowerDatabase.ConsiderThrowerMethod | spotbugs/src/main/java/edu/umd/cs/findbugs/detect/BuildExceptionThrowerDatabase.java:108-136 | the method is recorded as ALWAYS exactly when every edge into the exit is an unhandled-exception edge or leaves a block ending in ATHROW (vacuously so with no such edge); otherwise, or without a graph, the database is unchanged |
| BuildExceptionThrowerDatabase.AnalyzeKaboomMethod | spotbugs/src/main/java/edu/umd/cs/findbugs/detect/BuildExceptionThrowerDatabase.java:60-106 | the walk answers true exactly when no non-unhandled-exception edge into the exit is reachable while the start block does not end in ATHROW; the bit set only grows, only by indices recorded on reachable edges, and on success by all of them |
| BuildExceptionThrowerDatabase.ConsiderKaboomMethod | spotbugs/src/main/java/edu/umd/cs/findbugs/detect/BuildExceptionThrowerDatabase.java:42-58 | a conditional summary holding exactly the indices recorded on reachable edges is stored exactly when the walk succeeds; on failure nothing is stored |
| BuildExceptionThrowerDatabase.ExamineEdge | spotbugs/src/main/java/edu/umd/cs/findbugs/detect/BuildExceptionThrowerDatabase.java:74-97 | an edge is rejected exactly when it violates the exit rule, skipped exactly when it is the non-null side of a null test of an argument load, and records exactly the loaded argument index otherwise |
| BuildExceptionThrowerDatabase.RecordedParam | spotbugs/src/main/java/edu/umd/cs/findbugs/detect/BuildExceptionThrowerDatabase.java:83-94 | a recorded index is always below the method's argument count |
| BuildExceptionThrowerDatabase.ParamNullTestAt | spotbugs/src/main/java/edu/umd/cs/findbugs/detect/BuildExceptionThrowerDatabase.java:81-87 | a null test of an ALOAD is recognised only for a slot below the argument count |
| BuildExceptionThrowerDatabase.DrainIterator | spotbugs/src/main/java/edu/umd/cs/findbugs/detect/BuildExceptionThrowerDatabase.java:70-104 | draining one edge iterator keeps the walk invariant; the visited set only grows and stays within the graph's blocks, so each block's iterator is pushed at most once |
| BuildExceptionThrowerDatabase.FollowNextEdge | spotbugs/src/main/java/edu/umd/cs/findbugs/detect/BuildExceptionThrowerDatabase.java:72-103 | taking one edge either advances the current iterator or pushes the iterator of a block not visited before |
| BuildExceptionThrowerDatabase.ClosedRegionCoversReachable | spotbugs/src/main/java/edu/umd/cs/findbugs/detect/BuildExceptionThrowerDatabase.java:70-105 | once the stack is empty no violation is reachable and the recorded indices are exactly those of reachable edges |
| BuildExceptionThrowerDatabase.ReachableIsVisited | spotbugs/src/main/java/edu/umd/cs/findbugs/detect/BuildExceptionThrowerDatabase.java:98-102 | every block reachable without crossing a non-null edge is visited |
| BuildExceptionThrowerDatabase.ExtendPath | spotbugs/src/main/java/edu/umd/cs/findbugs/detect/BuildExceptionThrowerDatabase.java:88-102 | a path extends along every edge that is not the non-null side of an argument test |
| BuildExceptionThrowerDatabase.RecordedIsReachable | spotbugs/src/main/java/edu/umd/cs/findbugs/detect/BuildExceptionThrowerDatabase.java:87-92 | an index recorded on an edge leaving a reachable block is among the reachable recorded indices |
| BuildExceptionThrowerDatabase.TakeEdge | spotbugs/src/main/java/edu/umd/cs/findbugs/detect/BuildExceptionThrowerDatabase.java:72-103 | handling one edge, with or without pushing its target, re-establishes the walk invariant |
| BuildExceptionThrowerDatabase.WalkStarts | spotbugs/src/main/java/edu/umd/cs/findbugs/detect/BuildExceptionThrowerDatabase.java:61-69 | the walk invariant holds for the start block alone on the stack |
| BuildExceptionThrowerDatabase.DropExhausted | spotbugs/src/main/java/edu/umd/cs/findbugs/detect/BuildExceptionThrowerDatabase.java:70-72 | an exhausted iterator can be dropped from the stack |
| IsNullValues.ReturnValueNullness | spotbugs/src/main/java/edu/umd/cs/findbugs/ba/npe/IsNullValueFrameModelingVisitor.java:320-349 | the priority table: CHECK_FOR_NULL exactly gives null-on-simple-path; NONNULL or a database answer of true (without CHECK_FOR_NULL or NULLABLE before it) exactly gives non-null; everything else gives non-reporting not-null |
| IsNullValueFrames.IsNullValueFrame.GetKnownValue | spotbugs/src/main/java/edu/umd/cs/findbugs/ba/npe/IsNullValueFrameModelingVisitor.java:176 | a known value is found exactly when the value number has an entry, and it is that entry |
| IsNullValueFrames.IsNullValueFrame.ToExceptionValues | spotbugs/src/main/java/edu/umd/cs/findbugs/ba/npe/IsNullValueFrameModelingVisitor.java:467-469 | every slot is replaced by the exception value of its old content |
| IsNullValueFrameModeling.AssertReset | spotbugs/src/main/java/edu/umd/cs/findbugs/ba/npe/IsNullValueFrameModelingVisitor.java:96-99 | definitely-null and null-on-some-path values become non-reporting not-null; all others are unchanged |
| IsNullValueFrameModeling.ResetSlots | spotbugs/src/main/java/edu/umd/cs/findbugs/ba/npe/IsNullValueFrameModelingVisitor.java:95-100 | the assertion reset applied to every slot, length kept |
| IsNullValueFrameModeling.ResetKnownValues | spotbugs/src/main/java/edu/umd/cs/findbugs/ba/npe/IsNullValueFrameModelingVisitor.java:101-107 | the assertion reset applied to every known-value entry, keys kept |
| IsNullValueFrameModeling.AssertResetIdempotent | spotbugs/src/main/java/edu/umd/cs/findbugs/ba/npe/IsNullValueFrameModelingVisitor.java:92-109 | applying the assertion reset twice equals applying it once |
| IsNullValueFrameModeling.TightenSlots | spotbugs/src/main/java/edu/umd/cs/findbugs/ba/npe/IsNullValueFrameModelingVisitor.java:184-193 | the slot loop for one value number: a slot with that number that is not definitely non-null becomes the no-kaboom value; the loop stops exactly when such a slot was definitely null |
| IsNullValueFrameModeling.TightenKnown | spotbugs/src/main/java/edu/umd/cs/findbugs/ba/npe/IsNullValueFrameModelingVisitor.java:176-183 | the known value of the number, if not definitely non-null, becomes the no-kaboom value; every other entry is unchanged |
| IsNullValueFrameModeling.TightenTopIff | spotbugs/src/main/java/edu/umd/cs/findbugs/ba/npe/IsNullValueFrameModelingVisitor.java:172-194 | the frame becomes TOP exactly when some required-non-null value number has a definitely-null known value or a definitely-null slot |
| IsNullValueFrameModeling.TightenSlotsResult | spotbugs/src/main/java/edu/umd/cs/findbugs/ba/npe/IsNullValueFrameModelingVisitor.java:184-193 | when the frame does not become TOP, a slot becomes the no-kaboom value exactly when its value number is required non-null and it was not definitely non-null |
| IsNullValueFrameModeling.TightenKnownResult | spotbugs/src/main/java/edu/umd/cs/findbugs/ba/npe/IsNullValueFrameModelingVisitor.java:175-183 | when the frame does not become TOP, exactly the known values of required-non-null numbers that were not definitely non-null become the no-kaboom value |
| IsNullValueFrameModeling.GuardedLoadSlotIgnoresEdges | spotbugs/src/main/java/edu/umd/cs/findbugs/ba/npe/IsNullValueFrameModelingVisitor.java:212-236 | the specification of the ALWAYS-thrower scan does not depend on the graph's edges; this holds by its definition, which reads only the call's own block, and the evidence that the scan itself behaves so is `ScanForGuardedLoad` proved equal to it |
| IsNullValueFrameModeling.LoadsBackward | spotbugs/src/main/java/edu/umd/cs/findbugs/ba/npe/IsNullValueFrameModelingVisitor.java:247-256 | a successful backward walk yields one slot per consumed word, the first being the ALOAD at the starting instruction |
| IsNullValueFrameModeling.LoadsAlongIsLoadsBackward | spotbugs/src/main/java/edu/umd/cs/findbugs/ba/npe/IsNullValueFrameModelingVisitor.java:248-256 | the walk succeeds exactly when the last `consume` instructions are all ALOAD |
| IsNullValueFrameModeling.ConditionalLoads | spotbugs/src/main/java/edu/umd/cs/findbugs/ba/npe/IsNullValueFrameModelingVisitor.java:238-258 | the conditional rule applies only with at least one consumed word, and then yields one load per word |
| IsNullValueFrameModeling.ApplyConditionalExact | spotbugs/src/main/java/edu/umd/cs/findbugs/ba/npe/IsNullValueFrameModelingVisitor.java:258-267 | exactly the slots loaded by the i-th ALOAD from the end, for an argument index consume-1-i that the summary sets, become the no-kaboom value; all others are unchanged |
| IsNullValueFrameModeling.ApplyConditionalOnlyKaboom | spotbugs/src/main/java/edu/umd/cs/findbugs/ba/npe/IsNullValueFrameModelingVisitor.java:258-267 | every slot keeps its value or becomes the no-kaboom value |
| IsNullValueFrameModeling.CombinedReturnValueLeaves | spotbugs/src/main/java/edu/umd/cs/findbugs/ba/npe/IsNullValueFrameModelingVisitor.java:295-302 | the merged return value is built from exactly the resolved targets' own values, in order |
| IsNullValueFrameModeling.CombinedReturnValueHasNoNullLeaf | spotbugs/src/main/java/edu/umd/cs/findbugs/ba/npe/IsNullValueFrameModelingVisitor.java:295-302 | no resolved target contributes a definitely-null value |
| IsNullValueFrameModeling.IsNullValueFrameModelingVisitor.AnalyzeInstruction | spotbugs/src/main/java/edu/umd/cs/findbugs/ba/npe/IsNullValueFrameModelingVisitor.java:82-111 | the whole new frame (slots, known values, status) is `AnalyzeState` of the old one: an invalid frame is left unchanged, otherwise the instruction's visit followed, on a still-valid frame of an assertion call, by the reset of every slot and known value; the new-null slot ends as -1 or as the top slot of a non-empty stack holding a definitely-null value (or, after the assertion reset, its non-reporting replacement) |
| IsNullValueFrameModeling.IsNullValueFrameModelingVisitor.AnalyzeKeepsKnownValues | spotbugs/src/main/java/edu/umd/cs/findbugs/ba/npe/IsNullValueFrameModelingVisitor.java:82-111 | no instruction forgets a known value number: the old keys stay among the new ones |
| IsNullValueFrameModeling.IsNullValueFrameModelingVisitor.VisitKeepsKnownValues | spotbugs/src/main/java/edu/umd/cs/findbugs/ba/npe/IsNullValueFrameModelingVisitor.java:379-564 | each visit rule keeps every known value number |
| IsNullValueFrameModeling.IsNullValueFrameModelingVisitor.ConstantKeepsKnownValues | spotbugs/src/main/java/edu/umd/cs/findbugs/ba/npe/IsNullValueFrameModelingVisitor.java:524-564 | the constant and allocation rules keep every known value number |
| IsNullValueFrameModeling.IsNullValueFrameModelingVisitor.AnalyzeStatusOnlyTop | spotbugs/src/main/java/edu/umd/cs/findbugs/ba/npe/IsNullValueFrameModelingVisitor.java:82-111 | for any frame (an invalid one need not have the words the instruction pops): the status either stays or goes from valid to TOP (a tightening hit), and an invalid frame is not touched at all |
| IsNullValueFrameModeling.IsNullValueFrameModelingVisitor.AnalyzeStackEffect | spotbugs/src/main/java/edu/umd/cs/findbugs/ba/npe/IsNullValueFrameModelingVisitor.java:82-111 | a frame that stays valid changes depth by exactly the instruction's words produced minus words consumed |
| IsNullValueFrameModeling.IsNullValueFrameModelingVisitor.VisitStackEffect | spotbugs/src/main/java/edu/umd/cs/findbugs/ba/npe/IsNullValueFrameModelingVisitor.java:379-564 | unless the frame became TOP, every visit rule changes the depth by produced minus consumed words |
| IsNullValueFrameModeling.IsNullValueFrameModelingVisitor.ConstantStackEffect | spotbugs/src/main/java/edu/umd/cs/findbugs/ba/npe/IsNullValueFrameModelingVisitor.java:524-564 | the constant and allocation rules change the depth by produced minus consumed words |
| IsNullValueFrameModeling.IsNullValueFrameModelingVisitor.GetFieldStackEffect | spotbugs/src/main/java/edu/umd/cs/findbugs/ba/npe/IsNullValueFrameModelingVisitor.java:412-437 | a field load changes the depth by produced minus consumed words |
| IsNullValueFrameModeling.IsNullValueFrameModelingVisitor.GetStaticStackEffect | spotbugs/src/main/java/edu/umd/cs/findbugs/ba/npe/IsNullValueFrameModelingVisitor.java:447-486 | a static load pushes exactly its words |
| IsNullValueFrameModeling.IsNullValueFrameModelingVisitor.InvokeStackEffect | spotbugs/src/main/java/edu/umd/cs/findbugs/ba/npe/IsNullValueFrameModelingVisitor.java:157-318 | unless the tightening made the frame TOP, a call changes the depth by produced minus consumed words |
| IsNullValueFrameModeling.IsNullValueFrameModelingVisitor.ApplyAssertReset | spotbugs/src/main/java/edu/umd/cs/findbugs/ba/npe/IsNullValueFrameModelingVisitor.java:92-109 | every slot and every known-value entry receives the assertion reset |
| IsNullValueFrameModeling.IsNullValueFrameModelingVisitor.ResetKnownValueEntries | spotbugs/src/main/java/edu/umd/cs/findbugs/ba/npe/IsNullValueFrameModelingVisitor.java:101-107 | every known-value entry receives the assertion reset |
| IsNullValueFrameModeling.IsNullValueFrameModelingVisitor.Visit | spotbugs/src/main/java/edu/umd/cs/findbugs/ba/npe/IsNullValueFrameModelingVisitor.java:524-564 | the whole new frame is `VisitState` of the old: the constant and allocation rules, CHECKCAST leaving everything unchanged, the field rules, the invoke rules for all but INVOKEDYNAMIC, and otherwise a pop/push of non-reporting values; the new-null slot marks a definitely-null top |
| IsNullValueFrameModeling.IsNullValueFrameModelingVisitor.VisitConstant | spotbugs/src/main/java/edu/umd/cs/findbugs/ba/npe/IsNullValueFrameModelingVisitor.java:524-564 | the whole new frame is `ConstantState` of the old one, with the new-null slot marking a definitely-null top |
| IsNullValueFrameModeling.IsNullValueFrameModelingVisitor.VisitConstantSlots | spotbugs/src/main/java/edu/umd/cs/findbugs/ba/npe/IsNullValueFrameModelingVisitor.java:524-564 | ACONST_NULL pushes definitely null; NEW and LDC push non-null; the array allocations pop their counts and push non-null; LDC2_W pushes two non-null cells; CHECKCAST changes nothing |
| IsNullValueFrameModeling.IsNullValueFrameModelingVisitor.Produce | spotbugs/src/main/java/edu/umd/cs/findbugs/ba/npe/IsNullValueFrameModelingVisitor.java:141-145 | the whole new frame is `Produced` of the old: the value is pushed, with value-number tracking it is recorded as the known value of the top number after the instruction, the status is kept, and the new-null slot names the top exactly when it is definitely null |
| IsNullValueFrameModeling.IsNullValueFrameModelingVisitor.NewValueOnTOS | spotbugs/src/main/java/edu/umd/cs/findbugs/ba/npe/IsNullValueFrameModelingVisitor.java:355-376 | a definitely-null top of a non-empty stack becomes the new-null slot; with value-number tracking the top value is recorded as the known value of the top value number after the instruction |
| IsNullValueFrameModeling.IsNullValueFrameModelingVisitor.CheckForKnownValue | spotbugs/src/main/java/edu/umd/cs/findbugs/ba/npe/IsNullValueFrameModelingVisitor.java:499-521 | it answers true exactly when a known value exists for the top value number after the instruction; then the new frame is `WithKnown` of the old (operands popped, that value pushed, known values and status unchanged); otherwise the frame is unchanged |
| IsNullValueFrameModeling.IsNullValueFrameModelingVisitor.WithKnown | spotbugs/src/main/java/edu/umd/cs/findbugs/ba/npe/IsNullValueFrameModelingVisitor.java:499-521 | a known-value outcome exists exactly when the top number after the instruction has a known value; it pops the operands, pushes that value and keeps the known values and status |
| IsNullValueFrameModeling.IsNullValueFrameModelingVisitor.Recorded | spotbugs/src/main/java/edu/umd/cs/findbugs/ba/npe/IsNullValueFrameModelingVisitor.java:365-371 | recording the top value as the known value of its number never drops an existing number |
| IsNullValueFrameModeling.IsNullValueFrameModelingVisitor.VisitGetField | spotbugs/src/main/java/edu/umd/cs/findbugs/ba/npe/IsNullValueFrameModelingVisitor.java:412-437 | the whole new frame is `GetFieldState` of the old: a single-word field load takes the known value first when there is one, otherwise the annotation's value, recorded as a known value when the annotation decides it; wider loads pop and push default values |
| IsNullValueFrameModeling.IsNullValueFrameModelingVisitor.GetFieldSlots | spotbugs/src/main/java/edu/umd/cs/findbugs/ba/npe/IsNullValueFrameModelingVisitor.java:412-437 | the known value, else non-null for NONNULL, null on a simple path from the field for CHECK_FOR_NULL, non-reporting otherwise; the known values change only by recording an annotated value; wider loads are a plain pop/push |
| IsNullValueFrameModeling.IsNullValueFrameModelingVisitor.VisitGetStatic | spotbugs/src/main/java/edu/umd/cs/findbugs/ba/npe/IsNullValueFrameModelingVisitor.java:447-486 | the whole new frame is `GetStaticState` of the old: the known value first; a final field whose summary is null pushes definitely null; otherwise an error-level field turns the slots into exception values, and `class$` fields push non-null before the annotation rule |
| IsNullValueFrameModeling.IsNullValueFrameModelingVisitor.LoadStatic | spotbugs/src/main/java/edu/umd/cs/findbugs/ba/npe/IsNullValueFrameModelingVisitor.java:457-469 | the new frame is `StaticLoadState` of the old: definitely null for a final field whose summary is null, otherwise exception values first for an error-level field, then the field's rule |
| IsNullValueFrameModeling.IsNullValueFrameModelingVisitor.PushStaticField | spotbugs/src/main/java/edu/umd/cs/findbugs/ba/npe/IsNullValueFrameModelingVisitor.java:470-485 | the new frame is `StaticFieldState` of the old: non-null for a `class$` field, otherwise the annotation's value, otherwise a default pop/push |
| IsNullValueFrameModeling.IsNullValueFrameModelingVisitor.GetStaticSlots | spotbugs/src/main/java/edu/umd/cs/findbugs/ba/npe/IsNullValueFrameModelingVisitor.java:447-486 | the pushed value of each static rule (known value, definitely null, non-null for `class$`, the annotation's value), with exception values below it for an error-level field, and which rules record a known value |
| IsNullValueFrameModeling.IsNullValueFrameModelingVisitor.VisitPutField | spotbugs/src/main/java/edu/umd/cs/findbugs/ba/npe/IsNullValueFrameModelingVisitor.java:379-409 | the whole new frame is `PutFieldState` of the old: the operands are popped; with redundant-load elimination, every available load of the field on the stored reference gets the stored value as its known value, and no other known value changes |
| IsNullValueFrameModeling.IsNullValueFrameModelingVisitor.RecordKnownValues | spotbugs/src/main/java/edu/umd/cs/findbugs/ba/npe/IsNullValueFrameModelingVisitor.java:399-405 | every given value number gets the stored value as its known value; other entries are unchanged |
| IsNullValueFrameModeling.IsNullValueFrameModelingVisitor.HandleInvoke | spotbugs/src/main/java/edu/umd/cs/findbugs/ba/npe/IsNullValueFrameModelingVisitor.java:157-318 | INVOKEDYNAMIC changes nothing; otherwise the whole new frame is `HandleInvokeState` of the old: a tightening that hits a definitely-null value leaves the frame TOP with the tightened slots and known values and stops; otherwise the thrower summary rules then pop/push default values, or, when the return value is modelled, the combined target value (checked non-null when the dynamic tracker knows the method), recorded as a known value |
| IsNullValueFrameModeling.IsNullValueFrameModelingVisitor.TightenNonNullParameters | spotbugs/src/main/java/edu/umd/cs/findbugs/ba/npe/IsNullValueFrameModelingVisitor.java:166-200 | the frame becomes the tightening outcome for the required-non-null value numbers and is TOP exactly when that outcome stopped |
| IsNullValueFrameModeling.IsNullValueFrameModelingVisitor.TightenRound | spotbugs/src/main/java/edu/umd/cs/findbugs/ba/npe/IsNullValueFrameModelingVisitor.java:175-194 | one value number: a definitely-null known value makes the frame TOP with nothing changed; otherwise the known value and the slots are tightened |
| IsNullValueFrameModeling.IsNullValueFrameModelingVisitor.TightenSlotsOf | spotbugs/src/main/java/edu/umd/cs/findbugs/ba/npe/IsNullValueFrameModelingVisitor.java:184-193 | the slot loop, in place, stopping with the frame TOP at a definitely-null slot |
| IsNullValueFrameModeling.IsNullValueFrameModelingVisitor.InvokeResult | spotbugs/src/main/java/edu/umd/cs/findbugs/ba/npe/IsNullValueFrameModelingVisitor.java:201-316 | the whole new frame is `InvokeResultState` of the old: the thrower rules and default values, or the modelled return value pushed and recorded as the known value of the top number; the status is kept |
| IsNullValueFrameModeling.IsNullValueFrameModelingVisitor.ThrowerSlotsOnlyKaboom | spotbugs/src/main/java/edu/umd/cs/findbugs/ba/npe/IsNullValueFrameModelingVisitor.java:206-272 | the thrower rules only ever turn slots into the no-kaboom value of the call site |
| IsNullValueFrameModeling.IsNullValueFrameModelingVisitor.ApplyThrowerSummary | spotbugs/src/main/java/edu/umd/cs/findbugs/ba/npe/IsNullValueFrameModelingVisitor.java:206-272 | an INVOKESTATIC applies the ALWAYS scan (no consumed words) or the conditional rule to the frame |
| IsNullValueFrameModeling.IsNullValueFrameModelingVisitor.ScanForGuardedLoad | spotbugs/src/main/java/edu/umd/cs/findbugs/ba/npe/IsNullValueFrameModelingVisitor.java:212-236 | at most one slot changes: the ALOAD slot before an IFNONNULL ending the call's own block |
| DynamicFrames.DynamicFrame.constructor | spotbugs/src/main/java/edu/umd/cs/findbugs/detect/DynamicFrame.java:10-16 | a new frame holds no names and is marked new |
| DynamicFrames.DynamicFrame.Contains | spotbugs/src/main/java/edu/umd/cs/findbugs/detect/DynamicFrame.java:42-44 | a name is contained exactly when it is among the frame's non-null names |
| DynamicFrames.DynamicFrame.PutDynamic | spotbugs/src/main/java/edu/umd/cs/findbugs/detect/DynamicFrame.java:18-20 | afterwards the name is contained and every other name keeps its membership |
| DynamicFrames.DynamicFrame.MergeFrom | spotbugs/src/main/java/edu/umd/cs/findbugs/detect/DynamicFrame.java:22-29 | the first merge takes exactly the source's names, later merges keep the intersection; the frame is no longer new and the source is unchanged |
| DynamicFrames.DynamicFrame.DoMergeFrame | spotbugs/src/main/java/edu/umd/cs/findbugs/detect/DynamicFrame.java:31-40 | the names become the intersection with the source's names |
| DynamicFrames.DynamicFrame.CopyExpressions | spotbugs/src/main/java/edu/umd/cs/findbugs/detect/DynamicFrame.java:46-52 | the copy holds exactly the frame's names |
| DynamicFrames.MergeTwice | spotbugs/src/main/java/edu/umd/cs/findbugs/detect/DynamicFrame.java:22-40 | merging the same source twice equals merging it once, and never adds a name after the first merge |
| DynamicDataflows.BalancePointIsNearestZero | spotbugs/src/main/java/edu/umd/cs/findbugs/detect/DynamicDataflow.java:70-80 | the scan stops at the nearest instruction before the call where the stack balance reaches zero, or finds none |
| DynamicDataflows.BalanceLast | spotbugs/src/main/java/edu/umd/cs/findbugs/detect/DynamicDataflow.java:73-79 | the stack balance of a range is that of the shorter range plus the last instruction's words consumed minus produced |
| DynamicDataflows.NullTestName | spotbugs/src/main/java/edu/umd/cs/findbugs/detect/DynamicDataflow.java:96-107 | a name is added exactly on the IFNULL fall-through or IFNONNULL taken edge right after a call, and it is the callee's name |
| DynamicDataflows.AcmpNameIsNullComparison | spotbugs/src/main/java/edu/umd/cs/findbugs/detect/DynamicDataflow.java:65-94 | a name is added exactly on the IF_ACMPEQ fall-through or IF_ACMPNE taken edge right after a call whose nearest balancing instruction is ACONST_NULL |
| DynamicDataflows.EdgeNameOnlyOnNonNullSide | spotbugs/src/main/java/edu/umd/cs/findbugs/detect/DynamicDataflow.java:50-58 | an edge adds a name only when its source ends in a null test or reference comparison after a call, on the side where the result is non-null |
| DynamicDataflows.Touch | spotbugs/src/main/java/edu/umd/cs/findbugs/detect/DynamicDataflow.java:109-116 | a block never seen gets an empty new frame; every existing frame is kept |
| DynamicDataflows.AfterEdges | spotbugs/src/main/java/edu/umd/cs/findbugs/detect/DynamicDataflow.java:46-59 | processing a block's edges only changes that block's frame (and adds empty frames for sources), and leaves it no longer new once an edge was merged |
| DynamicDataflows.AfterEdgesNames | spotbugs/src/main/java/edu/umd/cs/findbugs/detect/DynamicDataflow.java:46-59 | for any incoming edges, self-loops included: a name ends in the block's frame exactly when some edge brings it in (its merge or its own name) and every later edge from another block has a source holding it; a self-loop merges the frame with itself and drops nothing |
| DynamicDataflows.EntryStaysEmpty | spotbugs/src/main/java/edu/umd/cs/findbugs/detect/DynamicDataflow.java:44 | the entry block is never merged into, so its frame stays empty |
| DynamicDataflows.RunNamesFromEdges | spotbugs/src/main/java/edu/umd/cs/findbugs/detect/DynamicDataflow.java:36-62 | every name in any frame was contributed by some edge of the graph |
| DynamicDataflows.AfterEdgesNamesFromEdges | spotbugs/src/main/java/edu/umd/cs/findbugs/detect/DynamicDataflow.java:45-59 | processing edges keeps every name contributed by some edge |
| DynamicDataflows.AfterEdgesIsFold | spotbugs/src/main/java/edu/umd/cs/findbugs/detect/DynamicDataflow.java:46-59 | for any incoming edges, self-loops included: the block's frame after its edges is obtained edge by edge by intersecting with (or, while new, taking) the source's names, or its own names for a self-loop, and then adding the edge's name, reading each other source as it was before the block |
| DynamicDataflows.FoldNames | spotbugs/src/main/java/edu/umd/cs/findbugs/detect/DynamicDataflow.java:46-59 | in that edge-by-edge merge, a name ends in the result exactly when it entered at some step and every later step from another block has a source holding it |
| DynamicDataflows.AfterEdgeBlock | spotbugs/src/main/java/edu/umd/cs/findbugs/detect/DynamicDataflow.java:46-59 | one edge leaves the block's frame as the source's names merged in (its own names for a self-loop, which then drops nothing), plus the edge's name |
| DynamicDataflows.AfterEdgeIs | spotbugs/src/main/java/edu/umd/cs/findbugs/detect/DynamicDataflow.java:47-58 | one edge is "create the source frame if missing, merge it, then add the edge's name" |
| DynamicDataflows.DynamicDataflow.GetFactAtBlock | spotbugs/src/main/java/edu/umd/cs/findbugs/detect/DynamicDataflow.java:118-120 | a frame is returned exactly for a block already touched, and it is the stored one |
| DynamicDataflows.DynamicDataflow.CreateOrGetFrame | spotbugs/src/main/java/edu/umd/cs/findbugs/detect/DynamicDataflow.java:109-116 | an existing frame is returned unchanged; otherwise a fresh empty frame is stored and returned |
| DynamicDataflows.DynamicDataflow.Execute | spotbugs/src/main/java/edu/umd/cs/findbugs/detect/DynamicDataflow.java:36-63 | one pass over the given block order, no fixpoint iteration: the frames end as the specification `Run` of that order |
| DynamicDataflows.DynamicDataflow.ExecuteBlock | spotbugs/src/main/java/edu/umd/cs/findbugs/detect/DynamicDataflow.java:42-61 | one block: the entry is only created, every other block merges all incoming edges in order |
| DynamicDataflows.DynamicDataflow.MergeEdge | spotbugs/src/main/java/edu/umd/cs/findbugs/detect/DynamicDataflow.java:47-58 | one incoming edge changes the frames as `AfterEdge` says |
| DynamicDataflows.DynamicDataflow.MergeInto | spotbugs/src/main/java/edu/umd/cs/findbugs/detect/DynamicDataflow.java:51-58 | only the block's own frame changes: merged with the source's, then the edge's name added |
| DynamicDataflows.DynamicDataflow.CaculateDynamicMap | spotbugs/src/main/java/edu/umd/cs/findbugs/detect/DynamicDataflow.java:96-107 | adds exactly the null-test name of the edge |
| DynamicDataflows.DynamicDataflow.CaculateDynamicMapForAcmp | spotbugs/src/main/java/edu/umd/cs/findbugs/detect/DynamicDataflow.java:65-94 | adds exactly the reference-comparison name of the edge, found by the do-while balance scan |
| CreatorDataValueDecisions.NewDecision | spotbugs/src/main/java/edu/umd/cs/findbugs/detect/CreatorDataValueDecision.java:19-27 | construction fails (with assertions enabled) exactly when both sides are absent |
| CreatorDataValueDecisions.Decision.GetDecision | spotbugs/src/main/java/edu/umd/cs/findbugs/detect/CreatorDataValueDecision.java:33-41 | IFCMP gives the taken-edge side, FALL_THROUGH the fall-through side, and any other edge kind is an IllegalArgumentException |
| CreatorDataValueDecisions.Decision.GetValue | spotbugs/src/main/java/edu/umd/cs/findbugs/detect/CreatorDataValueDecision.java:29-31 | the value number the decision was built with is returned unchanged |
| CreatorDataValueDecisions.NewDecisionRoundTrip | spotbugs/src/main/java/edu/umd/cs/findbugs/detect/CreatorDataValueDecision.java:10-38 | a constructed decision gives back its value and both sides unchanged, and with assertions enabled at least one side is present |
| CreatorDataAnalyses.MergedValueSymmetric | spotbugs/src/main/java/edu/umd/cs/findbugs/detect/CreatorDataAnalysis.java:42-64 | the per-slot merge does not depend on which frame is which |
| CreatorDataAnalyses.MergedValueOutcomes | spotbugs/src/main/java/edu/umd/cs/findbugs/detect/CreatorDataAnalysis.java:50-63 | the merge never yields JSON_OBJECT_ARRAY; it is NOT_JSON exactly when neither input is json or json-source; the json case is JSON_EXP exactly when both are exp; the source case is RAW exactly when either is RAW or ARRAY and EXP exactly when both are EXP |
| CreatorDataAnalyses.CreatorDataAnalysis.MergeValues | spotbugs/src/main/java/edu/umd/cs/findbugs/detect/CreatorDataAnalysis.java:42-64 | only the given slot of the result frame changes, to the merge of the two slots |
| CreatorDataAnalyses.HandleIfNull | spotbugs/src/main/java/edu/umd/cs/findbugs/detect/CreatorDataAnalysis.java:177-189 | IFNULL gives only a fall-through NOT_JSON decision on the tested value; IFNONNULL gives neither side, which fails the constructor assertion when assertions are enabled |
| CreatorDataAnalyses.AcmpNeDecision | spotbugs/src/main/java/edu/umd/cs/findbugs/detect/CreatorDataAnalysis.java:138-170 | IF_ACMPNE: a missing value-number slot is a dataflow error; exactly one definitely-null side gives a decision with no decided side on the other value (or, with assertions enabled, fails the constructor's assertion); otherwise a side known non-null decides the fall-through of the other value as NOT_JSON; with both sides unresolved there is no decision |
| CreatorDataAnalyses.GetDecision | spotbugs/src/main/java/edu/umd/cs/findbugs/detect/CreatorDataAnalysis.java:82-83 | with assertions enabled and no frame stored in `lastFrame` yet, the opening assertion fails; otherwise the result is the block's decision `BlockDecision` |
| CreatorDataAnalyses.BlockDecision | spotbugs/src/main/java/edu/umd/cs/findbugs/detect/CreatorDataAnalysis.java:85-175 | no last instruction or an opcode other than IFEQ, IFNE or a null comparison gives no decision; IFEQ/IFNE after INSTANCEOF with a non-null frame decide the tested value (IFEQ the fall-through, IFNE the taken edge, as NOT_JSON), and with an empty stack or no value-number frame are a dataflow error; IFNULL decides the fall-through of its value as NOT_JSON; IFNONNULL decides neither side (an assertion failure when assertions are on); IF_ACMPNE is `AcmpNeDecision`; IF_ACMPEQ gives no decision |
| CreatorDataAnalyses.EdgeReplacement | spotbugs/src/main/java/edu/umd/cs/findbugs/detect/CreatorDataAnalysis.java:238-253 | a replacement exists only on a branch edge whose source decision has a tested value and a decided side for that edge kind |
| CreatorDataAnalyses.CreatorDataAnalysis.ReplaceValues | spotbugs/src/main/java/edu/umd/cs/findbugs/detect/CreatorDataAnalysis.java:260-296 | an invalid target frame is an IllegalArgumentException; otherwise a fresh copy in which, unless slot counts differ, the target is shorter than the prefix or the frame is invalid, exactly the slots congruent at the target to a tested slot below the prefix hold the replacement |
| CreatorDataAnalyses.CreatorDataAnalysis.MeetInto | spotbugs/src/main/java/edu/umd/cs/findbugs/detect/CreatorDataAnalysis.java:222-258 | a handler destination gets the locals plus one NOT_JSON; decisions apply only on IFCMP and FALL_THROUGH edges, through `replaceValues`; otherwise the frame is copied unchanged |
| CreatorDataAnalyses.CreatorDataAnalysis.InitEntryFact | spotbugs/src/main/java/edu/umd/cs/findbugs/detect/CreatorDataAnalysis.java:209-219 | the result is a valid frame whose every local is NOT_JSON; the cached entry fact is built once |
| CreatorDataAnalyses.CreatorDataFrame.ClearStack | spotbugs/src/main/java/edu/umd/cs/findbugs/detect/CreatorDataAnalysis.java:226 | only the locals are kept |
| CreatorDataAnalyses.EntrySlots | spotbugs/src/main/java/edu/umd/cs/findbugs/detect/CreatorDataAnalysis.java:214-216 | one NOT_JSON per local |

## Left out

- Bytecode decoding, BCEL instruction classes, and building the graph, the depth-first search and the reverse postorder are left out. The graph is given data and the block order is a parameter of `Execute`.
- The value numbering, type dataflow, `checkAllNonNullParams`, call-target resolution, annotation lookups, the return-value database and the field summary are left out. They are oracle fields of `IsNullValueFrameModeling.Environment` and `CreatorDataAnalyses.Env`.
- The internals of `IsNullValue` and its merge table are not part of this model. Values are a datatype of the factory values the visitor creates, and `Merged(l, r)` records a merge symbolically. No join law is claimed.
- The superclass machinery is left out: `AbstractFrameModelingVisitor`, `FrameDataflowAnalysis.mergeInto` and the generic dataflow driver. Only its "pop n words, push m default values" effect is modelled, so an ALOAD pushes a default value instead of copying the local. `MeetInto` returns the frame it would hand to `mergeInto`.
- `Frame.java` is not part of this model. Stack access on a frame with too few stack slots is excluded by `requires`, because the source throws there. A new frame's contents before `setValid` are placeholders.
- IsNullValueFrameModeling.TightenTopIff: `Distinct` is a precondition of the tightening lemmas only, because the source iterates a `Set`. The method itself takes the numbers in the oracle's sequence order.
- IsNullValueFrameModeling.IsNullValueFrameModelingVisitor.AnalyzeInstruction: for a valid frame, enough stack words for the instruction and `VnaMatchesFrame` (value-number frame and nullness frame of the same size) are required, as the source's rules pop the stack and its slot loop reads both frames by the same index. An invalid frame needs neither: the source returns on it before touching either frame, and so does the model.
- IsNullValueFrameModeling.IsNullValueFrameModelingVisitor.HandleInvoke: the callee's graph is not modelled; only its presence (`analysableMethods`) is looked up. For the ALWAYS scan this changes nothing, because that scan reads only the call's own block and never the graph's edges (`GuardedLoadSlotIgnoresEdges`, `ScanForGuardedLoad`). The conditional rule is different: the source asks the callee's graph for the fall-through edges into the caller's block (`getIncomingEdgeWithType` on `cfg`), and the model answers those two lookups from the caller's graph instead (`LoadBlock` over `env.cfg`).
- IsNullValueFrameModeling.IsNullValueFrameModelingVisitor.ReturnValueAt: the dynamic tracker's frame is an oracle `dynamicNonNull`, so the null frame (which the source dereferences) becomes the empty set.
- IsNullValueFrameModeling.IsNullValueFrameModelingVisitor.VisitGetStatic: `toExceptionValues` changes only the slots; the known values are left as they are.
- The argument count is the number of arguments (`getArgumentTypes().length`), one per argument whatever its width, while an ALOAD names a local-variable slot, in which longs and doubles take two slots and an instance method's receiver takes slot 0. The source compares the slot index with the number of arguments, and so does the model. `MethodInfo.argumentCount` is that number, taken as given.
- In `analyzeKaboomMethod`, a null test at the first instruction of a method has no predecessor, and the source would throw there. The model treats that case as "no argument load".
- BuildExceptionThrowerDatabase.AnalyzeKaboomMethod: the exit test reads the start block's last instruction, as the source does, not the edge's source.
- IsNullValueFrameModeling.IsNullValueFrameModelingVisitor.ApplyThrowerSummary: an ALOAD slot beyond the frame makes the source's `setValue` throw, and the exception is swallowed. The model stops the rule at that point.
- Java `HashSet` and `HashMap` iteration order is not modelled. Order-independent loops choose elements arbitrarily, and their contracts do not depend on the order.
- `ExceptionThrowerPropertyDatabase`, `Global.getAnalysisCache` and `AnalysisContext` are left out. The summary database is a map value threaded through the calls.
- `CreatorDataFrameModelingVistor`, `BuildJsonReturnDatabase`, `CreatorDataflowFactory`, `CreatorDataflow` and `CreatorDataValue.java` are not part of this model. The value enum holds the constants `mergeValues` uses, and `isJson`, `isJsonExp` and `isJsonSource` are uninterpreted (`Classifier`).
- CreatorDataAnalyses.GetDecision: `transfer` and `transferInstruction` are left out. The INSTANCEOF frame is a parameter, whether `transferInstruction` has stored a frame in `lastFrame` is the parameter `lastFrameStored`, and each block's recorded decision is an oracle (`resultDecision`).
- CreatorDataAnalyses.CreatorDataAnalysis.MeetInto: a tested decision on a source block without a last instruction is a `DataflowError`, standing for the source's failing lookup at a null location.
- CreatorDataAnalyses.CreatorDataAnalysis.InitEntryFact: the result must not be the cached entry fact. The source never hands that object out.
- The `decision` field of `CreatorDataFrame` is used by the analysis but is not declared in `CreatorDataFrame.java` as shown. The model declares it.
- Logging, debug output, swallowed exceptions and the `SystemProperties` flags are not modelled as such. The flags are configuration booleans (`VisitorConfig`, `assertionsEnabled`).
- Concurrency and reference identity are left out. `ALWAYS` is compared by value, which is the same test, because nothing sets a parameter on it.
