/**
 * The instruction-modeling visitor of the null-pointer analysis: how each
 * instruction changes a nullness frame. The analyses it consults (value
 * numbering, the non-null parameter analysis, annotation and return-value
 * databases, call-target resolution, the dynamic non-null call tracker, the
 * field summary) are the fields of `Environment`; a lookup that fails in the
 * source (a caught exception) is `None` there.
 */
module IsNullValueFrameModeling {
  import opened Wrappers
  import opened Bytecode
  import opened ExceptionThrowerSets
  import opened IsNullValues
  import opened IsNullValueFrames

  /** A field load whose value numbers are still available after a store. */
  datatype AvailableLoad = AvailableLoad(reference: ValueNumber, field: FieldRef)

  /** A value-number frame: one value number per slot, locals first. */
  datatype VnaFrame = VnaFrame(valid: bool, numLocals: nat, slots: seq<ValueNumber>, availableLoads: map<AvailableLoad, seq<ValueNumber>>)
  {
    /** `getStackValue(n)`: the n-th value from the top; `None` where the source throws. */
    function StackValue(n: nat): (r: Option<ValueNumber>)
      ensures r.Some? <==> |slots| - numLocals > n
    {
      if |slots| - numLocals > n then Some(slots[|slots| - 1 - n]) else None
    }
  }

  datatype Environment = Environment(
    cfg: Cfg,                                        // the analysed method
    vnaAt: Location -> Option<VnaFrame>,             // value numbers before an instruction
    vnaAfter: Location -> Option<VnaFrame>,          // value numbers after an instruction
    nonNullParameters: Location -> Option<seq<ValueNumber>>,
    isAssertionCall: Location -> bool,
    methodAnnotation: MethodRef -> NullnessAnnotation,
    fieldAnnotation: FieldRef -> NullnessAnnotation,
    returnValueNonNull: MethodRef -> Option<bool>,
    callTargets: Location -> Option<seq<MethodRef>>,
    dynamicNonNull: BlockId -> set<string>,          // names the dynamic tracker proved non-null at a block
    fieldSummaryIsNull: FieldRef -> bool,
    throwers: map<MethodRef, ThrowerSummary>,
    analysableMethods: set<MethodRef>)               // methods whose graph can be built

  /** The configuration flags: `inva.noAssertHack`, `fnd.modelNonnullReturn`, redundant-load elimination. */
  datatype VisitorConfig = VisitorConfig(noAssertHack: bool, modelNonnullReturn: bool, redundantLoadElimination: bool)

  // ---------------------------------------------------------------------
  // The assertion reset.

  /** A value that is definitely null or null on some path becomes non-reporting not-null. */
  function AssertReset(tests: NullnessTests, v: IsNullValue): (r: IsNullValue)
    ensures tests.definitelyNull(v) || tests.nullOnSomePath(v) ==> r == NonReportingNotNull
    ensures !tests.definitelyNull(v) && !tests.nullOnSomePath(v) ==> r == v
  {
    if tests.definitelyNull(v) || tests.nullOnSomePath(v) then NonReportingNotNull else v
  }

  function ResetSlots(tests: NullnessTests, s: seq<IsNullValue>): (r: seq<IsNullValue>)
    ensures |r| == |s| && forall i :: 0 <= i < |s| ==> r[i] == AssertReset(tests, s[i])
  {
    seq(|s|, i requires 0 <= i < |s| => AssertReset(tests, s[i]))
  }

  function ResetKnownValues(tests: NullnessTests, m: map<ValueNumber, IsNullValue>): (r: map<ValueNumber, IsNullValue>)
    ensures r.Keys == m.Keys && forall vn :: vn in m ==> r[vn] == AssertReset(tests, m[vn])
  {
    map vn | vn in m :: AssertReset(tests, m[vn])
  }

  /** Resetting twice is resetting once. */
  lemma AssertResetIdempotent(tests: NullnessTests, s: seq<IsNullValue>)
    ensures ResetSlots(tests, ResetSlots(tests, s)) == ResetSlots(tests, s)
  {
  }

  // ---------------------------------------------------------------------
  // Tightening the values of parameters the callee requires non-null.

  /** Some slot with value number `vn` holds a value that is definitely null and not definitely non-null. */
  predicate SlotNullAt(tests: NullnessTests, slots: seq<IsNullValue>, vnaSlots: seq<ValueNumber>, vn: ValueNumber)
    requires |vnaSlots| == |slots|
  {
    exists j :: 0 <= j < |slots| && vnaSlots[j] == vn && !tests.definitelyNotNull(slots[j]) && tests.definitelyNull(slots[j])
  }

  predicate KnownNullAt(tests: NullnessTests, known: map<ValueNumber, IsNullValue>, vn: ValueNumber) {
    vn in known && !tests.definitelyNotNull(known[vn]) && tests.definitelyNull(known[vn])
  }

  /** The slot value after tightening for the value numbers `vns`. */
  function Tightened(tests: NullnessTests, v: IsNullValue, vn: ValueNumber, vns: seq<ValueNumber>, kaboom: IsNullValue): IsNullValue {
    if vn in vns && !tests.definitelyNotNull(v) then kaboom else v
  }

  /**
   * The slot loop for one value number, from slot `i` on: a slot with that
   * value number that is not definitely non-null gets `kaboom`; if it was
   * definitely null the loop stops and reports it (the frame then becomes TOP).
   */
  function TightenSlots(tests: NullnessTests, slots: seq<IsNullValue>, vnaSlots: seq<ValueNumber>, vn: ValueNumber,
                        kaboom: IsNullValue, i: nat): (r: (seq<IsNullValue>, bool))
    requires |vnaSlots| == |slots| && i <= |slots|
    ensures |r.0| == |slots|
    ensures forall j :: 0 <= j < i ==> r.0[j] == slots[j]
    ensures !r.1 ==> forall j :: i <= j < |slots| ==>
              r.0[j] == (if vnaSlots[j] == vn && !tests.definitelyNotNull(slots[j]) then kaboom else slots[j])
    ensures r.1 <==> exists j :: i <= j < |slots| && vnaSlots[j] == vn && !tests.definitelyNotNull(slots[j]) && tests.definitelyNull(slots[j])
    decreases |slots| - i
  {
    if i == |slots| then (slots, false)
    else if vnaSlots[i] == vn && !tests.definitelyNotNull(slots[i]) then
      if tests.definitelyNull(slots[i]) then (slots[i := kaboom], true)
      else TightenSlots(tests, slots[i := kaboom], vnaSlots, vn, kaboom, i + 1)
    else TightenSlots(tests, slots, vnaSlots, vn, kaboom, i + 1)
  }

  datatype TightenOutcome = TightenOutcome(slots: seq<IsNullValue>, known: map<ValueNumber, IsNullValue>, top: bool)

  /** The known value of `vn` becomes `kaboom` unless it is absent or definitely non-null. */
  function TightenKnown(tests: NullnessTests, known: map<ValueNumber, IsNullValue>, vn: ValueNumber, kaboom: IsNullValue): (r: map<ValueNumber, IsNullValue>)
    ensures r.Keys == known.Keys
    ensures forall x :: x in known ==> r[x] == (if x == vn && !tests.definitelyNotNull(known[x]) then kaboom else known[x])
  {
    if vn in known && !tests.definitelyNotNull(known[vn]) then known[vn := kaboom] else known
  }

  /**
   * The loop over the required-non-null value numbers: first the known value
   * of the number, then every slot holding it.
   */
  function TightenParameters(tests: NullnessTests, slots: seq<IsNullValue>, known: map<ValueNumber, IsNullValue>,
                             vnaSlots: seq<ValueNumber>, vns: seq<ValueNumber>, kaboom: IsNullValue): (r: TightenOutcome)
    requires |vnaSlots| == |slots|
    ensures |r.slots| == |slots|
    ensures r.known.Keys == known.Keys
    decreases |vns|
  {
    if vns == [] then TightenOutcome(slots, known, false)
    else
      var vn := vns[0];
      if KnownNullAt(tests, known, vn) then TightenOutcome(slots, known, true)
      else
        var t := TightenSlots(tests, slots, vnaSlots, vn, kaboom, 0);
        if t.1 then TightenOutcome(t.0, TightenKnown(tests, known, vn, kaboom), true)
        else TightenParameters(tests, t.0, TightenKnown(tests, known, vn, kaboom), vnaSlots, vns[1..], kaboom)
  }

  /** No value number occurs twice (the source's parameter set). */
  predicate Distinct(vns: seq<ValueNumber>) {
    forall a, b :: 0 <= a < b < |vns| ==> vns[a] != vns[b]
  }

  lemma DistinctTail(vns: seq<ValueNumber>)
    requires Distinct(vns) && vns != []
    ensures Distinct(vns[1..]) && vns[0] !in vns[1..]
    ensures forall x :: x in vns <==> x == vns[0] || x in vns[1..]
  {
    var rest := vns[1..];
    forall a, b | 0 <= a < b < |rest| ensures rest[a] != rest[b] {
      assert rest[a] == vns[a + 1] && rest[b] == vns[b + 1];
    }
    forall a | 0 <= a < |rest| ensures rest[a] != vns[0] {
      assert rest[a] == vns[a + 1];
    }
    assert vns == [vns[0]] + rest;
  }

  /** One round, for value number `vn`, leaves the null tests of every other value number as they were. */
  lemma RoundKeepsOthers(tests: NullnessTests, slots: seq<IsNullValue>, known: map<ValueNumber, IsNullValue>,
                         vnaSlots: seq<ValueNumber>, vn: ValueNumber, kaboom: IsNullValue, x: ValueNumber)
    requires |vnaSlots| == |slots| && x != vn
    requires !TightenSlots(tests, slots, vnaSlots, vn, kaboom, 0).1
    ensures KnownNullAt(tests, TightenKnown(tests, known, vn, kaboom), x) == KnownNullAt(tests, known, x)
    ensures SlotNullAt(tests, TightenSlots(tests, slots, vnaSlots, vn, kaboom, 0).0, vnaSlots, x) == SlotNullAt(tests, slots, vnaSlots, x)
  {
    var t := TightenSlots(tests, slots, vnaSlots, vn, kaboom, 0).0;
    if SlotNullAt(tests, slots, vnaSlots, x) {
      var j :| 0 <= j < |slots| && vnaSlots[j] == x && !tests.definitelyNotNull(slots[j]) && tests.definitelyNull(slots[j]);
      assert t[j] == slots[j];
    }
    if SlotNullAt(tests, t, vnaSlots, x) {
      var j :| 0 <= j < |slots| && vnaSlots[j] == x && !tests.definitelyNotNull(t[j]) && tests.definitelyNull(t[j]);
      assert t[j] == slots[j];
    }
  }

  /** Some required-non-null number is known to be, or held by a slot that is, definitely null. */
  predicate SomeParameterNull(tests: NullnessTests, slots: seq<IsNullValue>, known: map<ValueNumber, IsNullValue>,
                              vnaSlots: seq<ValueNumber>, vns: seq<ValueNumber>)
    requires |vnaSlots| == |slots|
  {
    exists vn :: vn in vns && (KnownNullAt(tests, known, vn) || SlotNullAt(tests, slots, vnaSlots, vn))
  }

  /**
   * With distinct value numbers, the frame becomes TOP exactly when some
   * required-non-null number is known to be, or held by a slot that is,
   * definitely null.
   */
  lemma {:induction false} TightenTopIff(tests: NullnessTests, slots: seq<IsNullValue>, known: map<ValueNumber, IsNullValue>,
                                         vnaSlots: seq<ValueNumber>, vns: seq<ValueNumber>, kaboom: IsNullValue)
    requires |vnaSlots| == |slots| && Distinct(vns)
    ensures TightenParameters(tests, slots, known, vnaSlots, vns, kaboom).top <==> SomeParameterNull(tests, slots, known, vnaSlots, vns)
    decreases |vns|
  {
    if vns != [] {
      var vn := vns[0];
      var t := TightenSlots(tests, slots, vnaSlots, vn, kaboom, 0);
      DistinctTail(vns);
      if KnownNullAt(tests, known, vn) || t.1 {
        assert vn in vns && (KnownNullAt(tests, known, vn) || SlotNullAt(tests, slots, vnaSlots, vn));
      } else {
        var rest := vns[1..];
        var known' := TightenKnown(tests, known, vn, kaboom);
        TightenTopIff(tests, t.0, known', vnaSlots, rest, kaboom);
        forall x | x in rest
          ensures KnownNullAt(tests, known', x) == KnownNullAt(tests, known, x)
          ensures SlotNullAt(tests, t.0, vnaSlots, x) == SlotNullAt(tests, slots, vnaSlots, x)
        {
          RoundKeepsOthers(tests, slots, known, vnaSlots, vn, kaboom, x);
        }
        assert SomeParameterNull(tests, t.0, known', vnaSlots, rest) == SomeParameterNull(tests, slots, known, vnaSlots, vns);
      }
    }
  }

  /**
   * Unless the frame becomes TOP, every slot holding a required-non-null
   * number that was not definitely non-null becomes `kaboom`, and every other
   * slot stays.
   */
  lemma {:induction false} TightenSlotsResult(tests: NullnessTests, slots: seq<IsNullValue>, known: map<ValueNumber, IsNullValue>,
                                              vnaSlots: seq<ValueNumber>, vns: seq<ValueNumber>, kaboom: IsNullValue)
    requires |vnaSlots| == |slots| && Distinct(vns)
    ensures var r := TightenParameters(tests, slots, known, vnaSlots, vns, kaboom);
            !r.top ==> forall j :: 0 <= j < |slots| ==> r.slots[j] == Tightened(tests, slots[j], vnaSlots[j], vns, kaboom)
    decreases |vns|
  {
    if vns != [] {
      var vn := vns[0];
      var t := TightenSlots(tests, slots, vnaSlots, vn, kaboom, 0);
      DistinctTail(vns);
      if !KnownNullAt(tests, known, vn) && !t.1 {
        TightenSlotsResult(tests, t.0, TightenKnown(tests, known, vn, kaboom), vnaSlots, vns[1..], kaboom);
      }
    }
  }

  /**
   * Unless the frame becomes TOP, the known value of every required-non-null
   * number that was not definitely non-null becomes `kaboom`; no key is added
   * or removed and every other known value stays.
   */
  lemma {:induction false} TightenKnownResult(tests: NullnessTests, slots: seq<IsNullValue>, known: map<ValueNumber, IsNullValue>,
                                              vnaSlots: seq<ValueNumber>, vns: seq<ValueNumber>, kaboom: IsNullValue)
    requires |vnaSlots| == |slots| && Distinct(vns)
    ensures var r := TightenParameters(tests, slots, known, vnaSlots, vns, kaboom);
            !r.top ==> r.known.Keys == known.Keys && forall vn :: vn in known ==> r.known[vn] == Tightened(tests, known[vn], vn, vns, kaboom)
    decreases |vns|
  {
    if vns != [] {
      var vn := vns[0];
      var t := TightenSlots(tests, slots, vnaSlots, vn, kaboom, 0);
      DistinctTail(vns);
      if !KnownNullAt(tests, known, vn) && !t.1 {
        TightenKnownResult(tests, t.0, TightenKnown(tests, known, vn, kaboom), vnaSlots, vns[1..], kaboom);
      }
    }
  }

  // ---------------------------------------------------------------------
  // Consuming exception-thrower summaries at a static call.

  /**
   * The block the ALWAYS-thrower scan tightens from: the scan starts at the
   * call's own block and, because its enqueue test looks at that block (already
   * marked visited) instead of the predecessor, never looks further. The block
   * qualifies when it ends in IFNONNULL directly after `ALOAD index`.
   */
  function GuardedLoadSlot(cfg: Cfg, block: BlockId): (r: Option<nat>)
    requires cfg.WellFormed()
  {
    match cfg.LastInstruction(block)
    case None => None
    case Some(i) =>
      if cfg.code[i] == IfNonNull && i > 0 && cfg.code[i - 1].Aload? then Some(cfg.code[i - 1].index) else None
  }

  /** The scan reads nothing but the block's own last two instructions: the edges never matter. */
  lemma GuardedLoadSlotIgnoresEdges(cfg: Cfg, edges: seq<Edge>, block: BlockId)
    requires cfg.WellFormed()
    ensures cfg.(edges := edges).WellFormed()
    ensures GuardedLoadSlot(cfg.(edges := edges), block) == GuardedLoadSlot(cfg, block)
  {
  }

  /**
   * The argument loads a conditional summary is applied to: starting from the
   * last instruction of `loadBlock` and walking backwards through the method's
   * code, `n` consecutive ALOADs; the i-th element is the slot of the i-th
   * load from the end.
   */
  function LoadsBackward(cfg: Cfg, inh: Option<CodeIndex>, n: nat): (r: Option<seq<nat>>)
    requires cfg.WellFormed() && (inh.Some? ==> inh.value < |cfg.code|)
    ensures r.Some? ==> |r.value| == n
    ensures r.Some? && n > 0 ==> inh.Some? && cfg.code[inh.value] == Aload(r.value[0])
    decreases n
  {
    if n == 0 then Some([])
    else if inh.Some? && cfg.code[inh.value].Aload? then
      match LoadsBackward(cfg, cfg.Prev(inh.value), n - 1)
      case Some(rest) => Some([cfg.code[inh.value].index] + rest)
      case None => None
    else None
  }

  /** Two fall-through steps back from the call's block, the block whose last instructions load the arguments. */
  function LoadBlock(cfg: Cfg, block: BlockId): Option<BlockId> {
    match cfg.IncomingEdgeWithType(block, FallThrough)
    case None => None
    case Some(e) =>
      match cfg.IncomingEdgeWithType(e.source, FallThrough)
      case None => None
      case Some(e2) => Some(e2.source)
  }

  /** The argument loads, when there is at least one argument and all of them are ALOADs. */
  function ConditionalLoads(cfg: Cfg, block: BlockId, consume: nat): (r: Option<seq<nat>>)
    requires cfg.WellFormed()
    ensures r.Some? ==> consume > 0 && |r.value| == consume
  {
    if consume == 0 then None
    else match LoadBlock(cfg, block)
      case None => None
      case Some(b) => LoadsBackward(cfg, cfg.LastInstruction(b), consume)
  }

  /**
   * Load `i` (from the end) stands for argument `consume - 1 - i`; its slot gets
   * `kaboom` when that argument is in the summary. A slot outside the frame
   * makes the source throw, and the exception ends the loop.
   */
  function ApplyConditional(slots: seq<IsNullValue>, loads: seq<nat>, params: set<nat>, kaboom: IsNullValue, i: nat): (r: seq<IsNullValue>)
    requires i <= |loads|
    ensures |r| == |slots|
    decreases |loads| - i
  {
    if i == |loads| then slots
    else if |loads| - 1 - i in params then
      if loads[i] < |slots| then ApplyConditional(slots[loads[i] := kaboom], loads, params, kaboom, i + 1)
      else slots
    else ApplyConditional(slots, loads, params, kaboom, i + 1)
  }

  /** The argument a slot stands for is in the summary. */
  predicate GuardedArgumentSlot(loads: seq<nat>, params: set<nat>, j: nat, from: nat) {
    exists i :: from <= i < |loads| && loads[i] == j && |loads| - 1 - i in params
  }

  /**
   * When every load names a slot of the frame, exactly the slots loaded for an
   * argument in the summary become `kaboom`.
   */
  lemma {:induction false} ApplyConditionalExact(slots: seq<IsNullValue>, loads: seq<nat>, params: set<nat>, kaboom: IsNullValue, i: nat)
    requires i <= |loads|
    requires forall k :: i <= k < |loads| ==> loads[k] < |slots|
    ensures forall j :: 0 <= j < |slots| ==>
              ApplyConditional(slots, loads, params, kaboom, i)[j] == (if GuardedArgumentSlot(loads, params, j, i) then kaboom else slots[j])
    decreases |loads| - i
  {
    if i < |loads| {
      var next := if |loads| - 1 - i in params then slots[loads[i] := kaboom] else slots;
      ApplyConditionalExact(next, loads, params, kaboom, i + 1);
      forall j | 0 <= j < |slots|
        ensures ApplyConditional(slots, loads, params, kaboom, i)[j] == (if GuardedArgumentSlot(loads, params, j, i) then kaboom else slots[j])
      {
        if GuardedArgumentSlot(loads, params, j, i + 1) {
          var k :| i + 1 <= k < |loads| && loads[k] == j && |loads| - 1 - k in params;
          assert GuardedArgumentSlot(loads, params, j, i);
        } else if GuardedArgumentSlot(loads, params, j, i) {
          var k :| i <= k < |loads| && loads[k] == j && |loads| - 1 - k in params;
          assert k == i;
        }
      }
    }
  }

  /** The conditional tightening changes no slot to anything but `kaboom`. */
  lemma {:induction false} ApplyConditionalOnlyKaboom(slots: seq<IsNullValue>, loads: seq<nat>, params: set<nat>, kaboom: IsNullValue, i: nat)
    requires i <= |loads|
    ensures forall j :: 0 <= j < |slots| ==>
              ApplyConditional(slots, loads, params, kaboom, i)[j] in {slots[j], kaboom}
    decreases |loads| - i
  {
    if i < |loads| {
      if |loads| - 1 - i in params {
        if loads[i] < |slots| {
          ApplyConditionalOnlyKaboom(slots[loads[i] := kaboom], loads, params, kaboom, i + 1);
        }
      } else {
        ApplyConditionalOnlyKaboom(slots, loads, params, kaboom, i + 1);
      }
    }
  }

  // ---------------------------------------------------------------------
  // The nullness of a call's return value.

  /** The return-value nullness of each target, merged left to right. */
  function CombinedReturnValue(env: Environment, targets: seq<MethodRef>): IsNullValue
    requires targets != []
    decreases |targets|
  {
    var v := ReturnValueNullness(env.methodAnnotation(targets[|targets| - 1]), env.returnValueNonNull(targets[|targets| - 1]), targets[|targets| - 1]);
    if |targets| == 1 then v else Merged(CombinedReturnValue(env, targets[..|targets| - 1]), v)
  }

  /** The leaves of a merge tree, left to right. */
  function Leaves(v: IsNullValue): seq<IsNullValue> {
    match v
    case Merged(l, r) => Leaves(l) + Leaves(r)
    case _ => [v]
  }

  /** The merged value is built from exactly the targets' own values, in the targets' order. */
  lemma {:induction false} CombinedReturnValueLeaves(env: Environment, targets: seq<MethodRef>)
    requires targets != []
    ensures Leaves(CombinedReturnValue(env, targets)) ==
            seq(|targets|, i requires 0 <= i < |targets| =>
                ReturnValueNullness(env.methodAnnotation(targets[i]), env.returnValueNonNull(targets[i]), targets[i]))
    decreases |targets|
  {
    if |targets| > 1 {
      CombinedReturnValueLeaves(env, targets[..|targets| - 1]);
    }
  }

  /** Merged or not, no leaf of a call's return value is definitely null or opaque. */
  lemma CombinedReturnValueHasNoNullLeaf(env: Environment, targets: seq<MethodRef>)
    requires targets != []
    ensures forall v :: v in Leaves(CombinedReturnValue(env, targets)) ==>
              v.NullOnSimplePath? || v.NonNullValue? || v == NonReportingNotNull
  {
    CombinedReturnValueLeaves(env, targets);
  }

  /** `pop consume` then `push produce` copies of `v`: the superclass's `modelInstruction`. */
  function PopPush(slots: seq<IsNullValue>, consume: nat, produce: nat, v: IsNullValue): seq<IsNullValue>
    requires consume <= |slots|
  {
    slots[..|slots| - consume] + seq(produce, _ => v)
  }

  /** The superclass's pop/push on a whole frame state: only the slots change. */
  function Popped(s: FrameState, consume: nat, produce: nat, v: IsNullValue): FrameState
    requires consume <= |s.slots|
  {
    FrameState(PopPush(s.slots, consume, produce, v), s.known, s.status)
  }

  /** `toExceptionValues` on the slots. */
  function ExceptionSlots(slots: seq<IsNullValue>): (r: seq<IsNullValue>)
    ensures |r| == |slots| && forall i :: 0 <= i < |slots| ==> r[i] == ExceptionValue(slots[i])
  {
    seq(|slots|, i requires 0 <= i < |slots| => ExceptionValue(slots[i]))
  }

  /** What the visitor changes in a nullness frame: its slots, its known values and its status. */
  datatype FrameState = FrameState(slots: seq<IsNullValue>, known: map<ValueNumber, IsNullValue>, status: FrameStatus)

  // ---------------------------------------------------------------------
  // The visitor.

  class IsNullValueFrameModelingVisitor {
    const config: VisitorConfig
    const trackValueNumbers: bool
    const tests: NullnessTests
    const env: Environment
    var frame: IsNullValueFrame
    var location: Location
    var slotContainingNewNullValue: int

    constructor (config: VisitorConfig, trackValueNumbers: bool, tests: NullnessTests, env: Environment,
                 frame: IsNullValueFrame, location: Location)
      ensures this.config == config && this.trackValueNumbers == trackValueNumbers && this.tests == tests
      ensures this.env == env && this.frame == frame && this.location == location
      ensures slotContainingNewNullValue == -1
    {
      this.config := config;
      this.trackValueNumbers := trackValueNumbers;
      this.tests := tests;
      this.env := env;
      this.frame := frame;
      this.location := location;
      slotContainingNewNullValue := -1;
    }

    /** The superclass's `setFrameAndLocation`: the frame and program point the next instruction is modelled on. */
    method SetFrameAndLocation(f: IsNullValueFrame, loc: Location)
      modifies this`frame, this`location
      ensures frame == f && location == loc
    {
      frame := f;
      location := loc;
    }

    /**
     * The new-null-value slot is either unset, or the top of a non-empty stack
     * holding a definitely-null value.
     */
    ghost predicate NewNullSlotMarksTop()
      reads this, frame
    {
      slotContainingNewNullValue == -1
      || (slotContainingNewNullValue == |frame.slots| - 1 && frame.StackDepth() >= 1
          && tests.definitelyNull(frame.slots[slotContainingNewNullValue]))
    }

    /** `analyzeInstruction`: model one instruction, then apply the assertion reset. */
    method AnalyzeInstruction(ins: Instruction)
      requires env.cfg.WellFormed()
      requires frame.IsValid() ==> frame.StackDepth() >= ins.ConsumeStack()
      requires frame.IsValid() ==> VnaMatchesFrame()
      modifies this`slotContainingNewNullValue, frame
      ensures State() == AnalyzeState(ins, old(State()))
      ensures !old(frame.IsValid()) ==> unchanged(frame) && slotContainingNewNullValue == old(slotContainingNewNullValue)
      ensures old(frame.IsValid()) ==>
                slotContainingNewNullValue == -1
                || (slotContainingNewNullValue == |frame.slots| - 1 && frame.StackDepth() >= 1
                    && (tests.definitelyNull(frame.slots[slotContainingNewNullValue])
                        || (AssertHackApplies() && frame.slots[slotContainingNewNullValue] == NonReportingNotNull)))
    {
      if !frame.IsValid() {
        return;
      }
      slotContainingNewNullValue := -1;
      Visit(ins);
      if !frame.IsValid() {
        return;
      }
      if AssertHackApplies() {
        ghost var visited := State();
        ApplyAssertReset();
        assert State() == FrameState(ResetSlots(tests, visited.slots), ResetKnownValues(tests, visited.known), visited.status);
      }
    }

    predicate AssertHackApplies()
      reads this
    {
      !config.noAssertHack && env.isAssertionCall(location)
    }

    /** The value-number frame before the instruction, when it exists, has one number per nullness slot. */
    predicate VnaMatchesFrame()
      reads this, frame
    {
      env.vnaAt(location).Some? ==> |env.vnaAt(location).value.slots| == |frame.slots|
    }

    /** Every definitely-null or null-on-some-path slot and known value becomes non-reporting not-null. */
    method ApplyAssertReset()
      modifies frame`slots, frame`knownValues
      ensures frame.slots == ResetSlots(tests, old(frame.slots))
      ensures frame.knownValues == ResetKnownValues(tests, old(frame.knownValues))
    {
      var i := 0;
      while i < |frame.slots|
        invariant 0 <= i <= |frame.slots| == |old(frame.slots)|
        invariant forall j :: 0 <= j < i ==> frame.slots[j] == AssertReset(tests, old(frame.slots)[j])
        invariant forall j :: i <= j < |frame.slots| ==> frame.slots[j] == old(frame.slots)[j]
        invariant frame.knownValues == old(frame.knownValues)
      {
        var value := frame.slots[i];
        if tests.definitelyNull(value) || tests.nullOnSomePath(value) {
          frame.SetValue(i, NonReportingNotNull);
        }
        i := i + 1;
      }
      ResetKnownValueEntries();
    }

    /** The second half of the reset: the known-value entries, one at a time. */
    method ResetKnownValueEntries()
      modifies frame`knownValues
      ensures frame.knownValues == ResetKnownValues(tests, old(frame.knownValues))
    {
      var known := frame.knownValues;
      var entries: set<ValueNumber> := known.Keys;
      while entries != {}
        invariant entries <= frame.knownValues.Keys == known.Keys
        invariant forall vn :: vn in known && vn !in entries ==> frame.knownValues[vn] == AssertReset(tests, known[vn])
        invariant forall vn :: vn in entries ==> frame.knownValues[vn] == known[vn]
        decreases entries
      {
        ghost var someEntry := SomeElement(entries);
        var vn: ValueNumber :| vn in entries;
        var value := frame.knownValues[vn];
        if tests.definitelyNull(value) || tests.nullOnSomePath(value) {
          frame.SetKnownValue(vn, NonReportingNotNull);
        }
        entries := entries - {vn};
      }
      forall vn | vn in frame.knownValues
        ensures frame.knownValues[vn] == ResetKnownValues(tests, known)[vn]
      {
        assert vn in known.Keys;
      }
    }

    /** The visitor dispatch: the instructions this visitor overrides, and the superclass's pop/push for the rest. */
    method Visit(ins: Instruction)
      requires env.cfg.WellFormed()
      requires frame.StackDepth() >= ins.ConsumeStack()
      requires VnaMatchesFrame()
      requires slotContainingNewNullValue == -1
      modifies this`slotContainingNewNullValue, frame
      ensures NewNullSlotMarksTop()
      ensures State() == VisitState(ins, old(State()))
      ensures ins.CheckCast? ==> unchanged(frame) && slotContainingNewNullValue == -1
    {
      if PushesConstant(ins) {
        VisitConstant(ins);
      } else if ins.CheckCast? {
      } else if ins.GetField? {
        VisitGetField(ins);
      } else if ins.GetStatic? {
        VisitGetStatic(ins);
      } else if ins.PutField? {
        VisitPutField(ins);
      } else if ins.Invoke? && ins.kind != InvokeDynamic {
        HandleInvoke(ins);
      } else {
        HandleNormalInstruction(ins);
      }
    }

    /** The visits of instructions that push a constant or a new object or array. */
    method VisitConstant(ins: Instruction)
      requires PushesConstant(ins)
      requires frame.StackDepth() >= ins.ConsumeStack()
      requires slotContainingNewNullValue == -1
      modifies this`slotContainingNewNullValue, frame`slots, frame`knownValues
      ensures NewNullSlotMarksTop()
      ensures State() == ConstantState(ins, old(State()))
    {
      match ins {
        case AconstNull => Produce(NullValue);
        case New => Produce(NonNullValue(Unmarked));
        case NewArray =>
          ModelInstruction(ins.ConsumeStack(), 0, NonReportingNotNull);
          Produce(NonNullValue(Unmarked));
        case ANewArray =>
          ModelInstruction(ins.ConsumeStack(), 0, NonReportingNotNull);
          Produce(NonNullValue(Unmarked));
        case MultiANewArray(_) =>
          ModelInstruction(ins.ConsumeStack(), 0, NonReportingNotNull);
          Produce(NonNullValue(Unmarked));
        case Ldc => Produce(NonNullValue(Unmarked));
        case Ldc2W =>
          frame.PushValue(NonNullValue(Unmarked));
          frame.PushValue(NonNullValue(Unmarked));
      }
    }

    /** `handleNormalInstruction`: pop what the instruction consumes, push default values for what it produces. */
    method HandleNormalInstruction(ins: Instruction)
      requires frame.StackDepth() >= ins.ConsumeStack()
      modifies frame`slots
      ensures frame.slots == PopPush(old(frame.slots), ins.ConsumeStack(), ins.ProduceStack(), NonReportingNotNull)
    {
      ModelInstruction(ins.ConsumeStack(), ins.ProduceStack(), NonReportingNotNull);
    }

    method ModelInstruction(consume: nat, produce: nat, v: IsNullValue)
      requires frame.StackDepth() >= consume
      modifies frame`slots
      ensures frame.slots == PopPush(old(frame.slots), consume, produce, v)
    {
      var i := 0;
      while i < consume
        invariant 0 <= i <= consume
        invariant frame.slots == old(frame.slots)[..|old(frame.slots)| - i]
      {
        var _ := frame.PopValue();
        i := i + 1;
      }
      i := 0;
      while i < produce
        invariant 0 <= i <= produce
        invariant frame.slots == old(frame.slots)[..|old(frame.slots)| - consume] + seq(i, _ => v)
      {
        frame.PushValue(v);
        i := i + 1;
      }
    }

    /** `produce`: push a value and announce it. */
    method Produce(v: IsNullValue)
      requires slotContainingNewNullValue == -1
      modifies frame`slots, frame`knownValues, this`slotContainingNewNullValue
      ensures State() == Produced(old(State()), v)
      ensures frame.slots == old(frame.slots) + [v]
      ensures slotContainingNewNullValue == (if tests.definitelyNull(v) && frame.StackDepth() >= 1 then |frame.slots| - 1 else -1)
      ensures NewNullSlotMarksTop()
    {
      frame.PushValue(v);
      NewValueOnTOS();
    }

    /**
     * `newValueOnTOS`: a definitely-null top of stack is recorded as the new
     * null slot, and with value-number tracking the top value is recorded as
     * the known value of the top value number after the instruction.
     */
    method NewValueOnTOS()
      modifies frame`knownValues, this`slotContainingNewNullValue
      ensures frame.StackDepth() < 1 ==> frame.knownValues == old(frame.knownValues)
                                         && slotContainingNewNullValue == old(slotContainingNewNullValue)
      ensures frame.StackDepth() >= 1 ==>
                slotContainingNewNullValue ==
                  (if tests.definitelyNull(frame.slots[|frame.slots| - 1]) then |frame.slots| - 1 else old(slotContainingNewNullValue))
      ensures frame.StackDepth() >= 1 ==>
                frame.knownValues ==
                  (if trackValueNumbers && env.vnaAfter(location).Some? && env.vnaAfter(location).value.valid
                      && env.vnaAfter(location).value.StackValue(0).Some?
                   then old(frame.knownValues)[env.vnaAfter(location).value.StackValue(0).value := frame.slots[|frame.slots| - 1]]
                   else old(frame.knownValues))
      ensures frame.knownValues == Recorded(frame.slots, old(frame.knownValues))
    {
      if frame.StackDepth() < 1 {
        return;
      }
      var tosSlot := |frame.slots| - 1;
      var tos := frame.slots[tosSlot];
      if tests.definitelyNull(tos) {
        slotContainingNewNullValue := tosSlot;
      }
      if trackValueNumbers {
        var vnaFrameAfter := env.vnaAfter(location);
        if vnaFrameAfter.Some? && vnaFrameAfter.value.valid {
          var tosVN := vnaFrameAfter.value.StackValue(0);
          if tosVN.Some? {
            frame.SetKnownValue(tosVN.value, tos);
          }
        }
      }
    }

    /** The frame's slots, known values and status, as one value. */
    function State(): FrameState
      reads this, frame
    {
      FrameState(frame.slots, frame.knownValues, frame.status)
    }

    /** The operand stack of `s` holds at least `n` words. */
    predicate CanPop(s: FrameState, n: nat)
      reads this
    {
      |s.slots| - frame.numLocals >= n
    }

    /** The value number of the top of stack after the instruction, when tracking is on and the lookup succeeds. */
    function TosVN(): Option<ValueNumber>
      reads this
    {
      if trackValueNumbers && env.vnaAfter(location).Some? && env.vnaAfter(location).value.valid
      then env.vnaAfter(location).value.StackValue(0)
      else None
    }

    /** `newValueOnTOS` on the known values: the top of a non-empty stack becomes the known value of the top value number. */
    function Recorded(slots: seq<IsNullValue>, known: map<ValueNumber, IsNullValue>): (r: map<ValueNumber, IsNullValue>)
      reads this
      ensures known.Keys <= r.Keys
    {
      if |slots| - frame.numLocals >= 1 && TosVN().Some? then known[TosVN().value := slots[|slots| - 1]] else known
    }

    /** `produce`: push `v`, then record it as the top value number's known value. */
    function Produced(s: FrameState, v: IsNullValue): FrameState
      reads this
    {
      var slots := s.slots + [v];
      FrameState(slots, Recorded(slots, s.known), s.status)
    }

    /** The known value of the top value number after the instruction, when there is one. */
    function KnownIn(known: map<ValueNumber, IsNullValue>): Option<IsNullValue>
      reads this
    {
      match TosVN()
      case Some(vn) => if vn in known then Some(known[vn]) else None
      case None => None
    }

    /**
     * `checkForKnownValue` on a frame state: with a known value, pop the
     * operands and push that value. Recording it again changes no known value.
     */
    function WithKnown(ins: Instruction, s: FrameState): (r: Option<FrameState>)
      requires CanPop(s, ins.ConsumeStack())
      reads this
      ensures r.Some? <==> KnownIn(s.known).Some?
      ensures r.Some? ==> r.value.slots == PopPush(s.slots, ins.ConsumeStack(), 0, NonReportingNotNull) + [KnownIn(s.known).value]
      ensures r.Some? ==> r.value.known == s.known && r.value.status == s.status
    {
      match KnownIn(s.known)
      case Some(v) =>
        var t := Produced(Popped(s, ins.ConsumeStack(), 0, NonReportingNotNull), v);
        assert s.known[TosVN().value := v] == s.known;
        Some(t)
      case None => None
    }

    /** The value a field's annotation gives a load: NONNULL is non-null, CHECK_FOR_NULL is null on a simple path. */
    function AnnotatedValue(f: FieldRef): Option<IsNullValue> {
      match env.fieldAnnotation(f)
      case NonNullAnnotation => Some(NonNullValue(Unmarked))
      case CheckForNull => Some(NullOnSimplePath(FieldValue(f)))
      case _ => None
    }

    /** `visitGETFIELD` on a frame state. */
    function GetFieldState(ins: Instruction, s: FrameState): FrameState
      requires ins.GetField? && CanPop(s, ins.ConsumeStack())
      reads this
    {
      if ins.words != 1 then Popped(s, ins.ConsumeStack(), ins.ProduceStack(), NonReportingNotNull)
      else match WithKnown(ins, s)
        case Some(t) => t
        case None =>
          match AnnotatedValue(ins.field)
          case Some(v) => Produced(Popped(s, ins.ConsumeStack(), 0, NonReportingNotNull), v)
          case None => Popped(s, ins.ConsumeStack(), ins.ProduceStack(), NonReportingNotNull)
    }

    /** `visitGETSTATIC` on a frame state. */
    function GetStaticState(ins: Instruction, s: FrameState): FrameState
      requires ins.GetStatic? && CanPop(s, ins.ConsumeStack())
      reads this
    {
      if ins.words != 1 then Popped(s, ins.ConsumeStack(), ins.ProduceStack(), NonReportingNotNull)
      else match WithKnown(ins, s)
        case Some(t) => t
        case None => StaticLoadState(ins, s)
    }

    /** A one-word GETSTATIC without a known value: null for a final field whose summary is null, else the field's own value. */
    function StaticLoadState(ins: Instruction, s: FrameState): FrameState
      requires ins.GetStatic? && ins.words == 1
      reads this
    {
      if ins.field.isFinal && env.fieldSummaryIsNull(ins.field) then Produced(s, NullValue)
      else StaticFieldState(ins, if IsErrorLevel(ins.field) then s.(slots := ExceptionSlots(s.slots)) else s)
    }

    /** The rest of a one-word GETSTATIC: non-null for a `class$` field, else the annotated value, else a default push. */
    function StaticFieldState(ins: Instruction, s: FrameState): FrameState
      requires ins.GetStatic? && ins.words == 1
      reads this
    {
      if |ins.field.name| >= 6 && ins.field.name[..6] == "class$" then Produced(s, NonNullValue(Unmarked))
      else match AnnotatedValue(ins.field)
        case Some(v) => Produced(s, v)
        case None => Popped(s, ins.ConsumeStack(), ins.ProduceStack(), NonReportingNotNull)
    }

    /** `visitPUTFIELD` on a frame state. */
    function PutFieldState(ins: Instruction, s: FrameState): FrameState
      requires ins.PutField? && CanPop(s, ins.ConsumeStack())
      reads this
    {
      var popped := Popped(s, ins.ConsumeStack(), 0, NonReportingNotNull);
      if ins.words == 1 && config.redundantLoadElimination && trackValueNumbers && StoredLoads(ins).Some? then
        popped.(known := s.known + map vn | vn in StoredLoads(ins).value :: s.slots[|s.slots| - 1])
      else popped
    }

    /** The rest of `handleInvoke` on a frame state: the thrower summaries and a default pop/push, or the modelled return value. */
    function InvokeResultState(ins: Instruction, s: FrameState): FrameState
      requires ins.Invoke? && env.cfg.WellFormed() && CanPop(s, ins.ConsumeStack())
      reads this
    {
      if !(config.modelNonnullReturn && ins.returnsReference) then
        Popped(s.(slots := ThrowerSlots(ins, s.slots)), ins.ConsumeStack(), ins.ProduceStack(), NonReportingNotNull)
      else
        var pushed := Popped(s, ins.ConsumeStack(), ins.ProduceStack(), ReturnValueAt(ins));
        pushed.(known := Recorded(pushed.slots, s.known))
    }

    /** `handleInvoke` on a frame state: the tightening first; a TOP outcome ends the call's handling. */
    function HandleInvokeState(ins: Instruction, s: FrameState): FrameState
      requires ins.Invoke? && env.cfg.WellFormed() && CanPop(s, ins.ConsumeStack())
      reads this
    {
      match Tightening(s.slots, s.known)
      case None => InvokeResultState(ins, s)
      case Some(t) =>
        if t.top then FrameState(t.slots, t.known, Top)
        else InvokeResultState(ins, FrameState(t.slots, t.known, s.status))
    }

    /** An instruction that pushes a constant or a new object or array. */
    static predicate PushesConstant(ins: Instruction) {
      ins.AconstNull? || ins.New? || ins.NewArray? || ins.ANewArray? || ins.MultiANewArray? || ins.Ldc? || ins.Ldc2W?
    }

    /** The visits of the constant and allocation instructions on a frame state. */
    function ConstantState(ins: Instruction, s: FrameState): FrameState
      requires PushesConstant(ins) && CanPop(s, ins.ConsumeStack())
      reads this
    {
      match ins
      case AconstNull => Produced(s, NullValue)
      case Ldc2W => s.(slots := s.slots + [NonNullValue(Unmarked), NonNullValue(Unmarked)])
      case New => Produced(s, NonNullValue(Unmarked))
      case Ldc => Produced(s, NonNullValue(Unmarked))
      case _ => Produced(Popped(s, ins.ConsumeStack(), 0, NonReportingNotNull), NonNullValue(Unmarked))
    }

    /** The visitor dispatch on a frame state. */
    function VisitState(ins: Instruction, s: FrameState): FrameState
      requires env.cfg.WellFormed() && CanPop(s, ins.ConsumeStack())
      reads this
    {
      if PushesConstant(ins) then ConstantState(ins, s)
      else if ins.CheckCast? then s
      else if ins.GetField? then GetFieldState(ins, s)
      else if ins.GetStatic? then GetStaticState(ins, s)
      else if ins.PutField? then PutFieldState(ins, s)
      else if ins.Invoke? && ins.kind != InvokeDynamic then HandleInvokeState(ins, s)
      else Popped(s, ins.ConsumeStack(), ins.ProduceStack(), NonReportingNotNull)
    }

    /** `analyzeInstruction` never forgets a known value: every value number with a known value keeps one. */
    lemma AnalyzeKeepsKnownValues(ins: Instruction, s: FrameState)
      requires env.cfg.WellFormed() && (s.status == Valid ==> CanPop(s, ins.ConsumeStack()))
      ensures s.known.Keys <= AnalyzeState(ins, s).known.Keys
    {
      if s.status == Valid {
        VisitKeepsKnownValues(ins, s);
      }
    }

    lemma VisitKeepsKnownValues(ins: Instruction, s: FrameState)
      requires env.cfg.WellFormed() && CanPop(s, ins.ConsumeStack())
      ensures s.known.Keys <= VisitState(ins, s).known.Keys
    {
      if PushesConstant(ins) {
        ConstantKeepsKnownValues(ins, s);
      } else if ins.GetStatic? && ins.words == 1 && KnownIn(s.known).None? {
        assert VisitState(ins, s) == StaticLoadState(ins, s);
      }
    }

    lemma ConstantKeepsKnownValues(ins: Instruction, s: FrameState)
      requires PushesConstant(ins) && CanPop(s, ins.ConsumeStack())
      ensures s.known.Keys <= ConstantState(ins, s).known.Keys
    {
      if !(ins.AconstNull? || ins.New? || ins.Ldc? || ins.Ldc2W?) {
        assert ConstantState(ins, s) == Produced(Popped(s, ins.ConsumeStack(), 0, NonReportingNotNull), NonNullValue(Unmarked));
      }
    }

    /** The status changes only to TOP, and only a valid frame is visited. */
    lemma AnalyzeStatusOnlyTop(ins: Instruction, s: FrameState)
      requires env.cfg.WellFormed() && (s.status == Valid ==> CanPop(s, ins.ConsumeStack()))
      ensures var t := AnalyzeState(ins, s);
              (t.status == s.status || (s.status == Valid && t.status == Top))
              && (s.status != Valid ==> t == s)
    {
    }

    /**
     * Unless the frame becomes TOP, the visit has the instruction's stack
     * effect: it pops what the instruction consumes and pushes what it
     * produces, as the superclass's default does.
     */
    lemma AnalyzeStackEffect(ins: Instruction, s: FrameState)
      requires env.cfg.WellFormed() && (s.status == Valid ==> CanPop(s, ins.ConsumeStack()))
      ensures var t := AnalyzeState(ins, s);
              s.status == Valid && t.status == Valid ==> |t.slots| == |s.slots| - ins.ConsumeStack() + ins.ProduceStack()
    {
      if s.status == Valid {
        VisitStackEffect(ins, s);
      }
    }

    lemma VisitStackEffect(ins: Instruction, s: FrameState)
      requires env.cfg.WellFormed() && CanPop(s, ins.ConsumeStack())
      ensures var t := VisitState(ins, s);
              t.status != Top ==> |t.slots| == |s.slots| - ins.ConsumeStack() + ins.ProduceStack()
    {
      if PushesConstant(ins) {
        ConstantStackEffect(ins, s);
      } else if ins.GetField? {
        GetFieldStackEffect(ins, s);
      } else if ins.GetStatic? {
        GetStaticStackEffect(ins, s);
      } else if ins.Invoke? && ins.kind != InvokeDynamic {
        InvokeStackEffect(ins, s);
      }
    }

    lemma ConstantStackEffect(ins: Instruction, s: FrameState)
      requires PushesConstant(ins) && CanPop(s, ins.ConsumeStack())
      ensures |ConstantState(ins, s).slots| == |s.slots| - ins.ConsumeStack() + ins.ProduceStack()
    {
      if !(ins.AconstNull? || ins.New? || ins.Ldc? || ins.Ldc2W?) {
        assert ConstantState(ins, s) == Produced(Popped(s, ins.ConsumeStack(), 0, NonReportingNotNull), NonNullValue(Unmarked));
      }
    }

    lemma GetFieldStackEffect(ins: Instruction, s: FrameState)
      requires ins.GetField? && CanPop(s, ins.ConsumeStack())
      ensures |GetFieldState(ins, s).slots| == |s.slots| - ins.ConsumeStack() + ins.ProduceStack()
    {
    }

    lemma GetStaticStackEffect(ins: Instruction, s: FrameState)
      requires ins.GetStatic? && CanPop(s, ins.ConsumeStack())
      ensures |GetStaticState(ins, s).slots| == |s.slots| + ins.ProduceStack()
    {
      if ins.words == 1 && KnownIn(s.known).None? {
        assert GetStaticState(ins, s) == StaticLoadState(ins, s);
      }
    }

    lemma InvokeStackEffect(ins: Instruction, s: FrameState)
      requires ins.Invoke? && env.cfg.WellFormed() && CanPop(s, ins.ConsumeStack())
      ensures var t := HandleInvokeState(ins, s);
              t.status != Top ==> |t.slots| == |s.slots| - ins.ConsumeStack() + ins.ProduceStack()
    {
    }

    /**
     * The constants the visitor overrides push one non-null value (two for a
     * two-word constant), ACONST_NULL pushes the null value, array creation
     * replaces its counts by one non-null array, and CHECKCAST changes nothing.
     */
    lemma VisitConstantSlots(ins: Instruction, s: FrameState)
      requires env.cfg.WellFormed() && CanPop(s, ins.ConsumeStack())
      ensures var t := VisitState(ins, s);
              && (ins.AconstNull? ==> t.slots == s.slots + [NullValue])
              && (ins.New? || ins.Ldc? ==> t.slots == s.slots + [NonNullValue(Unmarked)])
              && (ins.NewArray? || ins.ANewArray? || ins.MultiANewArray? ==>
                    t.slots == s.slots[..|s.slots| - ins.ConsumeStack()] + [NonNullValue(Unmarked)])
              && (ins.Ldc2W? ==> t.slots == s.slots + [NonNullValue(Unmarked), NonNullValue(Unmarked)])
              && (ins.CheckCast? ==> t == s)
    {
    }

    /**
     * GETFIELD of a one-word field replaces the reference by the known value,
     * else by what the field's annotation says, else by a default value; the
     * known values change only by recording the annotated value.
     */
    lemma GetFieldSlots(ins: Instruction, s: FrameState)
      requires ins.GetField? && CanPop(s, ins.ConsumeStack())
      ensures var t := GetFieldState(ins, s);
              && (ins.words != 1 ==> t == Popped(s, 1, ins.words, NonReportingNotNull))
              && (ins.words == 1 && KnownIn(s.known).Some? ==>
                    t.slots == s.slots[..|s.slots| - 1] + [KnownIn(s.known).value] && t.known == s.known)
              && (ins.words == 1 && KnownIn(s.known).None? ==>
                    t.slots == s.slots[..|s.slots| - 1] +
                               [match env.fieldAnnotation(ins.field)
                                case NonNullAnnotation => NonNullValue(Unmarked)
                                case CheckForNull => NullOnSimplePath(FieldValue(ins.field))
                                case _ => NonReportingNotNull]
                    && t.known == (if AnnotatedValue(ins.field).Some? then Recorded(t.slots, s.known) else s.known))
    {
    }

    /**
     * GETSTATIC of a one-word field pushes the known value; else null for a
     * final field whose summary is null; else, after an error logging level
     * turns the frame into exception values, non-null for a `class$` field,
     * the annotated value, or a default value.
     */
    lemma GetStaticSlots(ins: Instruction, s: FrameState)
      requires ins.GetStatic? && CanPop(s, ins.ConsumeStack())
      ensures var t := GetStaticState(ins, s);
              && (ins.words != 1 ==> t.slots == s.slots + seq(ins.words, _ => NonReportingNotNull) && t.known == s.known)
              && (ins.words == 1 && KnownIn(s.known).Some? ==> t.slots == s.slots + [KnownIn(s.known).value] && t.known == s.known)
              && (ins.words == 1 && KnownIn(s.known).None? && ins.field.isFinal && env.fieldSummaryIsNull(ins.field) ==>
                    t.slots == s.slots + [NullValue] && t.known == Recorded(t.slots, s.known))
              && (ins.words == 1 && KnownIn(s.known).None? && !(ins.field.isFinal && env.fieldSummaryIsNull(ins.field)) ==>
                    var base := if IsErrorLevel(ins.field) then ExceptionSlots(s.slots) else s.slots;
                    t.slots == base + [if |ins.field.name| >= 6 && ins.field.name[..6] == "class$" then NonNullValue(Unmarked)
                                       else match env.fieldAnnotation(ins.field)
                                         case NonNullAnnotation => NonNullValue(Unmarked)
                                         case CheckForNull => NullOnSimplePath(FieldValue(ins.field))
                                         case _ => NonReportingNotNull])
    {
      if ins.words != 1 {
        assert s.slots[..|s.slots| - 0] == s.slots;
      }
    }

    /** `analyzeInstruction` on a frame state: nothing for a frame that is not valid; the assertion reset after the visit when it applies. */
    function AnalyzeState(ins: Instruction, s: FrameState): FrameState
      requires env.cfg.WellFormed() && (s.status == Valid ==> CanPop(s, ins.ConsumeStack()))
      reads this
    {
      if s.status != Valid then s
      else
        var t := VisitState(ins, s);
        if t.status == Valid && AssertHackApplies() then FrameState(ResetSlots(tests, t.slots), ResetKnownValues(tests, t.known), t.status)
        else t
    }

    /**
     * `checkForKnownValue`: when the value produced is known, pop the
     * instruction's operands and push the known value; the answer says
     * whether it did.
     */
    method CheckForKnownValue(ins: Instruction) returns (modelled: bool)
      requires frame.StackDepth() >= ins.ConsumeStack()
      requires slotContainingNewNullValue == -1
      modifies frame`slots, frame`knownValues, this`slotContainingNewNullValue
      ensures modelled <==> KnownIn(old(frame.knownValues)).Some?
      ensures modelled ==> frame.slots == PopPush(old(frame.slots), ins.ConsumeStack(), 0, NonReportingNotNull) + [KnownIn(old(frame.knownValues)).value]
      ensures modelled ==> State() == WithKnown(ins, old(State())).value
      ensures !modelled ==> unchanged(frame) && slotContainingNewNullValue == -1
      ensures NewNullSlotMarksTop()
    {
      if trackValueNumbers {
        var vnaFrameAfter := env.vnaAfter(location);
        if vnaFrameAfter.Some? && vnaFrameAfter.value.valid {
          var tosVN := vnaFrameAfter.value.StackValue(0);
          if tosVN.Some? {
            var knownValue := frame.GetKnownValue(tosVN.value);
            if knownValue.Some? {
              ModelInstruction(ins.ConsumeStack(), 0, NonReportingNotNull);
              Produce(knownValue.value);
              return true;
            }
          }
        }
      }
      return false;
    }

    /**
     * `visitGETFIELD`: a one-word field takes the known value when there is
     * one, then the field's annotation (NONNULL: non-null; CHECK_FOR_NULL:
     * null on a simple path, marked as coming from the field); otherwise the
     * superclass's pop/push.
     */
    method VisitGetField(ins: Instruction)
      requires ins.GetField?
      requires frame.StackDepth() >= ins.ConsumeStack()
      requires slotContainingNewNullValue == -1
      modifies frame`slots, frame`knownValues, this`slotContainingNewNullValue
      ensures NewNullSlotMarksTop()
      ensures State() == GetFieldState(ins, old(State()))
    {
      if ins.words != 1 {
        HandleNormalInstruction(ins);
        return;
      }
      var known := CheckForKnownValue(ins);
      if known {
        return;
      }
      var annotation := env.fieldAnnotation(ins.field);
      if annotation == NonNullAnnotation {
        ModelInstruction(ins.ConsumeStack(), 0, NonReportingNotNull);
        Produce(NonNullValue(Unmarked));
      } else if annotation == CheckForNull {
        ModelInstruction(ins.ConsumeStack(), 0, NonReportingNotNull);
        Produce(NullOnSimplePath(FieldValue(ins.field)));
      } else {
        HandleNormalInstruction(ins);
      }
    }

    /** The logging levels whose load turns the frame into exception values. */
    static predicate IsErrorLevel(f: FieldRef) {
      (f.className == "java.util.logging.Level" && f.name == "SEVERE")
      || (f.className == "org.apache.log4j.Level" && (f.name == "ERROR" || f.name == "FATAL"))
    }

    /**
     * `visitGETSTATIC`: a one-word static takes the known value when there is
     * one; then a final field whose summary is null pushes null; an error
     * logging level first turns the frame into exception values; a `class$`
     * field pushes non-null; then the annotation; otherwise a default push.
     */
    method VisitGetStatic(ins: Instruction)
      requires ins.GetStatic?
      requires frame.StackDepth() >= ins.ConsumeStack()
      requires slotContainingNewNullValue == -1
      modifies frame`slots, frame`knownValues, this`slotContainingNewNullValue
      ensures NewNullSlotMarksTop()
      ensures State() == GetStaticState(ins, old(State()))
    {
      if ins.words != 1 {
        HandleNormalInstruction(ins);
        return;
      }
      var known := CheckForKnownValue(ins);
      if known {
        return;
      }
      LoadStatic(ins);
    }

    /** A one-word GETSTATIC whose value is not known: the summary, the logging levels, `class$` fields and the annotation. */
    method LoadStatic(ins: Instruction)
      requires ins.GetStatic? && ins.words == 1
      requires frame.StackDepth() >= ins.ConsumeStack()
      requires slotContainingNewNullValue == -1
      modifies frame`slots, frame`knownValues, this`slotContainingNewNullValue
      ensures NewNullSlotMarksTop()
      ensures State() == StaticLoadState(ins, old(State()))
    {
      var field := ins.field;
      if field.isFinal {
        if env.fieldSummaryIsNull(field) {
          Produce(NullValue);
          return;
        }
      }
      if IsErrorLevel(field) {
        frame.ToExceptionValues();
        assert frame.slots == ExceptionSlots(old(frame.slots));
      }
      PushStaticField(ins);
    }

    method PushStaticField(ins: Instruction)
      requires ins.GetStatic? && ins.words == 1
      requires frame.StackDepth() >= ins.ConsumeStack()
      requires slotContainingNewNullValue == -1
      modifies frame`slots, frame`knownValues, this`slotContainingNewNullValue
      ensures NewNullSlotMarksTop()
      ensures State() == StaticFieldState(ins, old(State()))
    {
      var field := ins.field;
      if |field.name| >= 6 && field.name[..6] == "class$" {
        Produce(NonNullValue(Unmarked));
        return;
      }
      var annotation := env.fieldAnnotation(field);
      if annotation == NonNullAnnotation {
        Produce(NonNullValue(Unmarked));
      } else if annotation == CheckForNull {
        Produce(NullOnSimplePath(FieldValue(field)));
      } else {
        HandleNormalInstruction(ins);
      }
    }

    /** The value numbers of the field loads a PUTFIELD makes available, when the lookups succeed. */
    function StoredLoads(ins: Instruction): Option<seq<ValueNumber>>
      requires ins.PutField?
      reads this
    {
      match env.vnaAt(location)
      case None => None
      case Some(before) =>
        match before.StackValue(1)
        case None => None
        case Some(refValue) =>
          match env.vnaAfter(location)
          case None => None
          case Some(after) =>
            var load := AvailableLoad(refValue, ins.field);
            if load in after.availableLoads then Some(after.availableLoads[load]) else None
    }

    /**
     * `visitPUTFIELD`: a one-word store pops its two operands and, with
     * redundant-load elimination and value-number tracking, records the stored
     * value as the known value of every value number the store makes available.
     */
    method VisitPutField(ins: Instruction)
      requires ins.PutField?
      requires frame.StackDepth() >= ins.ConsumeStack()
      requires slotContainingNewNullValue == -1
      modifies frame`slots, frame`knownValues
      ensures State() == PutFieldState(ins, old(State()))
      ensures NewNullSlotMarksTop()
    {
      if ins.ConsumeStack() != 2 {
        HandleNormalInstruction(ins);
        return;
      }
      var nullValueStored := frame.slots[|frame.slots| - 1];
      HandleNormalInstruction(ins);
      if config.redundantLoadElimination {
        var newValueNumbersForField := StoredLoads(ins);
        if newValueNumbersForField.Some? && trackValueNumbers {
          RecordKnownValues(newValueNumbersForField.value, nullValueStored);
        }
      }
    }

    /** Records `v` as the known value of every number in `vs`. */
    method RecordKnownValues(vs: seq<ValueNumber>, v: IsNullValue)
      modifies frame`knownValues
      ensures frame.knownValues == old(frame.knownValues) + map vn | vn in vs :: v
    {
      var k := 0;
      while k < |vs|
        invariant 0 <= k <= |vs|
        invariant frame.knownValues == old(frame.knownValues) + map vn | vn in vs[..k] :: v
      {
        frame.SetKnownValue(vs[k], v);
        assert vs[..k + 1] == vs[..k] + [vs[k]];
        k := k + 1;
      }
      assert vs[..k] == vs;
    }

    /**
     * `handleInvoke` for the four overridden invoke kinds: first the
     * required-non-null tightening (which may make the frame TOP and stop),
     * then either the thrower-summary tightening and a default pop/push, or
     * the modelled return value.
     */
    method HandleInvoke(ins: Instruction)
      requires ins.Invoke? && env.cfg.WellFormed()
      requires frame.StackDepth() >= ins.ConsumeStack()
      requires VnaMatchesFrame()
      requires slotContainingNewNullValue == -1
      modifies frame`slots, frame`knownValues, frame`status, this`slotContainingNewNullValue
      ensures NewNullSlotMarksTop()
      ensures ins.kind == InvokeDynamic ==> unchanged(frame)
      ensures ins.kind != InvokeDynamic ==> State() == HandleInvokeState(ins, old(State()))
      ensures ins.kind != InvokeDynamic ==>
                var t := Tightening(old(frame.slots), old(frame.knownValues));
                var tightened := if t.Some? then t.value.slots else old(frame.slots);
                if t.Some? && t.value.top then frame.slots == tightened && frame.status == Top
                else if !(config.modelNonnullReturn && ins.returnsReference) then
                  frame.slots == PopPush(ThrowerSlots(ins, tightened), ins.ConsumeStack(), ins.ProduceStack(), NonReportingNotNull)
                else frame.slots == PopPush(tightened, ins.ConsumeStack(), ins.ProduceStack(), ReturnValueAt(ins))
    {
      if ins.kind == InvokeDynamic {
        return;
      }
      var stopped := TightenNonNullParameters();
      if stopped {
        return;
      }
      InvokeResult(ins);
    }

    /** The rest of `handleInvoke` once the tightening has not stopped it: the thrower summaries or the modelled return value. */
    method InvokeResult(ins: Instruction)
      requires ins.Invoke? && env.cfg.WellFormed()
      requires frame.StackDepth() >= ins.ConsumeStack()
      requires slotContainingNewNullValue == -1
      modifies frame`slots, frame`knownValues, this`slotContainingNewNullValue
      ensures NewNullSlotMarksTop()
      ensures State() == InvokeResultState(ins, old(State()))
      ensures !(config.modelNonnullReturn && ins.returnsReference) ==>
                frame.slots == PopPush(ThrowerSlots(ins, old(frame.slots)), ins.ConsumeStack(), ins.ProduceStack(), NonReportingNotNull)
      ensures config.modelNonnullReturn && ins.returnsReference ==>
                frame.slots == PopPush(old(frame.slots), ins.ConsumeStack(), ins.ProduceStack(), ReturnValueAt(ins))
    {
      var modelCallReturnValue := config.modelNonnullReturn && ins.returnsReference;
      if !modelCallReturnValue {
        if ins.kind == InvokeStatic {
          ApplyThrowerSummary(ins);
        }
        HandleNormalInstruction(ins);
      } else {
        var result := ReturnValueAt(ins);
        ModelInstruction(ins.ConsumeStack(), ins.ProduceStack(), result);
        NewValueOnTOS();
      }
    }

    /**
     * The slots after the thrower-summary tightening of a static call. It needs
     * the callee's graph to be buildable. An ALWAYS callee consuming nothing
     * tightens the slot loaded before an IFNONNULL ending the call's own
     * block; a conditional callee tightens the argument slots whose argument
     * index is in its summary.
     */
    function ThrowerSlots(ins: Instruction, slots: seq<IsNullValue>): (r: seq<IsNullValue>)
      requires ins.Invoke? && env.cfg.WellFormed()
      reads this
      ensures |r| == |slots|
    {
      var summary := if ins.callee in env.throwers then Some(env.throwers[ins.callee]) else None;
      if ins.kind != InvokeStatic || ins.callee !in env.analysableMethods then slots
      else if ins.ConsumeStack() == 0 && summary == Some(ALWAYS) then
        match GuardedLoadSlot(env.cfg, location.block)
        case Some(index) => if index < |slots| then slots[index := Kaboom()] else slots
        case None => slots
      else if summary.Some? && summary.value.IsConditional() then
        match ConditionalLoads(env.cfg, location.block, ins.ConsumeStack())
        case Some(loads) => ApplyConditional(slots, loads, summary.value.params, Kaboom(), 0)
        case None => slots
      else slots
    }

    /** A thrower summary only ever replaces slots by the call's no-kaboom value. */
    lemma ThrowerSlotsOnlyKaboom(ins: Instruction, slots: seq<IsNullValue>)
      requires ins.Invoke? && env.cfg.WellFormed()
      ensures forall j :: 0 <= j < |slots| ==> ThrowerSlots(ins, slots)[j] in {slots[j], Kaboom()}
    {
      var summary := if ins.callee in env.throwers then Some(env.throwers[ins.callee]) else None;
      var loads := ConditionalLoads(env.cfg, location.block, ins.ConsumeStack());
      if summary.Some? && loads.Some? {
        ApplyConditionalOnlyKaboom(slots, loads.value, summary.value.params, Kaboom(), 0);
      }
    }

    /** The tightening for required-non-null parameters, when value numbers are tracked and both lookups succeed. */
    function Tightening(slots: seq<IsNullValue>, known: map<ValueNumber, IsNullValue>): Option<TightenOutcome>
      reads this
    {
      match (env.vnaAt(location), env.nonNullParameters(location))
      case (Some(vnaFrame), Some(vns)) =>
        if trackValueNumbers && |vnaFrame.slots| == |slots| then Some(TightenParameters(tests, slots, known, vnaFrame.slots, vns, Kaboom()))
        else None
      case _ => None
    }

    /** The value pushed for a call whose return value is modelled. */
    function ReturnValueAt(ins: Instruction): (r: IsNullValue)
      requires ins.Invoke?
      reads this
    {
      match env.callTargets(location)
      case None => NonReportingNotNull
      case Some(targets) =>
        var merged := if targets == [] then ReturnValueNullness(env.methodAnnotation(ins.callee), env.returnValueNonNull(ins.callee), ins.callee)
                      else CombinedReturnValue(env, targets);
        if ins.callee.name in env.dynamicNonNull(location.block) then CheckedNonNull else merged
    }

    /** The no-kaboom value of the current call site. */
    function Kaboom(): IsNullValue
      reads this
    {
      NoKaboomNonNull(location)
    }

    /**
     * The tightening for the parameters the callee requires non-null; the
     * answer says whether the frame became TOP (and the call's handling stops).
     */
    method TightenNonNullParameters() returns (stopped: bool)
      requires VnaMatchesFrame()
      modifies frame`slots, frame`knownValues, frame`status
      ensures var t := Tightening(old(frame.slots), old(frame.knownValues));
              if t.Some? then stopped == t.value.top && frame.slots == t.value.slots && frame.knownValues == t.value.known
                              && frame.status == (if t.value.top then Top else old(frame.status))
              else !stopped && unchanged(frame)
    {
      if !trackValueNumbers {
        return false;
      }
      var vnaFrame := env.vnaAt(location);
      var nonnullParameters := env.nonNullParameters(location);
      if vnaFrame.None? || nonnullParameters.None? {
        return false;
      }
      var vnaSlots := vnaFrame.value.slots;
      var vns := nonnullParameters.value;
      var kaboom := Kaboom();
      ghost var goal := TightenParameters(tests, frame.slots, frame.knownValues, vnaSlots, vns, kaboom);
      var k := 0;
      while k < |vns|
        invariant 0 <= k <= |vns| && |frame.slots| == |vnaSlots|
        invariant frame.status == old(frame.status)
        invariant TightenParameters(tests, frame.slots, frame.knownValues, vnaSlots, vns[k..], kaboom) == goal
      {
        assert vns[k..][0] == vns[k] && vns[k..][1..] == vns[k + 1..];
        stopped := TightenRound(vns[k], vnaSlots, kaboom);
        if stopped {
          return;
        }
        k := k + 1;
      }
      return false;
    }

    /** One value number of the tightening: its known value, then every slot holding it. */
    method TightenRound(vn: ValueNumber, vnaSlots: seq<ValueNumber>, kaboom: IsNullValue) returns (stopped: bool)
      requires |vnaSlots| == |frame.slots|
      modifies frame`slots, frame`knownValues, frame`status
      ensures KnownNullAt(tests, old(frame.knownValues), vn) ==>
                stopped && frame.status == Top && frame.slots == old(frame.slots) && frame.knownValues == old(frame.knownValues)
      ensures !KnownNullAt(tests, old(frame.knownValues), vn) ==>
                var t := TightenSlots(tests, old(frame.slots), vnaSlots, vn, kaboom, 0);
                && stopped == t.1 && frame.slots == t.0
                && frame.knownValues == TightenKnown(tests, old(frame.knownValues), vn, kaboom)
                && frame.status == (if t.1 then Top else old(frame.status))
    {
      var knownValue := frame.GetKnownValue(vn);
      if knownValue.Some? && !tests.definitelyNotNull(knownValue.value) {
        if tests.definitelyNull(knownValue.value) {
          frame.SetTop();
          return true;
        }
        frame.SetKnownValue(vn, kaboom);
      }
      stopped := TightenSlotsOf(vn, vnaSlots, kaboom);
    }

    /** The slot loop of one round: the frame becomes TOP at the first definitely-null slot holding `vn`. */
    method TightenSlotsOf(vn: ValueNumber, vnaSlots: seq<ValueNumber>, kaboom: IsNullValue) returns (stopped: bool)
      requires |vnaSlots| == |frame.slots|
      modifies frame`slots, frame`status
      ensures var t := TightenSlots(tests, old(frame.slots), vnaSlots, vn, kaboom, 0);
              stopped == t.1 && frame.slots == t.0 && frame.status == (if t.1 then Top else old(frame.status))
    {
      var i := 0;
      while i < |vnaSlots|
        invariant 0 <= i <= |vnaSlots| == |frame.slots|
        invariant frame.status == old(frame.status)
        invariant TightenSlots(tests, frame.slots, vnaSlots, vn, kaboom, i) == TightenSlots(tests, old(frame.slots), vnaSlots, vn, kaboom, 0)
      {
        var value := frame.slots[i];
        if vnaSlots[i] == vn && !tests.definitelyNotNull(value) {
          frame.SetValue(i, kaboom);
          if tests.definitelyNull(value) {
            frame.SetTop();
            return true;
          }
        }
        i := i + 1;
      }
      return false;
    }

    /**
     * The thrower-summary part of a static call whose return value is not
     * modelled. It needs the callee's graph to be buildable. An ALWAYS callee
     * consuming nothing tightens the slot loaded before an IFNONNULL ending the
     * call's own block; a conditional callee tightens the argument slots whose
     * argument index is in its summary. A slot outside the frame throws, and the
     * exception is swallowed.
     */
    method ApplyThrowerSummary(ins: Instruction)
      requires ins.Invoke? && ins.kind == InvokeStatic && env.cfg.WellFormed()
      modifies frame`slots
      ensures frame.slots == ThrowerSlots(ins, old(frame.slots))
    {
      var cfg := env.cfg;
      var exceptionThrowerSet := if ins.callee in env.throwers then Some(env.throwers[ins.callee]) else None;
      if ins.callee !in env.analysableMethods {
        return;
      }
      if ins.ConsumeStack() == 0 && exceptionThrowerSet == Some(ALWAYS) {
        ScanForGuardedLoad();
      } else if exceptionThrowerSet.Some? && exceptionThrowerSet.value.IsConditional() {
        var consume := ins.ConsumeStack();
        var basicBlock := location.block;
        var edge := cfg.IncomingEdgeWithType(basicBlock, FallThrough);
        if edge.Some? {
          var etBlock := edge.value.source;
          edge := cfg.IncomingEdgeWithType(etBlock, FallThrough);
          if edge.Some? {
            var loadBlock := edge.value.source;
            assert LoadBlock(cfg, basicBlock) == Some(loadBlock);
            var apply := AllArgumentLoads(loadBlock, consume);
            if apply {
              var loads := ConditionalLoads(cfg, basicBlock, consume).value;
              SetGuardedSlots(loadBlock, loads, exceptionThrowerSet.value.params);
            }
          }
        }
      }
    }

    /** The first loop of the conditional rule: the last `consume` instructions of `loadBlock` are all ALOADs, and there is at least one. */
    method AllArgumentLoads(loadBlock: BlockId, consume: nat) returns (apply: bool)
      requires env.cfg.WellFormed()
      ensures apply <==> consume > 0 && LoadsBackward(env.cfg, env.cfg.LastInstruction(loadBlock), consume).Some?
    {
      var cfg := env.cfg;
      apply := false;
      var inh: Option<CodeIndex> := cfg.LastInstruction(loadBlock);
      var i := 0;
      while i < consume
        invariant 0 <= i <= consume
        invariant inh.Some? ==> inh.value < |cfg.code|
        invariant LoadsAlong(cfg, cfg.LastInstruction(loadBlock), consume) == LoadsAlong(cfg, inh, consume - i)
        invariant apply <==> i > 0
      {
        if inh.Some? && cfg.code[inh.value].Aload? {
          apply := true;
          inh := cfg.Prev(inh.value);
        } else {
          apply := false;
          break;
        }
        i := i + 1;
      }
      LoadsAlongIsLoadsBackward(cfg, cfg.LastInstruction(loadBlock), consume);
    }

    /** The second loop of the conditional rule: load `i` from the end gets the no-kaboom value when argument `consume - 1 - i` is set. */
    method SetGuardedSlots(loadBlock: BlockId, loads: seq<nat>, params: set<nat>)
      requires env.cfg.WellFormed()
      requires LoadsBackward(env.cfg, env.cfg.LastInstruction(loadBlock), |loads|) == Some(loads)
      modifies frame`slots
      ensures frame.slots == ApplyConditional(old(frame.slots), loads, params, Kaboom(), 0)
    {
      var cfg := env.cfg;
      var consume := |loads|;
      ghost var goal := ApplyConditional(frame.slots, loads, params, Kaboom(), 0);
      var inh: Option<CodeIndex> := cfg.LastInstruction(loadBlock);
      var i := 0;
      while i < consume
        invariant 0 <= i <= consume
        invariant ApplyConditional(frame.slots, loads, params, Kaboom(), i) == goal
        invariant inh.Some? ==> inh.value < |cfg.code|
        invariant LoadsBackward(cfg, inh, consume - i) == Some(loads[i..])
      {
        var index := cfg.code[inh.value].index;
        assert index == loads[i];
        if consume - 1 - i in params {
          if index >= |frame.slots| {
            return;
          }
          frame.SetValue(index, Kaboom());
        }
        inh := cfg.Prev(inh.value);
        assert loads[i..][1..] == loads[i + 1..];
        i := i + 1;
      }
    }

    /**
     * The ALWAYS-thrower scan, written as a queue walk over the call's block
     * and its predecessors. The enqueue test looks at the block being
     * expanded, which is already marked visited, so nothing is ever enqueued
     * and only the call's own block is examined.
     */
    method ScanForGuardedLoad()
      requires env.cfg.WellFormed()
      modifies frame`slots
      ensures frame.slots == match GuardedLoadSlot(env.cfg, location.block)
                             case Some(index) => if index < |old(frame.slots)| then old(frame.slots)[index := Kaboom()] else old(frame.slots)
                             case None => old(frame.slots)
    {
      var cfg := env.cfg;
      var basicBlock := location.block;
      var queue := [basicBlock];
      var visited: set<BlockId> := {};
      while queue != []
        invariant queue == [] || queue == [location.block]
        invariant queue == [] ==> visited == {location.block} && frame.slots == old(frame.slots)
                                  && GuardedLoadSlot(cfg, location.block).None?
        invariant queue != [] ==> visited == {} && frame.slots == old(frame.slots)
        decreases |queue|
      {
        basicBlock := queue[0];
        queue := queue[1..];
        var inh := cfg.LastInstruction(basicBlock);
        if inh.Some? && cfg.code[inh.value] == IfNonNull {
          var prev := cfg.Prev(inh.value);
          if prev.Some? && cfg.code[prev.value].Aload? {
            var index := cfg.code[prev.value].index;
            if index >= |frame.slots| {
              return;
            }
            frame.SetValue(index, Kaboom());
            break;
          }
        }
        visited := visited + {basicBlock};
        var it := cfg.IncomingEdges(basicBlock);
        var k := 0;
        while k < |it|
          invariant 0 <= k <= |it| && queue == []
        {
          var source := it[k].source;
          if basicBlock !in visited {
            queue := queue + [source];
          }
          k := k + 1;
        }
      }
    }
  }

  /** The `n` instructions met stepping back from `inh` are all ALOADs. */
  predicate LoadsAlong(cfg: Cfg, inh: Option<CodeIndex>, n: nat)
    requires cfg.WellFormed() && (inh.Some? ==> inh.value < |cfg.code|)
    decreases n
  {
    n == 0 || (inh.Some? && cfg.code[inh.value].Aload? && LoadsAlong(cfg, cfg.Prev(inh.value), n - 1))
  }

  lemma {:induction false} LoadsAlongIsLoadsBackward(cfg: Cfg, inh: Option<CodeIndex>, n: nat)
    requires cfg.WellFormed() && (inh.Some? ==> inh.value < |cfg.code|)
    ensures LoadsBackward(cfg, inh, n).Some? <==> LoadsAlong(cfg, inh, n)
    decreases n
  {
    if n > 0 && inh.Some? && cfg.code[inh.value].Aload? {
      LoadsAlongIsLoadsBackward(cfg, cfg.Prev(inh.value), n - 1);
    }
  }
}
