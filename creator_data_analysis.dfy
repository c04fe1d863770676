/**
 * The creator-data analysis: a forward dataflow over frames of
 * `CreatorDataValue`s. Modelled here are its per-slot merge, the branch
 * decision a block's last instruction records, the edge rule that copies the
 * incoming frame and rewrites every slot congruent to the tested value, and
 * the entry fact. The instruction transfer (the modelling visitor) and the
 * generic dataflow driver are not part of this model.
 */
module CreatorDataAnalyses {
  import opened Wrappers
  import opened Bytecode
  import opened IsNullValues
  import V = IsNullValueFrameModeling
  import opened CreatorDataValueDecisions

  // ---------------------------------------------------------------------
  // The per-slot merge.

  /** `mergeValues` for one slot: a JSON string wins, then a JSON source, otherwise not JSON. */
  function MergedValue(c: Classifier, other: CreatorDataValue, result: CreatorDataValue): CreatorDataValue {
    if c.isJson(other) || c.isJson(result) then
      if c.isJsonExp(other) && c.isJsonExp(result) then JsonExp else Json
    else if c.isJsonSource(other) || c.isJsonSource(result) then
      if other == JsonObjectRaw || result == JsonObjectRaw then JsonObjectRaw
      else if other == JsonObjectArray || result == JsonObjectArray then JsonObjectRaw
      else if other == JsonObjectExp && result == JsonObjectExp then JsonObjectExp
      else JsonObject
    else NotJson
  }

  /** Every test is an "either" or a "both": the merge does not depend on which frame is which. */
  lemma MergedValueSymmetric(c: Classifier, a: CreatorDataValue, b: CreatorDataValue)
    ensures MergedValue(c, a, b) == MergedValue(c, b, a)
  {
  }

  /**
   * The merge never yields an array: an array meets to a raw object. The
   * result is not JSON exactly when neither input is JSON nor a JSON source.
   */
  lemma MergedValueOutcomes(c: Classifier, a: CreatorDataValue, b: CreatorDataValue)
    ensures MergedValue(c, a, b) != JsonObjectArray
    ensures MergedValue(c, a, b) == NotJson <==>
              !c.isJson(a) && !c.isJson(b) && !c.isJsonSource(a) && !c.isJsonSource(b)
    ensures c.isJson(a) || c.isJson(b) ==>
              (MergedValue(c, a, b) == JsonExp <==> c.isJsonExp(a) && c.isJsonExp(b))
              && (MergedValue(c, a, b) == Json || MergedValue(c, a, b) == JsonExp)
    ensures !c.isJson(a) && !c.isJson(b) && (c.isJsonSource(a) || c.isJsonSource(b)) ==>
              (MergedValue(c, a, b) == JsonObjectRaw <==>
                 a == JsonObjectRaw || b == JsonObjectRaw || a == JsonObjectArray || b == JsonObjectArray)
              && (MergedValue(c, a, b) == JsonObjectExp <==> a == JsonObjectExp && b == JsonObjectExp)
  {
  }

  // ---------------------------------------------------------------------
  // Frames.

  datatype FrameStatus = Valid | Top | Bottom

  /** A frame: the locals followed by the operand stack, a status and the decision recorded at the end of its block. */
  class CreatorDataFrame {
    const numLocals: nat
    var slots: seq<CreatorDataValue>
    var status: FrameStatus
    var decision: Option<Decision>

    /** `createFact`: a frame with one slot per local; the slots' contents are not observed before they are set. */
    constructor (numLocals: nat)
      ensures this.numLocals == numLocals && |slots| == numLocals && status == Top && decision.None?
    {
      this.numLocals := numLocals;
      slots := seq(numLocals, _ => NotJson);
      status := Top;
      decision := None;
    }

    method SetValid()
      modifies this`status
      ensures status == Valid
    {
      status := Valid;
    }

    method SetValue(i: nat, v: CreatorDataValue)
      requires i < |slots|
      modifies this`slots
      ensures slots == old(slots)[i := v]
    {
      slots := slots[i := v];
    }

    method PushValue(v: CreatorDataValue)
      modifies this`slots
      ensures slots == old(slots) + [v]
    {
      slots := slots + [v];
    }

    /** Drops the operand stack, keeping the locals. */
    method ClearStack()
      modifies this`slots
      ensures slots == Locals(old(slots), numLocals)
    {
      slots := Locals(slots, numLocals);
    }

    /** Takes the other frame's slots and status. */
    method CopyFrom(other: CreatorDataFrame)
      modifies this`slots, this`status
      ensures slots == old(other.slots) && status == old(other.status)
    {
      slots := other.slots;
      status := other.status;
    }
  }

  /** The locals part of a slot sequence. */
  function Locals(slots: seq<CreatorDataValue>, numLocals: nat): (r: seq<CreatorDataValue>)
    ensures |r| == if |slots| > numLocals then numLocals else |slots|
    ensures r <= slots
  {
    if |slots| > numLocals then slots[..numLocals] else slots
  }

  /** A frame of nullness values, as the nullness dataflow reports it before an instruction. */
  datatype NullnessFrame = NullnessFrame(numLocals: nat, slots: seq<IsNullValue>)
  {
    /** `getStackValue(n)`: the n-th value from the top; `None` where the source throws. */
    function StackValue(n: nat): (r: Option<IsNullValue>)
      ensures r.Some? <==> |slots| - numLocals > n
      ensures r.Some? ==> r.value == slots[|slots| - 1 - n]
    {
      if |slots| - numLocals > n then Some(slots[|slots| - 1 - n]) else None
    }
  }

  /**
   * What the analysis asks of the rest of the framework: the method's graph,
   * the value-number and nullness dataflows, the nullness tests, the decision
   * stored in each block's result fact, and whether Java assertions are on.
   */
  datatype Env = Env(
    cfg: Cfg,
    vnaAt: Location -> V.VnaFrame,              // value numbers before an instruction
    vnaStart: BlockId -> V.VnaFrame,             // value numbers at the start of a block
    invAt: Location -> NullnessFrame,            // nullness before an instruction
    tests: NullnessTests,
    resultDecision: BlockId -> Option<Decision>, // the decision in a block's result fact
    assertionsEnabled: bool)

  // ---------------------------------------------------------------------
  // Branch decisions.

  /**
   * `handleIfNull`: after IFNULL the fall-through side holds a non-JSON value;
   * after IFNONNULL neither side is decided, which the decision's constructor
   * rejects when assertions are enabled.
   */
  function HandleIfNull(assertionsEnabled: bool, prevTopValue: ValueNumber, ifnull: bool): (r: Result<Decision>)
    ensures ifnull ==> r == Ok(Decision(Some(prevTopValue), None, Some(NotJson)))
    ensures !ifnull ==> (r.Err? <==> assertionsEnabled)
    ensures !ifnull && r.Ok? ==> r.value == Decision(Some(prevTopValue), None, None)
  {
    NewDecision(assertionsEnabled, Some(prevTopValue), None, if ifnull then Some(NotJson) else None)
  }

  /** A built decision as the answer of `getDecision`, or the constructor's failure. */
  function RecordedDecision(d: Result<Decision>): (r: Result<Option<Decision>>)
    ensures r.Ok? <==> d.Ok?
    ensures d.Ok? ==> r.value == Some(d.value)
    ensures d.Err? ==> r.failure == d.failure
  {
    match d
    case Ok(x) => Ok(Some(x))
    case Err(f) => Err(f)
  }

  /**
   * The outcome of an IFNONNULL-style test of value number `v`: no side is
   * decided, which is an assertion failure when assertions are enabled.
   */
  predicate UndecidedTestOf(assertionsEnabled: bool, v: ValueNumber, r: Result<Option<Decision>>) {
    (r.Ok? <==> !assertionsEnabled)
    && (r.Ok? ==> r.value == Some(Decision(Some(v), None, None)))
    && (r.Err? ==> r.failure.AssertionFailed?)
  }

  /** The instructions after which `getDecision` inspects the nullness of the compared values. */
  predicate NullComparison(ins: Instruction) {
    ins == IfNull || ins == IfNonNull || ins == IfAcmpEq || ins == IfAcmpNe
  }

  /**
   * The IF_ACMPNE rule: when exactly one compared value is definitely null it
   * is a null test of the other; otherwise a definitely non-null side makes
   * the other side non-JSON on the fall-through edge.
   */
  function AcmpNeDecision(env: Env, vna: V.VnaFrame, inv: NullnessFrame): (r: Result<Option<Decision>>)
    ensures r.Ok? && r.value.Some? ==> r.value.value.ifcmp.None?
    ensures r.Ok? && r.value.Some? && r.value.value.fallThrough.Some? ==> r.value.value.fallThrough == Some(NotJson)
    ensures r.Err? ==> r.failure.DataflowError? || (r.failure.AssertionFailed? && env.assertionsEnabled)
    ensures r.Ok? && r.value.Some? && env.assertionsEnabled ==> r.value.value.fallThrough.Some?
    ensures r.Ok? && inv.StackValue(0).Some? && inv.StackValue(1).Some?
            && !env.tests.definitelyNull(inv.StackValue(0).value) && !env.tests.definitelyNull(inv.StackValue(1).value)
            && !env.tests.definitelyNotNull(inv.StackValue(0).value) && !env.tests.definitelyNotNull(inv.StackValue(1).value)
            ==> r == Ok(None)
    // a missing stack value in either frame is an error
    ensures inv.StackValue(0).None? || inv.StackValue(1).None? ==> r.Err? && r.failure.DataflowError?
    // exactly one side definitely null: a null test, with no side decided, of that side's value number
    ensures inv.StackValue(0).Some? && inv.StackValue(1).Some?
            && env.tests.definitelyNull(inv.StackValue(0).value) && !env.tests.definitelyNull(inv.StackValue(1).value) ==>
              if vna.StackValue(0).Some? then UndecidedTestOf(env.assertionsEnabled, vna.StackValue(0).value, r)
              else r.Err? && r.failure.DataflowError?
    ensures inv.StackValue(0).Some? && inv.StackValue(1).Some?
            && !env.tests.definitelyNull(inv.StackValue(0).value) && env.tests.definitelyNull(inv.StackValue(1).value) ==>
              if vna.StackValue(1).Some? then UndecidedTestOf(env.assertionsEnabled, vna.StackValue(1).value, r)
              else r.Err? && r.failure.DataflowError?
    // otherwise a definitely non-null side makes the other side's value number non-JSON on the fall-through edge
    ensures inv.StackValue(0).Some? && inv.StackValue(1).Some?
            && env.tests.definitelyNull(inv.StackValue(0).value) == env.tests.definitelyNull(inv.StackValue(1).value)
            && env.tests.definitelyNotNull(inv.StackValue(0).value) ==>
              if vna.StackValue(1).Some? then r == Ok(Some(Decision(vna.StackValue(1), None, Some(NotJson))))
              else r.Err? && r.failure.DataflowError?
    ensures inv.StackValue(0).Some? && inv.StackValue(1).Some?
            && env.tests.definitelyNull(inv.StackValue(0).value) == env.tests.definitelyNull(inv.StackValue(1).value)
            && !env.tests.definitelyNotNull(inv.StackValue(0).value) && env.tests.definitelyNotNull(inv.StackValue(1).value) ==>
              if vna.StackValue(0).Some? then r == Ok(Some(Decision(vna.StackValue(0), None, Some(NotJson))))
              else r.Err? && r.failure.DataflowError?
  {
    match (inv.StackValue(0), inv.StackValue(1))
    case (Some(invTos), Some(invNextToTos)) =>
      var tosNull := env.tests.definitelyNull(invTos);
      var nextToTosNull := env.tests.definitelyNull(invNextToTos);
      if tosNull && !nextToTosNull then
        match vna.StackValue(0)
        case Some(v) => RecordedDecision(HandleIfNull(env.assertionsEnabled, v, false))
        case None => Err(DataflowError("not enough values on stack"))
      else if !tosNull && nextToTosNull then
        match vna.StackValue(1)
        case Some(v) => RecordedDecision(HandleIfNull(env.assertionsEnabled, v, false))
        case None => Err(DataflowError("not enough values on stack"))
      else if env.tests.definitelyNotNull(invTos) then
        match vna.StackValue(1)
        case Some(v) => RecordedDecision(NewDecision(env.assertionsEnabled, Some(v), None, Some(NotJson)))
        case None => Err(DataflowError("not enough values on stack"))
      else if env.tests.definitelyNotNull(invNextToTos) then
        match vna.StackValue(0)
        case Some(v) => RecordedDecision(NewDecision(env.assertionsEnabled, Some(v), None, Some(NotJson)))
        case None => Err(DataflowError("not enough values on stack"))
      else Ok(None)
    case _ => Err(DataflowError("not enough values on stack"))
  }

  /**
   * `getDecision`: its opening assertion that some instruction's frame has
   * been stored (`lastFrameStored`: the field `lastFrame` is not null), then
   * the decision for the end of the block.
   */
  function GetDecision(env: Env, block: BlockId, instanceOfFrame: CreatorDataFrame?, lastFrameStored: bool): (r: Result<Option<Decision>>)
    requires env.cfg.WellFormed()
    reads instanceOfFrame
    ensures env.assertionsEnabled && !lastFrameStored ==> r == Err(AssertionFailed("lastFrame != null"))
    ensures lastFrameStored || !env.assertionsEnabled ==> r == BlockDecision(env, block, instanceOfFrame)
    ensures r.Err? ==> r.failure.DataflowError? || (r.failure.AssertionFailed? && env.assertionsEnabled)
  {
    if env.assertionsEnabled && !lastFrameStored then Err(AssertionFailed("lastFrame != null"))
    else BlockDecision(env, block, instanceOfFrame)
  }

  /**
   * The body of `getDecision` after its assertion: the decision for the end
   * of a block, by its last instruction. `instanceOfFrame` is the frame the
   * transfer function copied at the block's INSTANCEOF, if any.
   */
  function BlockDecision(env: Env, block: BlockId, instanceOfFrame: CreatorDataFrame?): (r: Result<Option<Decision>>)
    requires env.cfg.WellFormed()
    reads instanceOfFrame
    ensures env.cfg.EndsWith(block, IfAcmpEq) ==> r == Ok(None)
    ensures r.Ok? && r.value.Some? ==>
              env.cfg.LastInstruction(block).Some?
              && var i := env.cfg.LastInstruction(block).value;
                 NullComparison(env.cfg.code[i]) || ((env.cfg.code[i] == IfEq || env.cfg.code[i] == IfNe)
                                                     && i > 0 && env.cfg.code[i - 1] == InstanceOf && instanceOfFrame != null)
    ensures r.Ok? && r.value.Some? && env.cfg.EndsWith(block, IfEq) ==> r.value.value.ifcmp.None? && r.value.value.fallThrough == Some(NotJson)
    ensures r.Ok? && r.value.Some? && env.cfg.EndsWith(block, IfNe) ==> r.value.value.ifcmp == Some(NotJson) && r.value.value.fallThrough.None?
    ensures r.Ok? && r.value.Some? && env.cfg.EndsWith(block, IfNull) ==> r.value.value.ifcmp.None? && r.value.value.fallThrough == Some(NotJson)
    ensures r.Ok? && r.value.Some? && env.cfg.EndsWith(block, IfNonNull) ==>
              !env.assertionsEnabled && r.value.value.ifcmp.None? && r.value.value.fallThrough.None?
    ensures r.Ok? && r.value.Some? && env.cfg.EndsWith(block, IfAcmpNe) ==> r.value.value.ifcmp.None?
    ensures r.Err? ==> r.failure.DataflowError? || (r.failure.AssertionFailed? && env.assertionsEnabled)
    ensures r.Ok? && r.value.Some? && env.assertionsEnabled ==> r.value.value.ifcmp.Some? || r.value.value.fallThrough.Some?
    // no decision for a block without instructions or not ending in a branch this analysis decides
    ensures env.cfg.LastInstruction(block).None? ==> r == Ok(None)
    ensures env.cfg.LastInstruction(block).Some? ==>
              var op := env.cfg.code[env.cfg.LastInstruction(block).value];
              op != IfEq && op != IfNe && !NullComparison(op) ==> r == Ok(None)
    // IFEQ / IFNE right after INSTANCEOF: the value number INSTANCEOF tested is non-JSON on the side where the test failed
    ensures env.cfg.LastInstruction(block).Some? ==>
              var i := env.cfg.LastInstruction(block).value;
              (env.cfg.code[i] == IfEq || env.cfg.code[i] == IfNe) ==>
                if i == 0 || env.cfg.code[i - 1] != InstanceOf || instanceOfFrame == null then r == Ok(None)
                else if |instanceOfFrame.slots| <= instanceOfFrame.numLocals || env.vnaAt(Location(block, i - 1)).StackValue(0).None? then
                  r.Err? && r.failure.DataflowError?
                else
                  var v := env.vnaAt(Location(block, i - 1)).StackValue(0);
                  r == Ok(Some(if env.cfg.code[i] == IfEq then Decision(v, None, Some(NotJson)) else Decision(v, Some(NotJson), None)))
    // IFNULL / IFNONNULL: a null test of the top value number
    ensures env.cfg.LastInstruction(block).Some? ==>
              var i := env.cfg.LastInstruction(block).value;
              var v := env.vnaAt(Location(block, i)).StackValue(0);
              (env.cfg.code[i] == IfNull || env.cfg.code[i] == IfNonNull) && v.None? ==> r.Err? && r.failure.DataflowError?
    ensures env.cfg.LastInstruction(block).Some? ==>
              var i := env.cfg.LastInstruction(block).value;
              var v := env.vnaAt(Location(block, i)).StackValue(0);
              env.cfg.code[i] == IfNull && v.Some? ==> r == Ok(Some(Decision(v, None, Some(NotJson))))
    ensures env.cfg.LastInstruction(block).Some? ==>
              var i := env.cfg.LastInstruction(block).value;
              var v := env.vnaAt(Location(block, i)).StackValue(0);
              env.cfg.code[i] == IfNonNull && v.Some? ==> UndecidedTestOf(env.assertionsEnabled, v.value, r)
    // IF_ACMPNE: the comparison rule on the frames before the branch
    ensures env.cfg.LastInstruction(block).Some? ==>
              var i := env.cfg.LastInstruction(block).value;
              env.cfg.code[i] == IfAcmpNe ==> r == AcmpNeDecision(env, env.vnaAt(Location(block, i)), env.invAt(Location(block, i)))
  {
    var cfg := env.cfg;
    match cfg.LastInstruction(block)
    case None => Ok(None)
    case Some(i) =>
      var op := cfg.code[i];
      if op == IfEq || op == IfNe then
        if i == 0 || cfg.code[i - 1] != InstanceOf || instanceOfFrame == null then Ok(None)
        else if |instanceOfFrame.slots| <= instanceOfFrame.numLocals then Err(DataflowError("accessing top of empty stack"))
        else
          match env.vnaAt(Location(block, i - 1)).StackValue(0)
          case None => Err(DataflowError("accessing top of empty stack"))
          case Some(v) =>
            if op == IfEq then RecordedDecision(NewDecision(env.assertionsEnabled, Some(v), None, Some(NotJson)))
            else RecordedDecision(NewDecision(env.assertionsEnabled, Some(v), Some(NotJson), None))
      else if !NullComparison(op) then Ok(None)
      else
        var vna := env.vnaAt(Location(block, i));
        if op == IfNull || op == IfNonNull then
          match vna.StackValue(0)
          case None => Err(DataflowError("accessing top of empty stack"))
          case Some(v) => RecordedDecision(HandleIfNull(env.assertionsEnabled, v, op == IfNull))
        else if op == IfAcmpEq then Ok(None)
        else AcmpNeDecision(env, vna, env.invAt(Location(block, i)))
  }

  // ---------------------------------------------------------------------
  // The edge rule.

  /** Some slot `i` below `prefix` held the tested value before the branch and has the same value number at the target as slot `j`. */
  ghost predicate CongruentToTested(replaceMe: ValueNumber, prev: seq<ValueNumber>, target: seq<ValueNumber>, prefix: nat, j: nat)
    requires prefix <= |prev| && prefix <= |target| && j < |target|
  {
    exists i :: 0 <= i < prefix && prev[i] == replaceMe && target[j] == target[i]
  }

  /**
   * What `replaceValues` makes of the copied slots: unchanged when the slot
   * counts differ, when the target is shorter than the common prefix, or when
   * the frame is not valid; otherwise exactly the slots congruent to the
   * tested value hold the replacement and every other slot is unchanged.
   */
  ghost function ReplacedSlots(slots: seq<CreatorDataValue>, valid: bool, replaceMe: ValueNumber,
                               prev: seq<ValueNumber>, target: seq<ValueNumber>, replacement: CreatorDataValue): (r: seq<CreatorDataValue>)
    ensures |r| == |slots|
  {
    var prefix := if |slots| < |prev| then |slots| else |prev|;
    if |slots| != |target| || |target| < prefix || !valid then slots
    else seq(|slots|, j requires 0 <= j < |slots| =>
               if CongruentToTested(replaceMe, prev, target, prefix, j) then replacement else slots[j])
  }

  /** A branch edge whose source recorded a decision with a tested value. */
  predicate TestsValue(env: Env, edge: Edge) {
    (edge.kind == IfCmp || edge.kind == FallThrough)
    && env.resultDecision(edge.source).Some? && env.resultDecision(edge.source).value.value.Some?
  }

  /** The replacement an edge carries: a decided side of the source's decision, on a branch edge, with a tested value. */
  function EdgeReplacement(env: Env, edge: Edge): (r: Option<(ValueNumber, CreatorDataValue)>)
    ensures r.Some? ==> edge.kind == IfCmp || edge.kind == FallThrough
    ensures r.Some? ==> TestsValue(env, edge)
    ensures r.Some? ==> env.resultDecision(edge.source).Some?
                        && env.resultDecision(edge.source).value.value == Some(r.value.0)
                        && env.resultDecision(edge.source).value.GetDecision(edge.kind) == Ok(Some(r.value.1))
    ensures r.None? && (edge.kind == IfCmp || edge.kind == FallThrough) && env.resultDecision(edge.source).Some? ==>
              var d := env.resultDecision(edge.source).value;
              d.value.None? || d.GetDecision(edge.kind) == Ok(None)
  {
    if edge.kind == IfCmp || edge.kind == FallThrough then
      match env.resultDecision(edge.source)
      case None => None
      case Some(decision) =>
        match decision.value
        case None => None
        case Some(valueTested) =>
          match decision.GetDecision(edge.kind)
          case Ok(Some(decisionValue)) => Some((valueTested, decisionValue))
          case _ => None
    else None
  }

  class CreatorDataAnalysis {
    const env: Env
    const maxLocals: nat
    const classifier: Classifier
    var cachedEntryFact: CreatorDataFrame?

    constructor (env: Env, maxLocals: nat, classifier: Classifier)
      ensures this.env == env && this.maxLocals == maxLocals && this.classifier == classifier
      ensures cachedEntryFact == null
    {
      this.env := env;
      this.maxLocals := maxLocals;
      this.classifier := classifier;
      cachedEntryFact := null;
    }

    /** The cached entry fact, once built, is valid with every local not JSON. */
    ghost predicate CacheInvariant()
      reads this, cachedEntryFact
    {
      cachedEntryFact != null ==> cachedEntryFact.status == Valid && cachedEntryFact.slots == EntrySlots(maxLocals)
    }

    /** `mergeValues`: the result frame's slot becomes the merge of both frames' slots; nothing else changes. */
    method MergeValues(otherFrame: CreatorDataFrame, resultFrame: CreatorDataFrame, slot: nat)
      requires slot < |otherFrame.slots| && slot < |resultFrame.slots|
      modifies resultFrame`slots
      ensures resultFrame.slots == old(resultFrame.slots)[slot := MergedValue(classifier, old(otherFrame.slots[slot]), old(resultFrame.slots[slot]))]
    {
      var v := MergedValue(classifier, otherFrame.slots[slot], resultFrame.slots[slot]);
      resultFrame.SetValue(slot, v);
    }

    /**
     * `initEntryFact`: builds the cached entry fact on first use, then copies
     * it into `result`, which ends valid with every local not JSON. The cached
     * frame itself is never handed out.
     */
    method InitEntryFact(result: CreatorDataFrame)
      requires CacheInvariant() && result != cachedEntryFact
      modifies this`cachedEntryFact, result`slots, result`status
      ensures CacheInvariant() && cachedEntryFact != null && result != cachedEntryFact
      ensures old(cachedEntryFact) != null ==> cachedEntryFact == old(cachedEntryFact)
      ensures old(cachedEntryFact) == null ==> fresh(cachedEntryFact)
      ensures result.status == Valid && result.slots == EntrySlots(maxLocals)
    {
      if cachedEntryFact == null {
        var fact := new CreatorDataFrame(maxLocals);
        fact.SetValid();
        var i := 0;
        while i < maxLocals
          invariant 0 <= i <= maxLocals && |fact.slots| == maxLocals && fact.status == Valid
          invariant forall k :: 0 <= k < i ==> fact.slots[k] == NotJson
        {
          fact.SetValue(i, NotJson);
          i := i + 1;
        }
        cachedEntryFact := fact;
      }
      result.CopyFrom(cachedEntryFact);
    }

    /** `modifyFrame(frame, null)`: a fresh copy of the frame. */
    method CopyOf(orig: CreatorDataFrame) returns (frame: CreatorDataFrame)
      ensures fresh(frame) && frame.numLocals == maxLocals
      ensures frame.slots == orig.slots && frame.status == orig.status && frame.decision.None?
    {
      frame := new CreatorDataFrame(maxLocals);
      frame.CopyFrom(orig);
    }

    /**
     * `replaceValues`: an invalid target frame is an illegal argument;
     * otherwise a fresh copy of the frame whose slots are `ReplacedSlots`.
     */
    method ReplaceValues(origFrame: CreatorDataFrame, replaceMe: ValueNumber, prevVnaFrame: V.VnaFrame,
                         targetVnaFrame: V.VnaFrame, replacementValue: CreatorDataValue) returns (r: Result<CreatorDataFrame>)
      ensures r.Err? <==> !targetVnaFrame.valid
      ensures r.Err? ==> r.failure.IllegalArgument?
      ensures r.Ok? ==> fresh(r.value) && r.value.status == origFrame.status
      ensures r.Ok? ==> r.value.slots == ReplacedSlots(origFrame.slots, origFrame.status == Valid, replaceMe,
                                                       prevVnaFrame.slots, targetVnaFrame.slots, replacementValue)
    {
      if !targetVnaFrame.valid {
        return Err(IllegalArgument("Invalid frame"));
      }
      var frame := CopyOf(origFrame);
      var prev := prevVnaFrame.slots;
      var target := targetVnaFrame.slots;
      if |frame.slots| != |target| {
        return Ok(frame);
      }
      var targetNumSlots := |target|;
      var prefixNumSlots := if |frame.slots| < |prev| then |frame.slots| else |prev|;
      if targetNumSlots < prefixNumSlots {
        return Ok(frame);
      }
      if frame.status != Valid {
        return Ok(frame);
      }
      ghost var orig := frame.slots;
      var i := 0;
      while i < prefixNumSlots
        invariant 0 <= i <= prefixNumSlots && |frame.slots| == targetNumSlots && frame.status == origFrame.status
        invariant forall j :: 0 <= j < targetNumSlots ==>
                    frame.slots[j] == if CongruentToTested(replaceMe, prev, target, i, j) then replacementValue else orig[j]
      {
        if prev[i] == replaceMe {
          var corresponding := target[i];
          var j := 0;
          while j < targetNumSlots
            invariant 0 <= j <= targetNumSlots && |frame.slots| == targetNumSlots && frame.status == origFrame.status
            invariant forall k :: 0 <= k < j ==>
                        frame.slots[k] == if CongruentToTested(replaceMe, prev, target, i + 1, k) then replacementValue else orig[k]
            invariant forall k :: j <= k < targetNumSlots ==>
                        frame.slots[k] == if CongruentToTested(replaceMe, prev, target, i, k) then replacementValue else orig[k]
          {
            if target[j] == corresponding {
              frame.SetValue(j, replacementValue);
            }
            j := j + 1;
          }
        } else {
          forall k | 0 <= k < targetNumSlots
            ensures CongruentToTested(replaceMe, prev, target, i + 1, k) == CongruentToTested(replaceMe, prev, target, i, k)
          {
          }
        }
        i := i + 1;
      }
      return Ok(frame);
    }

    /**
     * `meetInto`, up to the hand-over to the generic merge: the frame that is
     * merged into the target's fact. Into an exception handler the stack is
     * replaced by one non-JSON value; across a branch edge whose source
     * recorded a decision for that side, the slots congruent to the tested
     * value take the decided value; on every other edge the frame is copied.
     */
    method MeetInto(fact: CreatorDataFrame, edge: Edge) returns (r: Result<CreatorDataFrame>)
      requires env.cfg.WellFormed()
      ensures edge.target in env.cfg.handlers ==>
                r.Ok? && r.value.slots == Locals(fact.slots, maxLocals) + [NotJson]
      ensures edge.target !in env.cfg.handlers && TestsValue(env, edge) && env.cfg.LastInstruction(edge.source).None? ==>
                r.Err? && r.failure.DataflowError?
      ensures edge.target !in env.cfg.handlers && EdgeReplacement(env, edge).None?
              && !(TestsValue(env, edge) && env.cfg.LastInstruction(edge.source).None?) ==>
                r.Ok? && r.value.slots == fact.slots
      ensures edge.target !in env.cfg.handlers && EdgeReplacement(env, edge).Some? ==>
                var (tested, decided) := EdgeReplacement(env, edge).value;
                match env.cfg.LastInstruction(edge.source)
                case None => true
                case Some(i) =>
                  (r.Err? <==> !env.vnaStart(edge.target).valid)
                  && (r.Ok? ==> r.value.slots == ReplacedSlots(fact.slots, fact.status == Valid, tested,
                                                               env.vnaAt(Location(edge.source, i)).slots,
                                                               env.vnaStart(edge.target).slots, decided))
      ensures r.Ok? ==> fresh(r.value) && r.value.status == fact.status
    {
      var newfact := CopyOf(fact);
      if edge.target in env.cfg.handlers {
        newfact.ClearStack();
        newfact.PushValue(NotJson);
        return Ok(newfact);
      }
      var targetVnaFrame := env.vnaStart(edge.target);
      if edge.kind == IfCmp || edge.kind == FallThrough {
        var decision := env.resultDecision(edge.source);
        if decision.Some? {
          var valueTested := decision.value.GetValue();
          if valueTested.Some? {
            var last := env.cfg.LastInstruction(edge.source);
            if last.None? {
              return Err(DataflowError("no instruction at the end of the source block"));
            }
            var prevVnaFrame := env.vnaAt(Location(edge.source, last.value));
            var decisionValue := decision.value.GetDecision(edge.kind);
            if decisionValue.value.Some? {
              r := ReplaceValues(fact, valueTested.value, prevVnaFrame, targetVnaFrame, decisionValue.value.value);
              return;
            }
          }
        }
      }
      return Ok(newfact);
    }
  }

  /** Every local not JSON. */
  function EntrySlots(n: nat): (r: seq<CreatorDataValue>)
    ensures |r| == n && forall k :: 0 <= k < n ==> r[k] == NotJson
  {
    seq(n, _ => NotJson)
  }
}
