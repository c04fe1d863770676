/**
 * The nullness frame the visitor updates: the locals followed by the operand
 * stack in one slot sequence, a validity status, and the known-value map from
 * value numbers to nullness values. Only the operations the visitor calls are
 * modelled.
 */
module IsNullValueFrames {
  import opened Wrappers
  import opened Bytecode
  import opened IsNullValues

  /** A frame is valid unless it is TOP (unreachable, no information) or BOTTOM. */
  datatype FrameStatus = Valid | Top | Bottom

  class IsNullValueFrame {
    const numLocals: nat
    var slots: seq<IsNullValue>
    var status: FrameStatus
    var knownValues: map<ValueNumber, IsNullValue>

    constructor (numLocals: nat, locals: seq<IsNullValue>)
      requires |locals| == numLocals
      ensures this.numLocals == numLocals && slots == locals && status == Valid && knownValues == map[]
    {
      this.numLocals := numLocals;
      slots := locals;
      status := Valid;
      knownValues := map[];
    }

    predicate IsValid()
      reads this`status
    {
      status == Valid
    }

    function NumSlots(): nat
      reads this`slots
    {
      |slots|
    }

    function StackDepth(): int
      reads this`slots
    {
      |slots| - numLocals
    }

    method SetValue(i: nat, v: IsNullValue)
      requires i < |slots|
      modifies this`slots
      ensures slots == old(slots)[i := v]
    {
      slots := slots[i := v];
    }

    method PushValue(v: IsNullValue)
      modifies this`slots
      ensures slots == old(slots) + [v]
    {
      slots := slots + [v];
    }

    method PopValue() returns (v: IsNullValue)
      requires StackDepth() >= 1
      modifies this`slots
      ensures v == old(slots)[|old(slots)| - 1] && slots == old(slots)[..|old(slots)| - 1]
    {
      v := slots[|slots| - 1];
      slots := slots[..|slots| - 1];
    }

    /** Marks the frame as TOP; the slots and the known values stay. */
    method SetTop()
      modifies this`status
      ensures status == Top
    {
      status := Top;
    }

    function GetKnownValue(vn: ValueNumber): (r: Option<IsNullValue>)
      reads this`knownValues
      ensures r.Some? <==> vn in knownValues
      ensures r.Some? ==> r.value == knownValues[vn]
    {
      if vn in knownValues then Some(knownValues[vn]) else None
    }

    method SetKnownValue(vn: ValueNumber, v: IsNullValue)
      modifies this`knownValues
      ensures knownValues == old(knownValues)[vn := v]
    {
      knownValues := knownValues[vn := v];
    }

    /** Replaces every slot by its exception variant. */
    method ToExceptionValues()
      modifies this`slots
      ensures |slots| == |old(slots)|
      ensures forall i :: 0 <= i < |slots| ==> slots[i] == ExceptionValue(old(slots)[i])
    {
      var i := 0;
      while i < |slots|
        invariant 0 <= i <= |slots| == |old(slots)|
        invariant forall j :: 0 <= j < i ==> slots[j] == ExceptionValue(old(slots)[j])
        invariant forall j :: i <= j < |slots| ==> slots[j] == old(slots)[j]
      {
        slots := slots[i := ExceptionValue(slots[i])];
        i := i + 1;
      }
    }
  }
}
