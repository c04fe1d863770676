/**
 * The per-method exception-thrower summary: a tag saying whether the method
 * always throws or throws depending on its arguments, plus the set of
 * parameter indices that must be non-null for it not to throw.
 */
module ExceptionThrowerSets {

  datatype ThrowerType = Always | Conditional

  /** The value a summary database keeps for a method. */
  datatype ThrowerSummary = ThrowerSummary(state: ThrowerType, params: set<nat>)
  {
    predicate IsConditional() { state == Conditional }
  }

  /**
   * The shared `ALWAYS` summary. The source compares against this one
   * instance by reference; the model compares the value, which is the same
   * test because nothing ever sets a parameter on it.
   */
  const ALWAYS: ThrowerSummary := ThrowerSummary(Always, {})

  class ExceptionThrowerSet {
    var state: ThrowerType
    var bitSet: set<nat>

    constructor (state: ThrowerType)
      ensures this.state == state && bitSet == {}
    {
      this.state := state;
      bitSet := {};
    }

    static method NewConditionalThrowerType() returns (t: ExceptionThrowerSet)
      ensures fresh(t) && t.IsConditional() && t.bitSet == {}
    {
      t := new ExceptionThrowerSet(Conditional);
    }

    /** Marks parameter `index`; the tag and every other index stay as they were. */
    method SetParam(index: nat)
      modifies this`bitSet
      ensures IsIndexSet(index)
      ensures forall j :: j != index ==> IsIndexSet(j) == old(IsIndexSet(j))
      ensures bitSet == old(bitSet) + {index}
    {
      bitSet := bitSet + {index};
    }

    /** Unmarks every index; the tag is untouched. */
    method Clear()
      modifies this`bitSet
      ensures forall j :: !IsIndexSet(j)
    {
      bitSet := {};
    }

    predicate IsIndexSet(index: nat)
      reads this`bitSet
    {
      index in bitSet
    }

    predicate IsConditional()
      reads this`state
    {
      state == Conditional
    }

    /** The value the database stores for this set. */
    function Snapshot(): (s: ThrowerSummary)
      reads this
      ensures s.IsConditional() == IsConditional()
      ensures forall j :: j in s.params <==> IsIndexSet(j)
    {
      ThrowerSummary(state, bitSet)
    }
  }

  /** Setting the same index twice leaves the same set as setting it once. */
  method SetParamTwice(t: ExceptionThrowerSet, index: nat)
    modifies t`bitSet
    ensures t.bitSet == old(t.bitSet) + {index}
    ensures forall j :: t.IsIndexSet(j) <==> old(t.IsIndexSet(j)) || j == index
  {
    t.SetParam(index);
    t.SetParam(index);
  }
}
