/**
 * The values of the creator-data analysis, which tracks whether a slot holds
 * a JSON string, a parsed JSON object or neither, and the branch decision a
 * block's last instruction records: the value number tested and the value it
 * is known to have on the taken (IFCMP) edge and on the fall-through edge.
 */
module CreatorDataValueDecisions {
  import opened Wrappers
  import opened Bytecode

  /** The constants the analysis's merge and decision rules use. */
  datatype CreatorDataValue =
    | NotJson
    | Json
    | JsonExp
    | JsonObjectRaw
    | JsonObjectArray
    | JsonObjectExp
    | JsonObject

  /**
   * The value class's `isJson`, `isJsonExp` and `isJsonSource` tests. The value
   * class that the analysis compiles against does not define them for these
   * constants, so they are left uninterpreted.
   */
  datatype Classifier = Classifier(
    isJson: CreatorDataValue -> bool,
    isJsonExp: CreatorDataValue -> bool,
    isJsonSource: CreatorDataValue -> bool)

  /**
   * A branch decision: the tested value number (possibly absent) and the value
   * the tested slot is known to hold on each side; `None` on a side means no
   * knowledge there.
   */
  datatype Decision = Decision(value: Option<ValueNumber>, ifcmp: Option<CreatorDataValue>, fallThrough: Option<CreatorDataValue>)
  {
    /** `getValue`: the value number the decision was built with. */
    function GetValue(): (r: Option<ValueNumber>)
      ensures r == value
    {
      value
    }

    /**
     * `getDecision(edgeType)`: the taken-edge decision for an IFCMP edge, the
     * fall-through decision for a fall-through edge; any other edge kind is an
     * illegal argument.
     */
    function GetDecision(kind: EdgeKind): (r: Result<Option<CreatorDataValue>>)
      ensures r.Err? <==> kind != IfCmp && kind != FallThrough
      ensures r.Err? ==> r.failure.IllegalArgument?
      ensures kind == IfCmp ==> r == Ok(ifcmp)
      ensures kind == FallThrough ==> r == Ok(fallThrough)
    {
      match kind
      case IfCmp => Ok(ifcmp)
      case FallThrough => Ok(fallThrough)
      case _ => Err(IllegalArgument("Bad edge type"))
    }
  }

  /**
   * The constructor: with assertions enabled, a decision with no knowledge on
   * either side is an assertion failure (at least one edge must be feasible);
   * with them disabled it is built as given.
   */
  function NewDecision(assertionsEnabled: bool, value: Option<ValueNumber>,
                       ifcmp: Option<CreatorDataValue>, fallThrough: Option<CreatorDataValue>): (r: Result<Decision>)
    ensures r.Err? <==> assertionsEnabled && ifcmp.None? && fallThrough.None?
    ensures r.Err? ==> r.failure.AssertionFailed?
  {
    if assertionsEnabled && ifcmp.None? && fallThrough.None? then Err(AssertionFailed("At least one of the edges must be feasible"))
    else Ok(Decision(value, ifcmp, fallThrough))
  }

  /**
   * What goes in comes out: a built decision answers `getValue` with the value
   * number and `getDecision` with the side's value for each of the two branch
   * edges, and with assertions enabled some side carries a value.
   */
  lemma NewDecisionRoundTrip(assertionsEnabled: bool, value: Option<ValueNumber>,
                             ifcmp: Option<CreatorDataValue>, fallThrough: Option<CreatorDataValue>)
    requires NewDecision(assertionsEnabled, value, ifcmp, fallThrough).Ok?
    ensures var d := NewDecision(assertionsEnabled, value, ifcmp, fallThrough).value;
            d.GetValue() == value
            && d.GetDecision(IfCmp) == Ok(ifcmp)
            && d.GetDecision(FallThrough) == Ok(fallThrough)
            && (assertionsEnabled ==> d.GetDecision(IfCmp).value.Some? || d.GetDecision(FallThrough).value.Some?)
  {
  }
}
