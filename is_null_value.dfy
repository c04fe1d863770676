/**
 * Nullness values as the instruction-modeling visitor sees them. The value
 * class's own lattice and its merge table are not part of this model: a value
 * is one of the factory results the visitor asks for, a symbolic merge of two
 * values, the exception variant of a value, or an opaque value produced
 * elsewhere in the analysis. The three questions the visitor asks about a
 * value are an oracle (`NullnessTests`).
 */
module IsNullValues {
  import opened Wrappers
  import opened Bytecode

  /** A program point: a block and the index of an instruction in the method's code. */
  datatype Location = Location(block: BlockId, index: CodeIndex)

  /** Where the information in a value came from (`markInformationAsComingFrom...`). */
  datatype Origin = Unmarked | ReturnValueOf(callee: MethodRef) | FieldValue(field: FieldRef)

  datatype IsNullValue =
    | NullValue                          // definitely null
    | NonNullValue(origin: Origin)        // non-null, reportable
    | NullOnSimplePath(origin: Origin)    // may be null, not yet checked
    | NonReportingNotNull                 // treated as non-null, never reported
    | NoKaboomNonNull(at: Location)       // non-null because the call at `at` would have thrown otherwise
    | CheckedNonNull                      // non-null because an earlier null check said so
    | ExceptionValue(of: IsNullValue)     // the value as seen on an exception path
    | Merged(left: IsNullValue, right: IsNullValue)
    | Opaque(id: int)

  /** The annotation databases' answer for a method or a field. */
  datatype NullnessAnnotation = CheckForNull | Nullable | NonNullAnnotation | NoAnnotation

  /** `isDefinitelyNull`, `isNullOnSomePath` and `isDefinitelyNotNull` of the value class. */
  datatype NullnessTests = NullnessTests(
    definitelyNull: IsNullValue -> bool,
    nullOnSomePath: IsNullValue -> bool,
    definitelyNotNull: IsNullValue -> bool)

  /**
   * `getReturnValueNullness`: the annotation decides first (CHECK_FOR_NULL,
   * then NULLABLE, then NONNULL), then a `true` entry in the return-value
   * database; everything else is non-reporting not-null.
   */
  function ReturnValueNullness(annotation: NullnessAnnotation, alwaysNonNull: Option<bool>, callee: MethodRef): (r: IsNullValue)
    ensures r == NullOnSimplePath(ReturnValueOf(callee)) <==> annotation == CheckForNull
    ensures r == NonNullValue(ReturnValueOf(callee)) <==>
              annotation != CheckForNull && annotation != Nullable
              && (annotation == NonNullAnnotation || alwaysNonNull == Some(true))
    ensures r == NullOnSimplePath(ReturnValueOf(callee)) || r == NonNullValue(ReturnValueOf(callee)) || r == NonReportingNotNull
  {
    if annotation == CheckForNull then NullOnSimplePath(ReturnValueOf(callee))
    else if annotation == Nullable then NonReportingNotNull
    else if annotation == NonNullAnnotation || (alwaysNonNull.Some? && alwaysNonNull.value) then NonNullValue(ReturnValueOf(callee))
    else NonReportingNotNull
  }
}
