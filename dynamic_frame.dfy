/**
 * The fact of the dynamic non-null-call tracker: the names of the methods
 * whose result was found non-null on every path into a block, plus the flag
 * saying that the frame has not been merged into yet.
 */
module DynamicFrames {
  import opened Wrappers

  class DynamicFrame {
    var names: set<string>
    var isNew: bool

    /** `new DynamicFrame()` and `emptyFrame()`: no names, not merged into yet. */
    constructor ()
      ensures names == {} && isNew
    {
      names := {};
      isNew := true;
    }

    /** Adds one method name; every other name stays. */
    method PutDynamic(methodName: string)
      modifies this`names
      ensures Contains(methodName)
      ensures forall n :: n != methodName ==> Contains(n) == old(Contains(n))
      ensures names == old(names) + {methodName}
    {
      names := names + {methodName};
    }

    /** `contains`: whether the method's result is known non-null here. */
    function Contains(exp: string): (r: bool)
      reads this`names
      ensures r <==> exp in names
    {
      exp in names
    }

    /**
     * The first merge takes exactly the source's names and clears the flag;
     * every later merge keeps the names both frames have. The source is not
     * changed (unless it is this very frame, which it then equals).
     */
    method MergeFrom(sourceFact: DynamicFrame)
      modifies this
      ensures names == if old(isNew) then old(sourceFact.names) else old(names) * old(sourceFact.names)
      ensures !isNew
      ensures sourceFact != this ==> sourceFact.names == old(sourceFact.names) && sourceFact.isNew == old(sourceFact.isNew)
    {
      if isNew {
        isNew := false;
        names := sourceFact.CopyExpressions();
      } else {
        DoMergeFrame(sourceFact);
      }
    }

    /** Keeps the names the source also has, building the new set one name at a time. */
    method DoMergeFrame(sourceFact: DynamicFrame)
      modifies this`names
      ensures names == old(names) * old(sourceFact.names)
    {
      var newExpressions: set<string> := {};
      var remaining := names;
      while remaining != {}
        invariant names == old(names) && sourceFact.names == old(sourceFact.names)
        invariant remaining <= names
        invariant newExpressions == (names - remaining) * sourceFact.names
        decreases remaining
      {
        ghost var someName := SomeElement(remaining);
        var exp :| exp in remaining;
        if sourceFact.Contains(exp) {
          newExpressions := newExpressions + {exp};
        }
        remaining := remaining - {exp};
      }
      names := newExpressions;
    }

    /** A copy of the names, built one name at a time: a new set, equal to this frame's. */
    method CopyExpressions() returns (newExpressions: set<string>)
      ensures newExpressions == names
    {
      newExpressions := {};
      var remaining := names;
      while remaining != {}
        invariant remaining <= names
        invariant newExpressions == names - remaining
        decreases remaining
      {
        ghost var someName := SomeElement(remaining);
        var exp :| exp in remaining;
        newExpressions := newExpressions + {exp};
        remaining := remaining - {exp};
      }
    }
  }

  /** After the first merge, merging never adds a name, and merging the same source again changes nothing. */
  method MergeTwice(target: DynamicFrame, source: DynamicFrame)
    requires target != source
    modifies target
    ensures target.names <= (if old(target.isNew) then old(source.names) else old(target.names))
    ensures target.names == if old(target.isNew) then old(source.names) else old(target.names) * old(source.names)
  {
    target.MergeFrom(source);
    ghost var once := target.names;
    target.MergeFrom(source);
    assert target.names == once;
  }
}
