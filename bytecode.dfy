/**
 * The control-flow graph of one method, reduced to what the analyses look at:
 * the method's instruction list, the last instruction of each basic block,
 * typed edges, the entry and exit blocks and the exception-handler blocks.
 * Decoding of class files and the construction of the graph are not modelled;
 * a graph is given as data.
 */
module Bytecode {
  import opened Wrappers

  /** A stable integer id per basic block (blocks are map keys by id, not by identity). */
  type BlockId = nat
  /** Index of an instruction in the method's instruction list. */
  type CodeIndex = nat
  /** A congruence class id handed out by the value-numbering analysis. */
  type ValueNumber = int

  /** A method as the summary databases key it: class, name, signature and the static flag. */
  datatype MethodRef = MethodRef(className: string, name: string, signature: string, isStatic: bool)

  datatype FieldRef = FieldRef(className: string, name: string, isFinal: bool)

  datatype InvokeKind = InvokeStatic | InvokeSpecial | InvokeInterface | InvokeVirtual | InvokeDynamic

  /**
   * The instruction kinds the modelled code distinguishes. `words` is the number
   * of stack words a field occupies; an invocation carries the words it consumes
   * and produces and whether its declared return type is a reference type.
   * Every other instruction is `Other` with its stack effect.
   */
  datatype Instruction =
    | AconstNull
    | New
    | NewArray
    | ANewArray
    | MultiANewArray(dimensions: nat)
    | Ldc
    | Ldc2W
    | CheckCast
    | InstanceOf
    | Aload(index: nat)
    | Athrow
    | IfNull
    | IfNonNull
    | IfAcmpEq
    | IfAcmpNe
    | IfEq
    | IfNe
    | GetField(field: FieldRef, words: nat)
    | GetStatic(field: FieldRef, words: nat)
    | PutField(field: FieldRef, words: nat)
    | Invoke(kind: InvokeKind, callee: MethodRef, consumed: nat, produced: nat, returnsReference: bool)
    | Other(consumed: nat, produced: nat)
  {
    /** Stack words the instruction pops (the JVM's per-opcode operand counts). */
    function ConsumeStack(): nat {
      match this
      case AconstNull => 0
      case New => 0
      case NewArray => 1
      case ANewArray => 1
      case MultiANewArray(d) => d
      case Ldc => 0
      case Ldc2W => 0
      case CheckCast => 1
      case InstanceOf => 1
      case Aload(_) => 0
      case Athrow => 1
      case IfNull => 1
      case IfNonNull => 1
      case IfAcmpEq => 2
      case IfAcmpNe => 2
      case IfEq => 1
      case IfNe => 1
      case GetField(_, _) => 1
      case GetStatic(_, _) => 0
      case PutField(_, w) => 1 + w
      case Invoke(_, _, c, _, _) => c
      case Other(c, _) => c
    }

    /** Stack words the instruction pushes. */
    function ProduceStack(): nat {
      match this
      case AconstNull => 1
      case New => 1
      case NewArray => 1
      case ANewArray => 1
      case MultiANewArray(_) => 1
      case Ldc => 1
      case Ldc2W => 2
      case CheckCast => 1
      case InstanceOf => 1
      case Aload(_) => 1
      case Athrow => 0
      case IfNull => 0
      case IfNonNull => 0
      case IfAcmpEq => 0
      case IfAcmpNe => 0
      case IfEq => 0
      case IfNe => 0
      case GetField(_, w) => w
      case GetStatic(_, w) => w
      case PutField(_, _) => 0
      case Invoke(_, _, _, p, _) => p
      case Other(_, p) => p
    }
  }

  /** Edge kinds: fall-through, the taken side of a conditional branch, an unhandled exception, anything else. */
  datatype EdgeKind = FallThrough | IfCmp | UnhandledException | OtherEdge

  datatype Edge = Edge(source: BlockId, target: BlockId, kind: EdgeKind)

  /**
   * A method's graph. `lastInstruction` maps every non-empty block to the index
   * of its last instruction; a block absent from it has no instructions (the
   * entry, the exit and the exception-thrower blocks). `edges` lists the edges
   * in the order the graph's iterators return them.
   */
  datatype Cfg = Cfg(
    code: seq<Instruction>,
    lastInstruction: map<BlockId, CodeIndex>,
    edges: seq<Edge>,
    entry: BlockId,
    exit: BlockId,
    handlers: set<BlockId>)
  {
    ghost predicate WellFormed() {
      forall b :: b in lastInstruction ==> lastInstruction[b] < |code|
    }

    /** `BasicBlock.getLastInstruction()`: None for an empty block. */
    function LastInstruction(b: BlockId): (r: Option<CodeIndex>)
      requires WellFormed()
      ensures r.Some? ==> r.value < |code|
    {
      if b in lastInstruction then Some(lastInstruction[b]) else None
    }

    /** `InstructionHandle.getPrev()`: the previous instruction of the method, if any. */
    function Prev(i: CodeIndex): (r: Option<CodeIndex>)
      requires i < |code|
      ensures r.Some? ==> r.value < i
    {
      if i == 0 then None else Some(i - 1)
    }

    predicate EndsWith(b: BlockId, ins: Instruction)
      requires WellFormed()
    {
      LastInstruction(b).Some? && code[LastInstruction(b).value] == ins
    }

    /** `outgoingEdgeIterator(b)`, in edge order. */
    function OutgoingEdges(b: BlockId): (r: seq<Edge>)
      ensures forall e :: e in r <==> e in edges && e.source == b
    {
      EdgesFrom(edges, b)
    }

    /** `incomingEdgeIterator(b)`, in edge order. */
    function IncomingEdges(b: BlockId): (r: seq<Edge>)
      ensures forall e :: e in r <==> e in edges && e.target == b
    {
      EdgesInto(edges, b)
    }

    /** `getIncomingEdgeWithType(b, kind)`: the first incoming edge of that kind, or None. */
    function IncomingEdgeWithType(b: BlockId, kind: EdgeKind): (r: Option<Edge>)
      ensures r.Some? ==> r.value in edges && r.value.target == b && r.value.kind == kind
      ensures r.None? ==> forall e :: e in edges && e.target == b ==> e.kind != kind
    {
      FirstOfKind(IncomingEdges(b), kind)
    }

    /** Every block the graph mentions. */
    function Blocks(): (r: set<BlockId>)
      ensures entry in r && exit in r
      ensures forall e :: e in edges ==> e.source in r && e.target in r
    {
      EndPoints(edges) + {entry, exit}
    }
  }

  function EdgesFrom(es: seq<Edge>, b: BlockId): (r: seq<Edge>)
    ensures forall e :: e in r <==> e in es && e.source == b
  {
    if es == [] then []
    else (if es[0].source == b then [es[0]] else []) + EdgesFrom(es[1..], b)
  }

  function EdgesInto(es: seq<Edge>, b: BlockId): (r: seq<Edge>)
    ensures forall e :: e in r <==> e in es && e.target == b
  {
    if es == [] then []
    else (if es[0].target == b then [es[0]] else []) + EdgesInto(es[1..], b)
  }

  function FirstOfKind(es: seq<Edge>, kind: EdgeKind): (r: Option<Edge>)
    ensures r.Some? ==> r.value in es && r.value.kind == kind
    ensures r.None? ==> forall e :: e in es ==> e.kind != kind
  {
    if es == [] then None
    else if es[0].kind == kind then Some(es[0])
    else FirstOfKind(es[1..], kind)
  }

  function EndPoints(es: seq<Edge>): (r: set<BlockId>)
    ensures forall e :: e in es ==> e.source in r && e.target in r
  {
    if es == [] then {} else {es[0].source, es[0].target} + EndPoints(es[1..])
  }
}
