/**
 * The dynamic non-null-call tracker: one pass over the blocks in a given
 * order (reverse postorder in the source), merging the facts of each block's
 * predecessors and adding the name of a method whose result an edge proves
 * non-null: the non-null side of `invoke; ifnull` / `invoke; ifnonnull`, and
 * of `aconst_null; ...; invoke; if_acmpeq` / `if_acmpne`, where the call comes
 * right before the comparison and a backward stack-balance scan from the call
 * reaches the `aconst_null` pushed before its arguments.
 */
module DynamicDataflows {
  import opened Wrappers
  import opened Bytecode
  import opened DynamicFrames

  // ---------------------------------------------------------------------
  // The names edges contribute.

  /**
   * The backward stack-balance scan from instruction `i`: `need` plus each
   * instruction's words consumed minus words produced, stopping at the first
   * instruction where the count reaches zero; `None` when the start of the
   * method is reached first.
   */
  function BalancePoint(cfg: Cfg, i: CodeIndex, need: int): (r: Option<CodeIndex>)
    requires i < |cfg.code|
    ensures r.Some? ==> r.value <= i
    decreases i
  {
    var n := need + cfg.code[i].ConsumeStack() - cfg.code[i].ProduceStack();
    if n == 0 then Some(i)
    else if i == 0 then None
    else BalancePoint(cfg, i - 1, n)
  }

  /** The words consumed minus the words produced by the instructions `j..i`. */
  function Balance(cfg: Cfg, j: CodeIndex, i: CodeIndex): int
    requires j <= i < |cfg.code|
    decreases i - j
  {
    var d := cfg.code[j].ConsumeStack() - cfg.code[j].ProduceStack();
    if j == i then d else d + Balance(cfg, j + 1, i)
  }

  lemma {:induction false} BalanceLast(cfg: Cfg, j: CodeIndex, i: CodeIndex)
    requires j < i < |cfg.code|
    ensures Balance(cfg, j, i) == Balance(cfg, j, i - 1) + cfg.code[i].ConsumeStack() - cfg.code[i].ProduceStack()
    decreases i - j
  {
    if j + 1 < i {
      BalanceLast(cfg, j + 1, i);
    }
  }

  /**
   * The scan stops at the nearest instruction `j` at or before `i` where the
   * count over `j..i` brings `need` to zero, and finds nothing exactly when
   * there is no such instruction.
   */
  lemma {:induction false} BalancePointIsNearestZero(cfg: Cfg, i: CodeIndex, need: int)
    requires i < |cfg.code|
    ensures var r := BalancePoint(cfg, i, need);
            (r.Some? ==> need + Balance(cfg, r.value, i) == 0
                         && forall k :: r.value < k <= i ==> need + Balance(cfg, k, i) != 0)
            && (r.None? ==> forall k :: 0 <= k <= i ==> need + Balance(cfg, k, i) != 0)
    decreases i
  {
    var n := need + cfg.code[i].ConsumeStack() - cfg.code[i].ProduceStack();
    assert Balance(cfg, i, i) == cfg.code[i].ConsumeStack() - cfg.code[i].ProduceStack();
    if n != 0 && i > 0 {
      BalancePointIsNearestZero(cfg, i - 1, n);
      forall k | 0 <= k < i
        ensures need + Balance(cfg, k, i) == n + Balance(cfg, k, i - 1)
      {
        BalanceLast(cfg, k, i);
      }
    }
  }

  /** The non-null side of a null test: the IFNULL fall-through or the IFNONNULL taken edge. */
  predicate NonNullSideOfNullTest(test: Instruction, kind: EdgeKind) {
    (kind == FallThrough && test == IfNull) || (kind == IfCmp && test == IfNonNull)
  }

  /** The not-equal side of a reference comparison: the IF_ACMPEQ fall-through or the IF_ACMPNE taken edge. */
  predicate UnequalSideOfAcmp(test: Instruction, kind: EdgeKind) {
    (kind == FallThrough && test == IfAcmpEq) || (kind == IfCmp && test == IfAcmpNe)
  }

  /** `caculateDynamicMap`: the invoked method's name, on the non-null side of a null test right after the call. */
  function NullTestName(cfg: Cfg, i: CodeIndex, kind: EdgeKind): (r: Option<string>)
    requires i < |cfg.code|
    ensures r.Some? <==> i > 0 && cfg.code[i - 1].Invoke? && NonNullSideOfNullTest(cfg.code[i], kind)
    ensures r.Some? ==> r.value == cfg.code[i - 1].callee.name
  {
    if i > 0 && cfg.code[i - 1].Invoke? && NonNullSideOfNullTest(cfg.code[i], kind) then Some(cfg.code[i - 1].callee.name)
    else None
  }

  /**
   * `caculateDynamicMapForAcmp`: the invoked method's name, on the not-equal
   * side of a reference comparison right after the call, when the balance scan
   * starting at the call with a need of two stops at an ACONST_NULL.
   */
  function AcmpName(cfg: Cfg, i: CodeIndex, kind: EdgeKind): (r: Option<string>)
    requires i < |cfg.code|
    ensures r.Some? ==> i > 0 && cfg.code[i - 1].Invoke? && UnequalSideOfAcmp(cfg.code[i], kind)
    ensures r.Some? ==> r.value == cfg.code[i - 1].callee.name
  {
    if i > 0 && cfg.code[i - 1].Invoke? then
      match BalancePoint(cfg, i - 1, 2)
      case Some(j) =>
        if cfg.code[j] == AconstNull && UnequalSideOfAcmp(cfg.code[i], kind) then Some(cfg.code[i - 1].callee.name) else None
      case None => None
    else None
  }

  /** The name an edge adds to its target's fact, judged by the last instruction of its source. */
  function EdgeName(cfg: Cfg, e: Edge): Option<string>
    requires cfg.WellFormed()
  {
    match cfg.LastInstruction(e.source)
    case None => None
    case Some(i) =>
      if cfg.code[i] == IfNull || cfg.code[i] == IfNonNull then NullTestName(cfg, i, e.kind)
      else if cfg.code[i] == IfAcmpEq || cfg.code[i] == IfAcmpNe then AcmpName(cfg, i, e.kind)
      else None
  }

  /** Only edges leaving a null test or a reference comparison, on the side where the call's result is non-null, add a name. */
  lemma EdgeNameOnlyOnNonNullSide(cfg: Cfg, e: Edge)
    requires cfg.WellFormed()
    ensures EdgeName(cfg, e).Some? ==>
              var i := cfg.LastInstruction(e.source).value;
              i > 0 && cfg.code[i - 1].Invoke? && EdgeName(cfg, e).value == cfg.code[i - 1].callee.name
              && (NonNullSideOfNullTest(cfg.code[i], e.kind) || UnequalSideOfAcmp(cfg.code[i], e.kind))
  {
  }

  /**
   * The two words compared at the instruction after `last` balance out at
   * `j`, and nowhere between `j` and `last`; `j` is an ACONST_NULL.
   */
  ghost predicate NullBalancesAt(cfg: Cfg, j: CodeIndex, last: CodeIndex)
    requires j <= last < |cfg.code|
  {
    cfg.code[j] == AconstNull && 2 + Balance(cfg, j, last) == 0
    && forall k :: j < k <= last ==> 2 + Balance(cfg, k, last) != 0
  }

  ghost predicate ComparedWithNull(cfg: Cfg, last: CodeIndex)
    requires last < |cfg.code|
  {
    exists j :: 0 <= j <= last && NullBalancesAt(cfg, j, last)
  }

  /**
   * The reference-comparison idiom, stated without the scan: the comparison
   * follows a call, the edge is on the not-equal side, and the nearest
   * instruction before the call at which the two compared words balance out
   * is an ACONST_NULL.
   */
  lemma AcmpNameIsNullComparison(cfg: Cfg, i: CodeIndex, kind: EdgeKind)
    requires i < |cfg.code|
    ensures AcmpName(cfg, i, kind).Some? <==>
              i > 0 && cfg.code[i - 1].Invoke? && UnequalSideOfAcmp(cfg.code[i], kind) && ComparedWithNull(cfg, i - 1)
  {
    if i > 0 && cfg.code[i - 1].Invoke? && UnequalSideOfAcmp(cfg.code[i], kind) {
      var last := i - 1;
      BalancePointIsNearestZero(cfg, last, 2);
      var r := BalancePoint(cfg, last, 2);
      if AcmpName(cfg, i, kind).Some? {
        assert NullBalancesAt(cfg, r.value, last);
      }
      if ComparedWithNull(cfg, last) {
        var j :| 0 <= j <= last && NullBalancesAt(cfg, j, last);
        assert r.Some? && r.value == j;
      }
    }
  }

  // ---------------------------------------------------------------------
  // The pass, on values.

  datatype FrameValue = FrameValue(names: set<string>, isNew: bool)

  const EMPTY: FrameValue := FrameValue({}, true)

  /** `createOrGetFrame`: a block not seen yet gets an empty new frame. */
  function Touch(facts: map<BlockId, FrameValue>, b: BlockId): (r: map<BlockId, FrameValue>)
    ensures b in r && r.Keys == facts.Keys + {b}
    ensures forall x :: x in facts ==> r[x] == facts[x]
    ensures b !in facts ==> r[b] == EMPTY
  {
    if b in facts then facts else facts[b := EMPTY]
  }

  /** `mergeFrom` on values. */
  function MergeValue(target: FrameValue, source: FrameValue): FrameValue {
    FrameValue(if target.isNew then source.names else target.names * source.names, false)
  }

  /** One incoming edge of `block`: merge the source's fact, then add the edge's name. */
  function AfterEdge(cfg: Cfg, facts: map<BlockId, FrameValue>, block: BlockId, e: Edge): map<BlockId, FrameValue>
    requires cfg.WellFormed() && block in facts
  {
    var touched := Touch(facts, e.source);
    touched[block := EdgeValue(MergeValue(touched[block], touched[e.source]), EdgeName(cfg, e))]
  }

  /** The merged fact with the edge's name, if any, added. */
  function EdgeValue(merged: FrameValue, name: Option<string>): FrameValue {
    match name
    case Some(n) => FrameValue(merged.names + {n}, merged.isNew)
    case None => merged
  }

  /** `AfterEdge`, given the touched facts and the block's new value. */
  lemma AfterEdgeIs(cfg: Cfg, facts: map<BlockId, FrameValue>, block: BlockId, e: Edge,
                    touched: map<BlockId, FrameValue>, v: FrameValue)
    requires cfg.WellFormed() && block in facts
    requires touched == Touch(facts, e.source)
    requires v == EdgeValue(MergeValue(touched[block], touched[e.source]), EdgeName(cfg, e))
    ensures AfterEdge(cfg, facts, block, e) == touched[block := v]
  {
  }

  /** The facts after merging the edges in order. */
  function AfterEdges(cfg: Cfg, facts: map<BlockId, FrameValue>, block: BlockId, edges: seq<Edge>): (r: map<BlockId, FrameValue>)
    requires cfg.WellFormed() && block in facts
    ensures block in r && facts.Keys <= r.Keys
    ensures forall x :: x in facts && x != block ==> r[x] == facts[x]
    ensures forall x :: x in r && x !in facts ==> r[x] == EMPTY
    ensures edges != [] ==> !r[block].isNew
    decreases |edges|
  {
    if edges == [] then facts
    else AfterEdge(cfg, AfterEdges(cfg, facts, block, edges[..|edges| - 1]), block, edges[|edges| - 1])
  }

  /** The edges up to `j` inclusive are the edges before `j`, then edge `j`. */
  lemma AfterEdgesStep(cfg: Cfg, facts: map<BlockId, FrameValue>, block: BlockId, edges: seq<Edge>, j: nat)
    requires cfg.WellFormed() && block in facts && j < |edges|
    ensures AfterEdges(cfg, facts, block, edges[..j + 1]) == AfterEdge(cfg, AfterEdges(cfg, facts, block, edges[..j]), block, edges[j])
  {
    assert edges[..j + 1][..j] == edges[..j];
  }

  /** `execute` for one block: nothing but its frame for the entry, otherwise every incoming edge in order. */
  function AfterBlock(cfg: Cfg, facts: map<BlockId, FrameValue>, block: BlockId): (r: map<BlockId, FrameValue>)
    requires cfg.WellFormed()
  {
    var touched := Touch(facts, block);
    if block == cfg.entry then touched else AfterEdges(cfg, touched, block, cfg.IncomingEdges(block))
  }

  /** `execute`: every block of the order once, in order, with no iteration to a fixpoint. */
  function Run(cfg: Cfg, facts: map<BlockId, FrameValue>, order: seq<BlockId>): map<BlockId, FrameValue>
    requires cfg.WellFormed()
    decreases |order|
  {
    if order == [] then facts
    else AfterBlock(cfg, Run(cfg, facts, order[..|order| - 1]), order[|order| - 1])
  }

  /** The entry block is never merged into: from empty facts its frame, once it exists, stays empty and new. */
  lemma {:induction false} EntryStaysEmpty(cfg: Cfg, facts: map<BlockId, FrameValue>, order: seq<BlockId>)
    requires cfg.WellFormed()
    requires cfg.entry in facts ==> facts[cfg.entry] == EMPTY
    ensures var r := Run(cfg, facts, order); cfg.entry in r ==> r[cfg.entry] == EMPTY
    decreases |order|
  {
    if order != [] {
      EntryStaysEmpty(cfg, facts, order[..|order| - 1]);
    }
  }

  /** `n` is the name some edge of the graph contributes. */
  ghost predicate ContributedName(cfg: Cfg, n: string)
    requires cfg.WellFormed()
  {
    exists e :: e in cfg.edges && EdgeName(cfg, e) == Some(n)
  }

  ghost predicate NamesFromEdges(cfg: Cfg, facts: map<BlockId, FrameValue>)
    requires cfg.WellFormed()
  {
    forall b, n :: b in facts && n in facts[b].names ==> ContributedName(cfg, n)
  }

  lemma {:induction false} AfterEdgesNamesFromEdges(cfg: Cfg, facts: map<BlockId, FrameValue>, block: BlockId, edges: seq<Edge>)
    requires cfg.WellFormed() && block in facts && NamesFromEdges(cfg, facts)
    requires forall e :: e in edges ==> e in cfg.edges
    ensures NamesFromEdges(cfg, AfterEdges(cfg, facts, block, edges))
    decreases |edges|
  {
    if edges != [] {
      var prefix := edges[..|edges| - 1];
      var e := edges[|edges| - 1];
      assert forall x :: x in prefix ==> x in edges;
      AfterEdgesNamesFromEdges(cfg, facts, block, prefix);
      var before := AfterEdges(cfg, facts, block, prefix);
      var after := AfterEdge(cfg, before, block, e);
      forall b, n | b in after && n in after[b].names
        ensures ContributedName(cfg, n)
      {
        if b == block && EdgeName(cfg, e) == Some(n) {
          assert e in cfg.edges;
        } else if b == block {
          var touched := Touch(before, e.source);
          assert n in touched[block].names || n in touched[e.source].names;
        } else {
          assert b in before;
        }
      }
    }
  }

  /** Every name in every fact is a name that some edge of the graph contributes. */
  lemma {:induction false} RunNamesFromEdges(cfg: Cfg, facts: map<BlockId, FrameValue>, order: seq<BlockId>)
    requires cfg.WellFormed() && NamesFromEdges(cfg, facts)
    ensures NamesFromEdges(cfg, Run(cfg, facts, order))
    decreases |order|
  {
    if order != [] {
      RunNamesFromEdges(cfg, facts, order[..|order| - 1]);
      var before := Run(cfg, facts, order[..|order| - 1]);
      var block := order[|order| - 1];
      if block != cfg.entry {
        AfterEdgesNamesFromEdges(cfg, Touch(before, block), block, cfg.IncomingEdges(block));
      }
    }
  }

  /** A source's names as the pass sees them: none for a block without a frame yet. */
  function SourceNames(facts: map<BlockId, FrameValue>, s: BlockId): set<string> {
    if s in facts then facts[s].names else {}
  }

  /** Name `n` enters the block's fact at edge `k`: the edge adds it, or the first merge brings it. */
  predicate EntersAt(cfg: Cfg, facts: map<BlockId, FrameValue>, block: BlockId, edges: seq<Edge>, n: string, k: nat)
    requires cfg.WellFormed() && block in facts && k < |edges|
  {
    EdgeName(cfg, edges[k]) == Some(n)
    || (k == 0 && n in SourceNames(facts, edges[0].source) && (facts[block].isNew || n in facts[block].names))
  }

  /** Every edge after edge `k` that comes from another block has a source holding `n`. */
  predicate SurvivesAfter(facts: map<BlockId, FrameValue>, block: BlockId, edges: seq<Edge>, n: string, k: nat) {
    forall k' :: k < k' < |edges| && edges[k'].source != block ==> n in SourceNames(facts, edges[k'].source)
  }

  /** The names each edge's source holds, as the pass reads them; none for a self-loop. */
  function Sources(facts: map<BlockId, FrameValue>, block: BlockId, edges: seq<Edge>): (r: seq<Option<set<string>>>)
    ensures |r| == |edges|
    ensures forall i :: 0 <= i < |edges| ==>
              r[i] == if edges[i].source == block then None else Some(SourceNames(facts, edges[i].source))
  {
    seq(|edges|, i requires 0 <= i < |edges| =>
      if edges[i].source == block then None else Some(SourceNames(facts, edges[i].source)))
  }

  /** The name each edge adds. */
  function Names(cfg: Cfg, edges: seq<Edge>): (r: seq<Option<string>>)
    requires cfg.WellFormed()
    ensures |r| == |edges| && forall i :: 0 <= i < |edges| ==> r[i] == EdgeName(cfg, edges[i])
  {
    seq(|edges|, i requires 0 <= i < |edges| => EdgeName(cfg, edges[i]))
  }

  /**
   * The block's own fact under "merge the source's names, then add the edge's
   * name", edge by edge; a step without a source merges the fact with itself.
   */
  function Fold(v: FrameValue, sources: seq<Option<set<string>>>, names: seq<Option<string>>): FrameValue
    requires |sources| == |names|
    decreases |sources|
  {
    if sources == [] then v
    else
      var m := |sources| - 1;
      var prev := Fold(v, sources[..m], names[..m]);
      var src := if sources[m].Some? then sources[m].value else prev.names;
      EdgeValue(MergeValue(prev, FrameValue(src, false)), names[m])
  }

  /** One incoming edge, seen from the block: merge the source's names (its own, for a self-loop), then add the edge's name. */
  lemma AfterEdgeBlock(cfg: Cfg, facts: map<BlockId, FrameValue>, block: BlockId, e: Edge)
    requires cfg.WellFormed() && block in facts
    ensures e.source != block ==>
            AfterEdge(cfg, facts, block, e)[block]
            == EdgeValue(MergeValue(facts[block], FrameValue(SourceNames(facts, e.source), false)), EdgeName(cfg, e))
    ensures e.source == block ==>
            AfterEdge(cfg, facts, block, e)[block]
            == EdgeValue(MergeValue(facts[block], FrameValue(facts[block].names, false)), EdgeName(cfg, e))
  {
    var touched := Touch(facts, e.source);
    assert touched[block] == facts[block];
    assert touched[e.source].names == SourceNames(facts, e.source);
  }

  lemma SourcesPrefix(facts: map<BlockId, FrameValue>, block: BlockId, edges: seq<Edge>, m: nat)
    requires m <= |edges|
    ensures Sources(facts, block, edges)[..m] == Sources(facts, block, edges[..m])
  {
  }

  lemma NamesPrefix(cfg: Cfg, edges: seq<Edge>, m: nat)
    requires cfg.WellFormed() && m <= |edges|
    ensures Names(cfg, edges)[..m] == Names(cfg, edges[..m])
  {
  }

  /** The block's fact after its edges depends only on what each other source holds and each edge adds. */
  lemma {:induction false} AfterEdgesIsFold(cfg: Cfg, facts: map<BlockId, FrameValue>, block: BlockId, edges: seq<Edge>)
    requires cfg.WellFormed() && block in facts
    ensures AfterEdges(cfg, facts, block, edges)[block] == Fold(facts[block], Sources(facts, block, edges), Names(cfg, edges))
    decreases |edges|
  {
    if edges != [] {
      var m := |edges| - 1;
      var e := edges[m];
      var prefix := edges[..m];
      AfterEdgesIsFold(cfg, facts, block, prefix);
      var before := AfterEdges(cfg, facts, block, prefix);
      AfterEdgeBlock(cfg, before, block, e);
      if e.source != block {
        assert SourceNames(before, e.source) == SourceNames(facts, e.source);
      }
      SourcesPrefix(facts, block, edges, m);
      NamesPrefix(cfg, edges, m);
    }
  }

  /** Name `n` enters the fold at step `k`: the step adds it, or the first merge brings it. */
  predicate FoldEnters(v: FrameValue, sources: seq<Option<set<string>>>, names: seq<Option<string>>, n: string, k: nat)
    requires |sources| == |names| && k < |sources|
  {
    names[k] == Some(n)
    || (k == 0 && (if sources[0].Some? then n in sources[0].value && (v.isNew || n in v.names) else n in v.names))
  }

  /** Every source after step `k` holds `n`. */
  predicate FoldSurvives(sources: seq<Option<set<string>>>, n: string, k: nat) {
    forall k' :: k < k' < |sources| && sources[k'].Some? ==> n in sources[k'].value
  }

  /** A name is in the fold exactly when it entered at some step and every later source holds it. */
  lemma {:induction false} FoldNames(v: FrameValue, sources: seq<Option<set<string>>>, names: seq<Option<string>>, n: string)
    requires |sources| == |names| && sources != []
    ensures n in Fold(v, sources, names).names <==>
            exists k :: 0 <= k < |sources| && FoldEnters(v, sources, names, n, k) && FoldSurvives(sources, n, k)
    decreases |sources|
  {
    var m := |sources| - 1;
    var ps, pn := sources[..m], names[..m];
    if m == 0 {
      assert Fold(v, ps, pn) == v;
      if n in Fold(v, sources, names).names {
        assert FoldEnters(v, sources, names, n, 0) && FoldSurvives(sources, n, 0);
      }
    } else {
      FoldNames(v, ps, pn, n);
      if n in Fold(v, sources, names).names {
        if names[m] == Some(n) {
          assert FoldEnters(v, sources, names, n, m) && FoldSurvives(sources, n, m);
        } else {
          var k :| 0 <= k < m && FoldEnters(v, ps, pn, n, k) && FoldSurvives(ps, n, k);
          assert FoldEnters(v, sources, names, n, k);
          assert FoldSurvives(sources, n, k) by {
            forall k' | k < k' < |sources| && sources[k'].Some? ensures n in sources[k'].value {
              if k' < m {
                assert ps[k'] == sources[k'];
              }
            }
          }
        }
      }
      if exists k :: 0 <= k < |sources| && FoldEnters(v, sources, names, n, k) && FoldSurvives(sources, n, k) {
        var k :| 0 <= k < |sources| && FoldEnters(v, sources, names, n, k) && FoldSurvives(sources, n, k);
        if k < m {
          assert sources[m].Some? ==> n in sources[m].value;
          assert FoldEnters(v, ps, pn, n, k);
          assert FoldSurvives(ps, n, k) by {
            forall k' | k < k' < |ps| && ps[k'].Some? ensures n in ps[k'].value {
              assert ps[k'] == sources[k'];
            }
          }
        }
      }
    }
  }

  /**
   * Merge, then add: a name is in the block's fact after its incoming edges
   * exactly when it entered at some edge and every later edge from another
   * block has a source holding it; a self-loop merges the fact with itself
   * and drops nothing.
   */
  lemma AfterEdgesNames(cfg: Cfg, facts: map<BlockId, FrameValue>, block: BlockId, edges: seq<Edge>, n: string)
    requires cfg.WellFormed() && block in facts && edges != []
    ensures n in AfterEdges(cfg, facts, block, edges)[block].names <==>
            exists k :: 0 <= k < |edges| && EntersAt(cfg, facts, block, edges, n, k) && SurvivesAfter(facts, block, edges, n, k)
  {
    var sources, names := Sources(facts, block, edges), Names(cfg, edges);
    AfterEdgesIsFold(cfg, facts, block, edges);
    FoldNames(facts[block], sources, names, n);
    forall k | 0 <= k < |edges|
      ensures EntersAt(cfg, facts, block, edges, n, k) == FoldEnters(facts[block], sources, names, n, k)
      ensures SurvivesAfter(facts, block, edges, n, k) == FoldSurvives(sources, n, k)
    {
    }
  }

  // ---------------------------------------------------------------------
  // The pass, on frame objects.

  /** No two blocks share a frame. */
  ghost predicate Injective(m: map<BlockId, DynamicFrame>) {
    forall a, b :: a in m && b in m && a != b ==> m[a] != m[b]
  }

  /** The frames' contents, block by block. */
  function FactsOf(m: map<BlockId, DynamicFrame>): map<BlockId, FrameValue>
    reads m.Values
  {
    map b | b in m :: FrameValue(m[b].names, m[b].isNew)
  }

  class DynamicDataflow {
    const cfg: Cfg
    var frameMap: map<BlockId, DynamicFrame>

    constructor (cfg: Cfg)
      ensures this.cfg == cfg && frameMap == map[]
    {
      this.cfg := cfg;
      frameMap := map[];
    }

    /** Every block has a frame of its own. */
    ghost predicate Valid()
      reads this
    {
      Injective(frameMap)
    }

    function Facts(): map<BlockId, FrameValue>
      reads this, frameMap.Values
    {
      FactsOf(frameMap)
    }

    /** `getFactAtBlock`: the stored frame, or `None` for a block never touched. */
    function GetFactAtBlock(b: BlockId): (r: Option<DynamicFrame>)
      reads this
      ensures r.Some? <==> b in frameMap
      ensures r.Some? ==> r.value == frameMap[b]
    {
      if b in frameMap then Some(frameMap[b]) else None
    }

    /** `createOrGetFrame`. */
    method CreateOrGetFrame(b: BlockId) returns (f: DynamicFrame)
      requires Valid()
      modifies this`frameMap
      ensures Valid() && b in frameMap && f == frameMap[b]
      ensures old(b in frameMap) ==> frameMap == old(frameMap)
      ensures old(b !in frameMap) ==> fresh(f) && frameMap == old(frameMap)[b := f]
      ensures Facts() == Touch(old(Facts()), b)
    {
      if b in frameMap {
        f := frameMap[b];
      } else {
        f := new DynamicFrame();
        frameMap := frameMap[b := f];
        forall x | x in frameMap
          ensures Facts()[x] == Touch(old(Facts()), b)[x]
        {
        }
      }
    }

    /** `execute` over the given block order. */
    method Execute(order: seq<BlockId>)
      requires Valid() && cfg.WellFormed()
      modifies this, frameMap.Values
      ensures Valid()
      ensures Facts() == Run(cfg, old(Facts()), order)
    {
      ghost var initial := Facts();
      var k := 0;
      while k < |order|
        invariant 0 <= k <= |order| && Valid()
        invariant Facts() == Run(cfg, initial, order[..k])
        invariant forall x :: x in frameMap.Values ==> x in old(frameMap.Values) || fresh(x)
      {
        assert order[..k + 1][..k] == order[..k];
        ExecuteBlock(order[k]);
        k := k + 1;
      }
      assert order[..k] == order;
    }

    /** One block of `execute`. */
    method ExecuteBlock(basicBlock: BlockId)
      requires Valid() && cfg.WellFormed()
      modifies this, frameMap.Values
      ensures Valid()
      ensures Facts() == AfterBlock(cfg, old(Facts()), basicBlock)
      ensures forall x :: x in frameMap.Values ==> x in old(frameMap.Values) || fresh(x)
    {
      var fact := CreateOrGetFrame(basicBlock);
      if basicBlock != cfg.entry {
        var edges := cfg.IncomingEdges(basicBlock);
        ghost var start := Facts();
        var j := 0;
        while j < |edges|
          invariant 0 <= j <= |edges| && Valid()
          invariant basicBlock in frameMap && fact == frameMap[basicBlock]
          invariant basicBlock in start
          invariant Facts() == AfterEdges(cfg, start, basicBlock, edges[..j])
          invariant forall x :: x in frameMap.Values ==> x in old(frameMap.Values) || fresh(x)
        {
          AfterEdgesStep(cfg, start, basicBlock, edges, j);
          MergeEdge(basicBlock, fact, edges[j]);
          j := j + 1;
        }
        assert edges[..j] == edges;
      }
    }

    /** One incoming edge: merge the source's frame, then add the edge's name. */
    method MergeEdge(basicBlock: BlockId, fact: DynamicFrame, edge: Edge)
      requires Valid() && cfg.WellFormed()
      requires basicBlock in frameMap && fact == frameMap[basicBlock]
      modifies this`frameMap, fact
      ensures Valid() && basicBlock in frameMap && fact == frameMap[basicBlock]
      ensures Facts() == AfterEdge(cfg, old(Facts()), basicBlock, edge)
      ensures forall x :: x in frameMap.Values ==> x in old(frameMap.Values) || fresh(x)
    {
      var source := edge.source;
      var sourceFact := CreateOrGetFrame(source);
      ghost var touched := Facts();
      MergeInto(basicBlock, fact, sourceFact, edge);
      AfterEdgeIs(cfg, old(Facts()), basicBlock, edge, touched, Facts()[basicBlock]);
    }

    /** Merges the source's frame into the block's and adds the edge's name; no other frame changes. */
    method MergeInto(basicBlock: BlockId, fact: DynamicFrame, sourceFact: DynamicFrame, edge: Edge)
      requires Valid() && cfg.WellFormed()
      requires basicBlock in frameMap && fact == frameMap[basicBlock]
      requires edge.source in frameMap && sourceFact == frameMap[edge.source]
      modifies fact
      ensures Facts() == old(Facts())[basicBlock := EdgeValue(MergeValue(old(Facts())[basicBlock], old(Facts())[edge.source]), EdgeName(cfg, edge))]
    {
      ghost var before := Facts();
      fact.MergeFrom(sourceFact);
      AddEdgeName(edge, fact);
      forall x | x in frameMap
        ensures Facts()[x] == before[basicBlock := EdgeValue(MergeValue(before[basicBlock], before[edge.source]), EdgeName(cfg, edge))][x]
      {
        if x != basicBlock {
          assert frameMap[x] != fact;
        }
      }
    }

    /** The name-adding half of an edge: the null-test or reference-comparison rule, by the source's last instruction. */
    method AddEdgeName(edge: Edge, fact: DynamicFrame)
      requires cfg.WellFormed()
      modifies fact`names
      ensures fact.names == old(fact.names) + match EdgeName(cfg, edge) case Some(n) => {n} case None => {}
    {
      var inh := cfg.LastInstruction(edge.source);
      if inh.Some? {
        var i := inh.value;
        if cfg.code[i] == IfNull || cfg.code[i] == IfNonNull {
          CaculateDynamicMap(i, edge, fact);
        } else if cfg.code[i] == IfAcmpEq || cfg.code[i] == IfAcmpNe {
          CaculateDynamicMapForAcmp(i, edge, fact);
        }
      }
    }

    /** `caculateDynamicMap`. */
    method CaculateDynamicMap(i: CodeIndex, edge: Edge, fact: DynamicFrame)
      requires i < |cfg.code|
      modifies fact`names
      ensures fact.names == old(fact.names) + match NullTestName(cfg, i, edge.kind) case Some(n) => {n} case None => {}
    {
      if i > 0 && cfg.code[i - 1].Invoke? {
        var methodName := cfg.code[i - 1].callee.name;
        if edge.kind == FallThrough && cfg.code[i] == IfNull {
          fact.PutDynamic(methodName);
        } else if edge.kind == IfCmp && cfg.code[i] == IfNonNull {
          fact.PutDynamic(methodName);
        }
      }
    }

    /** `caculateDynamicMapForAcmp`, with the do-while balance scan. */
    method CaculateDynamicMapForAcmp(i: CodeIndex, edge: Edge, fact: DynamicFrame)
      requires i < |cfg.code|
      modifies fact`names
      ensures fact.names == old(fact.names) + match AcmpName(cfg, i, edge.kind) case Some(n) => {n} case None => {}
    {
      if i > 0 && cfg.code[i - 1].Invoke? {
        var preh := i - 1;
        var temph := preh;
        var need := 2;
        var found := false;
        while true
          invariant temph <= preh
          invariant BalancePoint(cfg, preh, 2) == BalancePoint(cfg, temph, need)
          decreases temph
        {
          var temp := cfg.code[temph];
          need := need + temp.ConsumeStack() - temp.ProduceStack();
          if need == 0 {
            found := true;
            break;
          }
          if temph == 0 {
            break;
          }
          temph := temph - 1;
        }
        assert found <==> BalancePoint(cfg, preh, 2) == Some(temph);
        if found {
          if cfg.code[temph] == AconstNull {
            var methodName := cfg.code[preh].callee.name;
            if edge.kind == FallThrough && cfg.code[i] == IfAcmpEq {
              fact.PutDynamic(methodName);
            } else if edge.kind == IfCmp && cfg.code[i] == IfAcmpNe {
              fact.PutDynamic(methodName);
            }
          }
        }
      }
    }
  }
}
