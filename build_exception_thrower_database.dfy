/**
 * The first, non-reporting pass that fills the exception-thrower summary
 * database: methods that throw on every path get the `ALWAYS` summary, and
 * methods whose argument null tests guard a throw get a conditional summary
 * listing the parameters that are tested.
 */
module BuildExceptionThrowerDatabase {
  import opened Wrappers
  import opened Bytecode
  import opened ExceptionThrowerSets

  /** The process-wide summary store, keyed by method. */
  type Database = map<MethodRef, ThrowerSummary>

  datatype ClassInfo = ClassInfo(name: string, isApplicationClass: bool, isInterface: bool, isAbstract: bool)

  datatype MethodInfo = MethodInfo(name: string, signature: string, isStatic: bool, isPublic: bool, argumentCount: nat)

  /** The key under which a method's summary is stored (always with the static flag set). */
  function Descriptor(c: ClassInfo, m: MethodInfo): MethodRef {
    MethodRef(c.name, m.name, m.signature, true)
  }

  predicate ClassEligible(c: ClassInfo) {
    c.isApplicationClass && !c.isInterface && !c.isAbstract
  }

  predicate MethodEligible(m: MethodInfo) {
    m.isStatic || m.isPublic
  }

  /** A summary the database may hold for a method with `argumentCount` arguments. */
  predicate SummaryFits(s: ThrowerSummary, argumentCount: nat) {
    if argumentCount == 0 then s == ALWAYS
    else s.state == Conditional && forall k :: k in s.params ==> k < argumentCount
  }

  /**
   * `visitClassContext`: only classes of the application that are neither
   * interfaces nor abstract are examined; of their methods (in the given call
   * order) only static or public ones; a method with arguments goes to the
   * conditional analysis, one without to the unconditional one. A missing
   * graph is looked up as an absent key of `cfgs`.
   */
  method VisitClassContext(c: ClassInfo, methods: seq<MethodInfo>, cfgs: map<MethodRef, Cfg>, db: Database) returns (db': Database)
    requires forall k :: k in cfgs ==> cfgs[k].WellFormed()
    ensures !ClassEligible(c) ==> db' == db
    ensures db.Keys <= db'.Keys
    ensures forall key :: key in db' && (key !in db || db'[key] != db[key]) ==>
              exists m :: m in methods && MethodEligible(m) && Descriptor(c, m) == key && SummaryFits(db'[key], m.argumentCount)
    ensures forall key :: key in db' && (key !in db || db'[key] != db[key]) ==> key in cfgs
    ensures db' == if ClassEligible(c) then ConsiderMethods(c, methods, cfgs, db) else db
  {
    db' := db;
    if ClassEligible(c) {
      var i := 0;
      while i < |methods|
        invariant 0 <= i <= |methods|
        invariant db' == ConsiderMethods(c, methods[..i], cfgs, db)
      {
        var m := methods[i];
        if m.isStatic || m.isPublic {
          if m.argumentCount > 0 {
            db' := ConsiderKaboomMethod(c, m, cfgs, db');
          } else {
            db' := ConsiderThrowerMethod(cfgs, Descriptor(c, m), db');
          }
        }
        assert methods[..i + 1][..i] == methods[..i];
        i := i + 1;
      }
      assert methods[..i] == methods;
      ConsiderMethodsChanges(c, methods, cfgs, db);
    }
  }

  /**
   * What examining one method of an eligible class does to the database: a
   * static or public method with a graph gets the conditional summary of its
   * walk (with arguments, unless a violation is reachable) or `ALWAYS` (without
   * arguments, when every exit edge throws); nothing else changes.
   */
  ghost function ConsiderMethod(c: ClassInfo, m: MethodInfo, cfgs: map<MethodRef, Cfg>, db: Database): (r: Database)
    requires forall k :: k in cfgs ==> cfgs[k].WellFormed()
    ensures forall k :: k != Descriptor(c, m) ==> (k in r <==> k in db) && (k in r ==> r[k] == db[k])
  {
    var key := Descriptor(c, m);
    if !MethodEligible(m) || key !in cfgs then db
    else if m.argumentCount > 0 then
      if ViolationReachable(cfgs[key], m.argumentCount, cfgs[key].entry) then db
      else db[key := ThrowerSummary(Conditional, RecordedOnReachable(cfgs[key], m.argumentCount, cfgs[key].entry))]
    else if AlwaysThrows(cfgs[key]) then db[key := ALWAYS]
    else db
  }

  /** The methods examined one after another, in call order. */
  ghost function ConsiderMethods(c: ClassInfo, methods: seq<MethodInfo>, cfgs: map<MethodRef, Cfg>, db: Database): Database
    requires forall k :: k in cfgs ==> cfgs[k].WellFormed()
    decreases |methods|
  {
    if methods == [] then db
    else ConsiderMethod(c, methods[|methods| - 1], cfgs, ConsiderMethods(c, methods[..|methods| - 1], cfgs, db))
  }

  /** Examining methods removes no key, and every key it changes belongs to an examined method with a graph and holds a fitting summary. */
  lemma {:induction false} ConsiderMethodsChanges(c: ClassInfo, methods: seq<MethodInfo>, cfgs: map<MethodRef, Cfg>, db: Database)
    requires forall k :: k in cfgs ==> cfgs[k].WellFormed()
    ensures var r := ConsiderMethods(c, methods, cfgs, db);
            && db.Keys <= r.Keys
            && forall key :: key in r && (key !in db || r[key] != db[key]) ==>
                 key in cfgs && exists m :: m in methods && MethodEligible(m) && Descriptor(c, m) == key
                                             && SummaryFits(r[key], m.argumentCount)
    decreases |methods|
  {
    if methods != [] {
      var prefix := methods[..|methods| - 1];
      var m := methods[|methods| - 1];
      ConsiderMethodsChanges(c, prefix, cfgs, db);
      var p := ConsiderMethods(c, prefix, cfgs, db);
      var r := ConsiderMethod(c, m, cfgs, p);
      forall key | key in r && (key !in db || r[key] != db[key])
        ensures key in cfgs && exists m' :: m' in methods && MethodEligible(m') && Descriptor(c, m') == key
                                            && SummaryFits(r[key], m'.argumentCount)
      {
        if key == Descriptor(c, m) && (key !in p || r[key] != p[key]) {
          assert m in methods;
        } else {
          var m' :| m' in prefix && MethodEligible(m') && Descriptor(c, m') == key && SummaryFits(p[key], m'.argumentCount);
          assert m' in methods;
        }
      }
    }
  }

  /** A key no method of the sequence is stored under stays as it was. */
  lemma {:induction false} ConsiderMethodsKeepsOthers(c: ClassInfo, methods: seq<MethodInfo>, cfgs: map<MethodRef, Cfg>, db: Database, key: MethodRef)
    requires forall k :: k in cfgs ==> cfgs[k].WellFormed()
    requires forall m :: m in methods ==> Descriptor(c, m) != key
    ensures var r := ConsiderMethods(c, methods, cfgs, db);
            (key in r <==> key in db) && (key in r ==> r[key] == db[key])
    decreases |methods|
  {
    if methods != [] {
      var prefix := methods[..|methods| - 1];
      assert methods[|methods| - 1] in methods;
      assert forall m :: m in prefix ==> m in methods;
      ConsiderMethodsKeepsOthers(c, prefix, cfgs, db, key);
    }
  }

  /**
   * Every method of an eligible class is examined: with the descriptors of a
   * class's methods distinct (a method is named by its name and signature),
   * the database after the class holds, under each method's descriptor,
   * exactly what examining that method alone would store.
   */
  lemma {:induction false} ConsiderMethodsRecordsEach(c: ClassInfo, methods: seq<MethodInfo>, cfgs: map<MethodRef, Cfg>, db: Database, j: nat)
    requires forall k :: k in cfgs ==> cfgs[k].WellFormed()
    requires forall a, b :: 0 <= a < b < |methods| ==> Descriptor(c, methods[a]) != Descriptor(c, methods[b])
    requires j < |methods|
    ensures var key := Descriptor(c, methods[j]);
            var r := ConsiderMethods(c, methods, cfgs, db);
            var one := ConsiderMethod(c, methods[j], cfgs, db);
            (key in r <==> key in one) && (key in r ==> r[key] == one[key])
    decreases |methods|
  {
    var last := |methods| - 1;
    var prefix := methods[..last];
    var key := Descriptor(c, methods[j]);
    if j == last {
      forall m | m in prefix ensures Descriptor(c, m) != key {
        var a :| 0 <= a < last && prefix[a] == m;
      }
      ConsiderMethodsKeepsOthers(c, prefix, cfgs, db, key);
    } else {
      ConsiderMethodsRecordsEach(c, prefix, cfgs, db, j);
      assert Descriptor(c, methods[last]) != key;
    }
  }

  // ---------------------------------------------------------------------
  // The unconditional thrower: every edge into the exit throws.

  /** An edge into the exit that is an unhandled exception or leaves a block ending in ATHROW. */
  predicate ExitEdgeThrows(cfg: Cfg, e: Edge)
    requires cfg.WellFormed()
  {
    e.kind == UnhandledException || cfg.EndsWith(e.source, Athrow)
  }

  predicate AlwaysThrows(cfg: Cfg)
    requires cfg.WellFormed()
  {
    forall e :: e in cfg.edges && e.target == cfg.exit ==> ExitEdgeThrows(cfg, e)
  }

  /**
   * `considerThrowerMethod`: counts the incoming edges of the exit, the
   * unhandled-exception ones and the ATHROW ones, and records `ALWAYS` when the
   * last two add up to the first (vacuously so when the exit has no incoming edge).
   * A method without a graph (the graph builder failed) is skipped.
   */
  method ConsiderThrowerMethod(cfgs: map<MethodRef, Cfg>, key: MethodRef, db: Database) returns (db': Database)
    requires forall k :: k in cfgs ==> cfgs[k].WellFormed()
    ensures key !in cfgs ==> db' == db
    ensures key in cfgs ==> db' == if AlwaysThrows(cfgs[key]) then db[key := ALWAYS] else db
  {
    if key !in cfgs {
      return db;
    }
    var cfg := cfgs[key];
    var it := cfg.IncomingEdges(cfg.exit);
    var unhandledExceptionCount, incomingCount, athrowCount := 0, 0, 0;
    var i := 0;
    while i < |it|
      invariant 0 <= i <= |it| && incomingCount == i
      invariant athrowCount + unhandledExceptionCount <= incomingCount
      invariant athrowCount + unhandledExceptionCount == incomingCount
                <==> forall k :: 0 <= k < i ==> ExitEdgeThrows(cfg, it[k])
    {
      incomingCount := incomingCount + 1;
      var inCommingEdge := it[i];
      if inCommingEdge.kind == UnhandledException {
        unhandledExceptionCount := unhandledExceptionCount + 1;
      } else {
        var inh := cfg.LastInstruction(inCommingEdge.source);
        if inh.Some? && cfg.code[inh.value] == Athrow {
          athrowCount := athrowCount + 1;
        }
      }
      i := i + 1;
    }
    if athrowCount + unhandledExceptionCount == incomingCount {
      assert AlwaysThrows(cfg) by {
        forall e | e in cfg.edges && e.target == cfg.exit ensures ExitEdgeThrows(cfg, e) {
          var k :| 0 <= k < |it| && it[k] == e;
        }
      }
      db' := db[key := ALWAYS];
    } else {
      db' := db;
    }
  }

  // ---------------------------------------------------------------------
  // The conditional thrower: a depth-first walk from the entry.

  /** A block that ends in IFNULL or IFNONNULL directly after `ALOAD index`, with index below the argument count. */
  datatype ParamNullTest = ParamNullTest(isIfNull: bool, index: nat)

  function ParamNullTestAt(cfg: Cfg, argumentCount: nat, b: BlockId): (r: Option<ParamNullTest>)
    requires cfg.WellFormed()
    ensures r.Some? ==> r.value.index < argumentCount
  {
    match cfg.LastInstruction(b)
    case None => None
    case Some(i) =>
      if (cfg.code[i] == IfNull || cfg.code[i] == IfNonNull)
         && i > 0 && cfg.code[i - 1].Aload? && cfg.code[i - 1].index < argumentCount
      then Some(ParamNullTest(cfg.code[i] == IfNull, cfg.code[i - 1].index))
      else None
  }

  /** The side of a parameter null test on which the parameter is non-null: the walk neither follows nor records it. */
  predicate IsNonNullEdge(cfg: Cfg, argumentCount: nat, e: Edge)
    requires cfg.WellFormed()
  {
    var t := ParamNullTestAt(cfg, argumentCount, e.source);
    t.Some? && ((t.value.isIfNull && e.kind == FallThrough) || (!t.value.isIfNull && e.kind == IfCmp))
  }

  /** The parameter index an edge records: the null side of a parameter null test. */
  function RecordedParam(cfg: Cfg, argumentCount: nat, e: Edge): (r: Option<nat>)
    requires cfg.WellFormed()
    ensures r.Some? ==> r.value < argumentCount
  {
    var t := ParamNullTestAt(cfg, argumentCount, e.source);
    if t.Some? && !IsNonNullEdge(cfg, argumentCount, e) then Some(t.value.index) else None
  }

  /**
   * The exit test of the walk as written: an edge into the exit passes when it
   * is an unhandled-exception edge or when the block the walk STARTED from
   * (not the edge's source) ends in ATHROW.
   */
  predicate ExitEdgeAccepted(cfg: Cfg, start: BlockId, e: Edge)
    requires cfg.WellFormed()
  {
    e.target != cfg.exit || e.kind == UnhandledException || cfg.EndsWith(start, Athrow)
  }

  /** `p` is a path of followed edges from `start` to `b`. */
  ghost predicate Reaches(cfg: Cfg, argumentCount: nat, start: BlockId, p: seq<Edge>, b: BlockId)
    requires cfg.WellFormed()
    decreases |p|
  {
    if p == [] then b == start
    else
      var e := p[|p| - 1];
      && e in cfg.edges
      && !IsNonNullEdge(cfg, argumentCount, e)
      && e.target == b
      && Reaches(cfg, argumentCount, start, p[..|p| - 1], e.source)
  }

  /** Edge `e` leaves the end of path `p` and fails the exit test. */
  ghost predicate ViolationAt(cfg: Cfg, argumentCount: nat, start: BlockId, p: seq<Edge>, e: Edge)
    requires cfg.WellFormed()
  {
    Reaches(cfg, argumentCount, start, p, e.source) && e in cfg.edges && !ExitEdgeAccepted(cfg, start, e)
  }

  /** Some edge leaving a block the walk reaches fails the exit test. */
  ghost predicate ViolationReachable(cfg: Cfg, argumentCount: nat, start: BlockId)
    requires cfg.WellFormed()
  {
    exists p: seq<Edge>, e: Edge :: ViolationAt(cfg, argumentCount, start, p, e)
  }

  /** Edge `e` leaves the end of path `p` and records parameter `k`. */
  ghost predicate RecordsAt(cfg: Cfg, argumentCount: nat, start: BlockId, p: seq<Edge>, e: Edge, k: nat)
    requires cfg.WellFormed()
  {
    Reaches(cfg, argumentCount, start, p, e.source) && e in cfg.edges && RecordedParam(cfg, argumentCount, e) == Some(k)
  }

  /** Every parameter index recorded by an edge leaving a block the walk reaches. */
  ghost function RecordedOnReachable(cfg: Cfg, argumentCount: nat, start: BlockId): (r: set<nat>)
    requires cfg.WellFormed()
    ensures forall k :: k in r ==> k < argumentCount
  {
    set k: nat | k < argumentCount && RecordedSomewhere(cfg, argumentCount, start, k)
  }

  ghost predicate RecordedSomewhere(cfg: Cfg, argumentCount: nat, start: BlockId, k: nat)
    requires cfg.WellFormed()
  {
    exists p: seq<Edge>, e: Edge :: RecordsAt(cfg, argumentCount, start, p, e, k)
  }

  /** An iterator over a block's outgoing edges: the block and the position of the next edge. */
  datatype EdgeIterator = EdgeIterator(block: BlockId, next: nat)

  /** Edge `k` of block `b` has not been taken from some iterator over `b` yet. */
  ghost predicate Pending(stack: seq<EdgeIterator>, b: BlockId, k: nat) {
    exists i :: 0 <= i < |stack| && stack[i].block == b && stack[i].next <= k
  }

  /** What the walk has established once it took edge `e`. */
  ghost predicate Handled(cfg: Cfg, argumentCount: nat, start: BlockId, visited: set<BlockId>, bits: set<nat>, e: Edge)
    requires cfg.WellFormed()
  {
    && ExitEdgeAccepted(cfg, start, e)
    && (!IsNonNullEdge(cfg, argumentCount, e) ==> e.target in visited)
    && (RecordedParam(cfg, argumentCount, e).Some? ==> RecordedParam(cfg, argumentCount, e).value in bits)
  }

  ghost predicate WalkInvariant(cfg: Cfg, argumentCount: nat, start: BlockId, visited: set<BlockId>,
                                paths: map<BlockId, seq<Edge>>, stack: seq<EdgeIterator>, bits: set<nat>, bits0: set<nat>)
    requires cfg.WellFormed()
  {
    && start in visited
    && visited <= cfg.Blocks() + {start}
    && paths.Keys == visited
    && (forall b :: b in visited ==> Reaches(cfg, argumentCount, start, paths[b], b))
    && (forall i :: 0 <= i < |stack| ==> stack[i].block in visited && stack[i].next <= |cfg.OutgoingEdges(stack[i].block)|)
    && (forall b, k :: b in visited && 0 <= k < |cfg.OutgoingEdges(b)| && !Pending(stack, b, k) ==>
          Handled(cfg, argumentCount, start, visited, bits, cfg.OutgoingEdges(b)[k]))
    && bits0 <= bits
    && bits - bits0 <= RecordedOnReachable(cfg, argumentCount, start)
  }

  /**
   * `analyzeKaboomMethod`: a depth-first walk from `start` over an explicit
   * stack of edge iterators, entering each block at most once. It returns
   * false as soon as an edge fails the exit test; on the way it records in
   * `throwerSet` the parameter index of every null side of a parameter null
   * test, and it does not follow the non-null side.
   */
  method AnalyzeKaboomMethod(argumentCount: nat, start: BlockId, cfg: Cfg, throwerSet: ExceptionThrowerSet) returns (ok: bool)
    requires cfg.WellFormed()
    modifies throwerSet`bitSet
    ensures ok <==> !ViolationReachable(cfg, argumentCount, start)
    ensures old(throwerSet.bitSet) <= throwerSet.bitSet
    ensures throwerSet.bitSet - old(throwerSet.bitSet) <= RecordedOnReachable(cfg, argumentCount, start)
    ensures ok ==> throwerSet.bitSet == old(throwerSet.bitSet) + RecordedOnReachable(cfg, argumentCount, start)
  {
    ghost var bits0 := throwerSet.bitSet;
    ghost var all := cfg.Blocks() + {start};
    var vector: seq<EdgeIterator> := [];
    var visited: set<BlockId> := {start};
    ghost var paths: map<BlockId, seq<Edge>> := map[start := []];
    var it := EdgeIterator(start, 0);
    vector := vector + [it];
    assert vector == [EdgeIterator(start, 0)];
    WalkStarts(cfg, argumentCount, start, bits0);
    while vector != []
      invariant WalkInvariant(cfg, argumentCount, start, visited, paths, vector, throwerSet.bitSet, bits0)
      decreases |all - visited|, |vector|
    {
      ghost var visited0, vector0 := visited, vector;
      it := vector[|vector| - 1];
      vector := vector[..|vector| - 1];
      PopThenPush(vector0);
      var drained;
      drained, visited, paths, vector := DrainIterator(argumentCount, start, cfg, throwerSet, bits0, visited, paths, vector, it);
      if !drained {
        return false;
      }
      if visited != visited0 {
        FewerLeft(all, visited0, visited);
      }
    }
    ClosedRegionCoversReachable(cfg, argumentCount, start, visited, paths, throwerSet.bitSet, bits0);
    return true;
  }

  /**
   * `considerKaboomMethod`: walks the method's graph from its entry with a
   * fresh conditional set; the set is stored under the method's descriptor
   * only when the walk succeeds, and cleared otherwise.
   */
  method ConsiderKaboomMethod(c: ClassInfo, m: MethodInfo, cfgs: map<MethodRef, Cfg>, db: Database) returns (db': Database)
    requires forall k :: k in cfgs ==> cfgs[k].WellFormed()
    ensures Descriptor(c, m) !in cfgs ==> db' == db
    ensures Descriptor(c, m) in cfgs ==>
              var cfg := cfgs[Descriptor(c, m)];
              db' == if ViolationReachable(cfg, m.argumentCount, cfg.entry) then db
                     else db[Descriptor(c, m) := ThrowerSummary(Conditional, RecordedOnReachable(cfg, m.argumentCount, cfg.entry))]
  {
    var throwerSet := ExceptionThrowerSet.NewConditionalThrowerType();
    var key := Descriptor(c, m);
    if key !in cfgs {
      return db;
    }
    var cfg := cfgs[key];
    var block := cfg.entry;
    var ok := AnalyzeKaboomMethod(m.argumentCount, block, cfg, throwerSet);
    if !ok {
      throwerSet.Clear();
      db' := db;
    } else {
      assert throwerSet.bitSet == RecordedOnReachable(cfg, m.argumentCount, block);
      db' := db[key := throwerSet.Snapshot()];
    }
  }

  /**
   * The inner loop of the walk: follow the edges of the iterator taken from
   * the stack until it runs out, descending into each block entered for the
   * first time (the iterator goes back on the stack beneath the new one).
   */
  method DrainIterator(argumentCount: nat, start: BlockId, cfg: Cfg, throwerSet: ExceptionThrowerSet, ghost bits0: set<nat>,
                       visited: set<BlockId>, ghost paths: map<BlockId, seq<Edge>>, vector: seq<EdgeIterator>, it: EdgeIterator)
    returns (ok: bool, visited': set<BlockId>, ghost paths': map<BlockId, seq<Edge>>, vector': seq<EdgeIterator>)
    requires cfg.WellFormed()
    requires WalkInvariant(cfg, argumentCount, start, visited, paths, vector + [it], throwerSet.bitSet, bits0)
    requires it.block in visited && it.next <= |cfg.OutgoingEdges(it.block)|
    modifies throwerSet`bitSet
    ensures !ok ==> ViolationReachable(cfg, argumentCount, start)
    ensures old(throwerSet.bitSet) <= throwerSet.bitSet
    ensures throwerSet.bitSet - bits0 <= RecordedOnReachable(cfg, argumentCount, start)
    ensures ok ==> WalkInvariant(cfg, argumentCount, start, visited', paths', vector', throwerSet.bitSet, bits0)
    ensures ok ==> visited <= visited' <= cfg.Blocks() + {start} && (visited' == visited ==> vector' == vector)
  {
    ghost var all := cfg.Blocks() + {start};
    var it' := it;
    ok, visited', paths', vector' := true, visited, paths, vector;
    while it'.next < |cfg.OutgoingEdges(it'.block)|
      invariant it'.block in visited' && it'.next <= |cfg.OutgoingEdges(it'.block)|
      invariant WalkInvariant(cfg, argumentCount, start, visited', paths', vector' + [it'], throwerSet.bitSet, bits0)
      invariant old(throwerSet.bitSet) <= throwerSet.bitSet
      invariant visited <= visited' && (visited' == visited ==> vector' == vector)
      decreases |all - visited'|, |cfg.OutgoingEdges(it'.block)| - it'.next
    {
      ghost var visitedBefore := visited';
      ok, visited', paths', vector', it' := FollowNextEdge(argumentCount, start, cfg, throwerSet, bits0, visited', paths', vector', it');
      if !ok {
        return;
      }
      if visited' != visitedBefore {
        FewerLeft(all, visitedBefore, visited');
      }
    }
    DropExhausted(cfg, argumentCount, start, visited', paths', vector', it', throwerSet.bitSet, bits0);
  }

  /**
   * One step of the inner loop of the walk: take the next edge of the iterator
   * on top, test it, record a parameter, and enter its target when it is new.
   */
  method FollowNextEdge(argumentCount: nat, start: BlockId, cfg: Cfg, throwerSet: ExceptionThrowerSet, ghost bits0: set<nat>,
                        visited: set<BlockId>, ghost paths: map<BlockId, seq<Edge>>, vector: seq<EdgeIterator>, it: EdgeIterator)
    returns (ok: bool, visited': set<BlockId>, ghost paths': map<BlockId, seq<Edge>>, vector': seq<EdgeIterator>, it': EdgeIterator)
    requires cfg.WellFormed()
    requires WalkInvariant(cfg, argumentCount, start, visited, paths, vector + [it], throwerSet.bitSet, bits0)
    requires it.block in visited && it.next < |cfg.OutgoingEdges(it.block)|
    modifies throwerSet`bitSet
    ensures !ok ==> ViolationReachable(cfg, argumentCount, start)
    ensures old(throwerSet.bitSet) <= throwerSet.bitSet
    ensures throwerSet.bitSet - bits0 <= RecordedOnReachable(cfg, argumentCount, start)
    ensures ok ==> WalkInvariant(cfg, argumentCount, start, visited', paths', vector' + [it'], throwerSet.bitSet, bits0)
    ensures ok ==> it'.block in visited' && it'.next <= |cfg.OutgoingEdges(it'.block)|
    ensures ok ==> (visited' == visited && vector' == vector && it'.block == it.block && it'.next == it.next + 1)
                   || (visited < visited' && visited' <= cfg.Blocks() + {start})
  {
    var edge := cfg.OutgoingEdges(it.block)[it.next];
    assert edge in cfg.edges && edge.source == it.block;
    it' := it.(next := it.next + 1);
    var target := edge.target;
    var verdict := ExamineEdge(argumentCount, start, cfg, edge);
    if verdict.Reject? {
      assert ViolationAt(cfg, argumentCount, start, paths[edge.source], edge);
      return false, visited, paths, vector, it';
    }
    if verdict.Record? {
      RecordedIsReachable(cfg, argumentCount, start, paths[edge.source], edge);
      throwerSet.SetParam(verdict.index);
    }
    var source := edge.source;
    ok, visited', paths', vector' := true, visited, paths, vector;
    ghost var pushed := !verdict.SkipNonNull? && target !in visited;
    if !verdict.SkipNonNull? && target !in visited {
      vector' := vector + [it'];
      it' := EdgeIterator(target, 0);
      ExtendPath(cfg, argumentCount, start, paths[source], edge);
      visited' := visited + {target};
      paths' := paths[target := paths[source] + [edge]];
      assert vector' + [it'] == vector + [it.(next := it.next + 1)] + [EdgeIterator(target, 0)];
    } else {
      assert vector' + [it'] == vector + [it.(next := it.next + 1)];
    }
    TakeEdge(cfg, argumentCount, start, visited, paths, vector, it, old(throwerSet.bitSet),
             visited', paths', vector' + [it'], throwerSet.bitSet, bits0, edge, pushed, target);
  }

  /** What the walk does with one edge. */
  datatype Verdict = Reject | SkipNonNull | Record(index: nat) | Follow

  /**
   * The per-edge tests of the walk, in the order the walk makes them: the exit
   * test first, then the parameter null test at the end of the edge's source.
   */
  method ExamineEdge(argumentCount: nat, start: BlockId, cfg: Cfg, edge: Edge) returns (v: Verdict)
    requires cfg.WellFormed()
    ensures v.Reject? <==> !ExitEdgeAccepted(cfg, start, edge)
    ensures v.SkipNonNull? <==> ExitEdgeAccepted(cfg, start, edge) && IsNonNullEdge(cfg, argumentCount, edge)
    ensures v.Record? <==> ExitEdgeAccepted(cfg, start, edge) && RecordedParam(cfg, argumentCount, edge).Some?
    ensures v.Record? ==> RecordedParam(cfg, argumentCount, edge) == Some(v.index)
  {
    if edge.target == cfg.exit {
      var startLast := cfg.LastInstruction(start);
      if edge.kind != UnhandledException && (startLast.None? || cfg.code[startLast.value] != Athrow) {
        return Reject;
      }
    }
    var inh := cfg.LastInstruction(edge.source);
    if inh.Some? && (cfg.code[inh.value] == IfNonNull || cfg.code[inh.value] == IfNull) {
      var ins := cfg.code[inh.value];
      var prevh := cfg.Prev(inh.value);
      if prevh.Some? && cfg.code[prevh.value].Aload? && cfg.code[prevh.value].index < argumentCount {
        if (ins == IfNull && edge.kind == FallThrough) || (ins == IfNonNull && edge.kind == IfCmp) {
          return SkipNonNull;
        }
        return Record(cfg.code[prevh.value].index);
      }
    }
    return Follow;
  }

  /**
   * Taking edge `edge` (edge `it.next` of `it.block`) keeps the walk's
   * invariant: the iterator moves past the edge, the edge is handled, and a
   * block entered for the first time gets a fresh iterator on top.
   */
  lemma TakeEdge(cfg: Cfg, argumentCount: nat, start: BlockId,
                 visited0: set<BlockId>, paths0: map<BlockId, seq<Edge>>, vector: seq<EdgeIterator>, it: EdgeIterator, bits0': set<nat>,
                 visited: set<BlockId>, paths: map<BlockId, seq<Edge>>, stack: seq<EdgeIterator>, bits: set<nat>, bits0: set<nat>,
                 edge: Edge, pushed: bool, t: BlockId)
    requires cfg.WellFormed()
    requires WalkInvariant(cfg, argumentCount, start, visited0, paths0, vector + [it], bits0', bits0)
    requires it.block in visited0 && it.next < |cfg.OutgoingEdges(it.block)| && edge == cfg.OutgoingEdges(it.block)[it.next]
    requires visited0 <= visited <= cfg.Blocks() + {start} && bits0' <= bits
    requires bits - bits0 <= RecordedOnReachable(cfg, argumentCount, start)
    requires paths.Keys == visited && forall b :: b in visited ==> Reaches(cfg, argumentCount, start, paths[b], b)
    requires Handled(cfg, argumentCount, start, visited, bits, edge)
    requires !pushed ==> visited == visited0 && stack == vector + [it.(next := it.next + 1)]
    requires pushed ==> t !in visited0 && visited == visited0 + {t}
                        && stack == vector + [it.(next := it.next + 1)] + [EdgeIterator(t, 0)]
    ensures WalkInvariant(cfg, argumentCount, start, visited, paths, stack, bits, bits0)
  {
    var old_ := vector + [it];
    forall b, k | b in visited && 0 <= k < |cfg.OutgoingEdges(b)|
      ensures !Pending(stack, b, k) ==> Handled(cfg, argumentCount, start, visited, bits, cfg.OutgoingEdges(b)[k])
    {
      if b !in visited0 {
        assert stack[|stack| - 1] == EdgeIterator(t, 0);
      } else if b == it.block && k == it.next {
      } else if Pending(old_, b, k) {
        StillPending(vector, it, stack, pushed, t, b, k);
      } else {
        HandledGrows(cfg, argumentCount, start, visited0, visited, bits0', bits, cfg.OutgoingEdges(b)[k]);
      }
    }
    forall i | 0 <= i < |stack|
      ensures stack[i].block in visited && stack[i].next <= |cfg.OutgoingEdges(stack[i].block)|
    {
      if i < |vector| {
        assert stack[i] == old_[i];
      }
    }
  }

  /** What an edge established stays established as the visited set and the bits grow. */
  lemma HandledGrows(cfg: Cfg, argumentCount: nat, start: BlockId, visited0: set<BlockId>, visited: set<BlockId>,
                     bits0: set<nat>, bits: set<nat>, e: Edge)
    requires cfg.WellFormed() && visited0 <= visited && bits0 <= bits
    requires Handled(cfg, argumentCount, start, visited0, bits0, e)
    ensures Handled(cfg, argumentCount, start, visited, bits, e)
  {
  }

  /** Advancing the top iterator past edge `it.next` (and maybe pushing another) keeps every other edge pending. */
  lemma StillPending(vector: seq<EdgeIterator>, it: EdgeIterator, stack: seq<EdgeIterator>, pushed: bool, t: BlockId, b: BlockId, k: nat)
    requires !pushed ==> stack == vector + [it.(next := it.next + 1)]
    requires pushed ==> stack == vector + [it.(next := it.next + 1)] + [EdgeIterator(t, 0)]
    requires Pending(vector + [it], b, k) && !(b == it.block && k == it.next)
    ensures Pending(stack, b, k)
  {
    var old_ := vector + [it];
    var i :| 0 <= i < |old_| && old_[i].block == b && old_[i].next <= k;
    if i < |vector| {
      assert stack[i] == old_[i];
    } else {
      assert stack[|vector|] == it.(next := it.next + 1);
    }
  }

  /** The walk's invariant holds once `start` is entered with a fresh iterator. */
  lemma WalkStarts(cfg: Cfg, argumentCount: nat, start: BlockId, bits0: set<nat>)
    requires cfg.WellFormed()
    ensures WalkInvariant(cfg, argumentCount, start, {start}, map[start := []], [EdgeIterator(start, 0)], bits0, bits0)
  {
    forall b, k | b in {start} && 0 <= k < |cfg.OutgoingEdges(b)|
      ensures Pending([EdgeIterator(start, 0)], b, k)
    {
      assert [EdgeIterator(start, 0)][0].block == b;
    }
  }

  lemma PopThenPush<T>(s: seq<T>)
    requires s != []
    ensures s[..|s| - 1] + [s[|s| - 1]] == s
  {
  }

  /** Entering a new block leaves fewer blocks still to enter. */
  lemma FewerLeft<T>(all: set<T>, before: set<T>, after: set<T>)
    requires before <= after <= all && before != after
    ensures |all - after| < |all - before|
  {
    var x :| x in after && x !in before;
    assert all - before == (all - after) + (after - before);
    assert (all - after) * (after - before) == {};
    assert x in after - before;
  }

  /** An iterator that has run out of edges can leave the stack. */
  lemma DropExhausted(cfg: Cfg, argumentCount: nat, start: BlockId, visited: set<BlockId>, paths: map<BlockId, seq<Edge>>,
                      vector: seq<EdgeIterator>, it: EdgeIterator, bits: set<nat>, bits0: set<nat>)
    requires cfg.WellFormed()
    requires WalkInvariant(cfg, argumentCount, start, visited, paths, vector + [it], bits, bits0)
    requires it.next >= |cfg.OutgoingEdges(it.block)|
    ensures WalkInvariant(cfg, argumentCount, start, visited, paths, vector, bits, bits0)
  {
    forall b, k | b in visited && 0 <= k < |cfg.OutgoingEdges(b)| && Pending(vector + [it], b, k)
      ensures Pending(vector, b, k)
    {
      var i :| 0 <= i < |vector + [it]| && (vector + [it])[i].block == b && (vector + [it])[i].next <= k;
      assert vector[i] == (vector + [it])[i];
    }
    forall i | 0 <= i < |vector|
      ensures vector[i].block in visited && vector[i].next <= |cfg.OutgoingEdges(vector[i].block)|
    {
      assert vector[i] == (vector + [it])[i];
    }
  }

  lemma RecordedIsReachable(cfg: Cfg, argumentCount: nat, start: BlockId, p: seq<Edge>, e: Edge)
    requires cfg.WellFormed()
    requires Reaches(cfg, argumentCount, start, p, e.source) && e in cfg.edges
    requires RecordedParam(cfg, argumentCount, e).Some?
    ensures RecordedParam(cfg, argumentCount, e).value in RecordedOnReachable(cfg, argumentCount, start)
  {
    assert RecordsAt(cfg, argumentCount, start, p, e, RecordedParam(cfg, argumentCount, e).value);
  }

  lemma ExtendPath(cfg: Cfg, argumentCount: nat, start: BlockId, p: seq<Edge>, e: Edge)
    requires cfg.WellFormed()
    requires Reaches(cfg, argumentCount, start, p, e.source) && e in cfg.edges && !IsNonNullEdge(cfg, argumentCount, e)
    ensures Reaches(cfg, argumentCount, start, p + [e], e.target)
  {
    assert (p + [e])[..|p|] == p;
  }

  /** Once the stack is empty, every reachable block was entered and every edge out of it was handled. */
  lemma ClosedRegionCoversReachable(cfg: Cfg, argumentCount: nat, start: BlockId, visited: set<BlockId>,
                                    paths: map<BlockId, seq<Edge>>, bits: set<nat>, bits0: set<nat>)
    requires cfg.WellFormed()
    requires WalkInvariant(cfg, argumentCount, start, visited, paths, [], bits, bits0)
    ensures !ViolationReachable(cfg, argumentCount, start)
    ensures bits == bits0 + RecordedOnReachable(cfg, argumentCount, start)
  {
    forall e | e in cfg.edges && e.source in visited
      ensures Handled(cfg, argumentCount, start, visited, bits, e)
    {
      var out := cfg.OutgoingEdges(e.source);
      var k :| 0 <= k < |out| && out[k] == e;
      assert !Pending([], e.source, k);
    }
    forall p: seq<Edge>, e: Edge | Reaches(cfg, argumentCount, start, p, e.source) && e in cfg.edges
      ensures Handled(cfg, argumentCount, start, visited, bits, e)
    {
      ReachableIsVisited(cfg, argumentCount, start, visited, bits, p, e.source);
    }
    forall p: seq<Edge>, e: Edge ensures !ViolationAt(cfg, argumentCount, start, p, e) {
    }
    forall k | k in RecordedOnReachable(cfg, argumentCount, start) ensures k in bits {
      var p: seq<Edge>, e: Edge :| RecordsAt(cfg, argumentCount, start, p, e, k);
    }
  }

  /** A set of blocks that holds `start` and is closed under followed edges holds every block reachable from `start`. */
  lemma {:induction false} ReachableIsVisited(cfg: Cfg, argumentCount: nat, start: BlockId, visited: set<BlockId>,
                                             bits: set<nat>, p: seq<Edge>, b: BlockId)
    requires cfg.WellFormed()
    requires start in visited
    requires forall e :: e in cfg.edges && e.source in visited ==> Handled(cfg, argumentCount, start, visited, bits, e)
    requires Reaches(cfg, argumentCount, start, p, b)
    ensures b in visited
    decreases |p|
  {
    if p != [] {
      var e := p[|p| - 1];
      ReachableIsVisited(cfg, argumentCount, start, visited, bits, p[..|p| - 1], e.source);
    }
  }
}
