/** The bounded analysis intent: operations, their retained dependencies, and the cycle check. */
module AnalysisIntent {
  import opened Wrappers
  import opened Text
  import opened DependencyGraph

  const MAX_TEXT := 96
  const MAX_OPERATION_KINDS := 8
  const LIMIT_CEILING := 64

  const SUPPORTED := {"query", "filter", "aggregate", "trend", "compare", "spatial_operation", "evidence"}

  const KIND_ALIASES := map[
    "select" := "query", "read" := "query", "where" := "filter", "group" := "aggregate",
    "group_by" := "aggregate", "time_series" := "trend", "timeseries" := "trend",
    "comparison" := "compare", "spatial" := "spatial_operation",
    "spatial_analysis" := "spatial_operation", "source" := "evidence", "provenance" := "evidence"
  ]

  datatype Code =
    | LimitInvalid | OperationsRequired | OperationsLimit | Unsupported | DuplicateOperation
    | SelfDependency | UnknownDependency | DependencyCycle

  datatype RawOperation = RawOperation(id: string, kind: string, dependsOn: seq<string>)

  datatype Operation = Operation(id: string, kind: string, dependsOn: seq<string>)

  function Underscored(s: string): string {
    seq(|s|, i requires 0 <= i < |s| => if s[i] == '-' || s[i] == ' ' then '_' else s[i])
  }

  function NormalizeKind(kind: string): Result<string, Code> {
    var text := Underscored(Lower(Bounded(kind, MAX_TEXT)));
    var canonical := if text in KIND_ALIASES then KIND_ALIASES[text] else text;
    if canonical in SUPPORTED then Ok(canonical) else Err(Unsupported)
  }

  /** `[_text(item) for item in values if _text(item)]`. */
  function Texts(values: seq<string>): seq<string> {
    if values == [] then []
    else
      var text := Bounded(values[0], MAX_TEXT);
      (if text == "" then [] else [text]) + Texts(values[1..])
  }

  /** `_unique` on texts that are already bounded. */
  function Unique(values: seq<string>, limit: nat): seq<string> {
    if values == [] then []
    else
      var init := Unique(values[..|values| - 1], limit);
      var last := values[|values| - 1];
      if last != "" && last !in init && |init| < limit then init + [last] else init
  }

  /** `_strings`: only the first `limit` raw items are looked at. */
  function Strings(values: seq<string>, limit: nat): seq<string> {
    Unique(Texts(if |values| <= limit then values else values[..limit]), limit)
  }

  function NormalizeOperation(raw: RawOperation): Result<Operation, Code> {
    var kind :- NormalizeKind(raw.kind);
    var id := Bounded(raw.id, MAX_TEXT);
    Ok(Operation(if id == "" then kind else id, kind, Retained(raw.dependsOn)))
  }

  /** `_unique(_strings(...))`: the dependencies that reach the graph. */
  function Retained(dependsOn: seq<string>): seq<string> {
    Unique(Strings(dependsOn, MAX_OPERATION_KINDS), MAX_OPERATION_KINDS)
  }

  function Ids(operations: seq<Operation>): set<string> {
    set o | o in operations :: o.id
  }

  /** Operations in order, refusing at the first unsupported kind or repeated id. */
  function Collect(raw: seq<RawOperation>): Result<seq<Operation>, Code> {
    Gather(Parsed(raw))
  }

  type Parsing = seq<Result<Operation, Code>>

  function Parsed(raw: seq<RawOperation>): (r: Parsing)
    ensures |r| == |raw| && forall i | 0 <= i < |r| :: r[i] == NormalizeOperation(raw[i])
  {
    seq(|raw|, i requires 0 <= i < |raw| => NormalizeOperation(raw[i]))
  }

  function Gather(results: Parsing): Result<seq<Operation>, Code> {
    if results == [] then Ok([])
    else
      var init :- Gather(results[..|results| - 1]);
      var operation :- results[|results| - 1];
      if operation.id in Ids(init) then Err(DuplicateOperation) else Ok(init + [operation])
  }

  /** The dependency check, refusing at the first offending operation. */
  function CheckDependencies(operations: seq<Operation>, ids: set<string>): Result<(), Code> {
    if operations == [] then Ok(())
    else
      var _ :- CheckDependencies(operations[..|operations| - 1], ids);
      var last := operations[|operations| - 1];
      if last.id in last.dependsOn then Err(SelfDependency)
      else if exists d | d in last.dependsOn :: d !in ids then Err(UnknownDependency)
      else Ok(())
  }

  /** The retained graph: `{item["id"]: set(item["depends_on"])}`. */
  function GraphOf(operations: seq<Operation>): Graph {
    if operations == [] then map[]
    else
      var last := operations[|operations| - 1];
      GraphOf(operations[..|operations| - 1])[last.id := set d | d in last.dependsOn]
  }

  ghost predicate Distinct(operations: seq<Operation>) {
    forall i, j | 0 <= i < j < |operations| :: operations[i].id != operations[j].id
  }

  /** Everything the contract promises about an accepted list of operations. */
  ghost predicate WellFormed(operations: seq<Operation>, limit: int) {
    && 1 <= |operations| <= limit
    && Distinct(operations)
    && (forall o | o in operations :: o.kind in SUPPORTED)
    && (forall o, d | o in operations && d in o.dependsOn :: d != o.id && d in Ids(operations))
    && HasRank(GraphOf(operations))
  }

  lemma {:induction false} GatherFacts(results: Parsing)
    requires Gather(results).Ok?
    ensures |Gather(results).value| == |results| && Distinct(Gather(results).value)
    ensures forall i | 0 <= i < |results| :: results[i] == Ok(Gather(results).value[i])
    decreases |results|
  {
    if results != [] {
      GatherFacts(results[..|results| - 1]);
    }
  }

  lemma CollectFacts(raw: seq<RawOperation>)
    requires Collect(raw).Ok?
    ensures |Collect(raw).value| == |raw| && Distinct(Collect(raw).value)
    ensures forall i | 0 <= i < |raw| :: NormalizeOperation(raw[i]) == Ok(Collect(raw).value[i])
  {
    GatherFacts(Parsed(raw));
    assert forall i | 0 <= i < |raw| :: Parsed(raw)[i] == NormalizeOperation(raw[i]);
  }

  lemma {:induction false} DependenciesFacts(operations: seq<Operation>, ids: set<string>)
    ensures CheckDependencies(operations, ids).Ok? <==>
            forall o | o in operations :: o.id !in o.dependsOn && forall d | d in o.dependsOn :: d in ids
    decreases |operations|
  {
    if operations != [] {
      var init, last := operations[..|operations| - 1], operations[|operations| - 1];
      DependenciesFacts(init, ids);
      assert forall o :: o in operations <==> o in init || o == last;
    }
  }

  /** The retained graph has the operations as nodes and their dependency lists as edges. */
  lemma {:induction false} GraphFacts(operations: seq<Operation>)
    requires Distinct(operations)
    ensures GraphOf(operations).Keys == Ids(operations)
    ensures forall o | o in operations :: GraphOf(operations)[o.id] == set d | d in o.dependsOn
    decreases |operations|
  {
    if operations != [] {
      var init, last := operations[..|operations| - 1], operations[|operations| - 1];
      GraphFacts(init);
      assert operations == init + [last];
    }
  }

  method NormalizeOperations(raw: seq<RawOperation>) returns (r: Result<seq<Operation>, Code>)
    ensures r == Collect(raw)
  {
    var operations: seq<Operation> := [];
    var operationIds := {};
    ghost var results := Parsed(raw);
    for i := 0 to |raw|
      invariant Gather(results[..i]) == Ok(operations) && operationIds == Ids(operations)
    {
      var normalized := NormalizeOperation(raw[i]);
      GatherNext(results, i, operations);
      if normalized.Err? || normalized.value.id in operationIds {
        GatherStops(results, i + 1);
        return if normalized.Err? then Err(normalized.error) else Err(DuplicateOperation);
      }
      operations := operations + [normalized.value];
      operationIds := operationIds + {normalized.value.id};
    }
    assert results[..|raw|] == results;
    return Ok(operations);
  }

  lemma GatherNext(results: Parsing, i: nat, operations: seq<Operation>)
    requires i < |results| && Gather(results[..i]) == Ok(operations)
    ensures results[i].Err? ==> Gather(results[..i + 1]) == Err(results[i].error)
    ensures results[i].Ok? && results[i].value.id in Ids(operations) ==> Gather(results[..i + 1]) == Err(DuplicateOperation)
    ensures results[i].Ok? && results[i].value.id !in Ids(operations) ==>
              Gather(results[..i + 1]) == Ok(operations + [results[i].value])
  {
    assert results[..i + 1][..i] == results[..i];
  }

  /** A refused prefix refuses the whole list, with the same code. */
  lemma {:induction false} GatherStops(results: Parsing, n: nat)
    requires n <= |results| && Gather(results[..n]).Err?
    ensures Gather(results) == Gather(results[..n])
    decreases |results|
  {
    if n < |results| {
      assert results[..|results| - 1][..n] == results[..n];
      GatherStops(results[..|results| - 1], n);
    } else {
      assert results[..n] == results;
    }
  }

  method CheckEach(operations: seq<Operation>, ids: set<string>) returns (r: Result<(), Code>)
    ensures r == CheckDependencies(operations, ids)
  {
    for i := 0 to |operations|
      invariant CheckDependencies(operations[..i], ids) == Ok(())
    {
      assert operations[..i + 1][..i] == operations[..i];
      var operation := operations[i];
      if operation.id in operation.dependsOn || exists d | d in operation.dependsOn :: d !in ids {
        CheckStops(operations, ids, i + 1);
        return if operation.id in operation.dependsOn then Err(SelfDependency) else Err(UnknownDependency);
      }
    }
    assert operations[..|operations|] == operations;
    return Ok(());
  }

  lemma {:induction false} CheckStops(operations: seq<Operation>, ids: set<string>, n: nat)
    requires n <= |operations| && CheckDependencies(operations[..n], ids).Err?
    ensures CheckDependencies(operations, ids) == CheckDependencies(operations[..n], ids)
    decreases |operations|
  {
    if n < |operations| {
      assert operations[..|operations| - 1][..n] == operations[..n];
      CheckStops(operations[..|operations| - 1], ids, n);
    } else {
      assert operations[..n] == operations;
    }
  }

  /** What `normalize_analysis_intent` answers about its operations, error codes in order. */
  ghost function Intent(raw: seq<RawOperation>, maxOperations: int): Result<seq<Operation>, Code> {
    if maxOperations < 1 then Err(LimitInvalid)
    else if raw == [] then Err(OperationsRequired)
    else if |raw| > (if maxOperations < LIMIT_CEILING then maxOperations else LIMIT_CEILING) then Err(OperationsLimit)
    else
      var operations :- Collect(raw);
      var _ :- CheckDependencies(operations, Ids(operations));
      if HasCycle(GraphOf(operations)) then Err(DependencyCycle) else Ok(operations)
  }

  method NormalizeIntent(raw: seq<RawOperation>, maxOperations: int) returns (r: Result<seq<Operation>, Code>)
    ensures r == Intent(raw, maxOperations)
    ensures r.Ok? ==> WellFormed(r.value, maxOperations)
  {
    if maxOperations < 1 {
      return Err(LimitInvalid);
    }
    var limit := if maxOperations < LIMIT_CEILING then maxOperations else LIMIT_CEILING;
    if raw == [] {
      return Err(OperationsRequired);
    }
    if |raw| > limit {
      return Err(OperationsLimit);
    }
    var operations :- NormalizeOperations(raw);
    var _ :- CheckEach(operations, Ids(operations));
    var acyclic := AssertAcyclic(GraphOf(operations));
    if !acyclic {
      return Err(DependencyCycle);
    }
    AcceptedFacts(raw, operations);
    return Ok(operations);
  }

  lemma AcceptedFacts(raw: seq<RawOperation>, operations: seq<Operation>)
    requires Collect(raw) == Ok(operations) && CheckDependencies(operations, Ids(operations)).Ok?
    ensures |operations| == |raw| && Distinct(operations)
    ensures forall o | o in operations :: o.kind in SUPPORTED
    ensures forall o, d | o in operations && d in o.dependsOn :: d != o.id && d in Ids(operations)
  {
    CollectFacts(raw);
    DependenciesFacts(operations, Ids(operations));
    forall o | o in operations
      ensures o.kind in SUPPORTED
    {
      var i :| 0 <= i < |operations| && operations[i] == o;
      NormalizedKind(raw[i], o);
    }
  }

  lemma NormalizedKind(raw: RawOperation, o: Operation)
    requires NormalizeOperation(raw) == Ok(o)
    ensures o.kind in SUPPORTED
  {
  }

  lemma RankEdge(g: Graph, rank: map<string, nat>, n: string, d: string)
    requires IsRank(g, rank) && n in g && d in g[n]
    ensures n in rank && d in rank && rank[d] < rank[n]
  {
  }

  /**
   An accepted intent can be scheduled in waves: one rank for every operation, strictly above
   the ranks of everything it depends on, and all of those are operations of the intent.
   */
  lemma AcceptedIntentSchedules(operations: seq<Operation>, limit: int) returns (rank: map<string, nat>)
    requires WellFormed(operations, limit)
    ensures forall o, d | o in operations && d in o.dependsOn ::
              o.id in rank && d in rank && rank[d] < rank[o.id] && exists p | p in operations :: p.id == d
  {
    rank := RankOf(GraphOf(operations));
    GraphFacts(operations);
    forall o, d | o in operations && d in o.dependsOn
      ensures o.id in rank && d in rank && rank[d] < rank[o.id] && exists p | p in operations :: p.id == d
    {
      RankEdge(GraphOf(operations), rank, o.id, d);
      assert d in Ids(operations);
    }
  }

  // ---------------------------------------------------------------- which dependencies are retained

  /** `d` is what the text of one of the first `n` written dependencies comes to. */
  predicate WrittenWithin(written: seq<string>, n: nat, d: string) {
    exists i | 0 <= i < n && i < |written| :: Bounded(written[i], MAX_TEXT) == d
  }

  lemma {:induction false} TextsMembers(values: seq<string>)
    ensures |Texts(values)| <= |values|
    ensures forall d :: d in Texts(values) <==> d != "" && WrittenWithin(values, |values|, d)
  {
    if values != [] {
      TextsMembers(values[1..]);
      assert forall i | 0 < i < |values| :: values[i] == values[1..][i - 1];
    }
  }

  lemma {:induction false} UniqueMembers(values: seq<string>, limit: nat)
    requires |values| <= limit
    ensures |Unique(values, limit)| <= |values|
    ensures forall d :: d in Unique(values, limit) <==> d in values && d != ""
    decreases |values|
  {
    if values != [] {
      UniqueMembers(values[..|values| - 1], limit);
      assert values == values[..|values| - 1] + [values[|values| - 1]];
    }
  }

  lemma RetainedMembers(written: seq<string>)
    ensures forall d :: d in Retained(written) <==> d != "" && WrittenWithin(written, MAX_OPERATION_KINDS, d)
  {
    var head := if |written| <= MAX_OPERATION_KINDS then written else written[..MAX_OPERATION_KINDS];
    TextsMembers(head);
    UniqueMembers(Texts(head), MAX_OPERATION_KINDS);
    UniqueMembers(Strings(written, MAX_OPERATION_KINDS), MAX_OPERATION_KINDS);
    forall d
      ensures WrittenWithin(head, |head|, d) <==> WrittenWithin(written, MAX_OPERATION_KINDS, d)
    {
      assert forall i | 0 <= i < |head| :: head[i] == written[i];
    }
  }

  /** An operation depends on exactly what its first eight written dependencies name. */
  lemma RetainedDependencies(raw: RawOperation, o: Operation, d: string)
    requires NormalizeOperation(raw) == Ok(o)
    ensures d in o.dependsOn <==> d != "" && WrittenWithin(raw.dependsOn, MAX_OPERATION_KINDS, d)
  {
    RetainedMembers(raw.dependsOn);
  }

  /** Each item after the eighth is blank or repeats one of the first eight. */
  predicate IdleTail(written: seq<string>) {
    forall i | MAX_OPERATION_KINDS <= i < |written| :: IdleItem(written, i)
  }

  predicate IdleItem(written: seq<string>, i: nat)
    requires i < |written|
  {
    Bounded(written[i], MAX_TEXT) == "" || WrittenWithin(written, MAX_OPERATION_KINDS, Bounded(written[i], MAX_TEXT))
  }

  function Named(names: seq<string>): set<string> {
    set d | d in names
  }

  /** Every written dependency is retained exactly when nothing new is named after the first eight. */
  lemma TailDecides(written: seq<string>)
    ensures Named(Retained(written)) == Named(Texts(written)) <==> IdleTail(written)
  {
    TextsMembers(written);
    RetainedMembers(written);
    assert Named(Retained(written)) <= Named(Texts(written));
    if IdleTail(written) {
      forall d | d in Named(Texts(written))
        ensures d in Named(Retained(written))
      {
        var i :| 0 <= i < |written| && Bounded(written[i], MAX_TEXT) == d;
        assert i >= MAX_OPERATION_KINDS ==> IdleItem(written, i);
      }
    } else {
      var i :| MAX_OPERATION_KINDS <= i < |written| && !IdleItem(written, i);
      assert Bounded(written[i], MAX_TEXT) in Named(Texts(written));
    }
  }

  /** The operations with every dependency that was written. */
  function AsWritten(raw: seq<RawOperation>, operations: seq<Operation>): (r: seq<Operation>)
    requires |raw| == |operations|
    ensures |r| == |raw|
    ensures forall i | 0 <= i < |r| :: r[i] == operations[i].(dependsOn := Texts(raw[i].dependsOn))
  {
    seq(|raw|, i requires 0 <= i < |raw| => operations[i].(dependsOn := Texts(raw[i].dependsOn)))
  }

  ghost predicate Retains(raw: seq<RawOperation>, operations: seq<Operation>) {
    && |raw| == |operations| && Distinct(operations)
    && forall i | 0 <= i < |raw| :: operations[i].dependsOn == Retained(raw[i].dependsOn)
  }

  lemma CollectRetains(raw: seq<RawOperation>)
    requires Collect(raw).Ok?
    ensures Retains(raw, Collect(raw).value)
  {
    CollectFacts(raw);
    var operations := Collect(raw).value;
    forall i | 0 <= i < |raw|
      ensures operations[i].dependsOn == Retained(raw[i].dependsOn)
    {
      assert NormalizeOperation(raw[i]) == Ok(operations[i]);
    }
  }

  lemma WrittenIds(raw: seq<RawOperation>, operations: seq<Operation>)
    requires |raw| == |operations| && Distinct(operations)
    ensures Distinct(AsWritten(raw, operations)) && Ids(AsWritten(raw, operations)) == Ids(operations)
  {
    var ws := AsWritten(raw, operations);
    forall o | o in operations
      ensures o.id in Ids(ws)
    {
      var i :| 0 <= i < |operations| && operations[i] == o;
      assert ws[i] in ws;
    }
    forall w | w in ws
      ensures w.id in Ids(operations)
    {
      var i :| 0 <= i < |ws| && ws[i] == w;
      assert operations[i] in operations;
    }
  }

  lemma GraphsAt(raw: seq<RawOperation>, operations: seq<Operation>, i: nat)
    requires Retains(raw, operations) && i < |raw|
    ensures var g, w := GraphOf(operations), GraphOf(AsWritten(raw, operations));
            operations[i].id in g && operations[i].id in w
            && (g[operations[i].id] == w[operations[i].id] <==> IdleTail(raw[i].dependsOn))
  {
    WrittenIds(raw, operations);
    GraphFacts(operations);
    GraphFacts(AsWritten(raw, operations));
    assert operations[i] in operations && AsWritten(raw, operations)[i] in AsWritten(raw, operations);
    TailDecides(raw[i].dependsOn);
  }

  /** The cycle check sees the graph as it was written exactly when every operation has an idle tail. */
  lemma WrittenGraphIsChecked(raw: seq<RawOperation>, operations: seq<Operation>)
    requires Collect(raw) == Ok(operations)
    ensures |raw| == |operations|
    ensures GraphOf(operations) == GraphOf(AsWritten(raw, operations)) <==> forall o | o in raw :: IdleTail(o.dependsOn)
  {
    CollectRetains(raw);
    SameGraphs(raw, operations);
  }

  lemma SameGraphs(raw: seq<RawOperation>, operations: seq<Operation>)
    requires Retains(raw, operations)
    ensures GraphOf(operations) == GraphOf(AsWritten(raw, operations)) <==> forall o | o in raw :: IdleTail(o.dependsOn)
  {
    var g, w := GraphOf(operations), GraphOf(AsWritten(raw, operations));
    WrittenIds(raw, operations);
    GraphFacts(operations);
    GraphFacts(AsWritten(raw, operations));
    forall o | o in raw
      ensures g == w ==> IdleTail(o.dependsOn)
    {
      var i :| 0 <= i < |raw| && raw[i] == o;
      GraphsAt(raw, operations, i);
    }
    if forall o | o in raw :: IdleTail(o.dependsOn) {
      forall id | id in g
        ensures id in w && g[id] == w[id]
      {
        var o :| o in operations && o.id == id;
        var i :| 0 <= i < |operations| && operations[i] == o;
        GraphsAt(raw, operations, i);
        assert raw[i] in raw;
      }
    }
  }

  // ---------------------------------------------------------------- an accepted cycle

  ghost predicate IsId(s: string) {
    s != "" && Bounded(s, MAX_TEXT) == s
  }

  /** `a` names `c` eight times and then `b`, which names `a`. */
  function LateCycle(a: string, b: string, c: string, kind: string): seq<RawOperation> {
    [RawOperation(a, kind, [c, c, c, c, c, c, c, c, b]), RawOperation(b, kind, [a]), RawOperation(c, kind, [])]
  }

  function ThreeOperations(a: string, b: string, c: string, kind: string): seq<Operation> {
    [Operation(a, kind, [c]), Operation(b, kind, [a]), Operation(c, kind, [])]
  }

  lemma OneAlone(a: string)
    requires IsId(a)
    ensures Retained([a]) == [a]
  {
    assert Texts([a]) == [a] + Texts([]);
    assert Unique([a], MAX_OPERATION_KINDS) == [a] by { assert [a][..0] == []; }
  }

  lemma {:induction false} Repeated(c: string, n: nat)
    requires IsId(c)
    ensures Texts(seq(n, _ => c)) == seq(n, _ => c)
    ensures Unique(seq(n, _ => c), MAX_OPERATION_KINDS) == if n == 0 then [] else [c]
  {
    var all := seq(n, _ => c);
    if n > 0 {
      Repeated(c, n - 1);
      assert all[1..] == seq(n - 1, _ => c) == all[..n - 1];
      assert all == [c] + seq(n - 1, _ => c);
    }
  }

  lemma EightAlike(c: string, b: string)
    requires IsId(c)
    ensures Retained([c, c, c, c, c, c, c, c, b]) == [c]
  {
    var all := [c, c, c, c, c, c, c, c, b];
    assert all[..8] == seq(8, _ => c);
    Repeated(c, 8);
    Repeated(c, 1);
    assert [c] == seq(1, _ => c);
  }

  lemma OperationIs(id: string, kind: string, k: string, written: seq<string>)
    requires IsId(id) && NormalizeKind(kind) == Ok(k)
    ensures NormalizeOperation(RawOperation(id, kind, written)) == Ok(Operation(id, k, Retained(written)))
  {
  }

  lemma GatherThree(x: Operation, y: Operation, z: Operation)
    requires x.id != y.id && x.id != z.id && y.id != z.id
    ensures Gather([Ok(x), Ok(y), Ok(z)]) == Ok([x, y, z])
  {
    var results: Parsing := [Ok(x), Ok(y), Ok(z)];
    GatherNext(results, 0, []);
    assert Ids([x]) == {x.id} && Ids([x, y]) == {x.id, y.id};
    assert [] + [x] == [x] && [x] + [y] == [x, y] && [x, y] + [z] == [x, y, z];
    GatherNext(results, 1, [x]);
    GatherNext(results, 2, [x, y]);
    assert results[..3] == results;
  }

  lemma ParsedThree(raw: seq<RawOperation>, ops: seq<Operation>)
    requires |raw| == |ops| == 3
    requires NormalizeOperation(raw[0]) == Ok(ops[0]) && NormalizeOperation(raw[1]) == Ok(ops[1])
    requires NormalizeOperation(raw[2]) == Ok(ops[2])
    ensures Parsed(raw) == [Ok(ops[0]), Ok(ops[1]), Ok(ops[2])]
  {
  }

  lemma LateCycleIsCollected(a: string, b: string, c: string, kind: string, k: string)
    requires IsId(a) && IsId(b) && IsId(c) && a != b && a != c && b != c && NormalizeKind(kind) == Ok(k)
    ensures Collect(LateCycle(a, b, c, kind)) == Ok(ThreeOperations(a, b, c, k))
  {
    var raw := LateCycle(a, b, c, kind);
    EightAlike(c, b);
    OneAlone(a);
    var ops := ThreeOperations(a, b, c, k);
    OperationIs(a, kind, k, raw[0].dependsOn);
    OperationIs(b, kind, k, raw[1].dependsOn);
    OperationIs(c, kind, k, raw[2].dependsOn);
    ParsedThree(raw, ops);
    GatherThree(ops[0], ops[1], ops[2]);
  }

  lemma ThreePass(a: string, b: string, c: string, k: string)
    requires a != b && a != c && b != c
    ensures var ops := ThreeOperations(a, b, c, k);
            Distinct(ops) && CheckDependencies(ops, Ids(ops)).Ok? && !HasCycle(GraphOf(ops))
  {
    var ops := ThreeOperations(a, b, c, k);
    assert ops[0] in ops && ops[1] in ops && ops[2] in ops;
    DependenciesFacts(ops, Ids(ops));
    GraphFacts(ops);
    var rank := map[c := 0, a := 1, b := 2];
    assert IsRank(GraphOf(ops), rank);
    RankedHasNoCycle(GraphOf(ops));
  }

  lemma WrittenEdge(raw: seq<RawOperation>, ops: seq<Operation>, i: nat, j: nat)
    requires |raw| == |ops| && Distinct(ops) && i < |ops| && j < |ops| && ops[j].id != ""
    requires WrittenWithin(raw[i].dependsOn, |raw[i].dependsOn|, ops[j].id)
    ensures ops[j].id in Deps(GraphOf(AsWritten(raw, ops)), ops[i].id)
  {
    var ws := AsWritten(raw, ops);
    WrittenIds(raw, ops);
    GraphFacts(ws);
    TextsMembers(raw[i].dependsOn);
    assert ws[i] in ws;
  }

  lemma TwoEdgesCycle(g: Graph, x: string, y: string)
    requires y in Deps(g, x) && x in Deps(g, y)
    ensures HasCycle(g)
  {
    assert IsCycle(g, [x, y, x]);
  }

  /** A written cycle that the intent normaliser accepts, whatever the three names. */
  lemma LateCycleIsAccepted(a: string, b: string, c: string, kind: string, limit: int)
    requires IsId(a) && IsId(b) && IsId(c) && a != b && a != c && b != c && NormalizeKind(kind).Ok? && limit >= 3
    ensures var raw, ops := LateCycle(a, b, c, kind), ThreeOperations(a, b, c, NormalizeKind(kind).value);
            Collect(raw) == Ok(ops) && Intent(raw, limit) == Ok(ops) && HasCycle(GraphOf(AsWritten(raw, ops)))
  {
    var k := NormalizeKind(kind).value;
    var raw := LateCycle(a, b, c, kind);
    LateCycleIsCollected(a, b, c, kind, k);
    ThreePass(a, b, c, k);
    var ops := ThreeOperations(a, b, c, k);
    assert raw[0].dependsOn[8] == b && raw[1].dependsOn[0] == a;
    WrittenEdge(raw, ops, 0, 1);
    WrittenEdge(raw, ops, 1, 0);
    TwoEdgesCycle(GraphOf(AsWritten(raw, ops)), a, b);
  }

  /** There are such names. */
  lemma LateCycleExists()
    ensures var raw := LateCycle("a", "b", "c", "query");
            Intent(raw, 3).Ok? && |Intent(raw, 3).value| == |raw|
            && HasCycle(GraphOf(AsWritten(raw, Intent(raw, 3).value)))
  {
    BoundedFixpoint("a", MAX_TEXT);
    BoundedFixpoint("b", MAX_TEXT);
    BoundedFixpoint("c", MAX_TEXT);
    QueryIsKind();
    LateCycleIsAccepted("a", "b", "c", "query", 3);
  }

  lemma QueryIsKind()
    ensures NormalizeKind("query") == Ok("query")
  {
    BoundedFixpoint("query", MAX_TEXT);
    assert Underscored(Lower("query")) == "query";
  }
}
