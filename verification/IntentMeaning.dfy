/** What an accepted analysis intent is, stated on the operations as they are written. */
module IntentMeaning {
  import opened Wrappers
  import opened Text
  import opened DependencyGraph
  import opened AnalysisIntent
  import opened Places

  // ---------------------------------------------------------------- kinds

  /** The kind as it is compared: bounded, in lower case, with underscores for dashes and blanks. */
  ghost predicate Compared(kind: string, t: string) {
    var b := Bounded(kind, 96);
    |t| == |b| && forall i | 0 <= i < |b| ::
      t[i] == if b[i] == '-' || b[i] == ' ' then '_' else if 'A' <= b[i] <= 'Z' then (b[i] as int + 32) as char else b[i]
  }

  /** The words for each kind. */
  ghost predicate Means(t: string, k: string) {
    || (k == "query" && t in ["query", "select", "read"])
    || (k == "filter" && t in ["filter", "where"])
    || (k == "aggregate" && t in ["aggregate", "group", "group_by"])
    || (k == "trend" && t in ["trend", "time_series", "timeseries"])
    || (k == "compare" && t in ["compare", "comparison"])
    || (k == "spatial_operation" && t in ["spatial_operation", "spatial", "spatial_analysis"])
    || (k == "evidence" && t in ["evidence", "source", "provenance"])
  }

  function Canonical(t: string): string {
    if t in KIND_ALIASES then KIND_ALIASES[t] else t
  }

  lemma WordMeans(t: string, k: string)
    ensures Canonical(t) == k && k in SUPPORTED <==> Means(t, k)
  {
  }

  lemma KindMeans(kind: string, k: string)
    ensures NormalizeKind(kind) == Ok(k) <==> exists t :: Compared(kind, t) && Means(t, k)
  {
    var t := Underscored(Lower(Bounded(kind, MAX_TEXT)));
    assert Compared(kind, t);
    WordMeans(t, k);
    forall u | Compared(kind, u)
      ensures u == t
    {
    }
  }

  // ---------------------------------------------------------------- dependencies

  /** The first eight names as they are read. */
  function NamesOf(written: seq<string>): (r: seq<string>)
    ensures |r| == if |written| <= 8 then |written| else 8
    ensures forall i | 0 <= i < |r| :: r[i] == Bounded(written[i], 96)
  {
    seq(if |written| <= 8 then |written| else 8, i requires 0 <= i < |written| => Bounded(written[i], 96))
  }

  predicate Visible(name: string) {
    name != ""
  }

  /** Each name among the first eight once, in the order they first stand. */
  ghost predicate DependsOn(written: seq<string>, names: seq<string>) {
    exists at :: Firsts(NamesOf(written), Visible, at) && At(NamesOf(written), at, names)
  }

  lemma {:induction false} TextsAppend(values: seq<string>, v: string)
    ensures Texts(values + [v]) == Texts(values) + if Bounded(v, MAX_TEXT) == "" then [] else [Bounded(v, MAX_TEXT)]
  {
    if values == [] {
      assert Texts([v][1..]) == [];
    } else {
      assert (values + [v])[1..] == values[1..] + [v];
      TextsAppend(values[1..], v);
    }
  }

  ghost predicate OnceEach(names: seq<string>) {
    (forall i, j | 0 <= i < j < |names| :: names[i] != names[j]) && "" !in names
  }

  lemma {:induction false} UniqueAgain(names: seq<string>, limit: nat)
    requires OnceEach(names) && |names| <= limit
    ensures Unique(names, limit) == names
    decreases |names|
  {
    if names != [] {
      var init, last := names[..|names| - 1], names[|names| - 1];
      UniqueAgain(init, limit);
      assert last in names && last !in init && names == init + [last];
    }
  }

  lemma {:induction false} UniqueOnce(values: seq<string>, limit: nat)
    ensures OnceEach(Unique(values, limit)) && |Unique(values, limit)| <= limit
    decreases |values|
  {
    if values != [] {
      UniqueOnce(values[..|values| - 1], limit);
      var init := Unique(values[..|values| - 1], limit);
      assert forall i | 0 <= i < |init| :: init[i] in init;
    }
  }

  /** What the loops make of the first eight names, one name at a time. */
  lemma {:induction false} NamesKept(values: seq<string>) returns (at: seq<nat>)
    requires |values| <= 8
    ensures Firsts(NamesOf(values), Visible, at) && At(NamesOf(values), at, Unique(Texts(values), 8))
    decreases |values|
  {
    at := [];
    if values == [] {
      assert Unique([], 8) == [];
    } else {
      var n := |values| - 1;
      var init, keys := values[..n], NamesOf(values);
      assert values == init + [values[n]] && NamesOf(init) == keys[..n];
      at := NamesKept(init);
      TextsAppend(init, values[n]);
      TextsMembers(init);
      UniqueMembers(Texts(init), 8);
      at := NameAdded(keys, Texts(init), at);
    }
  }

  lemma UniqueLast(texts: seq<string>, last: string)
    requires |Unique(texts, 8)| < 8
    ensures var had := Unique(texts, 8);
            Unique(texts + if last == "" then [] else [last], 8) == if last != "" && last !in had then had + [last] else had
  {
    assert (texts + [last])[..|texts|] == texts && texts + [] == texts;
  }

  lemma OneMoreName(keys: seq<string>, had: seq<string>, at: seq<nat>)
    requires keys != [] && Firsts(keys[..|keys| - 1], Visible, at) && At(keys[..|keys| - 1], at, had)
    ensures var n := |keys| - 1;
            if keys[n] != "" && keys[n] !in had then Firsts(keys, Visible, at + [n]) && At(keys, at + [n], had + [keys[n]])
            else Firsts(keys, Visible, at) && At(keys, at, had)
  {
    var n := |keys| - 1;
    TakenIffThere(keys[..n], Visible, at, had, keys[n]);
    OneMoreKey(keys, Visible, at);
    OneMoreAt(keys, at, had);
    assert keys[n] in keys[..n] <==> !First(keys, n);
  }

  lemma NameAdded(keys: seq<string>, texts: seq<string>, at: seq<nat>) returns (more: seq<nat>)
    requires keys != [] && Firsts(keys[..|keys| - 1], Visible, at)
    requires At(keys[..|keys| - 1], at, Unique(texts, 8)) && |Unique(texts, 8)| < 8
    ensures var last := keys[|keys| - 1];
            Firsts(keys, Visible, more) && At(keys, more, Unique(texts + if last == "" then [] else [last], 8))
  {
    var last, had := keys[|keys| - 1], Unique(texts, 8);
    OneMoreName(keys, had, at);
    UniqueLast(texts, last);
    more := if last != "" && last !in had then at + [|keys| - 1] else at;
  }

  lemma RetainedMeans(written: seq<string>)
    ensures DependsOn(written, Retained(written))
  {
    var head := if |written| <= 8 then written else written[..8];
    assert NamesOf(written) == NamesOf(head);
    UniqueOnce(Texts(head), 8);
    UniqueAgain(Unique(Texts(head), 8), 8);
    var at := NamesKept(head);
  }

  // ---------------------------------------------------------------- the whole intent

  /** An operation is what is written: its id or else its kind, its kind, and the names it depends on. */
  ghost predicate OperationReads(raw: RawOperation, o: Operation) {
    && (exists t :: Compared(raw.kind, t) && Means(t, o.kind))
    && o.id == (if Bounded(raw.id, 96) == "" then o.kind else Bounded(raw.id, 96))
    && DependsOn(raw.dependsOn, o.dependsOn)
  }

  /** Two lists that name the same places are one list. */
  lemma OneList(written: seq<string>, a: seq<string>, b: seq<string>)
    requires DependsOn(written, a) && DependsOn(written, b)
    ensures a == b
  {
    var keys := NamesOf(written);
    var at :| Firsts(keys, Visible, at) && At(keys, at, a);
    var bt :| Firsts(keys, Visible, bt) && At(keys, bt, b);
    OneListOfPlaces(at, bt, |keys|);
  }

  lemma OperationMeans(raw: RawOperation, o: Operation)
    ensures NormalizeOperation(raw) == Ok(o) <==> OperationReads(raw, o)
  {
    KindMeans(raw.kind, o.kind);
    RetainedMeans(raw.dependsOn);
    if OperationReads(raw, o) {
      OneList(raw.dependsOn, o.dependsOn, Retained(raw.dependsOn));
    }
  }

  /** The operations are read one by one, each under its own id. */
  ghost predicate OperationsRead(raw: seq<RawOperation>, operations: seq<Operation>) {
    && |operations| == |raw| && Distinct(operations)
    && forall i | 0 <= i < |raw| :: OperationReads(raw[i], operations[i])
  }

  lemma {:induction false} GatherMeans(results: Parsing, operations: seq<Operation>)
    ensures Gather(results) == Ok(operations) <==>
            && |operations| == |results| && Distinct(operations)
            && forall i | 0 <= i < |results| :: results[i] == Ok(operations[i])
    decreases |results|
  {
    if results != [] && operations != [] {
      var m, n := |results| - 1, |operations| - 1;
      GatherMeans(results[..m], operations[..n]);
      assert operations == operations[..n] + [operations[n]];
      if Distinct(operations) {
        assert forall o | o in operations[..n] :: o.id != operations[n].id;
      }
    }
  }

  lemma CollectMeans(raw: seq<RawOperation>, operations: seq<Operation>)
    ensures Collect(raw) == Ok(operations) <==> OperationsRead(raw, operations)
  {
    GatherMeans(Parsed(raw), operations);
    forall i | 0 <= i < |raw| && i < |operations|
      ensures Parsed(raw)[i] == Ok(operations[i]) <==> OperationReads(raw[i], operations[i])
    {
      OperationMeans(raw[i], operations[i]);
    }
  }

  /** Each dependency is another operation of the intent, and no path of dependencies comes back to its start. */
  ghost predicate Schedulable(operations: seq<Operation>) {
    && (forall o, d | o in operations && d in o.dependsOn :: d != o.id && exists p | p in operations :: p.id == d)
    && !HasCycle(GraphOf(operations))
  }

  lemma DependenciesMean(operations: seq<Operation>)
    ensures CheckDependencies(operations, Ids(operations)).Ok? <==>
            forall o, d | o in operations && d in o.dependsOn :: d != o.id && exists p | p in operations :: p.id == d
  {
    DependenciesFacts(operations, Ids(operations));
  }

  /**
   An intent is accepted as these operations exactly when it has one to as many as the limit
   and at most 64, they are what is written, and they can be scheduled.
   */
  lemma IntentMeans(raw: seq<RawOperation>, limit: int, operations: seq<Operation>)
    ensures Intent(raw, limit) == Ok(operations) <==>
            1 <= |raw| <= limit && |raw| <= 64 && OperationsRead(raw, operations) && Schedulable(operations)
  {
    CollectMeans(raw, operations);
    DependenciesMean(operations);
  }
}
