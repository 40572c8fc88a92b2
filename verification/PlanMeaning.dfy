/**
 What an accepted plan says, measured against the payload it was parsed from: nothing is lost,
 nothing is made up, and everything that could be refused is named.
 */
module PlanMeaning {
  import opened Wrappers
  import opened Text
  import opened Json
  import opened PlanSchema

  // ---------------------------------------------------------------- references as they are written

  function Join(parts: seq<string>): string
    requires parts != []
  {
    if |parts| == 1 then parts[0] else parts[0] + "." + Join(parts[1..])
  }

  /** The segments are what stands between the dots: joined again they are the path, and none holds a dot. */
  lemma {:induction false} SplitDotsMeans(s: string)
    ensures Join(SplitDots(s)) == s
    ensures forall part | part in SplitDots(s) :: '.' !in part
  {
    if s != "" {
      var rest := SplitDots(s[1..]);
      SplitDotsMeans(s[1..]);
      if s[0] == '.' {
        assert ([""] + rest)[1..] == rest;
      } else {
        var parts := [[s[0]] + rest[0]] + rest[1..];
        assert parts[1..] == rest[1..];
        JoinHead(s[0], rest);
      }
    }
  }

  lemma JoinHead(c: char, rest: seq<string>)
    requires rest != []
    ensures Join([[c] + rest[0]] + rest[1..]) == [c] + Join(rest)
  {
    assert ([[c] + rest[0]] + rest[1..])[1..] == rest[1..];
  }

  /** Two entries and no other: a non-blank `$from`, and a `path` whose segments are not blank. */
  ghost predicate WrittenRef(fields: seq<Field>, source: string, path: string) {
    && (fields == [Field("$from", JStr(source)), Field("path", JStr(path))]
        || fields == [Field("path", JStr(path)), Field("$from", JStr(source))])
    && Strip(source) != "" && Strip(path) != "" && forall part | part in SplitDots(path) :: Strip(part) != ""
  }

  lemma KeysDiffer()
    ensures "$from" != "path"
  {
    assert |"$from"| == 5 && |"path"| == 4;
  }

  lemma TwoKeys(fields: seq<Field>, a: string, b: string)
    requires |fields| == 2 && a != b && IndexOf(fields, a) >= 0 && IndexOf(fields, b) >= 0
    ensures fields == [Field(a, ValueOf(fields, a)), Field(b, ValueOf(fields, b))]
            || fields == [Field(b, ValueOf(fields, b)), Field(a, ValueOf(fields, a))]
  {
  }

  lemma TwoFields(a: Field, b: Field)
    requires a.key != b.key
    ensures IndexOf([a, b], a.key) == 0 && IndexOf([a, b], b.key) == 1
  {
    IndexIs([a, b], a.key, 0);
    IndexIs([a, b], b.key, 1);
  }

  /** A result reference is recognised exactly as it is written. */
  lemma WrittenRefMeans(fields: seq<Field>, source: string, path: string)
    ensures WrittenRef(fields, source, path) <==> IsRef(fields) && RefOf(fields) == Ref(source, path)
  {
    KeysDiffer();
    if IsRef(fields) {
      TwoKeys(fields, "$from", "path");
    }
    if WrittenRef(fields, source, path) {
      TwoFields(Field("$from", JStr(source)), Field("path", JStr(path)));
      TwoFields(Field("path", JStr(path)), Field("$from", JStr(source)));
    }
  }

  // ---------------------------------------------------------------- steps as they are written

  /** The texts under a key that may be absent. */
  predicate TextsRead(fields: seq<Field>, key: string, texts: seq<string>) {
    match GetKey(fields, key)
    case None => texts == []
    case Some(v) => v.JList? && |v.items| == |texts| && forall i | 0 <= i < |texts| :: v.items[i] == JStr(texts[i])
  }

  /** The step says what the item says: id, tool, arguments and dependencies. */
  predicate StepReads(item: Json, s: Step) {
    && item.JObj?
    && ValueOf(item.fields, "id") == JStr(s.id) && Strip(s.id) != ""
    && ValueOf(item.fields, "tool") == JStr(s.tool) && Strip(s.tool) != ""
    && ValueOf(item.fields, "args") == JObj(s.args)
    && TextsRead(item.fields, "depends_on", s.dependsOn)
  }

  lemma TextListMeans(fields: seq<Field>, key: string, error: PlanError, texts: seq<string>)
    ensures TextList(fields, key, error) == Ok(texts) <==> TextsRead(fields, key, texts)
  {
    match GetKey(fields, key)
    case Some(JList(items)) =>
      if AllTexts(items) {
        assert forall i | 0 <= i < |items| :: items[i] in items && items[i] == JStr(Texts(items)[i]);
        if TextsRead(fields, key, texts) {
          assert Texts(items) == texts;
        }
      }
      if TextsRead(fields, key, texts) {
        assert AllTexts(items);
      }
    case _ =>
  }

  lemma StepMeansItem(item: Json, seen: seq<string>, allowed: set<string>, s: Step)
    ensures StepOf(item, seen, allowed) == Ok(s) <==> StepReads(item, s) && s.id !in seen && s.tool in allowed
  {
    if item.JObj? {
      TextListMeans(item.fields, "depends_on", BadDependencies(s.id), s.dependsOn);
    }
  }

  /** Item by item what is written, with allowed tools. */
  ghost predicate ItemsRead(items: seq<Json>, allowed: set<string>, steps: seq<Step>) {
    |steps| == |items| && forall i | 0 <= i < |items| :: StepReads(items[i], steps[i]) && steps[i].tool in allowed
  }

  ghost predicate DistinctIds(steps: seq<Step>) {
    forall i, j | 0 <= i < j < |steps| :: steps[i].id != steps[j].id
  }

  ghost predicate StepsRead(items: seq<Json>, allowed: set<string>, steps: seq<Step>) {
    ItemsRead(items, allowed, steps) && DistinctIds(steps)
  }

  lemma ItemsReadAgain(items: seq<Json>, allowed: set<string>, steps: seq<Step>)
    requires steps != [] && |steps| == |items|
    ensures ItemsRead(items, allowed, steps) <==>
            && ItemsRead(items[..|items| - 1], allowed, steps[..|steps| - 1])
            && StepReads(items[|items| - 1], steps[|steps| - 1]) && steps[|steps| - 1].tool in allowed
  {
    var n := |items| - 1;
    assert forall i | 0 <= i < n :: items[..n][i] == items[i] && steps[..n][i] == steps[i];
  }

  lemma DistinctAgain(steps: seq<Step>)
    requires steps != []
    ensures DistinctIds(steps) <==> DistinctIds(steps[..|steps| - 1]) && steps[|steps| - 1].id !in Ids(steps[..|steps| - 1])
  {
    var n := |steps| - 1;
    var ids := Ids(steps[..n]);
    assert forall i | 0 <= i < n :: ids[i] == steps[i].id && ids[i] in ids;
    if steps[n].id in ids {
      var k :| 0 <= k < n && ids[k] == steps[n].id;
      assert steps[k].id == steps[n].id;
    }
  }

  lemma StepsReadAgain(items: seq<Json>, allowed: set<string>, steps: seq<Step>)
    requires steps != [] && |steps| == |items|
    ensures StepsRead(items, allowed, steps) <==>
            && StepsRead(items[..|items| - 1], allowed, steps[..|steps| - 1])
            && StepReads(items[|items| - 1], steps[|steps| - 1]) && steps[|steps| - 1].tool in allowed
            && steps[|steps| - 1].id !in Ids(steps[..|steps| - 1])
  {
    ItemsReadAgain(items, allowed, steps);
    DistinctAgain(steps);
  }

  /** The steps are accepted exactly as they are written. */
  lemma {:induction false} StepsMeanItems(items: seq<Json>, allowed: set<string>, steps: seq<Step>)
    ensures StepsOf(items, allowed) == Ok(steps) <==> StepsRead(items, allowed, steps)
    decreases |items|
  {
    if items != [] && steps != [] {
      var init, last := steps[..|steps| - 1], steps[|steps| - 1];
      StepsMeanItems(items[..|items| - 1], allowed, init);
      StepMeansItem(items[|items| - 1], Ids(init), allowed, last);
      assert steps == init + [last];
      if |steps| == |items| {
        StepsReadAgain(items, allowed, steps);
      }
      LastStep(items, allowed, init, last);
    }
  }

  lemma LastStep(items: seq<Json>, allowed: set<string>, init: seq<Step>, last: Step)
    requires items != []
    ensures StepsOf(items, allowed) == Ok(init + [last]) <==>
            && StepsOf(items[..|items| - 1], allowed) == Ok(init)
            && StepOf(items[|items| - 1], Ids(init), allowed) == Ok(last)
    ensures StepsOf(items, allowed).Ok? ==> |StepsOf(items, allowed).value| == |items|
  {
    var r := StepsOf(items, allowed);
    if r.Ok? {
      StepsFacts(items, allowed);
      var i := StepsOf(items[..|items| - 1], allowed).value;
      var s := StepOf(items[|items| - 1], Ids(i), allowed).value;
      assert r.value == i + [s];
      if r.value == init + [last] {
        assert (i + [s])[..|i|] == i && (init + [last])[..|init|] == init;
        assert (i + [s])[|i|] == s && (init + [last])[|init|] == last;
      }
    }
  }

  // ---------------------------------------------------------------- references against the payload

  /** Somewhere in the arguments written in the item stands this object. */
  ghost predicate Holds(item: Json, fields: seq<Field>) {
    item.JObj? && PlanSchema.Contains(ValueOf(item.fields, "args"), fields)
  }

  predicate HasKey(fields: seq<Field>, key: string) {
    IndexOf(fields, key) >= 0
  }

  /** The item lists the text among its dependencies, and the text is the id of an item before it. */
  ghost predicate DeclaredEarlier(items: seq<Json>, i: nat, source: string)
    requires i < |items|
  {
    && items[i].JObj? && ValueOf(items[i].fields, "depends_on").JList?
    && JStr(source) in ValueOf(items[i].fields, "depends_on").items
    && exists j | 0 <= j < i :: items[j].JObj? && ValueOf(items[j].fields, "id") == JStr(source)
  }

  /** Each object in the arguments with a reserved key is a reference, to a declared, earlier item. */
  ghost predicate ItemSound(items: seq<Json>, i: nat)
    requires i < |items|
  {
    forall g | Holds(items[i], g) && (HasKey(g, "$from") || HasKey(g, "path")) ::
      exists source, path :: WrittenRef(g, source, path) && DeclaredEarlier(items, i, source)
  }

  lemma DependencyRead(fields: seq<Field>, texts: seq<string>, source: string)
    requires TextsRead(fields, "depends_on", texts)
    ensures source in texts <==> ValueOf(fields, "depends_on").JList? && JStr(source) in ValueOf(fields, "depends_on").items
  {
    if GetKey(fields, "depends_on").Some? {
      var items := ValueOf(fields, "depends_on").items;
      if JStr(source) in items {
        var k :| 0 <= k < |items| && items[k] == JStr(source);
        assert texts[k] == source;
      }
      if source in texts {
        var k :| 0 <= k < |texts| && texts[k] == source;
        assert items[k] in items;
      }
    }
  }

  lemma AvailableIsDeclared(items: seq<Json>, allowed: set<string>, steps: seq<Step>, i: nat, ref: Ref)
    requires StepsRead(items, allowed, steps) && i < |steps|
    ensures Available(steps, i, ref) <==> DeclaredEarlier(items, i, ref.source)
  {
    DependencyRead(items[i].fields, steps[i].dependsOn, ref.source);
    assert forall j | 0 <= j < |items| :: StepReads(items[j], steps[j]);
  }

  lemma SoundIsSound(items: seq<Json>, allowed: set<string>, steps: seq<Step>, i: nat)
    requires StepsRead(items, allowed, steps) && i < |steps|
    ensures StepSound(steps, i) <==> ItemSound(items, i)
  {
    var args := JObj(steps[i].args);
    assert StepReads(items[i], steps[i]);
    if StepSound(steps, i) {
      forall g | Holds(items[i], g) && (HasKey(g, "$from") || HasKey(g, "path"))
        ensures exists source, path :: WrittenRef(g, source, path) && DeclaredEarlier(items, i, source)
      {
        assert IsRef(g) && Mentions(steps[i], RefOf(g));
        WrittenRefMeans(g, RefOf(g).source, RefOf(g).path);
        AvailableIsDeclared(items, allowed, steps, i, RefOf(g));
      }
    }
    if ItemSound(items, i) {
      forall g | PlanSchema.Contains(args, g) && MeantAsRef(g)
        ensures IsRef(g) && Available(steps, i, RefOf(g))
      {
        assert Holds(items[i], g);
        var source, path :| WrittenRef(g, source, path) && DeclaredEarlier(items, i, source);
        WrittenRefMeans(g, source, path);
        AvailableIsDeclared(items, allowed, steps, i, RefOf(g));
      }
    }
  }

  lemma {:induction false} AllSoundMeans(steps: seq<Step>, n: nat)
    requires n <= |steps|
    ensures AllSound(steps, n) <==> forall i | 0 <= i < n :: StepSound(steps, i)
    decreases n
  {
    if n > 0 {
      AllSoundMeans(steps, n - 1);
    }
  }

  // ---------------------------------------------------------------- the rest of the payload

  predicate TextThere(fields: seq<Field>, key: string) {
    ValueOf(fields, key).JStr? && Strip(ValueOf(fields, key).text) != ""
  }

  /** The payload's own output, an empty one when there is none. */
  function OutputOf(payload: seq<Field>): Json {
    match GetKey(payload, "output")
    case None => JObj([])
    case Some(v) => v
  }

  predicate Direct(output: seq<Field>) {
    ValueOf(output, "type") == JStr("direct_answer")
  }

  /** Known availability, a short reason, and nothing unavailable but a direct answer. */
  predicate OutputAcceptable(output: seq<Field>) {
    && ValueOf(output, "availability") in {JNull, JStr("available"), JStr("unavailable")}
    && (ValueOf(output, "reason_code") == JNull
        || (ValueOf(output, "reason_code").JStr? && |ValueOf(output, "reason_code").text| <= 96))
    && (ValueOf(output, "availability") == JStr("unavailable") ==> Direct(output))
  }

  /** The message of a direct answer: the payload's own, or the one in its output. */
  function Message(payload: seq<Field>, output: seq<Field>): Json {
    if Truthy(ValueOf(payload, "message")) then ValueOf(payload, "message") else ValueOf(output, "message")
  }

  /** A direct answer has a message to show and no steps; every other plan has steps. */
  predicate Finishable(payload: seq<Field>, output: seq<Field>, count: nat) {
    if Direct(output) then count == 0 && Message(payload, output).JStr? && Strip(Message(payload, output).text) != ""
    else count > 0
  }

  /** The output kept: the payload's own, with the message of a direct answer set. */
  ghost predicate OutputKept(payload: seq<Field>, kept: seq<Field>) {
    && OutputOf(payload).JObj?
    && (var own := OutputOf(payload).fields;
        if Direct(own)
        then GetKey(kept, "message") == Some(Message(payload, own))
             && forall key :: key != "message" ==> GetKey(kept, key) == GetKey(own, key)
        else kept == own)
  }

  lemma CheckOutputMeans(output: seq<Field>)
    ensures CheckOutput(output).Ok? <==> OutputAcceptable(output)
  {
  }

  /** Every part of the plan is the payload's own. */
  ghost predicate PlanReads(payload: seq<Field>, allowed: set<string>, plan: Plan) {
    && ValueOf(payload, "goal") == JStr(plan.goal) && ValueOf(payload, "steps").JList?
    && StepsRead(ValueOf(payload, "steps").items, allowed, plan.steps)
    && TextsRead(payload, "assumptions", plan.assumptions)
    && OutputKept(payload, plan.output)
  }

  lemma RestMeans(payload: seq<Field>, goal: string, steps: seq<Step>)
    ensures ParseRest(payload, goal, steps).Ok? <==>
            && OutputOf(payload).JObj? && OutputAcceptable(OutputOf(payload).fields)
            && Finishable(payload, OutputOf(payload).fields, |steps|)
            && exists texts :: TextsRead(payload, "assumptions", texts)
    ensures ParseRest(payload, goal, steps).Ok? ==>
              var plan := ParseRest(payload, goal, steps).value;
              && plan.goal == goal && plan.steps == steps
              && TextsRead(payload, "assumptions", plan.assumptions) && OutputKept(payload, plan.output)
  {
    if OutputOf(payload).JObj? {
      var own := OutputOf(payload).fields;
      CheckOutputMeans(own);
      forall texts
        ensures TextList(payload, "assumptions", BadAssumptions) == Ok(texts) <==> TextsRead(payload, "assumptions", texts)
      {
        TextListMeans(payload, "assumptions", BadAssumptions, texts);
      }
      forall key
        ensures GetKey(SetKey(own, "message", Message(payload, own)), key)
                == if key == "message" then Some(Message(payload, own)) else GetKey(own, key)
      {
        SetKeyReads(own, "message", Message(payload, own), key);
      }
    }
  }

  // ---------------------------------------------------------------- the whole plan

  /** The items can be read as steps, and each one's references are sound. */
  ghost predicate ItemsAcceptable(items: seq<Json>, allowed: set<string>) {
    (exists steps :: StepsRead(items, allowed, steps)) && forall i | 0 <= i < |items| :: ItemSound(items, i)
  }

  lemma ItemsMean(items: seq<Json>, allowed: set<string>)
    ensures (StepsOf(items, allowed).Ok? && CheckSteps(StepsOf(items, allowed).value, |StepsOf(items, allowed).value|).Ok?)
            <==> ItemsAcceptable(items, allowed)
    ensures StepsOf(items, allowed).Ok? ==> |StepsOf(items, allowed).value| == |items|
  {
    forall steps
      ensures StepsOf(items, allowed) == Ok(steps) <==> StepsRead(items, allowed, steps)
    {
      StepsMeanItems(items, allowed, steps);
    }
    if StepsOf(items, allowed).Ok? {
      var steps := StepsOf(items, allowed).value;
      StepsFacts(items, allowed);
      StepsMean(steps, |steps|);
      AllSoundMeans(steps, |steps|);
      forall i | 0 <= i < |steps|
        ensures StepSound(steps, i) <==> ItemSound(items, i)
      {
        SoundIsSound(items, allowed, steps, i);
      }
    }
  }

  /** All that a plan payload has to meet. */
  ghost predicate Acceptable(payload: Json, allowed: set<string>) {
    && payload.JObj? && TextThere(payload.fields, "goal") && ValueOf(payload.fields, "steps").JList?
    && ItemsAcceptable(ValueOf(payload.fields, "steps").items, allowed)
    && OutputOf(payload.fields).JObj? && OutputAcceptable(OutputOf(payload.fields).fields)
    && Finishable(payload.fields, OutputOf(payload.fields).fields, |ValueOf(payload.fields, "steps").items|)
    && exists texts :: TextsRead(payload.fields, "assumptions", texts)
  }

  /**
   A payload is accepted if and only if it is acceptable as it is written, and the plan then
   says what the payload says: the same goal, steps with their arguments, assumptions, output.
   */
  lemma ParseMeans(payload: Json, allowed: set<string>)
    ensures Parse(payload, allowed).Ok? <==> Acceptable(payload, allowed)
    ensures Parse(payload, allowed).Ok? ==> PlanReads(payload.fields, allowed, Parse(payload, allowed).value)
  {
    if payload.JObj? && TextThere(payload.fields, "goal") && ValueOf(payload.fields, "steps").JList? {
      var items := ValueOf(payload.fields, "steps").items;
      ItemsMean(items, allowed);
      if StepsOf(items, allowed).Ok? {
        var steps := StepsOf(items, allowed).value;
        StepsMeanItems(items, allowed, steps);
        RestMeans(payload.fields, ValueOf(payload.fields, "goal").text, steps);
      }
    }
  }

  /**
   In an accepted plan each object written in the arguments of an item with one of the two
   reserved keys is a reference, to an item before it that it lists among its dependencies.
   */
  lemma AcceptedReferencesAreEarlier(payload: Json, allowed: set<string>, i: nat, g: seq<Field>)
    requires Parse(payload, allowed).Ok? && i < |ValueOf(payload.fields, "steps").items|
    requires Holds(ValueOf(payload.fields, "steps").items[i], g) && (HasKey(g, "$from") || HasKey(g, "path"))
    ensures exists source, path :: WrittenRef(g, source, path) && DeclaredEarlier(ValueOf(payload.fields, "steps").items, i, source)
  {
    ParseMeans(payload, allowed);
    assert ItemSound(ValueOf(payload.fields, "steps").items, i);
  }
}
