/**
 Parsing a task plan: every result reference, however deeply nested in a step's arguments, must
 point to an earlier step the plan declares as a dependency.
 */
module PlanSchema {
  import opened Wrappers
  import opened Text
  import opened Json

  datatype PlanError =
    | NotAnObject | TextRequired(key: string) | StepsRequired | DuplicateStep(id: string) | UnknownTool(tool: string)
    | ArgsRequired(id: string) | BadDependencies(id: string) | BadReference | UnknownSource(id: string)
    | OwnResult(id: string) | Undeclared(id: string) | NotEarlier(id: string) | BadOutput | BadAssumptions
    | NoSteps | StepsInDirectAnswer | MessageRequired

  datatype Step = Step(id: string, tool: string, args: seq<Field>, dependsOn: seq<string>)

  datatype Plan = Plan(goal: string, steps: seq<Step>, output: seq<Field>, assumptions: seq<string>)

  datatype Ref = Ref(source: string, path: string)

  predicate Blank(s: string) {
    Strip(s) == ""
  }

  // ---------------------------------------------------------------- result references

  function SplitDots(s: string): (parts: seq<string>)
    ensures parts != []
  {
    if s == "" then [""]
    else
      var rest := SplitDots(s[1..]);
      if s[0] == '.' then [""] + rest else [[s[0]] + rest[0]] + rest[1..]
  }

  /** An object with either of the two reserved keys is meant as a reference. */
  predicate MeantAsRef(fields: seq<Field>) {
    IndexOf(fields, "$from") >= 0 || IndexOf(fields, "path") >= 0
  }

  /** A reference has the two keys and no other, a source, and a path without empty segments. */
  predicate IsRef(fields: seq<Field>) {
    && |fields| == 2 && IndexOf(fields, "$from") >= 0 && IndexOf(fields, "path") >= 0
    && (var source, path := ValueOf(fields, "$from"), ValueOf(fields, "path");
        && source.JStr? && !Blank(source.text) && path.JStr? && !Blank(path.text)
        && forall part | part in SplitDots(path.text) :: !Blank(part))
  }

  function RefOf(fields: seq<Field>): Ref
    requires IsRef(fields)
  {
    Ref(ValueOf(fields, "$from").text, ValueOf(fields, "path").text)
  }

  /** `_find_result_references`. */
  function FindRefs(v: Json): Result<seq<Ref>, PlanError>
    decreases v
  {
    match v
    case JObj(fields) =>
      if !MeantAsRef(fields) then RefsInFields(fields)
      else if IsRef(fields) then Ok([RefOf(fields)])
      else Err(BadReference)
    case JList(items) => RefsInItems(items)
    case _ => Ok([])
  }

  function RefsInFields(fields: seq<Field>): Result<seq<Ref>, PlanError>
    decreases fields
  {
    if fields == [] then Ok([])
    else
      var init :- RefsInFields(fields[..|fields| - 1]);
      var last :- FindRefs(fields[|fields| - 1].value);
      Ok(init + last)
  }

  function RefsInItems(items: seq<Json>): Result<seq<Ref>, PlanError>
    decreases items
  {
    if items == [] then Ok([])
    else
      var init :- RefsInItems(items[..|items| - 1]);
      var last :- FindRefs(items[|items| - 1]);
      Ok(init + last)
  }

  /** Is `fields` an object at some place inside `v`, at any depth? */
  ghost predicate Contains(v: Json, fields: seq<Field>)
    decreases v
  {
    match v
    case JObj(own) =>
      fields == own || exists f | f in own :: Contains(f.value, fields)
    case JList(items) => exists x | x in items :: Contains(x, fields)
    case _ => false
  }

  /** Every object meant as a reference is one. */
  ghost predicate RefsWellFormed(v: Json) {
    forall fields | Contains(v, fields) && MeantAsRef(fields) :: IsRef(fields)
  }

  /** The references are found exactly where they stand, and a malformed one is never passed over. */
  lemma {:induction false} RefsAreFound(v: Json)
    ensures FindRefs(v).Ok? <==> RefsWellFormed(v)
    ensures FindRefs(v).Ok? ==>
            forall r :: r in FindRefs(v).value <==> exists fields :: Contains(v, fields) && IsRef(fields) && RefOf(fields) == r
    decreases v, 1
  {
    match v
    case JObj(fields) =>
      if !MeantAsRef(fields) {
        FieldRefsAreFound(fields);
        assert !IsRef(fields);
        assert forall g :: Contains(v, g) <==> g == fields || exists f | f in fields :: Contains(f.value, g);
      } else if IsRef(fields) {
        assert forall g :: Contains(v, g) <==> g == fields;
      } else {
        assert Contains(v, fields);
      }
    case JList(items) =>
      ItemRefsAreFound(items);
      assert forall g :: Contains(v, g) <==> exists x | x in items :: Contains(x, g);
    case _ =>
  }

  /** The same for a list of values. */
  ghost predicate Found(r: Result<seq<Ref>, PlanError>, values: seq<Json>) {
    && (r.Ok? <==> forall x | x in values :: RefsWellFormed(x))
    && (r.Ok? ==> forall ref ::
          ref in r.value <==>
          exists x, fields :: x in values && Contains(x, fields) && IsRef(fields) && RefOf(fields) == ref)
  }

  function Values(fields: seq<Field>): (r: seq<Json>)
    ensures |r| == |fields| && forall i | 0 <= i < |r| :: r[i] == fields[i].value
  {
    seq(|fields|, i requires 0 <= i < |fields| => fields[i].value)
  }

  lemma {:induction false} FieldsFound(fields: seq<Field>)
    ensures Found(RefsInFields(fields), Values(fields))
    decreases fields, 0
  {
    if fields == [] {
      assert Values(fields) == [];
    } else {
      var init, last := fields[..|fields| - 1], fields[|fields| - 1];
      FieldsFound(init);
      RefsAreFound(last.value);
      assert Values(fields) == Values(init) + [last.value];
    }
  }

  lemma {:induction false} ItemRefsAreFound(items: seq<Json>)
    ensures Found(RefsInItems(items), items)
    decreases items, 0
  {
    if items != [] {
      var init, last := items[..|items| - 1], items[|items| - 1];
      ItemRefsAreFound(init);
      RefsAreFound(last);
      assert items == init + [last];
    }
  }

  lemma FieldRefsAreFound(fields: seq<Field>)
    ensures RefsInFields(fields).Ok? <==> forall f | f in fields :: RefsWellFormed(f.value)
    ensures RefsInFields(fields).Ok? ==> forall ref ::
              ref in RefsInFields(fields).value <==>
              exists f, g :: f in fields && Contains(f.value, g) && IsRef(g) && RefOf(g) == ref
    decreases fields, 1
  {
    FieldsFound(fields);
    assert forall f | f in fields :: f.value in Values(fields);
    assert forall x | x in Values(fields) :: exists f :: f in fields && f.value == x;
  }

  // ---------------------------------------------------------------- steps

  function TextAt(fields: seq<Field>, key: string): Result<string, PlanError> {
    var v := ValueOf(fields, key);
    if v.JStr? && !Blank(v.text) then Ok(v.text) else Err(TextRequired(key))
  }

  predicate AllTexts(items: seq<Json>) {
    forall v | v in items :: v.JStr?
  }

  function Texts(items: seq<Json>): (r: seq<string>)
    requires AllTexts(items)
    ensures |r| == |items|
  {
    seq(|items|, i requires 0 <= i < |items| => assert items[i] in items; items[i].text)
  }

  /** `value.get(key, default)` for a key that must hold a list of texts. */
  function TextList(fields: seq<Field>, key: string, error: PlanError): Result<seq<string>, PlanError> {
    match GetKey(fields, key)
    case None => Ok([])
    case Some(JList(items)) => if AllTexts(items) then Ok(Texts(items)) else Err(error)
    case _ => Err(error)
  }

  function Ids(steps: seq<Step>): (r: seq<string>)
    ensures |r| == |steps| && forall i | 0 <= i < |r| :: r[i] == steps[i].id
  {
    seq(|steps|, i requires 0 <= i < |steps| => steps[i].id)
  }

  function StepOf(item: Json, seen: seq<string>, allowed: set<string>): Result<Step, PlanError> {
    if !item.JObj? then Err(NotAnObject)
    else
      var id :- TextAt(item.fields, "id");
      if id in seen then Err(DuplicateStep(id))
      else
        var tool :- TextAt(item.fields, "tool");
        if tool !in allowed then Err(UnknownTool(tool))
        else
          var args := ValueOf(item.fields, "args");
          if !args.JObj? then Err(ArgsRequired(id))
          else
            var dependsOn :- TextList(item.fields, "depends_on", BadDependencies(id));
            Ok(Step(id, tool, args.fields, dependsOn))
  }

  function StepsOf(items: seq<Json>, allowed: set<string>): Result<seq<Step>, PlanError> {
    if items == [] then Ok([])
    else
      var init :- StepsOf(items[..|items| - 1], allowed);
      var step :- StepOf(items[|items| - 1], Ids(init), allowed);
      Ok(init + [step])
  }

  ghost predicate NoRepeats(ids: seq<string>) {
    forall i, j | 0 <= i < j < |ids| :: ids[i] != ids[j]
  }

  lemma {:induction false} StepsFacts(items: seq<Json>, allowed: set<string>)
    requires StepsOf(items, allowed).Ok?
    ensures var steps := StepsOf(items, allowed).value;
            |steps| == |items| && NoRepeats(Ids(steps)) && forall s | s in steps :: s.tool in allowed
    decreases |items|
  {
    if items != [] {
      StepsFacts(items[..|items| - 1], allowed);
      var init := StepsOf(items[..|items| - 1], allowed).value;
      var step := StepsOf(items, allowed).value[|init|];
      assert Ids(init + [step]) == Ids(init) + [step.id];
      assert forall i | 0 <= i < |init| :: Ids(init)[i] in Ids(init);
    }
  }

  // ---------------------------------------------------------------- references between steps

  /** The step's own position is `index`; positions of ids are looked up in the whole list. */
  function CheckRef(ids: seq<string>, index: nat, step: Step, ref: Ref): Result<(), PlanError> {
    if ref.source !in ids then Err(UnknownSource(ref.source))
    else if ref.source == step.id then Err(OwnResult(step.id))
    else if ref.source !in step.dependsOn then Err(Undeclared(step.id))
    else if PositionOf(ids, ref.source) >= index then Err(NotEarlier(ref.source))
    else Ok(())
  }

  /** `step_positions[id]`: where the id stands, the last time it does. */
  function PositionOf(ids: seq<string>, id: string): (i: nat)
    requires id in ids
    ensures i < |ids| && ids[i] == id
  {
    if ids[|ids| - 1] == id then |ids| - 1 else PositionOf(ids[..|ids| - 1], id)
  }

  function CheckRefs(ids: seq<string>, index: nat, step: Step, refs: seq<Ref>): Result<(), PlanError> {
    if refs == [] then Ok(())
    else
      var _ :- CheckRefs(ids, index, step, refs[..|refs| - 1]);
      CheckRef(ids, index, step, refs[|refs| - 1])
  }

  function CheckStep(ids: seq<string>, index: nat, step: Step): Result<(), PlanError> {
    var refs :- FindRefs(JObj(step.args));
    CheckRefs(ids, index, step, refs)
  }

  /** Every step of the first `n`, in order. */
  function CheckSteps(steps: seq<Step>, n: nat): Result<(), PlanError>
    requires n <= |steps|
  {
    if n == 0 then Ok(())
    else
      var _ :- CheckSteps(steps, n - 1);
      CheckStep(Ids(steps), n - 1, steps[n - 1])
  }

  /** A result reference occurs somewhere in the step's arguments. */
  ghost predicate Mentions(step: Step, ref: Ref) {
    exists fields :: Contains(JObj(step.args), fields) && IsRef(fields) && RefOf(fields) == ref
  }

  ghost predicate Available(steps: seq<Step>, i: nat, ref: Ref)
    requires i < |steps|
  {
    ref.source in steps[i].dependsOn && exists j | 0 <= j < i :: steps[j].id == ref.source
  }

  /** An executor that runs the steps in list order has, at step `i`, completed exactly these. */
  function Completed(steps: seq<Step>, i: nat): set<string>
    requires i <= |steps|
  {
    if i == 0 then {} else Completed(steps, i - 1) + {steps[i - 1].id}
  }

  lemma {:induction false} CompletedAre(steps: seq<Step>, i: nat)
    requires i <= |steps|
    ensures forall id :: id in Completed(steps, i) <==> exists j | 0 <= j < i :: steps[j].id == id
    decreases i
  {
    if i > 0 {
      CompletedAre(steps, i - 1);
    }
  }

  lemma {:induction false} RefsChecked(ids: seq<string>, index: nat, step: Step, refs: seq<Ref>)
    ensures CheckRefs(ids, index, step, refs).Ok? <==> forall r | r in refs :: CheckRef(ids, index, step, r).Ok?
    decreases |refs|
  {
    if refs != [] {
      RefsChecked(ids, index, step, refs[..|refs| - 1]);
      assert refs == refs[..|refs| - 1] + [refs[|refs| - 1]];
    }
  }

  lemma RefMeans(steps: seq<Step>, i: nat, ref: Ref)
    requires i < |steps| && NoRepeats(Ids(steps))
    ensures CheckRef(Ids(steps), i, steps[i], ref).Ok? <==> Available(steps, i, ref)
  {
    var ids := Ids(steps);
    if Available(steps, i, ref) {
      var j :| 0 <= j < i && steps[j].id == ref.source;
      assert ids[j] == ref.source && ids[j] != ids[i];
      assert PositionOf(ids, ref.source) == j;
    }
    if ref.source in ids && PositionOf(ids, ref.source) < i {
      assert steps[PositionOf(ids, ref.source)].id == ref.source;
    }
  }

  /** Every reference in the step's arguments is well formed, and available when the step runs. */
  ghost predicate StepSound(steps: seq<Step>, i: nat)
    requires i < |steps|
  {
    RefsWellFormed(JObj(steps[i].args)) && forall ref | Mentions(steps[i], ref) :: Available(steps, i, ref)
  }

  lemma StepMeans(steps: seq<Step>, i: nat)
    requires i < |steps| && NoRepeats(Ids(steps))
    ensures CheckStep(Ids(steps), i, steps[i]).Ok? <==> StepSound(steps, i)
  {
    RefsAreFound(JObj(steps[i].args));
    if RefsWellFormed(JObj(steps[i].args)) {
      var refs := FindRefs(JObj(steps[i].args)).value;
      RefsChecked(Ids(steps), i, steps[i], refs);
      forall ref
        ensures CheckRef(Ids(steps), i, steps[i], ref).Ok? <==> Available(steps, i, ref)
      {
        RefMeans(steps, i, ref);
      }
      assert forall ref :: ref in refs <==> Mentions(steps[i], ref);
    }
  }

  ghost predicate AllSound(steps: seq<Step>, n: nat)
    requires n <= |steps|
  {
    n == 0 || (AllSound(steps, n - 1) && StepSound(steps, n - 1))
  }

  /** The steps pass exactly when every reference in them is well formed and available in time. */
  lemma {:induction false} StepsMean(steps: seq<Step>, n: nat)
    requires n <= |steps| && NoRepeats(Ids(steps))
    ensures CheckSteps(steps, n).Ok? <==> AllSound(steps, n)
    decreases n
  {
    if n > 0 {
      StepsMean(steps, n - 1);
      StepMeans(steps, n - 1);
    }
  }

  lemma {:induction false} SoundAt(steps: seq<Step>, n: nat, i: nat)
    requires i < n <= |steps| && AllSound(steps, n)
    ensures StepSound(steps, i)
    decreases n
  {
    if i < n - 1 {
      SoundAt(steps, n - 1, i);
    }
  }

  /** When an executor that goes through the list reaches the step, its references are all at hand. */
  ghost predicate RunsInOrder(steps: seq<Step>, i: nat)
    requires i < |steps|
  {
    && RefsWellFormed(JObj(steps[i].args))
    && forall ref | Mentions(steps[i], ref) :: ref.source in steps[i].dependsOn && ref.source in Completed(steps, i)
  }

  lemma SoundRuns(steps: seq<Step>, i: nat)
    requires i < |steps|
    ensures StepSound(steps, i) <==> RunsInOrder(steps, i)
  {
    CompletedAre(steps, i);
  }

  // ---------------------------------------------------------------- the whole plan

  function CheckOutput(output: seq<Field>): Result<(), PlanError> {
    var availability, reason := ValueOf(output, "availability"), ValueOf(output, "reason_code");
    if availability != JNull && availability != JStr("available") && availability != JStr("unavailable") then Err(BadOutput)
    else if reason != JNull && !(reason.JStr? && |reason.text| <= 96) then Err(BadOutput)
    else if availability == JStr("unavailable") && !IsDirectAnswer(output) then Err(BadOutput)
    else Ok(())
  }

  predicate IsDirectAnswer(output: seq<Field>) {
    ValueOf(output, "type") == JStr("direct_answer")
  }

  /** `payload.get("message") or output.get("message")`. */
  function MessageOf(payload: seq<Field>, output: seq<Field>): Json {
    if Truthy(ValueOf(payload, "message")) then ValueOf(payload, "message") else ValueOf(output, "message")
  }

  /** A direct answer has a message and no steps; any other plan has steps. */
  function FinishOutput(payload: seq<Field>, output: seq<Field>, steps: seq<Step>): Result<seq<Field>, PlanError> {
    if !IsDirectAnswer(output) then (if steps == [] then Err(NoSteps) else Ok(output))
    else if steps != [] then Err(StepsInDirectAnswer)
    else
      var message := MessageOf(payload, output);
      if !message.JStr? || Blank(message.text) then Err(MessageRequired)
      else Ok(SetKey(output, "message", message))
  }

  /** `parse_task_plan`. */
  function Parse(payload: Json, allowed: set<string>): Result<Plan, PlanError> {
    if !payload.JObj? then Err(NotAnObject)
    else
      var goal :- TextAt(payload.fields, "goal");
      var items := ValueOf(payload.fields, "steps");
      if !items.JList? then Err(StepsRequired)
      else
        var steps :- StepsOf(items.items, allowed);
        var _ :- CheckSteps(steps, |steps|);
        ParseRest(payload.fields, goal, steps)
  }

  function ParseRest(payload: seq<Field>, goal: string, steps: seq<Step>): Result<Plan, PlanError> {
    var output := match GetKey(payload, "output") { case None => JObj([]) case Some(v) => v };
    if !output.JObj? then Err(BadOutput)
    else
      var _ :- CheckOutput(output.fields);
      var assumptions :- TextList(payload, "assumptions", BadAssumptions);
      var finished :- FinishOutput(payload, output.fields, steps);
      Ok(Plan(goal, steps, finished, assumptions))
  }

  /** In an accepted plan every reference, at any depth, is to a declared step completed before. */
  lemma AcceptedPlanRuns(payload: Json, allowed: set<string>)
    requires Parse(payload, allowed).Ok?
    ensures var steps := Parse(payload, allowed).value.steps;
            && NoRepeats(Ids(steps)) && (forall s | s in steps :: s.tool in allowed)
            && forall i | 0 <= i < |steps| :: RunsInOrder(steps, i)
  {
    var steps := Parse(payload, allowed).value.steps;
    StepsFacts(ValueOf(payload.fields, "steps").items, allowed);
    StepsMean(steps, |steps|);
    forall i | 0 <= i < |steps|
      ensures RunsInOrder(steps, i)
    {
      SoundAt(steps, |steps|, i);
      SoundRuns(steps, i);
    }
  }

  /** Exactly the direct answers have no steps, and each carries a message someone can read. */
  lemma DirectAnswersHaveNoSteps(payload: Json, allowed: set<string>)
    requires Parse(payload, allowed).Ok?
    ensures var plan := Parse(payload, allowed).value;
            (plan.steps == [] <==> IsDirectAnswer(plan.output)) && Presentable(plan.output) && !Blank(plan.goal)
  {
    var output := match GetKey(payload.fields, "output") { case None => JObj([]) case Some(v) => v };
    FinishedOutput(payload.fields, output.fields, Parse(payload, allowed).value.steps);
  }

  ghost predicate Presentable(output: seq<Field>) {
    && (IsDirectAnswer(output) ==> ValueOf(output, "message").JStr? && !Blank(ValueOf(output, "message").text))
    && (ValueOf(output, "availability") == JStr("unavailable") ==> IsDirectAnswer(output))
  }

  lemma FinishedOutput(payload: seq<Field>, output: seq<Field>, steps: seq<Step>)
    requires CheckOutput(output).Ok? && FinishOutput(payload, output, steps).Ok?
    ensures var o := FinishOutput(payload, output, steps).value;
            (steps == [] <==> IsDirectAnswer(o)) && Presentable(o)
  {
    var message := MessageOf(payload, output);
    SetKeyReads(output, "message", message, "message");
    SetKeyReads(output, "message", message, "type");
    SetKeyReads(output, "message", message, "availability");
  }

  // ---------------------------------------------------------------- the loops

  lemma {:induction false} FirstFailure(items: seq<Json>, n: nat, allowed: set<string>)
    requires n <= |items| && StepsOf(items[..n], allowed).Err?
    ensures StepsOf(items, allowed) == StepsOf(items[..n], allowed)
    decreases |items|
  {
    if n < |items| {
      assert items[..|items| - 1][..n] == items[..n];
      FirstFailure(items[..|items| - 1], n, allowed);
    } else {
      assert items[..n] == items;
    }
  }

  lemma {:induction false} FirstUnsound(steps: seq<Step>, n: nat, m: nat)
    requires n <= m <= |steps| && CheckSteps(steps, n).Err?
    ensures CheckSteps(steps, m) == CheckSteps(steps, n)
    decreases m
  {
    if n < m {
      FirstUnsound(steps, n, m - 1);
    }
  }

  method ParseSteps(items: seq<Json>, allowed: set<string>) returns (r: Result<seq<Step>, PlanError>)
    ensures r == StepsOf(items, allowed)
  {
    var steps: seq<Step>, seen: seq<string> := [], [];
    for i := 0 to |items|
      invariant StepsOf(items[..i], allowed) == Ok(steps) && seen == Ids(steps)
    {
      assert items[..i + 1][..i] == items[..i];
      var step := StepOf(items[i], seen, allowed);
      if step.Err? {
        FirstFailure(items, i + 1, allowed);
        return Err(step.error);
      }
      assert Ids(steps + [step.value]) == Ids(steps) + [step.value.id];
      steps := steps + [step.value];
      seen := seen + [step.value.id];
    }
    assert items[..|items|] == items;
    return Ok(steps);
  }

  method CheckStepReferences(ids: seq<string>, index: nat, step: Step) returns (r: Result<(), PlanError>)
    ensures r == CheckStep(ids, index, step)
  {
    var refs :- FindRefs(JObj(step.args));
    for k := 0 to |refs|
      invariant CheckRefs(ids, index, step, refs[..k]) == Ok(())
    {
      assert refs[..k + 1][..k] == refs[..k];
      var ok := CheckRef(ids, index, step, refs[k]);
      if ok.Err? {
        FirstBadRef(ids, index, step, refs, k + 1);
        return ok;
      }
    }
    assert refs[..|refs|] == refs;
    return Ok(());
  }

  lemma {:induction false} FirstBadRef(ids: seq<string>, index: nat, step: Step, refs: seq<Ref>, n: nat)
    requires n <= |refs| && CheckRefs(ids, index, step, refs[..n]).Err?
    ensures CheckRefs(ids, index, step, refs) == CheckRefs(ids, index, step, refs[..n])
    decreases |refs|
  {
    if n < |refs| {
      assert refs[..|refs| - 1][..n] == refs[..n];
      FirstBadRef(ids, index, step, refs[..|refs| - 1], n);
    } else {
      assert refs[..n] == refs;
    }
  }

  method CheckReferences(steps: seq<Step>) returns (r: Result<(), PlanError>)
    ensures r == CheckSteps(steps, |steps|)
  {
    var ids := Ids(steps);
    for i := 0 to |steps|
      invariant CheckSteps(steps, i) == Ok(())
    {
      var ok := CheckStepReferences(ids, i, steps[i]);
      if ok.Err? {
        FirstUnsound(steps, i + 1, |steps|);
        return ok;
      }
    }
    return Ok(());
  }

  method ParseTaskPlan(payload: Json, allowed: set<string>) returns (r: Result<Plan, PlanError>)
    ensures r == Parse(payload, allowed)
  {
    if !payload.JObj? {
      return Err(NotAnObject);
    }
    var goal :- TextAt(payload.fields, "goal");
    var items := ValueOf(payload.fields, "steps");
    if !items.JList? {
      return Err(StepsRequired);
    }
    var steps :- ParseSteps(items.items, allowed);
    var _ :- CheckReferences(steps);
    r := ParseRest(payload.fields, goal, steps);
  }
}
