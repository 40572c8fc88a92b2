/**
 Bounded planner context: sections are compacted, omitted and finally cut until the rendered
 text is within its budget. The planner's sections share one mutable object, the request,
 with the full sections they were copied from.
 */
module ContextBudget {
  import opened Wrappers
  import opened Json
  import opened JsonPicks

  const CONTEXT_SCHEMA := "spatial-agent.context.v1"
  const ELLIPSIS := "\U{2026}"
  const OMITTED := JObj([Field("omitted", JBool(true)), Field("reason", JStr("context_budget"))])
  const REQUEST := "request"
  const TEMPLATES := "workflow_templates"

  /** Omitted in this order, the most advisory first. */
  const OMISSIONS := [
    "memory", "capability_discovery", "request_understanding", "available_tools", "workflow", "planner",
    "capability_catalog", "workflow_selection", "workflow_templates"]

  const TEMPLATE_KEYS := [
    "id", "goal_template", "allowed_tools", "result_types", "required_constraints", "evidence_options",
    "max_steps", "has_blueprint", "step_blueprint", "output_type"]
  const STEP_KEYS := ["id", "tool", "depends_on", "arg_keys"]

  type Sections = seq<Field>

  /** `_render`, of the request section and all others. */
  function Rendered(request: Sections, others: Sections): (r: string)
    ensures r != ""
  {
    Render(JObj([
      Field("schema_version", JStr(CONTEXT_SCHEMA)),
      Field("sections", JObj(others + [Field(REQUEST, JObj(request))]))]))
  }

  function Fallback(): string {
    Rendered([Field("omitted", JBool(true)), Field("reason", JStr("context_budget"))], [])
  }

  // ---------------------------------------------------------------- compact templates

  function PickTemplate(template: seq<Field>): seq<Field> {
    var p := Project(template, TEMPLATE_KEYS);
    var steps := ValueOf(p, "step_blueprint");
    if steps.JList? then SetKey(p, "step_blueprint", JList(ProjectAll(steps.items, STEP_KEYS))) else p
  }

  function PickTemplates(templates: seq<Json>): (r: seq<Json>)
    ensures |r| <= |templates|
  {
    if templates == [] then []
    else
      var init, last := PickTemplates(templates[..|templates| - 1]), templates[|templates| - 1];
      if last.JObj? then init + [JObj(PickTemplate(last.fields))] else init
  }

  function DeclaredCount(catalog: seq<Field>, listed: nat): int {
    match GetKey(catalog, "template_count")
    case Some(JInt(n)) => n
    case _ => listed
  }

  function CompactCatalog(catalog: seq<Field>, templates: seq<Json>): seq<Field> {
    var compact := PickTemplates(templates);
    var declared := DeclaredCount(catalog, |templates|);
    var omitted := if declared > |compact| then declared - |compact| else 0;
    SetKey(SetKey(SetKey(SetKey(
      catalog, "templates", JList(compact)), "returned_count", JInt(|compact|)), "omitted_count", JInt(omitted)),
      "compacted", JBool(true))
  }

  /** `_compact_workflow_templates`. */
  function CompactTemplates(value: Json): Json {
    match value
    case JObj(fields) =>
      (match GetKey(fields, "templates")
       case Some(JList(templates)) => JObj(CompactCatalog(fields, templates))
       case _ => value)
    case _ => value
  }

  // ---------------------------------------------------------------- cutting the request

  /** The texts of the request section are strings where they are there at all. */
  predicate RequestOk(request: Sections) {
    && (IndexOf(request, "original") >= 0 ==> ValueOf(request, "original").JStr?)
    && (IndexOf(request, "resolved") >= 0 ==> ValueOf(request, "resolved").JStr?)
  }

  /** `request.get(key, "")`. */
  function TextAt(request: Sections, key: string): string {
    match ValueOf(request, key)
    case JStr(s) => s
    case _ => ""
  }

  function CutText(s: string, keep: nat): string {
    if |s| > keep then s[..keep] + ELLIPSIS else s
  }

  function CutRequest(request: Sections, keep: nat): Sections {
    var r := SetKey(request, "original", JStr(CutText(TextAt(request, "original"), keep)));
    SetKey(r, "resolved", JStr(CutText(TextAt(r, "resolved"), keep)))
  }

  function Upto(s: string, n: nat): string {
    if n < |s| then s[..n] else s
  }

  /** The request cut to a common prefix length, with nothing but its three own keys. */
  function Prefixed(request: Sections, n: nat): Sections {
    [Field("original", JStr(Upto(TextAt(request, "original"), n))),
     Field("resolved", JStr(Upto(TextAt(request, "resolved"), n))),
     Field("is_follow_up", FollowUp(request))]
  }

  function FollowUp(request: Sections): Json {
    match GetKey(request, "is_follow_up")
    case Some(v) => v
    case None => JBool(false)
  }

  function Longest(request: Sections): nat {
    var a, b := |TextAt(request, "original")|, |TextAt(request, "resolved")|;
    if a >= b then a else b
  }

  /**
   How sections are rendered, what is rendered when nothing fits, the room there is, how
   templates are compacted, and the order in which sections are given up.
   */
  datatype Budget = Budget(
    render: (Sections, Sections) -> string, fallback: string, max: nat, compact: Json -> Json, omissions: seq<string>)

  predicate Within(budget: Budget, request: Sections, others: Sections) {
    |budget.render(request, others)| <= budget.max
  }

  function PrefixFits(budget: Budget, request: Sections, others: Sections): nat -> bool {
    (n: nat) => Within(budget, Prefixed(request, n), others)
  }

  // ---------------------------------------------------------------- the stages

  /** Sections are omitted one by one until the text fits; the flag says whether any was. */
  function Omitting(budget: Budget, request: Sections, others: Sections, names: seq<string>): (Sections, bool)
    decreases |names|
  {
    if names == [] || Within(budget, request, others) then (others, false)
    else if IndexOf(others, names[0]) < 0 then Omitting(budget, request, others, names[1..])
    else (Omitting(budget, request, SetKey(others, names[0], OMITTED), names[1..]).0, true)
  }

  /** What becomes of the sections: `shared` is the request object both sides may hold. */
  datatype Outcome = Outcome(text: string, truncated: bool, request: Sections, others: Sections, shared: Sections)

  function Keep(max: nat): nat {
    if max / 3 > 40 then max / 3 else 40
  }

  /** The largest prefix length that fits, or None. */
  function BestPrefix(fits: nat -> bool, n: nat): (r: Option<nat>)
    ensures r.Some? ==> r.value <= n && fits(r.value)
  {
    if fits(n) then Some(n) else if n == 0 then None else BestPrefix(fits, n - 1)
  }

  function PrefixStage(budget: Budget, cut: Sections, others: Sections): Outcome {
    match BestPrefix(PrefixFits(budget, cut, others), Longest(cut))
    case None => Outcome(budget.fallback, true, cut, others, cut)
    case Some(n) => Outcome(budget.render(Prefixed(cut, n), others), true, Prefixed(cut, n), others, cut)
  }

  function CutStage(budget: Budget, request: Sections, others: Sections): Outcome {
    var cut := CutRequest(request, Keep(budget.max));
    if Within(budget, cut, others) then Outcome(budget.render(cut, others), true, cut, others, cut)
    else PrefixStage(budget, cut, others)
  }

  function OmitStage(budget: Budget, request: Sections, others: Sections, truncated: bool): Outcome {
    var (less, any) := Omitting(budget, request, others, budget.omissions);
    if Within(budget, request, less) then Outcome(budget.render(request, less), truncated || any, request, less, request)
    else CutStage(budget, request, less)
  }

  /** Does compacting the templates change anything? */
  predicate Compactable(budget: Budget, others: Sections) {
    var v := GetKey(others, TEMPLATES);
    v.Some? && budget.compact(v.value) != v.value
  }

  function Compacted(budget: Budget, others: Sections): Sections {
    SetKey(others, TEMPLATES, budget.compact(ValueOf(others, TEMPLATES)))
  }

  /** `_bounded_render`. */
  function Bounded(budget: Budget, request: Sections, others: Sections): Outcome {
    if Within(budget, request, others) then Outcome(budget.render(request, others), false, request, others, request)
    else if !Compactable(budget, others) then OmitStage(budget, request, others, false)
    else
      var compact := Compacted(budget, others);
      if Within(budget, request, compact) then Outcome(budget.render(request, compact), true, request, compact, request)
      else OmitStage(budget, request, compact, true)
  }

  /** The planner's budget: compact JSON. */
  function Planner(max: nat): Budget {
    Budget(Rendered, Fallback(), max, CompactTemplates, OMISSIONS)
  }

  // ---------------------------------------------------------------- sizes

  /** What a rendered context costs beside its request section. */
  function Overhead(others: Sections): nat {
    FieldCost(Field("schema_version", JStr(CONTEXT_SCHEMA)), 0)
    + |RenderFields(others)| + |Comma(|others| + 1)| + |Quote(REQUEST)| + |Quote("sections")| + 7
  }

  lemma RenderedSize(request: Sections, others: Sections)
    ensures |Rendered(request, others)| == Overhead(others) + Size(JObj(request))
  {
    var schema := Field("schema_version", JStr(CONTEXT_SCHEMA));
    var sections := Field("sections", JObj(others + [Field(REQUEST, JObj(request))]));
    AppendSize(others, Field(REQUEST, JObj(request)));
    AppendSize([schema], sections);
    assert [schema] + [sections] == [schema, sections];
  }

  lemma UptoSize(s: string, m: nat, n: nat)
    requires m <= n
    ensures Size(JStr(Upto(s, m))) <= Size(JStr(Upto(s, n)))
  {
    var t := Upto(s, n);
    if m < |t| {
      EscapedPrefix(t, m);
      assert t[..m] == Upto(s, m);
    } else {
      assert Upto(s, m) == t;
    }
  }

  /** A longer request prefix never renders shorter. */
  lemma LongerPrefixCostsMore(request: Sections, others: Sections, m: nat, n: nat)
    requires m <= n
    ensures |Rendered(Prefixed(request, m), others)| <= |Rendered(Prefixed(request, n), others)|
  {
    var a, b := Prefixed(request, m), Prefixed(request, n);
    UptoSize(TextAt(request, "original"), m, n);
    UptoSize(TextAt(request, "resolved"), m, n);
    FieldsGrow(a, b);
    RenderedSize(a, others);
    RenderedSize(b, others);
  }

  lemma PlainField(f: Field, position: nat)
    requires forall i | 0 <= i < |f.key| :: f.key[i] >= ' ' && f.key[i] != '\"' && f.key[i] != '\\'
    ensures FieldCost(f, position) <= |f.key| + 4 + Size(f.value)
  {
    PlainSize(f.key);
  }

  lemma FallbackFits()
    ensures |Fallback()| <= 512
  {
    var a, b := Field("omitted", JBool(true)), Field("reason", JStr("context_budget"));
    AppendSize([a], b);
    assert [a] + [b] == [a, b];
    PlainField(a, 0);
    PlainField(b, 1);
    PlainSize("context_budget");
    RenderedSize([a, b], []);
    OverheadOfNone();
  }

  lemma OverheadOfNone()
    ensures Overhead([]) <= 100
  {
    PlainField(Field("schema_version", JStr(CONTEXT_SCHEMA)), 0);
    PlainSize(CONTEXT_SCHEMA);
    PlainSize(REQUEST);
    PlainSize("sections");
  }

  // ---------------------------------------------------------------- the guarantees

  lemma {:induction false} BestPrefixIsLargest(fits: nat -> bool, n: nat)
    ensures BestPrefix(fits, n).None? ==> forall m | 0 <= m <= n :: !fits(m)
    ensures BestPrefix(fits, n).Some? ==> forall m | BestPrefix(fits, n).value < m <= n :: !fits(m)
    decreases n
  {
    if !fits(n) && n > 0 {
      BestPrefixIsLargest(fits, n - 1);
    }
  }

  /** The text is within the room, unless even the fallback is not. */
  lemma OutcomeFits(budget: Budget, request: Sections, others: Sections)
    requires |budget.fallback| <= budget.max
    ensures |Bounded(budget, request, others).text| <= budget.max
  {
  }

  /** With a budget of at least 512 characters the rendered context never exceeds it. */
  lemma BoundedFits(request: Sections, others: Sections, max: nat)
    requires max >= 512
    ensures |Bounded(Planner(max), request, others).text| <= max
  {
    FallbackFits();
    OutcomeFits(Planner(max), request, others);
  }

  /** The text is the serialisation of the returned sections, except for the last fallback. */
  lemma TextIsSections(budget: Budget, request: Sections, others: Sections)
    ensures var o := Bounded(budget, request, others);
            o.text == budget.render(o.request, o.others)
            || (o.text == budget.fallback
                && forall n | 0 <= n <= Longest(o.request) :: !PrefixFits(budget, o.request, o.others)(n))
  {
    var o := Bounded(budget, request, others);
    BestPrefixIsLargest(PrefixFits(budget, o.shared, o.others), Longest(o.shared));
  }

  lemma CutShares(budget: Budget, request: Sections, others: Sections)
    ensures CutStage(budget, request, others).shared == CutRequest(request, Keep(budget.max))
  {
  }

  /** The request object both sides may hold is left alone, or its two texts are cut once. */
  lemma SharedIsAtMostCut(budget: Budget, request: Sections, others: Sections)
    ensures Bounded(budget, request, others).shared in {request, CutRequest(request, Keep(budget.max))}
  {
    CutShares(budget, request, Omitting(budget, request, others, budget.omissions).0);
    CutShares(budget, request, Omitting(budget, request, Compacted(budget, others), budget.omissions).0);
  }

  lemma {:induction false} OmittingFlag(budget: Budget, request: Sections, others: Sections, names: seq<string>)
    ensures !Omitting(budget, request, others, names).1 ==> Omitting(budget, request, others, names).0 == others
    decreases |names|
  {
    if names != [] && !Within(budget, request, others) && IndexOf(others, names[0]) < 0 {
      OmittingFlag(budget, request, others, names[1..]);
    }
  }

  /** Nothing is changed when nothing is reported as truncated. */
  lemma UntruncatedIsUnchanged(budget: Budget, request: Sections, others: Sections)
    ensures var o := Bounded(budget, request, others);
            !o.truncated ==> o.request == request && o.others == others && o.shared == request
  {
    OmittingFlag(budget, request, others, budget.omissions);
  }

  lemma {:induction false} OmittedSections(budget: Budget, request: Sections, others: Sections, names: seq<string>, k: string)
    ensures var r := GetKey(Omitting(budget, request, others, names).0, k);
            r == GetKey(others, k) || (k in names && GetKey(others, k).Some? && r == Some(OMITTED))
    decreases |names|
  {
    if names != [] && !Within(budget, request, others) {
      assert forall n | n in names[1..] :: n in names;
      if IndexOf(others, names[0]) < 0 {
        OmittedSections(budget, request, others, names[1..], k);
      } else {
        SetKeyReads(others, names[0], OMITTED, k);
        OmittedSections(budget, request, SetKey(others, names[0], OMITTED), names[1..], k);
      }
    }
  }

  /** Every section is kept, compacted or marked as omitted; none appears or disappears. */
  lemma SectionsSurvive(budget: Budget, request: Sections, others: Sections, k: string)
    ensures var r := GetKey(Bounded(budget, request, others).others, k);
            || r == GetKey(others, k)
            || (k in budget.omissions && GetKey(others, k).Some? && r == Some(OMITTED))
            || (k == TEMPLATES && r == Some(budget.compact(ValueOf(others, k))))
  {
    OmittedSections(budget, request, others, budget.omissions, k);
    if Compactable(budget, others) {
      SetKeyReads(others, TEMPLATES, budget.compact(ValueOf(others, TEMPLATES)), k);
      OmittedSections(budget, request, Compacted(budget, others), budget.omissions, k);
    }
  }

  /** The request prefix kept is the longest that fits: a prefix fits exactly when it is no longer. */
  lemma LongestPrefixIsKept(cut: Sections, others: Sections, max: nat)
    ensures var (o, fits) := (PrefixStage(Planner(max), cut, others), PrefixFits(Planner(max), cut, others));
            if fits(0) then
              exists n | 0 <= n <= Longest(cut) ::
                o.request == Prefixed(cut, n) && forall m | 0 <= m <= Longest(cut) :: fits(m) <==> m <= n
            else o.text == Fallback()
  {
    var fits := PrefixFits(Planner(max), cut, others);
    var best := BestPrefix(fits, Longest(cut));
    BestPrefixIsLargest(fits, Longest(cut));
    forall m: nat, n: nat | m <= n
      ensures fits(n) ==> fits(m)
    {
      LongerPrefixCostsMore(cut, others, m, n);
    }
    if best.Some? {
      var n := best.value;
      assert forall m | 0 <= m <= Longest(cut) :: fits(m) <==> m <= n;
    }
  }
}
