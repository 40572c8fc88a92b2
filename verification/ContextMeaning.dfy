/**
 What the bounded context keeps, stated on the sections that were given: what compacting leaves
 of the templates, which sections give way and when, and how much of the request is shown.
 */
module ContextMeaning {
  import opened Wrappers
  import opened Json
  import opened JsonPicks
  import opened ContextBudget

  // ---------------------------------------------------------------- templates

  /** A template keeps ten of its keys; the steps of its blueprint keep four of theirs. */
  ghost predicate TemplateReduced(item: Json, kept: Json) {
    && item.JObj? && kept.JObj?
    && (forall k | k !in TEMPLATE_KEYS :: GetKey(kept.fields, k).None?)
    && (forall k | k in TEMPLATE_KEYS && k != "step_blueprint" :: GetKey(kept.fields, k) == GetKey(item.fields, k))
    && StepsReduced(GetKey(item.fields, "step_blueprint"), GetKey(kept.fields, "step_blueprint"))
  }

  ghost predicate StepsReduced(was: Option<Json>, now: Option<Json>) {
    if was.Some? && was.value.JList? then
      && now.Some? && now.value.JList?
      && PicksAll(was.value.items, now.value.items, ["id", "tool", "depends_on", "arg_keys"])
    else now == was
  }

  lemma KeysDiffer()
    ensures Distinct(TEMPLATE_KEYS) && Distinct(STEP_KEYS) && "step_blueprint" in TEMPLATE_KEYS
  {
    assert TEMPLATE_KEYS[8] == "step_blueprint";
  }

  lemma TemplateMeans(item: seq<Field>)
    ensures TemplateReduced(JObj(item), JObj(PickTemplate(item)))
  {
    KeysDiffer();
    var p := Project(item, TEMPLATE_KEYS);
    ProjectPicks(item, TEMPLATE_KEYS);
    var steps := ValueOf(p, "step_blueprint");
    if steps.JList? {
      SetTouches(p, "step_blueprint", JList(ProjectAll(steps.items, STEP_KEYS)));
      var at := ProjectAllPicks(steps.items, STEP_KEYS);
    }
  }

  lemma {:induction false} TemplatesKept(templates: seq<Json>) returns (at: seq<nat>)
    ensures KeptAt(templates, PickTemplates(templates), at, TemplateReduced)
    decreases |templates|
  {
    at := [];
    if templates != [] {
      var n := |templates| - 1;
      at := TemplatesKept(templates[..n]);
      KeptLast(templates, PickTemplates(templates[..n]), at, TemplateReduced);
      if templates[n].JObj? {
        TemplateMeans(templates[n].fields);
        at := at + [n];
      }
    }
  }

  /** The number of templates the catalog declares; the number listed when it declares none. */
  ghost predicate Declares(catalog: seq<Field>, listed: nat, n: int) {
    var v := GetKey(catalog, "template_count");
    if v.Some? && v.value.JInt? then n == v.value.n else n == listed
  }

  /** The catalog with its templates reduced, counts of what is left and left out, and a mark. */
  ghost predicate CatalogReduced(was: seq<Field>, templates: seq<Json>, now: seq<Field>) {
    && Touches(was, now, ["templates", "returned_count", "omitted_count", "compacted"])
    && GetKey(now, "compacted") == Some(JBool(true))
    && exists kept, at, declared ::
      && GetKey(now, "templates") == Some(JList(kept))
      && KeptAt(templates, kept, at, TemplateReduced)
      && Declares(was, |templates|, declared)
      && GetKey(now, "returned_count") == Some(JInt(|kept|))
      && GetKey(now, "omitted_count") == Some(JInt(if declared > |kept| then declared - |kept| else 0))
  }

  lemma FourSet(p: seq<Field>, a: string, b: string, c: string, d: string, w: Json, x: Json, y: Json, z: Json)
    requires Distinct([a, b, c, d])
    ensures var q := SetKey(SetKey(SetKey(SetKey(p, a, w), b, x), c, y), d, z);
            && Touches(p, q, [a, b, c, d])
            && GetKey(q, a) == Some(w) && GetKey(q, b) == Some(x) && GetKey(q, c) == Some(y) && GetKey(q, d) == Some(z)
  {
    assert [a, b, c, d][0] == a && [a, b, c, d][1] == b && [a, b, c, d][2] == c && [a, b, c, d][3] == d;
    FourRead(p, a, b, c, d, w, x, y, z, a);
    FourRead(p, a, b, c, d, w, x, y, z, b);
    FourRead(p, a, b, c, d, w, x, y, z, c);
    FourRead(p, a, b, c, d, w, x, y, z, d);
    forall k | k !in [a, b, c, d]
      ensures GetKey(SetKey(SetKey(SetKey(SetKey(p, a, w), b, x), c, y), d, z), k) == GetKey(p, k)
    {
      FourRead(p, a, b, c, d, w, x, y, z, k);
    }
  }

  lemma FourRead(p: seq<Field>, a: string, b: string, c: string, d: string, w: Json, x: Json, y: Json, z: Json, k: string)
    ensures GetKey(SetKey(SetKey(SetKey(SetKey(p, a, w), b, x), c, y), d, z), k)
            == if k == d then Some(z) else if k == c then Some(y) else if k == b then Some(x)
               else if k == a then Some(w) else GetKey(p, k)
  {
    SetKeyReads(p, a, w, k);
    SetKeyReads(SetKey(p, a, w), b, x, k);
    SetKeyReads(SetKey(SetKey(p, a, w), b, x), c, y, k);
    SetKeyReads(SetKey(SetKey(SetKey(p, a, w), b, x), c, y), d, z, k);
  }

  /** A catalog that lists templates is reduced; any other value stays as it is. */
  ghost predicate TemplatesReduced(was: Json, now: Json) {
    if was.JObj? && ValueOf(was.fields, "templates").JList? then
      now.JObj? && CatalogReduced(was.fields, ValueOf(was.fields, "templates").items, now.fields)
    else now == was
  }

  lemma CatalogKeysDiffer()
    ensures Distinct(["templates", "returned_count", "omitted_count", "compacted"])
  {
    assert "templates"[0] == 't' && "returned_count"[0] == 'r' && "omitted_count"[0] == 'o' && "compacted"[0] == 'c';
  }

  lemma CatalogMeans(catalog: seq<Field>, templates: seq<Json>)
    ensures CatalogReduced(catalog, templates, CompactCatalog(catalog, templates))
  {
    var kept, declared := PickTemplates(templates), DeclaredCount(catalog, |templates|);
    var at := TemplatesKept(templates);
    assert Declares(catalog, |templates|, declared);
    CatalogKeysDiffer();
    FourSet(catalog, "templates", "returned_count", "omitted_count", "compacted", JList(kept), JInt(|kept|),
            JInt(if declared > |kept| then declared - |kept| else 0), JBool(true));
  }

  lemma TemplatesMean(value: Json)
    ensures TemplatesReduced(value, CompactTemplates(value))
  {
    if value.JObj? && ValueOf(value.fields, "templates").JList? {
      CatalogMeans(value.fields, ValueOf(value.fields, "templates").items);
    }
  }

  // ---------------------------------------------------------------- sections give way

  /** The sections with the named ones marked as omitted where they stand. */
  function Without(others: Sections, gone: seq<string>): (r: Sections)
    ensures |r| == |others|
  {
    seq(|others|, i requires 0 <= i < |others| =>
      if others[i].key in gone then Field(others[i].key, OMITTED) else others[i])
  }

  /** The first `j` names have given way: with fewer the text did not fit, with these it does or none is left. */
  ghost predicate GaveWay(budget: Budget, request: Sections, others: Sections, names: seq<string>, j: nat) {
    && j <= |names|
    && (forall i | 0 <= i < j :: !Within(budget, request, Without(others, names[..i])))
    && (j == |names| || Within(budget, request, Without(others, names[..j])))
  }

  lemma OneMoreOmitted(others: Sections, gone: seq<string>, name: string)
    requires DistinctKeys(others)
    ensures Without(others, gone + [name])
            == if IndexOf(Without(others, gone), name) < 0 then Without(others, gone)
               else SetKey(Without(others, gone), name, OMITTED)
  {
    var was := Without(others, gone);
    SameKeys(others, was, name);
    var i := IndexOf(was, name);
    forall m | 0 <= m < |others|
      ensures Without(others, gone + [name])[m] == if m == i then Field(name, OMITTED) else was[m]
    {
      assert others[m].key in gone + [name] <==> others[m].key in gone || others[m].key == name;
      if i >= 0 && m != i {
        assert others[i].key != others[m].key;
      }
    }
  }

  lemma {:induction false} OmittingFrom(budget: Budget, request: Sections, others: Sections, names: seq<string>, i: nat)
    returns (j: nat)
    requires DistinctKeys(others) && i <= |names|
    requires forall h | 0 <= h < i :: !Within(budget, request, Without(others, names[..h]))
    ensures i <= j && GaveWay(budget, request, others, names, j)
    ensures Omitting(budget, request, Without(others, names[..i]), names[i..]).0 == Without(others, names[..j])
    decreases |names| - i
  {
    j := i;
    var now := Without(others, names[..i]);
    if i < |names| && !Within(budget, request, now) {
      OneMoreOmitted(others, names[..i], names[i]);
      assert names[..i] + [names[i]] == names[..i + 1];
      assert names[i..][0] == names[i] && names[i..][1..] == names[i + 1..];
      j := OmittingFrom(budget, request, others, names, i + 1);
    }
  }

  lemma NoneOmitted(others: Sections)
    ensures Without(others, []) == others
  {
  }

  /** Sections give way in the listed order, no sooner than they have to and no longer than needed. */
  lemma OmittingMeans(budget: Budget, request: Sections, others: Sections, names: seq<string>)
    requires DistinctKeys(others)
    ensures exists j: nat :: GaveWay(budget, request, others, names, j)
                        && Omitting(budget, request, others, names).0 == Without(others, names[..j])
  {
    NoneOmitted(others);
    assert names[..0] == [] && names[0..] == names;
    var j := OmittingFrom(budget, request, others, names, 0);
  }

  // ---------------------------------------------------------------- the request

  /** The text under the key; a missing one is empty. */
  ghost predicate Says(request: Sections, key: string, s: string) {
    var v := GetKey(request, key);
    if v.Some? && v.value.JStr? then s == v.value.text else s == ""
  }

  /** A text within `n` characters stays, a longer one is cut there and gets an ellipsis. */
  ghost predicate CutAfter(s: string, t: string, n: nat) {
    if |s| <= n then t == s else |t| == n + 1 && t[..n] == s[..n] && t[n] == '\U{2026}'
  }

  ghost predicate TextCut(was: Sections, now: Sections, key: string, n: nat) {
    exists s, t :: Says(was, key, s) && CutAfter(s, t, n) && GetKey(now, key) == Some(JStr(t))
  }

  /** Each of the two texts is cut from its own, and nothing else of the section is touched. */
  ghost predicate RequestCut(was: Sections, now: Sections, n: nat) {
    && Touches(was, now, ["original", "resolved"])
    && TextCut(was, now, "original", n) && TextCut(was, now, "resolved", n)
  }

  lemma CutMeans(request: Sections, keep: nat)
    ensures RequestCut(request, CutRequest(request, keep), keep)
  {
    var s, u := TextAt(request, "original"), TextAt(request, "resolved");
    var r := SetKey(request, "original", JStr(CutText(s, keep)));
    SetTouches(request, "original", JStr(CutText(s, keep)));
    SetTouches(r, "resolved", JStr(CutText(u, keep)));
    TouchesBoth(request, r, CutRequest(request, keep), "original", "resolved");
    assert Says(request, "original", s) && Says(request, "resolved", u);
    assert CutAfter(s, CutText(s, keep), keep) && CutAfter(u, CutText(u, keep), keep);
  }

  ghost predicate TextPrefix(was: Sections, now: Sections, key: string, n: nat) {
    exists s, t :: Says(was, key, s) && GetKey(now, key) == Some(JStr(t)) && t <= s && |t| == if |s| < n then |s| else n
  }

  /** The start of each text under its own key, the follow-up flag, and no other key. */
  ghost predicate RequestPrefix(was: Sections, now: Sections, n: nat) {
    && (forall k | k !in ["original", "resolved", "is_follow_up"] :: GetKey(now, k).None?)
    && TextPrefix(was, now, "original", n) && TextPrefix(was, now, "resolved", n)
    && var flag := GetKey(was, "is_follow_up");
       GetKey(now, "is_follow_up") == if flag.Some? then flag else Some(JBool(false))
  }

  lemma PrefixKeys(request: Sections, n: nat)
    ensures forall k | k !in ["original", "resolved", "is_follow_up"] :: GetKey(Prefixed(request, n), k).None?
    ensures GetKey(Prefixed(request, n), "original") == Some(JStr(Upto(TextAt(request, "original"), n)))
    ensures GetKey(Prefixed(request, n), "resolved") == Some(JStr(Upto(TextAt(request, "resolved"), n)))
    ensures GetKey(Prefixed(request, n), "is_follow_up") == Some(FollowUp(request))
  {
    var q := Prefixed(request, n);
    IndexIs(q, "original", 0);
    IndexIs(q, "resolved", 1);
    IndexIs(q, "is_follow_up", 2);
    assert forall i | 0 <= i < |q| :: q[i].key in ["original", "resolved", "is_follow_up"];
  }

  lemma PrefixMeans(request: Sections, n: nat)
    ensures RequestPrefix(request, Prefixed(request, n), n)
  {
    PrefixKeys(request, n);
    var s, u := TextAt(request, "original"), TextAt(request, "resolved");
    assert Says(request, "original", s) && Says(request, "resolved", u);
    assert Upto(s, n) <= s && Upto(u, n) <= u;
  }

  // ---------------------------------------------------------------- the whole outcome

  /** The sections once their templates are reduced, when there are any to reduce. */
  ghost predicate TemplatesFirst(others: Sections, now: Sections) {
    && Touches(others, now, ["workflow_templates"])
    && var was, t := GetKey(others, "workflow_templates"), GetKey(now, "workflow_templates");
       if was.None? then t.None? else t.Some? && TemplatesReduced(was.value, t.value)
  }

  /** A third of the room, but at least 40 characters. */
  ghost predicate Share(max: nat, keep: nat) {
    if max < 123 then keep == 40 else 3 * keep <= max < 3 * (keep + 1)
  }

  /**
   What is shown of the request when sections alone do not make room: both texts cut once, on the
   object both sides hold; if that is still too long, a start of them that fits; at last nothing.
   */
  ghost predicate RequestShown(budget: Budget, request: Sections, o: Outcome) {
    && (exists keep :: Share(budget.max, keep) && RequestCut(request, o.shared, keep))
    && if Within(budget, o.shared, o.others) then o.request == o.shared && o.text == budget.render(o.request, o.others)
       else PrefixShown(budget, o)
  }

  ghost predicate PrefixShown(budget: Budget, o: Outcome) {
    || ((exists n :: RequestPrefix(o.shared, o.request, n))
        && Within(budget, o.request, o.others) && o.text == budget.render(o.request, o.others))
    || (o.request == o.shared && o.text == budget.fallback)
  }

  /** The request is left alone exactly when the sections that are left make room. */
  ghost predicate Rest(budget: Budget, request: Sections, o: Outcome) {
    if Within(budget, request, o.others)
    then o.request == request && o.shared == request && o.text == budget.render(request, o.others)
    else RequestShown(budget, request, o)
  }

  /** The sections after `j` of them gave way, and the request as far as that made no room. */
  ghost predicate Shrunk(budget: Budget, request: Sections, others: Sections, reduced: Sections, j: nat, o: Outcome) {
    && TemplatesFirst(others, reduced)
    && GaveWay(budget, request, reduced, budget.omissions, j)
    && o.others == Without(reduced, budget.omissions[..j]) && o.truncated
    && Rest(budget, request, o)
  }

  lemma PrefixStageMeans(budget: Budget, cut: Sections, others: Sections)
    ensures var o := PrefixStage(budget, cut, others);
            PrefixShown(budget, o) && o.others == others && o.shared == cut && o.truncated
  {
    match BestPrefix(PrefixFits(budget, cut, others), Longest(cut))
    case None =>
    case Some(n) => PrefixMeans(cut, n);
  }

  lemma CutStageMeans(budget: Budget, request: Sections, others: Sections)
    ensures var o := CutStage(budget, request, others);
            RequestShown(budget, request, o) && o.others == others && o.truncated
  {
    var cut := CutRequest(request, Keep(budget.max));
    CutMeans(request, Keep(budget.max));
    assert Share(budget.max, Keep(budget.max));
    PrefixStageMeans(budget, cut, others);
  }

  lemma OmitStageIs(budget: Budget, request: Sections, reduced: Sections, truncated: bool)
    requires truncated || !Within(budget, request, reduced)
    ensures var o := OmitStage(budget, request, reduced, truncated);
            && o.others == Omitting(budget, request, reduced, budget.omissions).0
            && o.truncated && Rest(budget, request, o)
  {
    OmittingFlag(budget, request, reduced, budget.omissions);
    CutStageMeans(budget, request, Omitting(budget, request, reduced, budget.omissions).0);
  }

  lemma OmitStageMeans(budget: Budget, request: Sections, others: Sections, reduced: Sections, truncated: bool)
    requires DistinctKeys(reduced) && TemplatesFirst(others, reduced)
    requires truncated || !Within(budget, request, reduced)
    ensures exists j: nat :: Shrunk(budget, request, others, reduced, j, OmitStage(budget, request, reduced, truncated))
  {
    OmittingMeans(budget, request, reduced, budget.omissions);
    OmitStageIs(budget, request, reduced, truncated);
    var less := Omitting(budget, request, reduced, budget.omissions).0;
    var j: nat :| GaveWay(budget, request, reduced, budget.omissions, j) && less == Without(reduced, budget.omissions[..j]);
    assert Shrunk(budget, request, others, reduced, j, OmitStage(budget, request, reduced, truncated));
  }

  lemma ReducedFirst(others: Sections, max: nat)
    requires DistinctKeys(others)
    ensures !Compactable(Planner(max), others) ==> TemplatesFirst(others, others)
    ensures Compactable(Planner(max), others) ==> TemplatesFirst(others, Compacted(Planner(max), others))
    ensures Compactable(Planner(max), others) ==> DistinctKeys(Compacted(Planner(max), others))
  {
    var v := GetKey(others, TEMPLATES);
    if v.Some? {
      TemplatesMean(v.value);
      SetTouches(others, TEMPLATES, CompactTemplates(v.value));
    }
  }

  /**
   Nothing is given up while everything fits. Otherwise templates are reduced first, then sections
   give way in their order until the text fits, and only then is the request shortened.
   */
  lemma BoundedMeans(max: nat, request: Sections, others: Sections)
    requires DistinctKeys(others)
    ensures var (b, o) := (Planner(max), Bounded(Planner(max), request, others));
            if Within(b, request, others) then o == Outcome(b.render(request, others), false, request, others, request)
            else exists reduced, j: nat :: Shrunk(b, request, others, reduced, j, o)
  {
    var b := Planner(max);
    ReducedFirst(others, max);
    if !Within(b, request, others) {
      if !Compactable(b, others) {
        OmitStageMeans(b, request, others, others, false);
      } else {
        var reduced := Compacted(b, others);
        OmitStageMeans(b, request, others, reduced, true);
        NoneOmitted(reduced);
        if Within(b, request, reduced) {
          assert Shrunk(b, request, others, reduced, 0, Bounded(b, request, others));
        }
      }
    }
  }
}
