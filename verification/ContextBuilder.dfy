/** The context builder's objects: a sections dictionary, and the request section it may share. */
module ContextBuilder {
  import opened Wrappers
  import opened Json
  import opened ContextBudget

  /** What the search relies on: shorter prefixes cost no more, and something is always rendered. */
  ghost predicate Sensible(budget: Budget) {
    && (forall request, others, m: nat, n: nat | m <= n ::
          PrefixFits(budget, request, others)(n) ==> PrefixFits(budget, request, others)(m))
    && forall request, others :: budget.render(request, others) != ""
  }

  lemma PlannerIsSensible(max: nat)
    ensures Sensible(Planner(max))
  {
    forall request, others, m: nat, n: nat | m <= n
      ensures PrefixFits(Planner(max), request, others)(n) ==> PrefixFits(Planner(max), request, others)(m)
    {
      LongerPrefixCostsMore(request, others, m, n);
    }
  }

  ghost predicate NoneAbove(fits: nat -> bool, high: int, n: nat) {
    forall b: nat | high < b <= n :: !fits(b)
  }

  lemma NoMoreFits(budget: Budget, cut: Sections, others: Sections, b: nat, n: nat)
    requires Sensible(budget) && !PrefixFits(budget, cut, others)(b)
    ensures NoneAbove(PrefixFits(budget, cut, others), b - 1, n)
  {
    assert forall c: nat | b <= c :: PrefixFits(budget, cut, others)(c) ==> PrefixFits(budget, cut, others)(b);
  }

  lemma {:induction false} BestPrefixIs(fits: nat -> bool, n: nat, h: Option<nat>)
    requires NoneAbove(fits, if h.Some? then h.value else -1, n) && (h.Some? ==> h.value <= n && fits(h.value))
    ensures BestPrefix(fits, n) == h
    decreases n
  {
    if !fits(n) && n > 0 {
      BestPrefixIs(fits, n - 1, h);
    }
  }

  lemma FollowUpStays(request: Sections, n: nat)
    ensures FollowUp(Prefixed(request, n)) == FollowUp(request)
  {
    IndexIs(Prefixed(request, n), "is_follow_up", 2);
  }

  class RequestSection {
    var fields: Sections

    constructor (fields: Sections)
      ensures this.fields == fields
    {
      this.fields := fields;
    }

    /** Both texts are cut in place. */
    method Cut(keep: nat)
      modifies this
      ensures fields == CutRequest(old(fields), keep)
    {
      var original := TextAt(fields, "original");
      fields := SetKey(fields, "original", JStr(CutText(original, keep)));
      var resolved := TextAt(fields, "resolved");
      fields := SetKey(fields, "resolved", JStr(CutText(resolved, keep)));
    }
  }

  class SectionDict {
    var request: RequestSection
    var others: Sections

    constructor (request: RequestSection, others: Sections)
      ensures this.request == request && this.others == others
    {
      this.request := request;
      this.others := others;
    }

    function Text(budget: Budget): string
      reads this, request
    {
      budget.render(request.fields, others)
    }

    /** Advisory sections give way one by one. */
    method OmitSections(budget: Budget) returns (text: string, any: bool)
      modifies this`others
      ensures (others, any) == Omitting(budget, request.fields, old(others), budget.omissions)
      ensures text == Text(budget)
    {
      text, any := Text(budget), false;
      ghost var names := budget.omissions;
      ghost var target := Omitting(budget, request.fields, others, names);
      for i := 0 to |budget.omissions|
        invariant text == Text(budget)
        invariant target == (Omitting(budget, request.fields, others, names[i..]).0,
                             any || Omitting(budget, request.fields, others, names[i..]).1)
      {
        if |text| <= budget.max {
          return;
        }
        var name := budget.omissions[i];
        assert names[i..][0] == name && names[i..][1..] == names[i + 1..];
        if IndexOf(others, name) >= 0 {
          others := SetKey(others, name, OMITTED);
          text, any := Text(budget), true;
        }
      }
    }

    /** The request section cut to `middle`, from texts read before the search. */
    method Candidate(ghost cut: Sections, ghost chosen: Option<nat>, original: string, resolved: string, middle: nat)
      returns (candidate: Sections)
      requires original == TextAt(cut, "original") && resolved == TextAt(cut, "resolved")
      requires request.fields == if chosen.Some? then Prefixed(cut, chosen.value) else cut
      ensures candidate == Prefixed(cut, middle)
    {
      if chosen.Some? {
        FollowUpStays(cut, chosen.value);
      }
      candidate := [
        Field("original", JStr(Upto(original, middle))), Field("resolved", JStr(Upto(resolved, middle))),
        Field("is_follow_up", FollowUp(request.fields))];
    }

    /** The binary search for the longest common prefix of the two request texts. */
    method SearchPrefix(budget: Budget, ghost cut: Sections) returns (best: string, ghost chosen: Option<nat>)
      requires Sensible(budget) && request.fields == cut
      modifies this`request
      ensures chosen == BestPrefix(PrefixFits(budget, cut, others), Longest(cut))
      ensures best == if chosen.Some? then budget.render(Prefixed(cut, chosen.value), others) else ""
      ensures request.fields == if chosen.Some? then Prefixed(cut, chosen.value) else cut
      ensures request == old(request) || fresh(request)
    {
      ghost var fits := PrefixFits(budget, cut, others);
      var original, resolved := TextAt(request.fields, "original"), TextAt(request.fields, "resolved");
      var total: nat := if |original| >= |resolved| then |original| else |resolved|;
      var low: nat, high: int := 0, total;
      best, chosen := "", None;
      while low <= high
        invariant low <= high + 1 <= total + 1
        invariant chosen == if low == 0 then None else Some(low - 1)
        invariant chosen.Some? ==> fits(chosen.value) && best == budget.render(Prefixed(cut, chosen.value), others)
        invariant chosen.None? ==> best == ""
        invariant request.fields == if chosen.Some? then Prefixed(cut, chosen.value) else cut
        invariant request == old(request) || fresh(request)
        invariant NoneAbove(fits, high, total)
      {
        var middle := (low + high) / 2;
        var candidate := Candidate(cut, chosen, original, resolved, middle);
        var candidateText := budget.render(candidate, others);
        if |candidateText| <= budget.max {
          best := candidateText;
          request := new RequestSection(candidate);
          chosen := Some(middle);
          low := middle + 1;
        } else {
          NoMoreFits(budget, cut, others, middle, total);
          high := middle - 1;
        }
      }
      BestPrefixIs(fits, total, chosen);
    }

    /** The search, and the fallback when no prefix fits. */
    method FitPrefix(budget: Budget) returns (text: string)
      requires Sensible(budget)
      modifies this`request
      ensures var o := PrefixStage(budget, old(request.fields), others);
              text == o.text && request.fields == o.request
      ensures request == old(request) || fresh(request)
    {
      ghost var cut := request.fields;
      var best, chosen := SearchPrefix(budget, cut);
      text := if best != "" then best else budget.fallback;
    }

    method BoundedRender(budget: Budget) returns (text: string, truncated: bool)
      requires Sensible(budget) && RequestOk(request.fields)
      modifies this, request
      ensures var o := Bounded(budget, old(request.fields), old(others));
              && text == o.text && truncated == o.truncated && others == o.others
              && request.fields == o.request && old(request).fields == o.shared
      ensures request == old(request) || fresh(request)
    {
      text, truncated := Text(budget), false;
      if |text| <= budget.max {
        return;
      }
      if Compactable(budget, others) {
        others := Compacted(budget, others);
        text, truncated := Text(budget), true;
        if |text| <= budget.max {
          return;
        }
      }
      text, truncated := ShrinkSections(budget, truncated);
    }

    /** Omission, then the cut of the request, then the search. */
    method ShrinkSections(budget: Budget, already: bool) returns (text: string, truncated: bool)
      requires Sensible(budget)
      modifies this, request
      ensures var o := OmitStage(budget, old(request.fields), old(others), already);
              && text == o.text && truncated == o.truncated && others == o.others
              && request.fields == o.request && old(request).fields == o.shared
      ensures request == old(request) || fresh(request)
    {
      var any;
      text, any := OmitSections(budget);
      truncated := already || any;
      if |text| > budget.max {
        request.Cut(Keep(budget.max));
        text, truncated := Text(budget), true;
        if |text| > budget.max {
          text := FitPrefix(budget);
        }
      }
    }
  }

  // ---------------------------------------------------------------- building

  /** The overrides that replace a section: those that name one and are mappings. */
  function Overridden(others: Sections, overrides: seq<Field>): Sections {
    if overrides == [] then others
    else
      var init, last := Overridden(others, overrides[..|overrides| - 1]), overrides[|overrides| - 1];
      if last.key != REQUEST && IndexOf(init, last.key) >= 0 && last.value.JObj? then SetKey(init, last.key, last.value)
      else init
  }

  function RequestOverride(overrides: seq<Field>): Option<Sections> {
    if overrides == [] then None
    else
      var last := overrides[|overrides| - 1];
      if last.key == REQUEST && last.value.JObj? then Some(last.value.fields)
      else RequestOverride(overrides[..|overrides| - 1])
  }

  /**
   `build`: the planner's sections are a shallow copy, so unless the request is overridden both
   sides hold one request object, and the budget's cut of it shows in the source as well. No
   other source section is touched.
   */
  method Build(max: nat, request: Sections, others: Sections, overrides: seq<Field>)
    returns (planner: SectionDict, source: SectionDict, text: string, truncated: bool)
    requires max >= 512 && RequestOk(request)
    requires RequestOverride(overrides).Some? ==> RequestOk(RequestOverride(overrides).value)
    ensures |text| <= max
    ensures source.others == others
    ensures var shown := if RequestOverride(overrides).Some? then RequestOverride(overrides).value else request;
            var o := Bounded(Planner(max), shown, Overridden(others, overrides));
            && text == o.text && truncated == o.truncated
            && planner.request.fields == o.request && planner.others == o.others
            && source.request.fields == if RequestOverride(overrides).Some? then request else o.shared
  {
    var shared := new RequestSection(request);
    source := new SectionDict(shared, others);
    planner := new SectionDict(shared, others);
    for i := 0 to |overrides|
      invariant planner.others == Overridden(others, overrides[..i])
      invariant source.request == shared && source.others == others && shared.fields == request
      invariant fresh(planner) && fresh(planner.request) && planner != source
      invariant RequestOverride(overrides[..i]).None? ==> planner.request == shared
      invariant RequestOverride(overrides[..i]).Some? ==>
                  planner.request != shared && planner.request.fields == RequestOverride(overrides[..i]).value
    {
      assert overrides[..i + 1][..i] == overrides[..i];
      var o := overrides[i];
      if o.value.JObj? {
        if o.key == REQUEST {
          planner.request := new RequestSection(o.value.fields);
        } else if IndexOf(planner.others, o.key) >= 0 {
          planner.others := SetKey(planner.others, o.key, o.value);
        }
      }
    }
    assert overrides[..|overrides|] == overrides;
    PlannerIsSensible(max);
    BoundedFits(planner.request.fields, planner.others, max);
    text, truncated := planner.BoundedRender(Planner(max));
  }
}
