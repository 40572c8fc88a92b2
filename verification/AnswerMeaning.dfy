/**
 What the fitted answer context says, stated on the packet that was given: which keys are still
 its own, what was cut to how much, which pages are shown, and what the last projection holds.
 */
module AnswerMeaning {
  import opened Wrappers
  import opened Json
  import opened JsonPicks
  import opened Places
  import opened TextShares
  import opened AnswerBudget
  import opened AnswerContextFit
  import opened AnswerPages

  // ---------------------------------------------------------------- texts and lists

  /** `t` is the text of the value, cut to `n` characters; a missing value reads as no text. */
  ghost predicate CutOf(v: Json, t: string, n: nat) {
    && (v.JNull? ==> t == "")
    && (v.JStr? ==> t <= v.text && |t| == if |v.text| < n then |v.text| else n)
    && t == SafeText(v, n)
  }

  lemma SafeTextMeans(v: Json, n: nat)
    ensures CutOf(v, SafeText(v, n), n)
  {
  }

  lemma CutTwice(v: Json, n: nat)
    ensures SafeText(JStr(SafeText(v, n)), n) == SafeText(v, n)
  {
  }

  /** The first `n` of these, in their order. */
  ghost predicate Leads(all: seq<Json>, some: seq<Json>, n: nat) {
    some <= all && |some| == if |all| < n then |all| else n
  }

  // ---------------------------------------------------------------- the summary

  ghost predicate BundleEmptied(was: Option<Json>, now: Option<Json>) {
    if was.Some? && was.value.JObj? && ValueOf(was.value.fields, "entries").JList? then
      && now.Some? && now.value.JObj?
      && GetKey(now.value.fields, "entries") == Some(JList([]))
      && Touches(was.value.fields, now.value.fields, ["entries"])
    else now == was
  }

  ghost predicate RecordsPicked(was: Option<Json>, now: Option<Json>) {
    if was.Some? && was.value.JList? then
      && now.Some? && now.value.JList?
      && PicksAll(was.value.items, now.value.items, ["source_id", "title", "url", "domain", "quality"])
    else now == was
  }

  ghost predicate EvidenceReduced(was: Option<Json>, now: Option<Json>) {
    if was.Some? && was.value.JObj? then
      && now.Some? && now.value.JObj?
      && Touches(was.value.fields, now.value.fields, ["evidence_bundle", "source_records"])
      && BundleEmptied(GetKey(was.value.fields, "evidence_bundle"), GetKey(now.value.fields, "evidence_bundle"))
      && RecordsPicked(GetKey(was.value.fields, "source_records"), GetKey(now.value.fields, "source_records"))
    else now == was
  }

  /** A block without its facts and without the sources it shares with the pages. */
  ghost predicate BlockReduced(was: Json, now: Json) {
    if was.JObj? then
      && now.JObj?
      && Touches(was.fields, now.fields, ["facts", "evidence"])
      && GetKey(now.fields, "facts") == Some(JObj([]))
      && EvidenceReduced(GetKey(was.fields, "evidence"), GetKey(now.fields, "evidence"))
    else now == was
  }

  /** The first eight blocks, each reduced where it stands; the rest of the summary as it was. */
  ghost predicate SummaryReduced(was: Option<Json>, now: Option<Json>) {
    if was.Some? && was.value.JObj? then
      && now.Some? && now.value.JObj?
      && Touches(was.value.fields, now.value.fields, ["blocks"])
      && var blocks := ItemsOf(ValueOf(was.value.fields, "blocks"));
         var kept := GetKey(now.value.fields, "blocks");
         && kept.Some? && kept.value.JList?
         && |kept.value.items| == (if |blocks| < 8 then |blocks| else 8)
         && forall i | 0 <= i < |kept.value.items| :: BlockReduced(blocks[i], kept.value.items[i])
    else now == was
  }

  /** The two steps of compacting evidence. */
  lemma EvidenceSteps(evidence: seq<Field>) returns (e: seq<Field>)
    ensures Touches(evidence, e, ["evidence_bundle"])
    ensures BundleEmptied(GetKey(evidence, "evidence_bundle"), GetKey(e, "evidence_bundle"))
    ensures CompactEvidence(evidence) == CompactRecords(e)
  {
    e := evidence;
    match GetKey(evidence, "evidence_bundle")
    case Some(JObj(bundle)) =>
      if ValueOf(bundle, "entries").JList? {
        var less := SetKey(bundle, "entries", JList([]));
        SetTouches(bundle, "entries", JList([]));
        SetTouches(evidence, "evidence_bundle", JObj(less));
        e := SetKey(evidence, "evidence_bundle", JObj(less));
      }
    case _ =>
  }

  function CompactRecords(evidence: seq<Field>): seq<Field> {
    match GetKey(evidence, "source_records")
    case Some(JList(records)) => SetKey(evidence, "source_records", JList(ProjectAll(records, RECORD_KEYS)))
    case _ => evidence
  }

  lemma RecordsMean(evidence: seq<Field>)
    ensures Touches(evidence, CompactRecords(evidence), ["source_records"])
    ensures RecordsPicked(GetKey(evidence, "source_records"), GetKey(CompactRecords(evidence), "source_records"))
  {
    match GetKey(evidence, "source_records")
    case Some(JList(records)) =>
      var at := ProjectAllPicks(records, RECORD_KEYS);
      SetTouches(evidence, "source_records", JList(ProjectAll(records, RECORD_KEYS)));
    case _ =>
  }

  lemma EvidenceMeans(evidence: seq<Field>)
    ensures EvidenceReduced(Some(JObj(evidence)), Some(JObj(CompactEvidence(evidence))))
  {
    var e := EvidenceSteps(evidence);
    RecordsMean(e);
    TouchesBoth(evidence, e, CompactRecords(e), "evidence_bundle", "source_records");
  }

  lemma BlockMeans(block: Json)
    ensures BlockReduced(block, CompactBlock(block))
  {
    if block.JObj? {
      var b := SetKey(block.fields, "facts", JObj([]));
      SetTouches(block.fields, "facts", JObj([]));
      match GetKey(b, "evidence")
      case Some(JObj(evidence)) =>
        EvidenceMeans(evidence);
        SetTouches(b, "evidence", JObj(CompactEvidence(evidence)));
      case _ =>
    }
  }

  lemma SummaryMeans(p: Packet)
    ensures Touches(p, CompactSummary(p), ["result_summary"])
    ensures SummaryReduced(GetKey(p, "result_summary"), GetKey(CompactSummary(p), "result_summary"))
  {
    match GetKey(p, "result_summary")
    case Some(JObj(summary)) =>
      var blocks := ItemsOf(ValueOf(summary, "blocks"));
      var kept := JList(AnswerBudget.Head(CompactBlocks(blocks), 8));
      SetTouches(summary, "blocks", kept);
      SetTouches(p, "result_summary", JObj(SetKey(summary, "blocks", kept)));
      forall i | 0 <= i < |kept.items|
        ensures BlockReduced(blocks[i], kept.items[i])
      {
        BlockMeans(blocks[i]);
      }
    case _ =>
  }

  // ---------------------------------------------------------------- the stages

  /** After the first stage the summary is reduced and the first eight steps of the run are listed. */
  lemma FewStepsMeans(p: Packet, steps: seq<Json>)
    ensures var q := FewSteps(p, steps);
            && Touches(p, q, ["result_summary", "steps"])
            && SummaryReduced(GetKey(p, "result_summary"), GetKey(q, "result_summary"))
            && GetKey(q, "steps").Some? && GetKey(q, "steps").value.JList?
            && Leads(steps, GetKey(q, "steps").value.items, 8)
  {
    SummaryMeans(p);
    SetTouches(CompactSummary(p), "steps", JList(AnswerBudget.Head(steps, 8)));
  }

  /** The second reduces each step to its id, tool, status and error. */
  lemma CompactStepsMeans(p: Packet)
    ensures var q := CompactSteps(p);
            && Touches(p, q, ["steps"])
            && GetKey(q, "steps").Some? && GetKey(q, "steps").value.JList?
            && PicksAll(ItemsOf(ValueOf(p, "steps")), GetKey(q, "steps").value.items, ["id", "tool", "status", "error"])
  {
    var at := ProjectAllPicks(ItemsOf(ValueOf(p, "steps")), STEP_KEYS);
    SetTouches(p, "steps", JList(ProjectAll(ItemsOf(ValueOf(p, "steps")), STEP_KEYS)));
  }

  lemma DocumentsOnly(p: Packet)
    requires DistinctKeys(p)
    ensures Touches(p, FittedDocuments(p), ["web_documents"])
  {
    if HoldsDocuments(p) {
      DocumentsFitted(p);
    }
  }

  /** The third keeps three assumptions, 240 characters of the goal and 400 of the request. */
  ghost predicate TextsShortened(p: Packet, q: Packet) {
    && GetKey(q, "assumptions").Some? && GetKey(q, "assumptions").value.JList?
    && Leads(ItemsOf(ValueOf(p, "assumptions")), GetKey(q, "assumptions").value.items, 3)
    && ShortText(p, q, "goal", 240)
    && ShortText(p, q, "request", 400)
  }

  /** The key holds the start of the text it held. */
  ghost predicate ShortText(p: Packet, q: Packet, key: string, n: nat) {
    var t := GetKey(q, key);
    t.Some? && t.value.JStr? && CutOf(ValueOf(p, key), t.value.text, n)
  }

  lemma ThreeRead(p: Packet, a: string, b: string, c: string, x: Json, y: Json, z: Json, k: string)
    ensures GetKey(SetKey(SetKey(SetKey(p, a, x), b, y), c, z), k)
            == if k == c then Some(z) else GetKey(SetKey(SetKey(p, a, x), b, y), k)
    ensures GetKey(SetKey(SetKey(p, a, x), b, y), k)
            == if k == b then Some(y) else if k == a then Some(x) else GetKey(p, k)
  {
    SetKeyReads(p, a, x, k);
    SetKeyReads(SetKey(p, a, x), b, y, k);
    SetKeyReads(SetKey(SetKey(p, a, x), b, y), c, z, k);
  }

  lemma ThreeSet(p: Packet, a: string, b: string, c: string, x: Json, y: Json, z: Json)
    requires a != b && a != c && b != c
    ensures var q := SetKey(SetKey(SetKey(p, a, x), b, y), c, z);
            && Touches(p, q, [a, b, c])
            && GetKey(q, a) == Some(x) && GetKey(q, b) == Some(y) && GetKey(q, c) == Some(z)
    ensures GetKey(SetKey(p, a, x), b) == GetKey(p, b) && GetKey(SetKey(SetKey(p, a, x), b, y), c) == GetKey(p, c)
  {
    SetKeyReads(p, a, x, b);
    ThreeRead(p, a, b, c, x, y, z, a);
    ThreeRead(p, a, b, c, x, y, z, b);
    ThreeRead(p, a, b, c, x, y, z, c);
    forall k | k !in [a, b, c]
      ensures GetKey(SetKey(SetKey(SetKey(p, a, x), b, y), c, z), k) == GetKey(p, k)
    {
      ThreeRead(p, a, b, c, x, y, z, k);
    }
  }

  lemma ShortTextsMeans(p: Packet)
    ensures Touches(p, ShortTexts(p), ["assumptions", "goal", "request"])
    ensures TextsShortened(p, ShortTexts(p))
  {
    var a := JList(AnswerBudget.Head(ItemsOf(ValueOf(p, "assumptions")), 3));
    var g, r := JStr(SafeText(ValueOf(p, "goal"), 240)), JStr(SafeText(ValueOf(p, "request"), 400));
    ThreeSet(p, "assumptions", "goal", "request", a, g, r);
  }

  const ESSENTIAL := ["schema_version", "request", "goal", "result_type", "status", "answer_phase", "execution_complete"]

  /** The last holds seven fields, each cut from the packet's own, and no other key. */
  ghost predicate EssentialsOf(p: Packet, q: Packet) {
    && (forall k | k !in ESSENTIAL :: GetKey(q, k).None?)
    && GetKey(q, "schema_version") == Some(JStr("spatial-agent.answer-generation.v1"))
    && GetKey(q, "execution_complete") == Some(JBool(Truthy(ValueOf(p, "execution_complete"))))
    && ShortText(p, q, "request", 400)
    && ShortText(p, q, "goal", 240)
    && ShortText(p, q, "result_type", 96)
    && ShortText(p, q, "status", 32)
    && ShortText(p, q, "answer_phase", 32)
  }

  lemma ReadsAt(q: Packet, i: nat)
    requires DistinctKeys(q) && i < |q|
    ensures GetKey(q, q[i].key) == Some(q[i].value)
  {
    IndexIs(q, q[i].key, i);
  }

  lemma EssentialsDiffer()
    ensures Distinct(ESSENTIAL)
  {
    assert forall i, j | 0 <= i < j < 7 :: |ESSENTIAL[i]| != |ESSENTIAL[j]|;
  }

  lemma KeyedBy(q: Packet, keys: seq<string>)
    requires |q| == |keys| && Distinct(keys) && forall i | 0 <= i < |q| :: q[i].key == keys[i]
    ensures DistinctKeys(q) && forall k | k !in keys :: GetKey(q, k).None?
  {
    assert forall i | 0 <= i < |q| :: q[i].key in keys;
  }

  lemma EssentialKeys(p: Packet)
    ensures DistinctKeys(Essentials(p))
    ensures forall k | k !in ESSENTIAL :: GetKey(Essentials(p), k).None?
  {
    EssentialsDiffer();
    KeyedBy(Essentials(p), ESSENTIAL);
  }

  lemma EssentialsMean(p: Packet)
    ensures EssentialsOf(p, Essentials(p))
  {
    EssentialKeys(p);
    ReadsAt(Essentials(p), 0);
    ReadsAt(Essentials(p), 1);
    ReadsAt(Essentials(p), 2);
    ReadsAt(Essentials(p), 3);
    ReadsAt(Essentials(p), 4);
    ReadsAt(Essentials(p), 5);
    ReadsAt(Essentials(p), 6);
  }

  // ---------------------------------------------------------------- end to end

  const EARLY := ["result_summary", "steps", "web_documents"]
  const LATE := ["assumptions", "goal", "request"]

  /**
   The packet after its stages, against the packet given: only six keys can read differently,
   the texts are starts of the given texts, and pages can only be lost.
   */
  ghost predicate Shrunk(p: Packet, steps: seq<Json>, q: Packet) {
    && Touches(p, q, EARLY + LATE)
    && SummaryReduced(GetKey(p, "result_summary"), GetKey(q, "result_summary"))
    && StepsListed(steps, GetKey(q, "steps"))
    && OwnOrShort(p, q)
  }

  ghost predicate StepsListed(steps: seq<Json>, v: Option<Json>) {
    && v.Some? && v.value.JList?
    && var first := if |steps| <= 8 then steps else steps[..8];
       v.value.items == first || PicksAll(first, v.value.items, ["id", "tool", "status", "error"])
  }

  ghost predicate OwnOrShort(p: Packet, q: Packet) {
    || (forall k | k in ["assumptions", "goal", "request"] :: GetKey(q, k) == GetKey(p, k))
    || TextsShortened(p, q)
  }

  lemma LeadsIs(all: seq<Json>, some: seq<Json>, n: nat)
    requires Leads(all, some, n)
    ensures some == if |all| <= n then all else all[..n]
  {
  }

  lemma FewStepsShrink(p: Packet, steps: seq<Json>)
    ensures Shrunk(p, steps, FewSteps(p, steps))
  {
    var q := FewSteps(p, steps);
    FewStepsMeans(p, steps);
    LeadsIs(steps, GetKey(q, "steps").value.items, 8);
    TouchesOnly(p, q, ["result_summary", "steps"]);
    ShrinkEarly(p, steps, q);
  }

  lemma TouchesOnly(p: Packet, q: Packet, keys: seq<string>)
    requires Touches(p, q, keys) && forall k | k in keys :: k in EARLY
    ensures Touches(p, q, EARLY)
  {
  }

  lemma ShrinkEarly(p: Packet, steps: seq<Json>, q: Packet)
    requires Touches(p, q, EARLY) && StepsListed(steps, GetKey(q, "steps"))
    requires SummaryReduced(GetKey(p, "result_summary"), GetKey(q, "result_summary"))
    ensures Shrunk(p, steps, q)
  {
    EarlyIsNotLate();
    TouchesAll(p, q, q, EARLY, LATE);
  }

  /** Compacting the steps and fitting the documents touch nothing else. */
  lemma StagesTouch(p: Packet)
    requires DistinctKeys(CompactSteps(p))
    ensures Touches(p, FittedDocuments(CompactSteps(p)), ["steps", "web_documents"])
    ensures GetKey(FittedDocuments(CompactSteps(p)), "steps") == GetKey(CompactSteps(p), "steps")
  {
    CompactStepsMeans(p);
    DocumentsOnly(CompactSteps(p));
    TouchesBoth(p, CompactSteps(p), FittedDocuments(CompactSteps(p)), "steps", "web_documents");
  }

  lemma DocumentsShrink(p: Packet, steps: seq<Json>)
    requires DistinctKeys(p)
    ensures Shrunk(p, steps, FittedDocuments(CompactSteps(FewSteps(p, steps))))
  {
    var q1 := FewSteps(p, steps);
    StagesKeepDistinct(p, steps);
    FewStepsMeans(p, steps);
    LeadsIs(steps, GetKey(q1, "steps").value.items, 8);
    CompactStepsMeans(q1);
    StagesTouch(q1);
    ShrinkMore(p, steps, q1, FittedDocuments(CompactSteps(q1)));
  }

  lemma ShrinkMore(p: Packet, steps: seq<Json>, q1: Packet, q3: Packet)
    requires Touches(p, q1, ["result_summary", "steps"]) && Touches(q1, q3, ["steps", "web_documents"])
    requires SummaryReduced(GetKey(p, "result_summary"), GetKey(q1, "result_summary"))
    requires StepsListed(steps, GetKey(q3, "steps"))
    ensures Touches(p, q3, EARLY) && Shrunk(p, steps, q3)
  {
    TouchesAll(p, q1, q3, ["result_summary", "steps"], ["steps", "web_documents"]);
    assert "result_summary" !in ["steps", "web_documents"];
    TouchesOnly(p, q3, ["result_summary", "steps"] + ["steps", "web_documents"]);
    ShrinkEarly(p, steps, q3);
  }

  /** The last texts are cut from the packet's own: no earlier stage touches them. */
  lemma EarlyTexts(p: Packet, steps: seq<Json>)
    requires DistinctKeys(p)
    ensures var q := FittedDocuments(CompactSteps(FewSteps(p, steps)));
            Touches(p, q, ["result_summary", "steps", "web_documents"])
  {
    StagesKeepDistinct(p, steps);
    FewStepsMeans(p, steps);
    StagesTouch(FewSteps(p, steps));
  }

  lemma ShortenedFrom(p: Packet, q: Packet, r: Packet)
    requires GetKey(q, "assumptions") == GetKey(p, "assumptions")
    requires GetKey(q, "goal") == GetKey(p, "goal") && GetKey(q, "request") == GetKey(p, "request")
    requires TextsShortened(q, r)
    ensures TextsShortened(p, r)
  {
  }

  lemma EarlyIsNotLate()
    ensures forall k | k in EARLY :: k !in LATE
    ensures "result_summary" in EARLY && "steps" in EARLY
    ensures "assumptions" in LATE && "goal" in LATE && "request" in LATE
  {
    assert EARLY[0][0] == 'r' && EARLY[1][0] == 's' && EARLY[2][0] == 'w';
    assert |EARLY[0]| == 14 && LATE[0][0] == 'a' && LATE[1][0] == 'g' && |LATE[2]| == 7;
    assert EARLY[1] == "steps" && LATE[0] == "assumptions" && LATE[1] == "goal" && LATE[2] == "request";
  }

  lemma LateTexts(p: Packet, steps: seq<Json>, q3: Packet, q4: Packet)
    requires Touches(p, q3, EARLY) && Shrunk(p, steps, q3)
    requires Touches(q3, q4, LATE) && TextsShortened(q3, q4)
    ensures Shrunk(p, steps, q4) && TextsShortened(p, q4)
  {
    EarlyIsNotLate();
    TouchesAll(p, q3, q4, EARLY, LATE);
    ShortenedFrom(p, q3, q4);
  }

  lemma TextsShrink(p: Packet, steps: seq<Json>)
    requires DistinctKeys(p)
    ensures var q := ShortTexts(FittedDocuments(CompactSteps(FewSteps(p, steps))));
            Shrunk(p, steps, q) && TextsShortened(p, q)
  {
    var q3 := FittedDocuments(CompactSteps(FewSteps(p, steps)));
    EarlyTexts(p, steps);
    DocumentsShrink(p, steps);
    ShortTextsMeans(q3);
    LateTexts(p, steps, q3, ShortTexts(q3));
  }

  lemma ShortIsShort(p: Packet, q: Packet, r: Packet, key: string, n: nat)
    requires ShortText(p, q, key, n) && ShortText(q, r, key, n)
    ensures ShortText(p, r, key, n)
  {
    CutTwice(ValueOf(p, key), n);
  }

  /** Nothing of the last four has been touched before. */
  lemma UncutStays(p: Packet, q: Packet)
    requires Touches(p, q, EARLY + LATE)
    ensures GetKey(q, "result_type") == GetKey(p, "result_type") && GetKey(q, "status") == GetKey(p, "status")
    ensures GetKey(q, "answer_phase") == GetKey(p, "answer_phase")
    ensures GetKey(q, "execution_complete") == GetKey(p, "execution_complete")
  {
  }

  lemma EssentialsOfShortened(p: Packet, q: Packet)
    requires GetKey(q, "result_type") == GetKey(p, "result_type") && GetKey(q, "status") == GetKey(p, "status")
    requires GetKey(q, "answer_phase") == GetKey(p, "answer_phase")
    requires GetKey(q, "execution_complete") == GetKey(p, "execution_complete")
    requires ShortText(p, q, "goal", 240) && ShortText(p, q, "request", 400)
    ensures EssentialsOf(p, Essentials(q))
  {
    EssentialsMean(q);
    ShortIsShort(p, q, Essentials(q), "goal", 240);
    ShortIsShort(p, q, Essentials(q), "request", 400);
  }

  /**
   The context the answer model is given is the packet itself when that fits; otherwise it is
   the packet shrunk as above, or, when even with shortened texts nothing fits, its seven
   essentials.
   */
  lemma FittedMeans(p: Packet, steps: seq<Json>)
    requires DistinctKeys(p)
    ensures var r := Fitted(p, steps);
            if Fits(p) then r == p
            else Shrunk(p, steps, r) || (EssentialsOf(p, r) && NothingFits(p, steps))
  {
    if !Fits(p) {
      FewStepsShrink(p, steps);
      if !Fits(FewSteps(p, steps)) {
        StepsMean(p, steps);
      }
    }
  }

  /** The packet does not even fit with its texts shortened. */
  ghost predicate NothingFits(p: Packet, steps: seq<Json>) {
    exists q :: Shrunk(p, steps, q) && TextsShortened(p, q) && !Fits(q)
  }

  lemma StepsMean(p: Packet, steps: seq<Json>)
    requires DistinctKeys(p)
    ensures var r := ShortStage(FittedDocuments(CompactSteps(FewSteps(p, steps))));
            Shrunk(p, steps, r) || (EssentialsOf(p, r) && NothingFits(p, steps))
  {
    var q3 := FittedDocuments(CompactSteps(FewSteps(p, steps)));
    DocumentsShrink(p, steps);
    if !Fits(q3) {
      StagesKeepDistinct(p, steps);
      SecondFittingIsIdle(CompactSteps(FewSteps(p, steps)));
      TextsShrink(p, steps);
      LastMeans(p, steps, ShortTexts(q3));
    }
  }

  lemma LastMeans(p: Packet, steps: seq<Json>, q: Packet)
    requires Shrunk(p, steps, q) && TextsShortened(p, q)
    ensures !Fits(q) ==> EssentialsOf(p, Essentials(q)) && NothingFits(p, steps)
  {
    UncutStays(p, q);
    EssentialsOfShortened(p, q);
  }

  // ---------------------------------------------------------------- the pages

  /** The page shows this item, with as much of its text as there is room for. */
  ghost predicate Shows(item: Json, page: Json, room: int, left: int) {
    && item.JObj? && page.JObj? && room > 0
    && exists url, domain, title, text | page.fields == PageFields(url, domain, title, text) ::
      && CutOf(ValueOf(item.fields, "url"), url, 800)
      && CutOf(ValueOf(item.fields, "domain"), domain, 255)
      && CutOf(ValueOf(item.fields, "title"), title, 240)
      && CutOf(ValueOf(item.fields, "text"), text, if room < 6000 then room else 6000)
      && text != "" && left == room - |text|
  }

  function PageFields(url: string, domain: string, title: string, text: string): seq<Field> {
    [Field("url", JStr(url)), Field("domain", JStr(domain)), Field("title", JStr(title)), Field("text", JStr(text))]
  }

  ghost predicate NoText(item: Json) {
    item.JObj? && SafeText(ValueOf(item.fields, "text"), 1) == ""
  }

  type Showing = (Json, Json, int, int) -> bool

  /** An item is passed over when it has no text, comes after one that is no object, or finds no room. */
  ghost predicate PassedOver(items: seq<Json>, first: nat, j: nat, room: int, blank: Json -> bool)
    requires first <= j < |items|
  {
    || blank(items[j])
    || (exists k | first <= k <= j :: !items[k].JObj?)
    || room <= 0
  }

  /**
   The pages show the items at these places, in order, each with the room the ones before it
   left; the items between are passed over.
   */
  ghost predicate ShownAt(items: seq<Json>, first: nat, pages: seq<Json>, at: seq<nat>, rooms: seq<int>,
                          shows: Showing, blank: Json -> bool) {
    && |at| == |pages| == |rooms| - 1 && Rising(at, |items|)
    && (forall i | 0 <= i < |at| :: first <= at[i] && shows(items[at[i]], pages[i], rooms[i], rooms[i + 1]))
    && (forall i, k | 0 <= i < |at| && first <= k <= at[i] :: items[k].JObj?)
    && forall i, j | 0 <= i <= |at| && Between(at, i, first, j, |items|) :: PassedOver(items, first, j, rooms[i], blank)
  }

  /** `j` lies after the first `i` places and before the others. */
  predicate Between(at: seq<nat>, i: nat, first: nat, j: int, n: nat)
    requires i <= |at|
  {
    first <= j < n && (i > 0 ==> at[i - 1] < j) && (i < |at| ==> j < at[i])
  }

  lemma NoneShown(items: seq<Json>, first: nat, room: int, shows: Showing, blank: Json -> bool)
    ensures first >= |items| || !items[first].JObj? || room <= 0 ==> ShownAt(items, first, [], [], [room], shows, blank)
  {
  }

  lemma FirstBlank(items: seq<Json>, first: nat, rest: seq<Json>, at: seq<nat>, rooms: seq<int>,
                   shows: Showing, blank: Json -> bool)
    requires first < |items| && items[first].JObj? && blank(items[first])
    requires ShownAt(items, first + 1, rest, at, rooms, shows, blank)
    ensures ShownAt(items, first, rest, at, rooms, shows, blank)
  {
    forall i, j | 0 <= i <= |at| && Between(at, i, first, j, |items|)
      ensures PassedOver(items, first, j, rooms[i], blank)
    {
      if j > first {
        assert PassedOver(items, first + 1, j, rooms[i], blank);
      }
    }
  }

  lemma FirstShown(items: seq<Json>, first: nat, page: Json, rest: seq<Json>, room: int, at: seq<nat>, rooms: seq<int>,
                   shows: Showing, blank: Json -> bool)
    requires first < |items| && items[first].JObj?
    requires ShownAt(items, first + 1, rest, at, rooms, shows, blank)
    requires shows(items[first], page, room, rooms[0])
    ensures ShownAt(items, first, [page] + rest, [first] + at, [room] + rooms, shows, blank)
  {
    var places, left := [first] + at, [room] + rooms;
    forall i, j | 0 <= i <= |places| && Between(places, i, first, j, |items|)
      ensures PassedOver(items, first, j, left[i], blank)
    {
      assert Between(at, i - 1, first + 1, j, |items|);
      assert PassedOver(items, first + 1, j, rooms[i - 1], blank);
    }
  }

  lemma PageShows(item: seq<Field>, room: nat)
    requires room > 0 && Portion(item, room) != ""
    ensures Shows(JObj(item), Page(item, Portion(item, room)), room, room - |Portion(item, room)|)
  {
    var url, domain := SafeText(ValueOf(item, "url"), 800), SafeText(ValueOf(item, "domain"), 255);
    var title, text := SafeText(ValueOf(item, "title"), 240), Portion(item, room);
    assert Page(item, text).fields == PageFields(url, domain, title, text);
  }

  lemma FirstOne(items: seq<Json>, first: nat, text: string, page: Json, rest: seq<Json>, room: int,
                 at: seq<nat>, rooms: seq<int>, shows: Showing, blank: Json -> bool)
    returns (places: seq<nat>, left: seq<int>)
    requires first < |items| && items[first].JObj?
    requires ShownAt(items, first + 1, rest, at, rooms, shows, blank)
    requires if text == "" then blank(items[first]) && rooms[0] == room else shows(items[first], page, room, rooms[0])
    ensures ShownAt(items, first, if text == "" then rest else [page] + rest, places, left, shows, blank) && left[0] == room
  {
    if text == "" {
      FirstBlank(items, first, rest, at, rooms, shows, blank);
      places, left := at, rooms;
    } else {
      FirstShown(items, first, page, rest, room, at, rooms, shows, blank);
      places, left := [first] + at, [room] + rooms;
    }
  }

  /** What the list makes of one item that is an object. */
  ghost predicate OneItem(item: seq<Field>, room: nat, layout: Layout, shows: Showing, blank: Json -> bool) {
    var text := Portion(item, room);
    if text == "" then blank(JObj(item)) else |text| <= room && shows(JObj(item), layout(item, text), room, room - |text|)
  }

  lemma PageStep(item: seq<Field>, room: nat)
    requires room > 0
    ensures OneItem(item, room, Page, Shows, NoText)
  {
    if Portion(item, room) != "" {
      PageShows(item, room);
    }
  }

  lemma NoPages(items: seq<Json>, first: nat, room: nat, layout: Layout)
    requires first <= |items| && (first == |items| || room == 0 || !items[first].JObj?)
    ensures Pages(items[first..], room, layout) == []
  {
  }

  /** Where the pages come from. */
  lemma {:induction false} PagesShow(items: seq<Json>, first: nat, room: nat, layout: Layout, shows: Showing,
                                        blank: Json -> bool)
    returns (at: seq<nat>, rooms: seq<int>)
    requires first <= |items| && forall item, n: nat | n > 0 :: OneItem(item, n, layout, shows, blank)
    ensures ShownAt(items, first, Pages(items[first..], room, layout), at, rooms, shows, blank) && rooms[0] == room
    decreases |items| - first
  {
    if first == |items| || room == 0 || !items[first].JObj? {
      at, rooms := [], [room];
      NoPages(items, first, room, layout);
      NoneShown(items, first, room, shows, blank);
    } else {
      var item := items[first].fields;
      var text := Portion(item, room);
      assert OneItem(item, room, layout, shows, blank);
      assert items[first..][1..] == items[first + 1..];
      PagesFrom(items[first..], items[first], items[first + 1..], room, layout);
      var rest := Pages(items[first + 1..], room - |text|, layout);
      at, rooms := PagesShow(items, first + 1, room - |text|, layout, shows, blank);
      at, rooms := FirstOne(items, first, text, layout(item, text), rest, room, at, rooms, shows, blank);
    }
  }

  /** The pages of the items from `first` on, while there is room in 6000 characters of text. */
  ghost predicate PagesFromOn(items: seq<Json>, first: nat, pages: seq<Json>) {
    exists at, rooms :: ShownAt(items, first, pages, at, rooms, Shows, NoText) && rooms[0] == 6000
  }

  /** The pages shown are those of the last eight items fetched. */
  lemma WebDocumentsMean(items: seq<Json>)
    ensures PagesFromOn(items, if |items| > 8 then |items| - 8 else 0, WebDocuments(JList(items)))
  {
    var first := if |items| > 8 then |items| - 8 else 0;
    assert Last(items, MAX_PAGES) == items[first..];
    forall item, n: nat | n > 0
      ensures OneItem(item, n, Page, Shows, NoText)
    {
      PageStep(item, n);
    }
    var at, rooms := PagesShow(items, first, ROOM, Page, Shows, NoText);
  }
}
