/** `_fit_answer_context`: the stages in order, and the bound they guarantee together. */
module AnswerContextFit {
  import opened Wrappers
  import opened Json
  import opened JsonPicks
  import opened TextShares
  import opened AnswerBudget

  // ---------------------------------------------------------------- the stages

  function CompactEvidence(evidence: seq<Field>): seq<Field> {
    var e1 :=
      match GetKey(evidence, "evidence_bundle")
      case Some(JObj(bundle)) =>
        if ValueOf(bundle, "entries").JList?
        then SetKey(evidence, "evidence_bundle", JObj(SetKey(bundle, "entries", JList([])))) else evidence
      case _ => evidence;
    match GetKey(e1, "source_records")
    case Some(JList(records)) => SetKey(e1, "source_records", JList(ProjectAll(records, RECORD_KEYS)))
    case _ => e1
  }

  function CompactBlock(block: Json): Json {
    match block
    case JObj(fields) =>
      var b := SetKey(fields, "facts", JObj([]));
      (match GetKey(b, "evidence")
       case Some(JObj(evidence)) => JObj(SetKey(b, "evidence", JObj(CompactEvidence(evidence))))
       case _ => JObj(b))
    case _ => block
  }

  function CompactBlocks(blocks: seq<Json>): (r: seq<Json>)
    ensures |r| == |blocks|
  {
    seq(|blocks|, i requires 0 <= i < |blocks| => CompactBlock(blocks[i]))
  }

  /** Facts and duplicate evidence leave the summary, of which eight blocks stay. */
  function CompactSummary(p: Packet): Packet {
    match GetKey(p, "result_summary")
    case Some(JObj(summary)) =>
      var blocks := CompactBlocks(ItemsOf(ValueOf(summary, "blocks")));
      SetKey(p, "result_summary", JObj(SetKey(summary, "blocks", JList(Head(blocks, 8)))))
    case _ => p
  }

  function FewSteps(p: Packet, steps: seq<Json>): Packet {
    SetKey(CompactSummary(p), "steps", JList(Head(steps, 8)))
  }

  function CompactSteps(p: Packet): Packet {
    SetKey(p, "steps", JList(ProjectAll(ItemsOf(ValueOf(p, "steps")), STEP_KEYS)))
  }

  function ShortTexts(p: Packet): Packet {
    var p1 := SetKey(p, "assumptions", JList(Head(ItemsOf(ValueOf(p, "assumptions")), 3)));
    var p2 := SetKey(p1, "goal", JStr(SafeText(ValueOf(p1, "goal"), 240)));
    SetKey(p2, "request", JStr(SafeText(ValueOf(p2, "request"), 400)))
  }

  /** The final projection: seven bounded fields and nothing else. */
  function Essentials(p: Packet): Packet {
    [Field("schema_version", JStr(SCHEMA)),
     Field("request", JStr(SafeText(ValueOf(p, "request"), 400))),
     Field("goal", JStr(SafeText(ValueOf(p, "goal"), 240))),
     Field("result_type", JStr(SafeText(ValueOf(p, "result_type"), 96))),
     Field("status", JStr(SafeText(ValueOf(p, "status"), 32))),
     Field("answer_phase", JStr(SafeText(ValueOf(p, "answer_phase"), 32))),
     Field("execution_complete", JBool(Truthy(ValueOf(p, "execution_complete"))))]
  }

  // ---------------------------------------------------------------- the bound

  lemma TextFieldCost(f: Field, position: nat, limit: nat)
    requires f.value.JStr? && |f.value.text| <= limit
    ensures FieldCost(f, position) <= 6 * |f.key| + 6 * limit + 6
  {
    EscapedSize(f.key);
    EscapedSize(f.value.text);
  }

  lemma Sum4(c: seq<int>)
    requires |c| == 4
    ensures Sum(c) == c[0] + c[1] + c[2] + c[3]
  {
    assert c[..3][..2] == c[..2] && c[..2][..1] == c[..1] && c[..1][..0] == [];
    assert Sum(c[..1]) == c[0];
    assert Sum(c[..2]) == c[0] + c[1];
  }

  lemma Sum7(c: seq<int>)
    requires |c| == 7
    ensures Sum(c) == c[0] + c[1] + c[2] + c[3] + c[4] + c[5] + c[6]
  {
    Sum4(c[..4]);
    assert c[..6] == c[..7][..6] && c[..5] == c[..6][..5] && c[..4] == c[..5][..4];
    assert c[..7] == c;
    assert Sum(c[..5]) == Sum(c[..4]) + c[4];
    assert Sum(c[..6]) == Sum(c[..5]) + c[5];
  }

  predicate TextWithin(f: Field, limit: nat) {
    |f.key| <= 18 && f.value.JStr? && |f.value.text| <= limit
  }

  /** Seven such fields cost far less than the limit, whatever characters they hold. */
  lemma SevenFieldsFit(e: seq<Field>)
    requires |e| == 7
    requires TextWithin(e[0], 34) && TextWithin(e[1], 400) && TextWithin(e[2], 240) && TextWithin(e[3], 96)
    requires TextWithin(e[4], 32) && TextWithin(e[5], 32) && |e[6].key| <= 18 && e[6].value.JBool?
    ensures Fits(e)
  {
    FieldsSize(e);
    Sum7(Costs(e));
    TextFieldCost(e[0], 0, 34);
    TextFieldCost(e[1], 1, 400);
    TextFieldCost(e[2], 2, 240);
    TextFieldCost(e[3], 3, 96);
    TextFieldCost(e[4], 4, 32);
    TextFieldCost(e[5], 5, 32);
    EscapedSize(e[6].key);
  }

  /** The essentials fit whatever the packet held. */
  lemma EssentialsFit(p: Packet)
    ensures Fits(Essentials(p))
  {
    SevenFieldsFit(Essentials(p));
  }

  // Each stage runs only when everything before it was not enough.

  function LastStage(p: Packet): (r: Packet)
    ensures Fits(r)
  {
    EssentialsFit(p);
    if Fits(p) then p else Essentials(p)
  }

  function ShortStage(p: Packet): (r: Packet)
    ensures Fits(r)
  {
    if Fits(p) then p else LastStage(FittedDocuments(ShortTexts(p)))
  }

  function StepsStage(p: Packet): (r: Packet)
    ensures Fits(r)
  {
    if Fits(p) then p else ShortStage(FittedDocuments(CompactSteps(p)))
  }

  /** Whatever the packet and whatever the steps, the fitted packet is within the limit. */
  function Fitted(p: Packet, steps: seq<Json>): (r: Packet)
    ensures Fits(r)
  {
    if Fits(p) then p else StepsStage(FewSteps(p, steps))
  }

  // ---------------------------------------------------------------- what fitting the documents does

  lemma PopKeyFacts(fields: seq<Field>, key: string)
    requires DistinctKeys(fields)
    ensures GetKey(PopKey(fields, key), key).None?
    ensures forall k | k != key :: GetKey(PopKey(fields, key), k) == GetKey(fields, k)
  {
    var i, r := IndexOf(fields, key), PopKey(fields, key);
    if i >= 0 {
      forall k | k != key
        ensures GetKey(r, k) == GetKey(fields, k)
      {
        var m, n := IndexOf(r, k), IndexOf(fields, k);
        assert n >= 0 ==> r[if n < i then n else n - 1] == fields[n];
        assert m >= 0 ==> fields[if m < i then m else m + 1] == r[m];
      }
    }
  }

  lemma OnlyDocuments(p: Packet, documents: seq<Json>)
    ensures forall k | k != DOCUMENTS :: GetKey(WithDocuments(p, documents), k) == GetKey(p, k)
    ensures GetKey(WithDocuments(p, documents), DOCUMENTS).Some?
  {
    SetKeyReads(p, DOCUMENTS, JList(documents), DOCUMENTS);
    forall k | k != DOCUMENTS
      ensures GetKey(WithDocuments(p, documents), k) == GetKey(p, k)
    {
      SetKeyReads(p, DOCUMENTS, JList(documents), k);
    }
  }

  /**
   Fitting the documents touches nothing else, keeps the longest leading run of cards that
   fits, and leaves the packet within the limit or without documents.
   */
  lemma DocumentsFitted(p: Packet)
    requires HoldsDocuments(p) && DistinctKeys(p)
    ensures var q, cards := FittedDocuments(p), CardsOf(GetKey(p, DOCUMENTS).value.items);
            && (forall k | k != DOCUMENTS :: GetKey(q, k) == GetKey(p, k))
            && (GetKey(q, DOCUMENTS).Some? ==> Fits(q))
            && (GetKey(q, DOCUMENTS).None? <==> forall m | 1 <= m <= |cards| :: !Fits(WithDocuments(p, cards[..m])))
  {
    var documents := GetKey(p, DOCUMENTS).value.items;
    var cards := CardsOf(documents);
    var run := LongestRun(p, cards);
    LongestRunFits(p, cards);
    if run == 0 {
      PopKeyFacts(p, DOCUMENTS);
    } else {
      assert Fits(WithDocuments(p, cards[..run]));
      LargestBudgetFits(p, cards[..run], PageTexts(documents)[..run]);
      var b := LargestBudget(p, cards[..run], PageTexts(documents)[..run]);
      assert TextFits(p, cards[..run], PageTexts(documents)[..run])(b);
      OnlyDocuments(p, cards[..run]);
      OnlyDocuments(p, Excerpts(cards[..run], PageTexts(documents)[..run], b));
    }
  }

  /** No object stands after a document that is none. */
  predicate ObjectsFirst(documents: seq<Json>) {
    forall i, j | 0 <= i < j < |documents| && documents[j].JObj? :: documents[i].JObj?
  }

  /** With the objects first, the cards are made from just the leading documents, in order. */
  lemma {:induction false} CardsOfLeading(documents: seq<Json>)
    requires ObjectsFirst(documents)
    ensures forall i | 0 <= i < |documents| :: documents[i].JObj? <==> i < |CardsOf(documents)|
    ensures forall i | 0 <= i < |CardsOf(documents)| :: CardsOf(documents)[i] == JObj(Project(documents[i].fields, CARD_KEYS))
    decreases |documents|
  {
    if documents != [] {
      var init := documents[..|documents| - 1];
      CardsOfLeading(init);
    }
  }

  /** Otherwise some card is made from a later document than the one at its place. */
  lemma {:induction false} LeadingAreObjects(documents: seq<Json>)
    requires forall i | 0 <= i < |CardsOf(documents)| :: documents[i].JObj?
    ensures ObjectsFirst(documents)
    decreases |documents|
  {
    if documents != [] {
      var init := documents[..|documents| - 1];
      var k := |CardsOf(init)|;
      LeadingAreObjects(init);
      CardsOfLeading(init);
      assert k < |init| && k < |CardsOf(documents)| ==> documents[k].JObj? && init[k] == documents[k];
    }
  }

  /** A card and the page text at its place come from one document, for every card, exactly when the objects stand first. */
  lemma CardsMatchPages(documents: seq<Json>)
    ensures (forall i | 0 <= i < |CardsOf(documents)| ::
               documents[i].JObj? && CardsOf(documents)[i] == JObj(Project(documents[i].fields, CARD_KEYS)))
            <==> ObjectsFirst(documents)
  {
    if ObjectsFirst(documents) {
      CardsOfLeading(documents);
    } else if forall i | 0 <= i < |CardsOf(documents)| :: documents[i].JObj? {
      LeadingAreObjects(documents);
    }
  }

  /** Then each card carries the start of its own page. */
  lemma ExcerptsAreOwn(documents: seq<Json>, run: nat, budget: nat, i: nat)
    requires ObjectsFirst(documents) && i < run <= |CardsOf(documents)|
    ensures documents[i].JObj?
    ensures var r := Excerpts(CardsOf(documents)[..run], PageTexts(documents)[..run], budget);
            exists amount | 0 <= amount <= |PageText(documents[i])| ::
              r[i] == Excerpt(JObj(Project(documents[i].fields, CARD_KEYS)), PageText(documents[i]), amount)
  {
    CardsOfLeading(documents);
    var texts := PageTexts(documents)[..run];
    SharesWithin(Lengths(texts), budget);
    var amount := Shares(Lengths(texts), budget)[i];
    assert texts[i] == PageText(documents[i]);
    var cards := CardsOf(documents)[..run];
    assert cards[i] in cards && cards[i] == CardsOf(documents)[i];
    assert Excerpts(cards, texts, budget)[i] == Excerpt(cards[i], texts[i], amount);
  }

  // ---------------------------------------------------------------- the method

  class ContextFitter {
    var context: AnswerContext

    constructor (packet: Packet)
      ensures fresh(context) && context.packet == packet
    {
      context := new AnswerContext(packet);
    }

    /** The blocks' loop: each object among them is compacted where it stands. */
    method CompactAll(blocks: seq<Json>) returns (r: seq<Json>)
      ensures r == CompactBlocks(blocks)
    {
      r := blocks;
      for i := 0 to |blocks|
        invariant |r| == |blocks| && r[i..] == blocks[i..]
        invariant forall k | 0 <= k < i :: r[k] == CompactBlock(blocks[k])
      {
        assert r[i] == r[i..][0] == blocks[i];
        r := r[i := CompactBlock(r[i])];
      }
    }

    method TrimSummary(steps: seq<Json>)
      modifies context
      ensures context.packet == FewSteps(old(context.packet), steps)
    {
      var summary := GetKey(context.packet, "result_summary");
      if summary.Some? && summary.value.JObj? {
        var fields := summary.value.fields;
        var blocks := CompactAll(ItemsOf(ValueOf(fields, "blocks")));
        var compact := SetKey(fields, "blocks", JList(Head(blocks, 8)));
        context.packet := SetKey(context.packet, "result_summary", JObj(compact));
      }
      context.packet := SetKey(context.packet, "steps", JList(Head(steps, 8)));
    }

    method FitAnswerContext(steps: seq<Json>)
      modifies context
      ensures context.packet == Fitted(old(context.packet), steps)
      ensures context.PacketSize() <= MAX_CONTEXT
    {
      if context.PacketSize() <= MAX_CONTEXT {
        return;
      }
      TrimSummary(steps);
      if context.PacketSize() <= MAX_CONTEXT {
        return;
      }
      context.packet := CompactSteps(context.packet);
      context.FitWebDocuments();
      if context.PacketSize() <= MAX_CONTEXT {
        return;
      }
      ShortenTexts();
    }

    /** The last two stages, when compacting was not enough. */
    method ShortenTexts()
      requires context.PacketSize() > MAX_CONTEXT
      modifies context
      ensures context.packet == ShortStage(old(context.packet))
    {
      context.packet := ShortTexts(context.packet);
      context.FitWebDocuments();
      KeepEssentials();
    }

    method KeepEssentials()
      modifies context
      ensures context.packet == LastStage(old(context.packet))
    {
      if context.PacketSize() > MAX_CONTEXT {
        context.packet := Essentials(context.packet);
      }
    }
  }
}
