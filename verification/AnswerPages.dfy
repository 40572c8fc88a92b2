/**
 The web pages of an answer context, from the run that fetched them to the packet: they are
 projected once, and fitted at most twice.
 */
module AnswerPages {
  import opened Wrappers
  import opened Json
  import opened JsonPicks
  import opened TextShares
  import opened AnswerBudget
  import opened AnswerContextFit

  const MAX_PAGES := 8
  const ROOM := 6000
  const MAX_REQUEST := 800

  // ---------------------------------------------------------------- projecting

  function Last<T>(s: seq<T>, n: nat): (r: seq<T>)
    ensures |r| <= n && forall x | x in r :: x in s
  {
    if |s| <= n then s else s[|s| - n..]
  }

  /** The text of a source page, as far as there is room for it. */
  function Portion(item: seq<Field>, room: nat): string {
    SafeText(ValueOf(item, "text"), if room < MAX_PAGE then room else MAX_PAGE)
  }

  function Page(item: seq<Field>, text: string): Json {
    JObj([Field("url", JStr(SafeText(ValueOf(item, "url"), MAX_REQUEST))),
          Field("domain", JStr(SafeText(ValueOf(item, "domain"), 255))),
          Field("title", JStr(SafeText(ValueOf(item, "title"), 240))),
          Field("text", JStr(text))])
  }

  type Layout = (seq<Field>, string) -> Json

  /** Pages without text are skipped; the first item that is no object ends the list. */
  function Pages(items: seq<Json>, room: nat, layout: Layout): seq<Json> {
    if items == [] || room == 0 || !items[0].JObj? then []
    else
      var text := Portion(items[0].fields, room);
      if text == "" then Pages(items[1..], room, layout)
      else [layout(items[0].fields, text)] + Pages(items[1..], room - |text|, layout)
  }

  /** `_project_web_documents`: the last eight pages, within 6000 characters of text in all. */
  function WebDocuments(value: Json): seq<Json> {
    if value.JList? then Pages(Last(value.items, MAX_PAGES), ROOM, Page) else []
  }

  method ProjectWebDocuments(value: Json) returns (result: seq<Json>)
    ensures result == WebDocuments(value)
  {
    if !value.JList? {
      return [];
    }
    result := ProjectLeading(Last(value.items, MAX_PAGES), ROOM, Page);
  }

  /** The loop, which is the same for pages of any layout. */
  method ProjectLeading(items: seq<Json>, room: nat, layout: Layout) returns (result: seq<Json>)
    ensures result == Pages(items, room, layout)
  {
    result := [];
    var remaining: nat := room;
    ghost var all := Collected(items, 0, room, layout, []);
    for i := 0 to |items|
      invariant Collected(items, i, remaining, layout, result) == all
    {
      if remaining <= 0 || !items[i].JObj? {
        break;
      }
      var text := Portion(items[i].fields, remaining);
      if text != "" {
        result := result + [layout(items[i].fields, text)];
        remaining := remaining - |text|;
      }
    }
    CollectedIs(items, 0, room, layout, []);
    assert items[0..] == items && result == all;
  }

  /** What the loop will have collected when it ends. */
  function Collected(items: seq<Json>, i: nat, room: nat, layout: Layout, result: seq<Json>): seq<Json>
    requires i <= |items|
    decreases |items| - i
  {
    if i == |items| || room == 0 || !items[i].JObj? then result
    else
      var text := Portion(items[i].fields, room);
      if text == "" then Collected(items, i + 1, room, layout, result)
      else Collected(items, i + 1, room - |text|, layout, result + [layout(items[i].fields, text)])
  }

  lemma {:induction false} CollectedIs(items: seq<Json>, i: nat, room: nat, layout: Layout, result: seq<Json>)
    requires i <= |items|
    ensures Collected(items, i, room, layout, result) == result + Pages(items[i..], room, layout)
    decreases |items| - i
  {
    if i < |items| {
      var tail := items[i + 1..];
      assert items[i..][1..] == tail;
      PagesFrom(items[i..], items[i], tail, room, layout);
      if room > 0 && items[i].JObj? {
        var text := Portion(items[i].fields, room);
        if text == "" {
          CollectedIs(items, i + 1, room, layout, result);
        } else {
          var page := layout(items[i].fields, text);
          CollectedIs(items, i + 1, room - |text|, layout, result + [page]);
          JoinOne(result, page, Pages(tail, room - |text|, layout));
        }
      }
    }
  }

  lemma PagesFrom(rest: seq<Json>, first: Json, tail: seq<Json>, room: nat, layout: Layout)
    requires rest != [] && rest[0] == first && rest[1..] == tail
    ensures room == 0 || !first.JObj? ==> Pages(rest, room, layout) == []
    ensures room > 0 && first.JObj? ==>
              var text := Portion(first.fields, room);
              && |text| <= room
              && (text == "" ==> Pages(rest, room, layout) == Pages(tail, room, layout))
              && (text != "" ==> Pages(rest, room, layout) == [layout(first.fields, text)] + Pages(tail, room - |text|, layout))
  {
  }

  lemma JoinOne(a: seq<Json>, x: Json, b: seq<Json>)
    ensures a + ([x] + b) == a + [x] + b
  {
  }

  /** A page made from one of these items, with the start of that item's text. */
  ghost predicate PageOf(v: Json, items: seq<Json>) {
    exists x | x in items :: x.JObj? && PageFrom(v, x.fields)
  }

  predicate PageFrom(v: Json, item: seq<Field>) {
    v == Page(item, PageText(v)) && PageText(v) != "" && PageText(v) <= SafeText(ValueOf(item, "text"), MAX_PAGE)
  }

  function PageLength(v: Json): nat {
    |PageText(v)|
  }

  function TextTotal(pages: seq<Json>): nat {
    if pages == [] then 0 else PageLength(pages[0]) + TextTotal(pages[1..])
  }

  lemma PageReads(item: seq<Field>, text: string)
    requires |text| <= MAX_PAGE
    ensures PageText(Page(item, text)) == text
  {
    IndexIs(Page(item, text).fields, "text", 3);
  }

  lemma PortionIsPage(item: seq<Field>, room: nat)
    requires Portion(item, room) != ""
    ensures PageFrom(Page(item, Portion(item, room)), item)
    ensures PageText(Page(item, Portion(item, room))) == Portion(item, room) && |Portion(item, room)| <= room
  {
    PageReads(item, Portion(item, room));
  }

  lemma MoreItems(pages: seq<Json>, items: seq<Json>, all: seq<Json>)
    requires (forall v | v in pages :: PageOf(v, items)) && forall x | x in items :: x in all
    ensures forall v | v in pages :: PageOf(v, all)
  {
  }

  /** Every page is made from an item, with the start of its text; together they keep within the room. */
  lemma {:induction false} PagesFacts(items: seq<Json>, room: nat)
    ensures |Pages(items, room, Page)| <= |items| && TextTotal(Pages(items, room, Page)) <= room
    ensures forall v | v in Pages(items, room, Page) :: PageOf(v, items)
    decreases |items|
  {
    if items != [] && room > 0 && items[0].JObj? {
      var text := Portion(items[0].fields, room);
      PagesFacts(items[1..], room - |text|);
      MoreItems(Pages(items[1..], room - |text|, Page), items[1..], items);
      if text != "" {
        PortionIsPage(items[0].fields, room);
        FirstPage(Page(items[0].fields, text), items, Pages(items[1..], room - |text|, Page));
      }
    }
  }

  lemma FirstPage(v: Json, items: seq<Json>, rest: seq<Json>)
    requires items != [] && items[0].JObj? && PageFrom(v, items[0].fields)
    ensures PageOf(v, items) && TextTotal([v] + rest) == PageLength(v) + TextTotal(rest)
  {
    assert items[0] in items && ([v] + rest)[1..] == rest;
  }

  lemma AllObjectsFirst(documents: seq<Json>)
    requires forall v | v in documents :: v.JObj?
    ensures ObjectsFirst(documents)
  {
  }

  lemma WebDocumentsFacts(value: Json)
    ensures |WebDocuments(value)| <= MAX_PAGES && TextTotal(WebDocuments(value)) <= ROOM
    ensures forall v | v in WebDocuments(value) :: v.JObj?
    ensures value.JList? ==> forall v | v in WebDocuments(value) :: PageOf(v, value.items)
  {
    if value.JList? {
      PagesFacts(Last(value.items, MAX_PAGES), ROOM);
      MoreItems(WebDocuments(value), Last(value.items, MAX_PAGES), value.items);
      forall v | v in WebDocuments(value)
        ensures v.JObj?
      {
        var x :| x in value.items && x.JObj? && PageFrom(v, x.fields);
      }
    }
  }

  // ---------------------------------------------------------------- keys through the stages

  lemma SetKeepsDistinct(fields: seq<Field>, key: string, value: Json)
    requires DistinctKeys(fields)
    ensures DistinctKeys(SetKey(fields, key, value))
  {
  }

  /** The stages before and between the fittings leave the documents where they are. */
  lemma StagesKeepDocuments(p: Packet, steps: seq<Json>)
    ensures GetKey(FewSteps(p, steps), DOCUMENTS) == GetKey(p, DOCUMENTS)
    ensures GetKey(CompactSteps(p), DOCUMENTS) == GetKey(p, DOCUMENTS)
    ensures GetKey(ShortTexts(p), DOCUMENTS) == GetKey(p, DOCUMENTS)
  {
    SummaryKeepsDocuments(p);
    SetKeyReads(CompactSummary(p), "steps", JList(AnswerBudget.Head(steps, 8)), DOCUMENTS);
    SetKeyReads(p, "steps", JList(ProjectAll(ItemsOf(ValueOf(p, "steps")), STEP_KEYS)), DOCUMENTS);
    ShortTextsKeepDocuments(p);
  }

  lemma SummaryKeepsDocuments(p: Packet)
    ensures GetKey(CompactSummary(p), DOCUMENTS) == GetKey(p, DOCUMENTS)
  {
    match GetKey(p, "result_summary")
    case Some(JObj(summary)) =>
      var blocks := CompactBlocks(ItemsOf(ValueOf(summary, "blocks")));
      SetKeyReads(p, "result_summary", JObj(SetKey(summary, "blocks", JList(AnswerBudget.Head(blocks, 8)))), DOCUMENTS);
    case _ =>
  }

  lemma ShortTextsKeepDocuments(p: Packet)
    ensures GetKey(ShortTexts(p), DOCUMENTS) == GetKey(p, DOCUMENTS)
  {
    var p1 := SetKey(p, "assumptions", JList(AnswerBudget.Head(ItemsOf(ValueOf(p, "assumptions")), 3)));
    var p2 := SetKey(p1, "goal", JStr(SafeText(ValueOf(p1, "goal"), 240)));
    SetKeyReads(p, "assumptions", JList(AnswerBudget.Head(ItemsOf(ValueOf(p, "assumptions")), 3)), DOCUMENTS);
    SetKeyReads(p1, "goal", JStr(SafeText(ValueOf(p1, "goal"), 240)), DOCUMENTS);
    SetKeyReads(p2, "request", JStr(SafeText(ValueOf(p2, "request"), 400)), DOCUMENTS);
  }

  lemma StagesKeepDistinct(p: Packet, steps: seq<Json>)
    requires DistinctKeys(p)
    ensures DistinctKeys(CompactSteps(FewSteps(p, steps)))
  {
    SummaryKeepsDistinct(p);
    SetKeepsDistinct(CompactSummary(p), "steps", JList(AnswerBudget.Head(steps, 8)));
    var q := FewSteps(p, steps);
    SetKeepsDistinct(q, "steps", JList(ProjectAll(ItemsOf(ValueOf(q, "steps")), STEP_KEYS)));
  }

  lemma SummaryKeepsDistinct(p: Packet)
    requires DistinctKeys(p)
    ensures DistinctKeys(CompactSummary(p))
  {
    match GetKey(p, "result_summary")
    case Some(JObj(summary)) =>
      var blocks := CompactBlocks(ItemsOf(ValueOf(summary, "blocks")));
      SetKeepsDistinct(p, "result_summary", JObj(SetKey(summary, "blocks", JList(AnswerBudget.Head(blocks, 8)))));
    case _ =>
  }

  lemma EssentialsHoldNoDocuments(p: Packet)
    ensures GetKey(Essentials(p), DOCUMENTS).None?
  {
  }

  // ---------------------------------------------------------------- the second fitting

  lemma FittingTwice(q: Packet)
    requires DistinctKeys(q) && !Fits(FittedDocuments(q))
    ensures !HoldsDocuments(FittedDocuments(q))
  {
    if HoldsDocuments(q) {
      DocumentsFitted(q);
    }
  }

  /**
   The documents are fitted a second time after the texts have been shortened, but by then they
   are gone or were never a list: the room the shorter texts make never brings a page back.
   */
  lemma SecondFittingIsIdle(q: Packet)
    requires DistinctKeys(q) && !Fits(FittedDocuments(q))
    ensures var f := ShortTexts(FittedDocuments(q)); FittedDocuments(f) == f
  {
    FittingTwice(q);
    ShortTextsKeepDocuments(FittedDocuments(q));
  }

  lemma LaterStagesKeepPages(q: Packet)
    requires DistinctKeys(q) && HoldsDocuments(q)
    ensures GetKey(ShortStage(FittedDocuments(q)), DOCUMENTS).Some? <==> GetKey(FittedDocuments(q), DOCUMENTS).Some?
  {
    var f := FittedDocuments(q);
    DocumentsFitted(q);
    if !Fits(f) {
      SecondFittingIsIdle(q);
      ShortTextsKeepDocuments(f);
      EssentialsHoldNoDocuments(ShortTexts(f));
    }
  }

  lemma PagesSurviveFitting(q: Packet)
    requires DistinctKeys(q) && HoldsDocuments(q)
    ensures var cards := CardsOf(GetKey(q, DOCUMENTS).value.items);
            GetKey(ShortStage(FittedDocuments(q)), DOCUMENTS).Some?
            <==> exists m | 1 <= m <= |cards| :: Fits(WithDocuments(q, cards[..m]))
  {
    DocumentsFitted(q);
    LaterStagesKeepPages(q);
  }

  /** An oversized packet keeps pages exactly when one card fits beside its still unshortened texts. */
  lemma PagesSurvive(p: Packet, steps: seq<Json>)
    requires DistinctKeys(p) && HoldsDocuments(p) && !Fits(p) && !Fits(FewSteps(p, steps))
    ensures var q, cards := CompactSteps(FewSteps(p, steps)), CardsOf(GetKey(p, DOCUMENTS).value.items);
            GetKey(Fitted(p, steps), DOCUMENTS).Some? <==> exists m | 1 <= m <= |cards| :: Fits(WithDocuments(q, cards[..m]))
  {
    StagesKeepDocuments(p, steps);
    StagesKeepDocuments(FewSteps(p, steps), steps);
    StagesKeepDistinct(p, steps);
    PagesSurviveFitting(CompactSteps(FewSteps(p, steps)));
  }

  // ---------------------------------------------------------------- own pages, end to end

  /** The card names its page and carries the start of that page's text, if any. */
  ghost predicate CarriesOwn(card: Json, page: Json) {
    && card.JObj? && page.JObj?
    && (forall key | key in CARD_KEYS :: GetKey(card.fields, key) == GetKey(page.fields, key))
    && var text := GetKey(card.fields, "text");
       text.Some? ==> text.value.JStr? && text.value.text <= PageText(page)
  }

  lemma ExcerptCarriesOwn(page: Json, amount: nat)
    requires page.JObj? && amount <= |PageText(page)|
    ensures CarriesOwn(Excerpt(JObj(Project(page.fields, CARD_KEYS)), PageText(page), amount), page)
  {
    var card := Project(page.fields, CARD_KEYS);
    var text := JStr(PageText(page)[..amount]);
    CardHasNoText();
    forall key | key in CARD_KEYS
      ensures GetKey(card, key) == GetKey(SetKey(card, "text", text), key) == GetKey(page.fields, key)
    {
      ProjectReads(page.fields, CARD_KEYS, key);
      SetKeyReads(card, "text", text, key);
    }
    ProjectReads(page.fields, CARD_KEYS, "text");
    SetKeyReads(card, "text", text, "text");
  }

  lemma CardHasNoText()
    ensures "text" !in CARD_KEYS && forall i, j | 0 <= i < j < |CARD_KEYS| :: CARD_KEYS[i] != CARD_KEYS[j]
  {
  }

  /** What is left of these pages, in order, each with the start of its own text. */
  ghost predicate OwnPages(v: Option<Json>, pages: seq<Json>) {
    v.Some? ==>
      && v.value.JList? && |v.value.items| <= |pages|
      && forall i | 0 <= i < |v.value.items| :: CarriesOwn(v.value.items[i], pages[i])
  }

  lemma FittedCarryOwn(q: Packet, pages: seq<Json>)
    requires DistinctKeys(q) && GetKey(q, DOCUMENTS) == Some(JList(pages)) && forall v | v in pages :: v.JObj?
    ensures OwnPages(GetKey(FittedDocuments(q), DOCUMENTS), pages)
  {
    AllObjectsFirst(pages);
    CardsOfLeading(pages);
    var cards := CardsOf(pages);
    var run := LongestRun(q, cards);
    if run == 0 {
      PopKeyFacts(q, DOCUMENTS);
    } else {
      RunCarriesOwn(q, pages, run);
    }
  }

  lemma RunCarriesOwn(q: Packet, pages: seq<Json>, run: nat)
    requires (forall v | v in pages :: v.JObj?) && 1 <= run <= |CardsOf(pages)|
    ensures |PageTexts(pages)| == |pages| >= run
    ensures OwnPages(GetKey(FittedTexts(q, CardsOf(pages)[..run], PageTexts(pages)[..run]), DOCUMENTS), pages)
  {
    var cards, texts := CardsOf(pages)[..run], PageTexts(pages)[..run];
    var budget := if Total(Lengths(texts)) == 0 then 0 else LargestBudget(q, cards, texts);
    NoBudgetNoText(cards, texts);
    AllObjectsFirst(pages);
    SetKeyReads(q, DOCUMENTS, JList(Excerpts(cards, texts, budget)), DOCUMENTS);
    forall i | 0 <= i < run
      ensures CarriesOwn(Excerpts(cards, texts, budget)[i], pages[i])
    {
      ExcerptsAreOwn(pages, run, budget, i);
      var amount :| 0 <= amount <= |PageText(pages[i])| &&
        Excerpts(cards, texts, budget)[i] == Excerpt(JObj(Project(pages[i].fields, CARD_KEYS)), PageText(pages[i]), amount);
      ExcerptCarriesOwn(pages[i], amount);
    }
  }

  lemma WholeCarryOwn(items: seq<Json>, pages: seq<Json>)
    requires forall v | v in pages :: PageOf(v, items)
    ensures OwnPages(Some(JList(pages)), pages)
  {
    forall i | 0 <= i < |pages|
      ensures CarriesOwn(pages[i], pages[i])
    {
      assert pages[i] in pages;
      var x :| x in items && x.JObj? && PageFrom(pages[i], x.fields);
      PageHasText(x.fields, PageText(pages[i]));
    }
  }

  lemma PageHasText(item: seq<Field>, text: string)
    ensures GetKey(Page(item, text).fields, "text") == Some(JStr(text))
  {
    IndexIs(Page(item, text).fields, "text", 3);
  }

  /**
   Whatever pages the run fetched and however much the packet had to shrink, every source card
   the answer model sees names one of the projected pages, in their order, and what text it
   carries is the start of that page's own.
   */
  lemma AnswerCarriesOwnPages(p: Packet, fetched: Json, steps: seq<Json>)
    requires DistinctKeys(p) && fetched.JList? && GetKey(p, DOCUMENTS) == Some(JList(WebDocuments(fetched)))
    ensures OwnPages(GetKey(Fitted(p, steps), DOCUMENTS), WebDocuments(fetched))
  {
    var pages := WebDocuments(fetched);
    WebDocumentsFacts(fetched);
    WholeCarryOwn(fetched.items, pages);
    if !Fits(p) {
      StagesKeepDocuments(p, steps);
      StagesKeepDocuments(FewSteps(p, steps), steps);
      StagesKeepDistinct(p, steps);
      StepsStageCarriesOwn(FewSteps(p, steps), pages);
    }
  }

  lemma StepsStageCarriesOwn(q: Packet, pages: seq<Json>)
    requires DistinctKeys(CompactSteps(q)) && GetKey(CompactSteps(q), DOCUMENTS) == Some(JList(pages))
    requires forall v | v in pages :: v.JObj?
    requires GetKey(q, DOCUMENTS) == Some(JList(pages)) && OwnPages(Some(JList(pages)), pages)
    ensures OwnPages(GetKey(StepsStage(q), DOCUMENTS), pages)
  {
    if !Fits(q) {
      ShortStageCarriesOwn(CompactSteps(q), pages);
    }
  }

  lemma ShortStageCarriesOwn(q: Packet, pages: seq<Json>)
    requires DistinctKeys(q) && GetKey(q, DOCUMENTS) == Some(JList(pages)) && forall v | v in pages :: v.JObj?
    ensures OwnPages(GetKey(ShortStage(FittedDocuments(q)), DOCUMENTS), pages)
  {
    var f := FittedDocuments(q);
    FittedCarryOwn(q, pages);
    if !Fits(f) {
      DocumentsFitted(q);
      SecondFittingIsIdle(q);
      ShortTextsKeepDocuments(f);
      EssentialsHoldNoDocuments(ShortTexts(f));
    }
  }
}
