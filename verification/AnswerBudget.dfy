/**
 Fitting the answer context: optional detail is given up stage by stage until the serialised
 packet is within its limit, and page text is cut to the largest budget that fits.
 */
module AnswerBudget {
  import opened Wrappers
  import opened Json
  import opened JsonPicks
  import opened TextShares

  const MAX_CONTEXT := 12000
  const MAX_PAGE := 6000
  const SCHEMA := "spatial-agent.answer-generation.v1"
  const DOCUMENTS := "web_documents"
  const CARD_KEYS := ["url", "domain", "title"]
  const STEP_KEYS := ["id", "tool", "status", "error"]
  const RECORD_KEYS := ["source_id", "title", "url", "domain", "quality"]

  type Packet = seq<Field>

  predicate Fits(p: Packet) {
    Size(JObj(p)) <= MAX_CONTEXT
  }

  function Take(s: string, limit: nat): (r: string)
    ensures |r| <= limit && r <= s
  {
    if |s| <= limit then s else s[..limit]
  }

  function Head<T>(s: seq<T>, n: nat): (r: seq<T>)
    ensures |r| <= n
  {
    if |s| <= n then s else s[..n]
  }

  /** `_safe_text`. */
  function SafeText(v: Json, limit: nat): (r: string)
    ensures |r| <= limit
  {
    Take(TextOf(v), limit)
  }

  function ItemsOf(v: Json): seq<Json> {
    if v.JList? then v.items else []
  }

  // ---------------------------------------------------------------- page text

  /** A source card: an object that has no text yet. */
  predicate IsCard(v: Json) {
    v.JObj? && forall f | f in v.fields :: f.key != "text"
  }

  predicate AllCards(cards: seq<Json>) {
    forall c | c in cards :: IsCard(c)
  }

  function PageText(document: Json): string {
    if document.JObj? then SafeText(ValueOf(document.fields, "text"), MAX_PAGE) else ""
  }

  function PageTexts(documents: seq<Json>): (r: seq<string>)
    ensures |r| == |documents| && forall i | 0 <= i < |r| :: r[i] == PageText(documents[i])
  {
    seq(|documents|, i requires 0 <= i < |documents| => PageText(documents[i]))
  }

  function Lengths(texts: seq<string>): (r: seq<nat>)
    ensures |r| == |texts| && forall i | 0 <= i < |r| :: r[i] == |texts[i]|
  {
    seq(|texts|, i requires 0 <= i < |texts| => |texts[i]|)
  }

  function Excerpt(card: Json, text: string, amount: nat): Json
    requires card.JObj? && amount <= |text|
  {
    if amount == 0 then card else JObj(SetKey(card.fields, "text", JStr(text[..amount])))
  }

  /** The cards with their share of the text budget. */
  function Excerpts(cards: seq<Json>, texts: seq<string>, budget: nat): (r: seq<Json>)
    requires |cards| == |texts| && AllCards(cards)
    ensures |r| == |cards|
  {
    var shares := Shares(Lengths(texts), budget);
    SharesWithin(Lengths(texts), budget);
    seq(|cards|, i requires 0 <= i < |cards| => assert cards[i] in cards; Excerpt(cards[i], texts[i], shares[i]))
  }

  function WithDocuments(p: Packet, documents: seq<Json>): Packet {
    SetKey(p, DOCUMENTS, JList(documents))
  }

  // ---------------------------------------------------------------- the simple form of the search

  /** The largest number up to `n` that fits, found by trying each in turn; 0 if none does. */
  function Largest(fits: nat -> bool, n: nat): (r: nat)
    ensures r <= n
  {
    if n == 0 then 0 else if fits(n) then n else Largest(fits, n - 1)
  }

  /** Does the packet fit with the first `n` cards? */
  function RunFits(p: Packet, cards: seq<Json>): nat -> bool {
    (n: nat) => n <= |cards| && Fits(WithDocuments(p, cards[..n]))
  }

  /** Does the packet fit with this much text shared over the cards? */
  function TextFits(p: Packet, cards: seq<Json>, texts: seq<string>): nat -> bool
    requires |cards| == |texts| && AllCards(cards)
  {
    (budget: nat) => Fits(WithDocuments(p, Excerpts(cards, texts, budget)))
  }

  /** The longest leading run of cards whose metadata fits. */
  function LongestRun(p: Packet, cards: seq<Json>): (r: nat)
    ensures r <= |cards|
  {
    Largest(RunFits(p, cards), |cards|)
  }

  function LargestBudget(p: Packet, cards: seq<Json>, texts: seq<string>): nat
    requires |cards| == |texts| && AllCards(cards)
  {
    Largest(TextFits(p, cards, texts), Total(Lengths(texts)))
  }

  function CardsOf(documents: seq<Json>): (r: seq<Json>)
    ensures |r| <= |documents| && AllCards(r)
  {
    ProjectAll(documents, CARD_KEYS)
  }

  /** What `fit_web_documents` makes of the packet. */
  function FittedDocuments(p: Packet): Packet {
    var v := GetKey(p, DOCUMENTS);
    if v.None? || !v.value.JList? then p
    else
      var documents := v.value.items;
      var cards := CardsOf(documents);
      var run := LongestRun(p, cards);
      if run == 0 then PopKey(p, DOCUMENTS)
      else FittedTexts(p, cards[..run], PageTexts(documents)[..run])
  }

  function FittedTexts(p: Packet, cards: seq<Json>, texts: seq<string>): Packet
    requires |cards| == |texts| && AllCards(cards)
  {
    if Total(Lengths(texts)) == 0 then WithDocuments(p, cards)
    else WithDocuments(p, Excerpts(cards, texts, LargestBudget(p, cards, texts)))
  }

  // ---------------------------------------------------------------- setting the documents again

  predicate HoldsDocuments(p: Packet) {
    var v := GetKey(p, DOCUMENTS);
    v.Some? && v.value.JList?
  }

  lemma SetOwn(p: Packet)
    requires HoldsDocuments(p)
    ensures p == WithDocuments(p, GetKey(p, DOCUMENTS).value.items)
  {
  }

  lemma SetAgain(p: Packet, a: seq<Json>, b: seq<Json>)
    requires HoldsDocuments(p)
    ensures HoldsDocuments(WithDocuments(p, a))
    ensures WithDocuments(WithDocuments(p, a), b) == WithDocuments(p, b)
  {
    SetKeyIndex(p, DOCUMENTS, JList(a), DOCUMENTS);
  }

  lemma PopSet(p: Packet, a: seq<Json>)
    requires HoldsDocuments(p)
    ensures PopKey(WithDocuments(p, a), DOCUMENTS) == PopKey(p, DOCUMENTS)
  {
    SetKeyIndex(p, DOCUMENTS, JList(a), DOCUMENTS);
  }

  // ---------------------------------------------------------------- the search is over a monotone bound

  lemma {:induction false} ZeroShares(lens: seq<nat>)
    ensures forall i | 0 <= i < |lens| :: Shares(lens, 0)[i] == 0
    decreases |lens|
  {
    if lens != [] {
      ZeroShares(lens[1..]);
    }
  }

  lemma NoBudgetNoText(cards: seq<Json>, texts: seq<string>)
    requires |cards| == |texts| && AllCards(cards)
    ensures Excerpts(cards, texts, 0) == cards
  {
    ZeroShares(Lengths(texts));
  }

  lemma TextSize(text: string, a: nat, b: nat)
    requires a <= b <= |text|
    ensures Size(JStr(text[..a])) <= Size(JStr(text[..b]))
  {
    EscapedPrefix(text[..b], a);
    assert text[..b][..a] == text[..a];
  }

  lemma ExcerptSize(card: Json, text: string, a: nat, b: nat)
    requires IsCard(card) && a <= b <= |text|
    ensures Size(Excerpt(card, text, a)) <= Size(Excerpt(card, text, b))
  {
    var fields := card.fields;
    assert IndexOf(fields, "text") < 0;
    if b > 0 {
      AppendSize(fields, Field("text", JStr(text[..a])));
      AppendSize(fields, Field("text", JStr(text[..b])));
      TextSize(text, a, b);
    }
  }

  /** More text never makes the packet smaller. */
  lemma MoreTextCostsMore(p: Packet, cards: seq<Json>, texts: seq<string>, b: nat, c: nat)
    requires HoldsDocuments(p) && |cards| == |texts| && AllCards(cards) && b <= c
    ensures TextFits(p, cards, texts)(c) ==> TextFits(p, cards, texts)(b)
  {
    var lens := Lengths(texts);
    SharesMonotone(lens, b, c);
    SharesWithin(lens, b);
    SharesWithin(lens, c);
    var small, big := Excerpts(cards, texts, b), Excerpts(cards, texts, c);
    forall i | 0 <= i < |cards|
      ensures Size(small[i]) <= Size(big[i])
    {
      assert cards[i] in cards;
      ExcerptSize(cards[i], texts[i], Shares(lens, b)[i], Shares(lens, c)[i]);
    }
    ItemsGrow(small, big);
    SetKeySize(p, DOCUMENTS, JList(small));
    SetKeySize(p, DOCUMENTS, JList(big));
  }

  ghost predicate NoneAbove(fits: nat -> bool, high: int, n: nat) {
    forall b: nat | high < b <= n :: !fits(b)
  }

  lemma NoMoreFits(p: Packet, cards: seq<Json>, texts: seq<string>, b: nat, n: nat)
    requires HoldsDocuments(p) && |cards| == |texts| && AllCards(cards) && !TextFits(p, cards, texts)(b)
    ensures NoneAbove(TextFits(p, cards, texts), b - 1, n)
  {
    forall c: nat | b <= c
      ensures !TextFits(p, cards, texts)(c)
    {
      MoreTextCostsMore(p, cards, texts, b, c);
    }
  }

  /** More cards never make it smaller either. */
  lemma MoreCardsCostMore(p: Packet, cards: seq<Json>, m: nat, n: nat)
    requires HoldsDocuments(p) && m <= n <= |cards|
    ensures RunFits(p, cards)(n) ==> RunFits(p, cards)(m)
  {
    ItemsPrefix(cards[..n], m);
    assert cards[..n][..m] == cards[..m];
    SetKeySize(p, DOCUMENTS, JList(cards[..m]));
    SetKeySize(p, DOCUMENTS, JList(cards[..n]));
  }

  ghost predicate Downward(fits: nat -> bool, n: nat) {
    forall b, c | 0 <= b <= c <= n :: fits(c) ==> fits(b)
  }

  lemma {:induction false} LargestIs(fits: nat -> bool, n: nat, h: nat)
    requires h <= n && fits(h) && NoneAbove(fits, h, n)
    ensures Largest(fits, n) == h
    decreases n
  {
    if h < n {
      LargestIs(fits, n - 1, h);
    }
  }

  lemma {:induction false} LargestSplits(fits: nat -> bool, n: nat)
    requires Downward(fits, n)
    ensures forall b | 1 <= b <= n :: fits(b) <==> b <= Largest(fits, n)
    decreases n
  {
    if n > 0 && !fits(n) {
      LargestSplits(fits, n - 1);
    }
  }

  /** A text budget fits exactly when it is no larger than the one chosen. */
  lemma LargestBudgetFits(p: Packet, cards: seq<Json>, texts: seq<string>)
    requires HoldsDocuments(p) && |cards| == |texts| && AllCards(cards) && Fits(WithDocuments(p, cards))
    ensures forall b | 0 <= b <= Total(Lengths(texts)) ::
              TextFits(p, cards, texts)(b) <==> b <= LargestBudget(p, cards, texts)
  {
    NoBudgetNoText(cards, texts);
    forall b: nat, c: nat | b <= c
      ensures TextFits(p, cards, texts)(c) ==> TextFits(p, cards, texts)(b)
    {
      MoreTextCostsMore(p, cards, texts, b, c);
    }
    LargestSplits(TextFits(p, cards, texts), Total(Lengths(texts)));
  }

  /** A leading run of cards fits exactly when it is no longer than the one kept. */
  lemma LongestRunFits(p: Packet, cards: seq<Json>)
    requires HoldsDocuments(p)
    ensures forall m | 1 <= m <= |cards| :: Fits(WithDocuments(p, cards[..m])) <==> m <= LongestRun(p, cards)
  {
    forall m: nat, n: nat | m <= n <= |cards|
      ensures RunFits(p, cards)(n) ==> RunFits(p, cards)(m)
    {
      MoreCardsCostMore(p, cards, m, n);
    }
    LargestSplits(RunFits(p, cards), |cards|);
    assert forall m: nat | m <= |cards| :: RunFits(p, cards)(m) <==> Fits(WithDocuments(p, cards[..m]));
  }

  // ---------------------------------------------------------------- the loops of the code

  /** `with_text_budget`: what is left is shared out as the loop goes. */
  method WithTextBudget(cards: seq<Json>, texts: seq<string>, budget: nat) returns (result: seq<Json>)
    requires |cards| == |texts| && AllCards(cards)
    ensures result == Excerpts(cards, texts, budget)
  {
    var remaining: nat := budget;
    result := [];
    ghost var shares := Shares(Lengths(texts), budget);
    for i := 0 to |cards|
      invariant result == Excerpts(cards, texts, budget)[..i]
      invariant shares[i..] == Shares(Lengths(texts)[i..], remaining)
    {
      ShareAt(Lengths(texts), i, remaining, shares);
      ExcerptAt(cards, texts, budget, i);
      var slots := |cards| - i;
      var amount := Min(|texts[i]|, Ceil(remaining, slots));
      result := result + [Excerpt(cards[i], texts[i], amount)];
      remaining := remaining - amount;
    }
  }

  /** One turn of the loop takes the next share of what remains. */
  lemma ShareAt(lens: seq<nat>, i: nat, remaining: nat, shares: seq<nat>)
    requires i < |lens| == |shares| && shares[i..] == Shares(lens[i..], remaining)
    ensures shares[i] == Min(lens[i], Ceil(remaining, |lens| - i)) <= remaining
    ensures shares[i + 1..] == Shares(lens[i + 1..], remaining - shares[i])
  {
    assert lens[i..][0] == lens[i] && lens[i..][1..] == lens[i + 1..];
    assert shares[i..][0] == shares[i] && shares[i..][1..] == shares[i + 1..];
  }

  lemma ExcerptAt(cards: seq<Json>, texts: seq<string>, budget: nat, i: nat)
    requires |cards| == |texts| && AllCards(cards) && i < |cards|
    ensures cards[i].JObj? && Shares(Lengths(texts), budget)[i] <= |texts[i]|
    ensures Excerpts(cards, texts, budget)[..i + 1]
            == Excerpts(cards, texts, budget)[..i] + [Excerpt(cards[i], texts[i], Shares(Lengths(texts), budget)[i])]
  {
    SharesWithin(Lengths(texts), budget);
    assert cards[i] in cards;
  }

  class AnswerContext {
    var packet: Packet

    constructor (packet: Packet)
      ensures this.packet == packet
    {
      this.packet := packet;
    }

    function PacketSize(): nat
      reads this
    {
      Size(JObj(packet))
    }

    /** The packet is `p` but for its documents. */
    ghost predicate Holding(p: Packet)
      reads this
    {
      HoldsDocuments(p) && exists documents :: packet == WithDocuments(p, documents)
    }

    method SetDocuments(ghost p: Packet, documents: seq<Json>) returns (fits: bool)
      requires Holding(p)
      modifies this
      ensures Holding(p) && packet == WithDocuments(p, documents)
      ensures fits <==> Fits(WithDocuments(p, documents))
    {
      ghost var earlier :| packet == WithDocuments(p, earlier);
      SetAgain(p, earlier, documents);
      packet := SetKey(packet, DOCUMENTS, JList(documents));
      fits := PacketSize() <= MAX_CONTEXT;
    }

    /** The countdown over leading runs of cards; the packet is left holding the run tried last. */
    method KeepLeadingCards(cards: seq<Json>) returns (run: nat)
      requires HoldsDocuments(packet)
      modifies this
      ensures run == LongestRun(old(packet), cards) && Holding(old(packet))
    {
      ghost var p := packet;
      SetOwn(p);
      var count: nat := |cards|;
      while count > 0
        invariant count <= |cards| && LongestRun(p, cards) == Largest(RunFits(p, cards), count)
        invariant Holding(p)
      {
        var fits := SetDocuments(p, cards[..count]);
        if fits {
          return count;
        }
        count := count - 1;
      }
      return 0;
    }

    /** The binary search over text budgets. */
    method FitTexts(ghost p: Packet, cards: seq<Json>, texts: seq<string>, total: nat)
      requires Holding(p) && |cards| == |texts| && AllCards(cards)
      requires Fits(WithDocuments(p, cards)) && total == Total(Lengths(texts))
      modifies this
      ensures packet == WithDocuments(p, Excerpts(cards, texts, LargestBudget(p, cards, texts)))
    {
      ghost var fits, chosen: nat := TextFits(p, cards, texts), 0;
      NoBudgetNoText(cards, texts);
      var low: nat, high: int, best := 0, total, cards;
      while low <= high
        invariant low <= high + 1 <= total + 1
        invariant best == Excerpts(cards, texts, chosen) && fits(chosen) && (low == chosen == 0 || low == chosen + 1)
        invariant NoneAbove(fits, high, total)
        invariant Holding(p)
      {
        var middle := (low + high) / 2;
        var candidate := WithTextBudget(cards, texts, middle);
        var ok := SetDocuments(p, candidate);
        if ok {
          best, chosen := candidate, middle;
          low := middle + 1;
        } else {
          NoMoreFits(p, cards, texts, middle, total);
          high := middle - 1;
        }
      }
      LargestIs(fits, total, chosen);
      var _ := SetDocuments(p, best);
    }

    method FitWebDocuments()
      modifies this
      ensures packet == FittedDocuments(old(packet))
    {
      ghost var p := packet;
      var value := GetKey(packet, DOCUMENTS);
      if value.None? || !value.value.JList? {
        return;
      }
      var cards, texts := CardsOf(value.value.items), PageTexts(value.value.items);
      var run := KeepLeadingCards(cards);
      if run == 0 {
        ghost var documents :| packet == WithDocuments(p, documents);
        PopSet(p, documents);
        packet := PopKey(packet, DOCUMENTS);
        return;
      }
      var selected, selectedTexts := cards[..run], texts[..run];
      LongestRunFits(p, cards);
      var total := Total(Lengths(selectedTexts));
      if total <= 0 {
        var _ := SetDocuments(p, selected);
      } else {
        FitTexts(p, selected, selectedTexts, total);
      }
    }
  }
}
