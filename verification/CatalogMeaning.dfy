/**
 What the catalog's scores mean: which hints of a capability occur in the request, and what
 each of them is worth.
 */
module CatalogMeaning {
  import opened Wrappers
  import opened Text
  import opened Ranking
  import opened RoutingDecision
  import opened DomainSelector

  // ---------------------------------------------------------------- occurrences

  /** The hint stands somewhere in the request. */
  ghost predicate Occurs(request: string, hint: string) {
    exists a, b :: request == a + hint + b
  }

  lemma OccursIsContained(request: string, hint: string)
    ensures Occurs(request, hint) <==> Contains(request, hint)
  {
    if Occurs(request, hint) {
      var a, b :| request == a + hint + b;
      assert OccursAt(request, hint, |a|);
    }
    if Contains(request, hint) {
      var i :| 0 <= i <= |request| && OccursAt(request, hint, i);
      assert request == request[..i] + hint + request[i + |hint|..];
    }
  }

  /** The text matches: folded, it is not blank and occurs in the request. */
  ghost predicate Matches(request: string, text: string) {
    NormalizeText(text) != "" && Occurs(request, NormalizeText(text))
  }

  function Least(a: int, b: int): int {
    if a <= b then a else b
  }

  /** An identity as words: its underscores are blanks. */
  function AsWords(id: string): (r: string)
    ensures |r| == |id| && forall i | 0 <= i < |r| :: r[i] == if id[i] == '_' then ' ' else id[i]
  {
    seq(|id|, i requires 0 <= i < |id| => if id[i] == '_' then ' ' else id[i])
  }

  lemma AsWordsIsSpaced(id: string)
    ensures Spaced(id) == AsWords(id)
  {
  }

  // ---------------------------------------------------------------- hits

  /** A text of the list matches, is worth `v` and is named after itself. */
  ghost predicate ListHit(request: string, texts: seq<string>, words: bool, base: int, cap: int, prefix: string, v: int, name: string) {
    exists t | t in texts ::
      var text := if words then AsWords(t) else t;
      Matches(request, text) && v == base + Least(|NormalizeText(text)|, cap) && name == prefix + t
  }

  /** What a capability offers that occurs in the request: phrases, its label, tasks, datasets and constraints. */
  ghost predicate IsHit(request: string, c: Capability, v: int, name: string) {
    || ListHit(request, c.hints.phrases, false, 100, 40, "phrase:", v, name)
    || (Matches(request, c.labelText) && v == 90 + Least(|NormalizeText(c.labelText)|, 30) && name == "label:" + c.id)
    || ListHit(request, c.hints.tasks, true, 70, 20, "tasks:", v, name)
    || ListHit(request, c.hints.datasets, true, 70, 20, "datasets:", v, name)
    || ListHit(request, c.hints.constraints, true, 70, 20, "constraints:", v, name)
  }

  ghost function CountMatches(request: string, texts: seq<string>, words: bool): nat {
    if texts == [] then 0
    else
      var last := texts[|texts| - 1];
      CountMatches(request, texts[..|texts| - 1], words)
      + if Matches(request, if words then AsWords(last) else last) then 1 else 0
  }

  /** How many of them match. */
  ghost function MatchCount(request: string, c: Capability): nat {
    CountMatches(request, c.hints.phrases, false)
    + (if Matches(request, c.labelText) then 1 else 0)
    + CountMatches(request, c.hints.tasks, true)
    + CountMatches(request, c.hints.datasets, true)
    + CountMatches(request, c.hints.constraints, true)
  }

  lemma TextHitMeans(request: string, text: string, base: int, cap: nat, reason: string)
    ensures TextHit(request, text, base, cap, reason)
            == if Matches(request, text) then [Ranked(base + Least(|NormalizeText(text)|, cap), reason, ())] else []
  {
    OccursIsContained(request, NormalizeText(text));
  }

  /** These hits are exactly the matching texts of the list. */
  ghost predicate HitsAre(hits: seq<Hit>, request: string, texts: seq<string>, words: bool, base: int, cap: int, prefix: string) {
    && |hits| == CountMatches(request, texts, words)
    && forall v, name :: Ranked(v, name, ()) in hits <==> ListHit(request, texts, words, base, cap, prefix, v, name)
  }

  lemma HitsGrow(hits: seq<Hit>, more: seq<Hit>, request: string, texts: seq<string>, last: string, words: bool, base: int, cap: int, prefix: string)
    requires HitsAre(hits, request, texts, words, base, cap, prefix)
    requires var text := if words then AsWords(last) else last;
             more == if Matches(request, text) then [Ranked(base + Least(|NormalizeText(text)|, cap), prefix + last, ())] else []
    ensures HitsAre(hits + more, request, texts + [last], words, base, cap, prefix)
  {
    assert (texts + [last])[..|texts|] == texts;
    forall v, name
      ensures Ranked(v, name, ()) in hits + more <==> ListHit(request, texts + [last], words, base, cap, prefix, v, name)
    {
      assert ListHit(request, texts + [last], words, base, cap, prefix, v, name) <==>
             ListHit(request, texts, words, base, cap, prefix, v, name)
             || ListHit(request, [last], words, base, cap, prefix, v, name);
    }
  }

  lemma {:induction false} PhraseHitsMean(request: string, phrases: seq<string>)
    ensures HitsAre(PhraseHits(request, phrases), request, phrases, false, 100, 40, "phrase:")
    decreases |phrases|
  {
    if phrases != [] {
      var init, last := phrases[..|phrases| - 1], phrases[|phrases| - 1];
      PhraseHitsMean(request, init);
      TextHitMeans(request, last, 100, 40, "phrase:" + last);
      HitsGrow(PhraseHits(request, init), TextHit(request, last, 100, 40, "phrase:" + last), request, init, last, false, 100, 40, "phrase:");
      assert phrases == init + [last];
    }
  }

  lemma {:induction false} IdentityHitsMean(request: string, category: string, ids: seq<string>)
    ensures HitsAre(IdentityHits(request, category, ids), request, ids, true, 70, 20, category + ":")
    decreases |ids|
  {
    if ids != [] {
      var init, last := ids[..|ids| - 1], ids[|ids| - 1];
      IdentityHitsMean(request, category, init);
      AsWordsIsSpaced(last);
      TextHitMeans(request, Spaced(last), 70, 20, category + ":" + last);
      HitsGrow(IdentityHits(request, category, init), TextHit(request, Spaced(last), 70, 20, category + ":" + last),
               request, init, last, true, 70, 20, category + ":");
      assert ids == init + [last];
    }
  }

  /** The hits are exactly what matches, one for each match. */
  lemma HitsMean(request: string, c: Capability)
    ensures |Hits(request, c)| == MatchCount(request, c)
    ensures forall v, name :: Ranked(v, name, ()) in Hits(request, c) <==> IsHit(request, c, v, name)
  {
    PhraseHitsMean(request, c.hints.phrases);
    TextHitMeans(request, c.labelText, 90, 30, "label:" + c.id);
    IdentityHitsMean(request, "tasks", c.hints.tasks);
    IdentityHitsMean(request, "datasets", c.hints.datasets);
    IdentityHitsMean(request, "constraints", c.hints.constraints);
    assert "tasks" + ":" == "tasks:" && "datasets" + ":" == "datasets:" && "constraints" + ":" == "constraints:";
  }

  // ---------------------------------------------------------------- scores

  /** The best hit is worth `v`. */
  ghost predicate BestHit(request: string, c: Capability, v: int) {
    && (exists name :: IsHit(request, c, v, name))
    && forall w, name | IsHit(request, c, w, name) :: w <= v
  }

  ghost predicate SomeMatch(request: string, c: Capability) {
    exists v, name :: IsHit(request, c, v, name)
  }

  /** The row made of these hits: the best of them, a bonus for the others, and their names. */
  lemma RowOfHits(c: Capability, hits: seq<Hit>)
    ensures var row := RowFrom(c, Sort(hits));
            && row.name == c.id && |row.item| == Least(8, |hits|)
            && (hits == [] ==> row.score == 0)
            && (hits != [] ==> exists h | h in hits ::
                  (forall g | g in hits :: g.score <= h.score) && row.score == h.score + Least(20, 5 * (|hits| - 1)))
            && forall r | r in row.item :: exists h | h in hits :: h.name == r
  {
    var sorted := Sort(hits);
    SortFacts(hits);
    if hits != [] {
      assert sorted[0] in sorted;
      forall r | r in Head(Names(sorted), 8)
        ensures exists h | h in hits :: h.name == r
      {
        var i :| 0 <= i < |Names(sorted)| && Names(sorted)[i] == r;
        assert sorted[i] in sorted;
      }
    }
  }

  /** The score is the best hit, plus five for every further match up to twenty. */
  ghost predicate Scores(request: string, c: Capability, score: int) {
    exists v :: BestHit(request, c, v) && score == v + Least(20, 5 * (MatchCount(request, c) - 1))
  }

  /** A hit is its worth and its name. */
  lemma HitIs(h: Hit)
    ensures h == Ranked(h.score, h.name, ())
  {
    match h.item
    case () =>
  }

  lemma BestOfHits(request: string, c: Capability, hits: seq<Hit>, h: Hit)
    requires forall v, name :: Ranked(v, name, ()) in hits <==> IsHit(request, c, v, name)
    requires h in hits && forall g | g in hits :: g.score <= h.score
    ensures BestHit(request, c, h.score)
  {
    HitIs(h);
    forall w, name | IsHit(request, c, w, name)
      ensures w <= h.score
    {
      assert Ranked(w, name, ()) in hits;
    }
  }

  lemma MatchIsCounted(request: string, c: Capability)
    ensures SomeMatch(request, c) <==> MatchCount(request, c) > 0
  {
    var hits := Hits(request, c);
    HitsMean(request, c);
    if hits != [] {
      HitIs(hits[0]);
    }
  }

  /**
   A capability scores if and only if one of its hints occurs in the request, and then as much
   as its best hit, plus five for every further match up to twenty.  Its reasons name matches.
   */
  lemma ScoreMeans(request: string, c: Capability)
    ensures var row := Score(request, c);
            && row.name == c.id
            && (if SomeMatch(request, c) then row.score > 0 && Scores(request, c, row.score) else row.score == 0)
            && |row.item| == Least(8, MatchCount(request, c))
            && forall r | r in row.item :: exists v :: IsHit(request, c, v, r)
  {
    var hits := Hits(request, c);
    HitsMean(request, c);
    MatchIsCounted(request, c);
    RowOfHits(c, hits);
    if hits != [] {
      var h :| h in hits && (forall g | g in hits :: g.score <= h.score)
        && Score(request, c).score == h.score + Least(20, 5 * (|hits| - 1));
      BestOfHits(request, c, hits, h);
      HitIs(h);
      HitIsPositive(request, c, h.score, h.name);
    }
    forall r | r in Score(request, c).item
      ensures exists v :: IsHit(request, c, v, r)
    {
      var h :| h in hits && h.name == r;
      HitIs(h);
    }
  }

  lemma HitIsPositive(request: string, c: Capability, v: int, name: string)
    requires IsHit(request, c, v, name)
    ensures v > 0
  {
  }

  // ---------------------------------------------------------------- candidates

  lemma {:induction false} PositiveRowsAre(request: string, cs: seq<Capability>)
    ensures forall row :: row in PositiveRows(request, cs) <==> row.score > 0 && exists c | c in cs :: row == Score(request, c)
    decreases |cs|
  {
    if cs != [] {
      var init, last := cs[..|cs| - 1], cs[|cs| - 1];
      PositiveRowsAre(request, init);
      assert cs == init + [last];
      assert forall c :: c in cs <==> c in init || c == last;
    }
  }

  lemma {:induction false} NamesFromAre(rows: seq<Row>, floor: int)
    ensures forall n :: n in NamesFrom(rows, floor) <==> exists row | row in rows :: row.name == n && row.score >= floor
  {
    if rows != [] {
      NamesFromAre(rows[1..], floor);
      assert forall row :: row in rows <==> row == rows[0] || row in rows[1..];
    }
  }

  /** One of the Domain's capabilities matches. */
  ghost predicate DomainMatches(request: string, d: Domain) {
    exists c | c in d.capabilities :: SomeMatch(request, c)
  }

  /** A capability of the Domain that matches, with its score. */
  ghost predicate ScoresIn(request: string, d: Domain, k: Capability) {
    k in d.capabilities && SomeMatch(request, k)
  }

  /** The score is the best of the Domain's matching capabilities. */
  ghost predicate BestIn(request: string, d: Domain, score: int) {
    && (exists k :: ScoresIn(request, d, k) && Score(request, k).score == score)
    && forall k | ScoresIn(request, d, k) :: Score(request, k).score <= score
  }

  ghost predicate NearBest(request: string, d: Domain, score: int, id: string) {
    exists k :: ScoresIn(request, d, k) && k.id == id && Score(request, k).score >= score - 10
  }

  /** The candidate names matching capabilities within ten of the best, all of them if they are fewer than eight. */
  ghost predicate NamesNearest(request: string, d: Domain, score: int, ids: seq<string>) {
    && |ids| <= 8 && (forall id | id in ids :: NearBest(request, d, score, id))
    && (|ids| < 8 ==> forall id | NearBest(request, d, score, id) :: id in ids)
  }

  ghost predicate GivesReason(request: string, d: Domain, r: string) {
    exists k, v :: k in d.capabilities && IsHit(request, k, v, r)
  }

  /** The candidate is the Domain's own, with its best score, its nearest capabilities and its matches as reasons. */
  ghost predicate CandidateReads(request: string, d: Domain, c: Candidate) {
    && c.domainId == d.id && c.labelText == d.labelText
    && BestIn(request, d, c.score) && NamesNearest(request, d, c.score, c.capabilityIds)
    && |c.reasons| <= 8 && ReasonsGiven(request, d, c.reasons)
  }

  ghost predicate ReasonsGiven(request: string, d: Domain, reasons: seq<string>) {
    forall r | r in reasons :: GivesReason(request, d, r)
  }

  /** These rows are the Domain's matching capabilities, the best first. */
  ghost predicate RowsOf(request: string, d: Domain, rows: seq<Row>) {
    && (forall row | row in rows :: row.score <= rows[0].score)
    && (forall row | row in rows :: IsRow(request, d, row))
    && (forall k | ScoresIn(request, d, k) :: HasRow(request, rows, k))
  }

  ghost predicate IsRow(request: string, d: Domain, row: Row) {
    exists k :: ScoresIn(request, d, k) && row == Score(request, k)
  }

  ghost predicate HasRow(request: string, rows: seq<Row>, k: Capability) {
    Score(request, k) in rows
  }

  lemma ScoringIsMatching(request: string, k: Capability)
    ensures Score(request, k).score > 0 <==> SomeMatch(request, k)
  {
    ScoreMeans(request, k);
  }

  lemma RowIsScored(request: string, d: Domain, row: Row)
    requires row in PositiveRows(request, d.capabilities)
    ensures IsRow(request, d, row)
  {
    PositiveRowsAre(request, d.capabilities);
    var k :| k in d.capabilities && row == Score(request, k);
    ScoringIsMatching(request, k);
  }

  lemma ScoredIsRow(request: string, d: Domain, k: Capability)
    requires ScoresIn(request, d, k)
    ensures HasRow(request, PositiveRows(request, d.capabilities), k)
  {
    PositiveRowsAre(request, d.capabilities);
    ScoringIsMatching(request, k);
  }

  lemma RowsAreScored(request: string, d: Domain)
    ensures forall row | row in PositiveRows(request, d.capabilities) :: IsRow(request, d, row)
    ensures forall k | ScoresIn(request, d, k) :: HasRow(request, PositiveRows(request, d.capabilities), k)
  {
    forall row | row in PositiveRows(request, d.capabilities)
      ensures IsRow(request, d, row)
    {
      RowIsScored(request, d, row);
    }
    forall k | ScoresIn(request, d, k)
      ensures HasRow(request, PositiveRows(request, d.capabilities), k)
    {
      ScoredIsRow(request, d, k);
    }
  }

  lemma SortedStays(request: string, d: Domain, rows: seq<Row>)
    requires forall row | row in rows :: IsRow(request, d, row)
    requires forall k | ScoresIn(request, d, k) :: HasRow(request, rows, k)
    ensures RowsOf(request, d, Sort(rows))
  {
    SortFacts(rows);
  }

  lemma SortedRows(request: string, d: Domain)
    ensures RowsOf(request, d, Sort(PositiveRows(request, d.capabilities)))
  {
    RowsAreScored(request, d);
    SortedStays(request, d, PositiveRows(request, d.capabilities));
  }

  lemma BestRow(request: string, d: Domain, rows: seq<Row>)
    requires RowsOf(request, d, rows) && rows != []
    ensures BestIn(request, d, rows[0].score)
  {
    assert rows[0] in rows;
  }

  lemma NearestRows(request: string, d: Domain, rows: seq<Row>)
    requires RowsOf(request, d, rows) && rows != []
    ensures NamesNearest(request, d, rows[0].score, Head(NamesFrom(rows, rows[0].score - 10), 8))
  {
    var floor := rows[0].score - 10;
    NamesFromAre(rows, floor);
    forall id
      ensures id in NamesFrom(rows, floor) <==> NearBest(request, d, rows[0].score, id)
    {
      RowNames(request, d, rows, floor, id);
    }
  }

  lemma RowNames(request: string, d: Domain, rows: seq<Row>, floor: int, id: string)
    requires RowsOf(request, d, rows)
    ensures (exists row | row in rows :: row.name == id && row.score >= floor)
            <==> exists k :: ScoresIn(request, d, k) && k.id == id && Score(request, k).score >= floor
  {
    if row :| row in rows && row.name == id && row.score >= floor {
      var k :| ScoresIn(request, d, k) && row == Score(request, k);
      ScoreMeans(request, k);
    }
    if k :| ScoresIn(request, d, k) && k.id == id && Score(request, k).score >= floor {
      ScoreMeans(request, k);
      assert Score(request, k) in rows;
    }
  }

  lemma RowsGiveReasons(request: string, d: Domain, rows: seq<Row>)
    requires RowsOf(request, d, rows)
    ensures ReasonsGiven(request, d, Head(Reasons(Head(rows, 4)), 8))
  {
    ReasonsMembers(Head(rows, 4));
    forall r | r in Reasons(Head(rows, 4))
      ensures GivesReason(request, d, r)
    {
      var row :| row in Head(rows, 4) && r in row.item;
      assert row in rows;
      var k :| ScoresIn(request, d, k) && row == Score(request, k);
      ScoreMeans(request, k);
    }
  }

  lemma RowsMeanMatches(request: string, d: Domain, rows: seq<Row>)
    requires RowsOf(request, d, rows)
    ensures rows != [] <==> DomainMatches(request, d)
  {
    if DomainMatches(request, d) {
      var k :| k in d.capabilities && SomeMatch(request, k);
      assert ScoresIn(request, d, k);
    }
    if rows != [] {
      assert rows[0] in rows;
      var k :| ScoresIn(request, d, k) && rows[0] == Score(request, k);
    }
  }

  lemma CandidateFromReads(request: string, d: Domain, rows: seq<Row>)
    requires rows != [] && BestIn(request, d, rows[0].score)
    requires NamesNearest(request, d, rows[0].score, Head(NamesFrom(rows, rows[0].score - 10), 8))
    requires ReasonsGiven(request, d, Head(Reasons(Head(rows, 4)), 8))
    ensures CandidateFrom(d, rows).Some? && CandidateReads(request, d, CandidateFrom(d, rows).value)
  {
  }

  /** A Domain is a candidate if and only if one of its capabilities matches the request. */
  lemma CandidateMeans(request: string, d: Domain)
    ensures CandidateOf(request, d).Some? <==> DomainMatches(request, d)
    ensures CandidateOf(request, d).Some? ==> CandidateReads(request, d, CandidateOf(request, d).value)
  {
    var rows := Sort(PositiveRows(request, d.capabilities));
    SortedRows(request, d);
    RowsMeanMatches(request, d, rows);
    if rows != [] {
      BestRow(request, d, rows);
      NearestRows(request, d, rows);
      RowsGiveReasons(request, d, rows);
      CandidateFromReads(request, d, rows);
    }
  }

  lemma {:induction false} CandidatesAre(request: string, domains: seq<Domain>)
    ensures forall c :: c in Candidates(request, domains) <==> exists d | d in domains :: CandidateOf(request, d) == Some(c)
    decreases |domains|
  {
    if domains != [] {
      var init, last := domains[..|domains| - 1], domains[|domains| - 1];
      CandidatesAre(request, init);
      assert forall d :: d in domains <==> d in init || d == last;
    }
  }

  // ---------------------------------------------------------------- the selection

  lemma CandidatesRead(request: string, domains: seq<Domain>)
    ensures forall c | c in Candidates(request, domains) :: exists d | d in domains :: CandidateReads(request, d, c)
    ensures Candidates(request, domains) == [] <==> forall d | d in domains :: !DomainMatches(request, d)
  {
    CandidatesAre(request, domains);
    forall d | d in domains
      ensures CandidateOf(request, d).Some? <==> DomainMatches(request, d)
      ensures CandidateOf(request, d).Some? ==> CandidateReads(request, d, CandidateOf(request, d).value)
    {
      CandidateMeans(request, d);
    }
    forall d | d in domains && DomainMatches(request, d)
      ensures CandidateOf(request, d).value in Candidates(request, domains)
    {
    }
  }

  /**
   The catalog leaves a request unmatched exactly when no Domain has a capability with a hint
   in it; and everything it selects or offers is such a Domain, scored by what matched.
   */
  lemma CatalogMeans(request: string, domains: seq<Domain>, margin: int, id: string, fingerprint: string)
    requires NormalizeText(request) != ""
    ensures var d := Select(request, domains, margin, id, fingerprint).value;
            && (d.status == "unmatched" <==> forall m | m in domains :: !DomainMatches(NormalizeText(request), m))
            && (forall c | c in d.candidates :: exists m | m in domains :: CandidateReads(NormalizeText(request), m, c))
            && (d.selection.Some? ==> d.candidates != [] && d.selection == Some(Selection(d.candidates[0].domainId, "automatic")))
  {
    var text := NormalizeText(request);
    CandidatesRead(text, domains);
    SelectedIffClearLead(request, domains, margin, id, fingerprint);
    ScoredFacts(text, domains);
    DecideCandidates(Scored(text, domains), Clamp(margin, 0, 100), id, fingerprint);
  }

  // ---------------------------------------------------------------- ties and folding

  /** `a` is a beginning of `b`, or smaller where they first differ. */
  ghost predicate ComesBefore(a: string, b: string) {
    a <= b || exists i | 0 <= i < |a| && i < |b| :: a[..i] == b[..i] && a[i] < b[i]
  }

  lemma FirstsDiffer(a: string, b: string)
    requires a != "" && b != "" && a[0] != b[0]
    ensures forall i | 0 < i <= |a| && i <= |b| :: a[..i] != b[..i]
  {
    forall i | 0 < i <= |a| && i <= |b|
      ensures a[..i] != b[..i]
    {
      assert a[..i][0] == a[0] && b[..i][0] == b[0];
    }
  }

  lemma {:induction false} LexMeans(a: string, b: string)
    ensures LexLeq(a, b) <==> ComesBefore(a, b)
    decreases |a|
  {
    if a != "" && b != "" && a[0] == b[0] {
      LexMeans(a[1..], b[1..]);
      ComesBeforeTail(a, b);
    } else if a != "" && b != "" {
      if a[0] < b[0] {
        assert a[..0] == b[..0];
      }
      FirstsDiffer(a, b);
    }
  }

  lemma ComesBeforeTail(a: string, b: string)
    requires a != "" && b != "" && a[0] == b[0]
    ensures ComesBefore(a, b) <==> ComesBefore(a[1..], b[1..])
  {
    var x, y := a[1..], b[1..];
    assert a <= b <==> x <= y by {
      assert a == [a[0]] + x && b == [b[0]] + y;
    }
    if i :| 0 <= i < |a| && i < |b| && a[..i] == b[..i] && a[i] < b[i] {
      assert i > 0 && x[..i - 1] == a[..i][1..] == b[..i][1..] == y[..i - 1];
      assert x[i - 1] < y[i - 1];
    }
    if i :| 0 <= i < |x| && i < |y| && x[..i] == y[..i] && x[i] < y[i] {
      assert a[..i + 1] == [a[0]] + x[..i] && b[..i + 1] == [b[0]] + y[..i];
      assert a[i + 1] < b[i + 1];
    }
  }

  /** Among equal scores the scored list is in the order of the Domain ids. */
  lemma TiesByName(request: string, domains: seq<Domain>)
    ensures var scored := Scored(request, domains);
            forall i, j | 0 <= i < j < |scored| && scored[i].score == scored[j].score ::
              ComesBefore(scored[i].domainId, scored[j].domainId)
  {
    var cs := Candidates(request, domains);
    var rows := Sort(Rank(cs));
    SortFacts(Rank(cs));
    forall i, j | 0 <= i < j < |rows| && Items(rows)[i].score == Items(rows)[j].score
      ensures ComesBefore(Items(rows)[i].domainId, Items(rows)[j].domainId)
    {
      assert rows[i] in rows && rows[j] in rows && Before(rows[i], rows[j]);
      LexMeans(rows[i].name, rows[j].name);
    }
  }

  /** What is left of a text without its blanks. */
  function Visible(s: string): string {
    if s == "" then "" else (if IsSpace(s[0]) then "" else [s[0]]) + Visible(s[1..])
  }

  /** Folding runs of blanks keeps everything visible, and leaves single blanks only. */
  lemma {:induction false} CollapseMeans(s: string)
    ensures Visible(Collapse(s)) == Visible(s)
    ensures forall i | 0 <= i < |Collapse(s)| :: IsSpace(Collapse(s)[i]) ==> Collapse(s)[i] == ' '
    ensures forall i | 0 < i < |Collapse(s)| :: !(Collapse(s)[i - 1] == ' ' && Collapse(s)[i] == ' ')
    ensures s != "" ==> Collapse(s) != "" && (IsSpace(s[0]) <==> IsSpace(Collapse(s)[0]))
    ensures s == "" ==> Collapse(s) == ""
  {
    if s != "" {
      CollapseMeans(s[1..]);
      var rest := Collapse(s[1..]);
      assert ([s[0]] + rest)[1..] == rest && (" " + rest)[1..] == rest;
    }
  }
}
