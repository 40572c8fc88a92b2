/** Deterministic Domain selection over one discovery snapshot, and the router around it. */
module DomainSelector {
  import opened Wrappers
  import opened Text
  import opened Ranking
  import opened RoutingDecision

  datatype Hints = Hints(phrases: seq<string>, tasks: seq<string>, datasets: seq<string>, constraints: seq<string>)
  datatype Capability = Capability(id: string, labelText: string, hints: Hints)
  datatype Domain = Domain(id: string, labelText: string, capabilities: seq<Capability>)

  type Hit = Ranked<()>
  type Row = Ranked<seq<string>>

  /** `re.sub(r"\s+", " ", text)`. */
  function Collapse(s: string): string {
    if s == "" then ""
    else if IsSpace(s[0]) then
      if |s| > 1 && IsSpace(s[1]) then Collapse(s[1..]) else " " + Collapse(s[1..])
    else [s[0]] + Collapse(s[1..])
  }

  function NormalizeText(s: string): string {
    Collapse(Lower(Strip(s)))
  }

  /** `identity.replace("_", " ")`. */
  function Spaced(s: string): string {
    seq(|s|, i requires 0 <= i < |s| => if s[i] == '_' then ' ' else s[i])
  }

  function Min(a: int, b: int): int {
    if a < b then a else b
  }

  function TextHit(request: string, text: string, base: int, cap: nat, reason: string): seq<Hit> {
    var needle := NormalizeText(text);
    if needle != "" && Contains(request, needle) then [Ranked(base + Min(|needle|, cap), reason, ())] else []
  }

  function PhraseHits(request: string, phrases: seq<string>): seq<Hit> {
    if phrases == [] then []
    else
      var last := phrases[|phrases| - 1];
      PhraseHits(request, phrases[..|phrases| - 1]) + TextHit(request, last, 100, 40, "phrase:" + last)
  }

  function IdentityHits(request: string, category: string, ids: seq<string>): seq<Hit> {
    if ids == [] then []
    else
      var last := ids[|ids| - 1];
      IdentityHits(request, category, ids[..|ids| - 1])
      + TextHit(request, Spaced(last), 70, 20, category + ":" + last)
  }

  function Hits(request: string, c: Capability): seq<Hit> {
    PhraseHits(request, c.hints.phrases)
    + TextHit(request, c.labelText, 90, 30, "label:" + c.id)
    + IdentityHits(request, "tasks", c.hints.tasks)
    + IdentityHits(request, "datasets", c.hints.datasets)
    + IdentityHits(request, "constraints", c.hints.constraints)
  }

  function Names<T>(rows: seq<Ranked<T>>): seq<string> {
    seq(|rows|, i requires 0 <= i < |rows| => rows[i].name)
  }

  /** `_score_capability`: the best hit, plus 5 for each further hit up to 20. */
  function Score(request: string, c: Capability): Row {
    RowFrom(c, Sort(Hits(request, c)))
  }

  function RowFrom(c: Capability, hits: seq<Hit>): Row {
    if hits == [] then Ranked(0, c.id, [])
    else Ranked(hits[0].score + Min(20, 5 * (|hits| - 1)), c.id, Head(Names(hits), 8))
  }

  function PositiveRows(request: string, cs: seq<Capability>): seq<Row> {
    if cs == [] then []
    else
      var row := Score(request, cs[|cs| - 1]);
      PositiveRows(request, cs[..|cs| - 1]) + (if row.score > 0 then [row] else [])
  }

  function NamesFrom(rows: seq<Row>, floor: int): seq<string> {
    if rows == [] then []
    else (if rows[0].score >= floor then [rows[0].name] else []) + NamesFrom(rows[1..], floor)
  }

  /** `dict.fromkeys` over the reasons of these rows. */
  function MergeReasons(seen: seq<string>, reasons: seq<string>): seq<string>
    decreases reasons
  {
    if reasons == [] then seen
    else MergeReasons(if reasons[0] in seen then seen else seen + [reasons[0]], reasons[1..])
  }

  function Reasons(rows: seq<Row>): seq<string> {
    if rows == [] then [] else MergeReasons(Reasons(rows[..|rows| - 1]), rows[|rows| - 1].item)
  }

  function CandidateOf(request: string, domain: Domain): Option<Candidate> {
    CandidateFrom(domain, Sort(PositiveRows(request, domain.capabilities)))
  }

  /** The Domain's candidate, from its positive rows in order. */
  function CandidateFrom(domain: Domain, rows: seq<Row>): Option<Candidate> {
    if rows == [] then None
    else Some(Candidate(
      domain.id, domain.labelText, Head(NamesFrom(rows, rows[0].score - 10), 8),
      rows[0].score, Head(Reasons(Head(rows, 4)), 8)))
  }

  function Candidates(request: string, domains: seq<Domain>): seq<Candidate> {
    if domains == [] then []
    else
      var c := CandidateOf(request, domains[|domains| - 1]);
      Candidates(request, domains[..|domains| - 1]) + (if c.Some? then [c.value] else [])
  }

  function Rank(cs: seq<Candidate>): seq<Ranked<Candidate>> {
    seq(|cs|, i requires 0 <= i < |cs| => Ranked(cs[i].score, cs[i].domainId, cs[i]))
  }

  function Items<T>(rows: seq<Ranked<T>>): seq<T> {
    seq(|rows|, i requires 0 <= i < |rows| => rows[i].item)
  }

  /** The scored candidates, best first, ties by Domain id. */
  function Scored(request: string, domains: seq<Domain>): seq<Candidate> {
    Items(Sort(Rank(Candidates(request, domains))))
  }

  /** Those that trail the leader by less than the margin. */
  function Within(cs: seq<Candidate>, top: int, margin: int): seq<Candidate> {
    if cs == [] then []
    else
      var last := cs[|cs| - 1];
      Within(cs[..|cs| - 1], top, margin) + (if top - last.score < margin then [last] else [])
  }

  const CATALOG_ID := "catalog.v1"
  const FALLBACK_ID := "fallback.v1"

  function NewDecision(
    id: string, status: string, reason: string, selector: string, fingerprint: string,
    cs: seq<Candidate>, sel: Option<Selection>
  ): Decision {
    Decision(DECISION_SCHEMA, id, None, status, reason, selector, fingerprint, cs, sel)
  }

  function Decide(scored: seq<Candidate>, margin: int, id: string, fingerprint: string): Decision {
    if scored == [] then
      NewDecision(id, "unmatched", "no_domain_capability_match", CATALOG_ID, fingerprint, [], None)
    else
      var top := scored[0];
      var competitors := Within(scored[1..], top.score, margin);
      if competitors != [] then
        NewDecision(id, "ambiguous", "multiple_domain_matches", CATALOG_ID, fingerprint,
                    Head([top] + competitors, 8), None)
      else
        NewDecision(id, "selected", "unique_domain_match", CATALOG_ID, fingerprint, [top],
                    Some(Selection(top.domainId, "automatic")))
  }

  /** `CatalogDomainSelector.select`; the fresh id and the request hash come from outside. */
  function Select(request: string, domains: seq<Domain>, margin: int, id: string, fingerprint: string): Result<Decision, Code> {
    var text := NormalizeText(request);
    if text == "" then Err(RequestRequired)
    else Ok(Decide(Scored(text, domains), Clamp(margin, 0, 100), id, fingerprint))
  }

  // ---------------------------------------------------------------- the loops

  method ScoreCapability(request: string, c: Capability) returns (row: Row)
    ensures row == Score(request, c)
  {
    var hits: seq<Hit> := [];
    for i := 0 to |c.hints.phrases|
      invariant hits == PhraseHits(request, c.hints.phrases[..i])
    {
      var phrase := c.hints.phrases[i];
      assert c.hints.phrases[..i + 1][..i] == c.hints.phrases[..i];
      hits := hits + TextHit(request, phrase, 100, 40, "phrase:" + phrase);
    }
    assert c.hints.phrases[..|c.hints.phrases|] == c.hints.phrases;
    hits := hits + TextHit(request, c.labelText, 90, 30, "label:" + c.id);
    var tasks := CategoryHits(request, "tasks", c.hints.tasks);
    var datasets := CategoryHits(request, "datasets", c.hints.datasets);
    var constraints := CategoryHits(request, "constraints", c.hints.constraints);
    hits := hits + tasks + datasets + constraints;
    return RowFrom(c, Sort(hits));
  }

  method CategoryHits(request: string, category: string, ids: seq<string>) returns (hits: seq<Hit>)
    ensures hits == IdentityHits(request, category, ids)
  {
    hits := [];
    for i := 0 to |ids|
      invariant hits == IdentityHits(request, category, ids[..i])
    {
      assert ids[..i + 1][..i] == ids[..i];
      hits := hits + TextHit(request, Spaced(ids[i]), 70, 20, category + ":" + ids[i]);
    }
    assert ids[..|ids|] == ids;
  }

  method ScoreDomain(request: string, domain: Domain) returns (c: Option<Candidate>)
    ensures c == CandidateOf(request, domain)
  {
    var rows: seq<Row> := [];
    var cs := domain.capabilities;
    for i := 0 to |cs|
      invariant rows == PositiveRows(request, cs[..i])
    {
      assert cs[..i + 1][..i] == cs[..i];
      var row := ScoreCapability(request, cs[i]);
      if row.score > 0 {
        rows := rows + [row];
      }
    }
    assert cs[..|cs|] == cs;
    return CandidateFrom(domain, Sort(rows));
  }

  method SelectCatalog(request: string, domains: seq<Domain>, margin: int, id: string, fingerprint: string)
    returns (r: Result<Decision, Code>)
    ensures r == Select(request, domains, margin, id, fingerprint)
  {
    var text := NormalizeText(request);
    if text == "" {
      return Err(RequestRequired);
    }
    var scored: seq<Candidate> := [];
    for i := 0 to |domains|
      invariant scored == Candidates(text, domains[..i])
    {
      assert domains[..i + 1][..i] == domains[..i];
      var c := ScoreDomain(text, domains[i]);
      if c.Some? {
        scored := scored + [c.value];
      }
    }
    assert domains[..|domains|] == domains;
    return Ok(Decide(Items(Sort(Rank(scored))), Clamp(margin, 0, 100), id, fingerprint));
  }

  // ---------------------------------------------------------------- who is selected

  lemma RankedMembers(cs: seq<Candidate>, rows: seq<Ranked<Candidate>>)
    requires |rows| == |cs| && forall row :: row in rows <==> row in Rank(cs)
    ensures forall c :: c in Items(rows) <==> c in cs
    ensures forall row | row in rows :: row.score == row.item.score
  {
    forall c | c in cs
      ensures c in Items(rows)
    {
      var i :| 0 <= i < |cs| && cs[i] == c;
      assert Rank(cs)[i] in Rank(cs);
      var j :| 0 <= j < |rows| && rows[j] == Rank(cs)[i];
      assert Items(rows)[j] == c;
    }
    forall c | c in Items(rows)
      ensures c in cs
    {
      var i :| 0 <= i < |rows| && Items(rows)[i] == c;
      assert rows[i] in Rank(cs);
    }
  }

  /** The scored list is the candidates reordered, best first. */
  lemma ScoredFacts(request: string, domains: seq<Domain>)
    ensures var scored, cs := Scored(request, domains), Candidates(request, domains);
            && |scored| == |cs|
            && multiset(Sort(Rank(cs))) == multiset(Rank(cs))
            && (forall c :: c in scored <==> c in cs)
            && (forall i, j | 0 <= i < j < |scored| :: scored[i].score >= scored[j].score)
  {
    var cs := Candidates(request, domains);
    var rows := Sort(Rank(cs));
    SortFacts(Rank(cs));
    RankedMembers(cs, rows);
    forall i, j | 0 <= i < j < |cs|
      ensures rows[i].item.score >= rows[j].item.score
    {
      assert rows[i] in rows && rows[j] in rows && Before(rows[i], rows[j]);
    }
  }

  lemma {:induction false} WithinFacts(cs: seq<Candidate>, top: int, margin: int)
    ensures forall c :: c in Within(cs, top, margin) <==> c in cs && top - c.score < margin
    ensures |Within(cs, top, margin)| <= |cs|
    decreases |cs|
  {
    if cs != [] {
      WithinFacts(cs[..|cs| - 1], top, margin);
      assert cs == cs[..|cs| - 1] + [cs[|cs| - 1]];
    }
  }

  /** Candidate `i` of these leads every other one by at least the margin. */
  ghost predicate Leads(cs: seq<Candidate>, i: nat, margin: int) {
    i < |cs| && forall j | 0 <= j < |cs| && j != i :: cs[i].score - cs[j].score >= margin
  }

  ghost predicate BestFirst(cs: seq<Candidate>) {
    forall i, j | 0 <= i < j < |cs| :: cs[i].score >= cs[j].score
  }

  /** If the last one is within the margin so is everyone before it. */
  lemma AllBefore(cs: seq<Candidate>, top: int, margin: int, n: nat)
    requires BestFirst(cs) && n < |cs| && top - cs[|cs| - 1].score < margin
    requires forall j | n <= j < |cs| - 1 :: top - cs[j].score >= margin
    ensures n == |cs| - 1
  {
    var i := |cs| - 1;
    assert n == i || cs[n].score >= cs[i].score;
  }

  /** Best first, those within the margin come before all others. */
  lemma {:induction false} WithinIsLeading(cs: seq<Candidate>, top: int, margin: int)
    requires BestFirst(cs)
    ensures var n := |Within(cs, top, margin)|;
            && n <= |cs| && Within(cs, top, margin) == cs[..n]
            && (forall j | 0 <= j < n :: top - cs[j].score < margin)
            && (forall j | n <= j < |cs| :: top - cs[j].score >= margin)
    decreases |cs|
  {
    if cs != [] {
      var init, last := cs[..|cs| - 1], cs[|cs| - 1];
      WithinIsLeading(init, top, margin);
      var n := |Within(init, top, margin)|;
      if top - last.score < margin {
        AllBefore(cs, top, margin, n);
        assert cs == init + [last];
      } else {
        assert init[..n] == cs[..n];
      }
    }
  }

  /** What is offered: the leader and, in order, everyone inside the margin, eight in all at most. */
  ghost predicate OffersRivals(scored: seq<Candidate>, offered: seq<Candidate>, margin: int) {
    && 2 <= |offered| <= 8 && offered <= scored
    && (forall j | 0 < j < |offered| :: scored[0].score - scored[j].score < margin)
    && (|offered| < 8 ==> forall j | |offered| <= j < |scored| :: scored[0].score - scored[j].score >= margin)
  }

  lemma ClearLead(scored: seq<Candidate>, margin: int)
    requires BestFirst(scored) && scored != [] && margin >= 0
    ensures Within(scored[1..], scored[0].score, margin) == [] <==> exists i: nat :: Leads(scored, i, margin)
    ensures Within(scored[1..], scored[0].score, margin) == [] ==> Leads(scored, 0, margin)
  {
    var rest, n := scored[1..], |Within(scored[1..], scored[0].score, margin)|;
    WithinIsLeading(rest, scored[0].score, margin);
    WithinFacts(rest, scored[0].score, margin);
    assert forall j | 0 < j < |scored| :: scored[j] == rest[j - 1];
    if n == 0 {
      assert Leads(scored, 0, margin);
    } else {
      assert rest[0] in Within(rest, scored[0].score, margin) && rest[0] == scored[1];
      forall i: nat
        ensures !Leads(scored, i, margin)
      {
        if 0 < i < |scored| {
          assert scored[0].score >= scored[i].score;
        }
      }
    }
  }

  /** The leader with those inside the margin. */
  lemma RivalsLead(scored: seq<Candidate>, margin: int) returns (n: nat)
    requires BestFirst(scored) && scored != []
    ensures n < |scored| && n == |Within(scored[1..], scored[0].score, margin)|
    ensures [scored[0]] + Within(scored[1..], scored[0].score, margin) == scored[..n + 1]
    ensures forall j | 0 < j <= n :: scored[0].score - scored[j].score < margin
    ensures forall j | n < j < |scored| :: scored[0].score - scored[j].score >= margin
  {
    var rest, top := scored[1..], scored[0].score;
    WithinIsLeading(rest, top, margin);
    n := |Within(rest, top, margin)|;
    assert forall j | 0 < j < |scored| :: scored[j] == rest[j - 1];
  }

  lemma LeadingAreOffered(scored: seq<Candidate>, n: nat, margin: int)
    requires 1 <= n < |scored|
    requires forall j | 0 < j <= n :: scored[0].score - scored[j].score < margin
    requires forall j | n < j < |scored| :: scored[0].score - scored[j].score >= margin
    ensures OffersRivals(scored, Head(scored[..n + 1], 8), margin)
  {
  }

  lemma RivalsAreOffered(scored: seq<Candidate>, margin: int)
    requires BestFirst(scored) && scored != [] && Within(scored[1..], scored[0].score, margin) != []
    ensures OffersRivals(scored, Head([scored[0]] + Within(scored[1..], scored[0].score, margin), 8), margin)
  {
    var n := RivalsLead(scored, margin);
    LeadingAreOffered(scored, n, margin);
  }

  lemma DecideMeans(scored: seq<Candidate>, margin: int, id: string, fingerprint: string)
    requires BestFirst(scored) && margin >= 0
    ensures var d := Decide(scored, margin, id, fingerprint);
            && (d.status == "selected" <==> exists i: nat :: Leads(scored, i, margin))
            && (d.status == "unmatched" <==> scored == [])
            && (d.status == "selected" ==> d.candidates == [scored[0]] && Leads(scored, 0, margin))
            && (d.status == "ambiguous" ==> OffersRivals(scored, d.candidates, margin))
  {
    if scored != [] {
      ClearLead(scored, margin);
      if Within(scored[1..], scored[0].score, margin) != [] {
        RivalsAreOffered(scored, margin);
      }
    }
  }

  /**
   A request is routed without asking if and only if some scoring Domain leads every rival by
   at least the margin; with no scoring Domain it is unmatched, and otherwise the user is
   offered the leader and everyone inside the margin.
   */
  lemma SelectedIffClearLead(request: string, domains: seq<Domain>, margin: int, id: string, fingerprint: string)
    requires NormalizeText(request) != ""
    ensures Select(request, domains, margin, id, fingerprint).Ok?
    ensures var d, m := Select(request, domains, margin, id, fingerprint).value, Clamp(margin, 0, 100);
            var scored, cs := Scored(NormalizeText(request), domains), Candidates(NormalizeText(request), domains);
            && BestFirst(scored) && (forall c :: c in scored <==> c in cs) && |scored| == |cs|
            && (d.status == "selected" <==> exists i: nat :: Leads(scored, i, m))
            && (d.status == "unmatched" <==> cs == [])
            && (d.status == "selected" ==> d.candidates == [scored[0]] && Leads(scored, 0, m))
            && (d.status == "ambiguous" ==> OffersRivals(scored, d.candidates, m))
  {
    ScoredFacts(NormalizeText(request), domains);
    DecideMeans(Scored(NormalizeText(request), domains), Clamp(margin, 0, 100), id, fingerprint);
  }

  // ---------------------------------------------------------------- scores

  ghost predicate HitsBounded(hits: seq<Hit>) {
    forall h | h in hits :: 70 < h.score <= 140
  }

  lemma {:induction false} PhraseHitsBounded(request: string, phrases: seq<string>)
    ensures HitsBounded(PhraseHits(request, phrases))
    decreases |phrases|
  {
    if phrases != [] {
      PhraseHitsBounded(request, phrases[..|phrases| - 1]);
    }
  }

  lemma {:induction false} IdentityHitsBounded(request: string, category: string, ids: seq<string>)
    ensures HitsBounded(IdentityHits(request, category, ids))
    decreases |ids|
  {
    if ids != [] {
      IdentityHitsBounded(request, category, ids[..|ids| - 1]);
    }
  }

  /** No capability scores above 160, so the cap of 1000 in the dictionary form never bites. */
  lemma ScoreBounded(request: string, c: Capability)
    ensures 0 <= Score(request, c).score <= 160
  {
    PhraseHitsBounded(request, c.hints.phrases);
    IdentityHitsBounded(request, "tasks", c.hints.tasks);
    IdentityHitsBounded(request, "datasets", c.hints.datasets);
    IdentityHitsBounded(request, "constraints", c.hints.constraints);
    var hits := Hits(request, c);
    assert HitsBounded(hits);
    SortFacts(hits);
    if hits != [] {
      assert Sort(hits)[0] in Sort(hits);
    }
  }

  // ---------------------------------------------------------------- catalog decisions are valid

  ghost predicate DomainOk(d: Domain) {
    && IsIdentity(d.id) && |d.labelText| <= 120
    && forall c | c in d.capabilities :: CapabilityOk(c)
  }

  ghost predicate CapabilityOk(c: Capability) {
    && IsIdentity(c.id)
    && (forall p | p in c.hints.phrases :: 1 <= |p| <= 80)
    && (forall t | t in c.hints.tasks :: IsIdentity(t))
    && (forall t | t in c.hints.datasets :: IsIdentity(t))
    && (forall t | t in c.hints.constraints :: IsIdentity(t))
  }

  /** A reason fits the dictionary form: short, and visible from its first character. */
  ghost predicate ReasonOk(r: string) {
    1 <= |r| <= 120 && !IsSpace(r[0])
  }

  ghost predicate ReasonsOk(hits: seq<Hit>) {
    forall h | h in hits :: ReasonOk(h.name)
  }

  lemma ReasonsAppend(a: seq<Hit>, b: seq<Hit>)
    requires ReasonsOk(a) && ReasonsOk(b)
    ensures ReasonsOk(a + b)
  {
  }

  lemma {:induction false} PhraseReasons(request: string, phrases: seq<string>)
    requires forall p | p in phrases :: |p| <= 80
    ensures ReasonsOk(PhraseHits(request, phrases))
    decreases |phrases|
  {
    if phrases != [] {
      PhraseReasons(request, phrases[..|phrases| - 1]);
      var last := phrases[|phrases| - 1];
      ReasonsAppend(PhraseHits(request, phrases[..|phrases| - 1]), TextHit(request, last, 100, 40, "phrase:" + last));
    }
  }

  lemma {:induction false} IdentityReasons(request: string, category: string, ids: seq<string>)
    requires category in {"tasks", "datasets", "constraints"} && forall t | t in ids :: IsIdentity(t)
    ensures ReasonsOk(IdentityHits(request, category, ids))
    decreases |ids|
  {
    if ids != [] {
      IdentityReasons(request, category, ids[..|ids| - 1]);
      var last := ids[|ids| - 1];
      assert last in ids && |last| <= 96;
      ReasonsAppend(IdentityHits(request, category, ids[..|ids| - 1]),
                    TextHit(request, Spaced(last), 70, 20, category + ":" + last));
    }
  }

  lemma CapabilityReasons(request: string, c: Capability)
    requires CapabilityOk(c)
    ensures ReasonsOk(Hits(request, c))
  {
    var byPhrase := PhraseHits(request, c.hints.phrases);
    var byLabel := TextHit(request, c.labelText, 90, 30, "label:" + c.id);
    var byTask := IdentityHits(request, "tasks", c.hints.tasks);
    var byDataset := IdentityHits(request, "datasets", c.hints.datasets);
    PhraseReasons(request, c.hints.phrases);
    IdentityReasons(request, "tasks", c.hints.tasks);
    IdentityReasons(request, "datasets", c.hints.datasets);
    IdentityReasons(request, "constraints", c.hints.constraints);
    ReasonsAppend(byPhrase, byLabel);
    ReasonsAppend(byPhrase + byLabel, byTask);
    ReasonsAppend(byPhrase + byLabel + byTask, byDataset);
    ReasonsAppend(byPhrase + byLabel + byTask + byDataset, IdentityHits(request, "constraints", c.hints.constraints));
  }

  lemma RowReasons(c: Capability, hits: seq<Hit>)
    requires ReasonsOk(hits)
    ensures forall r | r in RowFrom(c, hits).item :: ReasonOk(r)
    ensures RowFrom(c, hits).name == c.id
  {
  }

  lemma ScoreReasons(request: string, c: Capability)
    requires CapabilityOk(c)
    ensures forall r | r in Score(request, c).item :: ReasonOk(r)
    ensures Score(request, c).name == c.id
  {
    CapabilityReasons(request, c);
    var hits := Hits(request, c);
    SortFacts(hits);
    RowReasons(c, Sort(hits));
  }

  ghost predicate RowOk(d: Domain, row: Row) {
    0 < row.score <= 160 && (exists c | c in d.capabilities :: c.id == row.name)
    && forall r | r in row.item :: ReasonOk(r)
  }

  lemma PositiveRowOk(request: string, d: Domain, c: Capability)
    requires DomainOk(d) && c in d.capabilities && Score(request, c).score > 0
    ensures RowOk(d, Score(request, c))
  {
    ScoreReasons(request, c);
    ScoreBounded(request, c);
  }

  lemma {:induction false} PositiveRowsOk(request: string, d: Domain, cs: seq<Capability>)
    requires DomainOk(d) && forall c | c in cs :: c in d.capabilities
    ensures forall row | row in PositiveRows(request, cs) :: RowOk(d, row)
    decreases |cs|
  {
    if cs != [] {
      var last := cs[|cs| - 1];
      assert last in cs;
      PositiveRowsOk(request, d, cs[..|cs| - 1]);
      if Score(request, last).score > 0 {
        PositiveRowOk(request, d, last);
      }
    }
  }

  lemma {:induction false} NamesFromRows(rows: seq<Row>, floor: int)
    ensures forall n | n in NamesFrom(rows, floor) :: exists row | row in rows :: row.name == n
  {
    if rows != [] {
      NamesFromRows(rows[1..], floor);
    }
  }

  lemma {:induction false} MergeReasonsMembers(seen: seq<string>, reasons: seq<string>)
    ensures forall r | r in MergeReasons(seen, reasons) :: r in seen || r in reasons
    decreases reasons
  {
    if reasons != [] {
      MergeReasonsMembers(if reasons[0] in seen then seen else seen + [reasons[0]], reasons[1..]);
    }
  }

  lemma {:induction false} ReasonsMembers(rows: seq<Row>)
    ensures forall r | r in Reasons(rows) :: exists row | row in rows :: r in row.item
    decreases |rows|
  {
    if rows != [] {
      ReasonsMembers(rows[..|rows| - 1]);
      MergeReasonsMembers(Reasons(rows[..|rows| - 1]), rows[|rows| - 1].item);
    }
  }

  lemma CandidateFromBounded(d: Domain, rows: seq<Row>)
    requires DomainOk(d) && rows != [] && forall row | row in rows :: RowOk(d, row)
    ensures CandidateBounded(CandidateFrom(d, rows).value)
    ensures forall id | id in CandidateFrom(d, rows).value.capabilityIds :: exists c | c in d.capabilities :: c.id == id
  {
    NamesFromRows(rows, rows[0].score - 10);
    ReasonsMembers(Head(rows, 4));
    assert rows[0] in rows;
    var c := CandidateFrom(d, rows).value;
    forall id | id in c.capabilityIds
      ensures exists k | k in d.capabilities :: k.id == id
    {
      assert id in NamesFrom(rows, rows[0].score - 10);
    }
    forall r | r in c.reasons
      ensures ReasonOk(r)
    {
      assert r in Reasons(Head(rows, 4));
      var row :| row in Head(rows, 4) && r in row.item;
      assert row in rows;
    }
  }

  /** A candidate belongs to one of these Domains and names only that Domain's capabilities. */
  ghost predicate CandidateIn(domains: seq<Domain>, c: Candidate) {
    CandidateBounded(c) &&
    exists d | d in domains ::
      d.id == c.domainId && forall id | id in c.capabilityIds :: exists k | k in d.capabilities :: k.id == id
  }

  lemma CandidateOfIn(request: string, d: Domain)
    requires DomainOk(d) && CandidateOf(request, d).Some?
    ensures CandidateIn([d], CandidateOf(request, d).value)
  {
    PositiveRowsOk(request, d, d.capabilities);
    SortFacts(PositiveRows(request, d.capabilities));
    CandidateFromBounded(d, Sort(PositiveRows(request, d.capabilities)));
    assert d in [d];
  }

  lemma CandidateStaysIn(small: seq<Domain>, big: seq<Domain>, c: Candidate)
    requires CandidateIn(small, c) && forall d | d in small :: d in big
    ensures CandidateIn(big, c)
  {
  }

  lemma {:induction false} CandidatesIn(request: string, domains: seq<Domain>)
    requires forall d | d in domains :: DomainOk(d)
    ensures forall c | c in Candidates(request, domains) :: CandidateIn(domains, c)
    decreases |domains|
  {
    if domains != [] {
      var init, d := domains[..|domains| - 1], domains[|domains| - 1];
      CandidatesIn(request, init);
      forall c | c in Candidates(request, init)
        ensures CandidateIn(domains, c)
      {
        CandidateStaysIn(init, domains, c);
      }
      if CandidateOf(request, d).Some? {
        CandidateOfIn(request, d);
        CandidateStaysIn([d], domains, CandidateOf(request, d).value);
      }
    }
  }

  /** The deployment: registered ids, the enabled ones, and the snapshot built from them. */
  datatype Router = Router(registry: Registry, enabled: set<string>, domains: seq<Domain>)

  ghost predicate RouterOk(r: Router) {
    && RegistryOk(r.registry) && r.enabled <= r.registry
    && (forall d | d in r.domains :: DomainOk(d) && d.id in r.enabled)
    && (forall i, j | 0 <= i < j < |r.domains| :: r.domains[i].id != r.domains[j].id)
  }

  /** `_validate_identities`: enabled Domains and known capabilities only. */
  predicate IdentitiesKnown(r: Router, d: Decision) {
    && (forall c | c in d.candidates ::
          && c.domainId in r.enabled
          && exists m | m in r.domains ::
               m.id == c.domainId && forall id | id in c.capabilityIds :: exists k | k in m.capabilities :: k.id == id)
    && (d.selection.Some? ==> d.selection.value.domainId in r.enabled)
  }

  /** `DomainRouter.resolve` of a decision object. */
  function Validate(r: Router, d: Decision): Result<Decision, Code> {
    var checked :- Check(r.registry, d);
    if IdentitiesKnown(r, checked) then Ok(checked) else Err(SelectorInvalid)
  }

  lemma AutomaticIsSource()
    ensures "automatic" in SOURCES
  {
  }

  lemma DecideCandidates(scored: seq<Candidate>, margin: int, id: string, fingerprint: string)
    ensures var d := Decide(scored, margin, id, fingerprint);
            && (forall c | c in d.candidates :: c in scored)
            && (d.status == "ambiguous" ==> |d.candidates| >= 2)
            && (d.status == "selected" <==> d.selection.Some?)
            && (d.status == "unmatched" ==> d.candidates == [])
            && d.status in {"selected", "ambiguous", "unmatched"}
            && (d.selection.Some? ==>
                  Offers(d.candidates, d.selection.value.domainId) && d.selection.value.source in SOURCES)
  {
    AutomaticIsSource();
    if scored != [] {
      WithinFacts(scored[1..], scored[0].score, margin);
      var all := [scored[0]] + Within(scored[1..], scored[0].score, margin);
      assert forall c | c in all :: c in scored;
      assert forall c | c in Head(all, 8) :: c in all;
      assert [scored[0]][0].domainId == scored[0].domainId && Offers([scored[0]], scored[0].domainId);
    }
  }

  predicate Offers(cs: seq<Candidate>, domainId: string) {
    exists i | 0 <= i < |cs| :: cs[i].domainId == domainId
  }

  /** The parts fit together, whatever the reason: one selection or none, drawn from known candidates. */
  ghost predicate Coherent(r: Router, d: Decision) {
    && d.schemaVersion == DECISION_SCHEMA && IsHex64(d.fingerprint)
    && ShortText(d.decisionId, 96) && d.reasonCode != "" && ShortText(d.selectorId, 96)
    && (d.parent.Some? ==> ShortText(d.parent.value, 96))
    && (forall c | c in d.candidates :: CandidateIn(r.domains, c))
    && d.status in {"selected", "ambiguous", "unmatched"}
    && (d.status == "ambiguous" ==> |d.candidates| >= 2)
    && (d.status == "unmatched" ==> d.candidates == [])
    && (d.status == "selected" <==> d.selection.Some?)
    && (d.selection.Some? ==>
          && Offers(d.candidates, d.selection.value.domainId)
          && d.selection.value.source in SOURCES)
  }

  lemma CoherentBounded(r: Router, d: Decision)
    requires RouterOk(r) && Coherent(r, d)
    ensures DecisionBounded(r.registry, d)
    ensures d.selection.Some? ==> ResolveSelection(r.registry, d.selection.value) == Ok(d.selection.value)
  {
    if d.selection.Some? {
      var i :| 0 <= i < |d.candidates| && d.candidates[i].domainId == d.selection.value.domainId;
      assert d.candidates[i] in d.candidates && CandidateIn(r.domains, d.candidates[i]);
      SelectionFix(r.registry, d.selection.value);
    }
  }

  lemma CoherentChecks(r: Router, d: Decision)
    requires RouterOk(r) && Coherent(r, d)
    ensures Check(r.registry, d) == Ok(d)
  {
    CoherentBounded(r, d);
  }

  /** A coherent decision passes the router, and its dictionary form comes back up to blank edges and a cut reason. */
  lemma DecisionValid(r: Router, d: Decision)
    requires RouterOk(r) && Coherent(r, d)
    ensures Validate(r, d) == Ok(d) && (Resolve(r.registry, d).Ok? <==> Strip(d.reasonCode) != "")
    ensures Resolve(r.registry, d) == Ok(d) <==> TextsStable(d) && ShortText(d.reasonCode, 96)
    ensures Resolve(r.registry, d).Ok? ==>
              Resolve(r.registry, d).value
              == d.(candidates := Resolve(r.registry, d).value.candidates, reasonCode := Bounded(d.reasonCode, 96))
  {
    CoherentBounded(r, d);
    CoherentChecks(r, d);
    RoundTrip(r.registry, d);
    KnownIdentities(r, d);
  }

  lemma KnownIdentities(r: Router, d: Decision)
    requires RouterOk(r) && Coherent(r, d)
    ensures IdentitiesKnown(r, d)
  {
    if d.selection.Some? {
      var i :| 0 <= i < |d.candidates| && d.candidates[i].domainId == d.selection.value.domainId;
      assert d.candidates[i] in d.candidates && CandidateIn(r.domains, d.candidates[i]);
    }
  }

  /** A short trim-stable reason is not blank. */
  lemma ShortIsVisible(s: string, limit: nat)
    requires ShortText(s, limit)
    ensures Strip(s) == s
  {
    StripStable(s);
  }

  lemma CatalogCoherent(r: Router, text: string, margin: int, id: string, fingerprint: string)
    requires RouterOk(r) && ShortText(id, 96) && IsHex64(fingerprint)
    ensures var d := Decide(Scored(text, r.domains), margin, id, fingerprint);
            Coherent(r, d) && ShortText(d.reasonCode, 78)
  {
    ScoredFacts(text, r.domains);
    CandidatesIn(text, r.domains);
    DecideCandidates(Scored(text, r.domains), margin, id, fingerprint);
    DecideTexts(Scored(text, r.domains), margin, id, fingerprint);
  }

  lemma DecideTexts(scored: seq<Candidate>, margin: int, id: string, fingerprint: string)
    ensures var d := Decide(scored, margin, id, fingerprint);
            && d.decisionId == id && d.fingerprint == fingerprint && d.parent.None? && d.schemaVersion == DECISION_SCHEMA
            && ShortText(d.reasonCode, 78) && ShortText(d.selectorId, 96)
  {
  }

  /**
   Every catalog decision over a router's snapshot passes validation, both as an object and
   as a dictionary; the dictionary round trip is exact when its texts have no blank edge.
   */
  lemma CatalogDecisionValid(r: Router, request: string, margin: int, id: string, fingerprint: string)
    requires RouterOk(r) && ShortText(id, 96) && IsHex64(fingerprint)
    requires NormalizeText(request) != ""
    ensures Select(request, r.domains, margin, id, fingerprint).Ok?
    ensures var d := Select(request, r.domains, margin, id, fingerprint).value;
            && Validate(r, d) == Ok(d)
            && Resolve(r.registry, d).Ok?
            && (Resolve(r.registry, d) == Ok(d) <==> TextsStable(d))
  {
    CatalogCoherent(r, NormalizeText(request), Clamp(margin, 0, 100), id, fingerprint);
    DecisionValid(r, Select(request, r.domains, margin, id, fingerprint).value);
    ShortIsVisible(Select(request, r.domains, margin, id, fingerprint).value.reasonCode, 78);
  }

  /** `FallbackDomainSelector.select`: the primary's answer, or the catalog's under another name. */
  function Fallback(primary: Result<Decision, Code>, errorCode: string, fallback: Result<Decision, Code>): Result<Decision, Code> {
    if primary.Ok? then primary
    else
      var d :- fallback;
      Ok(d.(reasonCode := "selector_fallback:" + errorCode, selectorId := FALLBACK_ID))
  }

  /** A failing primary selector still yields a valid decision; `_error_code` is at most 64 long. */
  lemma FallbackDecisionValid(
    r: Router, request: string, margin: int, id: string, fingerprint: string, error: Code, errorCode: string)
    requires RouterOk(r) && ShortText(id, 96) && IsHex64(fingerprint) && NormalizeText(request) != ""
    requires ShortText(errorCode, 64)
    ensures var answer := Fallback(Err(error), errorCode, Select(request, r.domains, margin, id, fingerprint));
            && answer.Ok? && Validate(r, answer.value) == answer && Resolve(r.registry, answer.value).Ok?
            && (Resolve(r.registry, answer.value) == answer <==> TextsStable(answer.value))
  {
    CatalogCoherent(r, NormalizeText(request), Clamp(margin, 0, 100), id, fingerprint);
    var d := Decide(Scored(NormalizeText(request), r.domains), Clamp(margin, 0, 100), id, fingerprint);
    FallbackCoherent(r, d, errorCode);
    FallbackNoteShort(errorCode);
    ShortIsVisible("selector_fallback:" + errorCode, 96);
    DecisionValid(r, d.(reasonCode := "selector_fallback:" + errorCode, selectorId := FALLBACK_ID));
  }

  lemma FallbackCoherent(r: Router, d: Decision, errorCode: string)
    requires Coherent(r, d)
    ensures Coherent(r, d.(reasonCode := "selector_fallback:" + errorCode, selectorId := FALLBACK_ID))
  {
    FallbackIdShort();
    Reworded(r, d, "selector_fallback:" + errorCode, FALLBACK_ID);
  }

  lemma FallbackIdShort()
    ensures ShortText(FALLBACK_ID, 96)
  {
  }

  lemma Reworded(r: Router, d: Decision, reason: string, selector: string)
    requires Coherent(r, d) && reason != "" && ShortText(selector, 96)
    ensures Coherent(r, d.(reasonCode := reason, selectorId := selector))
  {
  }

  lemma FallbackNoteShort(errorCode: string)
    requires ShortText(errorCode, 64)
    ensures ShortText("selector_fallback:" + errorCode, 96)
  {
    var note := "selector_fallback:" + errorCode;
    assert note[|note| - 1] == errorCode[|errorCode| - 1];
  }

  // ---------------------------------------------------------------- overrides

  function Entry(r: Router, id: string): Option<Domain> {
    FindDomain(r.domains, id)
  }

  function FindDomain(domains: seq<Domain>, id: string): (d: Option<Domain>)
    ensures d.Some? ==> d.value in domains && d.value.id == id
  {
    if domains == [] then None
    else if domains[0].id == id then Some(domains[0])
    else FindDomain(domains[1..], id)
  }

  /** `_resolve_enabled` and `_domain_entry`. */
  function Enabled(r: Router, domainId: string, source: string): Result<(Selection, Domain), Code> {
    var sel :- ResolveSelection(r.registry, Selection(domainId, source));
    if sel.domainId !in r.enabled then Err(DomainDisabled)
    else
      match Entry(r, sel.domainId)
      case None => Err(UnknownDomain)
      case Some(d) => Ok((sel, d))
  }

  function BareCandidate(sel: Selection, d: Domain): Candidate {
    Candidate(sel.domainId, d.labelText, [], 0, [])
  }

  /** `DomainRouter.override`: a child of the prior decision, selecting what the user chose. */
  function Override(r: Router, prior: Decision, domainId: string, id: string): Result<Decision, Code> {
    var previous :- Resolve(r.registry, prior);
    var (sel, entry) :- Enabled(r, domainId, "explicit");
    Ok(UserDecision(previous.decisionId, previous.fingerprint, sel, entry, id))
  }

  function UserDecision(parent: string, fingerprint: string, sel: Selection, entry: Domain, id: string): Decision {
    Decision(DECISION_SCHEMA, id, Some(parent), "selected", "user_domain_override",
             "user.v1", fingerprint, [BareCandidate(sel, entry)], Some(sel))
  }

  /** `DomainRouter.restore`: the persisted binding, without reading the request again. */
  function RestoreBinding(r: Router, request: string, domainId: string, id: string, fingerprint: string): Result<Decision, Code> {
    if Strip(request) == "" then Err(RequestRequired)
    else
      var (sel, entry) :- Enabled(r, domainId, "restored");
      Ok(NewDecision(id, "selected", "session_domain_restored", "persistence.v1", fingerprint,
                     [BareCandidate(sel, entry)], Some(sel)))
  }

  lemma EnabledFacts(r: Router, domainId: string, source: string)
    requires RouterOk(r) && source in SOURCES && Lower(source) == source && TrimStable(source)
    requires Enabled(r, domainId, source).Ok?
    ensures var (sel, d) := Enabled(r, domainId, source).value;
            && sel.source == source && sel.domainId in r.enabled && sel.domainId in r.registry
            && d in r.domains && d.id == sel.domainId && CandidateIn(r.domains, BareCandidate(sel, d))
  {
    StripStable(source);
    var (sel, d) := Enabled(r, domainId, source).value;
    assert DomainOk(d);
  }

  /** `d` answers `prior`: same request, explicit parent, and valid for this deployment. */
  ghost predicate ChildOf(r: Router, prior: Decision, d: Decision) {
    && Validate(r, d) == Ok(d) && Resolve(r.registry, d).Ok?
    && d.fingerprint == Bounded(prior.fingerprint, 64) && IsHex64(d.fingerprint)
    && d.parent == Some(prior.decisionId)
    && (Resolve(r.registry, d) == Ok(d) <==> TextsStable(d))
  }

  lemma OverrideIs(r: Router, prior: Decision, domainId: string, id: string) returns (previous: Decision, sel: Selection, entry: Domain)
    requires Override(r, prior, domainId, id).Ok?
    ensures Resolve(r.registry, prior) == Ok(previous) && Enabled(r, domainId, "explicit") == Ok((sel, entry))
    ensures Override(r, prior, domainId, id).value == UserDecision(previous.decisionId, previous.fingerprint, sel, entry, id)
  {
    previous := Resolve(r.registry, prior).value;
    sel, entry := Enabled(r, domainId, "explicit").value.0, Enabled(r, domainId, "explicit").value.1;
  }

  lemma OverrideFacts(r: Router, prior: Decision, domainId: string, id: string)
    requires RouterOk(r) && ShortText(id, 96) && ShortText(prior.decisionId, 96)
    requires Override(r, prior, domainId, id).Ok?
    ensures ChildOf(r, prior, Override(r, prior, domainId, id).value)
    ensures Override(r, prior, domainId, id).value.decisionId == id
  {
    var previous, sel, entry := OverrideIs(r, prior, domainId, id);
    ResolveFacts(r.registry, prior);
    BoundedFixpoint(prior.decisionId, 96);
    ExplicitEnabled(r, domainId, sel, entry);
    UserDecisionIsChild(r, prior, previous.fingerprint, sel, entry, id);
  }

  lemma ExplicitEnabled(r: Router, domainId: string, sel: Selection, entry: Domain)
    requires RouterOk(r) && Enabled(r, domainId, "explicit") == Ok((sel, entry))
    ensures CandidateIn(r.domains, BareCandidate(sel, entry)) && sel.source in SOURCES
  {
    SourcesAreLower("explicit");
    LowerFix("explicit");
    EnabledFacts(r, domainId, "explicit");
  }

  lemma UserDecisionIsChild(r: Router, prior: Decision, fingerprint: string, sel: Selection, entry: Domain, id: string)
    requires RouterOk(r) && ShortText(id, 96) && ShortText(prior.decisionId, 96)
    requires IsHex64(fingerprint) && fingerprint == Bounded(prior.fingerprint, 64)
    requires CandidateIn(r.domains, BareCandidate(sel, entry)) && sel.source in SOURCES
    ensures ChildOf(r, prior, UserDecision(prior.decisionId, fingerprint, sel, entry, id))
  {
    UserDecisionCoherent(r, prior.decisionId, fingerprint, sel, entry, id);
    DecisionValid(r, UserDecision(prior.decisionId, fingerprint, sel, entry, id));
    UserTexts();
    ShortIsVisible("user_domain_override", 96);
  }

  /** A decision made for one Domain is coherent, whatever its wording. */
  lemma OneDomainIsCoherent(r: Router, d: Decision, sel: Selection, entry: Domain)
    requires d.schemaVersion == DECISION_SCHEMA && d.status == "selected"
    requires d.candidates == [BareCandidate(sel, entry)] && d.selection == Some(sel)
    requires CandidateIn(r.domains, BareCandidate(sel, entry)) && sel.source in SOURCES
    requires d.reasonCode != "" && ShortText(d.selectorId, 96) && IsHex64(d.fingerprint)
    requires ShortText(d.decisionId, 96) && (d.parent.Some? ==> ShortText(d.parent.value, 96))
    ensures Coherent(r, d)
  {
    assert d.candidates[0].domainId == sel.domainId;
  }

  lemma UserDecisionCoherent(r: Router, parent: string, fingerprint: string, sel: Selection, entry: Domain, id: string)
    requires ShortText(id, 96) && ShortText(parent, 96) && IsHex64(fingerprint)
    requires CandidateIn(r.domains, BareCandidate(sel, entry)) && sel.source in SOURCES
    ensures Coherent(r, UserDecision(parent, fingerprint, sel, entry, id))
  {
    UserTexts();
    OneDomainIsCoherent(r, UserDecision(parent, fingerprint, sel, entry, id), sel, entry);
  }

  lemma UserTexts()
    ensures ShortText("user_domain_override", 96) && ShortText("user.v1", 96)
  {
  }

  ghost predicate IsOverride(r: Router, prior: Decision, d: Decision) {
    exists domainId: string :: Override(r, prior, domainId, d.decisionId) == Ok(d)
  }

  /**
   However long a chain of overrides, every decision in it is a valid child of the one before
   it and carries the fingerprint of the original request.
   */
  lemma {:induction false} OverrideChainKeepsRequest(r: Router, chain: seq<Decision>, i: nat)
    requires RouterOk(r) && i < |chain|
    requires forall k | 0 <= k < |chain| :: ShortText(chain[k].decisionId, 96)
    requires forall k | 0 < k < |chain| :: IsOverride(r, chain[k - 1], chain[k])
    requires IsHex64(chain[0].fingerprint)
    ensures chain[i].fingerprint == chain[0].fingerprint
    ensures i > 0 ==> ChildOf(r, chain[i - 1], chain[i])
  {
    if i > 0 {
      OverrideChainKeepsRequest(r, chain, i - 1);
      HexIsTrimStable(chain[0].fingerprint);
      assert IsOverride(r, chain[i - 1], chain[i]);
      var domainId: string :| Override(r, chain[i - 1], domainId, chain[i].decisionId) == Ok(chain[i]);
      OverrideFacts(r, chain[i - 1], domainId, chain[i].decisionId);
    }
  }
}
