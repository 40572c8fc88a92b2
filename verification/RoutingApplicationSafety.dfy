/**
 The routing application over whole runs: what the ledger always satisfies, which runs get
 their evidence accepted, and on which Domain a session runs.
 */
module RoutingApplicationSafety {
  import opened Wrappers
  import opened Text
  import opened OrderedDict
  import opened RoutingDecision
  import opened DomainSelector
  import opened RoutingLedger
  import opened RoutingLedgerSafety
  import opened RoutingApplication
  import E = RoutingEvidence
  import B = RoutingEvidenceBuilder

  // ---------------------------------------------------------------- what the ledger holds

  /** A coherent decision whose identities are within the evidence bounds; its reason may be any text. */
  ghost predicate Routable(r: Router, d: Decision) {
    && Coherent(r, d)
    && E.IsEvidenceId(d.decisionId) && (d.parent.Some? ==> E.IsEvidenceId(d.parent.value))
    && E.IsEvidenceId(d.selectorId)
  }

  /** Every decision is routable, none is its own parent, and a child answers its parent's request. */
  ghost predicate DecisionsOk(r: Router, d: Decisions) {
    && (forall e | e in d :: Routable(r, e.value.decision) && e.value.decision.parent != Some(e.key))
    && (forall e, p | e in d && p in d && e.value.decision.parent == Some(p.key) ::
          e.value.decision.fingerprint == p.value.decision.fingerprint)
  }

  ghost predicate BindingsOk(r: Router, l: Ledger) {
    forall s | s in l.bindings :: l.bindings[s] in r.registry
  }

  ghost predicate AppOk(r: Router, l: Ledger) {
    && LedgerOk(l) && NoTwins(l.decisions) && KeysDistinct(l.receipts)
    && DecisionsOk(r, l.decisions) && BindingsOk(r, l)
  }

  /** A UUID never used before: nobody has it, and nobody names it as parent. */
  ghost predicate Fresh(l: Ledger, id: string) {
    && E.IsEvidenceId(id) && |id| <= 96
    && forall e | e in l.decisions :: e.key != id && e.value.decision.parent != Some(id)
  }

  /** The parent, when it is still there, was asked the same request. */
  ghost predicate AnswersParent(l: Ledger, d: Decision) {
    && d.parent != Some(d.decisionId)
    && forall p | p in l.decisions && d.parent == Some(p.key) :: p.value.decision.fingerprint == d.fingerprint
  }

  lemma RememberedMembers(l: Ledger, d: Decision, session: Option<string>)
    ensures forall e | e in WithDecision(l, d, session).decisions ::
              e in l.decisions || e == Entry(d.decisionId, Record(d, session))
  {
    var put := Put(l.decisions, d.decisionId, Record(d, session));
    assert forall e | e in put :: e in l.decisions || e == Entry(d.decisionId, Record(d, session));
    assert forall e | e in Trim(put, l.max) :: e in put;
  }

  lemma RememberDecisionsOk(r: Router, l: Ledger, d: Decision, session: Option<string>)
    requires LedgerOk(l) && DecisionsOk(r, l.decisions)
    requires Routable(r, d) && Fresh(l, d.decisionId) && AnswersParent(l, d)
    ensures DecisionsOk(r, WithDecision(l, d, session).decisions)
  {
    var all := WithDecision(l, d, session).decisions;
    RememberedMembers(l, d, session);
    assert forall e | e in all :: Routable(r, e.value.decision) && e.value.decision.parent != Some(e.key);
    forall e, p | e in all && p in all && e.value.decision.parent == Some(p.key)
      ensures e.value.decision.fingerprint == p.value.decision.fingerprint
    {
      assert e in l.decisions || p in l.decisions;
    }
  }

  // ---------------------------------------------------------------- ledger operations of the application

  /** What the application asks of the ledger. */
  ghost predicate Filed(r: Router, l: Ledger, op: Op) {
    match op
    case SaveOp(d, _) => Routable(r, d) && d.parent.None? && Fresh(l, d.decisionId)
    case CommitOp(c) =>
      && |c.key| <= 128 && Routable(r, c.decision) && Fresh(l, c.decision.decisionId)
      && c.decision.parent == Some(c.subjectId) && AnswersParent(l, c.decision)
    case ForgetOp(_, _) => true
  }

  lemma FiledKeepsApp(r: Router, l: Ledger, op: Op)
    requires AppOk(r, l) && Filed(r, l, op)
    ensures AppOk(r, Apply(r.registry, l, op))
  {
    ApplyOk(r.registry, l, op);
    ApplyNoTwins(r.registry, l, op);
    ApplyKeysDistinct(r.registry, l, op);
    match op
    case SaveOp(d, s) => RememberDecisionsOk(r, l, d, s);
    case CommitOp(c) => CommitDecisionsOk(r, l, c);
    case ForgetOp(s, _) =>
  }

  /** A commit files its own decision or none. */
  lemma CommitFiles(reg: Registry, l: Ledger, c: Command)
    ensures Commit(reg, l, c).0.decisions in {l.decisions, WithDecision(l, c.decision, c.session).decisions}
    ensures Commit(reg, l, c).0.bindings == l.bindings
  {
  }

  lemma CommitDecisionsOk(r: Router, l: Ledger, c: Command)
    requires LedgerOk(l) && DecisionsOk(r, l.decisions) && BindingsOk(r, l)
    requires Routable(r, c.decision) && Fresh(l, c.decision.decisionId) && AnswersParent(l, c.decision)
    ensures DecisionsOk(r, Commit(r.registry, l, c).0.decisions) && BindingsOk(r, Commit(r.registry, l, c).0)
  {
    RememberDecisionsOk(r, l, c.decision, c.session);
    CommitFiles(r.registry, l, c);
  }

  // ---------------------------------------------------------------- routed decisions

  /**
   The outside keeps its word: a fresh id, a SHA-256, and a selector that answers with a root
   drawn from the snapshot.  Its reason may be any text; the router refuses only an empty one.
   */
  ghost predicate SupplyOk(r: Router, l: Ledger, s: Supply) {
    && Fresh(l, s.id) && IsHex64(s.fingerprint)
    && (s.selected.Ok? && s.selected.value.reasonCode != "" ==>
          Routable(r, s.selected.value) && s.selected.value.decisionId == s.id && s.selected.value.parent.None?)
  }

  /** One of the fixed reasons and selectors of a decision that no model made. */
  ghost predicate Worded(reason: string, selector: string) {
    && ShortText(reason, 96) && E.IsEvidenceText(reason)
    && ShortText(selector, 96) && E.IsEvidenceId(selector)
  }

  /** Few candidates and a reason within the cut, as every selector that ships with the system answers. */
  predicate Tame(d: Decision) {
    |d.candidates| <= E.MAX_CANDIDATES && |d.reasonCode| <= 96
  }

  /** Tame, with a reason that can be shown. */
  predicate Plain(d: Decision) {
    Tame(d) && B.Readable(d)
  }

  lemma WordedIsPlain(d: Decision)
    requires |d.candidates| <= E.MAX_CANDIDATES && |d.reasonCode| <= 96 && E.IsEvidenceText(d.reasonCode)
    ensures Plain(d)
  {
    StripStable(d.reasonCode);
  }

  lemma ExplicitWords()
    ensures Worded("explicit_domain_selection", "explicit.v1")
  {
  }

  lemma RestoredWords()
    ensures Worded("session_domain_restored", "persistence.v1")
  {
  }

  lemma UserWords()
    ensures Worded("user_domain_override", "user.v1")
  {
  }

  /** A decision made for one enabled Domain, by the user, by name or from the session's binding. */
  function Direct(
    parent: Option<string>, reason: string, selector: string, fingerprint: string, sel: Selection, entry: Domain, id: string
  ): Decision {
    Decision(DECISION_SCHEMA, id, parent, "selected", reason, selector, fingerprint, [BareCandidate(sel, entry)], Some(sel))
  }

  lemma IdIsShort(id: string)
    requires E.IsEvidenceId(id) && |id| <= 96
    ensures ShortText(id, 96)
  {
    IdTextIsTrimStable(id, 128);
  }

  lemma DirectIsRoutable(
    r: Router, domainId: string, source: string, parent: Option<string>, reason: string, selector: string,
    fingerprint: string, id: string)
    requires RouterOk(r) && source in SOURCES && Lower(source) == source && TrimStable(source)
    requires Enabled(r, domainId, source).Ok? && Worded(reason, selector) && IsHex64(fingerprint)
    requires E.IsEvidenceId(id) && |id| <= 96
    requires parent.Some? ==> E.IsEvidenceId(parent.value) && |parent.value| <= 96
    ensures var (sel, entry) := Enabled(r, domainId, source).value;
            var d := Direct(parent, reason, selector, fingerprint, sel, entry, id);
            Routable(r, d) && Plain(d)
  {
    EnabledFacts(r, domainId, source);
    IdIsShort(id);
    if parent.Some? {
      IdIsShort(parent.value);
    }
    var (sel, entry) := Enabled(r, domainId, source).value;
    OneDomainIsCoherent(r, Direct(parent, reason, selector, fingerprint, sel, entry, id), sel, entry);
    WordedIsPlain(Direct(parent, reason, selector, fingerprint, sel, entry, id));
  }

  lemma ExplicitIsRoutable(r: Router, l: Ledger, domainId: string, s: Supply)
    requires RouterOk(r) && SupplyOk(r, l, s) && Explicit(r, domainId, s).Ok?
    ensures Routable(r, Explicit(r, domainId, s).value) && Plain(Explicit(r, domainId, s).value)
  {
    ExplicitWords();
    DirectIsRoutable(r, domainId, "explicit", None, "explicit_domain_selection", "explicit.v1", s.fingerprint, s.id);
  }

  lemma RestoredIsRoutable(r: Router, l: Ledger, text: string, bound: string, s: Supply)
    requires RouterOk(r) && SupplyOk(r, l, s) && bound in r.registry
    requires RestoreBinding(r, text, bound, s.id, s.fingerprint).Ok?
    ensures var d := RestoreBinding(r, text, bound, s.id, s.fingerprint).value;
            Routable(r, d) && Plain(d) && DomainOf(d) == bound
  {
    RestoredWords();
    SourceIsStable("restored");
    DirectIsRoutable(r, bound, "restored", None, "session_domain_restored", "persistence.v1", s.fingerprint, s.id);
  }

  lemma ValidateKeeps(r: Router, d: Decision)
    requires Validate(r, d).Ok?
    ensures Validate(r, d) == Ok(d)
  {
  }

  /** What the selector answered and the router let through. */
  lemma AnswerIsRoutable(r: Router, l: Ledger, q: Request, s: Supply)
    requires SupplyOk(r, l, s) && Route(r, q, s).Ok? && (q.domainId.None? || Lower(Strip(q.domainId.value)) == "auto")
    ensures var d := Route(r, q, s).value; s.selected == Ok(d) && Routable(r, d) && d.decisionId == s.id && d.parent.None?
  {
    ValidateKeeps(r, s.selected.value);
  }

  lemma RouteFacts(r: Router, l: Ledger, q: Request, s: Supply)
    requires RouterOk(r) && SupplyOk(r, l, s) && Route(r, q, s).Ok?
    ensures var d := Route(r, q, s).value; Routable(r, d) && d.decisionId == s.id && d.parent.None?
  {
    if q.domainId.Some? && Lower(Strip(q.domainId.value)) != "auto" {
      ExplicitIsRoutable(r, l, q.domainId.value, s);
    } else {
      AnswerIsRoutable(r, l, q, s);
    }
  }

  /** Every routed decision is fresh, routable and a root; a bound session gets its own Domain. */
  lemma RoutedFacts(r: Router, l: Ledger, q: Request, session: Option<string>, s: Supply)
    requires RouterOk(r) && BindingsOk(r, l) && SupplyOk(r, l, s) && Routed(r, l, q, session, s).Ok?
    ensures var d := Routed(r, l, q, session, s).value;
            && Routable(r, d) && d.decisionId == s.id && d.parent.None?
            && (BoundDomain(l, session).Some? ==> DomainOf(d) == BoundDomain(l, session).value)
  {
    var bound := BoundDomain(l, session);
    if bound.Some? {
      RestoredIsRoutable(r, l, q.text, bound.value, s);
    } else {
      RouteFacts(r, l, q, s);
    }
  }

  lemma UnmatchedWords()
    ensures Worded("no_domain_capability_match", CATALOG_ID)
  {
  }

  lemma UniqueWords()
    ensures Worded("unique_domain_match", CATALOG_ID)
  {
  }

  lemma AmbiguousWords()
    ensures Worded("multiple_domain_matches", CATALOG_ID)
  {
  }

  lemma DecideWords(scored: seq<Candidate>, margin: int, id: string, fingerprint: string)
    ensures var d := Decide(scored, margin, id, fingerprint);
            && Worded(d.reasonCode, d.selectorId) && |d.candidates| <= 8
            && d.decisionId == id && d.parent.None? && d.fingerprint == fingerprint
  {
    UnmatchedWords();
    AmbiguousWords();
    UniqueWords();
  }

  lemma DecideIsPlain(scored: seq<Candidate>, margin: int, id: string, fingerprint: string)
    ensures var d := Decide(scored, margin, id, fingerprint);
            Plain(d) && E.IsEvidenceId(d.selectorId) && d.decisionId == id && d.parent.None?
  {
    DecideWords(scored, margin, id, fingerprint);
    WordedIsPlain(Decide(scored, margin, id, fingerprint));
  }

  /** The catalog selector keeps its word, whatever the request, and its reasons can be shown. */
  lemma CatalogSupplies(r: Router, l: Ledger, request: string, margin: int, id: string, fingerprint: string)
    requires RouterOk(r) && Fresh(l, id) && IsHex64(fingerprint)
    ensures var answer := Select(request, r.domains, margin, id, fingerprint);
            SupplyOk(r, l, Supply(id, fingerprint, answer)) && (answer.Ok? ==> Plain(answer.value))
  {
    IdIsShort(id);
    CatalogCoherent(r, NormalizeText(request), Clamp(margin, 0, 100), id, fingerprint);
    DecideIsPlain(Scored(NormalizeText(request), r.domains), Clamp(margin, 0, 100), id, fingerprint);
  }

  /** An error code without control characters makes a reason that can be shown. */
  lemma NoteIsReadable(code: string)
    requires |code| <= 64 && forall i | 0 <= i < |code| :: code[i] >= ' '
    ensures E.IsEvidenceText(Strip(B.FALLBACK + code)) && |B.FALLBACK + code| <= 96
  {
    var note := B.FALLBACK + code;
    assert forall i | 0 <= i < |note| :: note[i] >= ' ';
    StripStable(note);
    VisibleStrips(note);
    var from, to := StripSlice(note);
    assert forall i | 0 <= i < |Strip(note)| :: Strip(note)[i] == note[from + i];
  }

  lemma FallbackIsEvidence()
    ensures E.IsEvidenceId(FALLBACK_ID)
  {
  }

  /** So does the fallback selector, whatever error the primary failed with. */
  lemma FallbackSupplies(
    r: Router, l: Ledger, request: string, margin: int, id: string, fingerprint: string, error: Code, code: string)
    requires RouterOk(r) && Fresh(l, id) && IsHex64(fingerprint) && |code| <= 64
    ensures var answer := Fallback(Err(error), code, Select(request, r.domains, margin, id, fingerprint));
            && SupplyOk(r, l, Supply(id, fingerprint, answer))
            && (answer.Ok? && (forall i | 0 <= i < |code| :: code[i] >= ' ') ==> Plain(answer.value))
  {
    CatalogSupplies(r, l, request, margin, id, fingerprint);
    var answer := Select(request, r.domains, margin, id, fingerprint);
    if answer.Ok? {
      if forall i | 0 <= i < |code| :: code[i] >= ' ' {
        NoteIsReadable(code);
      }
      FallbackIsEvidence();
      FallbackCoherent(r, answer.value, code);
    }
  }

  // ---------------------------------------------------------------- the dictionary form

  lemma IdentityIsEvidence(s: string)
    requires IsIdentity(s)
    ensures E.IsEvidenceId(s)
  {
  }

  lemma SourceIsEvidence(s: string)
    requires s in SOURCES
    ensures E.IsEvidenceId(s)
  {
  }

  /** A decision as it stands, or read back from the ledger: texts stripped and cut, same Domains. */
  ghost predicate ReadBackOf(d: Decision, stored: Decision) {
    && d == stored.(candidates := d.candidates, reasonCode := d.reasonCode)
    && d.reasonCode in {stored.reasonCode, Bounded(stored.reasonCode, 96)}
    && |d.candidates| == |stored.candidates|
    && forall i | 0 <= i < |d.candidates| :: d.candidates[i].domainId == stored.candidates[i].domainId
  }

  lemma ResolveReadsBack(r: Router, stored: Decision)
    requires RouterOk(r) && Coherent(r, stored) && Resolve(r.registry, stored).Ok?
    ensures ReadBackOf(Resolve(r.registry, stored).value, stored) && |Resolve(r.registry, stored).value.reasonCode| <= 96
  {
    DecisionValid(r, stored);
    CoherentBounded(r, stored);
    assert forall c | c in stored.candidates :: CandidateBounded(c);
    CandidatesFix(stored.candidates);
    ResolvedCandidates(r, stored);
  }

  lemma ResolvedCandidates(r: Router, stored: Decision)
    requires Resolve(r.registry, stored).Ok?
    ensures RebuildCandidates(stored.candidates).Ok?
    ensures Resolve(r.registry, stored).value.candidates == RebuildCandidates(stored.candidates).value
  {
  }

  /** Whatever its reason, such a decision is well formed for evidence. */
  lemma ShownAsStored(r: Router, d: Decision, stored: Decision)
    requires RouterOk(r) && Routable(r, stored) && ReadBackOf(d, stored)
    ensures B.Identified(d) && d.schemaVersion == DECISION_SCHEMA && IsHex64(d.fingerprint)
    ensures d.status == "selected" && |d.candidates| <= E.MAX_CANDIDATES ==> B.SelectedShown(d)
  {
    CoherentBounded(r, stored);
    forall c | c in d.candidates
      ensures E.IsEvidenceId(c.domainId)
    {
      var i :| 0 <= i < |d.candidates| && d.candidates[i] == c;
      assert stored.candidates[i] in stored.candidates;
      IdentityIsEvidence(c.domainId);
    }
    if d.selection.Some? {
      SourceIsEvidence(d.selection.value.source);
      IdentityIsEvidence(d.selection.value.domainId);
      OffersReadBack(d.candidates, stored.candidates, d.selection.value.domainId);
      if |d.candidates| <= E.MAX_CANDIDATES {
        FewAreShown(d);
      }
    }
  }

  lemma OffersReadBack(cs: seq<Candidate>, stored: seq<Candidate>, domainId: string)
    requires |cs| == |stored| && (forall i | 0 <= i < |cs| :: cs[i].domainId == stored[i].domainId) && Offers(stored, domainId)
    ensures Offers(cs, domainId)
  {
    var i :| 0 <= i < |stored| && stored[i].domainId == domainId;
    assert cs[i].domainId == domainId;
  }

  lemma FewAreShown(d: Decision)
    requires |d.candidates| <= E.MAX_CANDIDATES && d.selection.Some?
    requires Offers(d.candidates, d.selection.value.domainId)
    ensures B.SelectedShown(d)
  {
    var cs := Head(d.candidates, E.MAX_CANDIDATES);
    var ids := seq(|cs|, i requires 0 <= i < |cs| => cs[i].domainId);
    var i :| 0 <= i < |d.candidates| && d.candidates[i].domainId == d.selection.value.domainId;
    assert ids[i] == d.selection.value.domainId && ids[i] in ids;
    assert B.ShownIds(d) == B.FirstDistinct(ids);
  }

  // ---------------------------------------------------------------- runs get their evidence

  lemma RememberKeepsApp(r: Router, l: Ledger, d: Decision, session: Option<string>)
    requires AppOk(r, l) && Routable(r, d) && d.parent.None? && Fresh(l, d.decisionId)
    ensures AppOk(r, WithDecision(l, d, session))
  {
    FiledKeepsApp(r, l, SaveOp(d, session));
  }

  lemma LookupIsFiled(l: Ledger, id: string, session: Option<string>) returns (e: Entry<string, Record>)
    requires Lookup(l.decisions, id, session).Some?
    ensures e in l.decisions && e.key == id && e.value.decision == Lookup(l.decisions, id, session).value
  {
    e := Entry(id, Get(l.decisions, id).value);
  }

  /** What a run works with: a routed decision, or one read back from the ledger. */
  lemma ChosenFacts(r: Router, l: Ledger, q: Request, session: Option<string>, named: string, s: Supply) returns (stored: Decision)
    requires RouterOk(r) && AppOk(r, l) && SupplyOk(r, l, s) && Chosen(r, l, q, session, named, s).1.Ok?
    ensures var (l', d) := Chosen(r, l, q, session, named, s);
            && AppOk(r, l') && Routable(r, stored) && ReadBackOf(d.value, stored) && stored.parent != Some(stored.decisionId)
            && (d.value.selection.Some? && BoundDomain(l, session).Some? ==>
                  DomainOf(d.value) == BoundDomain(l, session).value)
  {
    if Strip(named) == "" {
      RoutedFacts(r, l, q, session, s);
      stored := Routed(r, l, q, session, s).value;
      RememberKeepsApp(r, l, stored, session);
    } else {
      var e := LookupIsFiled(l, Strip(named), session);
      stored := e.value.decision;
      ResolveReadsBack(r, stored);
    }
  }

  /** The decisions a run shows as events: the last eight of its lineage. */
  function Shown(l: Ledger, session: Option<string>, d: Decision): seq<Decision> {
    B.Recorded(d, LineageOf(l.decisions, session, d, LINEAGE_LIMIT, {}))
  }

  ghost predicate Evidenced(l: Ledger, session: Option<string>, d: Decision, latency: E.Reading) {
    B.Build(d, LineageOf(l.decisions, session, d, LINEAGE_LIMIT, {}), latency).Ok?
  }

  /** Of a run on a selected decision, what the decision itself has to meet: a shown Domain, a visible note. */
  predicate Presentable(d: Decision) {
    B.SelectedShown(d) && B.FallbackReadable(Strip(d.reasonCode))
  }

  /**
   In every state the application can reach, a run on a selected decision gets its lineage
   accepted as evidence exactly when each of the last eight reasons is readable (stripped, a
   bounded text without control characters) and the decision itself is presentable, which
   every decision of at most eight candidates and a reason within 96 characters is.
   */
  lemma SelectedRunIsEvidenced(
    r: Router, l: Ledger, q: Request, session: Option<string>, named: string, s: Supply, latency: E.Reading)
    requires RouterOk(r) && AppOk(r, l) && SupplyOk(r, l, s) && E.Latency(latency).Ok?
    requires var d := Chosen(r, l, q, session, named, s).1; d.Ok? && d.value.status == "selected"
    ensures var (l', d) := Chosen(r, l, q, session, named, s);
            && (Evidenced(l', session, d.value, latency) <==>
                  (forall e | e in Shown(l', session, d.value) :: B.Readable(e)) && Presentable(d.value))
            && (Tame(d.value) ==> Presentable(d.value))
  {
    var stored := ChosenFacts(r, l, q, session, named, s);
    var (l', d) := Chosen(r, l, q, session, named, s);
    ShownAsStored(r, d.value, stored);
    LedgerIsShown(r, l');
    B.LedgerLineageIsAccepted(l'.decisions, session, d.value, LINEAGE_LIMIT, latency);
    if Tame(d.value) {
      B.ShortNoteIsReadable(d.value.reasonCode);
    }
  }

  /** A root shows nothing but itself. */
  lemma RootShowsItself(l: Ledger, session: Option<string>, d: Decision)
    requires d.parent.None? && d.decisionId != ""
    ensures Shown(l, session, d) == [d]
  {
    assert LineageOf(l.decisions, session, d, LINEAGE_LIMIT, {}) == [d];
  }

  /**
   A run that routes its request is evidenced if its decision is plain, as the catalog, the
   fallback, an explicit name and a restored binding make it; a tame one only then.
   */
  lemma RoutedRunIsEvidenced(r: Router, l: Ledger, q: Request, session: Option<string>, s: Supply, latency: E.Reading)
    requires RouterOk(r) && AppOk(r, l) && SupplyOk(r, l, s) && E.Latency(latency).Ok?
    requires var d := Routed(r, l, q, session, s); d.Ok? && d.value.status == "selected" && Tame(d.value)
    ensures var d := Routed(r, l, q, session, s).value;
            Evidenced(WithDecision(l, d, session), session, d, latency) <==> B.Readable(d)
  {
    var d := Routed(r, l, q, session, s).value;
    RoutedFacts(r, l, q, session, s);
    NamelessIsRouted(r, l, q, session, s);
    SelectedRunIsEvidenced(r, l, q, session, "", s, latency);
    RootShowsItself(WithDecision(l, d, session), session, d);
  }

  lemma NamelessIsRouted(r: Router, l: Ledger, q: Request, session: Option<string>, s: Supply)
    requires Routed(r, l, q, session, s).Ok?
    ensures var d := Routed(r, l, q, session, s).value;
            Chosen(r, l, q, session, "", s) == (WithDecision(l, d, session), Ok(d))
  {
    NothingIsNamed();
  }

  lemma NothingIsNamed()
    ensures Strip("") == ""
  {
  }

  lemma LedgerIsShown(r: Router, l: Ledger)
    requires RouterOk(r) && AppOk(r, l)
    ensures forall e | e in l.decisions :: e.value.decision.decisionId == e.key && B.Identified(e.value.decision)
  {
    forall e | e in l.decisions
      ensures B.Identified(e.value.decision)
    {
      ShownAsStored(r, e.value.decision, e.value.decision);
    }
  }

  lemma ParentAsksTheSame(r: Router, l: Ledger, d: Decision, p: Entry<string, Record>)
    requires AppOk(r, l) && p in l.decisions && d.parent == Some(p.key) && exists e | e in l.decisions :: e.value.decision == d
    ensures p.value.decision.fingerprint == d.fingerprint
  {
    var e :| e in l.decisions && e.value.decision == d;
    assert e.value.decision.parent == Some(p.key);
  }

  /** Along a lineage in the ledger every decision answers the same request. */
  lemma {:induction false} LineageSharesRequest(r: Router, l: Ledger, session: Option<string>, current: Decision, room: nat, seen: set<string>)
    requires AppOk(r, l) && exists e | e in l.decisions :: e.value.decision == current
    ensures forall d | d in LineageOf(l.decisions, session, current, room, seen) :: d.fingerprint == current.fingerprint
    decreases room
  {
    if room > 0 && current.parent.Some? && Lookup(l.decisions, current.parent.value, session).Some? {
      var p := LookupIsFiled(l, current.parent.value, session);
      ParentAsksTheSame(r, l, current, p);
      LineageSharesRequest(r, l, session, p.value.decision, room - 1, seen + {current.decisionId});
    }
  }

  // ---------------------------------------------------------------- overrides

  lemma OverrideIsDirect(r: Router, prior: Decision, domainId: string, id: string) returns (reason: string, selector: string)
    requires RouterOk(r) && Coherent(r, prior) && Override(r, prior, domainId, id).Ok?
    ensures Worded(reason, selector) && Enabled(r, domainId, "explicit").Ok?
    ensures var (sel, entry) := Enabled(r, domainId, "explicit").value;
            Override(r, prior, domainId, id).value
            == Direct(Some(prior.decisionId), reason, selector, prior.fingerprint, sel, entry, id)
  {
    var previous, sel, entry := OverrideIs(r, prior, domainId, id);
    ResolveReadsBack(r, prior);
    UserWords();
    reason, selector := "user_domain_override", "user.v1";
  }

  /** An override of a ledger decision is a routable child that answers the same request. */
  lemma OverrideIsRoutable(r: Router, prior: Decision, domainId: string, id: string)
    requires RouterOk(r) && Routable(r, prior) && E.IsEvidenceId(id) && |id| <= 96
    requires Override(r, prior, domainId, id).Ok?
    ensures var d := Override(r, prior, domainId, id).value;
            && Routable(r, d) && d.decisionId == id && d.parent == Some(prior.decisionId)
            && d.fingerprint == prior.fingerprint && Plain(d)
  {
    var reason, selector := OverrideIsDirect(r, prior, domainId, id);
    SourceIsStable("explicit");
    DirectIsRoutable(r, domainId, "explicit", Some(prior.decisionId), reason, selector, prior.fingerprint, id);
  }

  lemma SourceIsStable(s: string)
    requires s in SOURCES
    ensures Lower(s) == s && TrimStable(s)
  {
    SourcesAreLower(s);
    LowerFix(s);
  }

  /** What an override commits is what the application may ask of the ledger. */
  lemma AuthorizedIsFiled(
    r: Router, l: Ledger, subject: string, session: Option<string>, prior: Decision, c: Checked, id: string)
    requires RouterOk(r) && Routable(r, prior) && prior.decisionId == subject && Fresh(l, id) && id != subject
    requires forall p | p in l.decisions && p.key == subject :: p.value.decision.fingerprint == prior.fingerprint
    requires |c.key| <= 128 && Authorized(r, l, subject, session, prior, c, id).Ok?
    ensures var command := Authorized(r, l, subject, session, prior, c, id).value;
            Filed(r, l, CommitOp(command)) && command.subjectId == subject && command.decision.decisionId == id
  {
    OverrideIsRoutable(r, prior, c.domainId, id);
  }

  lemma SettledIsCommit(r: Router, l: Ledger, c: Command)
    ensures Settled(r, l, c).0 == Commit(r.registry, l, c).0
  {
  }
}
