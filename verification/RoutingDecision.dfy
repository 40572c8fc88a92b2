/** Routing decisions: their shape, their strict re-validation, and the round trip through `to_dict`. */
module RoutingDecision {
  import opened Wrappers
  import opened Text

  datatype Code =
    | SelectorInvalid | RequestRequired | DomainRequired | UnknownDomain | DomainDisabled
    | InvalidSelectionSource | SelectorFailed(code: string)

  const DECISION_SCHEMA := "spatial-agent.domain-routing-decision.v1"
  const SOURCES := {"explicit", "automatic", "restored", "legacy"}
  const MAX_SCORE := 1000

  datatype Candidate = Candidate(
    domainId: string, labelText: string, capabilityIds: seq<string>, score: int, reasons: seq<string>)

  datatype Selection = Selection(domainId: string, source: string)

  /** Both the frozen decision and the dictionary `to_dict` makes of it. */
  datatype Decision = Decision(
    schemaVersion: string, decisionId: string, parent: Option<string>, status: string,
    reasonCode: string, selectorId: string, fingerprint: string,
    candidates: seq<Candidate>, selection: Option<Selection>)

  /** The registered Domain ids, all lower-case identities. */
  type Registry = set<string>

  predicate IsIdentity(s: string) {
    IdText(s, 96) && IsAlpha(s[0])
  }

  function SafeIdentity(s: string): string {
    var t := Bounded(s, 96);
    if IsIdentity(t) then t else ""
  }

  function Head<T>(s: seq<T>, count: nat): seq<T> {
    if |s| <= count then s else s[..count]
  }

  /** `[text for item in items if (text := _bounded_text(item, width))]`. */
  function TextList(items: seq<string>, width: nat): seq<string> {
    if items == [] then []
    else
      var t := Bounded(items[0], width);
      (if t == "" then [] else [t]) + TextList(items[1..], width)
  }

  function IdentityList(items: seq<string>): seq<string> {
    if items == [] then []
    else
      var t := SafeIdentity(items[0]);
      (if t == "" then [] else [t]) + IdentityList(items[1..])
  }

  function Clamp(n: int, low: int, high: int): int {
    if n < low then low else if n > high then high else n
  }

  function RebuildCandidate(c: Candidate): Result<Candidate, Code> {
    var domainId := SafeIdentity(c.domainId);
    if domainId == "" then Err(SelectorInvalid)
    else Ok(Candidate(
      domainId,
      Bounded(if c.labelText == "" then domainId else c.labelText, 120),
      IdentityList(Head(c.capabilityIds, 8)),
      Clamp(c.score, 0, MAX_SCORE),
      TextList(Head(c.reasons, 8), 120)))
  }

  function RebuildCandidates(cs: seq<Candidate>): Result<seq<Candidate>, Code> {
    if cs == [] then Ok([])
    else
      var c :- RebuildCandidate(cs[0]);
      var rest :- RebuildCandidates(cs[1..]);
      Ok([c] + rest)
  }

  function ResolveId(reg: Registry, s: string): Result<string, Code> {
    var id := Lower(Strip(s));
    if id in reg then Ok(id) else Err(UnknownDomain)
  }

  function ResolveSelection(reg: Registry, sel: Selection): Result<Selection, Code> {
    if Strip(sel.domainId) == "" then Err(DomainRequired)
    else
      var source := Lower(Strip(sel.source));
      if source !in SOURCES then Err(InvalidSelectionSource)
      else
        var id :- ResolveId(reg, sel.domainId);
        Ok(Selection(id, source))
  }

  /** The checks every decision passes, whichever form it arrived in. */
  function Check(reg: Registry, d: Decision): Result<Decision, Code> {
    if d.schemaVersion != DECISION_SCHEMA then Err(SelectorInvalid)
    else if d.status !in {"selected", "ambiguous", "unmatched"} then Err(SelectorInvalid)
    else if d.decisionId == "" || d.reasonCode == "" || d.selectorId == "" then Err(SelectorInvalid)
    else if !IsHex64(d.fingerprint) then Err(SelectorInvalid)
    else if (d.status == "selected") != d.selection.Some? then Err(SelectorInvalid)
    else if d.status == "ambiguous" && |d.candidates| < 2 then Err(SelectorInvalid)
    else if d.status == "unmatched" && d.candidates != [] then Err(SelectorInvalid)
    else if d.selection.None? then Ok(d)
    else
      var sel :- ResolveSelection(reg, d.selection.value);
      if exists c | c in d.candidates :: c.domainId == sel.domainId then Ok(d) else Err(SelectorInvalid)
  }

  function OptionalText(s: Option<string>, limit: nat): Option<string> {
    if s.None? then None
    else
      var t := Bounded(s.value, limit);
      if t == "" then None else Some(t)
  }

  /** `resolve_domain_routing_decision` of the dictionary form: bound every text, then check. */
  function Resolve(reg: Registry, d: Decision): Result<Decision, Code> {
    var candidates :- RebuildCandidates(d.candidates);
    var selection :-
      match d.selection
      case None => Ok(None)
      case Some(sel) => (var s :- ResolveSelection(reg, sel); Ok(Some(s)));
    Check(reg, Decision(
      d.schemaVersion, Bounded(d.decisionId, 96), OptionalText(d.parent, 96), Bounded(d.status, 32),
      Bounded(d.reasonCode, 96), Bounded(d.selectorId, 96), Bounded(d.fingerprint, 64),
      candidates, selection))
  }

  // ---------------------------------------------------------------- the round trip

  ghost predicate RegistryOk(reg: Registry) {
    forall id | id in reg :: IsIdentity(id) && Lower(id) == id
  }

  ghost predicate ShortText(s: string, limit: nat) {
    s != "" && |s| <= limit && TrimStable(s)
  }

  /** A candidate within every bound, whose only loose ends are blank edges of its texts. */
  ghost predicate CandidateBounded(c: Candidate) {
    && IsIdentity(c.domainId) && |c.labelText| <= 120 && 0 <= c.score <= MAX_SCORE
    && |c.capabilityIds| <= 8 && (forall id | id in c.capabilityIds :: IsIdentity(id))
    && |c.reasons| <= 8 && (forall r | r in c.reasons :: 1 <= |r| <= 120 && !IsSpace(r[0]))
  }

  ghost predicate CandidateStable(c: Candidate) {
    c.labelText != "" && TrimStable(c.labelText) && forall r | r in c.reasons :: TrimStable(r)
  }

  /** A decision within every bound, whatever its reason. */
  ghost predicate DecisionBounded(reg: Registry, d: Decision) {
    && ShortText(d.decisionId, 96) && ShortText(d.selectorId, 96)
    && d.status in {"selected", "ambiguous", "unmatched"}
    && (d.parent.Some? ==> ShortText(d.parent.value, 96))
    && (d.selection.Some? ==> d.selection.value.domainId in reg && d.selection.value.source in SOURCES)
    && forall c | c in d.candidates :: CandidateBounded(c)
  }

  ghost predicate TextsStable(d: Decision) {
    forall c | c in d.candidates :: CandidateStable(c)
  }

  lemma SafeIdentityFix(s: string)
    ensures IsIdentity(s) ==> SafeIdentity(s) == s
  {
    BoundedFixpoint(s, 96);
    if IsIdentity(s) {
      IdTextIsTrimStable(s, 96);
    }
  }

  lemma {:induction false} IdentityListFix(items: seq<string>)
    requires forall id | id in items :: IsIdentity(id)
    ensures IdentityList(items) == items
  {
    if items != [] {
      SafeIdentityFix(items[0]);
      IdentityListFix(items[1..]);
    }
  }

  /** A bounded text that starts with a visible character survives the bound, up to its blank tail. */
  lemma VisibleHeadStays(s: string, width: nat)
    requires 1 <= |s| <= width && !IsSpace(s[0])
    ensures Bounded(s, width) != ""
    ensures Bounded(s, width) == s <==> TrimStable(s)
  {
    BoundedFixpoint(s, width);
    LStripKeepsStable(s);
    VisibleStrips(s);
  }

  lemma VisibleStrips(s: string)
    requires s != "" && !IsSpace(s[0])
    ensures Strip(s) != ""
  {
    RStripHead(s);
  }

  lemma {:induction false} RStripHead(s: string)
    requires s != "" && !IsSpace(s[0])
    ensures RStrip(s) != "" && LStrip(s) == s
  {
    if IsSpace(s[|s| - 1]) {
      RStripHead(s[..|s| - 1]);
    }
  }

  lemma {:induction false} TextListFix(items: seq<string>, width: nat)
    requires forall r | r in items :: 1 <= |r| <= width && !IsSpace(r[0])
    ensures |TextList(items, width)| == |items|
    ensures TextList(items, width) == items <==> forall r | r in items :: TrimStable(r)
  {
    if items != [] {
      VisibleHeadStays(items[0], width);
      TextListFix(items[1..], width);
      assert items == [items[0]] + items[1..];
      var head := [Bounded(items[0], width)];
      assert TextList(items, width) == head + TextList(items[1..], width);
      assert TextList(items, width)[0] == head[0] && TextList(items, width)[1..] == TextList(items[1..], width);
      assert forall r :: r in items <==> r == items[0] || r in items[1..];
    }
  }

  lemma CandidateFix(c: Candidate)
    requires CandidateBounded(c)
    ensures RebuildCandidate(c).Ok? && RebuildCandidate(c).value.domainId == c.domainId
    ensures RebuildCandidate(c) == Ok(c) <==> CandidateStable(c)
  {
    SafeIdentityFix(c.domainId);
    IdentityListFix(c.capabilityIds);
    TextListFix(c.reasons, 120);
    BoundedFixpoint(c.labelText, 120);
    if c.labelText == "" {
      BoundedFixpoint(c.domainId, 120);
      IdTextIsTrimStable(c.domainId, 96);
    }
  }

  lemma {:induction false} CandidatesFix(cs: seq<Candidate>)
    requires forall c | c in cs :: CandidateBounded(c)
    ensures RebuildCandidates(cs).Ok? && |RebuildCandidates(cs).value| == |cs|
    ensures forall i | 0 <= i < |cs| :: RebuildCandidates(cs).value[i].domainId == cs[i].domainId
    ensures RebuildCandidates(cs) == Ok(cs) <==> forall c | c in cs :: CandidateStable(c)
  {
    if cs != [] {
      CandidateFix(cs[0]);
      CandidatesFix(cs[1..]);
      var head, rest := RebuildCandidate(cs[0]).value, RebuildCandidates(cs[1..]).value;
      assert cs == [cs[0]] + cs[1..];
      assert ([head] + rest)[0] == head && ([head] + rest)[1..] == rest;
      assert forall c :: c in cs <==> c == cs[0] || c in cs[1..];
    }
  }

  predicate AllLower(s: string) {
    forall i | 0 <= i < |s| :: 'a' <= s[i] <= 'z'
  }

  lemma SourcesAreLower(s: string)
    requires s in SOURCES
    ensures AllLower(s) && s != ""
  {
  }

  lemma LowerFix(s: string)
    requires AllLower(s)
    ensures Lower(s) == s && TrimStable(s)
  {
  }

  lemma SelectionFix(reg: Registry, sel: Selection)
    requires RegistryOk(reg) && sel.domainId in reg && sel.source in SOURCES
    ensures ResolveSelection(reg, sel) == Ok(sel)
  {
    IdTextIsTrimStable(sel.domainId, 96);
    StripStable(sel.source);
    SourcesAreLower(sel.source);
    LowerFix(sel.source);
  }

  lemma FieldsFix(reg: Registry, d: Decision)
    requires DecisionBounded(reg, d) && IsHex64(d.fingerprint)
    ensures Bounded(d.decisionId, 96) == d.decisionId && OptionalText(d.parent, 96) == d.parent
    ensures Bounded(d.status, 32) == d.status
    ensures Bounded(d.selectorId, 96) == d.selectorId && Bounded(d.fingerprint, 64) == d.fingerprint
  {
    HexIsTrimStable(d.fingerprint);
    BoundedFixpoint(d.decisionId, 96);
    BoundedFixpoint(d.selectorId, 96);
    BoundedFixpoint(d.status, 32);
    if d.parent.Some? {
      BoundedFixpoint(d.parent.value, 96);
    }
  }

  /** The checks read candidates only through their number and their Domain ids. */
  lemma CheckReadsIds(reg: Registry, d: Decision, cs: seq<Candidate>)
    requires Check(reg, d).Ok? && |cs| == |d.candidates|
    requires forall i | 0 <= i < |cs| :: cs[i].domainId == d.candidates[i].domainId
    ensures Check(reg, d.(candidates := cs)) == Ok(d.(candidates := cs))
  {
    if d.selection.Some? {
      var sel := ResolveSelection(reg, d.selection.value).value;
      var c :| c in d.candidates && c.domainId == sel.domainId;
      var i :| 0 <= i < |d.candidates| && d.candidates[i] == c;
      assert cs[i] in cs;
    }
  }

  lemma BlankIsNothing(s: string, limit: nat)
    requires limit > 0
    ensures Bounded(s, limit) == "" <==> Strip(s) == ""
  {
  }

  /** Apart from their being there, the checks do not read reasons. */
  lemma CheckReadsNoReason(reg: Registry, d: Decision, reason: string)
    requires Check(reg, d).Ok?
    ensures reason != "" ==> Check(reg, d.(reasonCode := reason)) == Ok(d.(reasonCode := reason))
    ensures reason == "" ==> Check(reg, d.(reasonCode := reason)).Err?
  {
  }

  /**
   A decision that keeps every bound and passes the checks also passes as a dictionary unless
   its reason is blank.  The round trip strips and cuts texts only, and loses nothing exactly
   when its labels and reasons have no blank edge and its own reason is within the cut.
   */
  lemma RoundTrip(reg: Registry, d: Decision)
    requires RegistryOk(reg) && DecisionBounded(reg, d) && Check(reg, d).Ok?
    ensures Resolve(reg, d).Ok? <==> Strip(d.reasonCode) != ""
    ensures Resolve(reg, d) == Ok(d) <==> TextsStable(d) && ShortText(d.reasonCode, 96)
    ensures Resolve(reg, d).Ok? ==>
              Resolve(reg, d).value
              == d.(candidates := Resolve(reg, d).value.candidates, reasonCode := Bounded(d.reasonCode, 96))
  {
    FieldsFix(reg, d);
    CandidatesFix(d.candidates);
    var cs, reason := RebuildCandidates(d.candidates).value, Bounded(d.reasonCode, 96);
    CheckReadsIds(reg, d, cs);
    CheckReadsNoReason(reg, d.(candidates := cs), reason);
    BlankIsNothing(d.reasonCode, 96);
    BoundedFixpoint(d.reasonCode, 96);
    if d.selection.Some? {
      SelectionFix(reg, d.selection.value);
    }
    assert Resolve(reg, d) == Check(reg, d.(candidates := cs, reasonCode := reason));
  }

  /** What `Resolve` accepts is already checked and carries a hexadecimal fingerprint. */
  lemma ResolveFacts(reg: Registry, d: Decision)
    requires Resolve(reg, d).Ok?
    ensures var r := Resolve(reg, d).value;
            && Check(reg, r) == Ok(r) && IsHex64(r.fingerprint)
            && r.fingerprint == Bounded(d.fingerprint, 64) && r.decisionId == Bounded(d.decisionId, 96)
            && r.decisionId != ""
  {
  }
}
