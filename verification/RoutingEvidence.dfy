/**
 Execution evidence of a routing decision: a strict validator that rejects instead of
 cutting, and the binder that ties the evidence to one run.
 */
module RoutingEvidence {
  import opened Wrappers
  import opened Text
  import opened Json
  import opened RoutingDecision

  const EVIDENCE_SCHEMA := "spatial-agent.domain-routing-evidence.v1"
  const MAX_LINEAGE := 8
  const MAX_CANDIDATES := 8

  datatype EvidenceError =
    | Missing | UnknownSchema | Invalid | UnknownDecisionSchema | NotSelected | DomainMismatch
    | InvalidLineage | RunConflict

  // ---------------------------------------------------------------- unvalidated payloads

  /** What `value.get(...)` finds under each key; a key that is absent reads as null. */
  datatype RawEvidence = NoEvidence | RawEvidence(
    schemaVersion: Json, available: Json, decision: RawDecision, candidates: RawList<RawCandidate>,
    lineage: RawLineage, binding: RawBinding, observation: RawObservation)

  datatype RawList<T> = NotAList | Items(items: seq<T>)

  datatype RawDecision = NoDecision | RawDecision(
    schema: Json, decisionId: Json, parent: Json, status: Json, reasonCode: Json, selectorId: Json,
    fingerprint: Json, domainId: Json, source: Json)

  datatype RawCandidate = NoCandidate | RawCandidate(candidateId: Json)

  datatype RawEvent = NoEvent | RawEvent(
    eventId: Json, eventParent: Json, eventStatus: Json, eventReason: Json, eventSelector: Json,
    domains: RawList<Json>, eventDomain: Json, eventSource: Json)

  datatype RawLineage = NoLineage | RawLineage(
    rootId: Json, currentId: Json, eventCount: Json, truncated: Json, events: RawList<RawEvent>)

  datatype RawBinding = NoBinding | RawBinding(state: Json, boundDomain: Json, runId: Json)

  datatype RawObservation = NoObservation | RawObservation(
    selectorMode: Json, candidateCount: Json, fallback: Json, clarification: Json, latency: Reading)

  /** What `float` makes of the latency field. */
  datatype Reading = Absent | Unreadable | NotFinite | Number(number: real)

  // ---------------------------------------------------------------- validated evidence

  datatype Evidence = Evidence(
    decision: DecisionEvidence, candidates: seq<string>, lineage: Lineage, binding: Binding,
    observation: Observation)

  datatype DecisionEvidence = DecisionEvidence(
    decisionId: string, parent: Option<string>, status: string, reasonCode: string, selectorId: string,
    fingerprint: string, domainId: string, source: string)

  datatype Event = Event(
    decisionId: string, parent: Option<string>, status: string, reasonCode: string, selectorId: string,
    domains: seq<string>, domainId: Option<string>, source: Option<string>)

  datatype Lineage = Lineage(rootId: string, currentId: string, eventCount: int, truncated: bool, events: seq<Event>)

  datatype Binding = Binding(state: string, domainId: string, runId: Option<string>)

  datatype Observation = Observation(
    selectorMode: string, candidateCount: int, fallback: Option<string>, clarification: bool,
    latency: Option<real>)

  // ---------------------------------------------------------------- field checks

  predicate IsEvidenceId(s: string) {
    IdText(s, 128) && (IsAlpha(s[0]) || IsDigit(s[0]))
  }

  predicate IsEvidenceText(s: string) {
    s != "" && |s| <= 128 && TrimStable(s) && forall i | 0 <= i < |s| :: s[i] >= ' '
  }

  function Identity(v: Json): Result<string, EvidenceError> {
    var t := Strip(TextOf(v));
    if IsEvidenceId(t) then Ok(t) else Err(Invalid)
  }

  function OptionalIdentity(v: Json): Result<Option<string>, EvidenceError> {
    if v == JNull || v == JStr("") then Ok(None)
    else
      var id :- Identity(v);
      Ok(Some(id))
  }

  function BoundedText(v: Json): Result<string, EvidenceError> {
    var t := Strip(TextOf(v));
    if IsEvidenceText(t) then Ok(t) else Err(Invalid)
  }

  /** `round(min(x, 86_400_000), 3)`, ties to even. */
  function Milliseconds(x: real): real {
    var y := (if x < 86400000.0 then x else 86400000.0) * 1000.0;
    var n := y.Floor;
    var rest := y - n as real;
    (if rest < 0.5 || (rest == 0.5 && n % 2 == 0) then n else n + 1) as real / 1000.0
  }

  function Latency(r: Reading): Result<Option<real>, EvidenceError> {
    match r
    case Absent => Ok(None)
    case Number(x) => if x < 0.0 then Err(Invalid) else Ok(Some(Milliseconds(x)))
    case _ => Err(Invalid)
  }

  function IdentitiesOf(items: seq<Json>): Result<seq<string>, EvidenceError> {
    if items == [] then Ok([])
    else
      var init :- IdentitiesOf(items[..|items| - 1]);
      var id :- Identity(items[|items| - 1]);
      Ok(init + [id])
  }

  function CandidatesOf(items: seq<RawCandidate>): Result<seq<string>, EvidenceError> {
    if items == [] then Ok([])
    else
      var init :- CandidatesOf(items[..|items| - 1]);
      match items[|items| - 1]
      case NoCandidate => Err(Invalid)
      case RawCandidate(v) =>
        var id :- Identity(v);
        Ok(init + [id])
  }

  const STATUSES := {"selected", "ambiguous", "unmatched"}

  /** Domain and source of an event: both for a selected status, neither for the others. */
  function EventSelection(raw: RawEvent, status: string): Result<(Option<string>, Option<string>), EvidenceError>
    requires raw.RawEvent?
  {
    var domainId :- OptionalIdentity(raw.eventDomain);
    var source :- OptionalIdentity(raw.eventSource);
    if status == "selected" && (domainId.None? || source.None?) then Err(Invalid)
    else if status != "selected" && (domainId.Some? || source.Some?) then Err(Invalid)
    else Ok((domainId, source))
  }

  function EventOf(raw: RawEvent): Result<Event, EvidenceError> {
    if raw.NoEvent? then Err(Invalid)
    else
      var status :- BoundedText(raw.eventStatus);
      if status !in STATUSES then Err(Invalid)
      else if raw.domains.NotAList? || |raw.domains.items| > MAX_CANDIDATES then Err(Invalid)
      else
        var (domainId, source) :- EventSelection(raw, status);
        var decisionId :- Identity(raw.eventId);
        var parent :- OptionalIdentity(raw.eventParent);
        var reason :- BoundedText(raw.eventReason);
        var selector :- Identity(raw.eventSelector);
        var domains :- IdentitiesOf(raw.domains.items);
        Ok(Event(decisionId, parent, status, reason, selector, domains, domainId, source))
  }

  function EventsOf(items: seq<RawEvent>): Result<seq<Event>, EvidenceError> {
    if items == [] then Ok([])
    else
      var init :- EventsOf(items[..|items| - 1]);
      var event :- EventOf(items[|items| - 1]);
      Ok(init + [event])
  }

  ghost predicate NoRepeats<T>(s: seq<T>) {
    forall i, j | 0 <= i < j < |s| :: s[i] != s[j]
  }

  ghost predicate Linked(events: seq<Event>) {
    forall i | 1 <= i < |events| :: events[i].parent == Some(events[i - 1].decisionId)
  }

  /** Python's `count == n` for a JSON number. */
  predicate CountIs(v: Json, n: int) {
    match v
    case JInt(m) => m == n
    case JFloat(x, _) => x == n as real
    case _ => false
  }

  // ---------------------------------------------------------------- the validator

  datatype Standing = Standing(decisionId: string, parent: Option<string>, status: string)

  datatype Choice = Choice(selectorId: string, fingerprint: string, domainId: string, source: string)

  function StandingOf(raw: RawDecision): Result<Standing, EvidenceError>
    requires raw.RawDecision?
  {
    var decisionId :- Identity(raw.decisionId);
    var parent :- OptionalIdentity(raw.parent);
    if parent == Some(decisionId) then Err(Invalid)
    else
      var status :- BoundedText(raw.status);
      if status != "selected" then Err(NotSelected) else Ok(Standing(decisionId, parent, status))
  }

  function ChoiceOf(raw: RawDecision): Result<Choice, EvidenceError>
    requires raw.RawDecision?
  {
    var selector :- Identity(raw.selectorId);
    var fingerprint := TextOf(raw.fingerprint);
    if !IsHex64(fingerprint) then Err(Invalid)
    else
      var domainId :- Identity(raw.domainId);
      var source :- Identity(raw.source);
      Ok(Choice(selector, fingerprint, domainId, source))
  }

  /** The reason is read last, when the lineage has been checked. */
  function DecisionOf(raw: RawDecision): Result<DecisionEvidence, EvidenceError> {
    if raw.NoDecision? then Err(Invalid)
    else if raw.schema != JStr(DECISION_SCHEMA) then Err(UnknownDecisionSchema)
    else
      var h :- StandingOf(raw);
      var t :- ChoiceOf(raw);
      Ok(DecisionEvidence(
        h.decisionId, h.parent, h.status, "", t.selectorId, t.fingerprint, t.domainId, t.source))
  }

  /** The name the caller expects, when it gives one. */
  function ExpectedDomain(expected: string, domainId: string): Result<(), EvidenceError> {
    if expected == "" then Ok(())
    else
      var id :- Identity(JStr(expected));
      if domainId == id then Ok(()) else Err(DomainMismatch)
  }

  ghost function CandidateList(raw: RawList<RawCandidate>, domainId: string): Result<seq<string>, EvidenceError> {
    if raw.NotAList? || |raw.items| > MAX_CANDIDATES then Err(Invalid)
    else
      var candidates :- CandidatesOf(raw.items);
      if !NoRepeats(candidates) then Err(Invalid)
      else if domainId !in candidates then Err(DomainMismatch)
      else Ok(candidates)
  }

  ghost function LineageFrom(raw: RawLineage, d: DecisionEvidence, reasonCode: Json): Result<(Lineage, string), EvidenceError> {
    if raw.NoLineage? then Err(Invalid)
    else if raw.events.NotAList? || raw.events.items == [] || |raw.events.items| > MAX_LINEAGE then Err(InvalidLineage)
    else
      var events :- EventsOf(raw.events.items);
      if !Linked(events) then Err(InvalidLineage)
      else LineageEnd(raw, d, reasonCode, events)
  }

  predicate SameSelection(last: Event, d: DecisionEvidence, reason: string) {
    && last.reasonCode == reason && last.selectorId == d.selectorId
    && last.domainId == Some(d.domainId) && last.source == Some(d.source)
  }

  function LineageEnd(raw: RawLineage, d: DecisionEvidence, reasonCode: Json, events: seq<Event>)
    : Result<(Lineage, string), EvidenceError>
    requires raw.RawLineage?
  {
    if events == [] then Err(InvalidLineage)
    else
      var last := events[|events| - 1];
      if last.decisionId != d.decisionId || last.status != d.status then Err(InvalidLineage)
      else
        var reason :- BoundedText(reasonCode);
        if !SameSelection(last, d, reason) then Err(InvalidLineage)
        else
          var l :- LineageEnds(raw, d, events);
          Ok((l, reason))
  }

  function LineageEnds(raw: RawLineage, d: DecisionEvidence, events: seq<Event>): Result<Lineage, EvidenceError>
    requires raw.RawLineage? && events != []
  {
    var rootId :- Identity(raw.rootId);
    var currentId :- Identity(raw.currentId);
    if rootId != events[0].decisionId || currentId != d.decisionId then Err(InvalidLineage)
    else if !CountIs(raw.eventCount, |events|) then Err(InvalidLineage)
    else Ok(Lineage(rootId, currentId, |events|, Truthy(raw.truncated), events))
  }

  const STATES := {"selected", "execution_bound"}

  function BindingOf(raw: RawBinding, domainId: string): Result<Binding, EvidenceError> {
    if raw.NoBinding? then Err(Invalid)
    else
      var state :- BoundedText(raw.state);
      if state !in STATES then Err(Invalid)
      else
        var boundDomain :- Identity(raw.boundDomain);
        if boundDomain != domainId then Err(DomainMismatch)
        else
          var runId :- OptionalIdentity(raw.runId);
          if (state == "execution_bound") != runId.Some? then Err(Invalid)
          else Ok(Binding(state, boundDomain, runId))
  }

  function ObservationOf(raw: RawObservation, candidateCount: nat): Result<Observation, EvidenceError> {
    if raw.NoObservation? then Err(Invalid)
    else if !raw.candidateCount.JInt? || raw.candidateCount.n != candidateCount then Err(Invalid)
    else
      var selectorMode :- Identity(raw.selectorMode);
      var fallback :- (
        if !Truthy(raw.fallback) then Ok(None)
        else (var t :- BoundedText(raw.fallback); Ok(Some(t))));
      var latency :- Latency(raw.latency);
      Ok(Observation(
        selectorMode, Clamp(raw.candidateCount.n, 0, MAX_CANDIDATES), fallback, Truthy(raw.clarification), latency))
  }

  /** `_normalize`: every check in the order it is made, so that the first failure names the error. */
  ghost function Normalize(raw: RawEvidence, expected: string): Result<Evidence, EvidenceError> {
    if raw.NoEvidence? then Err(Missing)
    else if raw.schemaVersion != JStr(EVIDENCE_SCHEMA) then Err(UnknownSchema)
    else if raw.available != JBool(true) then Err(Invalid)
    else
      var d :- DecisionOf(raw.decision);
      var _ :- ExpectedDomain(expected, d.domainId);
      var candidates :- CandidateList(raw.candidates, d.domainId);
      EvidenceAbout(raw, d, candidates)
  }

  ghost function EvidenceAbout(raw: RawEvidence, d: DecisionEvidence, candidates: seq<string>): Result<Evidence, EvidenceError>
    requires raw.RawEvidence? && raw.decision.RawDecision?
  {
    var (lineage, reason) :- LineageFrom(raw.lineage, d, raw.decision.reasonCode);
    var binding :- BindingOf(raw.binding, d.domainId);
    var observation :- ObservationOf(raw.observation, |candidates|);
    Ok(Evidence(d.(reasonCode := reason), candidates, lineage, binding, observation))
  }

  // ---------------------------------------------------------------- the validator's loops

  lemma {:induction false} FirstFailure(items: seq<RawCandidate>, n: nat)
    requires n <= |items| && CandidatesOf(items[..n]).Err?
    ensures CandidatesOf(items) == CandidatesOf(items[..n])
    decreases |items|
  {
    if n < |items| {
      assert items[..|items| - 1][..n] == items[..n];
      FirstFailure(items[..|items| - 1], n);
    } else {
      assert items[..n] == items;
    }
  }

  lemma {:induction false} FirstEventFailure(items: seq<RawEvent>, n: nat)
    requires n <= |items| && EventsOf(items[..n]).Err?
    ensures EventsOf(items) == EventsOf(items[..n])
    decreases |items|
  {
    if n < |items| {
      assert items[..|items| - 1][..n] == items[..n];
      FirstEventFailure(items[..|items| - 1], n);
    } else {
      assert items[..n] == items;
    }
  }

  lemma {:induction false} CountDistinct(s: seq<string>)
    ensures |set x | x in s| <= |s|
    ensures |set x | x in s| == |s| <==> NoRepeats(s)
  {
    if s != [] {
      var init, last := s[..|s| - 1], s[|s| - 1];
      CountDistinct(init);
      assert (set x | x in s) == (set x | x in init) + {last};
      if last in init {
        assert (set x | x in s) == (set x | x in init);
        var i :| 0 <= i < |init| && init[i] == last;
        assert s[i] == s[|s| - 1];
      } else {
        assert forall i | 0 <= i < |init| :: s[i] in init;
      }
    } else {
      assert (set x | x in s) == {};
    }
  }

  method NormalizeCandidates(raw: RawList<RawCandidate>, domainId: string)
    returns (r: Result<seq<string>, EvidenceError>)
    ensures r == CandidateList(raw, domainId)
  {
    if raw.NotAList? || |raw.items| > MAX_CANDIDATES {
      return Err(Invalid);
    }
    var items, candidates := raw.items, [];
    for i := 0 to |items|
      invariant CandidatesOf(items[..i]) == Ok(candidates)
    {
      assert items[..i + 1][..i] == items[..i];
      var id := if items[i].NoCandidate? then Err(Invalid) else Identity(items[i].candidateId);
      if id.Err? {
        FirstFailure(items, i + 1);
        return Err(Invalid);
      }
      candidates := candidates + [id.value];
    }
    assert items[..|items|] == items;
    CountDistinct(candidates);
    if |candidates| != |set x | x in candidates| {
      return Err(Invalid);
    }
    r := if domainId !in candidates then Err(DomainMismatch) else Ok(candidates);
  }

  method CheckLinks(events: seq<Event>) returns (linked: bool)
    ensures linked <==> Linked(events)
  {
    for i := 0 to |events|
      invariant forall k | 1 <= k <= i && k < |events| :: events[k].parent == Some(events[k - 1].decisionId)
    {
      if i + 1 < |events| && events[i + 1].parent != Some(events[i].decisionId) {
        return false;
      }
    }
    return true;
  }

  method NormalizeEvents(items: seq<RawEvent>) returns (r: Result<seq<Event>, EvidenceError>)
    ensures r == EventsOf(items)
  {
    var events := [];
    for i := 0 to |items|
      invariant EventsOf(items[..i]) == Ok(events)
    {
      assert items[..i + 1][..i] == items[..i];
      var event := EventOf(items[i]);
      if event.Err? {
        FirstEventFailure(items, i + 1);
        return Err(event.error);
      }
      events := events + [event.value];
    }
    assert items[..|items|] == items;
    return Ok(events);
  }

  method NormalizeLineage(raw: RawLineage, d: DecisionEvidence, reasonCode: Json)
    returns (r: Result<(Lineage, string), EvidenceError>)
    ensures r == LineageFrom(raw, d, reasonCode)
  {
    if raw.NoLineage? {
      return Err(Invalid);
    }
    if raw.events.NotAList? || raw.events.items == [] || |raw.events.items| > MAX_LINEAGE {
      return Err(InvalidLineage);
    }
    var events :- NormalizeEvents(raw.events.items);
    var linked := CheckLinks(events);
    if !linked {
      return Err(InvalidLineage);
    }
    r := LineageEnd(raw, d, reasonCode, events);
  }

  method NormalizeEvidence(raw: RawEvidence, expected: string) returns (r: Result<Evidence, EvidenceError>)
    ensures r == Normalize(raw, expected)
  {
    if raw.NoEvidence? {
      return Err(Missing);
    }
    if raw.schemaVersion != JStr(EVIDENCE_SCHEMA) {
      return Err(UnknownSchema);
    }
    if raw.available != JBool(true) {
      return Err(Invalid);
    }
    var d :- DecisionOf(raw.decision);
    var _ :- ExpectedDomain(expected, d.domainId);
    var candidates :- NormalizeCandidates(raw.candidates, d.domainId);
    var checked :- NormalizeLineage(raw.lineage, d, raw.decision.reasonCode);
    var (lineage, reason) := checked;
    var binding :- BindingOf(raw.binding, d.domainId);
    var observation :- ObservationOf(raw.observation, |candidates|);
    return Ok(Evidence(d.(reasonCode := reason), candidates, lineage, binding, observation));
  }

  // ---------------------------------------------------------------- what is accepted

  ghost predicate DecisionOk(d: DecisionEvidence) {
    && IsEvidenceId(d.decisionId) && d.status == "selected" && IsEvidenceText(d.reasonCode)
    && (d.parent.Some? ==> IsEvidenceId(d.parent.value) && d.parent.value != d.decisionId)
    && IsEvidenceId(d.selectorId) && IsHex64(d.fingerprint) && IsEvidenceId(d.domainId) && IsEvidenceId(d.source)
  }

  ghost predicate EventOk(e: Event) {
    && IsEvidenceId(e.decisionId) && (e.parent.Some? ==> IsEvidenceId(e.parent.value))
    && e.status in STATUSES && IsEvidenceText(e.reasonCode) && IsEvidenceId(e.selectorId)
    && |e.domains| <= MAX_CANDIDATES && (forall id | id in e.domains :: IsEvidenceId(id))
    && ((e.status == "selected") == e.domainId.Some?) && ((e.status == "selected") == e.source.Some?)
    && (e.domainId.Some? ==> IsEvidenceId(e.domainId.value)) && (e.source.Some? ==> IsEvidenceId(e.source.value))
  }

  ghost predicate LineageOk(l: Lineage, d: DecisionEvidence) {
    && 1 <= |l.events| <= MAX_LINEAGE && (forall e | e in l.events :: EventOk(e)) && Linked(l.events)
    && l.rootId == l.events[0].decisionId && l.currentId == d.decisionId && l.eventCount == |l.events|
    && (var last := l.events[|l.events| - 1];
        last.decisionId == d.decisionId && last.status == d.status && last.reasonCode == d.reasonCode
        && last.selectorId == d.selectorId && last.domainId == Some(d.domainId) && last.source == Some(d.source))
  }

  ghost predicate BindingOk(b: Binding, d: DecisionEvidence) {
    && b.domainId == d.domainId
    && match b.runId { case None => b.state == "selected" case Some(id) => b.state == "execution_bound" && IsEvidenceId(id) }
  }

  ghost predicate ObservationOk(o: Observation, count: nat) {
    && IsEvidenceId(o.selectorMode) && o.candidateCount == count
    && (o.fallback.Some? ==> IsEvidenceText(o.fallback.value))
    && (o.latency.Some? ==> o.latency.value >= 0.0 && Milliseconds(o.latency.value) == o.latency.value)
  }

  /** Everything a reader of evidence may rely on. */
  ghost predicate WellFormed(e: Evidence) {
    && DecisionOk(e.decision) && LineageOk(e.lineage, e.decision) && BindingOk(e.binding, e.decision)
    && |e.candidates| <= MAX_CANDIDATES && (forall id | id in e.candidates :: IsEvidenceId(id))
    && NoRepeats(e.candidates) && e.decision.domainId in e.candidates
    && ObservationOk(e.observation, |e.candidates|)
  }

  // ---------------------------------------------------------------- evidence as a payload

  function Nullable(s: Option<string>): Json {
    if s.Some? then JStr(s.value) else JNull
  }

  function RawIds(ids: seq<string>): seq<Json> {
    seq(|ids|, i requires 0 <= i < |ids| => JStr(ids[i]))
  }

  function RawCandidates(ids: seq<string>): seq<RawCandidate> {
    seq(|ids|, i requires 0 <= i < |ids| => RawCandidate(JStr(ids[i])))
  }

  function RawOfEvent(e: Event): RawEvent {
    RawEvent(JStr(e.decisionId), Nullable(e.parent), JStr(e.status), JStr(e.reasonCode), JStr(e.selectorId),
             Items(RawIds(e.domains)), Nullable(e.domainId), Nullable(e.source))
  }

  function RawEvents(events: seq<Event>): seq<RawEvent> {
    seq(|events|, i requires 0 <= i < |events| => RawOfEvent(events[i]))
  }

  function RawOfDecision(d: DecisionEvidence): RawDecision {
    RawDecision(JStr(DECISION_SCHEMA), JStr(d.decisionId), Nullable(d.parent), JStr(d.status), JStr(d.reasonCode),
                JStr(d.selectorId), JStr(d.fingerprint), JStr(d.domainId), JStr(d.source))
  }

  function RawOfLineage(l: Lineage): RawLineage {
    RawLineage(JStr(l.rootId), JStr(l.currentId), JInt(l.eventCount), JBool(l.truncated), Items(RawEvents(l.events)))
  }

  function RawOfBinding(b: Binding): RawBinding {
    RawBinding(JStr(b.state), JStr(b.domainId), Nullable(b.runId))
  }

  function RawOfLatency(latency: Option<real>): Reading {
    if latency.Some? then Number(latency.value) else Absent
  }

  function RawOfObservation(o: Observation): RawObservation {
    RawObservation(JStr(o.selectorMode), JInt(o.candidateCount), Nullable(o.fallback), JBool(o.clarification),
                   RawOfLatency(o.latency))
  }

  function RawOf(e: Evidence): RawEvidence {
    RawEvidence(JStr(EVIDENCE_SCHEMA), JBool(true), RawOfDecision(e.decision), Items(RawCandidates(e.candidates)),
                RawOfLineage(e.lineage), RawOfBinding(e.binding), RawOfObservation(e.observation))
  }

  // ---------------------------------------------------------------- fixed points

  lemma IdentityFix(s: string)
    requires IsEvidenceId(s)
    ensures Identity(JStr(s)) == Ok(s)
  {
    IdTextIsTrimStable(s, 128);
  }

  /** Any given text is accepted for what is left of it without its blank edges. */
  lemma IdentityReads(s: string)
    ensures Identity(JStr(s)) == if IsEvidenceId(Strip(s)) then Ok(Strip(s)) else Err(Invalid)
    ensures IsEvidenceId(s) ==> Strip(s) == s
  {
    if IsEvidenceId(s) {
      IdTextIsTrimStable(s, 128);
    }
  }

  lemma TextFix(s: string)
    requires IsEvidenceText(s)
    ensures BoundedText(JStr(s)) == Ok(s)
  {
    StripStable(s);
  }

  predicate IsWord(s: string) {
    1 <= |s| <= 16 && forall i | 0 <= i < |s| :: IsAlpha(s[i]) || s[i] == '_'
  }

  lemma VocabularyIsWords(s: string)
    requires s in STATUSES || s in STATES
    ensures IsWord(s)
  {
  }

  lemma WordFix(s: string)
    requires IsWord(s)
    ensures BoundedText(JStr(s)) == Ok(s)
  {
    TextFix(s);
  }

  /** The fixed vocabulary of statuses and binding states passes the text check. */
  lemma VocabularyFix(s: string)
    requires s in STATUSES || s in STATES
    ensures BoundedText(JStr(s)) == Ok(s)
  {
    VocabularyIsWords(s);
    WordFix(s);
  }

  lemma MillisecondsSettle(x: real)
    requires x >= 0.0
    ensures 0.0 <= Milliseconds(x) <= 86400000.0
    ensures Milliseconds(Milliseconds(x)) == Milliseconds(x)
  {
    var y := (if x < 86400000.0 then x else 86400000.0) * 1000.0;
    var n := if y - y.Floor as real < 0.5 || (y - y.Floor as real == 0.5 && y.Floor % 2 == 0) then y.Floor else y.Floor + 1;
    assert Milliseconds(x) == n as real / 1000.0;
    assert 0 <= n <= 86400000000;
    assert n as real / 1000.0 * 1000.0 == n as real;
    assert (n as real).Floor == n;
  }

  lemma OneMoreIdentity(init: seq<string>, id: string)
    requires IsEvidenceId(id) && IdentitiesOf(RawIds(init)) == Ok(init) && CandidatesOf(RawCandidates(init)) == Ok(init)
    ensures IdentitiesOf(RawIds(init + [id])) == Ok(init + [id])
    ensures CandidatesOf(RawCandidates(init + [id])) == Ok(init + [id])
  {
    var ids := init + [id];
    assert RawIds(ids)[..|init|] == RawIds(init) && RawCandidates(ids)[..|init|] == RawCandidates(init);
    IdentityFix(id);
  }

  lemma {:induction false} IdentitiesFix(ids: seq<string>)
    requires forall id | id in ids :: IsEvidenceId(id)
    ensures IdentitiesOf(RawIds(ids)) == Ok(ids) && CandidatesOf(RawCandidates(ids)) == Ok(ids)
    decreases |ids|
  {
    if ids == [] {
      assert RawIds(ids) == [] && RawCandidates(ids) == [];
    } else {
      var n := |ids| - 1;
      assert ids[n] in ids && ids[..n] + [ids[n]] == ids;
      IdentitiesFix(ids[..n]);
      OneMoreIdentity(ids[..n], ids[n]);
    }
  }

  lemma {:induction false} IdentitiesRange(items: seq<Json>)
    requires IdentitiesOf(items).Ok?
    ensures |IdentitiesOf(items).value| == |items| && forall id | id in IdentitiesOf(items).value :: IsEvidenceId(id)
    decreases |items|
  {
    if items != [] {
      IdentitiesRange(items[..|items| - 1]);
    }
  }

  lemma {:induction false} CandidatesRange(items: seq<RawCandidate>)
    requires CandidatesOf(items).Ok?
    ensures |CandidatesOf(items).value| == |items| && forall id | id in CandidatesOf(items).value :: IsEvidenceId(id)
    decreases |items|
  {
    if items != [] {
      CandidatesRange(items[..|items| - 1]);
    }
  }

  lemma OptionalFix(s: Option<string>)
    requires s.Some? ==> IsEvidenceId(s.value)
    ensures OptionalIdentity(Nullable(s)) == Ok(s)
  {
    if s.Some? {
      IdentityFix(s.value);
    }
  }

  lemma SelectionFix(e: Event)
    requires EventOk(e)
    ensures EventSelection(RawOfEvent(e), e.status) == Ok((e.domainId, e.source))
  {
    OptionalFix(e.domainId);
    OptionalFix(e.source);
  }

  lemma EventFix(e: Event)
    requires EventOk(e)
    ensures EventOf(RawOfEvent(e)) == Ok(e)
  {
    SelectionFix(e);
    VocabularyFix(e.status);
    TextFix(e.reasonCode);
    OptionalFix(e.parent);
    IdentityFix(e.decisionId);
    IdentityFix(e.selectorId);
    IdentitiesFix(e.domains);
  }

  lemma EventRange(raw: RawEvent)
    requires EventOf(raw).Ok?
    ensures EventOk(EventOf(raw).value)
  {
    IdentitiesRange(raw.domains.items);
  }

  lemma OneMoreEvent(init: seq<Event>, e: Event)
    requires EventOf(RawOfEvent(e)) == Ok(e) && EventsOf(RawEvents(init)) == Ok(init)
    ensures EventsOf(RawEvents(init + [e])) == Ok(init + [e])
  {
    assert RawEvents(init + [e])[..|init|] == RawEvents(init);
  }

  lemma {:induction false} EventsFix(events: seq<Event>)
    requires forall e | e in events :: EventOk(e)
    ensures EventsOf(RawEvents(events)) == Ok(events)
    decreases |events|
  {
    if events == [] {
      assert RawEvents(events) == [];
    } else {
      var n := |events| - 1;
      assert events[n] in events && events[..n] + [events[n]] == events;
      EventsFix(events[..n]);
      EventFix(events[n]);
      OneMoreEvent(events[..n], events[n]);
    }
  }

  lemma {:induction false} EventsRange(items: seq<RawEvent>)
    requires EventsOf(items).Ok?
    ensures |EventsOf(items).value| == |items| && forall e | e in EventsOf(items).value :: EventOk(e)
    decreases |items|
  {
    if items != [] {
      EventsRange(items[..|items| - 1]);
      EventRange(items[|items| - 1]);
    }
  }

  lemma LineageEndRange(raw: RawLineage, d: DecisionEvidence, reasonCode: Json, events: seq<Event>)
    requires raw.RawLineage? && LineageEnd(raw, d, reasonCode, events).Ok?
    requires 1 <= |events| <= MAX_LINEAGE && (forall e | e in events :: EventOk(e)) && Linked(events)
    ensures var (l, reason) := LineageEnd(raw, d, reasonCode, events).value;
            IsEvidenceText(reason) && LineageOk(l, d.(reasonCode := reason))
  {
  }

  lemma LineageRange(raw: RawLineage, d: DecisionEvidence, reasonCode: Json)
    requires LineageFrom(raw, d, reasonCode).Ok?
    ensures var (l, reason) := LineageFrom(raw, d, reasonCode).value;
            IsEvidenceText(reason) && LineageOk(l, d.(reasonCode := reason))
  {
    EventsRange(raw.events.items);
    LineageEndRange(raw, d, reasonCode, EventsOf(raw.events.items).value);
  }

  lemma LineageEndsFix(l: Lineage, d: DecisionEvidence)
    requires l.events != [] && IsEvidenceId(l.rootId) && IsEvidenceId(l.currentId)
    requires l.rootId == l.events[0].decisionId && l.currentId == d.decisionId && l.eventCount == |l.events|
    ensures LineageEnds(RawOfLineage(l), d.(reasonCode := ""), l.events) == Ok(l)
  {
    IdentityFix(l.rootId);
    IdentityFix(l.currentId);
  }

  lemma LineageFix(l: Lineage, d: DecisionEvidence)
    requires LineageOk(l, d) && IsEvidenceText(d.reasonCode)
    ensures LineageFrom(RawOfLineage(l), d.(reasonCode := ""), JStr(d.reasonCode)) == Ok((l, d.reasonCode))
  {
    EventsFix(l.events);
    TextFix(d.reasonCode);
    assert l.events[0] in l.events && l.events[|l.events| - 1] in l.events;
    LineageEndsFix(l, d);
  }

  lemma ObservationFix(o: Observation, count: nat)
    requires ObservationOk(o, count) && count <= MAX_CANDIDATES
    ensures ObservationOf(RawOfObservation(o), count) == Ok(o)
  {
    IdentityFix(o.selectorMode);
    if o.fallback.Some? {
      TextFix(o.fallback.value);
    }
  }

  lemma ObservationRange(raw: RawObservation, count: nat)
    requires ObservationOf(raw, count).Ok? && count <= MAX_CANDIDATES
    ensures ObservationOk(ObservationOf(raw, count).value, count)
  {
    if raw.latency.Number? {
      MillisecondsSettle(raw.latency.number);
    }
  }

  lemma StandingFix(d: DecisionEvidence)
    requires DecisionOk(d)
    ensures StandingOf(RawOfDecision(d)) == Ok(Standing(d.decisionId, d.parent, d.status))
  {
    IdentityFix(d.decisionId);
    OptionalFix(d.parent);
    VocabularyFix(d.status);
  }

  lemma ChoiceFix(d: DecisionEvidence)
    requires DecisionOk(d)
    ensures ChoiceOf(RawOfDecision(d)) == Ok(Choice(d.selectorId, d.fingerprint, d.domainId, d.source))
  {
    IdentityFix(d.selectorId);
    IdentityFix(d.domainId);
    IdentityFix(d.source);
  }

  lemma DecisionFix(d: DecisionEvidence)
    requires DecisionOk(d)
    ensures DecisionOf(RawOfDecision(d)) == Ok(d.(reasonCode := ""))
  {
    StandingFix(d);
    ChoiceFix(d);
  }

  lemma BindingFix(b: Binding, d: DecisionEvidence)
    requires BindingOk(b, d) && IsEvidenceId(d.domainId)
    ensures BindingOf(RawOfBinding(b), d.domainId) == Ok(b)
  {
    VocabularyFix(b.state);
    IdentityFix(b.domainId);
    OptionalFix(b.runId);
  }

  predicate Expects(expected: string, domainId: string) {
    expected == "" || Strip(expected) == domainId
  }

  lemma StandingRange(raw: RawDecision)
    requires raw.RawDecision? && StandingOf(raw).Ok?
    ensures var h := StandingOf(raw).value;
            && IsEvidenceId(h.decisionId) && h.status == "selected"
            && (h.parent.Some? ==> IsEvidenceId(h.parent.value) && h.parent.value != h.decisionId)
  {
  }

  lemma ChoiceRange(raw: RawDecision)
    requires raw.RawDecision? && ChoiceOf(raw).Ok?
    ensures var c := ChoiceOf(raw).value;
            IsEvidenceId(c.selectorId) && IsHex64(c.fingerprint) && IsEvidenceId(c.domainId) && IsEvidenceId(c.source)
  {
  }

  lemma DecisionRange(raw: RawDecision, expected: string)
    requires DecisionOf(raw).Ok?
    ensures forall reason | IsEvidenceText(reason) :: DecisionOk(DecisionOf(raw).value.(reasonCode := reason))
    ensures ExpectedDomain(expected, DecisionOf(raw).value.domainId).Ok? ==>
              Expects(expected, DecisionOf(raw).value.domainId)
  {
    StandingRange(raw);
    ChoiceRange(raw);
  }

  lemma BindingRange(raw: RawBinding, d: DecisionEvidence)
    requires BindingOf(raw, d.domainId).Ok?
    ensures BindingOk(BindingOf(raw, d.domainId).value, d)
  {
  }

  /** Every accepted payload yields well-formed evidence about the Domain the caller expects. */
  lemma AcceptedIsWellFormed(raw: RawEvidence, expected: string)
    requires Normalize(raw, expected).Ok?
    ensures WellFormed(Normalize(raw, expected).value)
    ensures Expects(expected, Normalize(raw, expected).value.decision.domainId)
  {
    var d := DecisionOf(raw.decision).value;
    DecisionRange(raw.decision, expected);
    CandidatesRange(raw.candidates.items);
    LineageRange(raw.lineage, d, raw.decision.reasonCode);
    var (lineage, reason) := LineageFrom(raw.lineage, d, raw.decision.reasonCode).value;
    BindingRange(raw.binding, d.(reasonCode := reason));
    ObservationRange(raw.observation, |CandidateList(raw.candidates, d.domainId).value|);
  }

  /** Evidence survives re-validation unchanged exactly when it is well formed and the expected one. */
  lemma WellFormedIsFixed(e: Evidence, expected: string)
    ensures Normalize(RawOf(e), expected) == Ok(e) <==> WellFormed(e) && Expects(expected, e.decision.domainId)
  {
    if WellFormed(e) {
      DecisionFix(e.decision);
      IdentitiesFix(e.candidates);
      LineageFix(e.lineage, e.decision);
      BindingFix(e.binding, e.decision);
      ObservationFix(e.observation, |e.candidates|);
      IdentityReads(expected);
    }
    if Normalize(RawOf(e), expected) == Ok(e) {
      AcceptedIsWellFormed(RawOf(e), expected);
    }
  }

  /** Normalisation is idempotent on everything it accepts. */
  lemma NormalizeIsIdempotent(raw: RawEvidence, expected: string)
    requires Normalize(raw, expected).Ok?
    ensures Normalize(RawOf(Normalize(raw, expected).value), expected) == Normalize(raw, expected)
  {
    AcceptedIsWellFormed(raw, expected);
    WellFormedIsFixed(Normalize(raw, expected).value, expected);
  }

  // ---------------------------------------------------------------- binding to a run

  method Bind(raw: RawEvidence, runId: string, domainId: string) returns (r: Result<Evidence, EvidenceError>)
    ensures r == Bound(raw, runId, domainId)
  {
    var normalized :- NormalizeEvidence(raw, domainId);
    var run :- Identity(JStr(runId));
    if normalized.binding.runId.Some? && normalized.binding.runId.value != run {
      return Err(RunConflict);
    }
    var boundDomain :- Identity(JStr(domainId));
    normalized := normalized.(binding := Binding("execution_bound", boundDomain, Some(run)));
    return Ok(normalized);
  }

  ghost function Bound(raw: RawEvidence, runId: string, domainId: string): Result<Evidence, EvidenceError> {
    var e :- Normalize(raw, domainId);
    var run :- Identity(JStr(runId));
    if e.binding.runId.Some? && e.binding.runId.value != run then Err(RunConflict)
    else
      var boundDomain :- Identity(JStr(domainId));
      Ok(e.(binding := Binding("execution_bound", boundDomain, Some(run))))
  }

  /** Binding changes the binding only, and what it returns is itself acceptable evidence. */
  lemma BindingIsAccepted(raw: RawEvidence, runId: string, domainId: string)
    requires Bound(raw, runId, domainId).Ok?
    ensures var b, n := Bound(raw, runId, domainId).value, Normalize(raw, domainId).value;
            && b == n.(binding := b.binding)
            && b.binding == Binding("execution_bound", n.decision.domainId, Some(Strip(runId)))
            && WellFormed(b) && Normalize(RawOf(b), domainId) == Ok(b)
  {
    AcceptedIsWellFormed(raw, domainId);
    IdentityReads(runId);
    var b := Bound(raw, runId, domainId).value;
    WellFormedIsFixed(b, domainId);
  }

  /** Bound evidence can be bound again, to no effect, exactly by the run that holds it. */
  lemma RebindIsSameRun(raw: RawEvidence, runId: string, domainId: string, again: string)
    requires Bound(raw, runId, domainId).Ok?
    ensures var b := Bound(raw, runId, domainId).value;
            && (Bound(RawOf(b), again, domainId).Ok? <==> Strip(again) == Strip(runId))
            && (Strip(again) == Strip(runId) ==> Bound(RawOf(b), again, domainId) == Ok(b))
            && (IsEvidenceId(Strip(again)) && Strip(again) != Strip(runId) ==>
                  Bound(RawOf(b), again, domainId) == Err(RunConflict))
  {
    BindingIsAccepted(raw, runId, domainId);
    IdentityReads(again);
    IdentityReads(runId);
  }
}
