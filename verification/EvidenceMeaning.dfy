/**
 What the strict validator accepts, stated on the payload: exactly the payloads whose fields,
 read one by one, are well-formed evidence; and what the builder puts into one.
 */
module EvidenceMeaning {
  import opened Wrappers
  import opened Text
  import opened Json
  import opened RoutingDecision
  import opened RoutingEvidence
  import opened RoutingEvidenceBuilder
  import opened Pairwise
  import opened Places

  // ---------------------------------------------------------------- single values

  /** The text of the value without its blank edges. */
  ghost predicate Reads(v: Json, s: string) {
    s == Strip(TextOf(v))
  }

  /** Nothing for null and the empty text, else the text of the value. */
  ghost predicate MayRead(v: Json, s: Option<string>) {
    if v == JNull || v == JStr("") then s == None else s.Some? && Reads(v, s.value)
  }

  /** The millisecond count nearest to the number, or to a day when it is more; a tie goes to the even count. */
  ghost predicate Nearest(x: real, m: real) {
    var y := (if x < 86400000.0 then x else 86400000.0) * 1000.0;
    exists n: int :: m == n as real / 1000.0 && NearestCount(y, n)
  }

  predicate NearestCount(y: real, n: int) {
    var off := n as real - y;
    -0.5 <= off <= 0.5 && (off == 0.5 || off == -0.5 ==> n % 2 == 0)
  }

  lemma NearestIsUnique(y: real, m: int, n: int)
    requires NearestCount(y, m) && NearestCount(y, n)
    ensures m == n
  {
    assert -1.0 <= (m - n) as real <= 1.0;
  }

  lemma MillisecondsMean(x: real, m: real)
    ensures m == Milliseconds(x) <==> Nearest(x, m)
  {
    var y := (if x < 86400000.0 then x else 86400000.0) * 1000.0;
    var n := if y - y.Floor as real < 0.5 || (y - y.Floor as real == 0.5 && y.Floor % 2 == 0) then y.Floor else y.Floor + 1;
    assert Milliseconds(x) == n as real / 1000.0 && NearestCount(y, n);
    if Nearest(x, m) {
      var k: int :| m == k as real / 1000.0 && NearestCount(y, k);
      NearestIsUnique(y, k, n);
    }
  }

  ghost predicate LatencyReads(r: Reading, latency: Option<real>) {
    match r
    case Absent => latency == None
    case Number(x) => x >= 0.0 && latency.Some? && Nearest(x, latency.value)
    case _ => false
  }

  lemma LatencyMeans(r: Reading, latency: Option<real>)
    ensures Latency(r) == Ok(latency) <==> LatencyReads(r, latency)
  {
    if r.Number? && latency.Some? {
      MillisecondsMean(r.number, latency.value);
    }
  }

  lemma IdentitiesJoin(items: seq<Json>)
    requires items != []
    ensures IdentitiesOf(items) == Joined(IdentitiesOf(items[..|items| - 1]), Identity(items[|items| - 1]))
  {
  }

  ghost predicate IdentityMeant(v: Json, id: string) {
    Reads(v, id) && IsEvidenceId(id)
  }

  lemma {:induction false} EachIdentityMeans(items: seq<Json>, ids: seq<string>)
    ensures IdentitiesOf(items) == Ok(ids) <==> Each(items, ids, IdentityMeant)
    decreases |items|
  {
    if items != [] && ids != [] {
      EachIdentityMeans(items[..|items| - 1], ids[..|ids| - 1]);
      IdentitiesJoin(items);
      JoinedIs(IdentitiesOf(items[..|items| - 1]), Identity(items[|items| - 1]), ids);
      EachLast(items, ids, IdentityMeant);
    }
  }

  lemma IdentitiesMean(items: seq<Json>, ids: seq<string>)
    ensures IdentitiesOf(items) == Ok(ids) <==> Each(items, ids, Reads) && forall id | id in ids :: IsEvidenceId(id)
  {
    EachIdentityMeans(items, ids);
    EachBoth(items, ids, Reads, IdentityMeant, IsEvidenceId);
  }

  // ---------------------------------------------------------------- parts

  ghost predicate DecisionReads(raw: RawDecision, d: DecisionEvidence) {
    && raw.RawDecision? && raw.schema == JStr("spatial-agent.domain-routing-decision.v1")
    && Reads(raw.decisionId, d.decisionId) && MayRead(raw.parent, d.parent)
    && Reads(raw.status, d.status) && Reads(raw.reasonCode, d.reasonCode)
    && Reads(raw.selectorId, d.selectorId) && d.fingerprint == TextOf(raw.fingerprint)
    && Reads(raw.domainId, d.domainId) && Reads(raw.source, d.source)
  }

  ghost predicate CandidateReads(raw: RawCandidate, id: string) {
    raw.RawCandidate? && Reads(raw.candidateId, id)
  }

  ghost predicate CandidatesRead(raw: RawList<RawCandidate>, ids: seq<string>) {
    raw.Items? && Each(raw.items, ids, CandidateReads)
  }

  ghost predicate EventReads(raw: RawEvent, e: Event) {
    && raw.RawEvent?
    && Reads(raw.eventId, e.decisionId) && MayRead(raw.eventParent, e.parent)
    && Reads(raw.eventStatus, e.status) && Reads(raw.eventReason, e.reasonCode) && Reads(raw.eventSelector, e.selectorId)
    && raw.domains.Items? && Each(raw.domains.items, e.domains, Reads)
    && MayRead(raw.eventDomain, e.domainId) && MayRead(raw.eventSource, e.source)
  }

  ghost predicate EventsRead(raw: RawList<RawEvent>, events: seq<Event>) {
    raw.Items? && Each(raw.items, events, EventReads)
  }

  /** A count is a number equal to it, not a truth value. */
  ghost predicate Counts(v: Json, n: int) {
    v == JInt(n) || (v.JFloat? && v.x == n as real)
  }

  /** What the lineage says of itself, beside its events. */
  ghost predicate EndsRead(raw: RawLineage, l: Lineage)
    requires raw.RawLineage?
  {
    && Reads(raw.rootId, l.rootId) && Reads(raw.currentId, l.currentId)
    && Counts(raw.eventCount, l.eventCount) && l.truncated == Truthy(raw.truncated)
  }

  ghost predicate LineageReads(raw: RawLineage, l: Lineage) {
    raw.RawLineage? && EndsRead(raw, l) && EventsRead(raw.events, l.events)
  }

  ghost predicate BindingReads(raw: RawBinding, b: Binding) {
    raw.RawBinding? && Reads(raw.state, b.state) && Reads(raw.boundDomain, b.domainId) && MayRead(raw.runId, b.runId)
  }

  ghost predicate ObservationReads(raw: RawObservation, o: Observation) {
    && raw.RawObservation?
    && Reads(raw.selectorMode, o.selectorMode) && raw.candidateCount == JInt(o.candidateCount)
    && (if Truthy(raw.fallback) then o.fallback.Some? && Reads(raw.fallback, o.fallback.value) else o.fallback == None)
    && o.clarification == Truthy(raw.clarification)
    && LatencyReads(raw.latency, o.latency)
  }

  /** The evidence is what the payload says, field by field. */
  ghost predicate EvidenceReads(raw: RawEvidence, e: Evidence) {
    && raw.RawEvidence? && raw.available == JBool(true)
    && raw.schemaVersion == JStr("spatial-agent.domain-routing-evidence.v1")
    && DecisionReads(raw.decision, e.decision)
    && CandidatesRead(raw.candidates, e.candidates)
    && LineageReads(raw.lineage, e.lineage)
    && BindingReads(raw.binding, e.binding)
    && ObservationReads(raw.observation, e.observation)
  }

  lemma StandingMeans(raw: RawDecision, d: DecisionEvidence)
    requires raw.RawDecision?
    ensures StandingOf(raw) == Ok(Standing(d.decisionId, d.parent, d.status)) <==>
            && Reads(raw.decisionId, d.decisionId) && MayRead(raw.parent, d.parent) && Reads(raw.status, d.status)
            && IsEvidenceId(d.decisionId) && d.status == "selected"
            && (d.parent.Some? ==> IsEvidenceId(d.parent.value) && d.parent.value != d.decisionId)
  {
    VocabularyIsWords("selected");
  }

  lemma ChoiceMeans(raw: RawDecision, d: DecisionEvidence)
    requires raw.RawDecision?
    ensures ChoiceOf(raw) == Ok(Choice(d.selectorId, d.fingerprint, d.domainId, d.source)) <==>
            && Reads(raw.selectorId, d.selectorId) && d.fingerprint == TextOf(raw.fingerprint)
            && Reads(raw.domainId, d.domainId) && Reads(raw.source, d.source)
            && IsEvidenceId(d.selectorId) && IsHex64(d.fingerprint) && IsEvidenceId(d.domainId) && IsEvidenceId(d.source)
  {
  }

  lemma DecisionMeans(raw: RawDecision, d: DecisionEvidence)
    requires IsEvidenceText(d.reasonCode) && raw.RawDecision? && Reads(raw.reasonCode, d.reasonCode)
    ensures DecisionOf(raw) == Ok(d.(reasonCode := "")) <==> DecisionReads(raw, d) && DecisionOk(d)
  {
    StandingMeans(raw, d);
    ChoiceMeans(raw, d);
  }

  function CandidateOf(raw: RawCandidate): Result<string, EvidenceError> {
    if raw.NoCandidate? then Err(Invalid) else Identity(raw.candidateId)
  }

  lemma CandidatesJoin(items: seq<RawCandidate>)
    requires items != []
    ensures CandidatesOf(items) == Joined(CandidatesOf(items[..|items| - 1]), CandidateOf(items[|items| - 1]))
  {
  }

  ghost predicate CandidateMeant(raw: RawCandidate, id: string) {
    CandidateReads(raw, id) && IsEvidenceId(id)
  }

  lemma {:induction false} EachCandidateMeans(items: seq<RawCandidate>, ids: seq<string>)
    ensures CandidatesOf(items) == Ok(ids) <==> Each(items, ids, CandidateMeant)
    decreases |items|
  {
    if items != [] && ids != [] {
      EachCandidateMeans(items[..|items| - 1], ids[..|ids| - 1]);
      CandidatesJoin(items);
      JoinedIs(CandidatesOf(items[..|items| - 1]), CandidateOf(items[|items| - 1]), ids);
      EachLast(items, ids, CandidateMeant);
    }
  }

  lemma CandidatesMean(items: seq<RawCandidate>, ids: seq<string>)
    ensures CandidatesOf(items) == Ok(ids) <==>
            CandidatesRead(Items(items), ids) && forall id | id in ids :: IsEvidenceId(id)
  {
    EachCandidateMeans(items, ids);
    EachBoth(items, ids, CandidateReads, CandidateMeant, IsEvidenceId);
  }

  lemma SelectionMeans(raw: RawEvent, e: Event)
    requires raw.RawEvent?
    ensures EventSelection(raw, e.status) == Ok((e.domainId, e.source)) <==>
            && MayRead(raw.eventDomain, e.domainId) && MayRead(raw.eventSource, e.source)
            && (e.status == "selected") == e.domainId.Some? && (e.status == "selected") == e.source.Some?
            && (e.domainId.Some? ==> IsEvidenceId(e.domainId.value)) && (e.source.Some? ==> IsEvidenceId(e.source.value))
  {
  }

  /** The status of an event is one of three words. */
  lemma StatusMeans(v: Json, status: string)
    ensures BoundedText(v) == Ok(status) && status in STATUSES <==> Reads(v, status) && status in STATUSES
  {
    if status in STATUSES {
      VocabularyIsWords(status);
      StripStable(TextOf(v));
    }
  }

  lemma EventAccepted(raw: RawEvent, e: Event)
    requires EventReads(raw, e) && EventOk(e)
    ensures EventOf(raw) == Ok(e)
  {
    StatusMeans(raw.eventStatus, e.status);
    SelectionMeans(raw, e);
    IdentitiesMean(raw.domains.items, e.domains);
    assert Identity(raw.eventId) == Ok(e.decisionId) && OptionalIdentity(raw.eventParent) == Ok(e.parent);
    assert BoundedText(raw.eventReason) == Ok(e.reasonCode) && Identity(raw.eventSelector) == Ok(e.selectorId);
  }

  lemma EventParts(raw: RawEvent, e: Event)
    requires EventOf(raw) == Ok(e)
    ensures raw.RawEvent? && raw.domains.Items? && IdentitiesOf(raw.domains.items) == Ok(e.domains)
    ensures BoundedText(raw.eventStatus) == Ok(e.status) && BoundedText(raw.eventReason) == Ok(e.reasonCode)
    ensures EventSelection(raw, e.status) == Ok((e.domainId, e.source))
    ensures Identity(raw.eventId) == Ok(e.decisionId) && OptionalIdentity(raw.eventParent) == Ok(e.parent)
    ensures Identity(raw.eventSelector) == Ok(e.selectorId)
  {
  }

  lemma EventRead(raw: RawEvent, e: Event)
    requires EventOf(raw) == Ok(e)
    ensures EventReads(raw, e)
  {
    EventParts(raw, e);
    SelectionMeans(raw, e);
    IdentitiesMean(raw.domains.items, e.domains);
  }

  lemma EventMeans(raw: RawEvent, e: Event)
    ensures EventOf(raw) == Ok(e) <==> EventReads(raw, e) && EventOk(e)
  {
    if EventOf(raw).Ok? {
      EventRead(raw, EventOf(raw).value);
      EventRange(raw);
    }
    if EventReads(raw, e) && EventOk(e) {
      EventAccepted(raw, e);
    }
  }

  ghost predicate EventMeant(raw: RawEvent, e: Event) {
    EventReads(raw, e) && EventOk(e)
  }

  lemma EventsJoin(items: seq<RawEvent>)
    requires items != []
    ensures EventsOf(items) == Joined(EventsOf(items[..|items| - 1]), EventOf(items[|items| - 1]))
  {
  }

  lemma {:induction false} EventsMean(items: seq<RawEvent>, events: seq<Event>)
    ensures EventsOf(items) == Ok(events) <==> Each(items, events, EventMeant)
    decreases |items|
  {
    if items != [] && events != [] {
      EventsMean(items[..|items| - 1], events[..|events| - 1]);
      EventMeans(items[|items| - 1], events[|events| - 1]);
      EventsJoin(items);
      JoinedIs(EventsOf(items[..|items| - 1]), EventOf(items[|items| - 1]), events);
      EachLast(items, events, EventMeant);
    }
  }

  lemma LineageEventsMean(items: seq<RawEvent>, events: seq<Event>)
    ensures EventsOf(items) == Ok(events) <==> EventsRead(Items(items), events) && forall e | e in events :: EventOk(e)
  {
    EventsMean(items, events);
    EachBoth(items, events, EventReads, EventMeant, EventOk);
  }

  lemma LineageEndMeans(raw: RawLineage, l: Lineage, d: DecisionEvidence, reasonCode: Json)
    requires raw.RawLineage? && DecisionOk(d) && l.events != [] && |l.events| <= MAX_LINEAGE
    requires (forall e | e in l.events :: EventOk(e)) && Linked(l.events)
    ensures LineageEnd(raw, d.(reasonCode := ""), reasonCode, l.events) == Ok((l, d.reasonCode)) <==>
            EndsRead(raw, l) && LineageOk(l, d) && Reads(reasonCode, d.reasonCode)
  {
    EventsBegin(l.events);
    ReasonMeans(reasonCode, d.reasonCode);
    LineageEndsMean(raw, l, d);
    LineageEndIs(raw, l, d, reasonCode);
  }

  lemma LineageEndIs(raw: RawLineage, l: Lineage, d: DecisionEvidence, reasonCode: Json)
    requires raw.RawLineage? && l.events != []
    ensures LineageEnd(raw, d.(reasonCode := ""), reasonCode, l.events) == Ok((l, d.reasonCode)) <==>
            && (var last := l.events[|l.events| - 1];
                last.decisionId == d.decisionId && last.status == d.status && SameSelection(last, d, d.reasonCode))
            && BoundedText(reasonCode) == Ok(d.reasonCode)
            && LineageEnds(raw, d.(reasonCode := ""), l.events) == Ok(l)
  {
  }

  lemma EventsBegin(events: seq<Event>)
    requires events != [] && forall e | e in events :: EventOk(e)
    ensures IsEvidenceId(events[0].decisionId)
  {
    assert events[0] in events;
  }

  lemma ReasonMeans(v: Json, reason: string)
    requires IsEvidenceText(reason)
    ensures BoundedText(v) == Ok(reason) <==> Reads(v, reason)
  {
  }

  lemma LineageEndsMean(raw: RawLineage, l: Lineage, d: DecisionEvidence)
    requires raw.RawLineage? && IsEvidenceId(d.decisionId) && l.events != [] && IsEvidenceId(l.events[0].decisionId)
    ensures LineageEnds(raw, d.(reasonCode := ""), l.events) == Ok(l) <==>
            && EndsRead(raw, l)
            && l.rootId == l.events[0].decisionId && l.currentId == d.decisionId && l.eventCount == |l.events|
  {
  }

  lemma LineageMeans(raw: RawLineage, l: Lineage, d: DecisionEvidence, reasonCode: Json)
    requires DecisionOk(d)
    ensures LineageFrom(raw, d.(reasonCode := ""), reasonCode) == Ok((l, d.reasonCode)) <==>
            LineageReads(raw, l) && LineageOk(l, d) && Reads(reasonCode, d.reasonCode)
  {
    if LineageFrom(raw, d.(reasonCode := ""), reasonCode) == Ok((l, d.reasonCode)) {
      LineageIsRead(raw, l, d, reasonCode);
    }
    if LineageReads(raw, l) && LineageOk(l, d) && Reads(reasonCode, d.reasonCode) {
      LineageIsTaken(raw, l, d, reasonCode);
    }
  }

  lemma LineageIsRead(raw: RawLineage, l: Lineage, d: DecisionEvidence, reasonCode: Json)
    requires DecisionOk(d) && LineageFrom(raw, d.(reasonCode := ""), reasonCode) == Ok((l, d.reasonCode))
    ensures LineageReads(raw, l) && LineageOk(l, d) && Reads(reasonCode, d.reasonCode)
  {
    assert EventsOf(raw.events.items) == Ok(l.events);
    LineageEventsMean(raw.events.items, l.events);
    LineageEndMeans(raw, l, d, reasonCode);
  }

  lemma LineageIsTaken(raw: RawLineage, l: Lineage, d: DecisionEvidence, reasonCode: Json)
    requires DecisionOk(d) && LineageReads(raw, l) && LineageOk(l, d) && Reads(reasonCode, d.reasonCode)
    ensures LineageFrom(raw, d.(reasonCode := ""), reasonCode) == Ok((l, d.reasonCode))
  {
    LineageEventsMean(raw.events.items, l.events);
    LineageEndMeans(raw, l, d, reasonCode);
  }

  lemma BindingMeans(raw: RawBinding, b: Binding, d: DecisionEvidence)
    requires IsEvidenceId(d.domainId)
    ensures BindingOf(raw, d.domainId) == Ok(b) <==> BindingReads(raw, b) && BindingOk(b, d)
  {
    if raw.RawBinding? && b.state in STATES {
      VocabularyIsWords(b.state);
      StripStable(TextOf(raw.state));
    }
  }

  lemma ObservationMeans(raw: RawObservation, o: Observation, count: nat)
    requires count <= MAX_CANDIDATES
    ensures ObservationOf(raw, count) == Ok(o) <==> ObservationReads(raw, o) && ObservationOk(o, count)
  {
    if raw.RawObservation? {
      LatencyMeans(raw.latency, o.latency);
      if raw.latency.Number? && raw.latency.number >= 0.0 {
        MillisecondsSettle(raw.latency.number);
      }
    }
  }

  // ---------------------------------------------------------------- the whole payload

  /** The decision, still without its reason, and the candidates. */
  ghost predicate ChoiceAnswers(raw: RawEvidence, expected: string, e: Evidence)
    requires raw.RawEvidence? && raw.decision.RawDecision?
  {
    var d := e.decision.(reasonCode := "");
    && DecisionOf(raw.decision) == Ok(d) && ExpectedDomain(expected, d.domainId).Ok?
    && CandidateList(raw.candidates, d.domainId) == Ok(e.candidates)
  }

  /** The lineage with the reason, the binding and the observation. */
  ghost predicate RunAnswers(raw: RawEvidence, e: Evidence)
    requires raw.RawEvidence? && raw.decision.RawDecision?
  {
    var d := e.decision.(reasonCode := "");
    && LineageFrom(raw.lineage, d, raw.decision.reasonCode) == Ok((e.lineage, e.decision.reasonCode))
    && BindingOf(raw.binding, d.domainId) == Ok(e.binding)
    && ObservationOf(raw.observation, |e.candidates|) == Ok(e.observation)
  }

  ghost predicate Headed(raw: RawEvidence) {
    && raw.RawEvidence? && raw.decision.RawDecision? && raw.available == JBool(true)
    && raw.schemaVersion == JStr("spatial-agent.domain-routing-evidence.v1")
  }

  lemma DecisionWaits(raw: RawDecision)
    requires DecisionOf(raw).Ok?
    ensures raw.RawDecision? && DecisionOf(raw).value.reasonCode == ""
  {
  }

  lemma ChoiceAnswered(raw: RawEvidence, expected: string, e: Evidence)
    requires Normalize(raw, expected) == Ok(e)
    ensures Headed(raw) && ChoiceAnswers(raw, expected, e)
    ensures EvidenceAbout(raw, e.decision.(reasonCode := ""), e.candidates) == Ok(e)
  {
    DecisionWaits(raw.decision);
    var d := DecisionOf(raw.decision).value;
    AboutIs(raw, d, CandidateList(raw.candidates, d.domainId).value, e);
  }

  lemma AboutIs(raw: RawEvidence, d: DecisionEvidence, candidates: seq<string>, e: Evidence)
    requires raw.RawEvidence? && raw.decision.RawDecision? && d.reasonCode == ""
    requires EvidenceAbout(raw, d, candidates) == Ok(e)
    ensures candidates == e.candidates && d == e.decision.(reasonCode := "") && RunAnswers(raw, e)
  {
  }

  lemma RunAnswered(raw: RawEvidence, e: Evidence)
    requires raw.RawEvidence? && raw.decision.RawDecision?
    ensures EvidenceAbout(raw, e.decision.(reasonCode := ""), e.candidates) == Ok(e) <==> RunAnswers(raw, e)
  {
  }

  lemma PartsTaken(raw: RawEvidence, expected: string, e: Evidence)
    requires Headed(raw) && ChoiceAnswers(raw, expected, e) && RunAnswers(raw, e)
    ensures Normalize(raw, expected) == Ok(e)
  {
    RunAnswered(raw, e);
  }

  lemma PartsMean(raw: RawEvidence, expected: string, e: Evidence)
    ensures Normalize(raw, expected) == Ok(e) <==> Headed(raw) && ChoiceAnswers(raw, expected, e) && RunAnswers(raw, e)
  {
    if Normalize(raw, expected) == Ok(e) {
      ChoiceAnswered(raw, expected, e);
      RunAnswered(raw, e);
    }
    if Headed(raw) && ChoiceAnswers(raw, expected, e) && RunAnswers(raw, e) {
      PartsTaken(raw, expected, e);
    }
  }

  lemma ListMeans(raw: RawList<RawCandidate>, domainId: string, ids: seq<string>)
    ensures CandidateList(raw, domainId) == Ok(ids) <==>
            && CandidatesRead(raw, ids) && (forall id | id in ids :: IsEvidenceId(id))
            && |ids| <= MAX_CANDIDATES && NoRepeats(ids) && domainId in ids
  {
    if raw.Items? {
      CandidatesMean(raw.items, ids);
    }
  }

  lemma ExpectedMeans(expected: string, domainId: string)
    requires IsEvidenceId(domainId)
    ensures ExpectedDomain(expected, domainId).Ok? <==> Expects(expected, domainId)
  {
    IdentityReads(expected);
  }

  lemma ChoiceAnswersMean(raw: RawEvidence, expected: string, e: Evidence)
    requires raw.RawEvidence? && raw.decision.RawDecision? && DecisionOk(e.decision)
    requires Reads(raw.decision.reasonCode, e.decision.reasonCode)
    ensures ChoiceAnswers(raw, expected, e) <==>
            && DecisionReads(raw.decision, e.decision) && Expects(expected, e.decision.domainId)
            && CandidatesRead(raw.candidates, e.candidates) && CandidatesOk(e)
  {
    DecisionMeans(raw.decision, e.decision);
    ExpectedMeans(expected, e.decision.domainId);
    ListMeans(raw.candidates, e.decision.domainId, e.candidates);
  }

  ghost predicate CandidatesOk(e: Evidence) {
    && |e.candidates| <= MAX_CANDIDATES && (forall id | id in e.candidates :: IsEvidenceId(id))
    && NoRepeats(e.candidates) && e.decision.domainId in e.candidates
  }

  lemma RunAnswersMean(raw: RawEvidence, e: Evidence)
    requires raw.RawEvidence? && raw.decision.RawDecision? && DecisionOk(e.decision) && |e.candidates| <= MAX_CANDIDATES
    requires Reads(raw.decision.reasonCode, e.decision.reasonCode)
    ensures RunAnswers(raw, e) <==>
            && LineageReads(raw.lineage, e.lineage) && LineageOk(e.lineage, e.decision)
            && BindingReads(raw.binding, e.binding) && BindingOk(e.binding, e.decision)
            && ObservationReads(raw.observation, e.observation) && ObservationOk(e.observation, |e.candidates|)
  {
    LineageMeans(raw.lineage, e.lineage, e.decision, raw.decision.reasonCode);
    BindingMeans(raw.binding, e.binding, e.decision);
    ObservationMeans(raw.observation, e.observation, |e.candidates|);
  }

  lemma AcceptedReason(raw: RawEvidence, expected: string, e: Evidence)
    requires Normalize(raw, expected) == Ok(e)
    ensures WellFormed(e) && raw.RawEvidence? && raw.decision.RawDecision?
    ensures Reads(raw.decision.reasonCode, e.decision.reasonCode)
  {
    AcceptedIsWellFormed(raw, expected);
    PartsMean(raw, expected, e);
    LineageIsRead(raw.lineage, e.lineage, e.decision, raw.decision.reasonCode);
  }

  /**
   The validator accepts a payload as this evidence exactly when the payload says it, field by
   field, and it is well formed and about the expected Domain.
   */
  lemma NormalizeMeans(raw: RawEvidence, expected: string, e: Evidence)
    ensures Normalize(raw, expected) == Ok(e) <==>
            EvidenceReads(raw, e) && WellFormed(e) && Expects(expected, e.decision.domainId)
  {
    if Normalize(raw, expected) == Ok(e) {
      AcceptedReason(raw, expected, e);
    }
    if WellFormed(e) && raw.RawEvidence? && raw.decision.RawDecision?
       && Reads(raw.decision.reasonCode, e.decision.reasonCode) {
      PartsMean(raw, expected, e);
      ChoiceAnswersMean(raw, expected, e);
      RunAnswersMean(raw, e);
    }
  }

  // ---------------------------------------------------------------- what the builder tells

  predicate Any(id: string) {
    true
  }

  /** Each id once, in the order in which they first stand. */
  ghost predicate Once(ids: seq<string>, firsts: seq<string>, at: seq<nat>) {
    Firsts(ids, Any, at) && At(ids, at, firsts)
  }

  lemma {:induction false} FirstDistinctMeans(ids: seq<string>) returns (at: seq<nat>)
    ensures Once(ids, FirstDistinct(ids), at)
    decreases |ids|
  {
    at := [];
    if ids != [] {
      var n := |ids| - 1;
      var init := FirstDistinct(ids[..n]);
      at := FirstDistinctMeans(ids[..n]);
      TakenIffThere(ids[..n], Any, at, init, ids[n]);
      OneMoreKey(ids, Any, at);
      OneMoreAt(ids, at, init);
      assert ids[n] in ids[..n] <==> !First(ids, n);
      at := if ids[n] in init then at else at + [n];
    }
  }

  /** The Domains of the first eight candidates, each once, in the order they first appear. */
  lemma ShownIdsMean(d: Decision)
    ensures exists at: seq<nat> :: Once(FirstIds(d), ShownIds(d), at)
  {
    var at := FirstDistinctMeans(FirstIds(d));
    assert Once(FirstIds(d), ShownIds(d), at);
  }

  /** The part of the selector id before its first dot, of which 32 characters. */
  ghost predicate ModeOf(selectorId: string, mode: string) {
    exists head, rest :: selectorId == head + rest && '.' !in head && (rest == "" || rest[0] == '.')
                         && mode <= head && |mode| == if |head| < 32 then |head| else 32
  }

  lemma {:induction false} BeforeFirstMeans(s: string, sep: char)
    ensures var head := BeforeFirst(s, sep);
            && sep !in head && head <= s && (head == s || s[|head|] == sep)
  {
    if s != "" && s[0] != sep {
      BeforeFirstMeans(s[1..], sep);
    }
  }

  lemma ModeMeans(selectorId: string)
    ensures ModeOf(selectorId, SelectorMode(selectorId))
  {
    var head := BeforeFirst(selectorId, '.');
    BeforeFirstMeans(selectorId, '.');
    assert selectorId == head + selectorId[|head|..];
  }

  /** What a reason says after the fallback marker: 96 characters of it, without blank edges. */
  ghost predicate NoteOf(reason: string, note: Option<string>) {
    if exists rest :: rest != "" && reason == "selector_fallback:" + rest then
      exists rest :: rest != "" && reason == "selector_fallback:" + rest
                     && note == Some(Strip(if |rest| <= 96 then rest else rest[..96]))
    else note == None
  }

  lemma NoteMeans(reason: string, note: Option<string>)
    requires var f := FallbackReason(reason); if Truthy(f) then note.Some? && Reads(f, note.value) else note == None
    ensures NoteOf(reason, note)
  {
    var rest := if |FALLBACK| <= |reason| then reason[|FALLBACK|..] else "";
    if StartsWith(reason, FALLBACK) {
      assert reason == FALLBACK + rest;
    }
    forall r | reason == FALLBACK + r
      ensures r == rest && StartsWith(reason, FALLBACK)
    {
      assert reason[..|FALLBACK|] == FALLBACK && reason[|FALLBACK|..] == r;
    }
  }

  /** How the selection was made, how many candidates there were, and what the run observed. */
  ghost predicate ObservationTells(o: Observation, current: Decision, latency: Reading) {
    && ModeOf(current.selectorId, o.selectorMode)
    && o.candidateCount == |ShownIds(current)|
    && NoteOf(Strip(current.reasonCode), o.fallback)
    && !o.clarification
    && LatencyReads(latency, o.latency)
  }

  lemma LatencyAgain(latency: Reading, told: Option<real>)
    requires Latency(latency).Ok? && LatencyReads(RawOfLatency(Latency(latency).value), told)
    ensures LatencyReads(latency, told)
  {
    if latency.Number? {
      MillisecondsSettle(latency.number);
      MillisecondsMean(Milliseconds(latency.number), told.value);
      MillisecondsMean(latency.number, told.value);
    }
  }

  lemma ObservationIsTold(current: Decision, latency: Reading, o: Observation)
    requires Identified(current) && current.status == "selected" && Latency(latency).Ok?
    requires ObservationReads(RawObservation(
               JStr(SelectorMode(current.selectorId)), JInt(|ShownIds(current)|), FallbackReason(Strip(current.reasonCode)),
               JBool(current.status != "selected"), RawOfLatency(Latency(latency).value)), o)
    ensures ObservationTells(o, current, latency)
  {
    IdentityFix(SelectorMode(current.selectorId));
    ModeMeans(current.selectorId);
    NoteMeans(Strip(current.reasonCode), o.fallback);
    LatencyAgain(latency, o.latency);
  }

  lemma BuiltIsRead(current: Decision, lineage: seq<Decision>, latency: Reading)
    requires Acceptable(current, lineage, latency) && Build(current, lineage, latency).Ok?
    ensures AllReadable(current, lineage)
    ensures var raw := Snapshot(current, lineage, latency).value.0;
            && Lists(raw, current, lineage, Latency(latency).value)
            && EvidenceReads(raw, Build(current, lineage, latency).value)
  {
    LineageIsAccepted(current, lineage, latency);
    SnapshotParts(current, lineage, latency);
    var (raw, domainId) := Snapshot(current, lineage, latency).value;
    NormalizeMeans(raw, domainId, Build(current, lineage, latency).value);
  }

  lemma ReadTells(raw: RawEvidence, current: Decision, lineage: seq<Decision>, latency: Reading, e: Evidence)
    requires Acceptable(current, lineage, latency)
    requires Lists(raw, current, lineage, Latency(latency).value) && EvidenceReads(raw, e)
    ensures e.binding == Binding("selected", current.selection.value.domainId, None)
    ensures ObservationTells(e.observation, current, latency)
  {
    ObservationIsTold(current, latency, e.observation);
    IdentityFix(current.selection.value.domainId);
    VocabularyFix("selected");
  }

  /** What the built evidence says about the run before it is bound. */
  lemma BuiltTells(current: Decision, lineage: seq<Decision>, latency: Reading)
    requires Acceptable(current, lineage, latency) && Build(current, lineage, latency).Ok?
    ensures var e := Build(current, lineage, latency).value;
            && e.binding == Binding("selected", current.selection.value.domainId, None)
            && ObservationTells(e.observation, current, latency)
  {
    BuiltIsRead(current, lineage, latency);
    var raw := Snapshot(current, lineage, latency).value.0;
    ReadTells(raw, current, lineage, latency, Build(current, lineage, latency).value);
  }
}
