/**
 Building evidence from a ledger lineage: the strict validator accepts what the ledger
 produces exactly when every reason it shows is readable and the current decision can be shown.
 */
module RoutingEvidenceBuilder {
  import opened Wrappers
  import opened Text
  import opened Json
  import opened RoutingDecision
  import opened RoutingEvidence
  import RoutingLedger
  import RoutingLedgerSafety

  function {:tailrecursion false} FirstDistinct(ids: seq<string>): (r: seq<string>)
    ensures |r| <= |ids|
    ensures forall id :: id in r <==> id in ids
  {
    if ids == [] then []
    else
      var init, last := FirstDistinct(ids[..|ids| - 1]), ids[|ids| - 1];
      if last in init then init else init + [last]
  }

  lemma {:induction false} FirstDistinctNoRepeats(ids: seq<string>)
    ensures NoRepeats(FirstDistinct(ids))
    decreases |ids|
  {
    if ids != [] {
      FirstDistinctNoRepeats(ids[..|ids| - 1]);
      var init := FirstDistinct(ids[..|ids| - 1]);
      assert forall i | 0 <= i < |init| :: init[i] in init;
    }
  }

  function CandidateJson(cs: seq<Candidate>): seq<Json> {
    seq(|cs|, i requires 0 <= i < |cs| => JStr(cs[i].domainId))
  }

  /** `_candidate_domain_ids`: the distinct Domain ids of the first eight candidates, in order. */
  function CandidateIds(d: Decision): Result<seq<string>, EvidenceError> {
    var ids :- IdentitiesOf(CandidateJson(Head(d.candidates, MAX_CANDIDATES)));
    Ok(FirstDistinct(ids))
  }

  lemma {:induction false} FirstIdFailure(items: seq<Json>, n: nat)
    requires n <= |items| && IdentitiesOf(items[..n]).Err?
    ensures IdentitiesOf(items) == IdentitiesOf(items[..n])
    decreases |items|
  {
    if n < |items| {
      assert items[..|items| - 1][..n] == items[..n];
      FirstIdFailure(items[..|items| - 1], n);
    } else {
      assert items[..n] == items;
    }
  }

  method CandidateDomainIds(d: Decision) returns (r: Result<seq<string>, EvidenceError>)
    ensures r == CandidateIds(d)
  {
    var items := CandidateJson(Head(d.candidates, MAX_CANDIDATES));
    var result := [];
    ghost var read := [];
    for i := 0 to |items|
      invariant IdentitiesOf(items[..i]) == Ok(read) && result == FirstDistinct(read)
    {
      assert items[..i + 1][..i] == items[..i];
      var id := Identity(items[i]);
      if id.Err? {
        FirstIdFailure(items, i + 1);
        return Err(id.error);
      }
      read := read + [id.value];
      assert read[..|read| - 1] + [id.value] == read;
      if id.value !in result {
        result := result + [id.value];
      }
    }
    assert items[..|items|] == items;
    return Ok(result);
  }

  function SelectionIdentity(d: Decision): Result<(string, string), EvidenceError> {
    if d.selection.None? then Err(NotSelected)
    else
      var sel := d.selection.value;
      if sel.domainId == "" || sel.source == "" then Err(Invalid)
      else
        var domainId :- Identity(JStr(sel.domainId));
        var source :- Identity(JStr(sel.source));
        Ok((domainId, source))
  }

  /** `_decision_event`: a lineage decision as an event, its selection optional. */
  function EventFrom(d: Decision): Result<Event, EvidenceError> {
    var whole := d.selection.Some? && d.selection.value.domainId != "" && d.selection.value.source != "";
    var (domainId, source) :- (
      if !whole then Ok((None, None))
      else (var pair :- SelectionIdentity(d); Ok((Some(pair.0), Some(pair.1)))));
    var decisionId :- Identity(JStr(d.decisionId));
    var parent :- OptionalIdentity(Nullable(d.parent));
    var status :- BoundedText(JStr(d.status));
    var reason :- BoundedText(JStr(d.reasonCode));
    var selector :- Identity(JStr(d.selectorId));
    var domains :- CandidateIds(d);
    Ok(Event(decisionId, parent, status, reason, selector, domains, domainId, source))
  }

  function EventsFrom(ds: seq<Decision>): Result<seq<Event>, EvidenceError> {
    if ds == [] then Ok([])
    else
      var init :- EventsFrom(ds[..|ds| - 1]);
      var event :- EventFrom(ds[|ds| - 1]);
      Ok(init + [event])
  }

  const FALLBACK := "selector_fallback:"

  /** What follows the fallback marker in the reason code, cut to 96 characters. */
  function FallbackReason(reason: string): Json {
    if StartsWith(reason, FALLBACK) then JStr(Take(reason[|FALLBACK|..], 96)) else JNull
  }

  function SelectorMode(selectorId: string): string {
    Take(BeforeFirst(selectorId, '.'), 32)
  }

  /** The decisions whose events are kept: the last eight, ending at the current one. */
  function Recorded(current: Decision, lineage: seq<Decision>): (r: seq<Decision>)
    ensures r != [] && |r| <= MAX_LINEAGE
  {
    var all := Chain(current, lineage);
    if |all| <= MAX_LINEAGE then all else all[|all| - MAX_LINEAGE..]
  }

  function Chain(current: Decision, lineage: seq<Decision>): (r: seq<Decision>)
    ensures r != []
  {
    var given := if lineage == [] then [current] else lineage;
    if given[|given| - 1].decisionId != current.decisionId then given + [current] else given
  }

  predicate HasParent(d: Decision) {
    d.parent.Some? && d.parent.value != ""
  }

  predicate Truncated(current: Decision, lineage: seq<Decision>) {
    |Chain(current, lineage)| > MAX_LINEAGE || HasParent(Recorded(current, lineage)[0])
  }

  function RawSnapshot(
    current: Decision, truncated: bool, events: seq<Event>, selection: (string, string), candidates: seq<string>,
    reason: string, selectorId: string, latency: Option<real>): RawEvidence
    requires events != []
  {
    var (domainId, source) := selection;
    RawEvidence(
      JStr(EVIDENCE_SCHEMA), JBool(true),
      RawDecision(JStr(current.schemaVersion), JStr(current.decisionId), Nullable(current.parent),
                  JStr(current.status), JStr(reason), JStr(current.selectorId), JStr(current.fingerprint),
                  JStr(domainId), JStr(source)),
      Items(RawCandidates(candidates)),
      RawLineage(JStr(events[0].decisionId), JStr(events[|events| - 1].decisionId), JInt(|events|),
                 JBool(truncated), Items(RawEvents(events))),
      RawBinding(JStr("selected"), JStr(domainId), JNull),
      RawObservation(JStr(SelectorMode(selectorId)), JInt(|candidates|), FallbackReason(reason),
                     JBool(current.status != "selected"), RawOfLatency(latency)))
  }

  /** The snapshot before validation, and the Domain it is about. */
  function Snapshot(current: Decision, lineage: seq<Decision>, latency: Reading): Result<(RawEvidence, string), EvidenceError> {
    var events :- EventsFrom(Recorded(current, lineage));
    var selection :- SelectionIdentity(current);
    var candidates :- CandidateIds(current);
    var reason :- BoundedText(JStr(current.reasonCode));
    var selector :- Identity(JStr(current.selectorId));
    var millis :- Latency(latency);
    if events == [] then Err(Invalid)
    else
      var truncated := Truncated(current, lineage);
      Ok((RawSnapshot(current, truncated, events, selection, candidates, reason, selector, millis), selection.0))
  }

  /** `build_domain_routing_evidence`. */
  ghost function Build(current: Decision, lineage: seq<Decision>, latency: Reading): Result<Evidence, EvidenceError> {
    var (raw, domainId) :- Snapshot(current, lineage, latency);
    Normalize(raw, domainId)
  }

  method BuildEvidence(current: Decision, lineage: seq<Decision>, latency: Reading) returns (r: Result<Evidence, EvidenceError>)
    ensures r == Build(current, lineage, latency)
  {
    var snapshot :- Snapshot(current, lineage, latency);
    r := NormalizeEvidence(snapshot.0, snapshot.1);
  }

  // ---------------------------------------------------------------- the ledger's lineages are accepted

  /** A decision whose identities are within the evidence bounds as they stand, whatever its reason. */
  ghost predicate Identified(d: Decision) {
    && IsEvidenceId(d.decisionId) && (d.parent.Some? ==> IsEvidenceId(d.parent.value))
    && d.status in STATUSES && IsEvidenceId(d.selectorId)
    && (d.status == "selected" <==> d.selection.Some?)
    && (d.selection.Some? ==> IsEvidenceId(d.selection.value.domainId) && IsEvidenceId(d.selection.value.source))
    && forall c | c in d.candidates :: IsEvidenceId(c.domainId)
  }

  /** Stripped, the reason is a bounded text without control characters. */
  predicate Readable(d: Decision) {
    IsEvidenceText(Strip(d.reasonCode))
  }

  /** The Domain ids of the first eight candidates. */
  function FirstIds(d: Decision): (r: seq<string>)
    ensures |r| == if |d.candidates| <= MAX_CANDIDATES then |d.candidates| else MAX_CANDIDATES
    ensures forall i | 0 <= i < |r| :: r[i] == d.candidates[i].domainId
  {
    var cs := Head(d.candidates, MAX_CANDIDATES);
    seq(|cs|, i requires 0 <= i < |cs| => cs[i].domainId)
  }

  function ShownIds(d: Decision): seq<string> {
    FirstDistinct(FirstIds(d))
  }

  lemma CandidateIdsShown(d: Decision)
    requires Identified(d)
    ensures CandidateIds(d) == Ok(ShownIds(d)) && |ShownIds(d)| <= MAX_CANDIDATES && NoRepeats(ShownIds(d))
    ensures forall id | id in ShownIds(d) :: IsEvidenceId(id)
  {
    var cs := Head(d.candidates, MAX_CANDIDATES);
    var ids := FirstIds(d);
    assert forall i | 0 <= i < |cs| :: cs[i] in d.candidates;
    assert CandidateJson(cs) == RawIds(ids);
    IdentitiesFix(ids);
    FirstDistinctNoRepeats(ids);
  }

  function EventShown(d: Decision): Event {
    var sel := d.selection;
    Event(d.decisionId, d.parent, d.status, Strip(d.reasonCode), d.selectorId, ShownIds(d),
          if sel.Some? then Some(sel.value.domainId) else None, if sel.Some? then Some(sel.value.source) else None)
  }

  lemma SelectionShown(d: Decision)
    requires Identified(d) && d.selection.Some?
    ensures SelectionIdentity(d) == Ok((d.selection.value.domainId, d.selection.value.source))
  {
    IdentityFix(d.selection.value.domainId);
    IdentityFix(d.selection.value.source);
  }

  lemma ReasonIsShown(d: Decision)
    ensures Readable(d) ==> BoundedText(JStr(d.reasonCode)) == Ok(Strip(d.reasonCode))
    ensures !Readable(d) ==> BoundedText(JStr(d.reasonCode)).Err?
  {
  }

  lemma EventNeedsReason(d: Decision)
    requires EventFrom(d).Ok?
    ensures Readable(d)
  {
    ReasonIsShown(d);
  }

  lemma EventIsShown(d: Decision)
    requires Identified(d) && Readable(d)
    ensures EventFrom(d) == Ok(EventShown(d)) && EventOk(EventShown(d))
  {
    if d.selection.Some? {
      SelectionShown(d);
    }
    IdentityFix(d.decisionId);
    OptionalFix(d.parent);
    VocabularyFix(d.status);
    ReasonIsShown(d);
    IdentityFix(d.selectorId);
    CandidateIdsShown(d);
  }

  function EventsShown(ds: seq<Decision>): seq<Event> {
    seq(|ds|, i requires 0 <= i < |ds| => EventShown(ds[i]))
  }

  lemma OneMoreShown(init: seq<Decision>, d: Decision)
    requires EventsFrom(init) == Ok(EventsShown(init)) && EventFrom(d) == Ok(EventShown(d))
    ensures EventsFrom(init + [d]) == Ok(EventsShown(init + [d]))
  {
    assert (init + [d])[..|init|] == init;
    assert EventsShown(init + [d]) == EventsShown(init) + [EventShown(d)];
  }

  lemma {:induction false} EventsAreShown(ds: seq<Decision>)
    requires forall d | d in ds :: Identified(d) && Readable(d)
    ensures EventsFrom(ds) == Ok(EventsShown(ds))
    ensures forall e | e in EventsShown(ds) :: EventOk(e)
    decreases |ds|
  {
    if ds == [] {
      assert EventsShown(ds) == [];
    } else {
      var n := |ds| - 1;
      assert ds[n] in ds && ds == ds[..n] + [ds[n]];
      EventsAreShown(ds[..n]);
      EventIsShown(ds[n]);
      OneMoreShown(ds[..n], ds[n]);
      assert EventsShown(ds) == EventsShown(ds[..n]) + [EventShown(ds[n])];
    }
  }

  lemma LastReason(ds: seq<Decision>)
    requires ds != [] && EventsFrom(ds).Ok?
    ensures EventsFrom(ds[..|ds| - 1]).Ok? && Readable(ds[|ds| - 1])
  {
    EventNeedsReason(ds[|ds| - 1]);
  }

  /** One unreadable reason among them and there are no events. */
  lemma {:induction false} EventsNeedReasons(ds: seq<Decision>)
    requires EventsFrom(ds).Ok?
    ensures forall d | d in ds :: Readable(d)
    decreases |ds|
  {
    if ds != [] {
      LastReason(ds);
      EventsNeedReasons(ds[..|ds| - 1]);
      assert ds == ds[..|ds| - 1] + [ds[|ds| - 1]];
    }
  }

  /** The last eight decisions of a lineage form a lineage. */
  lemma RecordedIsLineage(current: Decision, lineage: seq<Decision>, room: nat)
    requires RoutingLedgerSafety.IsLineage(lineage, current, room)
    ensures Chain(current, lineage) == lineage
    ensures RoutingLedgerSafety.IsLineage(Recorded(current, lineage), current, MAX_LINEAGE)
    ensures forall d | d in Recorded(current, lineage) :: d in lineage
  {
  }

  /** The fallback note taken from the reason code is empty or has something to show. */
  predicate FallbackReadable(reason: string) {
    var f := FallbackReason(reason);
    f.JNull? || f.text == "" || Strip(f.text) != ""
  }

  predicate SelectedShown(d: Decision) {
    d.selection.Some? && d.selection.value.domainId in ShownIds(d)
  }

  lemma FallbackIsText(reason: string)
    requires IsEvidenceText(reason)
    ensures var f := FallbackReason(reason);
            Truthy(f) ==> (BoundedText(f).Ok? <==> FallbackReadable(reason))
  {
    var f := FallbackReason(reason);
    if Truthy(f) {
      StripStable(f.text);
      var from, to := StripSlice(f.text);
      assert forall i | 0 <= i < |f.text| :: f.text[i] == reason[|FALLBACK| + i];
      assert forall i | 0 <= i < to - from :: Strip(f.text)[i] == f.text[from + i];
    }
  }

  /** The note and counts are accepted unless the fallback text is blank. */
  lemma ObservationAccepted(d: Decision, latency: Option<real>)
    requires Identified(d) && Readable(d) && (latency.Some? ==> latency.value >= 0.0)
    ensures ObservationOf(
              RawObservation(JStr(SelectorMode(d.selectorId)), JInt(|ShownIds(d)|), FallbackReason(Strip(d.reasonCode)),
                             JBool(d.status != "selected"), RawOfLatency(latency)), |ShownIds(d)|).Ok?
            <==> FallbackReadable(Strip(d.reasonCode))
  {
    IdentityFix(SelectorMode(d.selectorId));
    FallbackIsText(Strip(d.reasonCode));
  }

  /** A lineage of well-formed decisions that ends at a selected one, whatever their reasons. */
  ghost predicate Acceptable(current: Decision, lineage: seq<Decision>, latency: Reading) {
    && RoutingLedgerSafety.IsLineage(lineage, current, |lineage|) && (forall d | d in lineage :: Identified(d))
    && Identified(current) && current.schemaVersion == DECISION_SCHEMA && IsHex64(current.fingerprint) && current.status == "selected"
    && Latency(latency).Ok?
  }

  /** Every decision that gets an event has a readable reason. */
  predicate AllReadable(current: Decision, lineage: seq<Decision>) {
    forall d | d in Recorded(current, lineage) :: Readable(d)
  }

  lemma CurrentIsRecorded(current: Decision, lineage: seq<Decision>)
    requires RoutingLedgerSafety.IsLineage(lineage, current, |lineage|)
    ensures current in Recorded(current, lineage) && current in lineage
  {
    RecordedIsLineage(current, lineage, |lineage|);
    var ds := Recorded(current, lineage);
    assert ds[|ds| - 1] == current;
  }

  lemma SnapshotShown(current: Decision, lineage: seq<Decision>, latency: Reading)
    requires Acceptable(current, lineage, latency) && AllReadable(current, lineage)
    ensures EventsShown(Recorded(current, lineage)) != []
    ensures var sel := (current.selection.value.domainId, current.selection.value.source);
            Snapshot(current, lineage, latency) == Ok((
              RawSnapshot(current, Truncated(current, lineage), EventsShown(Recorded(current, lineage)), sel,
                          ShownIds(current), Strip(current.reasonCode), current.selectorId, Latency(latency).value), sel.0))
  {
    RecordedIsLineage(current, lineage, |lineage|);
    CurrentIsRecorded(current, lineage);
    EventsAreShown(Recorded(current, lineage));
    SelectionShown(current);
    CandidateIdsShown(current);
    ReasonIsShown(current);
    IdentityFix(current.selectorId);
  }

  function DecisionShown(d: Decision): DecisionEvidence
    requires d.selection.Some?
  {
    DecisionEvidence(d.decisionId, d.parent, d.status, Strip(d.reasonCode), d.selectorId, d.fingerprint,
                     d.selection.value.domainId, d.selection.value.source)
  }

  function LineageShown(current: Decision, lineage: seq<Decision>): Lineage {
    var events := EventsShown(Recorded(current, lineage));
    Lineage(events[0].decisionId, current.decisionId, |events|, Truncated(current, lineage), events)
  }

  lemma LineageIsShown(current: Decision, lineage: seq<Decision>, latency: Reading)
    requires Acceptable(current, lineage, latency) && AllReadable(current, lineage)
    ensures LineageOk(LineageShown(current, lineage), DecisionShown(current))
  {
    RecordedIsLineage(current, lineage, |lineage|);
    EventsAreShown(Recorded(current, lineage));
  }

  lemma DecisionIsShown(current: Decision)
    requires Identified(current) && Readable(current) && IsHex64(current.fingerprint) && current.status == "selected"
    ensures var d := DecisionShown(current);
            if current.parent == Some(current.decisionId) then DecisionOf(RawOfDecision(d)).Err?
            else DecisionOk(d) && DecisionOf(RawOfDecision(d)) == Ok(d.(reasonCode := ""))
    ensures ExpectedDomain(current.selection.value.domainId, current.selection.value.domainId).Ok?
  {
    var d := DecisionShown(current);
    IdentityFix(d.domainId);
    if current.parent == Some(current.decisionId) {
      OptionalFix(current.parent);
      IdentityFix(current.decisionId);
    } else {
      DecisionFix(d);
    }
  }

  lemma CandidatesAreShown(current: Decision)
    requires Identified(current) && current.selection.Some?
    ensures var list := CandidateList(Items(RawCandidates(ShownIds(current))), current.selection.value.domainId);
            if SelectedShown(current) then list == Ok(ShownIds(current)) else list.Err?
  {
    CandidateIdsShown(current);
    IdentitiesFix(ShownIds(current));
  }

  /** The parts of the snapshot that never fail. */
  lemma RestIsShown(current: Decision, lineage: seq<Decision>, latency: Reading)
    requires Acceptable(current, lineage, latency) && AllReadable(current, lineage)
    requires current.parent != Some(current.decisionId)
    ensures var d := DecisionShown(current);
            && LineageFrom(RawOfLineage(LineageShown(current, lineage)), d.(reasonCode := ""), JStr(d.reasonCode))
               == Ok((LineageShown(current, lineage), d.reasonCode))
            && BindingOf(RawOfBinding(Binding("selected", d.domainId, None)), d.domainId)
               == Ok(Binding("selected", d.domainId, None))
  {
    var d := DecisionShown(current);
    CurrentIsRecorded(current, lineage);
    LineageIsShown(current, lineage, latency);
    LineageFix(LineageShown(current, lineage), d);
    BindingFix(Binding("selected", d.domainId, None), d);
  }

  /** The snapshot lists the shown parts. */
  ghost predicate Lists(raw: RawEvidence, current: Decision, lineage: seq<Decision>, latency: Option<real>)
    requires current.selection.Some?
  {
    && raw.RawEvidence? && raw.schemaVersion == JStr(EVIDENCE_SCHEMA) && raw.available == JBool(true)
    && raw.decision == RawOfDecision(DecisionShown(current))
    && raw.candidates == Items(RawCandidates(ShownIds(current)))
    && raw.lineage == RawOfLineage(LineageShown(current, lineage))
    && raw.binding == RawOfBinding(Binding("selected", current.selection.value.domainId, None))
    && raw.observation == RawObservation(
         JStr(SelectorMode(current.selectorId)), JInt(|ShownIds(current)|), FallbackReason(Strip(current.reasonCode)),
         JBool(current.status != "selected"), RawOfLatency(latency))
  }

  lemma SnapshotParts(current: Decision, lineage: seq<Decision>, latency: Reading)
    requires Acceptable(current, lineage, latency) && AllReadable(current, lineage)
    ensures Snapshot(current, lineage, latency).Ok?
    ensures Snapshot(current, lineage, latency).value.1 == current.selection.value.domainId
    ensures Lists(Snapshot(current, lineage, latency).value.0, current, lineage, Latency(latency).value)
  {
    SnapshotShown(current, lineage, latency);
    RecordedIsLineage(current, lineage, |lineage|);
  }

  lemma UnshownIsRefused(current: Decision, lineage: seq<Decision>, latency: Reading)
    requires Acceptable(current, lineage, latency) && AllReadable(current, lineage)
    requires current.parent == Some(current.decisionId) || !SelectedShown(current)
    ensures Build(current, lineage, latency).Err?
  {
    SnapshotParts(current, lineage, latency);
    CurrentIsRecorded(current, lineage);
    DecisionIsShown(current);
    CandidatesAreShown(current);
    var (raw, domainId) := Snapshot(current, lineage, latency).value;
  }

  lemma UnreadableIsRefused(current: Decision, lineage: seq<Decision>, latency: Reading)
    requires !AllReadable(current, lineage)
    ensures Build(current, lineage, latency).Err?
  {
    if EventsFrom(Recorded(current, lineage)).Ok? {
      EventsNeedReasons(Recorded(current, lineage));
    }
  }

  lemma ShownIsAccepted(current: Decision, lineage: seq<Decision>, latency: Reading)
    requires Acceptable(current, lineage, latency) && AllReadable(current, lineage)
    requires current.parent != Some(current.decisionId) && SelectedShown(current)
    ensures Build(current, lineage, latency).Ok? <==> FallbackReadable(Strip(current.reasonCode))
    ensures Build(current, lineage, latency).Ok? ==> IsShown(Build(current, lineage, latency).value, current, lineage)
  {
    SnapshotParts(current, lineage, latency);
    CurrentIsRecorded(current, lineage);
    DecisionIsShown(current);
    CandidatesAreShown(current);
    RestIsShown(current, lineage, latency);
    if latency.Number? {
      MillisecondsSettle(latency.number);
    }
    ObservationAccepted(current, Latency(latency).value);
  }

  ghost predicate IsShown(e: Evidence, current: Decision, lineage: seq<Decision>)
    requires current.selection.Some?
  {
    && e.decision == DecisionShown(current) && e.candidates == ShownIds(current)
    && e.lineage == LineageShown(current, lineage) && e.binding.runId.None?
  }

  /**
   A lineage of well-formed decisions is accepted exactly when each of its last eight reasons is
   readable, the current decision is not its own parent, its Domain is among its first eight
   candidates and its fallback note is not blank.
   */
  lemma LineageIsAccepted(current: Decision, lineage: seq<Decision>, latency: Reading)
    requires Acceptable(current, lineage, latency)
    ensures Build(current, lineage, latency).Ok? <==>
            && AllReadable(current, lineage)
            && current.parent != Some(current.decisionId) && SelectedShown(current) && FallbackReadable(Strip(current.reasonCode))
    ensures Build(current, lineage, latency).Ok? ==> IsShown(Build(current, lineage, latency).value, current, lineage)
  {
    if !AllReadable(current, lineage) {
      UnreadableIsRefused(current, lineage, latency);
    } else if current.parent == Some(current.decisionId) || !SelectedShown(current) {
      UnshownIsRefused(current, lineage, latency);
    } else {
      ShownIsAccepted(current, lineage, latency);
    }
  }

  /** What the accepted lineage says: the last eight ids, truncated exactly when something is missing before them. */
  lemma LineageTells(current: Decision, lineage: seq<Decision>, latency: Reading)
    requires Acceptable(current, lineage, latency) && Build(current, lineage, latency).Ok?
    ensures var l := Build(current, lineage, latency).value.lineage;
            var n := if |lineage| <= MAX_LINEAGE then |lineage| else MAX_LINEAGE;
            && |l.events| == n
            && (forall i | 0 <= i < n :: l.events[i].decisionId == lineage[|lineage| - n + i].decisionId)
            && (l.truncated <==> |lineage| > MAX_LINEAGE || l.events[0].parent.Some?)
  {
    LineageIsAccepted(current, lineage, latency);
    RecordedIsLineage(current, lineage, |lineage|);
    var ds := Recorded(current, lineage);
    assert ds[0] in lineage;
  }

  /** The same for the lineage the ledger itself returns. */
  lemma LedgerLineageIsAccepted(
    d: RoutingLedger.Decisions, session: Option<string>, current: Decision, room: nat, latency: Reading)
    requires forall e | e in d :: e.value.decision.decisionId == e.key && Identified(e.value.decision)
    requires Identified(current) && current.schemaVersion == DECISION_SCHEMA && IsHex64(current.fingerprint)
    requires current.status == "selected" && Latency(latency).Ok? && room > 0
    ensures var lineage := RoutingLedger.LineageOf(d, session, current, room, {});
            Build(current, lineage, latency).Ok? <==>
            && AllReadable(current, lineage)
            && current.parent != Some(current.decisionId) && SelectedShown(current) && FallbackReadable(Strip(current.reasonCode))
  {
    var values := RoutingLedger.LineageOf(d, session, current, room, {});
    RoutingLedgerSafety.LineageIsChain(d, session, current, room, {});
    LineageMembers(d, session, current, room, {});
    LineageIsAccepted(current, values, latency);
  }

  lemma {:induction false} LineageMembers(
    d: RoutingLedger.Decisions, session: Option<string>, current: Decision, room: nat, seen: set<string>)
    requires (forall e | e in d :: Identified(e.value.decision)) && Identified(current)
    ensures forall v | v in RoutingLedger.LineageOf(d, session, current, room, seen) :: Identified(v)
    decreases room
  {
    if room > 0 && current.parent.Some? {
      var found := RoutingLedger.Lookup(d, current.parent.value, session);
      if found.Some? {
        LineageMembers(d, session, found.value, room - 1, seen + {current.decisionId});
      }
    }
  }

  /** Within 96 characters the note is never cut, so a readable reason has a readable note. */
  lemma ShortNoteIsReadable(reason: string)
    requires |reason| <= 96
    ensures FallbackReadable(Strip(reason))
  {
    var t := Strip(reason);
    StripStable(reason);
    var f := FallbackReason(t);
    if f.JStr? && f.text != "" {
      assert f.text[|f.text| - 1] == t[|t| - 1];
      VisibleTail(f.text);
    }
  }

  lemma {:induction false} VisibleTail(s: string)
    requires s != "" && !IsSpace(s[|s| - 1])
    ensures Strip(s) != ""
  {
    if IsSpace(s[0]) {
      VisibleTail(s[1..]);
    }
  }

  function BlankNote(): string {
    FALLBACK + seq(96, _ => ' ') + "x"
  }

  lemma BlankNoteFacts()
    ensures Strip(BlankNote()) == BlankNote() && IsEvidenceText(BlankNote()) && !FallbackReadable(BlankNote())
  {
    var reason := BlankNote();
    StripStable(reason);
    assert reason[..|FALLBACK|] == FALLBACK;
    assert Take(reason[|FALLBACK|..], 96) == seq(96, _ => ' ');
    assert seq(96, _ => ' ')[0] == ' ';
    AllBlankStrips(seq(96, _ => ' '));
  }

  /** The note of this readable but long reason is 96 blanks: its decision is refused. */
  lemma BlankNoteIsRefused(current: Decision, lineage: seq<Decision>, latency: Reading)
    requires Acceptable(current, lineage, latency) && current.reasonCode == BlankNote()
    ensures Readable(current) && Build(current, lineage, latency).Err?
  {
    BlankNoteFacts();
    LineageIsAccepted(current, lineage, latency);
  }

  lemma {:induction false} AllBlankStrips(s: string)
    requires forall i | 0 <= i < |s| :: s[i] == ' '
    ensures Strip(s) == ""
  {
    LStripKeepsStable(s);
    LStripSuffix(s);
  }

  /** There is such a decision; no reason within 96 characters makes one. */
  lemma BlankNoteExists()
    ensures exists current: Decision :: current.reasonCode == BlankNote() && Acceptable(current, [current], Absent)
                              && |current.candidates| <= MAX_CANDIDATES && SelectedShown(current)
  {
    var current := Decision(
      DECISION_SCHEMA, "d", None, "selected", BlankNote(), "s", seq(64, _ => '0'),
      [Candidate("x", "x", [], 0, [])], Some(Selection("x", "explicit")));
    assert ShownIds(current) == ["x"] by {
      var ids := ["x"];
      assert ids[..0] == [];
      assert FirstDistinct(ids) == ["x"];
    }
    assert Identified(current);
    assert RoutingLedgerSafety.IsLineage([current], current, 1);
    assert current.reasonCode == BlankNote() && Acceptable(current, [current], Absent);
  }
}
