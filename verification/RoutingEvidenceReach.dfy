/**
 Which runs the shipped selectors make unanswerable: a reason with a control character passes
 the model selector, the router and the ledger, but no run that shows it is evidenced.
 */
module RoutingEvidenceReach {
  import opened Wrappers
  import opened Text
  import opened OrderedDict
  import opened RoutingDecision
  import opened DomainSelector
  import opened ModelSelector
  import opened RoutingLedger
  import opened RoutingLedgerSafety
  import opened RoutingApplication
  import opened RoutingApplicationSafety
  import E = RoutingEvidence
  import B = RoutingEvidenceBuilder
  import Runs = RoutingApplicationRuns

  predicate ControlFree(s: string) {
    forall i | 0 <= i < |s| :: s[i] >= ' '
  }

  /** Within the cut, only control characters make a reason unreadable. */
  lemma ReadableMeans(d: Decision)
    requires |d.reasonCode| <= 96 && Strip(d.reasonCode) != ""
    ensures B.Readable(d) <==> ControlFree(Strip(d.reasonCode))
  {
    StripStable(d.reasonCode);
  }

  // ---------------------------------------------------------------- the shipped selectors

  /** As every shipped selector answers: tame, and with a visible reason unless that is empty. */
  predicate Shippable(d: Decision) {
    Tame(d) && (d.reasonCode == "" || !IsSpace(d.reasonCode[0]))
  }

  lemma PlainIsVisible(d: Decision)
    requires Plain(d)
    ensures Tame(d) && Strip(d.reasonCode) != ""
  {
  }

  lemma ModelIdIsEvidence()
    ensures E.IsEvidenceId(MODEL_ID)
  {
  }

  /** Whatever the model replies, its selector keeps its word. */
  lemma ModelSupplies(r: Router, l: Ledger, reply: Reply, id: string, fingerprint: string)
    requires RouterOk(r) && Fresh(l, id) && IsHex64(fingerprint)
    ensures var answer := FromReply(r.domains, reply, id, fingerprint);
            SupplyOk(r, l, Supply(id, fingerprint, answer)) && (answer.Ok? ==> Shippable(answer.value))
  {
    IdIsShort(id);
    ModelIdIsEvidence();
    var answer := FromReply(r.domains, reply, id, fingerprint);
    if answer.Ok? {
      ReplyIsCoherent(r, reply, id, fingerprint);
      BlankReason(reply, answer.value.status);
    }
  }

  /** The selector production runs: the model's answer, or the catalog's when that fails. */
  function Shipped(r: Router, request: string, margin: int, reply: Reply, code: string, id: string, fingerprint: string): Result<Decision, Code> {
    Fallback(FromReply(r.domains, reply, id, fingerprint), code, Select(request, r.domains, margin, id, fingerprint))
  }

  lemma ShippedSupplies(
    r: Router, l: Ledger, request: string, margin: int, reply: Reply, code: string, id: string, fingerprint: string)
    requires RouterOk(r) && Fresh(l, id) && IsHex64(fingerprint) && |code| <= 64
    ensures var answer := Shipped(r, request, margin, reply, code, id, fingerprint);
            SupplyOk(r, l, Supply(id, fingerprint, answer)) && (answer.Ok? ==> Shippable(answer.value))
  {
    var primary := FromReply(r.domains, reply, id, fingerprint);
    if primary.Ok? {
      ModelSupplies(r, l, reply, id, fingerprint);
    } else {
      FallbackSupplies(r, l, request, margin, id, fingerprint, primary.error, code);
      CatalogSupplies(r, l, request, margin, id, fingerprint);
    }
  }

  lemma RoutedIsVisible(r: Router, l: Ledger, q: Request, session: Option<string>, s: Supply)
    requires RouterOk(r) && BindingsOk(r, l) && SupplyOk(r, l, s) && Routed(r, l, q, session, s).Ok?
    requires s.selected.Ok? ==> Shippable(s.selected.value)
    ensures Tame(Routed(r, l, q, session, s).value) && Strip(Routed(r, l, q, session, s).value.reasonCode) != ""
  {
    var d := Routed(r, l, q, session, s).value;
    var bound := BoundDomain(l, session);
    if bound.Some? {
      RestoredIsRoutable(r, l, q.text, bound.value, s);
      PlainIsVisible(d);
    } else if q.domainId.Some? && Lower(Strip(q.domainId.value)) != "auto" {
      ExplicitIsRoutable(r, l, q.domainId.value, s);
      PlainIsVisible(d);
    } else {
      AnswerIsRoutable(r, l, q, s);
      VisibleStrips(d.reasonCode);
    }
  }

  /**
   In production, a run that routes its request is evidenced exactly when its reason has no
   control character between its edges.
   */
  lemma ShippedRunIsEvidenced(
    r: Router, l: Ledger, q: Request, session: Option<string>, s: Supply, latency: E.Reading,
    margin: int, reply: Reply, code: string)
    requires RouterOk(r) && AppOk(r, l) && Fresh(l, s.id) && IsHex64(s.fingerprint) && |code| <= 64 && E.Latency(latency).Ok?
    requires s.selected == Shipped(r, q.text, margin, reply, code, s.id, s.fingerprint)
    requires Routed(r, l, q, session, s).Ok? && Routed(r, l, q, session, s).value.status == "selected"
    ensures var d := Routed(r, l, q, session, s).value;
            Evidenced(WithDecision(l, d, session), session, d, latency) <==> ControlFree(Strip(d.reasonCode))
  {
    ShippedSupplies(r, l, q.text, margin, reply, code, s.id, s.fingerprint);
    RoutedIsVisible(r, l, q, session, s);
    RoutedRunIsEvidenced(r, l, q, session, s, latency);
    ReadableMeans(Routed(r, l, q, session, s).value);
  }

  // ---------------------------------------------------------------- deployments without a model

  ghost predicate HoldsPlain(l: Ledger) {
    forall e | e in l.decisions :: Plain(e.value.decision)
  }

  predicate PlainCall(c: Runs.Call) {
    match c
    case Ready(SaveOp(d, _)) => Plain(d)
    case Ready(CommitOp(c)) => Plain(c.decision)
    case _ => true
  }

  ghost predicate PlainApp(a: Runs.App) {
    HoldsPlain(a.ledger) && forall k | k in a.calls :: PlainCall(a.calls[k])
  }

  /** The selector's answers are plain, as the catalog's and a control-free fallback's are. */
  predicate PlainStep(step: Runs.Step) {
    match step
    case SelectStep(_, _, s) => s.selected.Ok? ==> Plain(s.selected.value)
    case BeginStep(_, _, _, s, _) => s.selected.Ok? ==> Plain(s.selected.value)
    case _ => true
  }

  lemma RoutedIsPlain(r: Router, l: Ledger, q: Request, session: Option<string>, s: Supply)
    requires RouterOk(r) && BindingsOk(r, l) && SupplyOk(r, l, s) && Routed(r, l, q, session, s).Ok?
    requires s.selected.Ok? ==> Plain(s.selected.value)
    ensures Plain(Routed(r, l, q, session, s).value)
  {
    var bound := BoundDomain(l, session);
    if bound.Some? {
      RestoredIsRoutable(r, l, q.text, bound.value, s);
    } else if q.domainId.Some? && Lower(Strip(q.domainId.value)) != "auto" {
      ExplicitIsRoutable(r, l, q.domainId.value, s);
    } else {
      AnswerIsRoutable(r, l, q, s);
    }
  }

  lemma ReadBackIsPlain(d: Decision, stored: Decision)
    requires ReadBackOf(d, stored) && Plain(stored)
    ensures Plain(d)
  {
    StripStable(stored.reasonCode);
    StripStable(Strip(stored.reasonCode));
  }

  lemma {:induction false} LineageIsPlain(l: Ledger, session: Option<string>, current: Decision, room: nat, seen: set<string>)
    requires HoldsPlain(l) && Plain(current)
    ensures forall d | d in LineageOf(l.decisions, session, current, room, seen) :: Plain(d)
    decreases room
  {
    if room > 0 && current.parent.Some? && Lookup(l.decisions, current.parent.value, session).Some? {
      var e := LookupIsFiled(l, current.parent.value, session);
      LineageIsPlain(l, session, e.value.decision, room - 1, seen + {current.decisionId});
    }
  }

  /** In a ledger of plain decisions every selected run on a plain decision is evidenced. */
  lemma PlainRunIsEvidenced(
    r: Router, l: Ledger, q: Request, session: Option<string>, named: string, s: Supply, latency: E.Reading)
    requires RouterOk(r) && AppOk(r, l) && SupplyOk(r, l, s) && E.Latency(latency).Ok? && HoldsPlain(l)
    requires s.selected.Ok? ==> Plain(s.selected.value)
    requires var d := Chosen(r, l, q, session, named, s).1; d.Ok? && d.value.status == "selected"
    ensures var (l', d) := Chosen(r, l, q, session, named, s); HoldsPlain(l') && Evidenced(l', session, d.value, latency)
  {
    var (l', d) := Chosen(r, l, q, session, named, s);
    ChosenIsPlain(r, l, q, session, named, s);
    SelectedRunIsEvidenced(r, l, q, session, named, s, latency);
    LineageIsPlain(l', session, d.value, LINEAGE_LIMIT, {});
    ShownInLineage(l', session, d.value);
  }

  lemma ShownInLineage(l: Ledger, session: Option<string>, d: Decision)
    ensures forall e | e in Shown(l, session, d) :: e == d || e in LineageOf(l.decisions, session, d, LINEAGE_LIMIT, {})
  {
  }

  lemma SavedIsPlain(l: Ledger, d: Decision, session: Option<string>)
    requires HoldsPlain(l) && Plain(d)
    ensures HoldsPlain(WithDecision(l, d, session))
  {
    RememberedMembers(l, d, session);
  }

  lemma ChosenIsPlain(r: Router, l: Ledger, q: Request, session: Option<string>, named: string, s: Supply)
    requires RouterOk(r) && AppOk(r, l) && SupplyOk(r, l, s) && HoldsPlain(l)
    requires s.selected.Ok? ==> Plain(s.selected.value)
    ensures HoldsPlain(Chosen(r, l, q, session, named, s).0)
    ensures Chosen(r, l, q, session, named, s).1.Ok? ==> Plain(Chosen(r, l, q, session, named, s).1.value)
  {
    if Strip(named) == "" {
      if Routed(r, l, q, session, s).Ok? {
        RoutedIsPlain(r, l, q, session, s);
        SavedIsPlain(l, Routed(r, l, q, session, s).value, session);
      }
    } else if Chosen(r, l, q, session, named, s).1.Ok? {
      var e := LookupIsFiled(l, Strip(named), session);
      ResolveReadsBack(r, e.value.decision);
      ReadBackIsPlain(Chosen(r, l, q, session, named, s).1.value, e.value.decision);
    }
  }

  lemma SelectKeepsPlain(r: Router, a: Runs.App, call: nat, q: Request, s: Supply)
    requires RouterOk(r) && BindingsOk(r, a.ledger) && SupplyOk(r, a.ledger, s) && PlainApp(a)
    requires s.selected.Ok? ==> Plain(s.selected.value)
    ensures PlainApp(Runs.Select(r, a, call, q, s))
  {
    var session := SessionOf(q.session, None);
    if session.Ok? && Routed(r, a.ledger, q, session.value, s).Ok? {
      RoutedIsPlain(r, a.ledger, q, session.value, s);
    }
  }

  lemma AuthorizedIsPlain(
    r: Router, l: Ledger, subject: string, session: Option<string>, prior: Decision, c: Checked, id: string)
    requires RouterOk(r) && Routable(r, prior) && E.IsEvidenceId(id) && |id| <= 96
    ensures var command := Authorized(r, l, subject, session, prior, c, id);
            command.Ok? ==> Plain(command.value.decision)
  {
    if Override(r, prior, c.domainId, id).Ok? {
      OverrideIsRoutable(r, prior, c.domainId, id);
    }
  }

  lemma WeighKeepsPlain(r: Router, a: Runs.App, call: nat, gate: Option<Checked>, id: string)
    requires RouterOk(r) && Runs.CallsOk(r, a) && PlainApp(a) && E.IsEvidenceId(id) && |id| <= 96
    requires call in a.calls && a.calls[call].Asked?
    ensures PlainApp(Runs.Weigh(r, a, call, gate, id))
  {
    var c := a.calls[call];
    assert Runs.CallOk(r, a.ledger, c);
    if gate.Some? {
      AuthorizedIsPlain(r, a.ledger, c.subject, c.session, c.prior, gate.value, id);
    }
  }

  lemma WriteKeepsPlain(r: Router, a: Runs.App, call: nat)
    requires Runs.CallsOk(r, a) && PlainApp(a) && call in a.calls && a.calls[call].Ready?
    ensures PlainApp(Runs.Write(r, a, call))
  {
    assert Runs.CallOk(r, a.ledger, a.calls[call]) && PlainCall(a.calls[call]);
    match a.calls[call].op
    case SaveOp(d, session) => SavedIsPlain(a.ledger, d, session);
    case CommitOp(c) =>
      SavedIsPlain(a.ledger, c.decision, c.session);
      CommitFiles(r.registry, a.ledger, c);
  }

  lemma PrepareChooses(r: Router, l: Ledger, q: Request, named: string, s: Supply, latency: E.Reading)
    ensures var session, l' := SessionOf(q.session, Some("default")), Prepare(r, l, q, named, s, latency).0;
            l' == if session.Ok? then Chosen(r, l, q, session.value, named, s).0 else l
  {
  }

  lemma BeginKeepsCallsAndLedger(r: Router, a: Runs.App, run: nat, q: Request, named: string, s: Supply, latency: E.Reading)
    ensures var b := Runs.Begin(r, a, run, q, named, s, latency);
            b.calls == a.calls && b.ledger == Prepare(r, a.ledger, q, named, s, latency).0
  {
  }

  lemma BeginKeepsPlain(r: Router, a: Runs.App, run: nat, q: Request, named: string, s: Supply, latency: E.Reading)
    requires RouterOk(r) && AppOk(r, a.ledger) && SupplyOk(r, a.ledger, s) && PlainApp(a)
    requires s.selected.Ok? ==> Plain(s.selected.value)
    ensures PlainApp(Runs.Begin(r, a, run, q, named, s, latency))
  {
    var session := SessionOf(q.session, Some("default"));
    if session.Ok? {
      ChosenIsPlain(r, a.ledger, q, session.value, named, s);
    }
    PrepareChooses(r, a.ledger, q, named, s, latency);
    BeginKeepsCallsAndLedger(r, a, run, q, named, s, latency);
  }

  lemma ForgetKeepsPlain(l: Ledger, session: string, keep: bool)
    requires LedgerOk(l) && HoldsPlain(l)
    ensures HoldsPlain(Forgotten(l, session, keep))
  {
    ForgetIsExact(l, session, keep);
  }

  lemma CallStepKeepsPlain(r: Router, a: Runs.App, step: Runs.Step)
    requires RouterOk(r) && Runs.RunningOk(r, a) && Runs.Proper(r, a, step) && Runs.IsCallStep(step)
    requires PlainApp(a) && PlainStep(step)
    ensures PlainApp(Runs.Next(r, a, step))
  {
    if step.SelectStep? {
      SelectKeepsPlain(r, a, step.call, step.q, step.s);
    } else if step.CheckStep? {
      if step.call in a.calls && a.calls[step.call].Asked? {
        WeighKeepsPlain(r, a, step.call, step.gate, step.id);
      }
    } else if step.WriteStep? {
      if step.call in a.calls && a.calls[step.call].Ready? {
        WriteKeepsPlain(r, a, step.call);
      }
    }
  }

  lemma NextKeepsPlain(r: Router, a: Runs.App, step: Runs.Step)
    requires RouterOk(r) && Runs.RunningOk(r, a) && Runs.Proper(r, a, step) && PlainApp(a) && PlainStep(step)
    ensures PlainApp(Runs.Next(r, a, step))
  {
    if Runs.IsCallStep(step) {
      CallStepKeepsPlain(r, a, step);
    } else if step.BeginStep? {
      BeginKeepsPlain(r, a, step.run, step.q, step.named, step.s, step.latency);
    } else if step.ForgetStep? {
      ForgetKeepsPlain(a.ledger, Strip(step.session), step.keepBinding);
    } else if step.ClearStep? {
      ForgetKeepsPlain(a.ledger, Strip(step.session), false);
    }
  }

  /**
   As long as the selector's answers are plain, every run on a selected decision is evidenced,
   whatever was selected, overridden, run and forgotten before: a deployment on the catalog
   never loses a run to its evidence.
   */
  lemma {:induction false} PlainDeploymentIsEvidenced(
    r: Router, a: Runs.App, steps: seq<Runs.Step>, q: Request, session: Option<string>, named: string, s: Supply, latency: E.Reading)
    requires RouterOk(r) && Runs.RunningOk(r, a) && Runs.AllProper(r, a, steps) && PlainApp(a)
    requires (forall step | step in steps :: PlainStep(step)) && (s.selected.Ok? ==> Plain(s.selected.value))
    requires SupplyOk(r, Runs.Run(r, a, steps).ledger, s) && E.Latency(latency).Ok?
    requires var d := Chosen(r, Runs.Run(r, a, steps).ledger, q, session, named, s).1; d.Ok? && d.value.status == "selected"
    ensures var (l', d) := Chosen(r, Runs.Run(r, a, steps).ledger, q, session, named, s);
            Evidenced(l', session, d.value, latency)
    decreases |steps|
  {
    if steps == [] {
      PlainRunIsEvidenced(r, a.ledger, q, session, named, s, latency);
    } else {
      assert steps[0] in steps;
      Runs.NextKeepsRunning(r, a, steps[0]);
      NextKeepsPlain(r, a, steps[0]);
      PlainDeploymentIsEvidenced(r, Runs.Next(r, a, steps[0]), steps[1..], q, session, named, s, latency);
    }
  }

  // ---------------------------------------------------------------- unreadable ancestors

  /** A decision whose parent is retained and unreadable is not evidenced, however readable itself. */
  lemma ChildOfUnreadable(l: Ledger, session: Option<string>, child: Decision, parent: Decision, latency: E.Reading)
    requires child.decisionId != "" && child.parent == Some(parent.decisionId)
    requires parent.decisionId != "" && parent.decisionId != child.decisionId
    requires Lookup(l.decisions, parent.decisionId, session) == Some(parent) && !B.Readable(parent)
    requires forall e | e in l.decisions :: e.value.decision.decisionId == e.key
    ensures !Evidenced(l, session, child, latency)
  {
    var lineage := LineageOf(l.decisions, session, child, LINEAGE_LIMIT, {});
    var above := LineageOf(l.decisions, session, parent, LINEAGE_LIMIT - 1, {child.decisionId});
    assert {} + {child.decisionId} == {child.decisionId};
    assert lineage == above + [child];
    LineageIsChain(l.decisions, session, parent, LINEAGE_LIMIT - 1, {child.decisionId});
    LineageIsChain(l.decisions, session, child, LINEAGE_LIMIT, {});
    assert lineage[|above| - 1] == parent && parent in lineage;
    assert B.Recorded(child, lineage) == lineage;
    B.UnreadableIsRefused(child, lineage, latency);
  }

  lemma SettledCreated(r: Router, l: Ledger, c: Command)
    requires Settled(r, l, c).1.Ok? && Settled(r, l, c).1.value.created
    ensures Settled(r, l, c).0.decisions == WithDecision(l, c.decision, c.session).decisions
    ensures Resolve(r.registry, c.decision) == Ok(Settled(r, l, c).1.value.decision)
  {
  }

  /** What an override that creates its child answers with. */
  lemma CreatedChild(r: Router, l: Ledger, c: Command)
    requires RouterOk(r) && Coherent(r, c.decision) && Settled(r, l, c).1.Ok? && Settled(r, l, c).1.value.created
    ensures var child := Settled(r, l, c).1.value.decision;
            child.decisionId == c.decision.decisionId && child.parent == c.decision.parent
    ensures Settled(r, l, c).0.decisions == WithDecision(l, c.decision, c.session).decisions
  {
    SettledCreated(r, l, c);
    ResolveReadsBack(r, c.decision);
  }

  /** The subject of an override is still answered afterwards, unless its child has pushed it out. */
  lemma SubjectStays(l: Ledger, d: Decision, session: Option<string>, subject: string)
    requires LedgerOk(l) && d.decisionId != subject && Get(WithDecision(l, d, session).decisions, subject).Some?
    ensures Lookup(WithDecision(l, d, session).decisions, subject, session) == Lookup(l.decisions, subject, session)
  {
    PutOther(l.decisions, l.max, d.decisionId, Record(d, session), subject);
  }

  lemma SettledOfUnreadable(r: Router, l: Ledger, c: Command, prior: Decision, latency: E.Reading)
    requires RouterOk(r) && LedgerOk(l) && Coherent(r, c.decision) && c.decision.parent == Some(prior.decisionId)
    requires c.decision.decisionId != prior.decisionId && prior.decisionId != "" && c.decision.decisionId != ""
    requires Lookup(l.decisions, prior.decisionId, c.session) == Some(prior) && !B.Readable(prior)
    requires var (l', out) := Settled(r, l, c); out.Ok? && out.value.created && Get(l'.decisions, prior.decisionId).Some?
    ensures !Evidenced(Settled(r, l, c).0, c.session, Settled(r, l, c).1.value.decision, latency)
  {
    CreatedChild(r, l, c);
    SubjectStays(l, c.decision, c.session, prior.decisionId);
    WithDecisionOk(l, c.decision, c.session);
    ChildOfUnreadable(Settled(r, l, c).0, c.session, Settled(r, l, c).1.value.decision, prior, latency);
  }

  /** What an override of `prior` is about to commit. */
  lemma AuthorizedChild(
    r: Router, l: Ledger, subject: string, session: Option<string>, prior: Decision, c: Checked, id: string)
    requires RouterOk(r) && Routable(r, prior) && E.IsEvidenceId(id) && |id| <= 96
    requires Authorized(r, l, subject, session, prior, c, id).Ok?
    ensures var command := Authorized(r, l, subject, session, prior, c, id).value;
            && Coherent(r, command.decision) && command.decision.parent == Some(prior.decisionId)
            && command.decision.decisionId == id && command.session == session
  {
    OverrideIsRoutable(r, prior, c.domainId, id);
  }

  lemma SoughtIsFiled(r: Router, l: Ledger, subject: string, field: SessionField)
    requires AppOk(r, l) && Sought(r, l, subject, field).Ok?
    ensures var (session, prior) := Sought(r, l, subject, field).value;
            && Lookup(l.decisions, subject, session) == Some(prior) && prior.decisionId == subject && subject != ""
            && Routable(r, prior) && exists e | e in l.decisions :: e.key == subject
  {
    var e := LookupIsFiled(l, subject, SessionOf(field, None).value);
    assert Routable(r, e.value.decision);
  }

  /**
   Overriding an unreadable decision does not help: as long as the ledger retains it, the
   child the user chose is not evidenced either.
   */
  lemma OverrideOfUnreadable(
    r: Router, l: Ledger, subject: string, field: SessionField, gate: Option<Checked>, id: string, latency: E.Reading)
    requires RouterOk(r) && AppOk(r, l) && Fresh(l, id)
    requires Sought(r, l, subject, field).Ok? && !B.Readable(Sought(r, l, subject, field).value.1)
    requires var (l', out) := Overridden(r, l, subject, field, gate, id);
             out.Ok? && out.value.created && Get(l'.decisions, subject).Some?
    ensures var (l', out) := Overridden(r, l, subject, field, gate, id);
            !Evidenced(l', Sought(r, l, subject, field).value.0, out.value.decision, latency)
  {
    var (session, prior) := Sought(r, l, subject, field).value;
    SoughtIsFiled(r, l, subject, field);
    AuthorizedChild(r, l, subject, session, prior, gate.value, id);
    SettledOfUnreadable(r, l, Authorized(r, l, subject, session, prior, gate.value, id).value, prior, latency);
  }

  // ---------------------------------------------------------------- runs that stop

  /** A run that is not evidenced never executes: its decision is saved and nothing is running. */
  lemma UnevidencedStops(
    r: Router, a: Runs.App, run: nat, q: Request, session: Option<string>, named: string, s: Supply, latency: E.Reading,
    l: Ledger, d: Decision)
    requires SessionOf(q.session, Some("default")) == Ok(session)
    requires Chosen(r, a.ledger, q, session, named, s) == (l, Ok(d)) && d.status == "selected"
    requires !Evidenced(l, session, d, latency)
    ensures Runs.Begin(r, a, run, q, named, s, latency) == a.(ledger := l)
    ensures Prepare(r, a.ledger, q, named, s, latency).1.Err? && Prepare(r, a.ledger, q, named, s, latency).1.error.EvidenceRefused?
  {
  }

  // There is such a reply, for one Domain and for two.

  function Named(domainId: string): RawCandidate {
    RawCandidate(domainId, [], Ok(0), [])
  }

  function BrokenReason(): string {
    "?\n?"
  }

  function SureReply(): Reply {
    Reply("selected", BrokenReason(), Ok([]), Named("g"))
  }

  function UnsureReply(): Reply {
    Reply("ambiguous", BrokenReason(), Ok([Named("g"), Named("t")]), NoCandidate)
  }

  lemma BrokenReasonFacts()
    ensures Bounded(BrokenReason(), 96) == BrokenReason() && Strip(BrokenReason()) == BrokenReason()
    ensures !ControlFree(BrokenReason())
  {
    StripStable(BrokenReason());
    assert BrokenReason()[1] == '\n';
  }

  lemma StatusIsItself(status: string)
    requires status in {"selected", "ambiguous"}
    ensures Lower(Bounded(status, 32)) == status
  {
    LowerFix(status);
    BoundedFixpoint(status, 32);
  }

  lemma KnownLetter(domainId: string)
    requires domainId in {"g", "t"}
    ensures Known(Runs.TwoDomains().domains, Named(domainId)).Ok?
    ensures Known(Runs.TwoDomains().domains, Named(domainId)).value.domainId == domainId
  {
    var ds := Runs.TwoDomains().domains;
    Runs.LetterIsPlain(domainId);
    SafeIdentityFix(domainId);
    assert ds[0].id == "g" && ds[1..][0].id == "t";
    assert FindDomain(ds, domainId).Some?;
  }

  lemma SureReplyReads(id: string, fingerprint: string)
    ensures var answer := FromReply(Runs.TwoDomains().domains, SureReply(), id, fingerprint);
            answer.Ok? && answer.value.status == "selected" && answer.value.reasonCode == BrokenReason()
  {
    StatusIsItself("selected");
    BrokenReasonFacts();
    KnownLetter("g");
    var ds, raws := Runs.TwoDomains().domains, [Named("g")];
    assert raws[..0] == [] && AllKnown(ds, raws[..0]) == Ok([]);
    assert AllKnown(ds, raws).Ok? && |AllKnown(ds, raws).value| == 1;
  }

  function Auto(session: string): Request {
    Request("?", None, Given(session))
  }

  /** What the model supplies for a request, given its reply. */
  function FromModel(reply: Reply, id: string): Supply {
    var s := Runs.FreshSupply(id);
    s.(selected := FromReply(Runs.TwoDomains().domains, reply, s.id, s.fingerprint))
  }

  lemma UnsureReplyReads(id: string, fingerprint: string)
    ensures var answer := FromReply(Runs.TwoDomains().domains, UnsureReply(), id, fingerprint);
            answer.Ok? && answer.value.status == "ambiguous" && answer.value.reasonCode == BrokenReason()
  {
    StatusIsItself("ambiguous");
    BrokenReasonFacts();
    KnownLetter("g");
    KnownLetter("t");
    var ds, raws := Runs.TwoDomains().domains, [Named("g"), Named("t")];
    assert raws[..1] == [Named("g")] && raws[..1][..0] == [] && AllKnown(ds, []) == Ok([]);
    assert AllKnown(ds, raws[..1]).Ok? && |AllKnown(ds, raws[..1]).value| == 1;
    assert AllKnown(ds, raws).Ok? && |AllKnown(ds, raws).value| == 2;
  }

  lemma AutoIsVisible()
    ensures Strip("?") == "?" && SessionOf(Auto("s").session, Some("default")) == Ok(Some("s"))
    ensures SessionOf(Given("s"), None) == Ok(Some("s")) && Strip("") == ""
  {
    Runs.AskIsVisible();
    Runs.LetterIsPlain("s");
  }

  /** The router accepts what a reply makes, control characters and all. */
  lemma ReplyRoutes(r: Router, l: Ledger, q: Request, session: Option<string>, s: Supply, reply: Reply, d: Decision)
    requires RouterOk(r) && ShortText(s.id, 96) && IsHex64(s.fingerprint) && reply.Reply?
    requires s.selected == FromReply(r.domains, reply, s.id, s.fingerprint) == Ok(d) && Strip(reply.reasonCode) != ""
    requires Strip(q.text) != "" && q.domainId.None? && BoundDomain(l, session).None?
    ensures Routed(r, l, q, session, s) == Ok(d) && Resolve(r.registry, d).Ok?
  {
    ReplyIsCoherent(r, reply, s.id, s.fingerprint);
    ModelDecisionValid(r, reply, s.id, s.fingerprint);
  }

  lemma FromModelSupplies(max: nat, reply: Reply)
    ensures RouterOk(Runs.TwoDomains()) && SupplyOk(Runs.TwoDomains(), Runs.Start(max).ledger, FromModel(reply, "a"))
  {
    Runs.TwoDomainsAreOk();
    Runs.SupplyIsOk(max, "a");
    ModelSupplies(Runs.TwoDomains(), Runs.Start(max).ledger, reply, "a", Runs.FreshSupply("a").fingerprint);
  }

  lemma ModelRoutes(max: nat, reply: Reply, d: Decision)
    requires reply.Reply? && reply.reasonCode == BrokenReason()
    requires FromModel(reply, "a").selected == Ok(d)
    ensures Routed(Runs.TwoDomains(), Runs.Start(max).ledger, Auto("s"), Some("s"), FromModel(reply, "a")) == Ok(d)
    ensures Resolve(Runs.TwoDomains().registry, d).Ok?
  {
    FromModelSupplies(max, reply);
    IdIsShort("a");
    BrokenReasonFacts();
    AutoIsVisible();
    ReplyRoutes(Runs.TwoDomains(), Runs.Start(max).ledger, Auto("s"), Some("s"), FromModel(reply, "a"), reply, d);
  }

  /**
   In a deployment of two Domains the model selects one for a reason with a line break in it:
   the decision is routed and saved, but its run is refused and nothing executes.
   */
  lemma UnreadableRunExists(max: nat)
    ensures var r, a, s := Runs.TwoDomains(), Runs.Start(max), FromModel(SureReply(), "a");
            && RouterOk(r) && SupplyOk(r, a.ledger, s) && Routed(r, a.ledger, Auto("s"), Some("s"), s).Ok?
            && var d := Routed(r, a.ledger, Auto("s"), Some("s"), s).value;
               Runs.Begin(r, a, 0, Auto("s"), "", s, E.Absent) == a.(ledger := WithDecision(a.ledger, d, Some("s")))
  {
    var r, a, s := Runs.TwoDomains(), Runs.Start(max), FromModel(SureReply(), "a");
    SureReplyReads(s.id, s.fingerprint);
    var d := s.selected.value;
    ModelRoutes(max, SureReply(), d);
    FromModelSupplies(max, SureReply());
    Runs.StartIsOk(r, max, "s");
    BrokenReasonFacts();
    ReadableMeans(d);
    ModelSupplies(r, a.ledger, SureReply(), s.id, s.fingerprint);
    RoutedRunIsEvidenced(r, a.ledger, Auto("s"), Some("s"), s, E.Absent);
    AutoIsVisible();
    UnevidencedStops(r, a, 0, Auto("s"), Some("s"), "", s, E.Absent, WithDecision(a.ledger, d, Some("s")), d);
  }

  /** A ledger that holds one decision only. */
  function Holding(d: Decision, session: Option<string>, max: nat): Ledger {
    Ledger([Entry(d.decisionId, Record(d, session))], [], map[], max)
  }

  lemma FirstCommit(reg: Registry, d: Decision, session: Option<string>, max: nat, c: Command)
    requires max >= 2 && c.decision.decisionId != d.decisionId && d.parent.None? && c.session == session
    ensures var (l', out) := Commit(reg, Holding(d, session, max), c);
            && out.Ok? && out.value.created && out.value.decision == c.decision
            && Get(l'.decisions, d.decisionId).Some?
  {
    var l := Holding(d, session, max);
    assert l.decisions[..0] == [];
    assert ChildIn(l.decisions, c.subjectId, session).None?;
    assert Remove(l.decisions, c.decision.decisionId) == l.decisions;
    var put := Put(l.decisions, c.decision.decisionId, Record(c.decision, session));
    assert put == l.decisions + [Entry(c.decision.decisionId, Record(c.decision, session))] && put[..1] == l.decisions;
    assert Get(put, d.decisionId).Some?;
  }

  lemma FirstSettled(r: Router, d: Decision, session: Option<string>, max: nat, c: Command)
    requires RouterOk(r) && Coherent(r, c.decision) && Strip(c.decision.reasonCode) != ""
    requires max >= 2 && c.decision.decisionId != d.decisionId && d.parent.None? && c.session == session
    ensures var (l', out) := Settled(r, Holding(d, session, max), c);
            && out.Ok? && out.value.created && Get(l'.decisions, d.decisionId).Some?
            && out.value.decision.parent == c.decision.parent
  {
    FirstCommit(r.registry, d, session, max, c);
    DecisionValid(r, c.decision);
  }

  lemma OverrideSucceeds(r: Router, prior: Decision, domainId: string, id: string)
    requires Resolve(r.registry, prior).Ok? && Enabled(r, domainId, "explicit").Ok?
    ensures Override(r, prior, domainId, id).Ok?
  {
  }

  /** The user's first choice among what an unbound session was offered. */
  lemma FirstAuthorized(r: Router, d: Decision, session: Option<string>, max: nat, c: Checked, id: string)
    requires RouterOk(r) && Routable(r, d) && Resolve(r.registry, d).Ok?
    requires Enabled(r, c.domainId, "explicit").Ok? && E.IsEvidenceId(id) && |id| <= 96
    ensures var command := Authorized(r, Holding(d, session, max), d.decisionId, session, d, c, id);
            && command.Ok? && Coherent(r, command.value.decision) && Strip(command.value.decision.reasonCode) != ""
            && command.value.decision.decisionId == id && command.value.decision.parent == Some(d.decisionId)
            && command.value.session == session
  {
    OverrideSucceeds(r, d, c.domainId, id);
    OverrideIsRoutable(r, d, c.domainId, id);
    PlainIsVisible(Override(r, d, c.domainId, id).value);
  }

  /** It does not help where the offer was unreadable. */
  lemma FirstOverride(
    r: Router, d: Decision, session: Option<string>, field: SessionField, max: nat, c: Checked, id: string, latency: E.Reading)
    requires RouterOk(r) && AppOk(r, Holding(d, session, max)) && Routable(r, d) && d.parent.None?
    requires Resolve(r.registry, d).Ok? && !B.Readable(d) && max >= 2 && SessionOf(field, None) == Ok(session)
    requires Enabled(r, c.domainId, "explicit").Ok? && E.IsEvidenceId(id) && |id| <= 96 && id != d.decisionId
    ensures var (l', out) := Overridden(r, Holding(d, session, max), d.decisionId, field, Some(c), id);
            && out.Ok? && out.value.created && out.value.decision.parent == Some(d.decisionId)
            && !Evidenced(l', session, out.value.decision, latency)
  {
    var l := Holding(d, session, max);
    FirstAuthorized(r, d, session, max, c, id);
    FirstSettled(r, d, session, max, Authorized(r, l, d.decisionId, session, d, c, id).value);
    HoldingAnswers(d, session, max);
    SettledOfUnreadable(r, l, Authorized(r, l, d.decisionId, session, d, c, id).value, d, latency);
  }

  lemma HoldingAnswers(d: Decision, session: Option<string>, max: nat)
    ensures Lookup(Holding(d, session, max).decisions, d.decisionId, session) == Some(d)
  {
  }

  function UserCheck(): Checked {
    Checked("select_domain", "g", "k", "f")
  }

  lemma ListedIsEnabled()
    ensures Enabled(Runs.TwoDomains(), "g", "explicit").Ok?
  {
    Runs.ListedIsExplicit("g", Runs.FreshSupply("a"));
  }

  /**
   In the same deployment the model cannot decide, for a reason with a line break in it: the
   user is asked and chooses, and the child that records the choice is not evidenced either.
   */
  lemma UnreadableOverrideExists(max: nat)
    requires max >= 2
    ensures var r, l, s := Runs.TwoDomains(), Runs.Start(max).ledger, FromModel(UnsureReply(), "a");
            && RouterOk(r) && SupplyOk(r, l, s) && Routed(r, l, Auto("s"), Some("s"), s).Ok?
            && var d := Routed(r, l, Auto("s"), Some("s"), s).value;
               var (l', out) := Overridden(r, WithDecision(l, d, Some("s")), "a", Given("s"), Some(UserCheck()), "b");
               && d.status == "ambiguous" && out.Ok? && out.value.created && out.value.decision.parent == Some("a")
               && !Evidenced(l', Some("s"), out.value.decision, E.Absent)
  {
    var r, l, s := Runs.TwoDomains(), Runs.Start(max).ledger, FromModel(UnsureReply(), "a");
    UnsureReplyReads(s.id, s.fingerprint);
    FromModelSupplies(max, UnsureReply());
    var d := s.selected.value;
    ModelRoutes(max, UnsureReply(), d);
    ReplyIsCoherent(r, UnsureReply(), s.id, s.fingerprint);
    BrokenReasonFacts();
    ReadableMeans(d);
    Runs.LetterIsPlain("b");
    ListedIsEnabled();
    AutoIsVisible();
    Runs.StartIsOk(r, max, "s");
    RememberKeepsApp(r, l, d, Some("s"));
    FirstIsHeld(d, max);
    FirstOverride(r, d, Some("s"), Given("s"), max, UserCheck(), "b", E.Absent);
  }

  lemma FirstIsHeld(d: Decision, max: nat)
    requires max >= 2
    ensures WithDecision(Runs.Start(max).ledger, d, Some("s")) == Holding(d, Some("s"), max)
  {
  }
}
