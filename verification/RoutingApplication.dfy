/**
 The routing application: selecting, overriding and running through one ledger. Requests,
 fresh ids, request hashes, the selector's answer and the gate's verdict come from outside;
 runs take time, so other calls come between the start of a run and its end.
 */
module RoutingApplication {
  import opened Wrappers
  import opened Text
  import opened OrderedDict
  import opened RoutingDecision
  import opened DomainSelector
  import opened RoutingLedger
  import RoutingLedgerSafety
  import RoutingEvidence
  import RoutingEvidenceBuilder

  type Evidence = RoutingEvidence.Evidence

  datatype AppError =
    | SessionInvalid | DecisionNotFound | DecisionNotSelected | SessionMismatch | GateRefused | SessionBound
    | Refused(code: Code) | CommitRefused(reason: CommitError) | EvidenceRefused(cause: RoutingEvidence.EvidenceError)

  /** `payload.get("session_id", default)`: absent, null, or a text. */
  datatype SessionField = Absent | Null | Given(text: string)

  function SessionOf(field: SessionField, fallback: Option<string>): Result<Option<string>, AppError> {
    match field
    case Absent => Ok(fallback)
    case Null => Ok(None)
    case Given(text) => if Strip(text) == "" then Err(SessionInvalid) else Ok(Some(Strip(text)))
  }

  predicate BoundElsewhere(l: Ledger, session: Option<string>, domainId: string) {
    BoundDomain(l, session).Some? && BoundDomain(l, session).value != domainId
  }

  datatype Request = Request(text: string, domainId: Option<string>, session: SessionField)

  /** What the outside supplies to one routing: a fresh id, the hash of the request, the selector's answer. */
  datatype Supply = Supply(id: string, fingerprint: string, selected: Result<Decision, Code>)

  const MISMATCH := SelectorFailed("domain_routing_request_mismatch")

  function Explicit(r: Router, domainId: string, s: Supply): Result<Decision, Code> {
    var (sel, entry) :- Enabled(r, domainId, "explicit");
    Ok(NewDecision(s.id, "selected", "explicit_domain_selection", "explicit.v1", s.fingerprint,
                   [BareCandidate(sel, entry)], Some(sel)))
  }

  /** `DomainRouter.route`. */
  function Route(r: Router, q: Request, s: Supply): Result<Decision, Code> {
    if Strip(q.text) == "" then Err(RequestRequired)
    else if q.domainId.Some? && Lower(Strip(q.domainId.value)) != "auto" then Explicit(r, q.domainId.value, s)
    else
      var raw :- s.selected;
      var d :- Validate(r, raw);
      if d.fingerprint != s.fingerprint then Err(MISMATCH) else Ok(d)
  }

  /** `_route`: a bound session is not interpreted again. */
  function Routed(r: Router, l: Ledger, q: Request, session: Option<string>, s: Supply): Result<Decision, AppError> {
    var d := match BoundDomain(l, session)
             case Some(bound) => RestoreBinding(r, q.text, bound, s.id, s.fingerprint)
             case None => Route(r, q, s);
    match d
    case Ok(decision) => Ok(decision)
    case Err(code) => Err(Refused(code))
  }

  /** `select`: route and remember. */
  function Selected(r: Router, l: Ledger, q: Request, s: Supply): (Ledger, Result<Decision, AppError>) {
    match SessionOf(q.session, None)
    case Err(e) => (l, Err(e))
    case Ok(session) =>
      match Routed(r, l, q, session, s)
      case Err(e) => (l, Err(e))
      case Ok(d) => (WithDecision(l, d, session), Ok(d))
  }

  // ---------------------------------------------------------------- overrides

  /** The command as the gate hands it to the dispatcher. */
  datatype Checked = Checked(action: string, domainId: string, key: string, fingerprint: string)

  /** `override` up to the gate: the subject is looked up and read back. */
  function Sought(r: Router, l: Ledger, subject: string, field: SessionField): Result<(Option<string>, Decision), AppError> {
    var session :- SessionOf(field, None);
    match Lookup(l.decisions, subject, session)
    case None => Err(DecisionNotFound)
    case Some(prior) =>
      match Resolve(r.registry, prior)
      case Err(code) => Err(Refused(code))
      case Ok(_) => Ok((session, prior))
  }

  /** `_override_authorized` up to its commit: the session may have been bound meanwhile. */
  function Authorized(
    r: Router, l: Ledger, subject: string, session: Option<string>, prior: Decision, c: Checked, id: string
  ): Result<Command, AppError> {
    match Override(r, prior, c.domainId, id)
    case Err(code) => Err(Refused(code))
    case Ok(d) =>
      if BoundElsewhere(l, session, DomainOf(d)) then Err(SessionMismatch)
      else Ok(Command(subject, d, session, c.action, c.key, c.fingerprint))
  }

  /** Its commit, and the answer read back. */
  function Settled(r: Router, l: Ledger, c: Command): (Ledger, Result<Committed, AppError>) {
    var (l', outcome) := Commit(r.registry, l, c);
    match outcome
    case Err(e) => (l', Err(CommitRefused(e)))
    case Ok(committed) =>
      match Resolve(r.registry, committed.decision)
      case Err(code) => (l', Err(Refused(code)))
      case Ok(restored) => (l', Ok(committed.(decision := restored)))
  }

  /** `_override_authorized`, with nothing in between. */
  function OverrideAuthorized(
    r: Router, l: Ledger, subject: string, session: Option<string>, prior: Decision, c: Checked, id: string
  ): (Ledger, Result<Committed, AppError>) {
    match Authorized(r, l, subject, session, prior, c, id)
    case Err(e) => (l, Err(e))
    case Ok(command) => Settled(r, l, command)
  }

  /** `override`, with nothing in between: `gate` is the command the gate lets through, None when it refuses. */
  function Overridden(r: Router, l: Ledger, subject: string, field: SessionField, gate: Option<Checked>, id: string)
    : (Ledger, Result<Committed, AppError>)
  {
    match Sought(r, l, subject, field)
    case Err(e) => (l, Err(e))
    case Ok((session, prior)) =>
      if gate.None? then (l, Err(GateRefused)) else OverrideAuthorized(r, l, subject, session, prior, gate.value, id)
  }

  // ---------------------------------------------------------------- runs

  /** `run` as far as the decision: a named one is looked up and checked, any other is routed and saved. */
  function Chosen(r: Router, l: Ledger, q: Request, session: Option<string>, named: string, s: Supply)
    : (Ledger, Result<Decision, AppError>)
  {
    if Strip(named) == "" then
      match Routed(r, l, q, session, s)
      case Err(e) => (l, Err(e))
      case Ok(d) => (WithDecision(l, d, session), Ok(d))
    else
      (l, Named(r, l, session, Strip(named)))
  }

  function Named(r: Router, l: Ledger, session: Option<string>, id: string): Result<Decision, AppError> {
    match Lookup(l.decisions, id, session)
    case None => Err(DecisionNotFound)
    case Some(restored) =>
      match Resolve(r.registry, restored)
      case Err(code) => Err(Refused(code))
      case Ok(d) =>
        if !IdentitiesKnown(r, d) then Err(Refused(SelectorInvalid))
        else if d.status != "selected" then Err(DecisionNotSelected)
        else if BoundElsewhere(l, session, DomainOf(d)) then Err(SessionMismatch)
        else Ok(d)
  }

  datatype Prepared = Clarify(decision: Decision) | Execute(session: Option<string>, decision: Decision, evidence: Evidence)

  const LINEAGE_LIMIT := 8

  /** `run` up to the execution of the selected service. */
  ghost function Prepare(r: Router, l: Ledger, q: Request, named: string, s: Supply, latency: RoutingEvidence.Reading)
    : (Ledger, Result<Prepared, AppError>)
  {
    match SessionOf(q.session, Some("default"))
    case Err(e) => (l, Err(e))
    case Ok(session) =>
      var (l', chosen) := Chosen(r, l, q, session, named, s);
      match chosen
      case Err(e) => (l', Err(e))
      case Ok(d) =>
        if d.status != "selected" then (l', Ok(Clarify(d)))
        else
          match RoutingEvidenceBuilder.Build(d, LineageOf(l'.decisions, session, d, LINEAGE_LIMIT, {}), latency)
          case Err(e) => (l', Err(EvidenceRefused(e)))
          case Ok(evidence) => (l', Ok(Execute(session, d, evidence)))
  }

  /** `run` after the execution: the session is bound to the Domain it ran on. */
  function Finish(l: Ledger, session: Option<string>, domainId: string): (Ledger, Result<(), AppError>) {
    match Bound(l, if session.Some? then session.value else "", domainId)
    case Err(_) => (l, Err(SessionMismatch))
    case Ok(l') => (l', Ok(()))
  }

  /** `clear_unbound_session`. */
  function ClearUnbound(l: Ledger, session: string): (Ledger, Result<(), AppError>) {
    if Strip(session) == "" then (l, Err(SessionInvalid))
    else if BoundDomain(l, Some(Strip(session))).Some? then (l, Err(SessionBound))
    else (Forgotten(l, Strip(session), false), Ok(()))
  }

  // ---------------------------------------------------------------- the object

  class Application {
    const router: Router
    const state: DomainRoutingState

    constructor (router: Router, state: DomainRoutingState)
      ensures this.router == router && this.state == state
    {
      this.router := router;
      this.state := state;
    }

    ghost predicate Valid()
      reads state
    {
      state.Valid() && state.registry == router.registry
    }

    method SelectDomain(q: Request, s: Supply) returns (r: Result<Decision, AppError>)
      requires Valid()
      modifies state
      ensures Valid() && (state.Contents(), r) == Selected(router, old(state.Contents()), q, s)
    {
      var session :- SessionOf(q.session, None);
      var d :- RouteFor(q, session, s);
      state.Save(d, session);
      return Ok(d);
    }

    method RouteFor(q: Request, session: Option<string>, s: Supply) returns (r: Result<Decision, AppError>)
      ensures r == Routed(router, state.Contents(), q, session, s)
    {
      var bound := state.BoundTo(session);
      var d := if bound.Some? then RestoreBinding(router, q.text, bound.value, s.id, s.fingerprint) else Route(router, q, s);
      return match d case Ok(decision) => Ok(decision) case Err(code) => Err(Refused(code));
    }

    method OverrideDecision(subject: string, field: SessionField, gate: Option<Checked>, id: string)
      returns (r: Result<Committed, AppError>)
      requires Valid()
      modifies state
      ensures Valid() && (state.Contents(), r) == Overridden(router, old(state.Contents()), subject, field, gate, id)
    {
      var session :- SessionOf(field, None);
      var prior := state.GetDecision(subject, session);
      if prior.None? {
        return Err(DecisionNotFound);
      }
      var source := Resolve(router.registry, prior.value);
      if source.Err? {
        return Err(Refused(source.error));
      }
      if gate.None? {
        return Err(GateRefused);
      }
      r := CommitOverride(subject, session, prior.value, gate.value, id);
    }

    method CommitOverride(subject: string, session: Option<string>, prior: Decision, c: Checked, id: string)
      returns (r: Result<Committed, AppError>)
      requires Valid()
      modifies state
      ensures Valid()
      ensures (state.Contents(), r) == OverrideAuthorized(router, old(state.Contents()), subject, session, prior, c, id)
    {
      var d := Override(router, prior, c.domainId, id);
      if d.Err? {
        return Err(Refused(d.error));
      }
      var bound := state.BoundTo(session);
      if bound.Some? && bound.value != DomainOf(d.value) {
        return Err(SessionMismatch);
      }
      var committed := state.CommitInteraction(Command(subject, d.value, session, c.action, c.key, c.fingerprint));
      if committed.Err? {
        return Err(CommitRefused(committed.error));
      }
      var restored := Resolve(router.registry, committed.value.decision);
      if restored.Err? {
        return Err(Refused(restored.error));
      }
      return Ok(committed.value.(decision := restored.value));
    }

    method ChooseDecision(q: Request, session: Option<string>, named: string, s: Supply) returns (r: Result<Decision, AppError>)
      requires Valid()
      modifies state
      ensures Valid() && (state.Contents(), r) == Chosen(router, old(state.Contents()), q, session, named, s)
    {
      if Strip(named) == "" {
        var d :- RouteFor(q, session, s);
        state.Save(d, session);
        return Ok(d);
      }
      var restored := state.GetDecision(Strip(named), session);
      if restored.None? {
        return Err(DecisionNotFound);
      }
      var d := Resolve(router.registry, restored.value);
      if d.Err? {
        return Err(Refused(d.error));
      }
      if !IdentitiesKnown(router, d.value) {
        return Err(Refused(SelectorInvalid));
      }
      if d.value.status != "selected" {
        return Err(DecisionNotSelected);
      }
      var bound := state.BoundTo(session);
      if bound.Some? && bound.value != DomainOf(d.value) {
        return Err(SessionMismatch);
      }
      return Ok(d.value);
    }

    method PrepareRun(q: Request, named: string, s: Supply, latency: RoutingEvidence.Reading)
      returns (r: Result<Prepared, AppError>)
      requires Valid()
      modifies state
      ensures Valid() && (state.Contents(), r) == Prepare(router, old(state.Contents()), q, named, s, latency)
    {
      var session :- SessionOf(q.session, Some("default"));
      var d :- ChooseDecision(q, session, named, s);
      if d.status != "selected" {
        return Ok(Clarify(d));
      }
      var lineage := state.Lineage(d, session, LINEAGE_LIMIT);
      var evidence := RoutingEvidenceBuilder.BuildEvidence(d, lineage, latency);
      if evidence.Err? {
        return Err(EvidenceRefused(evidence.error));
      }
      return Ok(Execute(session, d, evidence.value));
    }

    method FinishRun(session: Option<string>, domainId: string) returns (r: Result<(), AppError>)
      requires Valid()
      modifies state
      ensures Valid() && (state.Contents(), r) == Finish(old(state.Contents()), session, domainId)
    {
      var bound := state.Bind(if session.Some? then session.value else "", domainId);
      return if bound.Ok? then Ok(()) else Err(SessionMismatch);
    }

    method ClearUnboundSession(session: string) returns (r: Result<(), AppError>)
      requires Valid()
      modifies state
      ensures Valid() && (state.Contents(), r) == ClearUnbound(old(state.Contents()), session)
    {
      if Strip(session) == "" {
        return Err(SessionInvalid);
      }
      var bound := state.BoundTo(Some(Strip(session)));
      if bound.Some? {
        return Err(SessionBound);
      }
      state.Forget(Strip(session), false);
      return Ok(());
    }
  }
}
