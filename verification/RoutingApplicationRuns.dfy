/**
 The routing application in time.  Calls interleave: a selection routes and then saves, an
 override looks its subject up, is authorised and then commits, and a run is one step up to the
 execution of the selected service and one after it.
 */
module RoutingApplicationRuns {
  import opened Wrappers
  import opened Text
  import opened OrderedDict
  import opened RoutingDecision
  import opened DomainSelector
  import opened RoutingLedger
  import opened RoutingApplication
  import opened RoutingApplicationSafety
  import opened RoutingLedgerSafety
  import E = RoutingEvidence
  import B = RoutingEvidenceBuilder

  datatype Job = Job(session: Option<string>, domainId: string)

  /** A call under way: an override that holds its subject, or a write to the ledger to come. */
  datatype Call =
    | Asked(subject: string, session: Option<string>, prior: Decision)
    | Ready(op: Op)

  /** `done`: the Domains each session has completed runs on since it was last unbound by a forget. */
  datatype App = App(ledger: Ledger, calls: map<nat, Call>, running: map<nat, Job>, done: map<string, set<string>>)

  /** A run whose service refuses to be made, or fails, begins and then fails. */
  datatype Step =
    | SelectStep(call: nat, q: Request, s: Supply)
    | AskStep(call: nat, subject: string, field: SessionField)
    | CheckStep(call: nat, gate: Option<Checked>, id: string)
    | WriteStep(call: nat)
    | BeginStep(run: nat, q: Request, named: string, s: Supply, latency: E.Reading)
    | EndStep(run: nat)
    | FailStep(run: nat)
    | ForgetStep(session: string, keepBinding: bool)
    | ClearStep(session: string)

  function DoneOn(done: map<string, set<string>>, s: string): set<string> {
    if s in done then done[s] else {}
  }

  ghost function Begin(r: Router, a: App, run: nat, q: Request, named: string, s: Supply, latency: E.Reading): App {
    var (l, prepared) := Prepare(r, a.ledger, q, named, s, latency);
    match prepared
    case Ok(Execute(session, d, _)) => a.(ledger := l, running := a.running[run := Job(session, DomainOf(d))])
    case _ => a.(ledger := l)
  }

  /** The execution has happened, whether or not the session can still be bound to its Domain. */
  function End(a: App, run: nat): App
    requires run in a.running
  {
    var j := a.running[run];
    App(Finish(a.ledger, j.session, j.domainId).0, a.calls, a.running - {run},
        if j.session.Some? then a.done[j.session.value := DoneOn(a.done, j.session.value) + {j.domainId}] else a.done)
  }

  /** A selection routes; its decision is saved by a later step. */
  function Select(r: Router, a: App, call: nat, q: Request, s: Supply): App {
    match SessionOf(q.session, None)
    case Err(_) => a
    case Ok(session) =>
      match Routed(r, a.ledger, q, session, s)
      case Err(_) => a
      case Ok(d) => a.(calls := a.calls[call := Ready(SaveOp(d, session))])
  }

  /** An override looks its subject up. */
  function Ask(r: Router, a: App, call: nat, subject: string, field: SessionField): App {
    match Sought(r, a.ledger, subject, field)
    case Err(_) => a
    case Ok((session, prior)) => a.(calls := a.calls[call := Asked(subject, session, prior)])
  }

  /** The gate's verdict on an override that holds its subject, and the checks before its commit. */
  function Weigh(r: Router, a: App, call: nat, gate: Option<Checked>, id: string): App
    requires call in a.calls && a.calls[call].Asked?
  {
    var Asked(subject, session, prior) := a.calls[call];
    if gate.None? then a.(calls := a.calls - {call})
    else
      match Authorized(r, a.ledger, subject, session, prior, gate.value, id)
      case Err(_) => a.(calls := a.calls - {call})
      case Ok(command) => a.(calls := a.calls[call := Ready(CommitOp(command))])
  }

  /** The write itself, under the lock of the ledger. */
  function Write(r: Router, a: App, call: nat): App
    requires call in a.calls && a.calls[call].Ready?
  {
    a.(ledger := Apply(r.registry, a.ledger, a.calls[call].op), calls := a.calls - {call})
  }

  ghost function Next(r: Router, a: App, step: Step): App {
    match step
    case SelectStep(call, q, s) => if call in a.calls then a else Select(r, a, call, q, s)
    case AskStep(call, subject, field) => if call in a.calls then a else Ask(r, a, call, subject, field)
    case CheckStep(call, gate, id) => if call in a.calls && a.calls[call].Asked? then Weigh(r, a, call, gate, id) else a
    case WriteStep(call) => if call in a.calls && a.calls[call].Ready? then Write(r, a, call) else a
    case BeginStep(run, q, named, s, latency) => if run in a.running then a else Begin(r, a, run, q, named, s, latency)
    case EndStep(run) => if run in a.running then End(a, run) else a
    case FailStep(run) => a.(running := a.running - {run})
    case ForgetStep(session, keep) =>
      if Strip(session) == "" then a
      else App(Forgotten(a.ledger, Strip(session), keep), a.calls, a.running, if keep then a.done else a.done - {Strip(session)})
    case ClearStep(session) =>
      var (l, cleared) := ClearUnbound(a.ledger, session);
      if cleared.Ok? then App(l, a.calls, a.running, a.done - {Strip(session)}) else a
  }

  function Start(max: nat): App {
    App(Ledger([], [], map[], max), map[], map[], map[])
  }

  ghost function Run(r: Router, a: App, steps: seq<Step>): App
    decreases |steps|
  {
    if steps == [] then a else Run(r, Next(r, a, steps[0]), steps[1..])
  }

  /** The id under which a call will file a decision. */
  function Brings(c: Call): Option<string> {
    if c.Ready? then Files(c.op) else None
  }

  /** The id of the decision an override answers. */
  function Answers(c: Call): Option<string> {
    match c
    case Asked(subject, _, _) => Some(subject)
    case Ready(CommitOp(command)) => Some(command.subjectId)
    case Ready(_) => None
  }

  /** No call under way has drawn the id, or answers it. */
  ghost predicate Unused(a: App, id: string) {
    forall k | k in a.calls :: Brings(a.calls[k]) != Some(id) && Answers(a.calls[k]) != Some(id)
  }

  /** What the outside guarantees for one step; the gate hands over keys of at most 128 characters. */
  ghost predicate Proper(r: Router, a: App, step: Step) {
    match step
    case SelectStep(_, _, s) => SupplyOk(r, a.ledger, s) && Unused(a, s.id)
    case CheckStep(_, gate, id) => Fresh(a.ledger, id) && Unused(a, id) && (gate.Some? ==> |gate.value.key| <= 128)
    case BeginStep(_, _, _, s, _) => SupplyOk(r, a.ledger, s) && Unused(a, s.id)
    case _ => true
  }

  ghost predicate AllProper(r: Router, a: App, steps: seq<Step>)
    decreases |steps|
  {
    steps == [] || (Proper(r, a, steps[0]) && AllProper(r, Next(r, a, steps[0]), steps[1..]))
  }

  // ---------------------------------------------------------------- the ledger over every run

  /** A call under way may still do what it is about to do. */
  ghost predicate CallOk(r: Router, l: Ledger, c: Call) {
    match c
    case Asked(subject, _, prior) =>
      && Routable(r, prior) && prior.decisionId == subject
      && forall p | p in l.decisions && p.key == subject :: p.value.decision.fingerprint == prior.fingerprint
    case Ready(op) => !op.ForgetOp? && Filed(r, l, op)
  }

  /** Ids drawn by calls under way are their own, and nobody answers them yet. */
  ghost predicate CallsApart(calls: map<nat, Call>) {
    forall j, k | j in calls && k in calls && Brings(calls[j]).Some? ::
      && Answers(calls[k]) != Brings(calls[j])
      && (j != k ==> Brings(calls[k]) != Brings(calls[j]))
  }

  ghost predicate CallsOk(r: Router, a: App) {
    CallsApart(a.calls) && forall k | k in a.calls :: CallOk(r, a.ledger, a.calls[k])
  }

  ghost predicate RunningOk(r: Router, a: App) {
    && AppOk(r, a.ledger) && CallsOk(r, a)
    && forall k | k in a.running :: a.running[k].domainId in r.registry && a.running[k].session != Some("")
  }

  /** An entry a call under way does not mind: it was there before, or has nothing to do with the call. */
  ghost predicate Harmless(l: Ledger, c: Call, e: Entry<string, Record>) {
    || e in l.decisions
    || (Brings(c) != Some(e.key) && Answers(c) != Some(e.key)
        && (Brings(c).Some? ==> e.value.decision.parent != Brings(c)))
  }

  lemma CallSurvives(r: Router, l: Ledger, l': Ledger, c: Call)
    requires CallOk(r, l, c) && forall e | e in l'.decisions :: Harmless(l, c, e)
    ensures CallOk(r, l', c)
  {
  }

  lemma CallsSurvive(r: Router, a: App, l': Ledger, calls: map<nat, Call>)
    requires CallsOk(r, a) && calls.Items <= a.calls.Items
    requires forall k, e | k in calls && e in l'.decisions :: Harmless(a.ledger, calls[k], e)
    ensures CallsOk(r, a.(ledger := l', calls := calls))
  {
    forall k | k in calls
      ensures k in a.calls && a.calls[k] == calls[k] && CallOk(r, l', calls[k])
    {
      assert (k, calls[k]) in calls.Items;
      CallSurvives(r, a.ledger, l', calls[k]);
    }
  }

  /** A call whose id nobody else has drawn or answers may join. */
  lemma CallJoins(r: Router, a: App, call: nat, c: Call)
    requires CallsOk(r, a) && CallOk(r, a.ledger, c) && Answers(c) != Brings(c)
    requires forall k | k in a.calls && k != call ::
               && (Brings(c).Some? ==> Brings(a.calls[k]) != Brings(c) && Answers(a.calls[k]) != Brings(c))
               && (Brings(a.calls[k]).Some? ==> Answers(c) != Brings(a.calls[k]))
    ensures CallsOk(r, a.(calls := a.calls[call := c]))
  {
  }

  lemma SelectKeepsCalls(r: Router, a: App, call: nat, q: Request, s: Supply)
    requires RouterOk(r) && RunningOk(r, a) && SupplyOk(r, a.ledger, s) && Unused(a, s.id) && call !in a.calls
    ensures RunningOk(r, Select(r, a, call, q, s))
  {
    var session := SessionOf(q.session, None);
    if session.Ok? && Routed(r, a.ledger, q, session.value, s).Ok? {
      RoutedFacts(r, a.ledger, q, session.value, s);
      CallJoins(r, a, call, Ready(SaveOp(Routed(r, a.ledger, q, session.value, s).value, session.value)));
    }
  }

  lemma AskKeepsCalls(r: Router, a: App, call: nat, subject: string, field: SessionField)
    requires RouterOk(r) && RunningOk(r, a) && call !in a.calls
    ensures RunningOk(r, Ask(r, a, call, subject, field))
  {
    var sought := Sought(r, a.ledger, subject, field);
    if sought.Ok? {
      var (session, prior) := sought.value;
      var e := LookupIsFiled(a.ledger, subject, session);
      AskedIsOk(r, a.ledger, subject, session, e);
      forall k | k in a.calls && Brings(a.calls[k]).Some?
        ensures Brings(a.calls[k]) != Some(subject)
      {
        assert CallOk(r, a.ledger, a.calls[k]);
      }
      CallJoins(r, a, call, Asked(subject, session, prior));
    }
  }

  lemma AskedIsOk(r: Router, l: Ledger, subject: string, session: Option<string>, e: Entry<string, Record>)
    requires AppOk(r, l) && e in l.decisions && e.key == subject
    ensures CallOk(r, l, Asked(subject, session, e.value.decision))
  {
    forall p | p in l.decisions && p.key == subject
      ensures p == e
    {
      OneEntry(l.decisions, p, e);
    }
  }

  lemma OneEntry(d: Decisions, a: Entry<string, Record>, b: Entry<string, Record>)
    requires Distinct(d) && a in d && b in d && a.key == b.key
    ensures a == b
  {
    var i :| 0 <= i < |d| && d[i] == a;
    var j :| 0 <= j < |d| && d[j] == b;
    assert i == j;
  }

  lemma WeighKeepsCalls(r: Router, a: App, call: nat, gate: Option<Checked>, id: string)
    requires RouterOk(r) && RunningOk(r, a) && Proper(r, a, CheckStep(call, gate, id))
    requires call in a.calls && a.calls[call].Asked?
    ensures RunningOk(r, Weigh(r, a, call, gate, id))
  {
    var c := a.calls[call];
    CallsSurvive(r, a, a.ledger, a.calls - {call});
    if gate.Some? && Authorized(r, a.ledger, c.subject, c.session, c.prior, gate.value, id).Ok? {
      assert CallOk(r, a.ledger, c);
      AuthorizedIsFiled(r, a.ledger, c.subject, c.session, c.prior, gate.value, id);
      CommandJoins(r, a, call, Authorized(r, a.ledger, c.subject, c.session, c.prior, gate.value, id).value, id);
    }
  }

  lemma CommandJoins(r: Router, a: App, call: nat, command: Command, id: string)
    requires CallsOk(r, a) && Unused(a, id) && call in a.calls
    requires Filed(r, a.ledger, CommitOp(command)) && command.decision.decisionId == id
    requires Answers(a.calls[call]) == Some(command.subjectId) && command.subjectId != id
    ensures CallsOk(r, a.(calls := a.calls[call := Ready(CommitOp(command))]))
  {
    CallJoins(r, a, call, Ready(CommitOp(command)));
  }

  lemma WriteKeepsCalls(r: Router, a: App, call: nat)
    requires RouterOk(r) && RunningOk(r, a) && call in a.calls && a.calls[call].Ready?
    ensures RunningOk(r, Write(r, a, call))
  {
    var op := a.calls[call].op;
    assert CallOk(r, a.ledger, a.calls[call]);
    FiledKeepsApp(r, a.ledger, op);
    WriteAdds(r, a.ledger, op);
    CallsSurvive(r, a, Apply(r.registry, a.ledger, op), a.calls - {call});
  }

  /** A write adds at most the decision it brings, and binds nothing. */
  lemma WriteAdds(r: Router, l: Ledger, op: Op)
    requires !op.ForgetOp? && Filed(r, l, op)
    ensures forall e | e in Apply(r.registry, l, op).decisions ::
              e in l.decisions || (Some(e.key) == Files(op) && e.value.decision.parent == Answers(Ready(op)))
    ensures Apply(r.registry, l, op).bindings == l.bindings
  {
    match op
    case SaveOp(d, session) => RememberedMembers(l, d, session);
    case CommitOp(c) =>
      RememberedMembers(l, c.decision, c.session);
      CommitFiles(r.registry, l, c);
  }

  lemma ChosenDomain(r: Router, l: Ledger, q: Request, session: Option<string>, named: string, s: Supply)
    requires RouterOk(r) && AppOk(r, l) && SupplyOk(r, l, s) && Chosen(r, l, q, session, named, s).1.Ok?
    ensures var (l', d) := Chosen(r, l, q, session, named, s);
            && AppOk(r, l')
            && (d.value.status == "selected" ==>
                  DomainOf(d.value) in r.registry
                  && (BoundDomain(l, session).Some? ==> DomainOf(d.value) == BoundDomain(l, session).value))
  {
    var stored := ChosenFacts(r, l, q, session, named, s);
    CoherentBounded(r, stored);
  }

  lemma SessionIsNamed(field: SessionField)
    requires SessionOf(field, Some("default")).Ok?
    ensures SessionOf(field, Some("default")).value != Some("")
  {
  }

  lemma PrepareFacts(r: Router, l: Ledger, q: Request, named: string, s: Supply, latency: E.Reading)
    requires RouterOk(r) && AppOk(r, l) && SupplyOk(r, l, s)
    ensures var (l', p) := Prepare(r, l, q, named, s, latency);
            && AppOk(r, l') && l'.bindings == l.bindings
            && (p.Ok? && p.value.Execute? ==>
                  && SessionOf(q.session, Some("default")) == Ok(p.value.session)
                  && DomainOf(p.value.decision) in r.registry && p.value.session != Some("")
                  && (BoundDomain(l, p.value.session).Some? ==>
                        DomainOf(p.value.decision) == BoundDomain(l, p.value.session).value))
  {
    var session := SessionOf(q.session, Some("default"));
    if session.Ok? {
      SessionIsNamed(q.session);
      if Chosen(r, l, q, session.value, named, s).1.Ok? {
        ChosenDomain(r, l, q, session.value, named, s);
      }
    }
  }

  lemma FinishKeepsApp(r: Router, l: Ledger, session: Option<string>, domainId: string)
    requires AppOk(r, l) && domainId in r.registry
    ensures AppOk(r, Finish(l, session, domainId).0)
  {
  }

  /** A run that begins files at most the decision it routed. */
  lemma PrepareAdds(r: Router, l: Ledger, q: Request, named: string, s: Supply, latency: E.Reading)
    requires RouterOk(r) && AppOk(r, l) && SupplyOk(r, l, s)
    ensures forall e | e in Prepare(r, l, q, named, s, latency).0.decisions ::
              e in l.decisions || (e.key == s.id && e.value.decision.parent.None?)
  {
    var session := SessionOf(q.session, Some("default"));
    if session.Ok? && Strip(named) == "" && Routed(r, l, q, session.value, s).Ok? {
      RoutedFacts(r, l, q, session.value, s);
      RememberedMembers(l, Routed(r, l, q, session.value, s).value, session.value);
    }
  }

  lemma BeginKeepsCalls(r: Router, a: App, run: nat, q: Request, named: string, s: Supply, latency: E.Reading)
    requires RouterOk(r) && RunningOk(r, a) && SupplyOk(r, a.ledger, s) && Unused(a, s.id)
    ensures RunningOk(r, Begin(r, a, run, q, named, s, latency))
  {
    PrepareFacts(r, a.ledger, q, named, s, latency);
    PrepareAdds(r, a.ledger, q, named, s, latency);
    BegunKeepsCalls(r, a, Prepare(r, a.ledger, q, named, s, latency).0, s.id);
  }

  lemma BegunKeepsCalls(r: Router, a: App, l': Ledger, id: string)
    requires CallsOk(r, a) && Unused(a, id)
    requires forall e | e in l'.decisions :: e in a.ledger.decisions || (e.key == id && e.value.decision.parent.None?)
    ensures CallsOk(r, a.(ledger := l'))
  {
    CallsSurvive(r, a, l', a.calls);
  }

  lemma ForgetKeepsCalls(r: Router, a: App, session: string, keep: bool)
    requires RunningOk(r, a)
    ensures AppOk(r, Forgotten(a.ledger, session, keep)) && CallsOk(r, a.(ledger := Forgotten(a.ledger, session, keep)))
  {
    ForgetKeepsApp(r, a.ledger, session, keep);
    ForgetIsExact(a.ledger, session, keep);
    CallsSurvive(r, a, Forgotten(a.ledger, session, keep), a.calls);
  }

  predicate IsCallStep(step: Step) {
    step.SelectStep? || step.AskStep? || step.CheckStep? || step.WriteStep?
  }

  lemma CallStepKeepsRunning(r: Router, a: App, step: Step)
    requires RouterOk(r) && RunningOk(r, a) && Proper(r, a, step) && IsCallStep(step)
    ensures RunningOk(r, Next(r, a, step))
  {
    if step.SelectStep? {
      if step.call !in a.calls {
        SelectKeepsCalls(r, a, step.call, step.q, step.s);
      }
    } else if step.AskStep? {
      if step.call !in a.calls {
        AskKeepsCalls(r, a, step.call, step.subject, step.field);
      }
    } else if step.CheckStep? {
      if step.call in a.calls && a.calls[step.call].Asked? {
        WeighKeepsCalls(r, a, step.call, step.gate, step.id);
      }
    } else if step.call in a.calls && a.calls[step.call].Ready? {
      WriteKeepsCalls(r, a, step.call);
    }
  }

  lemma EndKeepsRunning(r: Router, a: App, run: nat)
    requires RunningOk(r, a) && run in a.running
    ensures RunningOk(r, End(a, run))
  {
    FinishKeepsApp(r, a.ledger, a.running[run].session, a.running[run].domainId);
    CallsSurvive(r, a, End(a, run).ledger, a.calls);
  }

  lemma NextKeepsRunning(r: Router, a: App, step: Step)
    requires RouterOk(r) && RunningOk(r, a) && Proper(r, a, step)
    ensures RunningOk(r, Next(r, a, step))
  {
    if IsCallStep(step) {
      CallStepKeepsRunning(r, a, step);
    } else if step.BeginStep? {
      BeginKeepsCalls(r, a, step.run, step.q, step.named, step.s, step.latency);
    } else if step.EndStep? {
      if step.run in a.running {
        EndKeepsRunning(r, a, step.run);
      }
    } else if step.ForgetStep? {
      ForgetKeepsCalls(r, a, Strip(step.session), step.keepBinding);
    } else if step.ClearStep? {
      ForgetKeepsCalls(r, a, Strip(step.session), false);
    }
  }

  lemma ForgetKeepsApp(r: Router, l: Ledger, session: string, keep: bool)
    requires AppOk(r, l)
    ensures AppOk(r, Forgotten(l, session, keep))
  {
    FiledKeepsApp(r, l, RoutingLedgerSafety.ForgetOp(session, keep));
  }

  /**
   Whatever is selected, overridden, run and forgotten, in whatever order: the ledger stays
   within bounds, every decision in it is valid for the deployment, no parent has two children
   in a session, no two receipts share a key, and a child answers its parent's request.
   */
  lemma {:induction false} RunKeepsApp(r: Router, a: App, steps: seq<Step>)
    requires RouterOk(r) && RunningOk(r, a) && AllProper(r, a, steps)
    ensures RunningOk(r, Run(r, a, steps))
    decreases |steps|
  {
    if steps != [] {
      NextKeepsRunning(r, a, steps[0]);
      RunKeepsApp(r, Next(r, a, steps[0]), steps[1..]);
    }
  }

  // ---------------------------------------------------------------- calls with nothing in between

  lemma RunThree(r: Router, a: App, s1: Step, s2: Step, s3: Step)
    ensures Run(r, a, [s1, s2, s3]) == Next(r, Next(r, Next(r, a, s1), s2), s3)
  {
    assert [s1, s2, s3][1..] == [s2, s3] && [s2, s3][1..] == [s3] && [s3][1..] == [];
    assert Run(r, Next(r, Next(r, a, s1), s2), [s3]) == Next(r, Next(r, Next(r, a, s1), s2), s3);
  }

  lemma CallReplaced(calls: map<nat, Call>, call: nat, c: Call, c': Call)
    requires call !in calls
    ensures calls[call := c] - {call} == calls && calls[call := c][call := c'] == calls[call := c']
  {
  }

  lemma WeighedAlone(r: Router, a: App, call: nat, c: Call, gate: Option<Checked>, id: string)
    requires c.Asked? && call !in a.calls
    ensures var verdict := if gate.None? then Err(GateRefused)
                           else Authorized(r, a.ledger, c.subject, c.session, c.prior, gate.value, id);
            Weigh(r, a.(calls := a.calls[call := c]), call, gate, id)
            == if verdict.Err? then a else a.(calls := a.calls[call := Ready(CommitOp(verdict.value))])
  {
    CallReplaced(a.calls, call, c, c);
    if gate.Some? && Authorized(r, a.ledger, c.subject, c.session, c.prior, gate.value, id).Ok? {
      var command := Authorized(r, a.ledger, c.subject, c.session, c.prior, gate.value, id).value;
      CallReplaced(a.calls, call, c, Ready(CommitOp(command)));
    }
  }

  /** The three steps of an override, with nothing in between, do what `override` does. */
  lemma OverrideAlone(r: Router, a: App, call: nat, subject: string, field: SessionField, gate: Option<Checked>, id: string)
    requires call !in a.calls
    ensures Run(r, a, [AskStep(call, subject, field), CheckStep(call, gate, id), WriteStep(call)])
            == a.(ledger := Overridden(r, a.ledger, subject, field, gate, id).0)
  {
    RunThree(r, a, AskStep(call, subject, field), CheckStep(call, gate, id), WriteStep(call));
    if Sought(r, a.ledger, subject, field).Ok? {
      var (session, prior) := Sought(r, a.ledger, subject, field).value;
      WeighedAlone(r, a, call, Asked(subject, session, prior), gate, id);
      if gate.Some? && Authorized(r, a.ledger, subject, session, prior, gate.value, id).Ok? {
        WrittenAlone(r, a, call, Authorized(r, a.ledger, subject, session, prior, gate.value, id).value);
      }
    }
  }

  lemma WrittenAlone(r: Router, a: App, call: nat, command: Command)
    requires call !in a.calls
    ensures Next(r, a.(calls := a.calls[call := Ready(CommitOp(command))]), WriteStep(call))
            == a.(ledger := Settled(r, a.ledger, command).0)
  {
    SettledIsCommit(r, a.ledger, command);
    assert a.calls[call := Ready(CommitOp(command))] - {call} == a.calls;
  }

  /** The two steps of a selection, with nothing in between, do what `select` does. */
  lemma SelectAlone(r: Router, a: App, call: nat, q: Request, s: Supply)
    requires call !in a.calls
    ensures Run(r, a, [SelectStep(call, q, s), WriteStep(call)]) == a.(ledger := Selected(r, a.ledger, q, s).0)
  {
    var b := Select(r, a, call, q, s);
    assert [SelectStep(call, q, s), WriteStep(call)][1..] == [WriteStep(call)];
    assert Run(r, b, [WriteStep(call)]) == Next(r, b, WriteStep(call));
    assert call in b.calls ==> b.calls - {call} == a.calls;
  }

  // ---------------------------------------------------------------- one Domain per session

  /** Binding is for good: only a forget that drops it can end it. */
  lemma {:induction false} BindingNeverMoves(r: Router, a: App, steps: seq<Step>, s: string)
    requires RouterOk(r) && RunningOk(r, a) && AllProper(r, a, steps) && s in a.ledger.bindings && s != ""
    requires forall step | step in steps && step.ForgetStep? :: step.keepBinding || Strip(step.session) != s
    ensures s in Run(r, a, steps).ledger.bindings && Run(r, a, steps).ledger.bindings[s] == a.ledger.bindings[s]
    decreases |steps|
  {
    if steps != [] {
      assert steps[0] in steps;
      NextKeepsRunning(r, a, steps[0]);
      NextKeepsBinding(r, a, steps[0], s);
      BindingNeverMoves(r, Next(r, a, steps[0]), steps[1..], s);
    }
  }

  /** Selections and overrides bind no session and leave every run alone. */
  lemma CallStepsBindNothing(r: Router, a: App, step: Step)
    requires CallsOk(r, a) && IsCallStep(step)
    ensures var b := Next(r, a, step);
            b.ledger.bindings == a.ledger.bindings && b.running == a.running && b.done == a.done
  {
    if step.WriteStep? && step.call in a.calls && a.calls[step.call].Ready? {
      assert CallOk(r, a.ledger, a.calls[step.call]);
      WriteAdds(r, a.ledger, a.calls[step.call].op);
    }
  }

  lemma EndKeepsBinding(r: Router, a: App, run: nat, s: string)
    requires RegistryOk(r.registry) && BindingsOk(r, a.ledger) && run in a.running && s in a.ledger.bindings && s != ""
    ensures s in End(a, run).ledger.bindings && End(a, run).ledger.bindings[s] == a.ledger.bindings[s]
  {
    assert IsIdentity(a.ledger.bindings[s]);
  }

  lemma NextKeepsBinding(r: Router, a: App, step: Step, s: string)
    requires RouterOk(r) && RunningOk(r, a) && Proper(r, a, step) && s in a.ledger.bindings && s != ""
    requires step.ForgetStep? ==> step.keepBinding || Strip(step.session) != s
    ensures s in Next(r, a, step).ledger.bindings && Next(r, a, step).ledger.bindings[s] == a.ledger.bindings[s]
  {
    if IsCallStep(step) {
      CallStepsBindNothing(r, a, step);
    } else if step.BeginStep? {
      PrepareFacts(r, a.ledger, step.q, step.named, step.s, step.latency);
    } else if step.EndStep? && step.run in a.running {
      EndKeepsBinding(r, a, step.run, s);
    }
  }

  /** The runs of the session agree on their Domain, with its binding and with everything it did. */
  ghost predicate SessionOk(a: App, s: string) {
    && (forall k | k in a.running && a.running[k].session == Some(s) && s in a.ledger.bindings ::
          a.running[k].domainId == a.ledger.bindings[s])
    && (forall j, k | j in a.running && k in a.running && a.running[j].session == a.running[k].session == Some(s) ::
          a.running[j].domainId == a.running[k].domainId)
    && (forall d | d in DoneOn(a.done, s) :: s in a.ledger.bindings && a.ledger.bindings[s] == d)
  }

  /** The new run is on the Domain of every run of its session that is under way. */
  ghost predicate Joins(a: App, j: Job) {
    j.session.Some? ==> forall k | k in a.running && a.running[k].session == j.session :: a.running[k].domainId == j.domainId
  }

  /** A run begins on the Domain its session's runs are on. */
  ghost predicate Agrees(r: Router, a: App, step: Step) {
    step.BeginStep? && step.run !in a.running && step.run in Next(r, a, step).running ==>
      Joins(a, Next(r, a, step).running[step.run])
  }

  ghost predicate AllAgree(r: Router, a: App, steps: seq<Step>)
    decreases |steps|
  {
    steps == [] || (Agrees(r, a, steps[0]) && AllAgree(r, Next(r, a, steps[0]), steps[1..]))
  }

  /** In particular when no run of a session begins while another is under way. */
  ghost predicate OneAtATime(a: App, step: Step) {
    step.BeginStep? && SessionOf(step.q.session, Some("default")).Ok? ==>
      var session := SessionOf(step.q.session, Some("default")).value;
      session.Some? ==> forall k | k in a.running :: a.running[k].session != session
  }

  lemma OneAtATimeAgrees(r: Router, a: App, step: Step)
    requires RouterOk(r) && RunningOk(r, a) && Proper(r, a, step) && OneAtATime(a, step)
    ensures Agrees(r, a, step)
  {
    if step.BeginStep? {
      PrepareFacts(r, a.ledger, step.q, step.named, step.s, step.latency);
    }
  }

  lemma SameSession(a: App, b: App, s: string)
    requires SessionOk(a, s) && b.ledger.bindings == a.ledger.bindings && b.running == a.running && b.done == a.done
    ensures SessionOk(b, s)
  {
  }

  /** A run that begins joins on its session's Domain, if that is bound, and changes nothing else there. */
  lemma BegunFacts(r: Router, a: App, run: nat, q: Request, named: string, supply: Supply, latency: E.Reading)
    requires RouterOk(r) && RunningOk(r, a) && SupplyOk(r, a.ledger, supply) && run !in a.running
    ensures var b := Begin(r, a, run, q, named, supply, latency);
            && b.ledger.bindings == a.ledger.bindings && b.done == a.done
            && (run !in b.running ==> b.running == a.running)
            && (run in b.running ==>
                  && b.running == a.running[run := b.running[run]]
                  && (BoundDomain(a.ledger, b.running[run].session).Some? ==>
                        b.running[run].domainId == BoundDomain(a.ledger, b.running[run].session).value))
  {
    PrepareFacts(r, a.ledger, q, named, supply, latency);
  }

  lemma BegunKeepsSession(r: Router, a: App, b: App, run: nat, s: string)
    requires RouterOk(r) && BindingsOk(r, a.ledger) && run !in a.running && SessionOk(a, s) && s != ""
    requires b.ledger.bindings == a.ledger.bindings && b.done == a.done
    requires run !in b.running ==> b.running == a.running
    requires run in b.running ==>
               && b.running == a.running[run := b.running[run]] && Joins(a, b.running[run])
               && (BoundDomain(a.ledger, b.running[run].session).Some? ==>
                     b.running[run].domainId == BoundDomain(a.ledger, b.running[run].session).value)
    ensures SessionOk(b, s)
  {
    if run in b.running {
      AddedKeepsSession(r, a, run, b.ledger, b.running[run], s);
    }
  }

  lemma AddedKeepsSession(r: Router, a: App, run: nat, l: Ledger, j: Job, s: string)
    requires RouterOk(r) && BindingsOk(r, a.ledger) && l.bindings == a.ledger.bindings && run !in a.running
    requires BoundDomain(a.ledger, j.session).Some? ==> j.domainId == BoundDomain(a.ledger, j.session).value
    requires Joins(a, j) && SessionOk(a, s) && s != ""
    ensures SessionOk(a.(ledger := l, running := a.running[run := j]), s)
  {
    if s in l.bindings {
      assert IsIdentity(l.bindings[s]);
    }
  }

  lemma EndKeepsSession(r: Router, a: App, run: nat, s: string)
    requires RouterOk(r) && RunningOk(r, a) && run in a.running && SessionOk(a, s) && s != ""
    ensures SessionOk(End(a, run), s)
  {
    var j := a.running[run];
    if s in a.ledger.bindings {
      EndKeepsBinding(r, a, run, s);
    }
    var b := End(a, run);
    if j.session == Some(s) {
      assert IsIdentity(j.domainId);
      assert b.ledger.bindings[s] == j.domainId && DoneOn(b.done, s) == DoneOn(a.done, s) + {j.domainId};
    } else {
      assert DoneOn(b.done, s) == DoneOn(a.done, s);
      assert s in b.ledger.bindings <==> s in a.ledger.bindings;
    }
  }

  lemma ForgetKeepsSession(a: App, session: string, keep: bool, s: string)
    requires SessionOk(a, s)
    ensures SessionOk(App(Forgotten(a.ledger, session, keep), a.calls, a.running, if keep then a.done else a.done - {session}), s)
  {
    var b := App(Forgotten(a.ledger, session, keep), a.calls, a.running, if keep then a.done else a.done - {session});
    if keep || session != s {
      assert DoneOn(b.done, s) == DoneOn(a.done, s);
    } else {
      assert DoneOn(b.done, s) == {};
    }
  }

  lemma NextKeepsSession(r: Router, a: App, step: Step, s: string)
    requires RouterOk(r) && RunningOk(r, a) && Proper(r, a, step) && Agrees(r, a, step)
    requires SessionOk(a, s) && s != ""
    ensures SessionOk(Next(r, a, step), s)
  {
    if IsCallStep(step) {
      CallStepsBindNothing(r, a, step);
      SameSession(a, Next(r, a, step), s);
    } else if step.BeginStep? {
      if step.run !in a.running {
        BegunFacts(r, a, step.run, step.q, step.named, step.s, step.latency);
        BegunKeepsSession(r, a, Next(r, a, step), step.run, s);
      }
    } else if step.EndStep? {
      if step.run in a.running {
        EndKeepsSession(r, a, step.run, s);
      }
    } else if step.ForgetStep? {
      ForgetKeepsSession(a, Strip(step.session), step.keepBinding, s);
    } else if step.ClearStep? {
      ForgetKeepsSession(a, Strip(step.session), false, s);
    }
  }

  /**
   As long as each run begins on the Domain its session's runs are on, a session stays on the
   one Domain it is bound to until it is forgotten.
   */
  lemma {:induction false} SessionStaysOnDomain(r: Router, a: App, steps: seq<Step>, s: string)
    requires RouterOk(r) && RunningOk(r, a) && AllProper(r, a, steps) && AllAgree(r, a, steps)
    requires SessionOk(a, s) && s != ""
    ensures SessionOk(Run(r, a, steps), s)
    decreases |steps|
  {
    if steps != [] {
      NextKeepsRunning(r, a, steps[0]);
      NextKeepsSession(r, a, steps[0], s);
      SessionStaysOnDomain(r, Next(r, a, steps[0]), steps[1..], s);
    }
  }

  lemma StartIsOk(r: Router, max: nat, s: string)
    ensures RunningOk(r, Start(max)) && SessionOk(Start(max), s)
  {
  }

  /** Then no run finds its session bound elsewhere when it ends. */
  lemma LoneRunBinds(r: Router, a: App, run: nat)
    requires RouterOk(r) && RunningOk(r, a) && run in a.running
    requires a.running[run].session.Some? ==> SessionOk(a, a.running[run].session.value)
    ensures Finish(a.ledger, a.running[run].session, a.running[run].domainId).1.Ok?
  {
  }

  // ---------------------------------------------------------------- overlapping runs

  ghost predicate OnOneDomain(a: App, s: string) {
    forall d, e | d in DoneOn(a.done, s) && e in DoneOn(a.done, s) :: d == e
  }

  lemma EndsAdd(a: App, j: nat, k: nat, s: string)
    requires j in a.running && k in a.running && j != k
    requires a.running[j].session == Some(s) && a.running[k].session == Some(s)
    ensures k in End(a, j).running
    ensures DoneOn(End(End(a, j), k).done, s) == DoneOn(a.done, s) + {a.running[j].domainId, a.running[k].domainId}
  {
    var b := End(a, j);
    assert b.running[k] == a.running[k];
    assert DoneOn(b.done, s) == DoneOn(a.done, s) + {a.running[j].domainId};
  }

  /**
   In any state in which a session is still on one Domain, a run that begins beside another of
   its runs and ends with it splits the session exactly when the two are on different Domains:
   the binding is checked when a run begins and written when it ends.
   */
  lemma JoiningDecides(r: Router, a: App, step: Step, k: nat, s: string)
    requires RouterOk(r) && RunningOk(r, a) && Proper(r, a, step) && SessionOk(a, s) && s != ""
    requires step.BeginStep? && step.run !in a.running && step.run in Next(r, a, step).running
    requires Next(r, a, step).running[step.run].session == Some(s)
    requires k in a.running && a.running[k].session == Some(s)
    ensures var b := Next(r, a, step);
            && k in b.running && step.run in End(b, k).running && Agrees(r, a, step) == Joins(a, b.running[step.run])
            && (OnOneDomain(End(End(b, k), step.run), s) <==> Agrees(r, a, step))
  {
    var b := Next(r, a, step);
    BeginAddsRun(r, a, step);
    EndsAdd(b, k, step.run, s);
    forall d | d in DoneOn(a.done, s)
      ensures d == a.running[k].domainId
    {
    }
  }

  /** Beginning a run leaves the others, what was done and the bindings alone. */
  lemma BeginAddsRun(r: Router, a: App, step: Step)
    requires step.BeginStep? && step.run !in a.running && step.run in Next(r, a, step).running
    ensures var b := Next(r, a, step);
            b.done == a.done && forall k | k in a.running :: k in b.running && b.running[k] == a.running[k]
  {
  }

  function ForDomain(session: string, domainId: string): Request {
    Request("?", Some(domainId), Given(session))
  }

  lemma AskIsVisible()
    ensures Strip("?") == "?" && Strip("") == ""
  {
    StripStable("?");
  }

  /** An evidenced run goes as far as the execution. */
  lemma EvidencedBegins(
    r: Router, a: App, run: nat, q: Request, session: Option<string>, named: string, s: Supply, l: Ledger, d: Decision)
    requires SessionOf(q.session, Some("default")) == Ok(session)
    requires Chosen(r, a.ledger, q, session, named, s) == (l, Ok(d)) && d.status == "selected"
    requires Evidenced(l, session, d, E.Absent)
    ensures Begin(r, a, run, q, named, s, E.Absent)
            == a.(ledger := l, running := a.running[run := Job(session, DomainOf(d))])
  {
  }

  /** A run for an explicitly named Domain, in a session that is not bound yet, is evidenced. */
  lemma ExplicitIsEvidenced(r: Router, l: Ledger, session: string, domainId: string, s: Supply) returns (d: Decision)
    requires RouterOk(r) && AppOk(r, l) && SupplyOk(r, l, s)
    requires BoundDomain(l, Some(session)).None? && Lower(Strip(domainId)) != "auto"
    requires Explicit(r, domainId, s).Ok?
    ensures Chosen(r, l, ForDomain(session, domainId), Some(session), "", s) == (WithDecision(l, d, Some(session)), Ok(d))
    ensures Explicit(r, domainId, s) == Ok(d) && d.decisionId == s.id && d.parent.None? && d.status == "selected"
    ensures AppOk(r, WithDecision(l, d, Some(session))) && Evidenced(WithDecision(l, d, Some(session)), Some(session), d, E.Absent)
  {
    d := Explicit(r, domainId, s).value;
    AskIsVisible();
    ExplicitIsRoutable(r, l, domainId, s);
    RoutedRunIsEvidenced(r, l, ForDomain(session, domainId), Some(session), s, E.Absent);
    RememberKeepsApp(r, l, d, Some(session));
  }

  lemma ExplicitBegins(r: Router, a: App, run: nat, session: string, domainId: string, s: Supply) returns (d: Decision)
    requires RouterOk(r) && AppOk(r, a.ledger) && SupplyOk(r, a.ledger, s) && session != "" && Strip(session) == session
    requires BoundDomain(a.ledger, Some(session)).None? && Lower(Strip(domainId)) != "auto"
    requires Explicit(r, domainId, s).Ok?
    ensures Begin(r, a, run, ForDomain(session, domainId), "", s, E.Absent)
            == a.(ledger := WithDecision(a.ledger, d, Some(session)), running := a.running[run := Job(Some(session), DomainOf(d))])
    ensures d.decisionId == s.id && d.parent.None? && DomainOf(d) == DomainOf(Explicit(r, domainId, s).value)
    ensures AppOk(r, WithDecision(a.ledger, d, Some(session)))
  {
    d := ExplicitIsEvidenced(r, a.ledger, session, domainId, s);
    EvidencedBegins(r, a, run, ForDomain(session, domainId), Some(session), "", s, WithDecision(a.ledger, d, Some(session)), d);
  }

  function FirstStep(session: string, one: string, s1: Supply): Step {
    BeginStep(0, ForDomain(session, one), "", s1, E.Absent)
  }

  function SecondStep(session: string, two: string, s2: Supply): Step {
    BeginStep(1, ForDomain(session, two), "", s2, E.Absent)
  }

  lemma BothBegin(r: Router, max: nat, session: string, one: string, two: string, s1: Supply, s2: Supply)
    requires RouterOk(r) && session != "" && Strip(session) == session && s1.id != s2.id
    requires Lower(Strip(one)) != "auto" && Lower(Strip(two)) != "auto"
    requires SupplyOk(r, Start(max).ledger, s1) && SupplyOk(r, Start(max).ledger, s2)
    requires Explicit(r, one, s1).Ok? && Explicit(r, two, s2).Ok?
    ensures var a1 := Begin(r, Start(max), 0, ForDomain(session, one), "", s1, E.Absent);
            var a2 := Begin(r, a1, 1, ForDomain(session, two), "", s2, E.Absent);
            && a1.calls == map[] && a1.running.Keys == {0}
            && SupplyOk(r, a1.ledger, s2) && a2.ledger.bindings == map[] && a2.done == map[]
            && a2.running == map[0 := Job(Some(session), DomainOf(Explicit(r, one, s1).value)),
                                 1 := Job(Some(session), DomainOf(Explicit(r, two, s2).value))]
  {
    StartIsOk(r, max, session);
    var d := ExplicitBegins(r, Start(max), 0, session, one, s1);
    var a1 := Begin(r, Start(max), 0, ForDomain(session, one), "", s1, E.Absent);
    StillFresh(r, max, d, session, s2);
    var d' := ExplicitBegins(r, a1, 1, session, two, s2);
  }

  lemma BeginIsProper(r: Router, a: App, run: nat, q: Request, s: Supply)
    requires a.calls == map[] && run !in a.running && SupplyOk(r, a.ledger, s)
    ensures Proper(r, a, BeginStep(run, q, "", s, E.Absent))
    ensures Next(r, a, BeginStep(run, q, "", s, E.Absent)) == Begin(r, a, run, q, "", s, E.Absent)
  {
  }

  /**
   The binding is checked when a run begins and written when it ends: two runs that overlap
   both complete, on two Domains, and only the first of them binds the session.
   */
  lemma OverlapSplitsSession(r: Router, max: nat, session: string, one: string, two: string, s1: Supply, s2: Supply)
    requires RouterOk(r) && session != "" && Strip(session) == session && s1.id != s2.id
    requires Lower(Strip(one)) != "auto" && Lower(Strip(two)) != "auto"
    requires SupplyOk(r, Start(max).ledger, s1) && SupplyOk(r, Start(max).ledger, s2)
    requires Explicit(r, one, s1).Ok? && Explicit(r, two, s2).Ok?
    requires DomainOf(Explicit(r, one, s1).value) != DomainOf(Explicit(r, two, s2).value)
    ensures var steps := [FirstStep(session, one, s1), SecondStep(session, two, s2), EndStep(0), EndStep(1)];
            var a := Run(r, Start(max), steps);
            && AllProper(r, Start(max), steps)
            && DoneOn(a.done, session) == {DomainOf(Explicit(r, one, s1).value), DomainOf(Explicit(r, two, s2).value)}
            && a.ledger.bindings == map[session := DomainOf(Explicit(r, one, s1).value)]
  {
    BothBegin(r, max, session, one, two, s1, s2);
    BeginIsProper(r, Start(max), 0, ForDomain(session, one), s1);
    BeginIsProper(r, Next(r, Start(max), FirstStep(session, one, s1)), 1, ForDomain(session, two), s2);
    TwoEnd(r, Start(max), FirstStep(session, one, s1), SecondStep(session, two, s2), session,
           DomainOf(Explicit(r, one, s1).value), DomainOf(Explicit(r, two, s2).value));
  }

  lemma TwoEnd(r: Router, a: App, b1: Step, b2: Step, s: string, one: string, two: string)
    requires Proper(r, a, b1) && Proper(r, Next(r, a, b1), b2) && s != "" && one != two && one != ""
    requires var a2 := Next(r, Next(r, a, b1), b2);
             && a2.running == map[0 := Job(Some(s), one), 1 := Job(Some(s), two)]
             && a2.ledger.bindings == map[] && a2.done == map[]
    ensures var steps := [b1, b2, EndStep(0), EndStep(1)];
            && AllProper(r, a, steps) && DoneOn(Run(r, a, steps).done, s) == {one, two}
            && Run(r, a, steps).ledger.bindings == map[s := one]
  {
    RunFour(r, a, b1, b2, EndStep(0), EndStep(1));
  }

  lemma StillFresh(r: Router, max: nat, d: Decision, session: string, s: Supply)
    requires SupplyOk(r, Start(max).ledger, s) && d.decisionId != s.id && d.parent.None?
    ensures SupplyOk(r, WithDecision(Start(max).ledger, d, Some(session)), s)
  {
    RememberedMembers(Start(max).ledger, d, Some(session));
  }

  lemma RunFour(r: Router, a: App, b1: Step, b2: Step, e1: Step, e2: Step)
    ensures Run(r, a, [b1, b2, e1, e2]) == Next(r, Next(r, Next(r, Next(r, a, b1), b2), e1), e2)
    ensures Proper(r, a, b1) && Proper(r, Next(r, a, b1), b2) && e1.EndStep? && e2.EndStep? ==>
              AllProper(r, a, [b1, b2, e1, e2])
  {
    assert [b1, b2, e1, e2][1..] == [b2, e1, e2] && [b2, e1, e2][1..] == [e1, e2] && [e1, e2][1..] == [e2] && [e2][1..] == [];
    var c := Next(r, Next(r, a, b1), b2);
    assert Run(r, c, [e1, e2]) == Run(r, Next(r, c, e1), [e2]) == Next(r, Next(r, c, e1), e2);
    assert Run(r, a, [b1, b2, e1, e2]) == Run(r, Next(r, a, b1), [b2, e1, e2]) == Run(r, c, [e1, e2]);
    assert e1.EndStep? && e2.EndStep? ==> AllProper(r, c, [e1, e2]);
  }

  // There is such a deployment.

  function TwoDomains(): Router {
    Router({"g", "t"}, {"g", "t"}, [Domain("g", "G", []), Domain("t", "T", [])])
  }

  function FreshSupply(id: string): Supply {
    Supply(id, seq(64, _ => 'a'), Err(SelectorInvalid))
  }

  lemma LetterIsPlain(s: string)
    requires |s| == 1 && 'a' <= s[0] <= 'z'
    ensures IsIdentity(s) && E.IsEvidenceId(s) && Lower(s) == s && Strip(s) == s
  {
    IdTextIsTrimStable(s, 96);
  }

  lemma TwoDomainsAreOk()
    ensures RouterOk(TwoDomains())
  {
    LetterIsPlain("g");
    LetterIsPlain("t");
  }

  lemma ListedIsExplicit(domainId: string, s: Supply)
    requires domainId in {"g", "t"}
    ensures Explicit(TwoDomains(), domainId, s).Ok? && DomainOf(Explicit(TwoDomains(), domainId, s).value) == domainId
    ensures Lower(Strip(domainId)) != "auto"
  {
    var r := TwoDomains();
    TwoDomainsAreOk();
    LetterIsPlain(domainId);
    SelectionFix(r.registry, Selection(domainId, "explicit"));
    assert r.domains[0].id == "g" && r.domains[1..][0].id == "t";
    assert DomainSelector.Entry(r, domainId).Some?;
  }

  lemma SupplyIsOk(max: nat, id: string)
    requires |id| == 1 && 'a' <= id[0] <= 'z'
    ensures SupplyOk(TwoDomains(), Start(max).ledger, FreshSupply(id))
  {
    LetterIsPlain(id);
  }

  /** In a deployment of two Domains, two overlapping runs of session `s` do complete on both. */
  lemma OverlapExists(max: nat)
    ensures var r, s1, s2 := TwoDomains(), FreshSupply("a"), FreshSupply("b");
            var steps := [FirstStep("s", "g", s1), SecondStep("s", "t", s2), EndStep(0), EndStep(1)];
            RouterOk(r) && AllProper(r, Start(max), steps) && DoneOn(Run(r, Start(max), steps).done, "s") == {"g", "t"}
  {
    TwoDomainsAreOk();
    LetterIsPlain("s");
    ListedIsExplicit("g", FreshSupply("a"));
    ListedIsExplicit("t", FreshSupply("b"));
    SupplyIsOk(max, "a");
    SupplyIsOk(max, "b");
    OverlapSplitsSession(TwoDomains(), max, "s", "g", "t", FreshSupply("a"), FreshSupply("b"));
  }
}
