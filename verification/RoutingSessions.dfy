/**
 What the ledger's operations mean entry by entry, and that a session reads, overrides and runs
 only what was filed under it.
 */
module RoutingSessions {
  import opened Wrappers
  import opened Text
  import opened OrderedDict
  import opened RoutingDecision
  import opened DomainSelector
  import opened RoutingLedger
  import opened RoutingLedgerSafety
  import opened RoutingApplication
  import opened RoutingApplicationSafety
  import E = RoutingEvidence
  import Runs = RoutingApplicationRuns

  // ---------------------------------------------------------------- reading

  /** A read answers a decision if and only if an entry of that id, within the session, holds it. */
  lemma LookupMeans(d: Decisions, id: string, session: Option<string>, x: Decision)
    requires Distinct(d)
    ensures Lookup(d, id, session) == Some(x)
            <==> exists e | e in d :: e.key == id && e.value.decision == x && (session == None || e.value.session == session)
  {
    if e :| e in d && e.key == id {
      GetIsMember(d, id, e.value);
    }
    if Lookup(d, id, session) == Some(x) {
      assert Entry(id, Get(d, id).value) in d;
    }
  }

  lemma NothingThere(d: Decisions, id: string, session: Option<string>)
    requires Distinct(d) && forall e | e in d && e.key == id :: !(session == None || e.value.session == session)
    ensures Lookup(d, id, session) == None
  {
    if Lookup(d, id, session).Some? {
      LookupMeans(d, id, session, Lookup(d, id, session).value);
    }
  }

  /** A decision of the session whose parent is the subject. */
  predicate Answers(record: Record, subject: string, session: Option<string>) {
    (session == None || record.session == session) && record.decision.parent == Some(subject)
  }

  /** The child found is the newest one of the session; none is found exactly when there is none. */
  lemma {:induction false} ChildMeans(d: Decisions, subject: string, session: Option<string>)
    ensures match ChildIn(d, subject, session)
            case None => forall e | e in d :: !Answers(e.value, subject, session)
            case Some(record) =>
              exists i | 0 <= i < |d| ::
                && d[i].value == record && Answers(record, subject, session)
                && forall j | i < j < |d| :: !Answers(d[j].value, subject, session)
    decreases |d|
  {
    if d != [] {
      var init, last := d[..|d| - 1], d[|d| - 1];
      ChildMeans(init, subject, session);
      assert d == init + [last];
      if !Answers(last.value, subject, session) && ChildIn(init, subject, session).Some? {
        var record := ChildIn(init, subject, session).value;
        var i :| 0 <= i < |init| && init[i].value == record && Answers(record, subject, session)
          && forall j | i < j < |init| :: !Answers(init[j].value, subject, session);
        assert d[i] == init[i];
      } else if Answers(last.value, subject, session) {
        assert d[|d| - 1].value == last.value;
      }
    }
  }

  // ---------------------------------------------------------------- committing

  /** The receipt names subject, result, key and fingerprint as far as their widths allow. */
  predicate ReceiptOf(r: Receipt, subject: string, result: string, key: string, fingerprint: string) {
    && r.subjectId == Take(subject, 160) && r.resultId == Take(result, 160)
    && r.key == Take(key, 128) && r.fingerprint == Take(fingerprint, 160)
  }

  /** The Domains two decisions select are the same, or neither selects one. */
  predicate SameDomain(a: Decision, b: Decision) {
    match (a.selection, b.selection)
    case (Some(s), Some(t)) => s.domainId == t.domainId
    case (Some(s), None) => s.domainId == ""
    case (None, Some(t)) => t.domainId == ""
    case (None, None) => true
  }

  lemma SameDomainOf(a: Decision, b: Decision)
    ensures DomainOf(a) == DomainOf(b) <==> SameDomain(a, b)
  {
  }

  /**
   The first commit for a command whose key is free: without a child its own decision is filed
   under its session; an existing child is answered if it selects the same Domain, and any
   other Domain is a conflict.  A key another command holds is refused before all that.
   */
  lemma FirstCommitMeans(reg: Registry, l: Ledger, c: Command)
    requires forall e | e in l.receipts :: e.key != CommandKey(c.subjectId, c.action)
    ensures var (l', answer) := Commit(reg, l, c);
            var free := forall e | e in l.receipts :: e.value.key != c.key;
            && (!free ==> answer == Err(IdempotencyConflict) && l' == l)
            && (free && (forall e | e in l.decisions :: !Answers(e.value, c.subjectId, c.session)) ==>
                  && answer.Ok? && answer.value.created && answer.value.decision == c.decision
                  && l'.decisions == WithDecision(l, c.decision, c.session).decisions)
            && (forall child | free && ChildIn(l.decisions, c.subjectId, c.session) == Some(child) && Resolve(reg, child.decision).Ok? ::
                  if SameDomain(Resolve(reg, child.decision).value, c.decision)
                  then answer.Ok? && !answer.value.created && answer.value.decision == Resolve(reg, child.decision).value
                       && l'.decisions == l.decisions
                  else answer == Err(RevisionConflict) && l' == l)
            && (answer.Ok? ==>
                  && ReceiptOf(answer.value.receipt, c.subjectId, answer.value.decision.decisionId, c.key, c.fingerprint)
                  && !answer.value.receipt.reused && l'.bindings == l.bindings)
  {
    ChildMeans(l.decisions, c.subjectId, c.session);
    if ChildIn(l.decisions, c.subjectId, c.session).Some? {
      var child := ChildIn(l.decisions, c.subjectId, c.session).value;
      assert exists i | 0 <= i < |l.decisions| :: l.decisions[i].value == child && l.decisions[i] in l.decisions;
      if Resolve(reg, child.decision).Ok? {
        SameDomainOf(Resolve(reg, child.decision).value, c.decision);
      }
    }
  }

  /** A repeated command is answered from its receipt, and only with the key and fingerprint stored there. */
  lemma RepeatedCommitMeans(reg: Registry, l: Ledger, c: Command, receipt: Receipt)
    requires Distinct(l.receipts) && Entry(CommandKey(c.subjectId, c.action), receipt) in l.receipts
    ensures var (l', answer) := Commit(reg, l, c);
            && l' == l
            && (answer.Ok? ==>
                  && c.key == receipt.key && c.fingerprint == receipt.fingerprint && !answer.value.created
                  && (exists e | e in l.decisions :: e.key == receipt.resultId && e.value.decision == answer.value.decision)
                  && ReceiptOf(answer.value.receipt, receipt.subjectId, receipt.resultId, receipt.key, receipt.fingerprint)
                  && answer.value.receipt.reused)
            && (c.key != receipt.key || c.fingerprint != receipt.fingerprint ==> answer == Err(RevisionConflict))
            && (c.key == receipt.key && c.fingerprint == receipt.fingerprint ==>
                  (answer == Err(ResultMissing) <==> forall e | e in l.decisions :: e.key != receipt.resultId)
                  && (answer.Err? ==> answer.error == ResultMissing))
  {
    GetIsMember(l.receipts, CommandKey(c.subjectId, c.action), receipt);
    if Get(l.decisions, receipt.resultId).Some? {
      assert Entry(receipt.resultId, Get(l.decisions, receipt.resultId).value) in l.decisions;
    }
  }

  // ---------------------------------------------------------------- binding

  /** The session is bound to a Domain. */
  predicate IsBound(l: Ledger, s: string, domainId: string) {
    s in l.bindings && l.bindings[s] == domainId && domainId != ""
  }

  /** A session binds to its first Domain for good: the same again is fine, another is refused, and nobody else is touched. */
  lemma BindMeans(l: Ledger, s: string, domainId: string)
    requires s != ""
    ensures var r := Bound(l, s, domainId);
            && (r.Err? <==> exists other: string :: IsBound(l, s, other) && other != domainId)
            && (r.Ok? ==>
                  && r.value.decisions == l.decisions && r.value.receipts == l.receipts
                  && s in r.value.bindings && r.value.bindings[s] == domainId
                  && forall t | t != s :: (t in r.value.bindings <==> t in l.bindings)
                                          && (t in l.bindings ==> r.value.bindings[t] == l.bindings[t]))
    ensures forall d: string :: BoundDomain(l, Some(s)) == Some(d) <==> IsBound(l, s, d)
  {
    if s in l.bindings {
      assert l.bindings[s] != "" ==> IsBound(l, s, l.bindings[s]);
    }
  }

  // ---------------------------------------------------------------- a session and what is filed under it

  /** Above the decision a lineage is about, everything is filed where its session may read it. */
  lemma {:induction false} LineageIsOfSession(
    d: Decisions, session: Option<string>, current: Decision, room: nat, seen: set<string>)
    requires Distinct(d)
    ensures var values := LineageOf(d, session, current, room, seen);
            forall i | 0 <= i < |values| - 1 ::
              exists e | e in d :: e.value.decision == values[i] && (session == None || e.value.session == session)
    decreases room
  {
    if room > 0 && current.parent.Some? {
      var found := Lookup(d, current.parent.value, session);
      if found.Some? {
        LookupMeans(d, current.parent.value, session, found.value);
        LineageIsOfSession(d, session, found.value, room - 1, seen + {current.decisionId});
        LineageEnds(d, session, found.value, room - 1, seen + {current.decisionId});
      }
    }
  }

  lemma LineageEnds(d: Decisions, session: Option<string>, current: Decision, room: nat, seen: set<string>)
    ensures var values := LineageOf(d, session, current, room, seen);
            values != [] ==> values[|values| - 1] == current
  {
  }

  /** An id that no entry of the session has. */
  ghost predicate Foreign(l: Ledger, id: string, s: string) {
    forall e | e in l.decisions && e.key == id :: e.value.session != Some(s)
  }

  /** An override of what another session filed finds nothing and changes nothing. */
  lemma ForeignOverride(r: Router, l: Ledger, subject: string, text: string, gate: Option<Checked>, id: string)
    requires Distinct(l.decisions) && Strip(text) != "" && Foreign(l, subject, Strip(text))
    ensures Overridden(r, l, subject, Given(text), gate, id) == (l, Err(DecisionNotFound))
  {
    NothingThere(l.decisions, subject, Some(Strip(text)));
  }

  /** Neither does a run that names it. */
  lemma ForeignRun(r: Router, l: Ledger, q: Request, named: string, s: Supply, latency: E.Reading)
    requires Distinct(l.decisions) && q.session.Given? && Strip(q.session.text) != "" && Strip(named) != ""
    requires Foreign(l, Strip(named), Strip(q.session.text))
    ensures Prepare(r, l, q, named, s, latency) == (l, Err(DecisionNotFound))
  {
    NothingThere(l.decisions, Strip(named), Some(Strip(q.session.text)));
  }

  /** In every reachable state: no session gets at the decisions of another. */
  lemma SessionsAreApart(
    r: Router, max: nat, steps: seq<Runs.Step>, id: string, text: string, call: nat, run: nat, q: Request, s: Supply, latency: E.Reading)
    requires RouterOk(r) && Runs.AllProper(r, Runs.Start(max), steps)
    requires Strip(text) != "" && Foreign(Runs.Run(r, Runs.Start(max), steps).ledger, id, Strip(text))
    requires Strip(id) == id && id != "" && q.session == Given(text)
    ensures var a := Runs.Run(r, Runs.Start(max), steps);
            && Runs.Next(r, a, Runs.AskStep(call, id, Given(text))) == a
            && Runs.Next(r, a, Runs.BeginStep(run, q, id, s, latency)) == a
            && Prepare(r, a.ledger, q, id, s, latency).1 == Err(DecisionNotFound)
  {
    var a := Runs.Run(r, Runs.Start(max), steps);
    Runs.StartIsOk(r, max, "s");
    Runs.RunKeepsApp(r, Runs.Start(max), steps);
    NothingThere(a.ledger.decisions, id, Some(Strip(text)));
    ForeignRun(r, a.ledger, q, id, s, latency);
  }

  // ---------------------------------------------------------------- what a run executes

  /**
   A run that names a decision executes only what its own session filed under that id: a
   selected decision, read back, on the Domain the session is bound to if it is bound.
   */
  lemma NamedRunIsOwn(r: Router, l: Ledger, q: Request, named: string, s: Supply, latency: E.Reading)
    requires Distinct(l.decisions) && Strip(named) != ""
    ensures var (l', p) := Prepare(r, l, q, named, s, latency);
            && l' == l
            && (p.Ok? && p.value.Execute? ==>
                  var (session, d) := (p.value.session, p.value.decision);
                  && d.status == "selected"
                  && (exists e | e in l.decisions ::
                        && e.key == Strip(named) && (session == None || e.value.session == session)
                        && Resolve(r.registry, e.value.decision) == Ok(d))
                  && (session.Some? ==> forall other: string | IsBound(l, session.value, other) && session.value != "" ::
                        d.selection.Some? ==> d.selection.value.domainId == other))
            && (p.Ok? ==> p.value.Execute?)
  {
    var session := SessionOf(q.session, Some("default"));
    if session.Ok? && Lookup(l.decisions, Strip(named), session.value).Some? {
      LookupMeans(l.decisions, Strip(named), session.value, Lookup(l.decisions, Strip(named), session.value).value);
    }
  }

  /** The decision is a fresh root for this request on one enabled Domain, and says how that was found. */
  predicate MadeFor(r: Router, d: Decision, s: Supply, domainId: string, source: string, reason: string, selector: string) {
    && d.decisionId == s.id && d.parent.None? && d.status == "selected" && d.fingerprint == s.fingerprint
    && d.selection == Some(Selection(domainId, source)) && domainId in r.enabled
    && d.reasonCode == reason && d.selectorId == selector
    && |d.candidates| == 1 && d.candidates[0].domainId == domainId
  }

  lemma SourceWords()
    ensures Lower(Strip("explicit")) == "explicit" && Lower(Strip("restored")) == "restored"
  {
    StripStable("explicit");
    StripStable("restored");
    assert Lower("explicit") == "explicit" && Lower("restored") == "restored";
  }

  lemma EnabledMeans(r: Router, domainId: string, source: string)
    requires Enabled(r, domainId, source).Ok? && Lower(Strip(source)) == source
    ensures var (sel, entry) := Enabled(r, domainId, source).value;
            sel == Selection(Lower(Strip(domainId)), source) && sel.domainId in r.enabled && entry.id == sel.domainId
  {
  }

  /**
   A bound session is routed to its own Domain whatever the request names; otherwise a named
   Domain is taken as named, and only without one, or with "auto", does the selector decide.
   */
  lemma RouteMeans(r: Router, l: Ledger, q: Request, session: Option<string>, s: Supply)
    requires Routed(r, l, q, session, s).Ok?
    ensures var d := Routed(r, l, q, session, s).value;
            && Strip(q.text) != ""
            && (if exists x: string, b: string :: session == Some(x) && x != "" && IsBound(l, x, b)
                then MadeFor(r, d, s, Lower(Strip(l.bindings[session.value])), "restored", "session_domain_restored", "persistence.v1")
                else if q.domainId.Some? && Lower(Strip(q.domainId.value)) != "auto"
                then MadeFor(r, d, s, Lower(Strip(q.domainId.value)), "explicit", "explicit_domain_selection", "explicit.v1")
                else s.selected == Ok(d) && d.fingerprint == s.fingerprint)
  {
    SourceWords();
    var bound := BoundDomain(l, session);
    if bound.Some? {
      assert IsBound(l, session.value, bound.value);
      EnabledMeans(r, bound.value, "restored");
    } else if q.domainId.Some? && Lower(Strip(q.domainId.value)) != "auto" {
      EnabledMeans(r, q.domainId.value, "explicit");
    }
  }
}
