/** What the persistent store's calls answer and write, over whole runs of all the workers. */
module SqliteDecisionAnswers {
  import opened Wrappers
  import opened DecisionLifecycle
  import opened SqliteDecisionStore

  // ---------------------------------------------------------------- one worker

  /** What a worker of this call may write over what it has read. */
  ghost predicate WritesAsAsked(op: Op, kind: Kind, seen: DecisionRecord, next: DecisionRecord) {
    match kind
    case Expire => seen.status == PENDING && ExpiredAs(seen, next)
    case Resolve(c) =>
      && op.ResolveOp? && DecidedAs(seen, next, op.choice) && (c == Approve <==> Approves(op.choice))
      && seen.status == PENDING && (op.expected.Some? ==> seen.version == op.expected.value)
    case Consume =>
      && op.ConsumeOp? && ConsumedAs(seen, next) && seen.status == ACCEPTED && seen.version == op.version
    case _ => false
  }

  /** Somebody wrote this record for the decision, or it is such a record read back. */
  ghost predicate WasWritten(log: seq<Write>, id: string, r: DecisionRecord) {
    exists i | 0 <= i < |log| :: log[i].id == id && r in {log[i].after, Reload(log[i].after)}
  }

  /** The call's own write, made over a record of this decision. */
  ghost predicate Logged(log: seq<Write>, id: string, op: Op, r: DecisionRecord) {
    exists i | 0 <= i < |log| ::
      log[i].id == id && log[i].after == r && log[i].before.Some? && !log[i].kind.Expire?
      && WritesAsAsked(op, log[i].kind, log[i].before.value, r)
  }

  /** A record of the decision and the Domain the call names. */
  predicate Named(k: Worker, r: DecisionRecord) {
    r.decisionId == k.id && r.domainId == k.domainId
  }

  ghost predicate Answered(log: seq<Write>, k: Worker, answer: Option<DecisionRecord>) {
    match answer
    case None => k.op.Get?
    case Some(r) => Named(k, r) && WasWritten(log, k.id, r) && (k.op.ResolveOp? || k.op.ConsumeOp? ==> Logged(log, k.id, k.op, r))
  }

  ghost predicate Refused(k: Worker, e: Code) {
    && (e == ChoiceUnknown ==> k.op.ResolveOp? && !Approves(k.op.choice) && !Refuses(k.op.choice))
    && (e == NotAccepted ==> k.op.ConsumeOp?) && (e == NotPending ==> k.op.ResolveOp?)
  }

  /** A worker only holds, writes and answers with what its own call is about. */
  ghost predicate AsAsked(log: seq<Write>, k: Worker) {
    match k.pc
    case Checking(seen, _) => Named(k, seen) && WasWritten(log, k.id, seen)
    case Stamping(seen, _, _) => Named(k, seen)
    case Deciding(seen, _) => Named(k, seen) && WasWritten(log, k.id, seen)
    case Writing(kind, seen, next, _, _) => Named(k, seen) && WritesAsAsked(k.op, kind, seen, next)
    case Finished(Ok(answer)) => Answered(log, k, answer)
    case Finished(Err(e)) => Refused(k, e)
    case _ => true
  }

  ghost predicate AllAsAsked(s: System) {
    forall w | w in s.workers :: AsAsked(s.log, s.workers[w])
  }

  lemma WrittenStays(log: seq<Write>, more: seq<Write>, id: string, op: Op, r: DecisionRecord)
    requires log <= more
    ensures WasWritten(log, id, r) ==> WasWritten(more, id, r)
    ensures Logged(log, id, op, r) ==> Logged(more, id, op, r)
  {
    assert forall i | 0 <= i < |log| :: more[i] == log[i];
  }

  lemma AskedStays(log: seq<Write>, more: seq<Write>, k: Worker)
    requires AsAsked(log, k) && log <= more
    ensures AsAsked(more, k)
  {
    match k.pc
    case Checking(seen, _) => WrittenStays(log, more, k.id, k.op, seen);
    case Deciding(seen, _) => WrittenStays(log, more, k.id, k.op, seen);
    case Finished(Ok(Some(r))) => WrittenStays(log, more, k.id, k.op, r);
    case _ =>
  }

  lemma DecideAsAsked(log: seq<Write>, k: Worker, now: real)
    requires k.pc.Deciding? && AsAsked(log, k)
    ensures AsAsked(log, k.(pc := Decide(k.op, k.pc.seen, k.pc.readAt, now)))
  {
    if k.op.ResolveOp? {
      ChoiceMeans(k.op.choice, k.pc.seen, now);
    }
  }

  lemma {:induction false} LatestWasWritten(log: seq<Write>, id: string)
    requires Latest(log, id).Some?
    ensures WasWritten(log, id, Reload(Latest(log, id).value))
  {
    if log[|log| - 1].id != id {
      LatestWasWritten(log[..|log| - 1], id);
      WrittenStays(log[..|log| - 1], log, id, Op.Get, Reload(Latest(log, id).value));
    }
  }

  lemma SelectAsAsked(s: System, w: nat)
    requires Inv(s) && w in s.workers && s.workers[w].pc.Reading?
    ensures AsAsked(MoveWorker(s, w).log, MoveWorker(s, w).workers[w])
  {
    var k := s.workers[w];
    if k.id in s.rows {
      assert Latest(s.log, k.id) == Some(s.rows[k.id].payload);
      LatestWasWritten(s.log, k.id);
      ReloadMeans(s.rows[k.id].payload);
    }
  }

  lemma WriteAsAsked(s: System, w: nat)
    requires Inv(s) && w in s.workers && AsAsked(s.log, s.workers[w]) && s.workers[w].pc.Writing?
    ensures AsAsked(MoveWorker(s, w).log, MoveWorker(s, w).workers[w])
  {
    var k := s.workers[w];
    if CasMatches(s.rows, k.pc.seen) {
      var log := MoveWorker(s, w).log;
      assert log[|s.log|] == Write(k.id, k.pc.kind, Some(k.pc.seen), k.pc.next, k.pc.readAt);
    }
  }

  lemma MoveAsAsked(s: System, w: nat)
    requires Inv(s) && w in s.workers && AsAsked(s.log, s.workers[w])
    ensures AsAsked(MoveWorker(s, w).log, MoveWorker(s, w).workers[w])
  {
    var k := s.workers[w];
    match k.pc
    case Reading(_) => SelectAsAsked(s, w);
    case Deciding(_, _) => DecideAsAsked(s.log, k, s.clock);
    case Writing(_, _, _, _, _) => WriteAsAsked(s, w);
    case _ =>
  }

  lemma OtherAsAsked(s: System, step: Step, v: nat)
    requires AllAsAsked(s) && v in Exec(s, step).workers && step != Move(v)
    ensures AsAsked(Exec(s, step).log, Exec(s, step).workers[v])
  {
    assert s.log <= Exec(s, step).log;
    if v in s.workers && Exec(s, step).workers[v] == s.workers[v] {
      AskedStays(s.log, Exec(s, step).log, s.workers[v]);
    }
  }

  lemma ExecAsAsked(s: System, step: Step)
    requires Inv(s) && AllAsAsked(s)
    ensures AllAsAsked(Exec(s, step))
  {
    var s' := Exec(s, step);
    forall v | v in s'.workers
      ensures AsAsked(s'.log, s'.workers[v])
    {
      if step == Move(v) {
        MoveAsAsked(s, v);
      } else {
        OtherAsAsked(s, step, v);
      }
    }
  }

  lemma {:induction false} RunAsAsked(steps: seq<Step>)
    ensures AllAsAsked(Run(EMPTY, steps))
    decreases |steps|
  {
    if steps != [] {
      RunKeepsInv(steps[..|steps| - 1]);
      RunAsAsked(steps[..|steps| - 1]);
      ExecAsAsked(Run(EMPTY, steps[..|steps| - 1]), steps[|steps| - 1]);
    }
  }

  // ---------------------------------------------------------------- the calls, over every run

  /** The answer of a call that has finished with a record. */
  predicate AnsweredWith(s: System, w: nat, r: DecisionRecord) {
    w in s.workers && s.workers[w].pc == Finished(Ok(Some(r)))
  }

  /**
   Whatever the others do: a resolve that answers has written a record decided as its own words
   say, over a pending one of the version it expected.  With any other word it never answers.
   */
  lemma ResolvedAsAsked(steps: seq<Step>, w: nat, r: DecisionRecord)
    requires AnsweredWith(Run(EMPTY, steps), w, r) && Run(EMPTY, steps).workers[w].op.ResolveOp?
    ensures var s := Run(EMPTY, steps);
            var k := s.workers[w];
            && (Approves(k.op.choice) || Refuses(k.op.choice))
            && r.decisionId == k.id && r.domainId == k.domainId
            && (Refuses(k.op.choice) ==> r.status == REJECTED && r.selectedChoice == Some("reject"))
            && (Approves(k.op.choice) ==> r.status == ACCEPTED && r.selectedChoice == Some("approve"))
            && exists i | 0 <= i < |s.log| ::
                 && s.log[i].id == k.id && s.log[i].after == r && s.log[i].before.Some?
                 && s.log[i].before.value.status == PENDING && MovedOn(s.log[i].before.value, r)
                 && (k.op.expected.Some? ==> s.log[i].before.value.version == k.op.expected.value)
  {
    RunAsAsked(steps);
    assert AsAsked(Run(EMPTY, steps).log, Run(EMPTY, steps).workers[w]);
  }

  /** A consume that answers has written CONSUMED over an accepted record of the version it named. */
  lemma ConsumedAsAsked(steps: seq<Step>, w: nat, r: DecisionRecord)
    requires AnsweredWith(Run(EMPTY, steps), w, r) && Run(EMPTY, steps).workers[w].op.ConsumeOp?
    ensures var s := Run(EMPTY, steps);
            var k := s.workers[w];
            && r.decisionId == k.id && r.domainId == k.domainId && r.status == CONSUMED && r.version == k.op.version + 1
            && exists i | 0 <= i < |s.log| ::
                 && s.log[i].id == k.id && s.log[i].after == r && s.log[i].before.Some?
                 && s.log[i].before.value.status == ACCEPTED && MovedOn(s.log[i].before.value, r)
  {
    RunAsAsked(steps);
    assert AsAsked(Run(EMPTY, steps).log, Run(EMPTY, steps).workers[w]);
  }

  /** Every answer names the decision and the Domain asked for, and was written by somebody; only a plain read finds nothing. */
  lemma AnsweredAsAsked(steps: seq<Step>, w: nat, answer: Option<DecisionRecord>)
    requires w in Run(EMPTY, steps).workers && Run(EMPTY, steps).workers[w].pc == Finished(Ok(answer))
    ensures var s := Run(EMPTY, steps);
            var k := s.workers[w];
            match answer
            case None => k.op == Op.Get
            case Some(r) =>
              && r.decisionId == k.id && r.domainId == k.domainId
              && exists i | 0 <= i < |s.log| :: s.log[i].id == k.id && r in {s.log[i].after, Reload(s.log[i].after)}
  {
    RunAsAsked(steps);
    assert AsAsked(Run(EMPTY, steps).log, Run(EMPTY, steps).workers[w]);
  }

  /** The write, if any, that a scheduler choice adds. */
  function Added(s: System, step: Step): seq<Write> {
    if s.log <= Exec(s, step).log then Exec(s, step).log[|s.log|..] else []
  }

  lemma CreatedAsAsked(s: System, id: string, domainId: string, subject: Subject)
    ensures var step := CreateStep(id, domainId, subject);
            && Exec(s, step).log == s.log + Added(s, step) && |Added(s, step)| <= 1
            && forall e | e in Added(s, step) ::
                 && e.id == id && RequestOk(domainId, subject)
                 && e.after.decisionId == id && e.after.domainId == domainId
                 && e.after.status == PENDING && e.after.version == 1
                 && Shortened(subject.(createdAt := s.clock), e.after.subject, false)
  {
    NewRecordMeans(id, domainId, subject, s.clock);
  }

  lemma MovedAsAsked(s: System, w: nat)
    requires w in s.workers && AsAsked(s.log, s.workers[w])
    requires s.workers[w].pc.Inserting? ==> WorkerOk(s.rows, s.clock, s.workers[w])
    ensures |Added(s, Move(w))| <= 1 && Exec(s, Move(w)).log == s.log + Added(s, Move(w))
    ensures forall e | e in Added(s, Move(w)) ::
              && e.id == s.workers[w].id
              && (match e.before
                  case None => s.workers[w].op == RestoreOp(e.after)
                  case Some(seen) => WritesAsAsked(s.workers[w].op, e.kind, seen, e.after))
  {
    var k := s.workers[w];
    if k.pc.Writing? && CasMatches(s.rows, k.pc.seen) {
      assert Added(s, Move(w)) == [Write(k.id, k.pc.kind, Some(k.pc.seen), k.pc.next, k.pc.readAt)];
    } else if k.pc.Inserting? && k.id !in s.rows && k.op.RestoreOp? {
      assert Added(s, Move(w)) == [Write(k.id, Kind.Restore, None, k.op.record, s.clock)];
    }
  }

  /**
   What is ever written: a request as it was made, a record as it was restored, or what the
   worker's own call asks for.  A resolve with an unknown word can at most expire.
   */
  lemma WrittenAsAsked(steps: seq<Step>, step: Step)
    ensures var s := Run(EMPTY, steps);
            && Exec(s, step).log == s.log + Added(s, step) && |Added(s, step)| <= 1
            && forall e | e in Added(s, step) ::
                 match step
                 case CreateStep(id, domainId, subject) =>
                   && e.id == id && RequestOk(domainId, subject)
                   && e.after.decisionId == id && e.after.domainId == domainId
                   && e.after.status == PENDING && e.after.version == 1
                   && Shortened(subject.(createdAt := s.clock), e.after.subject, false)
                 case Move(w) =>
                   && w in s.workers && e.id == s.workers[w].id
                   && (match e.before
                       case None => s.workers[w].op == RestoreOp(e.after)
                       case Some(seen) => WritesAsAsked(s.workers[w].op, e.kind, seen, e.after))
                 case _ => false
  {
    var s := Run(EMPTY, steps);
    RunKeepsInv(steps);
    RunAsAsked(steps);
    match step
    case CreateStep(id, domainId, subject) => CreatedAsAsked(s, id, domainId, subject);
    case Move(w) =>
      if w in s.workers {
        MovedAsAsked(s, w);
      }
    case _ =>
  }

  /** A refusal for an unknown word is for an unknown word; being pending matters to a resolve, being accepted to a consume. */
  lemma RefusedAsAsked(steps: seq<Step>, w: nat, e: Code)
    requires w in Run(EMPTY, steps).workers && Run(EMPTY, steps).workers[w].pc == Finished(Err(e))
    ensures var op := Run(EMPTY, steps).workers[w].op;
            && (e == ChoiceUnknown ==> op.ResolveOp? && !Approves(op.choice) && !Refuses(op.choice))
            && (e == NotAccepted ==> op.ConsumeOp?) && (e == NotPending ==> op.ResolveOp?)
  {
    RunAsAsked(steps);
    assert AsAsked(Run(EMPTY, steps).log, Run(EMPTY, steps).workers[w]);
  }
}
