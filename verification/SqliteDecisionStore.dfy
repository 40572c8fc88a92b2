/**
 The persistent decision store: any number of workers, each running get, resolve, consume
 or restore as separate statements (SELECT, clock read, UPDATE ... WHERE status and version,
 INSERT) that interleave freely.  A run is a sequence of scheduler choices.
 */
module SqliteDecisionStore {
  import opened Wrappers
  import opened DecisionLifecycle

  /** Key columns beside the serialized record. */
  datatype Row = Row(domainId: string, status: Status, version: int, payload: DecisionRecord)

  datatype Op =
    | Get
    | ResolveOp(choice: string, expected: Option<int>)
    | ConsumeOp(version: int)
    | RestoreOp(record: DecisionRecord)

  /** Where a worker stands between two of its statements. */
  datatype Pc =
    | Looking                                    // restore: about to SELECT the domain
    | Inserting                                  // restore: found no row, about to INSERT
    | Reading(retries: nat)                      // get: about to SELECT the payload
    | Checking(seen: DecisionRecord, retries: nat) // get: PENDING payload, about to read the clock
    | Stamping(seen: DecisionRecord, readAt: real, retries: nat)
    | Writing(kind: Kind, seen: DecisionRecord, next: DecisionRecord, readAt: real, retries: nat)
    | Deciding(seen: DecisionRecord, readAt: real) // get returned this record
    | Finished(outcome: Result<Option<DecisionRecord>, Code>)

  datatype Worker = Worker(op: Op, id: string, domainId: string, pc: Pc)

  datatype System = System(
    rows: map<string, Row>, clock: real, workers: map<nat, Worker>, log: seq<Write>)

  datatype Step =
    | Tick(to: real)
    | CreateStep(id: string, domainId: string, subject: Subject)
    | Begin(w: nat, op: Op, id: string, domainId: string)
    | Move(w: nat)

  function RowOf(r: DecisionRecord): Row {
    Row(r.domainId, r.status, r.version, r)
  }

  function Start(op: Op, id: string, domainId: string): Worker {
    match op
    case RestoreOp(r) =>
      if RecordOk(r) then Worker(op, r.decisionId, r.domainId, Looking)
      else Worker(op, r.decisionId, r.domainId, Finished(Err(RecordInvalid)))
    case _ => Worker(op, id, domainId, Reading(0))
  }

  /** The outcome when the SELECT finds nothing: plain get returns None, `_require` raises. */
  function Missing(op: Op, retries: nat): Result<Option<DecisionRecord>, Code> {
    if retries > 0 then Err(NotFound)
    else match op
      case Get => Ok(None)
      case RestoreOp(_) => Err(RestoreFailed)
      case _ => Err(NotFound)
  }

  /** resolve and consume after `_require`: refuse, or prepare the conditional UPDATE. */
  function Decide(op: Op, seen: DecisionRecord, readAt: real, now: real): Pc {
    match op
    case ResolveOp(choice, expected) =>
      if seen.status != PENDING then Finished(Err(NotPending))
      else if expected.Some? && seen.version != expected.value then Finished(Err(VersionMismatch))
      else (match NormalizeChoice(choice)
            case Err(e) => Finished(Err(e))
            case Ok(c) =>
              Writing(Resolve(c), seen, Updated(seen, ChoiceStatus(c), Some(ChoiceText(c)), now), readAt, 0))
    case ConsumeOp(expected) =>
      if seen.status != ACCEPTED then Finished(Err(NotAccepted))
      else if seen.version != expected then Finished(Err(VersionMismatch))
      else Writing(Consume, seen, Updated(seen, CONSUMED, None, now), readAt, 0)
    case _ => Finished(Ok(Some(seen)))
  }

  /** The WHERE clause of `_cas_update`. */
  predicate CasMatches(rows: map<string, Row>, seen: DecisionRecord) {
    && seen.decisionId in rows
    && rows[seen.decisionId].domainId == seen.domainId
    && rows[seen.decisionId].status == seen.status
    && rows[seen.decisionId].version == seen.version
  }

  function WithPc(s: System, w: nat, pc: Pc): System
    requires w in s.workers
  {
    s.(workers := s.workers[w := s.workers[w].(pc := pc)])
  }

  function Insert(s: System, kind: Kind, r: DecisionRecord): System {
    s.(rows := s.rows[r.decisionId := RowOf(r)],
       log := s.log + [Write(r.decisionId, kind, None, r, s.clock)])
  }

  /** A successful UPDATE; the log entry records what the writer built its record from. */
  function Store(s: System, kind: Kind, seen: DecisionRecord, next: DecisionRecord, readAt: real): System {
    s.(rows := s.rows[seen.decisionId := RowOf(next)],
       log := s.log + [Write(seen.decisionId, kind, Some(seen), next, readAt)])
  }

  function MoveWorker(s: System, w: nat): System
    requires w in s.workers
  {
    var k := s.workers[w];
    match k.pc
    case Looking =>
      if k.id !in s.rows then WithPc(s, w, Inserting)
      else if s.rows[k.id].domainId != k.domainId then WithPc(s, w, Finished(Err(DomainMismatch)))
      else WithPc(s, w, Reading(0))
    case Inserting =>
      if k.id in s.rows || !k.op.RestoreOp? then WithPc(s, w, Finished(Err(IdTaken)))
      else WithPc(Insert(s, Kind.Restore, k.op.record), w, Reading(0))
    case Reading(retries) =>
      if k.id in s.rows && s.rows[k.id].domainId == k.domainId then
        var seen := Reload(s.rows[k.id].payload);
        WithPc(s, w, if seen.status == PENDING then Checking(seen, retries) else Deciding(seen, s.clock))
      else WithPc(s, w, Finished(Missing(k.op, retries)))
    case Checking(seen, retries) =>
      WithPc(s, w, if ExpiredAt(seen, s.clock) then Stamping(seen, s.clock, retries) else Deciding(seen, s.clock))
    case Stamping(seen, readAt, retries) =>
      WithPc(s, w, Writing(Expire, seen, Updated(seen, EXPIRED, None, s.clock), readAt, retries))
    case Writing(kind, seen, next, readAt, retries) =>
      if CasMatches(s.rows, seen) then
        WithPc(Store(s, kind, seen, next, readAt), w,
               if kind == Expire then Deciding(next, readAt) else Finished(Ok(Some(next))))
      else
        WithPc(s, w, if kind == Expire then Reading(retries + 1) else Finished(Err(VersionMismatch)))
    case Deciding(seen, readAt) => WithPc(s, w, Decide(k.op, seen, readAt, s.clock))
    case Finished(_) => s
  }

  /** One scheduler choice; choices that are not enabled change nothing. */
  function Exec(s: System, step: Step): System {
    match step
    case Tick(to) => if s.clock <= to then s.(clock := to) else s
    case CreateStep(id, domainId, subject) =>
      if id in s.rows || !RequestOk(domainId, subject) then s
      else Insert(s, Kind.Create, NewRecord(id, domainId, subject, s.clock))
    case Begin(w, op, id, domainId) =>
      if w in s.workers && !s.workers[w].pc.Finished? then s
      else s.(workers := s.workers[w := Start(op, id, domainId)])
    case Move(w) => if w in s.workers then MoveWorker(s, w) else s
  }

  function Run(s: System, steps: seq<Step>): System
    decreases |steps|
  {
    if steps == [] then s else Exec(Run(s, steps[..|steps| - 1]), steps[|steps| - 1])
  }

  const EMPTY: System := System(map[], 0.0, map[], [])

  // ---------------------------------------------------------------- the invariant

  ghost predicate Normal(r: DecisionRecord) {
    && |r.subject.prompt| <= 320 && |r.subject.fingerprint| <= 160 && |r.subject.options| <= 8
    && forall i :: 0 <= i < |r.subject.options| ==> |r.subject.options[i]| <= 32
  }

  lemma ReloadNormal(r: DecisionRecord)
    ensures Normal(Reload(r)) && Reload(r).version != 0
    ensures Normal(r) ==> Reload(r) == r.(version := Reload(r).version)
  {
    if Normal(r) {
      assert Reload(r).subject.options == r.subject.options;
    }
  }

  /** What a worker once read for its id, compared with what a reader gets now. */
  ghost predicate Saw(rows: map<string, Row>, id: string, seen: DecisionRecord) {
    && id in rows && seen.decisionId == id && seen.domainId == rows[id].domainId && Normal(seen)
    && (seen.status in {PENDING, ACCEPTED} ==> seen.version != 0)
    && var now := Reload(rows[id].payload);
       && seen.version <= now.version
       && (seen.version == now.version ==> seen == now)
       && (seen.status == now.status == PENDING ==> seen == now)
  }

  /** An overdue PENDING row stored with version 0: readers see version 1, so no UPDATE matches it. */
  ghost predicate Stuck(rows: map<string, Row>, id: string, clock: real) {
    id in rows && rows[id].status == PENDING && rows[id].version == 0 && ExpiredAt(rows[id].payload, clock)
  }

  ghost predicate Settled(rows: map<string, Row>, id: string, clock: real) {
    id in rows && (rows[id].status != PENDING || Stuck(rows, id, clock))
  }

  ghost predicate WorkerOk(rows: map<string, Row>, clock: real, k: Worker) {
    && (k.op.RestoreOp? ==> k.id == k.op.record.decisionId && (!k.pc.Finished? ==> RecordOk(k.op.record)))
    && (k.pc.Inserting? || k.pc.Looking? ==> k.op.RestoreOp?)
    && (k.pc.Writing? && (k.op.RestoreOp? || k.op.Get?) ==> k.pc.kind == Expire)
    && (k.pc.Reading? ==> k.pc.retries > 0 ==> Settled(rows, k.id, clock))
    && (k.pc.Checking? ==> Saw(rows, k.id, k.pc.seen) && k.pc.seen.status == PENDING
                           && (k.pc.retries > 0 ==> Stuck(rows, k.id, clock)))
    && (k.pc.Stamping? ==> Saw(rows, k.id, k.pc.seen) && k.pc.seen.status == PENDING
                           && ExpiredAt(k.pc.seen, k.pc.readAt) && k.pc.readAt <= clock
                           && (k.pc.retries > 0 ==> Stuck(rows, k.id, clock)))
    && (k.pc.Writing? ==> Saw(rows, k.id, k.pc.seen) && Updates(k.pc.kind) && k.pc.readAt <= clock
                          && AtomicStep(k.pc.kind, Some(k.pc.seen), k.pc.next, k.pc.readAt)
                          && (k.pc.kind == Expire && k.pc.retries > 0 ==> Stuck(rows, k.id, clock)))
    && (k.pc.Deciding? ==> Saw(rows, k.id, k.pc.seen) && k.pc.readAt <= clock
                           && (k.pc.seen.status == PENDING ==> !ExpiredAt(k.pc.seen, k.pc.readAt)))
  }

  ghost predicate Inv(s: System) {
    && (forall id :: id in s.rows ==> s.rows[id] == RowOf(s.rows[id].payload) && s.rows[id].payload.decisionId == id)
    && (forall id :: Latest(s.log, id) == if id in s.rows then Some(s.rows[id].payload) else None)
    && IsPath(s.log)
    && (forall w :: w in s.workers ==> WorkerOk(s.rows, s.clock, s.workers[w]))
  }

  /** How far one table change may go: new rows, or one row moved on by an atomic step. */
  ghost predicate Grows(rows: map<string, Row>, rows': map<string, Row>) {
    forall id | id in rows :: id in rows' && RowGrows(rows[id], rows'[id])
  }

  ghost predicate RowGrows(row: Row, row': Row) {
    && row'.domainId == row.domainId
    && (row' != row ==>
          && row' == RowOf(row'.payload) && row.version != 0 && row'.status != PENDING
          && Reload(row'.payload).version > Reload(row.payload).version)
  }

  lemma GrowsKeepsWorker(rows: map<string, Row>, rows': map<string, Row>, clock: real, clock': real, k: Worker)
    requires Grows(rows, rows') && clock <= clock'
    requires WorkerOk(rows, clock, k)
    ensures WorkerOk(rows', clock', k)
  {
  }

  lemma InsertKeepsInv(s: System, kind: Kind, r: DecisionRecord)
    requires Inv(s) && r.decisionId !in s.rows
    requires AtomicStep(kind, None, r, s.clock)
    ensures Inv(Insert(s, kind, r)) && Grows(s.rows, Insert(s, kind, r).rows)
  {
    var s' := Insert(s, kind, r);
    assert s'.log[..|s'.log| - 1] == s.log;
    forall w | w in s'.workers ensures WorkerOk(s'.rows, s'.clock, s'.workers[w]) {
      GrowsKeepsWorker(s.rows, s'.rows, s.clock, s'.clock, s.workers[w]);
    }
  }

  /** The matching WHERE clause proves that the writer built on the current record. */
  lemma CasSeesCurrent(s: System, w: nat)
    requires Inv(s) && w in s.workers && s.workers[w].pc.Writing? && CasMatches(s.rows, s.workers[w].pc.seen)
    ensures var pc := s.workers[w].pc;
            && s.workers[w].id == pc.seen.decisionId && pc.seen.decisionId in s.rows
            && s.rows[pc.seen.decisionId].version != 0
            && ReadBack(Latest(s.log, pc.seen.decisionId)) == Some(pc.seen)
            && Reload(s.rows[pc.seen.decisionId].payload) == pc.seen
  {
  }

  /** One atomic step keeps the text limits, so the new payload reads back as written. */
  lemma StepReadsBack(kind: Kind, seen: DecisionRecord, next: DecisionRecord, readAt: real)
    requires Updates(kind) && Normal(seen) && seen.version != 0 && AtomicStep(kind, Some(seen), next, readAt)
    ensures next.decisionId == seen.decisionId && next.domainId == seen.domainId && next.status != PENDING
    ensures Normal(next) && Reload(next).version > seen.version
    ensures Reload(next) == next.(version := Reload(next).version)
    ensures next.status == ACCEPTED ==> seen.status == PENDING
  {
    ReloadNormal(next);
  }

  lemma StoreKeepsInv(s: System, w: nat)
    requires Inv(s) && w in s.workers && s.workers[w].pc.Writing? && CasMatches(s.rows, s.workers[w].pc.seen)
    ensures var pc := s.workers[w].pc;
            var s' := Store(s, pc.kind, pc.seen, pc.next, pc.readAt);
            && Inv(s') && Grows(s.rows, s'.rows)
            && (pc.kind == Expire ==> Saw(s'.rows, s.workers[w].id, pc.next))
  {
    var pc := s.workers[w].pc;
    var s' := Store(s, pc.kind, pc.seen, pc.next, pc.readAt);
    CasSeesCurrent(s, w);
    StepReadsBack(pc.kind, pc.seen, pc.next, pc.readAt);
    assert Grows(s.rows, s'.rows);
    forall v | v in s'.workers ensures WorkerOk(s'.rows, s'.clock, s'.workers[v]) {
      GrowsKeepsWorker(s.rows, s'.rows, s.clock, s'.clock, s.workers[v]);
    }
    assert s'.log[..|s'.log| - 1] == s.log;
  }

  lemma WithPcKeepsInv(s: System, w: nat, pc: Pc)
    requires Inv(s) && w in s.workers && WorkerOk(s.rows, s.clock, s.workers[w].(pc := pc))
    ensures Inv(WithPc(s, w, pc))
  {
  }

  lemma DecideOk(rows: map<string, Row>, clock: real, k: Worker)
    requires WorkerOk(rows, clock, k) && k.pc.Deciding?
    ensures WorkerOk(rows, clock, k.(pc := Decide(k.op, k.pc.seen, k.pc.readAt, clock)))
  {
    var seen := k.pc.seen;
    if k.op.ResolveOp? && NormalizeChoice(k.op.choice).Ok? && seen.status == PENDING {
      var c := NormalizeChoice(k.op.choice).value;
      assert AtomicStep(Resolve(c), Some(seen), Updated(seen, ChoiceStatus(c), Some(ChoiceText(c)), clock), k.pc.readAt);
    } else if k.op.ConsumeOp? && seen.status == ACCEPTED {
      assert AtomicStep(Consume, Some(seen), Updated(seen, CONSUMED, None, clock), k.pc.readAt);
    }
  }

  lemma SelectOk(s: System, w: nat)
    requires Inv(s) && w in s.workers && s.workers[w].pc.Reading?
    ensures Inv(MoveWorker(s, w))
  {
    var k := s.workers[w];
    if k.id in s.rows && s.rows[k.id].domainId == k.domainId {
      var seen := Reload(s.rows[k.id].payload);
      ReloadNormal(s.rows[k.id].payload);
      assert Saw(s.rows, k.id, seen);
      WithPcKeepsInv(s, w, if seen.status == PENDING then Checking(seen, k.pc.retries) else Deciding(seen, s.clock));
    }
  }

  lemma UpdateOk(s: System, w: nat)
    requires Inv(s) && w in s.workers && s.workers[w].pc.Writing?
    ensures Inv(MoveWorker(s, w)) && Grows(s.rows, MoveWorker(s, w).rows)
    ensures !CasMatches(s.rows, s.workers[w].pc.seen) ==> MoveWorker(s, w).rows == s.rows
  {
    var k := s.workers[w];
    var pc := k.pc;
    if CasMatches(s.rows, pc.seen) {
      StoreKeepsInv(s, w);
      var s' := Store(s, pc.kind, pc.seen, pc.next, pc.readAt);
      WithPcKeepsInv(s', w, if pc.kind == Expire then Deciding(pc.next, pc.readAt) else Finished(Ok(Some(pc.next))));
    } else if pc.kind == Expire {
      LostExpiry(s, w);
      WithPcKeepsInv(s, w, Reading(pc.retries + 1));
    }
  }

  /**
   When the expiry UPDATE is lost, someone else has already moved the row out of PENDING, so
   the retry cannot come back here; the one exception is an overdue row stored with version 0.
   */
  lemma LostExpiry(s: System, w: nat)
    requires Inv(s) && w in s.workers && s.workers[w].pc.Writing? && s.workers[w].pc.kind == Expire
    requires !CasMatches(s.rows, s.workers[w].pc.seen)
    ensures var id := s.workers[w].id;
            id in s.rows && (s.rows[id].status == PENDING <==> Stuck(s.rows, id, s.clock))
  {
  }

  lemma ClockOk(s: System, w: nat)
    requires Inv(s) && w in s.workers && (s.workers[w].pc.Checking? || s.workers[w].pc.Stamping?)
    ensures Inv(MoveWorker(s, w))
  {
    var pc := s.workers[w].pc;
    if pc.Checking? {
      WithPcKeepsInv(s, w, if ExpiredAt(pc.seen, s.clock) then Stamping(pc.seen, s.clock, pc.retries)
                           else Deciding(pc.seen, s.clock));
    } else {
      var next := Updated(pc.seen, EXPIRED, None, s.clock);
      assert AtomicStep(Expire, Some(pc.seen), next, pc.readAt);
      WithPcKeepsInv(s, w, Writing(Expire, pc.seen, next, pc.readAt, pc.retries));
    }
  }

  lemma RestoreInsertOk(s: System, w: nat)
    requires Inv(s) && w in s.workers && (s.workers[w].pc.Looking? || s.workers[w].pc.Inserting?)
    ensures Inv(MoveWorker(s, w)) && Grows(s.rows, MoveWorker(s, w).rows)
  {
    var k := s.workers[w];
    if k.pc.Inserting? && k.id !in s.rows {
      InsertKeepsInv(s, Kind.Restore, k.op.record);
      WithPcKeepsInv(Insert(s, Kind.Restore, k.op.record), w, Reading(0));
    }
  }

  lemma MoveKeepsInv(s: System, w: nat)
    requires Inv(s) && w in s.workers
    ensures Inv(MoveWorker(s, w)) && Grows(s.rows, MoveWorker(s, w).rows)
  {
    var k := s.workers[w];
    match k.pc
    case Looking => RestoreInsertOk(s, w);
    case Inserting => RestoreInsertOk(s, w);
    case Reading(_) => SelectOk(s, w);
    case Checking(_, _) => ClockOk(s, w);
    case Stamping(_, _, _) => ClockOk(s, w);
    case Writing(_, _, _, _, _) => UpdateOk(s, w);
    case Deciding(_, _) =>
      DecideOk(s.rows, s.clock, k);
      WithPcKeepsInv(s, w, Decide(k.op, k.pc.seen, k.pc.readAt, s.clock));
    case Finished(_) =>
  }

  lemma ExecKeepsInv(s: System, step: Step)
    requires Inv(s)
    ensures Inv(Exec(s, step)) && Grows(s.rows, Exec(s, step).rows)
  {
    match step
    case Tick(to) =>
      if s.clock <= to {
        forall w | w in s.workers ensures WorkerOk(s.rows, to, s.workers[w]) {
          GrowsKeepsWorker(s.rows, s.rows, s.clock, to, s.workers[w]);
        }
      }
    case CreateStep(id, domainId, subject) =>
      if id !in s.rows && RequestOk(domainId, subject) {
        InsertKeepsInv(s, Kind.Create, NewRecord(id, domainId, subject, s.clock));
      }
    case Begin(_, _, _, _) =>
    case Move(w) => if w in s.workers { MoveKeepsInv(s, w); }
  }

  lemma {:induction false} RunKeepsInv(steps: seq<Step>)
    ensures Inv(Run(EMPTY, steps))
    decreases |steps|
  {
    if steps != [] {
      RunKeepsInv(steps[..|steps| - 1]);
      ExecKeepsInv(Run(EMPTY, steps[..|steps| - 1]), steps[|steps| - 1]);
    }
  }

  // ---------------------------------------------------------------- what every run keeps

  /** The single write of a scheduler choice, measured against the row it starts from. */
  ghost predicate OneWrite(s: System, s': System, w: Write) {
    && s'.log == s.log + [w]
    && s'.rows == s.rows[w.id := RowOf(w.after)]
    && w.before == (if w.id in s.rows then Some(Reload(s.rows[w.id].payload)) else None)
    && AtomicStep(w.kind, w.before, w.after, w.readAt)
    && w.readAt <= s.clock
    && (w.id in s.rows ==> w.after.version == s.rows[w.id].version + 1)
  }

  lemma MoveIsOneWrite(s: System, w: nat)
    requires Inv(s) && w in s.workers
    ensures var s' := MoveWorker(s, w);
            (s'.rows == s.rows && s'.log == s.log) ||
            (|s'.log| == |s.log| + 1 && OneWrite(s, s', s'.log[|s.log|]))
  {
    var pc := s.workers[w].pc;
    if pc.Writing? && CasMatches(s.rows, pc.seen) {
      CasSeesCurrent(s, w);
    }
  }

  /**
   Refinement: in every reachable state, whatever statement of whatever worker runs next, the
   table either keeps every row or makes exactly one atomic transition of one decision, from
   the row's current status and version to the next version.  Settled rows never change.
   */
  lemma {:induction false} ExecRefinesAutomaton(s: System, step: Step)
    requires Inv(s)
    ensures var s' := Exec(s, step);
            (s'.rows == s.rows && s'.log == s.log) ||
            (|s'.log| == |s.log| + 1 && OneWrite(s, s', s'.log[|s.log|]))
    ensures var s' := Exec(s, step);
            forall id | id in s.rows && s.rows[id].status !in {PENDING, ACCEPTED} ::
              id in s'.rows && s'.rows[id] == s.rows[id]
  {
    if step.Move? && step.w in s.workers {
      MoveIsOneWrite(s, step.w);
    }
  }

  /**
   Every run from an empty table: the writes of any one decision form a path of the atomic
   automaton, the decision is in the table exactly when it has a write, and the row stores
   what the last write left.
   */
  lemma {:induction false} RunIsAPath(steps: seq<Step>, id: string)
    ensures var s := Run(EMPTY, steps);
            && IsPath(History(s.log, id))
            && (id in s.rows <==> History(s.log, id) != [])
            && (id in s.rows ==> Latest(History(s.log, id), id) == Some(s.rows[id].payload))
  {
    var s := Run(EMPTY, steps);
    RunKeepsInv(steps);
    HistoryIsPath(s.log, id);
    HistoryOwnId(s.log, id);
  }

  /** At most one resolve and one consume ever succeed on a created decision, under every interleaving. */
  lemma {:induction false} CreatedDecisionIsSafe(steps: seq<Step>, id: string)
    requires var h := History(Run(EMPTY, steps).log, id); h != [] && h[0].kind == Kind.Create
    ensures var s := Run(EMPTY, steps);
            && CreatedShape(History(s.log, id))
            && id in s.rows
            && s.rows[id].version == VersionOf(s.rows[id].status) == |History(s.log, id)|
  {
    RunKeepsInv(steps);
    RunIsAPath(steps, id);
    CreatedHistory(Run(EMPTY, steps).log, id);
  }

  // ---------------------------------------------------------------- termination of one operation

  /** Upper bound on the statements a worker still has to run when its row is not stuck. */
  function StepsLeft(pc: Pc): nat {
    match pc
    case Looking => 11
    case Inserting => 10
    case Reading(n) => if n == 0 then 9 else 4
    case Checking(_, n) => if n == 0 then 8 else 5
    case Stamping(_, _, _) => 7
    case Writing(kind, _, _, _, _) => if kind == Expire then 6 else 1
    case Deciding(_, _) => 2
    case Finished(_) => 0
  }

  lemma DecideIsNearlyDone(op: Op, seen: DecisionRecord, readAt: real, now: real)
    ensures StepsLeft(Decide(op, seen, readAt, now)) <= 1
  {
  }

  /**
   Unless its row is stuck, every statement a worker runs brings its operation closer to an
   answer, whatever the others have done meanwhile.
   */
  lemma EveryMoveCounts(s: System, w: nat)
    requires Inv(s) && w in s.workers && !s.workers[w].pc.Finished?
    requires !Stuck(s.rows, s.workers[w].id, s.clock)
    ensures StepsLeft(MoveWorker(s, w).workers[w].pc) < StepsLeft(s.workers[w].pc) <= 11
  {
    var k := s.workers[w];
    match k.pc
    case Writing(kind, seen, _, _, _) =>
      if kind == Expire && !CasMatches(s.rows, seen) {
        LostExpiry(s, w);
      }
    case Deciding(seen, readAt) => DecideIsNearlyDone(k.op, seen, readAt, s.clock);
    case Reading(_) =>
      if k.id in s.rows {
        ReloadNormal(s.rows[k.id].payload);
      }
    case _ =>
  }

  function MoveTimes(s: System, w: nat, n: nat): (s': System)
    requires w in s.workers
    ensures w in s'.workers
    decreases n
  {
    if n == 0 then s else MoveTimes(MoveWorker(s, w), w, n - 1)
  }

  /**
   The exception is real: a PENDING record restored with version 0 and past its deadline sends
   get back to its SELECT after every four statements, any number of times, with nothing changed.
   */
  lemma {:induction false} StuckRowNeverReturns(s: System, w: nat, rounds: nat)
    requires Inv(s) && w in s.workers && s.workers[w].pc.Reading?
    requires Stuck(s.rows, s.workers[w].id, s.clock) && s.rows[s.workers[w].id].domainId == s.workers[w].domainId
    ensures var s' := MoveTimes(s, w, 4 * rounds);
            && s'.rows == s.rows && s'.log == s.log
            && s'.workers[w].pc == Reading(s.workers[w].pc.retries + rounds)
    decreases rounds
  {
    if rounds > 0 {
      var s4 := StuckRound(s, w);
      var s1 := MoveWorker(s, w);
      var s2 := MoveWorker(s1, w);
      var s3 := MoveWorker(s2, w);
      StuckRowNeverReturns(s4, w, rounds - 1);
      assert MoveTimes(s3, w, 4 * rounds - 3) == MoveTimes(s4, w, 4 * rounds - 4);
      assert MoveTimes(s1, w, 4 * rounds - 1) == MoveTimes(s3, w, 4 * rounds - 3);
    }
  }

  /** One round: four statements that change nothing but the retry count. */
  lemma StuckRound(s: System, w: nat) returns (s4: System)
    requires Inv(s) && w in s.workers && s.workers[w].pc.Reading?
    requires Stuck(s.rows, s.workers[w].id, s.clock) && s.rows[s.workers[w].id].domainId == s.workers[w].domainId
    ensures s4 == MoveWorker(MoveWorker(MoveWorker(MoveWorker(s, w), w), w), w) && Inv(s4)
    ensures s4 == s.(workers := s4.workers) && s4.workers[w] == s.workers[w].(pc := Reading(s.workers[w].pc.retries + 1))
  {
    var s1 := MoveWorker(s, w);
    var s2 := MoveWorker(s1, w);
    var s3 := MoveWorker(s2, w);
    s4 := MoveWorker(s3, w);
    MoveKeepsInv(s, w);
    MoveKeepsInv(s1, w);
    MoveKeepsInv(s2, w);
    MoveKeepsInv(s3, w);
  }

  /** Only a restored record can get stuck: rows that entered through `create` never do. */
  lemma {:induction false} CreatedNeverSticks(steps: seq<Step>, id: string)
    requires var h := History(Run(EMPTY, steps).log, id); h != [] && h[0].kind == Kind.Create
    ensures !Stuck(Run(EMPTY, steps).rows, id, Run(EMPTY, steps).clock)
  {
    CreatedDecisionIsSafe(steps, id);
  }

  /** A restore never overwrites: on rows that exist it can at most expire an overdue one, like any reader. */
  lemma RestoreNeverOverwrites(s: System, w: nat, id: string)
    requires Inv(s) && w in s.workers && s.workers[w].op.RestoreOp? && id in s.rows
    ensures var rows' := MoveWorker(s, w).rows;
            && id in rows'
            && (rows'[id] == s.rows[id] ||
                (s.rows[id].status == PENDING && rows'[id].status == EXPIRED
                 && ExpiredAt(s.rows[id].payload, s.clock)))
  {
    var pc := s.workers[w].pc;
    if pc.Writing? && CasMatches(s.rows, pc.seen) {
      CasSeesCurrent(s, w);
    }
  }
}
