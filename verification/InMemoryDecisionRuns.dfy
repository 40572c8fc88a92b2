/**
 The in-memory store under concurrent callers.  Every call holds the lock throughout, except
 `get`, which reads under it and expires what it read after letting go.
 */
module InMemoryDecisionRuns {
  import opened Wrappers
  import opened Text
  import opened DecisionLifecycle
  import opened InMemoryDecisionStore

  type Records = map<string, DecisionRecord>

  /** A `get` that has read its record, or has found it overdue and is about to file it as expired. */
  datatype Reader = Looked(seen: DecisionRecord) | Late(seen: DecisionRecord)

  datatype Memory = Memory(records: Records, clock: real, readers: map<nat, Reader>)

  datatype Step =
    | Create(id: string, domainId: string, subject: Subject)
    | Ask(reader: nat, id: string, domainId: string)
    | Look(reader: nat)
    | Store(reader: nat)
    | Answer(id: string, domainId: string, choice: string, expected: Option<int>)
    | Use(id: string, domainId: string, version: int)
    | Tick(now: real)

  /** An expired record, whenever it was found overdue. */
  function Overdue(r: DecisionRecord): DecisionRecord {
    r.(status := EXPIRED, version := r.version + 1)
  }

  function Next(s: Memory, step: Step): Memory {
    match step
    case Create(id, domainId, subject) =>
      if id in s.records || !RequestOk(domainId, subject) then s
      else s.(records := s.records[id := NewRecord(id, domainId, subject, s.clock)])
    case Ask(w, id, domainId) =>
      if w in s.readers || Find(s.records, id, domainId).None? then s
      else s.(readers := s.readers[w := Looked(s.records[id])])
    case Look(w) =>
      if w !in s.readers || s.readers[w].Late? then s
      else
        var r := s.readers[w].seen;
        s.(readers := if Expired(r, s.clock) == r then s.readers - {w} else s.readers[w := Late(r)])
    case Store(w) =>
      if w !in s.readers || s.readers[w].Looked? then s
      else
        var r := s.readers[w].seen;
        s.(records := s.records[r.decisionId := Overdue(r)], readers := s.readers - {w})
    case Answer(id, domainId, choice, expected) => s.(records := Answered(s.records, id, domainId, choice, expected, s.clock))
    case Use(id, domainId, expected) => s.(records := Used(s.records, id, domainId, expected, s.clock))
    case Tick(now) => if now < s.clock then s else s.(clock := now)
  }

  function Run(s: Memory, steps: seq<Step>): Memory
    decreases |steps|
  {
    if steps == [] then s else Run(Next(s, steps[0]), steps[1..])
  }

  function Start(now: real): Memory {
    Memory(map[], now, map[])
  }

  /** The steps of a `get`, with nothing in between, do what the method does. */
  lemma GetAlone(s: Memory, w: nat, id: string, domainId: string)
    requires Filed(s.records) && w !in s.readers
    ensures Run(s, [Ask(w, id, domainId), Look(w), Store(w)] + [])
            == match Find(s.records, id, domainId)
               case None => s
               case Some(r) => s.(records := s.records[id := Expired(r, s.clock)])
  {
    RunThree(s, Ask(w, id, domainId), Look(w), Store(w), []);
    if Find(s.records, id, domainId).Some? {
      var r := s.records[id];
      assert s.readers[w := Looked(r)] - {w} == s.readers && s.readers[w := Looked(r)][w := Late(r)] - {w} == s.readers;
      assert s.records[id := r] == s.records;
    }
  }

  // ---------------------------------------------------------------- what readers hold

  predicate IsDecided(status: Status) {
    status in {ACCEPTED, REJECTED, CONSUMED}
  }

  /** The row a reader read pending is still that, has been found overdue, or has been decided. */
  predicate Follows(row: DecisionRecord, seen: DecisionRecord) {
    seen.status == PENDING ==> row == seen || row == Overdue(seen) || IsDecided(row.status)
  }

  ghost predicate ReaderOk(records: Records, reader: Reader) {
    && reader.seen.decisionId in records && Follows(records[reader.seen.decisionId], reader.seen)
    && (reader.Late? ==> reader.seen.status == PENDING && HasDeadline(reader.seen))
  }

  predicate HasDeadline(r: DecisionRecord) {
    r.subject.expiresAt.Some? && r.subject.expiresAt.value != 0.0
  }

  ghost predicate Inv(s: Memory) {
    && Filed(s.records)
    && (forall w | w in s.readers :: ReaderOk(s.records, s.readers[w]))
    && (forall v, w | v in s.readers && w in s.readers && s.readers[v].seen.decisionId == s.readers[w].seen.decisionId
                      && s.readers[v].seen.status == PENDING && s.readers[w].seen.status == PENDING ::
          s.readers[v].seen == s.readers[w].seen)
  }

  /** One row moves on: found overdue or decided while pending, or decided once more. */
  lemma RowKeepsInv(s: Memory, id: string, row: DecisionRecord)
    requires Inv(s) && row.decisionId == id
    requires id in s.records ==>
               row == s.records[id] || (s.records[id].status == PENDING && row == Overdue(s.records[id])) || IsDecided(row.status)
    ensures Inv(s.(records := s.records[id := row]))
  {
  }

  lemma AnsweredRow(records: Records, id: string, domainId: string, choice: string, expected: Option<int>, now: real)
    requires Filed(records) && Find(records, id, domainId).Some?
    ensures var row := Answered(records, id, domainId, choice, expected, now)[id];
            && Answered(records, id, domainId, choice, expected, now) == records[id := row] && row.decisionId == id
            && (row == records[id] || (records[id].status == PENDING && row == Overdue(records[id])) || IsDecided(row.status))
  {
  }

  lemma StoreKeepsInv(s: Memory, w: nat)
    requires Inv(s) && w in s.readers && s.readers[w].Late?
    ensures Inv(Next(s, Store(w)))
  {
  }

  lemma NextKeepsInv(s: Memory, step: Step)
    requires Inv(s)
    ensures Inv(Next(s, step))
  {
    match step
    case Create(id, domainId, subject) => RowKeepsInv(s, id, if id in s.records then s.records[id] else NewRecord(id, domainId, subject, s.clock));
    case Store(w) =>
      if w in s.readers && s.readers[w].Late? {
        StoreKeepsInv(s, w);
      }
    case Answer(id, domainId, choice, expected) =>
      if Find(s.records, id, domainId).Some? {
        AnsweredRow(s.records, id, domainId, choice, expected, s.clock);
        RowKeepsInv(s, id, Next(s, step).records[id]);
      }
    case Use(id, domainId, version) =>
      if Find(s.records, id, domainId).Some? {
        RowKeepsInv(s, id, Next(s, step).records[id]);
      }
    case _ =>
  }

  lemma {:induction false} RunKeepsInv(s: Memory, steps: seq<Step>)
    requires Inv(s)
    ensures Inv(Run(s, steps))
    decreases |steps|
  {
    if steps != [] {
      NextKeepsInv(s, steps[0]);
      RunKeepsInv(Next(s, steps[0]), steps[1..]);
    }
  }

  // ---------------------------------------------------------------- when an answer is lost

  /** An entry's next state keeps what was settled: unchanged, or accepted and now consumed. */
  predicate Keeps(before: DecisionRecord, after: DecisionRecord) {
    before.status == PENDING || after == before
    || (before.status == ACCEPTED && after.status == CONSUMED && after.version == before.version + 1)
  }

  ghost predicate KeepsSettled(s: Memory, step: Step) {
    forall id | id in s.records :: id in Next(s, step).records && Keeps(s.records[id], Next(s, step).records[id])
  }

  /** The step files as expired a decision that has been decided since it was read. */
  predicate Loses(s: Memory, step: Step) {
    && step.Store? && step.reader in s.readers && s.readers[step.reader].Late?
    && s.readers[step.reader].seen.decisionId in s.records
    && IsDecided(s.records[s.readers[step.reader].seen.decisionId].status)
  }

  /**
   In every reachable state a step keeps everything settled, exactly unless it is the late
   write of a `get` whose decision was decided after it was read.
   */
  lemma OnlyLateGetsLose(s: Memory, step: Step)
    requires Inv(s)
    ensures KeepsSettled(s, step) <==> !Loses(s, step)
    ensures Loses(s, step) ==>
              var seen := s.readers[step.reader].seen;
              && Next(s, step).records[seen.decisionId] == Overdue(seen)
              && seen.status == PENDING && HasDeadline(seen)
  {
    if Loses(s, step) {
      var id := s.readers[step.reader].seen.decisionId;
      assert !Keeps(s.records[id], Next(s, step).records[id]);
    }
  }

  // ---------------------------------------------------------------- who is safe

  /** No decision has a deadline. */
  predicate Undated(s: Memory) {
    && (forall id | id in s.records :: !HasDeadline(s.records[id]))
    && (forall w | w in s.readers :: !HasDeadline(s.readers[w].seen) && s.readers[w].Looked?)
  }

  predicate UndatedStep(step: Step) {
    step.Create? ==> step.subject.expiresAt.None? || step.subject.expiresAt.value == 0.0
  }

  lemma NextStaysUndated(s: Memory, step: Step)
    requires Undated(s) && UndatedStep(step)
    ensures Undated(Next(s, step)) && !Loses(s, step)
  {
  }

  ghost predicate NeverLoses(s: Memory, steps: seq<Step>)
    decreases |steps|
  {
    steps == [] || (!Loses(s, steps[0]) && NeverLoses(Next(s, steps[0]), steps[1..]))
  }

  /** Without deadlines no answer is ever lost, whatever overlaps. */
  lemma {:induction false} UndatedNeverLoses(s: Memory, steps: seq<Step>)
    requires Undated(s) && forall step | step in steps :: UndatedStep(step)
    ensures NeverLoses(s, steps)
    decreases |steps|
  {
    if steps != [] {
      assert steps[0] in steps;
      NextStaysUndated(s, steps[0]);
      UndatedNeverLoses(Next(s, steps[0]), steps[1..]);
    }
  }

  // ---------------------------------------------------------------- a lost answer

  /** One caller reads, another approves in time ... */
  function Approval(id: string, domainId: string, subject: Subject): seq<Step> {
    [Step.Create(id, domainId, subject), Ask(0, id, domainId), Answer(id, domainId, "approve", Some(1))]
  }

  /** ... then the deadline passes, and the first one files what it read. */
  function LateWrite(deadline: real): seq<Step> {
    [Tick(deadline), Look(0), Store(0)]
  }

  lemma ApproveIsApprove()
    ensures NormalizeChoice("approve") == Ok(Approve)
  {
    StripStable("approve");
    assert Lower("approve") == "approve";
  }

  lemma RunOne(s: Memory, a: Step, rest: seq<Step>)
    ensures Run(s, [a] + rest) == Run(Next(s, a), rest)
    ensures NeverLoses(s, [a] + rest) <==> !Loses(s, a) && NeverLoses(Next(s, a), rest)
  {
    assert ([a] + rest)[1..] == rest;
  }

  lemma RunThree(s: Memory, a: Step, b: Step, c: Step, rest: seq<Step>)
    ensures Run(s, [a, b, c] + rest) == Run(Next(Next(Next(s, a), b), c), rest)
    ensures NeverLoses(s, [a, b, c] + rest) ==>
              !Loses(Next(Next(s, a), b), c) && NeverLoses(Next(Next(Next(s, a), b), c), rest)
  {
    assert [a, b, c] + rest == [a] + ([b, c] + rest) && [b, c] + rest == [b] + ([c] + rest);
    RunOne(s, a, [b, c] + rest);
    RunOne(Next(s, a), b, [c] + rest);
    RunOne(Next(Next(s, a), b), c, rest);
  }

  lemma ApprovalIsAnswered(now: real, id: string, domainId: string, subject: Subject, deadline: real)
    requires RequestOk(domainId, subject) && subject.expiresAt == Some(deadline) && deadline != 0.0 && now < deadline
    ensures var r := NewRecord(id, domainId, subject, now);
            Run(Start(now), Approval(id, domainId, subject))
            == Memory(map[id := Updated(r, ACCEPTED, Some("approve"), now)], now, map[0 := Looked(r)])
  {
    ApproveIsApprove();
    var r := NewRecord(id, domainId, subject, now);
    RunThree(Start(now), Step.Create(id, domainId, subject), Ask(0, id, domainId), Answer(id, domainId, "approve", Some(1)), []);
    assert Approval(id, domainId, subject) + [] == Approval(id, domainId, subject);
    assert Next(Start(now), Step.Create(id, domainId, subject)) == Memory(map[id := r], now, map[]);
    assert Resolved(r, "approve", Some(1), now) == Ok(Updated(r, ACCEPTED, Some("approve"), now));
  }

  lemma LateWriteLoses(s: Memory, r: DecisionRecord, deadline: real)
    requires r.status == PENDING && r.subject.expiresAt == Some(deadline) && deadline != 0.0 && s.clock < deadline
    requires s.readers == map[0 := Looked(r)] && r.decisionId in s.records && IsDecided(s.records[r.decisionId].status)
    ensures Run(s, LateWrite(deadline)).records == s.records[r.decisionId := Overdue(r)]
    ensures Run(s, LateWrite(deadline)).clock == deadline && !NeverLoses(s, LateWrite(deadline))
  {
    RunThree(s, Tick(deadline), Look(0), Store(0), []);
    assert LateWrite(deadline) + [] == LateWrite(deadline);
    assert Next(Next(s, Tick(deadline)), Look(0)).readers == map[0 := Late(r)];
  }

  /**
   The approval of a dated decision is answered with version 2, and then lost to EXPIRED of the
   same version: what was approved can no longer be consumed.
   */
  lemma ApprovalIsLost(now: real, id: string, domainId: string, subject: Subject, deadline: real)
    requires RequestOk(domainId, subject) && subject.expiresAt == Some(deadline) && deadline != 0.0 && now < deadline
    ensures var answered := Run(Start(now), Approval(id, domainId, subject));
            var end := Run(answered, LateWrite(deadline));
            && !NeverLoses(answered, LateWrite(deadline))
            && id in answered.records && answered.records[id].status == ACCEPTED && answered.records[id].version == 2
            && id in end.records && end.records[id].status == EXPIRED && end.records[id].version == 2
            && Used(end.records, id, domainId, 2, deadline) == end.records
  {
    ApprovalIsAnswered(now, id, domainId, subject, deadline);
    LateWriteLoses(Run(Start(now), Approval(id, domainId, subject)), NewRecord(id, domainId, subject, now), deadline);
  }
}
