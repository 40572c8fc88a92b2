/** The reference store: one dictionary of records behind one lock. */
module InMemoryDecisionStore {
  import opened Wrappers
  import opened DecisionLifecycle
  import Sqlite = SqliteDecisionStore

  /** `_expire`: a deadline of 0 counts as none, and `resolved_at` is left alone. */
  function Expired(r: DecisionRecord, now: real): DecisionRecord {
    if r.status == PENDING && r.subject.expiresAt.Some? && r.subject.expiresAt.value != 0.0
       && r.subject.expiresAt.value <= now
    then r.(status := EXPIRED, version := r.version + 1)
    else r
  }

  /** The record in reach of one domain. */
  function Find(records: map<string, DecisionRecord>, id: string, domainId: string): Option<DecisionRecord> {
    if id in records && records[id].domainId == domainId then Some(records[id]) else None
  }

  /** What resolve answers for an already expired-or-kept record. */
  function Resolved(r: DecisionRecord, choice: string, expected: Option<int>, now: real): Result<DecisionRecord, Code> {
    if r.status != PENDING then Err(NotPending)
    else if expected.Some? && r.version != expected.value then Err(VersionMismatch)
    else
      var c :- NormalizeChoice(choice);
      Ok(Updated(r, ChoiceStatus(c), Some(ChoiceText(c)), now))
  }

  function Consumed(r: DecisionRecord, expected: int, now: real): Result<DecisionRecord, Code> {
    if r.status != ACCEPTED then Err(NotAccepted)
    else if r.version != expected then Err(VersionMismatch)
    else Ok(Updated(r, CONSUMED, None, now))
  }

  /** The whole resolve call, seen from outside the lock. */
  function ResolveOutcome(
    records: map<string, DecisionRecord>, id: string, domainId: string,
    choice: string, expected: Option<int>, now: real
  ): Result<DecisionRecord, Code> {
    match Find(records, id, domainId)
    case None => Err(NotFound)
    case Some(r) => Resolved(Expired(r, now), choice, expected, now)
  }

  /** What `resolve` leaves behind. */
  function Answered(records: map<string, DecisionRecord>, id: string, domainId: string, choice: string, expected: Option<int>, now: real)
    : map<string, DecisionRecord>
  {
    match Find(records, id, domainId)
    case None => records
    case Some(r) =>
      var outcome := ResolveOutcome(records, id, domainId, choice, expected, now);
      records[id := if outcome.Ok? then outcome.value else Expired(r, now)]
  }

  /** What `consume` leaves behind. */
  function Used(records: map<string, DecisionRecord>, id: string, domainId: string, expected: int, now: real)
    : map<string, DecisionRecord>
  {
    match Find(records, id, domainId)
    case None => records
    case Some(r) => if Consumed(r, expected, now).Ok? then records[id := Consumed(r, expected, now).value] else records
  }

  /** Every record is filed under its own id. */
  ghost predicate Filed(records: map<string, DecisionRecord>) {
    forall id | id in records :: records[id].decisionId == id
  }

  class InMemoryDecisionStore {
    var records: map<string, DecisionRecord>

    constructor ()
      ensures records == map[] && Filed(records)
    {
      records := map[];
    }

    /** `id` stands for the fresh UUID. */
    method Create(id: string, domainId: string, subject: Subject, now: real)
      returns (r: Result<DecisionRecord, Code>)
      requires Filed(records) && id !in records
      modifies this
      ensures Filed(records)
      ensures r.Ok? <==> RequestOk(domainId, subject)
      ensures r.Ok? ==> AtomicStep(Kind.Create, None, r.value, now) && records == old(records)[id := r.value]
      ensures r.Ok? ==> r.value.decisionId == id && r.value.domainId == domainId
      ensures r.Ok? ==> Shortened(subject.(createdAt := now), r.value.subject, false)
      ensures r.Err? ==> r.error == RequestInvalid && records == old(records)
    {
      if !RequestOk(domainId, subject) {
        return Err(RequestInvalid);
      }
      var record := NewRecord(id, domainId, subject, now);
      records := records[id := record];
      return Ok(record);
    }

    /** Unlike the SQLite adapter, this overwrites whatever was there. */
    method Restore(record: DecisionRecord) returns (r: Result<DecisionRecord, Code>)
      requires Filed(records)
      modifies this
      ensures Filed(records)
      ensures r.Ok? <==> RecordOk(record)
      ensures r.Ok? ==> r.value == record && records == old(records)[record.decisionId := record]
      ensures r.Err? ==> r.error == RecordInvalid && records == old(records)
    {
      if !RecordOk(record) {
        return Err(RecordInvalid);
      }
      records := records[record.decisionId := record];
      return Ok(record);
    }

    method Get(id: string, domainId: string, now: real) returns (r: Option<DecisionRecord>)
      requires Filed(records)
      modifies this
      ensures Filed(records)
      ensures Find(old(records), id, domainId).None? ==> r.None? && records == old(records)
      ensures Find(old(records), id, domainId).Some? ==>
                r == Some(Expired(old(records)[id], now)) && records == old(records)[id := r.value]
    {
      if id !in records || records[id].domainId != domainId {
        return None;
      }
      var record := Expire(records[id], now);
      return Some(record);
    }

    method Expire(record: DecisionRecord, now: real) returns (r: DecisionRecord)
      requires Filed(records) && record.decisionId in records && records[record.decisionId] == record
      modifies this
      ensures r == Expired(record, now)
      ensures records == old(records)[record.decisionId := r]
      ensures Filed(records)
    {
      r := record;
      if record.status == PENDING && record.subject.expiresAt.Some?
         && record.subject.expiresAt.value != 0.0 && record.subject.expiresAt.value <= now {
        r := record.(status := EXPIRED, version := record.version + 1);
        records := records[record.decisionId := r];
      }
    }

    /** An overdue record is expired even when the call then refuses. */
    method Resolve(id: string, domainId: string, choice: string, expected: Option<int>, now: real)
      returns (r: Result<DecisionRecord, Code>)
      requires Filed(records)
      modifies this
      ensures Filed(records)
      ensures r == ResolveOutcome(old(records), id, domainId, choice, expected, now)
      ensures records == Answered(old(records), id, domainId, choice, expected, now)
      ensures r.Ok? ==> !ExpiredAt(r.value, now) || r.value.subject.expiresAt == Some(0.0)
    {
      if id !in records || records[id].domainId != domainId {
        return Err(NotFound);
      }
      var record := Expire(records[id], now);
      if record.status != PENDING {
        return Err(NotPending);
      }
      if expected.Some? && record.version != expected.value {
        return Err(VersionMismatch);
      }
      var c :- NormalizeChoice(choice);
      var updated := Updated(record, ChoiceStatus(c), Some(ChoiceText(c)), now);
      records := records[id := updated];
      return Ok(updated);
    }

    method Consume(id: string, domainId: string, expected: int, now: real)
      returns (r: Result<DecisionRecord, Code>)
      requires Filed(records)
      modifies this
      ensures Filed(records)
      ensures r == match Find(old(records), id, domainId)
                   case None => Err(NotFound)
                   case Some(record) => Consumed(record, expected, now)
      ensures records == Used(old(records), id, domainId, expected, now)
    {
      if id !in records || records[id].domainId != domainId {
        return Err(NotFound);
      }
      var record := records[id];
      if record.status != ACCEPTED {
        return Err(NotAccepted);
      }
      if record.version != expected {
        return Err(VersionMismatch);
      }
      var updated := Updated(record, CONSUMED, None, now);
      records := records[id := updated];
      return Ok(updated);
    }
  }

  // ---------------------------------------------------------------- what the calls answer

  /** Overdue for this adapter: a deadline of 0 counts as none. */
  predicate Overdue(r: DecisionRecord, now: real) {
    r.status == PENDING && Due(r, now) && r.subject.expiresAt != Some(0.0)
  }

  /** A choice can be taken: a live record of the expected version, within reach of the domain. */
  predicate Open(records: map<string, DecisionRecord>, id: string, domainId: string, expected: Option<int>, now: real) {
    && id in records && records[id].domainId == domainId
    && records[id].status == PENDING && !Overdue(records[id], now)
    && (expected == None || expected == Some(records[id].version))
  }

  /**
   A resolve succeeds exactly on an open record and with a known word, and then records what
   the word says: a refusal is never filed as an approval.  Any other word leaves an open
   record alone; an overdue one is filed as expired, and nothing else ever changes.
   */
  lemma ResolveMeans(
    records: map<string, DecisionRecord>, id: string, domainId: string, choice: string, expected: Option<int>, now: real)
    ensures var answer := ResolveOutcome(records, id, domainId, choice, expected, now);
            var after := Answered(records, id, domainId, choice, expected, now);
            && (answer.Ok? <==> Open(records, id, domainId, expected, now) && (Approves(choice) || Refuses(choice)))
            && (answer.Ok? ==> DecidedAs(records[id], answer.value, choice) && answer.value.resolvedAt == Some(now)
                               && after == records[id := answer.value])
            && (Open(records, id, domainId, expected, now) && !Approves(choice) && !Refuses(choice) ==>
                  answer == Err(ChoiceUnknown) && after == records)
            && (answer.Err? && after != records ==>
                  && id in records && Overdue(records[id], now)
                  && id in after && ExpiredAs(records[id], after[id]) && after == records[id := after[id]])
  {
    if id in records && records[id].domainId == domainId {
      ChoiceMeans(choice, records[id], now);
      assert records[id := records[id]] == records;
    }
  }

  /** A consume succeeds exactly on the accepted record of the expected version, and moves it on. */
  lemma ConsumeMeans(records: map<string, DecisionRecord>, id: string, domainId: string, expected: int, now: real)
    ensures var after := Used(records, id, domainId, expected, now);
            if id in records && records[id].domainId == domainId && records[id].status == ACCEPTED && records[id].version == expected
            then id in after && ConsumedAs(records[id], after[id]) && after == records[id := after[id]]
            else after == records
  {
  }

  // ---------------------------------------------------------------- the two adapters side by side

  /** Equal up to `resolved_at`, which only the SQLite adapter stamps on expiry. */
  ghost predicate SameAnswer(a: Result<DecisionRecord, Code>, b: Result<Option<DecisionRecord>, Code>) {
    match a
    case Err(e) => b == Err(e)
    case Ok(r) => b.Ok? && b.value.Some? && b.value.value == r.(resolvedAt := b.value.value.resolvedAt)
  }

  /** Statements a solo SQLite resolve runs on this record. */
  function SoloSteps(r: DecisionRecord, choice: string, expected: Option<int>, now: real): nat {
    if r.status != PENDING then 2
    else if ExpiredAt(r, now) then 5
    else if Resolved(r, choice, expected, now).Ok? then 4
    else 3
  }

  /** A worker about to resolve `records[id]`, which both adapters hold in the same readable form. */
  ghost predicate SideBySide(
    s: Sqlite.System, w: nat, choice: string, expected: Option<int>, records: map<string, DecisionRecord>)
  {
    && w in s.workers
    && s.workers[w].pc == Sqlite.Reading(0) && s.workers[w].op == Sqlite.ResolveOp(choice, expected)
    && var k := s.workers[w];
       && k.id in s.rows && k.id in records && s.rows[k.id] == Sqlite.RowOf(records[k.id])
       && records[k.id].domainId == k.domainId && records[k.id].decisionId == k.id
       && Sqlite.Normal(records[k.id]) && records[k.id].version != 0
  }

  /** The state after the SELECT. */
  lemma SoloRead(s: Sqlite.System, w: nat, choice: string, expected: Option<int>, records: map<string, DecisionRecord>)
    requires SideBySide(s, w, choice, expected, records)
    ensures var r := records[s.workers[w].id];
            Sqlite.MoveWorker(s, w)
            == Sqlite.WithPc(s, w, if r.status == PENDING then Sqlite.Checking(r, 0) else Sqlite.Deciding(r, s.clock))
  {
    Sqlite.ReloadNormal(records[s.workers[w].id]);
  }

  lemma {:induction false} MoveTimesAdd(s: Sqlite.System, w: nat, m: nat, n: nat)
    requires w in s.workers
    ensures Sqlite.MoveTimes(s, w, m + n) == Sqlite.MoveTimes(Sqlite.MoveTimes(s, w, m), w, n)
    decreases m
  {
    if m > 0 {
      MoveTimesAdd(Sqlite.MoveWorker(s, w), w, m - 1, n);
    }
  }

  /** The state after clock read, decision and, where there is one, UPDATE of a live record. */
  lemma SoloResolve(s: Sqlite.System, w: nat, r: DecisionRecord, choice: string, expected: Option<int>)
    requires w in s.workers && s.workers[w].pc == Sqlite.Checking(r, 0) && Sqlite.CasMatches(s.rows, r)
    requires s.workers[w].op == Sqlite.ResolveOp(choice, expected)
    requires r.status == PENDING && !ExpiredAt(r, s.clock)
    ensures var answer := Resolved(r, choice, expected, s.clock);
            var s' := Sqlite.MoveTimes(s, w, if answer.Ok? then 3 else 2);
            s'.workers[w].pc
            == Sqlite.Finished(match answer case Ok(x) => Ok(Some(x)) case Err(e) => Err(e))
  {
    var s1 := Sqlite.MoveWorker(s, w);
    var s2 := Sqlite.MoveWorker(s1, w);
    if Resolved(r, choice, expected, s.clock).Ok? {
      assert Sqlite.MoveTimes(s, w, 3) == Sqlite.MoveTimes(s1, w, 2) == Sqlite.MoveTimes(s2, w, 1);
    } else {
      assert Sqlite.MoveTimes(s, w, 2) == Sqlite.MoveTimes(s1, w, 1);
    }
  }

  /** The one case the adapters read differently: memory ignores a deadline of 0, SQLite has passed it. */
  predicate ZeroDeadline(r: DecisionRecord, now: real) {
    r.status == PENDING && r.subject.expiresAt == Some(0.0) && now >= 0.0
  }

  /**
   Run alone on a readable row, the statement-by-statement SQLite resolve gives the answer of
   the locked in-memory resolve, if and only if the record is not pending with a deadline of 0.
   */
  lemma {:induction false} AdaptersAgree(
    s: Sqlite.System, w: nat, choice: string, expected: Option<int>, records: map<string, DecisionRecord>)
    requires SideBySide(s, w, choice, expected, records)
    ensures var k := s.workers[w];
            var s' := Sqlite.MoveTimes(s, w, SoloSteps(records[k.id], choice, expected, s.clock));
            && s'.workers[w].pc.Finished?
            && (SameAnswer(ResolveOutcome(records, k.id, k.domainId, choice, expected, s.clock), s'.workers[w].pc.outcome)
                <==> !ZeroDeadline(records[k.id], s.clock))
  {
    var r := records[s.workers[w].id];
    SoloRead(s, w, choice, expected, records);
    var n := SoloSteps(r, choice, expected, s.clock);
    MoveTimesAdd(s, w, 1, n - 1);
    var s1 := Sqlite.MoveTimes(s, w, 1);
    assert s1 == Sqlite.MoveWorker(s, w);
    if r.status != PENDING {
      assert Sqlite.MoveTimes(s1, w, 1) == Sqlite.MoveWorker(s1, w);
    } else if ExpiredAt(r, s.clock) {
      MoveTimesAdd(s1, w, 3, 1);
      var s4 := Sqlite.MoveTimes(s1, w, 3);
      assert Sqlite.MoveTimes(s4, w, 1) == Sqlite.MoveWorker(s4, w);
    } else {
      SoloResolve(s1, w, r, choice, expected);
      assert Expired(r, s.clock) == r;
    }
  }
}
