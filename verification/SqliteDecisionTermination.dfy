/** Termination of the persistent store's calls, over whole schedules of all the workers. */
module SqliteDecisionTermination {
  import opened Wrappers
  import opened DecisionLifecycle
  import opened SqliteDecisionStore

  // ---------------------------------------------------------------- every call returns

  /** How many of these scheduler choices go to worker `w`. */
  function MovesOf(steps: seq<Step>, w: nat): nat {
    if steps == [] then 0
    else MovesOf(steps[..|steps| - 1], w) + if steps[|steps| - 1] == Move(w) then 1 else 0
  }

  predicate Returned(s: System, w: nat) {
    w in s.workers && s.workers[w].pc.Finished?
  }

  /** Along the schedule the row is never overdue PENDING with version 0. */
  ghost predicate NeverStuck(s: System, steps: seq<Step>, id: string) {
    forall n | 0 <= n <= |steps| :: !Stuck(Run(s, steps[..n]).rows, id, Run(s, steps[..n]).clock)
  }

  ghost predicate NeverReturned(s: System, steps: seq<Step>, w: nat) {
    forall n | 0 <= n <= |steps| :: !Returned(Run(s, steps[..n]), w)
  }

  lemma PrefixOfPrefix(s: System, steps: seq<Step>, w: nat, id: string)
    requires steps != []
    ensures NeverStuck(s, steps, id) ==> NeverStuck(s, steps[..|steps| - 1], id)
    ensures NeverReturned(s, steps, w) ==> NeverReturned(s, steps[..|steps| - 1], w)
  {
    var init := steps[..|steps| - 1];
    assert forall n | 0 <= n <= |init| :: init[..n] == steps[..n];
  }

  /** Only its own moves advance a call; a busy worker cannot be given another. */
  lemma OthersLeaveWorker(s: System, step: Step, w: nat)
    requires w in s.workers && !s.workers[w].pc.Finished? && step != Move(w)
    ensures w in Exec(s, step).workers && Exec(s, step).workers[w] == s.workers[w]
  {
  }

  lemma OwnMoveKeepsCall(s: System, w: nat)
    requires w in s.workers
    ensures w in MoveWorker(s, w).workers && MoveWorker(s, w).workers[w].id == s.workers[w].id
  {
  }

  lemma {:induction false} RunFromKeepsInv(s: System, steps: seq<Step>)
    requires Inv(s)
    ensures Inv(Run(s, steps))
    decreases |steps|
  {
    if steps != [] {
      RunFromKeepsInv(s, steps[..|steps| - 1]);
      ExecKeepsInv(Run(s, steps[..|steps| - 1]), steps[|steps| - 1]);
    }
  }

  /** Each of its moves takes an unfinished call one statement closer to its end. */
  lemma {:induction false} CallAdvances(s: System, steps: seq<Step>, w: nat)
    requires Inv(s) && w in s.workers && NeverStuck(s, steps, s.workers[w].id) && NeverReturned(s, steps, w)
    ensures var t := Run(s, steps);
            && w in t.workers && t.workers[w].id == s.workers[w].id
            && StepsLeft(t.workers[w].pc) + MovesOf(steps, w) <= StepsLeft(s.workers[w].pc)
    decreases |steps|
  {
    if steps != [] {
      var init, step := steps[..|steps| - 1], steps[|steps| - 1];
      PrefixOfPrefix(s, steps, w, s.workers[w].id);
      CallAdvances(s, init, w);
      RunFromKeepsInv(s, init);
      var t := Run(s, init);
      assert !Returned(Run(s, steps[..|init|]), w) && !Stuck(Run(s, steps[..|init|]).rows, s.workers[w].id, Run(s, steps[..|init|]).clock);
      if step == Move(w) {
        EveryMoveCounts(t, w);
        OwnMoveKeepsCall(t, w);
      } else {
        OthersLeaveWorker(t, step, w);
      }
    }
  }

  lemma CallEnds(from: Pc, to: Pc, moves: nat)
    requires StepsLeft(to) + moves <= StepsLeft(from) && moves >= 11
    ensures to.Finished?
  {
  }

  lemma NotYetReturned(s: System, steps: seq<Step>, w: nat)
    requires NeverReturned(s, steps, w)
    ensures !Returned(Run(s, steps), w)
  {
    assert steps[..|steps|] == steps;
  }

  /**
   Whatever the other workers do in between, a call whose row is never stuck has returned by
   its eleventh statement.
   */
  lemma EveryCallReturns(s: System, steps: seq<Step>, w: nat)
    requires Inv(s) && w in s.workers && NeverStuck(s, steps, s.workers[w].id) && MovesOf(steps, w) >= 11
    ensures exists n | 0 <= n <= |steps| :: Returned(Run(s, steps[..n]), w)
  {
    if NeverReturned(s, steps, w) {
      CallAdvances(s, steps, w);
      CallEnds(s.workers[w].pc, Run(s, steps).workers[w].pc, MovesOf(steps, w));
      NotYetReturned(s, steps, w);
    }
  }

  // ---------------------------------------------------------------- a condition on what is restored

  /** A record no restore should supply otherwise: PENDING, with a deadline, and without a version. */
  predicate Versioned(r: DecisionRecord) {
    r.status == PENDING && r.subject.expiresAt.Some? ==> r.version != 0
  }

  predicate Supplies(step: Step) {
    step.Begin? && step.op.RestoreOp? ==> Versioned(step.op.record)
  }

  ghost predicate AllVersioned(s: System) {
    && (forall id | id in s.rows :: Versioned(s.rows[id].payload))
    && (forall w | w in s.workers && s.workers[w].op.RestoreOp? :: Versioned(s.workers[w].op.record))
  }

  lemma MoveStaysVersioned(s: System, w: nat)
    requires AllVersioned(s) && w in s.workers
    requires s.workers[w].pc.Writing? && CasMatches(s.rows, s.workers[w].pc.seen) ==> Versioned(s.workers[w].pc.next)
    ensures AllVersioned(MoveWorker(s, w))
  {
  }

  lemma MoveKeepsVersioned(s: System, w: nat)
    requires Inv(s) && AllVersioned(s) && w in s.workers
    ensures AllVersioned(MoveWorker(s, w))
  {
    if s.workers[w].pc.Writing? && CasMatches(s.rows, s.workers[w].pc.seen) {
      WriteIsVersioned(s, w);
    }
    MoveStaysVersioned(s, w);
  }

  lemma WriteIsVersioned(s: System, w: nat)
    requires Inv(s) && w in s.workers && s.workers[w].pc.Writing? && CasMatches(s.rows, s.workers[w].pc.seen)
    ensures Versioned(s.workers[w].pc.next)
  {
    var pc := s.workers[w].pc;
    CasSeesCurrent(s, w);
    StepReadsBack(pc.kind, pc.seen, pc.next, pc.readAt);
  }

  lemma ExecKeepsVersioned(s: System, step: Step)
    requires Inv(s) && AllVersioned(s) && Supplies(step)
    ensures AllVersioned(Exec(s, step))
  {
    if step.Move? && step.w in s.workers {
      MoveKeepsVersioned(s, step.w);
    }
  }

  lemma {:induction false} RunIsVersioned(steps: seq<Step>)
    requires forall step | step in steps :: Supplies(step)
    ensures Inv(Run(EMPTY, steps)) && AllVersioned(Run(EMPTY, steps))
    decreases |steps|
  {
    RunKeepsInv(steps);
    if steps != [] {
      var init, step := steps[..|steps| - 1], steps[|steps| - 1];
      assert step in steps && forall x | x in init :: x in steps;
      RunIsVersioned(init);
      ExecKeepsVersioned(Run(EMPTY, init), step);
    }
  }

  lemma {:induction false} RunJoins(a: seq<Step>, b: seq<Step>)
    ensures Run(Run(EMPTY, a), b) == Run(EMPTY, a + b)
    decreases |b|
  {
    if b == [] {
      assert a + b == a;
    } else {
      RunJoins(a, b[..|b| - 1]);
      assert (a + b)[..|a + b| - 1] == a + b[..|b| - 1];
    }
  }

  /**
   As long as no restore supplies a PENDING record with a deadline and version 0, every call of
   every worker has returned by its eleventh statement, under every interleaving.
   */
  lemma VersionedCallsReturn(before: seq<Step>, rest: seq<Step>, w: nat)
    requires forall step | step in before + rest :: Supplies(step)
    requires w in Run(EMPTY, before).workers && MovesOf(rest, w) >= 11
    ensures exists n | 0 <= n <= |rest| :: Returned(Run(EMPTY, before + rest[..n]), w)
  {
    var s := Run(EMPTY, before);
    RunKeepsInv(before);
    forall n | 0 <= n <= |rest|
      ensures Run(s, rest[..n]) == Run(EMPTY, before + rest[..n])
      ensures !Stuck(Run(s, rest[..n]).rows, s.workers[w].id, Run(s, rest[..n]).clock)
    {
      RunJoins(before, rest[..n]);
      assert forall step | step in before + rest[..n] :: step in before + rest;
      RunIsVersioned(before + rest[..n]);
    }
    EveryCallReturns(s, rest, w);
    var n :| 0 <= n <= |rest| && Returned(Run(s, rest[..n]), w);
    assert Returned(Run(EMPTY, before + rest[..n]), w);
  }

  // ---------------------------------------------------------------- without the condition

  /** One worker restores the record, its deadline passes, and another worker asks for it. */
  function StuckSchedule(r: DecisionRecord, at: real): seq<Step> {
    [Begin(0, RestoreOp(r), "", ""), Move(0), Move(0), Tick(at), Begin(1, Op.Get, r.decisionId, r.domainId)]
  }

  lemma RunNext(s: System, steps: seq<Step>, step: Step)
    ensures Run(s, steps + [step]) == Exec(Run(s, steps), step)
  {
    assert (steps + [step])[..|steps|] == steps;
  }

  /** The table after the restore, whose worker goes on to read the record back. */
  function Restored(r: DecisionRecord, at: real): System {
    System(map[r.decisionId := RowOf(r)], at,
           map[0 := Worker(RestoreOp(r), r.decisionId, r.domainId, Reading(0))],
           [Write(r.decisionId, Kind.Restore, None, r, 0.0)])
  }

  lemma RestoreRuns(r: DecisionRecord)
    requires RecordOk(r)
    ensures Exec(Exec(Exec(EMPTY, Begin(0, RestoreOp(r), "", "")), Move(0)), Move(0)) == Restored(r, 0.0)
  {
    var k := Worker(RestoreOp(r), r.decisionId, r.domainId, Looking);
    var s1 := EMPTY.(workers := map[0 := k]);
    var s2 := EMPTY.(workers := map[0 := k.(pc := Inserting)]);
    assert Exec(EMPTY, Begin(0, RestoreOp(r), "", "")) == s1;
    assert Exec(s1, Move(0)) == s2;
    assert Insert(s2, Kind.Restore, r) == Restored(r, 0.0).(workers := s2.workers);
  }

  lemma StuckScheduleRuns(r: DecisionRecord, at: real)
    requires RecordOk(r) && at >= 0.0
    ensures var s := Restored(r, at);
            Run(EMPTY, StuckSchedule(r, at))
            == s.(workers := s.workers[1 := Worker(Op.Get, r.decisionId, r.domainId, Reading(0))])
  {
    var b, m, t, g := Begin(0, RestoreOp(r), "", ""), Move(0), Tick(at), Begin(1, Op.Get, r.decisionId, r.domainId);
    RunFive(EMPTY, b, m, m, t, g);
    RestoreRuns(r);
    assert Exec(Restored(r, 0.0), t) == Restored(r, at);
  }

  lemma RunThree(s: System, a: Step, b: Step, c: Step)
    ensures Run(s, [a, b, c]) == Exec(Exec(Exec(s, a), b), c)
  {
    RunNext(s, [], a);
    RunNext(s, [a], b);
    RunNext(s, [a, b], c);
    assert [] + [a] == [a] && [a] + [b] == [a, b] && [a, b] + [c] == [a, b, c];
  }

  lemma RunFive(s: System, a: Step, b: Step, c: Step, d: Step, e: Step)
    ensures Run(s, [a, b, c, d, e]) == Exec(Exec(Exec(Exec(Exec(s, a), b), c), d), e)
  {
    var abc := [a, b, c];
    RunThree(s, a, b, c);
    RunNext(s, abc, d);
    RunNext(s, abc + [d], e);
    assert [a, b, c, d, e] == abc + [d] + [e];
  }

  /** Any restored record that is not versioned gets a reader going round for ever once its deadline has passed. */
  lemma UnversionedNeverReturns(r: DecisionRecord, at: real, rounds: nat)
    requires RecordOk(r) && !Versioned(r) && at >= 0.0 && ExpiredAt(r, at)
    ensures var s := Run(EMPTY, StuckSchedule(r, at));
            && Inv(s) && 1 in s.workers && s.workers[1].op == Op.Get && Stuck(s.rows, r.decisionId, s.clock)
            && MoveTimes(s, 1, 4 * rounds).workers[1].pc == Reading(rounds)
            && MoveTimes(s, 1, 4 * rounds).rows == s.rows
  {
    StuckScheduleRuns(r, at);
    RunKeepsInv(StuckSchedule(r, at));
    StuckRowNeverReturns(Run(EMPTY, StuckSchedule(r, at)), 1, rounds);
  }

  /** There is such a record. */
  lemma UnversionedExists()
    ensures exists r: DecisionRecord :: RecordOk(r) && !Versioned(r) && ExpiredAt(r, 0.0)
  {
    var subject := Subject("run", "r", None, "confirm", "?", ["approve"], "f", 0.0, Some(0.0));
    var r := DecisionRecord("d", "gis", subject, PENDING, None, 0, None);
    assert RecordOk(r) && !Versioned(r) && ExpiredAt(r, 0.0);
  }
}
