/**
 Cost governors: a concurrency gate (a semaphore and a counter, updated in separate steps) and a
 soft token budget per session, under any interleaving of paired callers.
 */
module CostGovernance {
  import opened Wrappers

  // ---------------------------------------------------------------- the counters and their atomic steps

  /** `limit` 0 stands for no semaphore. */
  datatype Counters = Counters(limit: nat, available: nat, active: int)

  function Initial(limit: nat): Counters {
    Counters(limit, limit, 0)
  }

  /** `semaphore.acquire(blocking=False)`. */
  function TakePermit(c: Counters): (Counters, bool) {
    if c.limit == 0 then (c, true)
    else if c.available == 0 then (c, false)
    else (c.(available := c.available - 1), true)
  }

  function CountedIn(c: Counters): Counters {
    if c.limit == 0 then c else c.(active := c.active + 1)
  }

  /** `semaphore.release()`; a bounded semaphore refuses a permit it never gave. */
  function GivePermit(c: Counters): Result<Counters, ()> {
    if c.limit == 0 then Ok(c)
    else if c.available >= c.limit then Err(())
    else Ok(c.(available := c.available + 1))
  }

  function CountedOut(c: Counters): Counters {
    if c.active > 0 then c.(active := c.active - 1) else c
  }

  type Spending = map<string, nat>

  function SpentBy(spent: Spending, session: string): nat {
    if session in spent then spent[session] else 0
  }

  /** `check_budget`: no budget, or not yet used up. */
  predicate WithinBudget(spent: Spending, budget: int, session: string) {
    budget <= 0 || SpentBy(spent, session) < budget
  }

  function Charged(spent: Spending, session: string, tokens: int): Spending {
    if tokens <= 0 then spent else spent[session := SpentBy(spent, session) + tokens]
  }

  /** The object whose fields the steps above describe. */
  class TokenBudget {
    const budget: int
    const limit: nat
    var available: nat
    var active: int
    var sessionSpent: Spending

    ghost function Now(): Counters
      reads this
    {
      Counters(limit, available, active)
    }

    constructor (budget: int, limit: nat)
      ensures this.budget == budget && Now() == Initial(limit) && sessionSpent == map[]
    {
      this.budget := budget;
      this.limit := limit;
      available := limit;
      active := 0;
      sessionSpent := map[];
    }

    method CheckBudget(session: string) returns (ok: bool)
      ensures ok <==> WithinBudget(sessionSpent, budget, session)
    {
      if budget <= 0 {
        return true;
      }
      var spent := if session in sessionSpent then sessionSpent[session] else 0;
      ok := spent < budget;
    }

    method Charge(session: string, tokens: int)
      modifies this`sessionSpent
      ensures sessionSpent == Charged(old(sessionSpent), session, tokens)
      ensures SpentBy(sessionSpent, session) == SpentBy(old(sessionSpent), session) + if tokens > 0 then tokens else 0
    {
      if tokens > 0 {
        var spent := if session in sessionSpent then sessionSpent[session] else 0;
        sessionSpent := sessionSpent[session := spent + tokens];
      }
    }

    method AcquirePermit() returns (ok: bool)
      modifies this`available
      ensures (Now(), ok) == TakePermit(old(Now()))
    {
      ok := limit == 0 || available > 0;
      if limit > 0 && available > 0 {
        available := available - 1;
      }
    }

    method CountIn()
      modifies this`active
      ensures Now() == CountedIn(old(Now()))
    {
      if limit > 0 {
        active := active + 1;
      }
    }

    method ReleasePermit()
      requires GivePermit(Now()).Ok?
      modifies this`available
      ensures Ok(Now()) == GivePermit(old(Now()))
    {
      if limit > 0 {
        available := available + 1;
      }
    }

    method CountOut()
      modifies this`active
      ensures Now() == CountedOut(old(Now()))
    {
      if active > 0 {
        active := active - 1;
      }
    }
  }

  // ---------------------------------------------------------------- interleaved callers

  /**
   One run takes a permit, is counted in, checks its session's budget, works, gives the permit
   back, is counted out, and is charged only then. A run that raises is never charged.
   */
  datatype Step =
    | Acquire(run: nat)
    | CountIn(run: nat)
    | Check(run: nat, session: string)
    | Fail(run: nat)
    | Release(run: nat)
    | CountOut(run: nat)
    | Charge(run: nat, tokens: int)

  /** `owing` holds the runs between a passed check and their charge, with their session. */
  datatype System = System(
    budget: int, counters: Counters, spent: Spending,
    entering: set<nat>, running: set<nat>, leaving: set<nat>, owing: map<nat, string>)

  function Start(budget: int, limit: nat): System {
    System(budget, Initial(limit), map[], {}, {}, {}, map[])
  }

  predicate Away(s: System, run: nat) {
    run !in s.entering && run !in s.running && run !in s.leaving
  }

  /** One atomic step; a step its run cannot take changes nothing. */
  function Move(s: System, step: Step): System {
    match step
    case Acquire(run) =>
      if !Away(s, run) || run in s.owing then s
      else
        var (counters, ok) := TakePermit(s.counters);
        if !ok then s else s.(counters := counters, entering := s.entering + {run})
    case CountIn(run) =>
      if run !in s.entering then s
      else s.(counters := CountedIn(s.counters), entering := s.entering - {run}, running := s.running + {run})
    case Check(run, session) =>
      if run !in s.running || run in s.owing || !WithinBudget(s.spent, s.budget, session) then s
      else s.(owing := s.owing[run := session])
    case Fail(run) => s.(owing := s.owing - {run})
    case Release(run) =>
      if run !in s.running then s
      else
        (match GivePermit(s.counters)
         case Err(_) => s
         case Ok(counters) => s.(counters := counters, running := s.running - {run}, leaving := s.leaving + {run}))
    case CountOut(run) =>
      if run !in s.leaving then s
      else s.(counters := CountedOut(s.counters), leaving := s.leaving - {run})
    case Charge(run, tokens) =>
      if !Away(s, run) || run !in s.owing then s
      else s.(spent := Charged(s.spent, s.owing[run], tokens), owing := s.owing - {run})
  }

  function Run(s: System, steps: seq<Step>): System
    decreases |steps|
  {
    if steps == [] then s else Move(Run(s, steps[..|steps| - 1]), steps[|steps| - 1])
  }

  // ---------------------------------------------------------------- the gate

  function Holders(s: System): set<nat> {
    s.entering + s.running
  }

  ghost predicate GateOk(s: System) {
    && s.entering !! s.running && s.entering !! s.leaving && s.running !! s.leaving
    && (s.counters.limit == 0 ==> s.counters.active == 0)
    && (s.counters.limit > 0 ==>
          && s.counters.available + |Holders(s)| == s.counters.limit
          && s.counters.active == |s.running| + |s.leaving|)
  }

  lemma AcquireKeepsGate(s: System, run: nat)
    requires GateOk(s)
    ensures GateOk(Move(s, Acquire(run)))
  {
    var t := Move(s, Acquire(run));
    if t != s {
      assert Holders(t) == Holders(s) + {run} && run !in Holders(s);
    }
  }

  lemma CountInKeepsGate(s: System, run: nat)
    requires GateOk(s)
    ensures GateOk(Move(s, CountIn(run)))
  {
    var t := Move(s, CountIn(run));
    if t != s {
      assert Holders(t) == Holders(s);
    }
  }

  lemma ReleaseKeepsGate(s: System, run: nat)
    requires GateOk(s)
    ensures GateOk(Move(s, Release(run)))
  {
    var t := Move(s, Release(run));
    if t != s {
      assert Holders(t) == Holders(s) - {run} && run in Holders(s);
    }
  }

  lemma CountOutKeepsGate(s: System, run: nat)
    requires GateOk(s)
    ensures GateOk(Move(s, CountOut(run)))
  {
    assert Holders(Move(s, CountOut(run))) == Holders(s);
  }

  lemma LedgerKeepsGate(s: System, step: Step)
    requires GateOk(s) && (step.Check? || step.Fail? || step.Charge?)
    ensures GateOk(Move(s, step))
  {
    assert Holders(Move(s, step)) == Holders(s);
  }

  lemma MoveKeepsLimits(s: System, step: Step)
    ensures Move(s, step).counters.limit == s.counters.limit && Move(s, step).budget == s.budget
  {
  }

  lemma MoveKeepsGate(s: System, step: Step)
    requires GateOk(s)
    ensures GateOk(Move(s, step))
  {
    match step
    case Acquire(run) => AcquireKeepsGate(s, run);
    case CountIn(run) => CountInKeepsGate(s, run);
    case Release(run) => ReleaseKeepsGate(s, run);
    case CountOut(run) => CountOutKeepsGate(s, run);
    case _ => LedgerKeepsGate(s, step);
  }

  lemma {:induction false} RunKeepsGate(budget: int, limit: nat, steps: seq<Step>)
    ensures var s := Run(Start(budget, limit), steps);
            GateOk(s) && s.counters.limit == limit && s.budget == budget
    decreases |steps|
  {
    if steps != [] {
      RunKeepsGate(budget, limit, steps[..|steps| - 1]);
      MoveKeepsGate(Run(Start(budget, limit), steps[..|steps| - 1]), steps[|steps| - 1]);
      MoveKeepsLimits(Run(Start(budget, limit), steps[..|steps| - 1]), steps[|steps| - 1]);
    }
  }

  /**
   On every interleaving: no more permits are out than the limit; the active count differs from
   them exactly by the runs inside the two gaps; and with nobody inside a gap the two agree.
   */
  lemma GateIsSafe(budget: int, limit: nat, steps: seq<Step>)
    requires limit > 0
    ensures var s := Run(Start(budget, limit), steps);
            && |Holders(s)| <= limit
            && s.counters.active - |Holders(s)| == |s.leaving| - |s.entering|
            && (s.entering == {} && s.leaving == {} ==> s.counters.active == |s.running|)
            && (s.counters.available == 0 <==> |Holders(s)| == limit)
  {
    RunKeepsGate(budget, limit, steps);
    var s := Run(Start(budget, limit), steps);
    assert |Holders(s)| == |s.entering| + |s.running|;
  }

  /** A permit can always be given back, and the guard on the counter never skips a decrement. */
  lemma NoStepIsLost(budget: int, limit: nat, steps: seq<Step>, run: nat)
    ensures var s := Run(Start(budget, limit), steps);
            && (run in s.running ==> GivePermit(s.counters).Ok?)
            && (limit > 0 && run in s.leaving ==> CountedOut(s.counters).active == s.counters.active - 1)
  {
    RunKeepsGate(budget, limit, steps);
    var s := Run(Start(budget, limit), steps);
    if run in s.running {
      assert run in Holders(s);
    }
  }

  // ---------------------------------------------------------------- the soft budget

  function OwingOf(s: System, session: string): set<nat> {
    set run | run in s.owing && s.owing[run] == session
  }

  /** At most `k` runs of the session are ever between check and charge, each charging at most `c`. */
  ghost predicate Moderate(budget: int, limit: nat, steps: seq<Step>, session: string, k: nat, c: nat)
    decreases |steps|
  {
    && |OwingOf(Run(Start(budget, limit), steps), session)| <= k
    && (steps != [] ==>
          && (steps[|steps| - 1].Charge? ==> steps[|steps| - 1].tokens <= c)
          && Moderate(budget, limit, steps[..|steps| - 1], session, k, c))
  }

  lemma Times(a: nat, b: nat, c: nat)
    requires a <= b
    ensures a * c <= b * c
  {
  }

  /** The charge of one of the session's own runs: what was reserved for it pays for it. */
  lemma OwnChargeKeepsBound(s: System, run: nat, tokens: int, session: string, k: nat, c: nat)
    requires Away(s, run) && run in s.owing && s.owing[run] == session && tokens <= c
    requires SpentBy(s.spent, session) + |OwingOf(s, session)| * c <= s.budget - 1 + k * c
    ensures var t := Move(s, Charge(run, tokens));
            SpentBy(t.spent, session) + |OwingOf(t, session)| * c <= s.budget - 1 + k * c
  {
    var t := Move(s, Charge(run, tokens));
    assert run in OwingOf(s, session) && OwingOf(t, session) == OwingOf(s, session) - {run};
    OneFewer(|OwingOf(s, session)|, c);
  }

  lemma OneFewer(n: nat, c: nat)
    requires n > 0
    ensures (n - 1) * c == n * c - c
  {
  }

  /** The charge of another session's run, or of a run that cannot be charged. */
  lemma OtherChargeIsNeutral(s: System, run: nat, tokens: int, session: string)
    requires Away(s, run) && run in s.owing ==> s.owing[run] != session
    ensures var t := Move(s, Charge(run, tokens));
            SpentBy(t.spent, session) == SpentBy(s.spent, session) && OwingOf(t, session) == OwingOf(s, session)
  {
  }

  lemma ChargeKeepsBound(s: System, step: Step, session: string, k: nat, c: nat)
    requires SpentBy(s.spent, session) + |OwingOf(s, session)| * c <= s.budget - 1 + k * c
    requires step.Charge? && step.tokens <= c
    ensures var t := Move(s, step); SpentBy(t.spent, session) + |OwingOf(t, session)| * c <= s.budget - 1 + k * c
  {
    if Away(s, step.run) && step.run in s.owing && s.owing[step.run] == session {
      OwnChargeKeepsBound(s, step.run, step.tokens, session, k, c);
    } else {
      OtherChargeIsNeutral(s, step.run, step.tokens, session);
    }
  }

  lemma CheckKeepsBound(s: System, step: Step, session: string, k: nat, c: nat)
    requires s.budget > 0
    requires SpentBy(s.spent, session) + |OwingOf(s, session)| * c <= s.budget - 1 + k * c
    requires step.Check? && |OwingOf(Move(s, step), session)| <= k
    ensures var t := Move(s, step); SpentBy(t.spent, session) + |OwingOf(t, session)| * c <= s.budget - 1 + k * c
  {
    var t := Move(s, step);
    if t != s && step.session == session {
      Times(|OwingOf(t, session)|, k, c);
    } else {
      assert OwingOf(t, session) == OwingOf(s, session);
    }
  }

  lemma OtherKeepsBound(s: System, step: Step, session: string, c: nat)
    requires !step.Charge? && !step.Check?
    ensures var t := Move(s, step);
            t.spent == s.spent && |OwingOf(t, session)| * c <= |OwingOf(s, session)| * c
  {
    var t := Move(s, step);
    assert OwingOf(t, session) <= OwingOf(s, session);
    Fewer(OwingOf(t, session), OwingOf(s, session));
    Times(|OwingOf(t, session)|, |OwingOf(s, session)|, c);
  }

  lemma Fewer(a: set<nat>, b: set<nat>)
    requires a <= b
    ensures |a| <= |b|
  {
    assert b == a + (b - a);
  }

  lemma {:induction false} BoundHolds(budget: int, limit: nat, steps: seq<Step>, session: string, k: nat, c: nat)
    requires budget > 0 && Moderate(budget, limit, steps, session, k, c)
    ensures var s := Run(Start(budget, limit), steps);
            SpentBy(s.spent, session) + |OwingOf(s, session)| * c <= budget - 1 + k * c
    decreases |steps|
  {
    if steps == [] {
      assert OwingOf(Start(budget, limit), session) == {};
      Times(0, k, c);
    } else {
      var init, step := steps[..|steps| - 1], steps[|steps| - 1];
      BoundHolds(budget, limit, init, session, k, c);
      RunKeepsGate(budget, limit, init);
      var s := Run(Start(budget, limit), init);
      if step.Charge? {
        ChargeKeepsBound(s, step, session, k, c);
      } else if step.Check? {
        CheckKeepsBound(s, step, session, k, c);
      } else {
        OtherKeepsBound(s, step, session, c);
      }
    }
  }

  /** With at most `k` runs in flight charging at most `c`, the overshoot is at most `k * c - 1`. */
  lemma SoftBudget(budget: int, limit: nat, steps: seq<Step>, session: string, k: nat, c: nat)
    requires budget > 0 && Moderate(budget, limit, steps, session, k, c)
    ensures SpentBy(Run(Start(budget, limit), steps).spent, session) <= budget - 1 + k * c
  {
    BoundHolds(budget, limit, steps, session, k, c);
    Times(0, |OwingOf(Run(Start(budget, limit), steps), session)|, c);
  }

  // ---------------------------------------------------------------- the gate does not bound the overshoot

  /** One whole visit of a run to the gate, its charge still to come. */
  function Visit(run: nat, session: string): seq<Step> {
    [Acquire(run), CountIn(run), Check(run, session), Release(run), CountOut(run)]
  }

  function Visits(n: nat, session: string): seq<Step> {
    if n == 0 then [] else Visits(n - 1, session) + Visit(n - 1, session)
  }

  function Charges(n: nat, c: nat): seq<Step> {
    if n == 0 then [] else Charges(n - 1, c) + [Charge(n - 1, c)]
  }

  lemma {:induction false} RunConcat(s: System, a: seq<Step>, b: seq<Step>)
    ensures Run(s, a + b) == Run(Run(s, a), b)
    decreases |b|
  {
    if b == [] {
      assert a + b == a;
    } else {
      RunConcat(s, a, b[..|b| - 1]);
      assert (a + b)[..|a + b| - 1] == a + b[..|b| - 1];
    }
  }

  /** Nobody is at the gate, the session has spent `paid`, and just the first `n` runs owe for it. */
  ghost predicate Quiet(s: System, budget: int, session: string, paid: nat, n: nat) {
    && s.budget == budget && s.counters == Initial(1) && SpentBy(s.spent, session) == paid
    && s.entering == {} && s.running == {} && s.leaving == {}
    && (forall run: nat :: run in s.owing <==> run < n) && (forall run: nat | run < n :: s.owing[run] == session)
  }

  lemma RunOne(s: System, step: Step)
    ensures Run(s, [step]) == Move(s, step)
  {
    assert [step][..0] == [];
  }

  lemma RunFive(s: System, a: Step, b: Step, c: Step, d: Step, e: Step)
    ensures Run(s, [a, b, c, d, e]) == Move(Move(Move(Move(Move(s, a), b), c), d), e)
  {
    assert [a, b, c, d, e][..4] == [a, b, c, d] && [a, b, c, d][..3] == [a, b, c];
    assert [a, b, c][..2] == [a, b] && [a, b][..1] == [a];
    RunOne(s, a);
    assert Run(s, [a, b, c]) == Move(Run(s, [a, b]), c);
  }

  lemma VisitIsQuiet(s: System, budget: int, session: string, paid: nat, n: nat)
    requires paid < budget && Quiet(s, budget, session, paid, n)
    ensures Quiet(Run(s, Visit(n, session)), budget, session, paid, n + 1)
  {
    var s1 := Move(s, Acquire(n));
    var s2 := Move(s1, CountIn(n));
    var s3 := Move(s2, Check(n, session));
    var s4 := Move(s3, Release(n));
    var s5 := Move(s4, CountOut(n));
    RunFive(s, Acquire(n), CountIn(n), Check(n, session), Release(n), CountOut(n));
    assert s1 == s.(counters := Counters(1, 0, 0), entering := {n});
    assert s2 == s.(counters := Counters(1, 0, 1), running := {n});
    assert s3 == s2.(owing := s.owing[n := session]);
    assert s4 == s3.(counters := Counters(1, 1, 1), running := {}, leaving := {n});
    assert s5 == s.(owing := s.owing[n := session]);
  }

  lemma {:induction false} VisitsAreQuiet(s: System, budget: int, session: string, paid: nat, n: nat)
    requires paid < budget && Quiet(s, budget, session, paid, 0)
    ensures Quiet(Run(s, Visits(n, session)), budget, session, paid, n)
    decreases n
  {
    if n > 0 {
      VisitsAreQuiet(s, budget, session, paid, n - 1);
      RunConcat(s, Visits(n - 1, session), Visit(n - 1, session));
      VisitIsQuiet(Run(s, Visits(n - 1, session)), budget, session, paid, n - 1);
    }
  }

  /** Some of the first `total` runs still owe: those from `n` on. */
  ghost predicate Settling(s: System, session: string, n: nat, total: nat) {
    && s.entering == {} && s.running == {} && s.leaving == {}
    && (forall run: nat :: run in s.owing <==> n <= run < total) && (forall run | n <= run < total :: s.owing[run] == session)
  }

  lemma {:induction false} ChargesAddUp(s: System, budget: int, session: string, paid: nat, total: nat, n: nat, c: nat)
    requires Quiet(s, budget, session, paid, total) && n <= total
    ensures var t := Run(s, Charges(n, c)); SpentBy(t.spent, session) == paid + n * c && Settling(t, session, n, total)
    decreases n
  {
    if n > 0 {
      var before := Run(s, Charges(n - 1, c));
      ChargesAddUp(s, budget, session, paid, total, n - 1, c);
      RunConcat(s, Charges(n - 1, c), [Charge(n - 1, c)]);
      RunOne(before, Charge(n - 1, c));
      ChargeSettles(before, session, n - 1, total, c);
      OneFewer(n, c);
    }
  }

  lemma ChargeSettles(s: System, session: string, n: nat, total: nat, c: nat)
    requires Settling(s, session, n, total) && n < total
    ensures Settling(Move(s, Charge(n, c)), session, n + 1, total)
    ensures SpentBy(Move(s, Charge(n, c)).spent, session) == SpentBy(s.spent, session) + c
  {
  }

  /**
   Runs are charged after they leave the gate, so even one run at a time does not limit how many
   pass the check before the first charge: whatever the budget, spending grows without bound.
   */
  lemma OneAtATimeOverspends(budget: int, session: string, n: nat, c: nat)
    requires budget > 0
    ensures SpentBy(Run(Start(budget, 1), Visits(n, session) + Charges(n, c)).spent, session) == n * c
  {
    VisitsAreQuiet(Start(budget, 1), budget, session, 0, n);
    RunConcat(Start(budget, 1), Visits(n, session), Charges(n, c));
    ChargesAddUp(Run(Start(budget, 1), Visits(n, session)), budget, session, 0, n, n, c);
  }

  // ---------------------------------------------------------------- the soft bound is attained

  /** `n` visits of one run, each paid for at once with one token. */
  function PaidVisits(n: nat, session: string): seq<Step> {
    if n == 0 then [] else PaidVisits(n - 1, session) + Visit(0, session) + [Charge(0, 1)]
  }

  /** The budget is used up to its last token but one; then `k` runs pass the check and are charged `c` each. */
  function Worst(budget: int, session: string, k: nat, c: nat): seq<Step>
    requires budget > 0
  {
    PaidVisits(budget - 1, session) + Visits(k, session) + Charges(k, c)
  }

  lemma ChargeIsQuiet(s: System, budget: int, session: string, paid: nat)
    requires Quiet(s, budget, session, paid, 1)
    ensures Quiet(Move(s, Charge(0, 1)), budget, session, paid + 1, 0)
  {
  }

  lemma {:induction false} PaidVisitsAreQuiet(budget: int, session: string, n: nat)
    requires n < budget
    ensures Quiet(Run(Start(budget, 1), PaidVisits(n, session)), budget, session, n, 0)
    decreases n
  {
    if n > 0 {
      var start, before := Start(budget, 1), PaidVisits(n - 1, session);
      PaidVisitsAreQuiet(budget, session, n - 1);
      RunConcat(start, before, Visit(0, session));
      VisitIsQuiet(Run(start, before), budget, session, n - 1, 0);
      RunConcat(start, before + Visit(0, session), [Charge(0, 1)]);
      RunOne(Run(start, before + Visit(0, session)), Charge(0, 1));
      ChargeIsQuiet(Run(start, before + Visit(0, session)), budget, session, n - 1);
    }
  }

  lemma WorstSpends(budget: int, session: string, k: nat, c: nat)
    requires budget > 0
    ensures SpentBy(Run(Start(budget, 1), Worst(budget, session, k, c)).spent, session) == budget - 1 + k * c
  {
    var start, paid := Start(budget, 1), PaidVisits(budget - 1, session);
    PaidVisitsAreQuiet(budget, session, budget - 1);
    RunConcat(start, paid, Visits(k, session));
    VisitsAreQuiet(Run(start, paid), budget, session, budget - 1, k);
    RunConcat(start, paid + Visits(k, session), Charges(k, c));
    ChargesAddUp(Run(start, paid + Visits(k, session)), budget, session, budget - 1, k, k, c);
  }

  // ... and it stays within the terms of the bound.

  lemma FewRuns(runs: set<nat>, n: nat)
    requires forall run | run in runs :: run < n
    ensures |runs| <= n
    decreases n
  {
    if n > 0 {
      FewRuns(runs - {n - 1}, n - 1);
    }
  }

  lemma OnlyFirstOwe(s: System, session: string, n: nat)
    requires forall run: nat | run in s.owing :: run < n
    ensures |OwingOf(s, session)| <= n
  {
    FewRuns(OwingOf(s, session), n);
  }

  /** Only the first `n` runs ever owe, and no charge is above `c`. */
  ghost predicate Few(s: System, steps: seq<Step>, n: nat, c: nat)
    decreases |steps|
  {
    && (forall run: nat | run in Run(s, steps).owing :: run < n)
    && (steps != [] ==>
          (steps[|steps| - 1].Charge? ==> steps[|steps| - 1].tokens <= c) && Few(s, steps[..|steps| - 1], n, c))
  }

  predicate Tame(step: Step, n: nat, c: nat) {
    (step.Check? ==> step.run < n) && (step.Charge? ==> step.tokens <= c)
  }

  lemma {:induction false} TameIsFew(s: System, steps: seq<Step>, n: nat, c: nat)
    requires s.owing == map[] && forall step | step in steps :: Tame(step, n, c)
    ensures Few(s, steps, n, c)
    decreases |steps|
  {
    if steps != [] {
      var init, step := steps[..|steps| - 1], steps[|steps| - 1];
      assert step in steps && forall x | x in init :: x in steps;
      TameIsFew(s, init, n, c);
    }
  }

  lemma {:induction false} FewIsModerate(budget: int, limit: nat, steps: seq<Step>, session: string, n: nat, c: nat)
    requires Few(Start(budget, limit), steps, n, c)
    ensures Moderate(budget, limit, steps, session, n, c)
    decreases |steps|
  {
    OnlyFirstOwe(Run(Start(budget, limit), steps), session, n);
    if steps != [] {
      FewIsModerate(budget, limit, steps[..|steps| - 1], session, n, c);
    }
  }

  lemma {:induction false} PaidVisitsAreTame(m: nat, session: string, n: nat, c: nat)
    requires n > 0 && c > 0
    ensures forall step | step in PaidVisits(m, session) :: Tame(step, n, c)
    decreases m
  {
    if m > 0 {
      PaidVisitsAreTame(m - 1, session, n, c);
    }
  }

  lemma {:induction false} VisitsAreTame(m: nat, session: string, n: nat, c: nat)
    requires m <= n
    ensures forall step | step in Visits(m, session) :: Tame(step, n, c)
    ensures forall step | step in Charges(m, c) :: Tame(step, n, c)
    decreases m
  {
    if m > 0 {
      VisitsAreTame(m - 1, session, n, c);
    }
  }

  /** The soft bound is exact: for any budget, `k` and `c` some run within its terms spends all of it. */
  lemma SoftBudgetIsAttained(budget: int, session: string, k: nat, c: nat)
    requires budget > 0 && k > 0 && c > 0
    ensures var steps := Worst(budget, session, k, c);
            && Moderate(budget, 1, steps, session, k, c)
            && SpentBy(Run(Start(budget, 1), steps).spent, session) == budget - 1 + k * c
  {
    WorstSpends(budget, session, k, c);
    PaidVisitsAreTame(budget - 1, session, k, c);
    VisitsAreTame(k, session, k, c);
    TameIsFew(Start(budget, 1), Worst(budget, session, k, c), k, c);
    FewIsModerate(budget, 1, Worst(budget, session, k, c), session, k, c);
  }
}
