/**
 Receipts that outlive their decisions.  The ledger bounds both dictionaries separately, so a
 decision can be pushed out while the receipt of the command that made it is still there.
 */
module RoutingReceipts {
  import opened Wrappers
  import opened OrderedDict
  import opened RoutingDecision
  import opened RoutingLedger
  import opened RoutingLedgerSafety

  /** The command has a receipt whose decision is gone. */
  predicate Stranded(l: Ledger, k: CommandKey) {
    Get(l.receipts, k).Some? && Get(l.decisions, Get(l.receipts, k).value.resultId).None?
  }

  /** A command is told that its result is missing exactly when it is stranded and repeats itself. */
  lemma MissingMeansStranded(reg: Registry, l: Ledger, c: Command)
    ensures var k := CommandKey(c.subjectId, c.action);
            Commit(reg, l, c) == (l, Err(ResultMissing)) <==>
            Stranded(l, k) && Get(l.receipts, k).value.key == c.key && Get(l.receipts, k).value.fingerprint == c.fingerprint
    ensures Commit(reg, l, c).1 == Err(ResultMissing) ==> Commit(reg, l, c).0 == l
  {
  }

  // ---------------------------------------------------------------- how a receipt goes

  lemma {:induction false} RemoveAbsent<K(!new), V(!new)>(d: Dict<K, V>, k: K)
    requires forall e | e in d :: e.key != k
    ensures Remove(d, k) == d
    decreases |d|
  {
    if d != [] {
      RemoveAbsent(d[..|d| - 1], k);
    }
  }

  lemma PutAbsent<K(!new), V(!new)>(d: Dict<K, V>, k: K, v: V)
    requires Distinct(d) && Get(d, k).None?
    ensures Put(d, k, v) == d + [Entry(k, v)] && Distinct(d + [Entry(k, v)])
  {
    RemoveAbsent(d, k);
    PutFacts(d, k, v);
  }

  lemma GetNothing<K(!new), V(!new)>(d: Dict<K, V>, k: K)
    ensures Get(d, k).None? <==> forall e | e in d :: e.key != k
  {
  }

  lemma OthersStay<K(!new), V(!new)>(d: Dict<K, V>, i: nat)
    requires Distinct(d) && i < |d|
    ensures Get(d[1..], d[i].key).None? <==> i == 0
  {
    GetNothing(d[1..], d[i].key);
    if i == 0 {
      assert forall e | e in d[1..] :: exists j :: 1 <= j < |d| && d[j] == e;
    } else {
      assert d[1..][i - 1] == d[i] && d[i] in d[1..];
    }
  }

  /** Adding a new key pushes out the oldest one exactly when the dictionary is full. */
  lemma PushedOut<K(!new), V(!new)>(d: Dict<K, V>, max: nat, last: Entry<K, V>, k: K)
    requires Distinct(d + [last]) && |d| <= max && max > 0 && Get(d, k).Some?
    ensures Get(Trim(d + [last], max), k).None? <==> |d| == max && d[0].key == k
  {
    var all := d + [last];
    var i :| 0 <= i < |d| && d[i] == Entry(k, Get(d, k).value);
    assert all[i] == d[i] && all[0] == d[0];
    if |d| == max {
      OthersStay(all, i);
    } else {
      GetNothing(all, k);
    }
  }

  /** The commit is the first for its command, and settles. */
  predicate FirstFor(reg: Registry, l: Ledger, c: Command) {
    && Get(l.receipts, CommandKey(c.subjectId, c.action)).None?
    && !KeyTaken(l.receipts, c.key) && Settle(reg, l, c).Ok?
  }

  /** What takes a receipt away: a forget that still finds its subject, or a newer receipt when it is the oldest of `max`. */
  predicate Drops(reg: Registry, l: Ledger, op: Op, k: CommandKey) {
    match op
    case SaveOp(_, _) => false
    case ForgetOp(s, _) => k.subjectId in SessionIds(l.decisions, s)
    case CommitOp(c) => FirstFor(reg, l, c) && |l.receipts| == l.max > 0 && l.receipts[0].key == k
  }

  lemma ReceiptGoesWhen(reg: Registry, l: Ledger, op: Op, k: CommandKey)
    requires LedgerOk(l) && l.max > 0 && Get(l.receipts, k).Some?
    ensures Get(Apply(reg, l, op).receipts, k).None? <==> Drops(reg, l, op, k)
    ensures Get(Apply(reg, l, op).receipts, k) in {None, Get(l.receipts, k)}
  {
    match op
    case SaveOp(_, _) =>
    case ForgetOp(s, _) =>
      var p := SubjectOutside(SessionIds(l.decisions, s));
      var e := Entry(k, Get(l.receipts, k).value);
      KeepFacts(l.receipts, p);
      SubsetHits(Keep(l.receipts, p), l.receipts, k);
      assert p(e) <==> k.subjectId !in SessionIds(l.decisions, s);
      if p(e) {
        assert e in Keep(l.receipts, p);
      }
    case CommitOp(c) => CommittedReceipts(reg, l, c, k);
  }

  lemma CommittedReceipts(reg: Registry, l: Ledger, c: Command, k: CommandKey)
    requires LedgerOk(l) && l.max > 0 && Get(l.receipts, k).Some?
    ensures Get(Commit(reg, l, c).0.receipts, k).None? <==> Drops(reg, l, CommitOp(c), k)
    ensures Get(Commit(reg, l, c).0.receipts, k) in {None, Get(l.receipts, k)}
  {
    if FirstFor(reg, l, c) {
      var k' := CommandKey(c.subjectId, c.action);
      var r := Project(c.subjectId, Settle(reg, l, c).value.1.decisionId, c.key, c.fingerprint, false);
      PutAbsent(l.receipts, k', r);
      PushedOut(l.receipts, l.max, Entry(k', r), k);
      PutOther(l.receipts, l.max, k', r, k);
    }
  }

  // ---------------------------------------------------------------- how long a command stays stranded

  ghost predicate NeverDropped(reg: Registry, l: Ledger, ops: seq<Op>, k: CommandKey)
    decreases |ops|
  {
    ops == [] || (!Drops(reg, l, ops[0], k) && NeverDropped(reg, Apply(reg, l, ops[0]), ops[1..], k))
  }

  /** Nobody files the decision of that id again. */
  predicate NotRefiled(ops: seq<Op>, id: string) {
    forall op | op in ops :: Files(op) != Some(id)
  }

  lemma SavedMembers(l: Ledger, d: Decision, session: Option<string>)
    requires LedgerOk(l)
    ensures forall e | e in WithDecision(l, d, session).decisions :: e in l.decisions || e.key == d.decisionId
  {
    PutFacts(l.decisions, d.decisionId, Record(d, session));
    TrimFacts(Put(l.decisions, d.decisionId, Record(d, session)), l.max);
  }

  lemma CommitSaves(reg: Registry, l: Ledger, c: Command)
    ensures Commit(reg, l, c).0.decisions in {l.decisions, WithDecision(l, c.decision, c.session).decisions}
  {
  }

  lemma AbsentStays(reg: Registry, l: Ledger, op: Op, id: string)
    requires LedgerOk(l) && Get(l.decisions, id).None? && Files(op) != Some(id)
    ensures Get(Apply(reg, l, op).decisions, id).None?
  {
    GetNothing(l.decisions, id);
    GetNothing(Apply(reg, l, op).decisions, id);
    match op
    case SaveOp(d, s) => SavedMembers(l, d, s);
    case ForgetOp(s, _) =>
    case CommitOp(c) =>
      SavedMembers(l, c.decision, c.session);
      CommitSaves(reg, l, c);
  }

  /**
   Once stranded, a command stays so until its receipt is dropped, and until then every commit
   for it is refused: with its own key as missing, with any other as a conflict.
   */
  lemma {:induction false} StrandedStays(reg: Registry, l: Ledger, ops: seq<Op>, c: Command)
    requires var k := CommandKey(c.subjectId, c.action);
             && LedgerOk(l) && l.max > 0 && Stranded(l, k)
             && NeverDropped(reg, l, ops, k) && NotRefiled(ops, Get(l.receipts, k).value.resultId)
    ensures var k := CommandKey(c.subjectId, c.action);
            var later := Run(reg, l, ops);
            && Stranded(later, k) && Get(later.receipts, k) == Get(l.receipts, k)
            && Commit(reg, later, c) == (later, Err(
                 if Get(l.receipts, k).value.key == c.key && Get(l.receipts, k).value.fingerprint == c.fingerprint
                 then ResultMissing else RevisionConflict))
    decreases |ops|
  {
    if ops != [] {
      var k := CommandKey(c.subjectId, c.action);
      assert ops[0] in ops;
      ReceiptGoesWhen(reg, l, ops[0], k);
      AbsentStays(reg, l, ops[0], Get(l.receipts, k).value.resultId);
      ApplyOk(reg, l, ops[0]);
      StrandedStays(reg, Apply(reg, l, ops[0]), ops[1..], c);
    }
  }

  // ---------------------------------------------------------------- how a command gets stranded

  function Saves(ds: seq<Decision>, session: Option<string>): (r: seq<Op>)
    ensures |r| == |ds| && forall i | 0 <= i < |ds| :: r[i] == SaveOp(ds[i], session)
  {
    seq(|ds|, i requires 0 <= i < |ds| => SaveOp(ds[i], session))
  }

  ghost predicate OwnIds(ds: seq<Decision>) {
    forall i, j | 0 <= i < j < |ds| :: ds[i].decisionId != ds[j].decisionId
  }

  function IdsOf(ds: seq<Decision>): set<string> {
    set d | d in ds :: d.decisionId
  }

  /** From position `m` on the entries are of these ids, at least `n` of them unless that is all there is. */
  ghost predicate EndsIn(d: Decisions, m: nat, n: nat, ids: set<string>) {
    m <= |d| && (m == 0 || |d| - m >= n) && forall e | e in d[m..] :: e.key in ids
  }

  lemma RemoveShorter<K(!new), V(!new)>(head: Dict<K, V>, tail: Dict<K, V>, k: K)
    requires forall e | e in tail :: e.key != k
    ensures Remove(head + tail, k) == Remove(head, k) + tail
  {
    RemoveConcat(head, tail, k);
    RemoveAbsent(tail, k);
  }

  lemma TrimmedEndsIn(head: Decisions, tail: Decisions, max: nat, ids: set<string>) returns (m: nat)
    requires forall e | e in tail :: e.key in ids
    ensures m <= |Trim(head + tail, max)| && (m == 0 || |Trim(head + tail, max)| - m == |tail|)
    ensures forall e | e in Trim(head + tail, max)[m..] :: e.key in ids
  {
    var all := head + tail;
    var drop := |all| - |Trim(all, max)|;
    assert Trim(all, max) == all[drop..];
    m := if |head| >= drop then |head| - drop else 0;
    if |head| >= drop {
      assert all[drop..][m..] == tail;
    } else {
      assert all[drop..] == tail[drop - |head|..];
    }
  }

  lemma SaveEndsIn(l: Ledger, d: Decision, session: Option<string>, m: nat, n: nat, ids: set<string>) returns (m': nat)
    requires EndsIn(l.decisions, m, n, ids) && d.decisionId !in ids
    ensures EndsIn(WithDecision(l, d, session).decisions, m', n + 1, ids + {d.decisionId})
  {
    var k, e, ds := d.decisionId, Entry(d.decisionId, Record(d, session)), l.decisions;
    assert ds == ds[..m] + ds[m..];
    RemoveShorter(ds[..m], ds[m..], k);
    assert Put(ds, k, Record(d, session)) == Remove(ds[..m], k) + (ds[m..] + [e]);
    m' := TrimmedEndsIn(Remove(ds[..m], k), ds[m..] + [e], l.max, ids + {k});
    if m == 0 {
      assert ds[..m] == [];
      m' := 0;
      NothingRemoved(ds, e, l.max, ids + {k});
    }
  }

  lemma NothingRemoved(tail: Decisions, e: Entry<string, Record>, max: nat, ids: set<string>)
    requires forall x | x in tail + [e] :: x.key in ids
    ensures forall x | x in Trim([] + (tail + [e]), max)[0..] :: x.key in ids
  {
  }

  lemma {:induction false} SavesEndIn(reg: Registry, l: Ledger, ds: seq<Decision>, session: Option<string>, m: nat, n: nat, ids: set<string>)
    returns (m': nat)
    requires LedgerOk(l) && OwnIds(ds) && EndsIn(l.decisions, m, n, ids) && forall d | d in ds :: d.decisionId !in ids
    ensures var later := Run(reg, l, Saves(ds, session));
            && LedgerOk(later) && later.max == l.max && later.receipts == l.receipts
            && EndsIn(later.decisions, m', n + |ds|, ids + IdsOf(ds))
    decreases |ds|
  {
    if ds == [] {
      m' := m;
      assert ids + IdsOf(ds) == ids;
    } else {
      var l1 := WithDecision(l, ds[0], session);
      RestIsOwn(ds, ids);
      m' := SaveEndsIn(l, ds[0], session, m, n, ids);
      WithDecisionOk(l, ds[0], session);
      assert Saves(ds, session)[1..] == Saves(ds[1..], session);
      m' := SavesEndIn(reg, l1, ds[1..], session, m', n + 1, ids + {ds[0].decisionId});
    }
  }

  lemma RestIsOwn(ds: seq<Decision>, ids: set<string>)
    requires ds != [] && OwnIds(ds) && forall d | d in ds :: d.decisionId !in ids
    ensures OwnIds(ds[1..]) && (forall d | d in ds[1..] :: d.decisionId !in ids + {ds[0].decisionId})
    ensures ids + {ds[0].decisionId} + IdsOf(ds[1..]) == ids + IdsOf(ds)
  {
    assert forall d :: d in ds <==> d == ds[0] || d in ds[1..];
  }

  /**
   Saving `max` other decisions strands every command whose decision was there: its receipt is
   untouched, and repeating it is refused.
   */
  lemma SavesStrand(reg: Registry, l: Ledger, c: Command, ds: seq<Decision>, session: Option<string>)
    requires LedgerOk(l) && l.max > 0 && OwnIds(ds) && |ds| >= l.max
    requires var receipt := Get(l.receipts, CommandKey(c.subjectId, c.action));
             receipt.Some? && receipt.value.resultId !in IdsOf(ds)
    ensures var later := Run(reg, l, Saves(ds, session));
            Stranded(later, CommandKey(c.subjectId, c.action)) && later.receipts == l.receipts
  {
    var later := Run(reg, l, Saves(ds, session));
    var m := SavesEndIn(reg, l, ds, session, |l.decisions|, 0, {});
    assert {} + IdsOf(ds) == IdsOf(ds);
    assert m == 0 && later.decisions[0..] == later.decisions;
  }
}
