/**
 The routing ledger: recency-bounded decisions, idempotent interaction commits with receipts,
 session bindings and parent-pointer lineage (the process-local store).
 */
module RoutingLedger {
  import opened Wrappers
  import opened Text
  import opened OrderedDict
  import opened RoutingDecision

  datatype Record = Record(decision: Decision, session: Option<string>)

  /** The receipt fields the protocol reads back. */
  datatype Receipt = Receipt(subjectId: string, resultId: string, key: string, fingerprint: string, reused: bool)

  datatype CommandKey = CommandKey(subjectId: string, action: string)

  type Decisions = Dict<string, Record>
  type Receipts = Dict<CommandKey, Receipt>

  datatype Ledger = Ledger(decisions: Decisions, receipts: Receipts, bindings: map<string, string>, max: nat)

  datatype CommitError = RevisionConflict | IdempotencyConflict | ResultMissing | ChildInvalid(code: Code)

  datatype Command = Command(
    subjectId: string, decision: Decision, session: Option<string>, action: string, key: string, fingerprint: string)

  datatype Committed = Committed(created: bool, decision: Decision, receipt: Receipt)

  /** `max(16, min(int(max_decisions), 1024))`. */
  function Capacity(requested: int): nat {
    Clamp(requested, 16, 1024)
  }

  // ---------------------------------------------------------------- decisions as a cache

  datatype CacheOp = Remember(id: string, record: Record) | ForgetSession(session: string)

  function OutsideSession(session: string): Entry<string, Record> -> bool {
    (e: Entry<string, Record>) => e.value.session != Some(session)
  }

  function Cached(d: Decisions, max: nat, op: CacheOp): Decisions {
    match op
    case Remember(id, record) => Trim(Put(d, id, record), max)
    case ForgetSession(s) => Keep(d, OutsideSession(s))
  }

  function CacheRun(max: nat, ops: seq<CacheOp>): Decisions {
    if ops == [] then [] else Cached(CacheRun(max, ops[..|ops| - 1]), max, ops[|ops| - 1])
  }

  /** The same ledger with room for everything. */
  function Unbounded(ops: seq<CacheOp>): Decisions {
    if ops == [] then []
    else
      var d := Unbounded(ops[..|ops| - 1]);
      match ops[|ops| - 1]
      case Remember(id, record) => Put(d, id, record)
      case ForgetSession(s) => Keep(d, OutsideSession(s))
  }

  lemma {:induction false} CacheIsSuffix(max: nat, ops: seq<CacheOp>)
    ensures Distinct(CacheRun(max, ops)) && Distinct(Unbounded(ops))
    ensures |CacheRun(max, ops)| <= max
    ensures IsSuffix(CacheRun(max, ops), Unbounded(ops))
    decreases |ops|
  {
    if ops != [] {
      var init := ops[..|ops| - 1];
      CacheIsSuffix(max, init);
      var b, u := CacheRun(max, init), Unbounded(init);
      match ops[|ops| - 1]
      case Remember(id, record) =>
        PutFacts(b, id, record);
        PutFacts(u, id, record);
        TrimFacts(Put(b, id, record), max);
        RemoveSuffix(b, u, id);
        assert IsSuffix(Put(b, id, record), Put(u, id, record));
        TrimSuffix(Put(b, id, record), Put(u, id, record), max);
      case ForgetSession(s) =>
        KeepFacts(b, OutsideSession(s));
        KeepFacts(u, OutsideSession(s));
        KeepSuffix(b, u, OutsideSession(s));
    }
  }

  /** The bounded ledger never exceeds its capacity and never answers differently from an unbounded one. */
  lemma CacheHitsAreExact(max: nat, ops: seq<CacheOp>, id: string)
    ensures |CacheRun(max, ops)| <= max
    ensures Get(CacheRun(max, ops), id).Some? ==> Get(Unbounded(ops), id) == Get(CacheRun(max, ops), id)
  {
    CacheIsSuffix(max, ops);
    SubsetHits(CacheRun(max, ops), Unbounded(ops), id);
  }

  function RememberedIds(ops: seq<CacheOp>): set<string> {
    set op | op in ops && op.Remember? :: op.id
  }

  /** The entry at its place, with only ids remembered since then behind it. */
  ghost predicate Recent(d: Decisions, e: Entry<string, Record>, a: Decisions, b: Decisions, since: set<string>) {
    d == a + [e] + b && Distinct(d) && forall x | x in b :: x.key in since
  }

  lemma TrimKeepsRecent(e: Entry<string, Record>, a: Decisions, b: Decisions, max: nat)
    requires |b| < max
    ensures exists a' :: Trim(a + [e] + b, max) == a' + [e] + b
  {
    var d := a + [e] + b;
    if |d| > max {
      assert Trim(d, max) == a[|d| - max..] + [e] + b;
    } else {
      assert Trim(d, max) == a + [e] + b;
    }
  }

  lemma StepKeepsRecent(
    max: nat, d: Decisions, op: CacheOp, e: Entry<string, Record>, a: Decisions, b: Decisions, since: set<string>)
    returns (a': Decisions, b': Decisions)
    requires Recent(d, e, a, b, since)
    requires op.Remember? ==> op.id != e.key && op.id in since && |since| < max
    requires op.ForgetSession? ==> e.value.session != Some(op.session)
    ensures Recent(Cached(d, max, op), e, a', b', since)
  {
    match op
    case Remember(id, record) =>
      RemoveConcat(a + [e], b, id);
      RemoveConcat(a, [e], id);
      assert Remove([e], id) == [e] by { assert [e][..0] == []; }
      b' := Remove(b, id) + [Entry(id, record)];
      var d' := Put(d, id, record);
      assert d' == Remove(a, id) + [e] + b';
      PutFacts(d, id, record);
      TrimFacts(d', max);
      TailDistinct(Remove(a, id) + [e], b');
      CountKeys(b', since);
      TrimKeepsRecent(e, Remove(a, id), b', max);
      a' :| Trim(d', max) == a' + [e] + b';
    case ForgetSession(s) =>
      KeepConcat(a + [e], b, OutsideSession(s));
      KeepConcat(a, [e], OutsideSession(s));
      assert Keep([e], OutsideSession(s)) == [e] by { assert [e][..0] == []; }
      KeepFacts(d, OutsideSession(s));
      a', b' := Keep(a, OutsideSession(s)), Keep(b, OutsideSession(s));
  }

  lemma TailDistinct(a: Decisions, b: Decisions)
    requires Distinct(a + b)
    ensures Distinct(b)
  {
    forall i, j | 0 <= i < j < |b|
      ensures b[i].key != b[j].key
    {
      assert (a + b)[|a| + i] == b[i] && (a + b)[|a| + j] == b[j];
    }
  }

  lemma {:induction false} RecentEntry(max: nat, pre: seq<CacheOp>, id: string, record: Record, post: seq<CacheOp>, n: nat)
    returns (a: Decisions, b: Decisions)
    requires n <= |post| && |RememberedIds(post)| < max
    requires id !in RememberedIds(post)
    requires forall op | op in post && op.ForgetSession? :: record.session != Some(op.session)
    ensures Recent(CacheRun(max, pre + [Remember(id, record)] + post[..n]), Entry(id, record), a, b, RememberedIds(post))
    decreases n
  {
    var e := Entry(id, record);
    var ops := pre + [Remember(id, record)] + post[..n];
    if n == 0 {
      assert ops == pre + [Remember(id, record)] && ops[..|ops| - 1] == pre;
      CacheIsSuffix(max, pre);
      var d := CacheRun(max, pre);
      PutFacts(d, id, record);
      TrimFacts(Put(d, id, record), max);
      assert Put(d, id, record) == Remove(d, id) + [e] + [];
      TrimKeepsRecent(e, Remove(d, id), [], max);
      a :| Trim(Put(d, id, record), max) == a + [e] + [];
      b := [];
    } else {
      a, b := RecentEntry(max, pre, id, record, post, n - 1);
      assert ops[..|ops| - 1] == pre + [Remember(id, record)] + post[..n - 1];
      assert ops[|ops| - 1] == post[n - 1] && post[n - 1] in post;
      a, b := StepKeepsRecent(max, CacheRun(max, ops[..|ops| - 1]), post[n - 1], e, a, b, RememberedIds(post));
    }
  }

  /**
   A decision is still there, unchanged, as long as fewer than `max` other ids have been
   remembered since and its session has not been forgotten.
   */
  lemma RecentDecisionIsKept(max: nat, pre: seq<CacheOp>, id: string, record: Record, post: seq<CacheOp>)
    requires |RememberedIds(post)| < max && id !in RememberedIds(post)
    requires forall op | op in post && op.ForgetSession? :: record.session != Some(op.session)
    ensures Get(CacheRun(max, pre + [Remember(id, record)] + post), id) == Some(record)
  {
    var a, b := RecentEntry(max, pre, id, record, post, |post|);
    assert post[..|post|] == post;
    var d := CacheRun(max, pre + [Remember(id, record)] + post);
    assert d[|a|] == Entry(id, record);
    GetIsMember(d, id, record);
  }

  // ---------------------------------------------------------------- the operations

  /** `project_action_receipt`: the stored key, fingerprint and result id are cut to fixed widths. */
  function Project(subjectId: string, resultId: string, key: string, fingerprint: string, reused: bool): Receipt {
    Receipt(Take(subjectId, 160), Take(resultId, 160), Take(key, 128), Take(fingerprint, 160), reused)
  }

  function Reused(r: Receipt): Receipt {
    Project(r.subjectId, r.resultId, r.key, r.fingerprint, true)
  }

  function DomainOf(d: Decision): string {
    if d.selection.Some? then d.selection.value.domainId else ""
  }

  /** The newest child of `subject` among the decisions of the session (of any session for None). */
  function ChildIn(d: Decisions, subject: string, session: Option<string>): Option<Record> {
    if d == [] then None
    else
      var last := d[|d| - 1].value;
      if (session.None? || last.session == session) && last.decision.parent == Some(subject) then Some(last)
      else ChildIn(d[..|d| - 1], subject, session)
  }

  predicate KeyTaken(receipts: Receipts, key: string) {
    exists e | e in receipts :: e.value.key == key
  }

  function WithDecision(l: Ledger, d: Decision, session: Option<string>): Ledger {
    l.(decisions := Cached(l.decisions, l.max, Remember(d.decisionId, Record(d, session))))
  }

  function WithReceipt(l: Ledger, k: CommandKey, r: Receipt): Ledger {
    l.(receipts := Trim(Put(l.receipts, k, r), l.max))
  }

  /** The decision a fresh command commits to: the session's existing child, else its own. */
  function Settle(reg: Registry, l: Ledger, c: Command): Result<(bool, Decision), CommitError> {
    match ChildIn(l.decisions, c.subjectId, c.session)
    case None => Ok((true, c.decision))
    case Some(record) =>
      match Resolve(reg, record.decision)
      case Err(code) => Err(ChildInvalid(code))
      case Ok(child) =>
        if DomainOf(child) != DomainOf(c.decision) then Err(RevisionConflict) else Ok((false, child))
  }

  /** `commit_interaction`, as one atomic step. */
  function Commit(reg: Registry, l: Ledger, c: Command): (Ledger, Result<Committed, CommitError>) {
    var k := CommandKey(c.subjectId, c.action);
    match Get(l.receipts, k)
    case Some(receipt) =>
      if receipt.key != c.key || receipt.fingerprint != c.fingerprint then (l, Err(RevisionConflict))
      else (match Get(l.decisions, receipt.resultId)
            case None => (l, Err(ResultMissing))
            case Some(record) => (l, Ok(Committed(false, record.decision, Reused(receipt)))))
    case None =>
      if KeyTaken(l.receipts, c.key) then (l, Err(IdempotencyConflict))
      else
        match Settle(reg, l, c)
        case Err(e) => (l, Err(e))
        case Ok((created, committed)) =>
          var l1 := if created then WithDecision(l, committed, c.session) else l;
          var receipt := Project(c.subjectId, committed.decisionId, c.key, c.fingerprint, false);
          (WithReceipt(l1, k, receipt), Ok(Committed(created, committed, receipt)))
  }

  function SessionIds(d: Decisions, session: string): set<string> {
    set e | e in d && e.value.session == Some(session) :: e.key
  }

  function SubjectOutside(ids: set<string>): Entry<CommandKey, Receipt> -> bool {
    (e: Entry<CommandKey, Receipt>) => e.key.subjectId !in ids
  }

  /** `forget`: the session's decisions, the receipts about them, and (unless kept) its binding. */
  function Forgotten(l: Ledger, session: string, keepBinding: bool): Ledger {
    l.(decisions := Cached(l.decisions, l.max, ForgetSession(session)),
       receipts := Keep(l.receipts, SubjectOutside(SessionIds(l.decisions, session))),
       bindings := if keepBinding then l.bindings else l.bindings - {session})
  }

  function Bound(l: Ledger, session: string, domainId: string): Result<Ledger, ()> {
    if session == "" then Ok(l)
    else if session in l.bindings && l.bindings[session] != "" && l.bindings[session] != domainId then Err(())
    else Ok(l.(bindings := l.bindings[session := domainId]))
  }

  /** The Domain a session is bound to, if any. */
  function BoundDomain(l: Ledger, session: Option<string>): Option<string> {
    if session.Some? && session.value != "" && session.value in l.bindings && l.bindings[session.value] != ""
    then Some(l.bindings[session.value])
    else None
  }

  /** `get`: a hit must belong to the session that asks, when one is given. */
  function Lookup(d: Decisions, id: string, session: Option<string>): Option<Decision> {
    match Get(d, id)
    case None => None
    case Some(record) => if session.Some? && record.session != session then None else Some(record.decision)
  }

  /** Root-to-current chain of parents, as far as ledger, room and distinctness allow. */
  function LineageOf(d: Decisions, session: Option<string>, current: Decision, room: nat, seen: set<string>): seq<Decision>
    decreases room
  {
    var id := current.decisionId;
    if room == 0 || id == "" || id in seen then []
    else if current.parent.None? || current.parent.value == "" then [current]
    else
      match Lookup(d, current.parent.value, session)
      case None => [current]
      case Some(parent) => LineageOf(d, session, parent, room - 1, seen + {id}) + [current]
  }

  function Reverse<T>(s: seq<T>): seq<T> {
    if s == [] then [] else [s[|s| - 1]] + Reverse(s[..|s| - 1])
  }

  // ---------------------------------------------------------------- the object

  function KeyOutside(ids: set<string>): Entry<string, Record> -> bool {
    (e: Entry<string, Record>) => e.key !in ids
  }

  lemma KeepStep(init: Decisions, last: Entry<string, Record>, p: Entry<string, Record> -> bool)
    ensures Keep(init + [last], p) == if p(last) then Keep(init, p) + [last] else Keep(init, p)
  {
    assert (init + [last])[..|init|] == init;
  }

  lemma RemoveStep(init: Decisions, last: Entry<string, Record>, id: string)
    ensures Remove(init + [last], id) == if last.key == id then Remove(init, id) else Remove(init, id) + [last]
  {
    assert (init + [last])[..|init|] == init;
  }

  lemma {:induction false} RemoveOneMore(d: Decisions, ids: set<string>, id: string)
    ensures Remove(Keep(d, KeyOutside(ids)), id) == Keep(d, KeyOutside(ids + {id}))
    decreases |d|
  {
    if d != [] {
      var init, last := d[..|d| - 1], d[|d| - 1];
      RemoveOneMore(init, ids, id);
      assert d == init + [last];
      KeepStep(init, last, KeyOutside(ids));
      KeepStep(init, last, KeyOutside(ids + {id}));
      RemoveStep(Keep(init, KeyOutside(ids)), last, id);
    }
  }

  function SetOf(ids: seq<string>): set<string> {
    set id | id in ids
  }

  lemma SetOfNext(ids: seq<string>, i: nat)
    requires i < |ids|
    ensures SetOf(ids[..i + 1]) == SetOf(ids[..i]) + {ids[i]}
  {
    assert ids[..i + 1] == ids[..i] + [ids[i]];
  }

  lemma {:induction false} KeepSame<K(!new), V(!new)>(d: Dict<K, V>, p: Entry<K, V> -> bool, q: Entry<K, V> -> bool)
    requires forall e | e in d :: p(e) == q(e)
    ensures Keep(d, p) == Keep(d, q)
    decreases |d|
  {
    if d != [] {
      assert d[|d| - 1] in d;
      KeepSame(d[..|d| - 1], p, q);
    }
  }

  lemma KeepAll(d: Decisions)
    ensures Keep(d, KeyOutside({})) == d
    decreases |d|
  {
    if d != [] {
      KeepAll(d[..|d| - 1]);
    }
  }

  lemma SessionByKey(d: Decisions, session: string)
    requires Distinct(d)
    ensures Keep(d, KeyOutside(SessionIds(d, session))) == Keep(d, OutsideSession(session))
  {
    forall e | e in d
      ensures KeyOutside(SessionIds(d, session))(e) == OutsideSession(session)(e)
    {
      if e.key in SessionIds(d, session) {
        var x :| x in d && x.value.session == Some(session) && x.key == e.key;
        GetIsMember(d, x.key, x.value);
        GetIsMember(d, e.key, e.value);
      }
    }
    KeepSame(d, KeyOutside(SessionIds(d, session)), OutsideSession(session));
  }

  class DomainRoutingState {
    const registry: Registry
    const maxDecisions: nat
    var decisions: Decisions
    var receipts: Receipts
    var bindings: map<string, string>

    constructor (registry: Registry, requested: int)
      ensures this.registry == registry && Contents() == Ledger([], [], map[], Capacity(requested))
      ensures 16 <= maxDecisions <= 1024 && Valid()
    {
      this.registry := registry;
      maxDecisions := Capacity(requested);
      decisions, receipts, bindings := [], [], map[];
    }

    ghost function Contents(): Ledger
      reads this
    {
      Ledger(decisions, receipts, bindings, maxDecisions)
    }

    ghost predicate Valid()
      reads this
    {
      LedgerOk(Contents())
    }

    method RememberDecision(decision: Decision, session: Option<string>)
      requires Valid()
      modifies this`decisions
      ensures Contents() == WithDecision(old(Contents()), decision, session)
    {
      decisions := Put(decisions, decision.decisionId, Record(decision, session));
      while |decisions| > maxDecisions
        invariant Trim(decisions, maxDecisions)
                  == Trim(Put(old(decisions), decision.decisionId, Record(decision, session)), maxDecisions)
      {
        decisions := decisions[1..];
      }
    }

    method RememberReceipt(k: CommandKey, receipt: Receipt)
      requires Valid()
      modifies this`receipts
      ensures Contents() == WithReceipt(old(Contents()), k, receipt)
    {
      receipts := Put(receipts, k, receipt);
      while |receipts| > maxDecisions
        invariant Trim(receipts, maxDecisions) == Trim(Put(old(receipts), k, receipt), maxDecisions)
      {
        receipts := receipts[1..];
      }
    }

    method Save(decision: Decision, session: Option<string>)
      requires Valid()
      modifies this`decisions
      ensures Valid() && Contents() == WithDecision(old(Contents()), decision, session)
    {
      RememberDecision(decision, session);
      WithDecisionOk(old(Contents()), decision, session);
    }

    method GetDecision(id: string, session: Option<string>) returns (r: Option<Decision>)
      ensures r == Lookup(decisions, id, session)
    {
      var record := Get(decisions, id);
      if record.None? || (session.Some? && record.value.session != session) {
        return None;
      }
      return Some(record.value.decision);
    }

    /** `bound_domain`: an empty binding counts as none. */
    method BoundTo(session: Option<string>) returns (r: Option<string>)
      ensures r == BoundDomain(Contents(), session)
    {
      if session.None? || session.value == "" || session.value !in bindings || bindings[session.value] == "" {
        return None;
      }
      return Some(bindings[session.value]);
    }

    /** The newest-first scan shared by `child` and `commit_interaction`. */
    method Child(subject: string, session: Option<string>) returns (r: Option<Record>)
      ensures r == ChildIn(decisions, subject, session)
    {
      var n := |decisions|;
      assert decisions[..n] == decisions;
      while n > 0
        invariant 0 <= n <= |decisions|
        invariant ChildIn(decisions[..n], subject, session) == ChildIn(decisions, subject, session)
      {
        assert decisions[..n][..n - 1] == decisions[..n - 1];
        var record := decisions[n - 1].value;
        if (session.None? || record.session == session) && record.decision.parent == Some(subject) {
          return Some(record);
        }
        n := n - 1;
      }
      return None;
    }

    method CommitInteraction(c: Command) returns (r: Result<Committed, CommitError>)
      requires Valid()
      modifies this`decisions, this`receipts
      ensures Valid() && (Contents(), r) == Commit(registry, old(Contents()), c)
    {
      var k := CommandKey(c.subjectId, c.action);
      var existing := Get(receipts, k);
      if existing.Some? {
        if existing.value.key != c.key || existing.value.fingerprint != c.fingerprint {
          return Err(RevisionConflict);
        }
        var result := Get(decisions, existing.value.resultId);
        if result.None? {
          return Err(ResultMissing);
        }
        return Ok(Committed(false, result.value.decision, Reused(existing.value)));
      }
      for i := 0 to |receipts|
        invariant forall j | 0 <= j < i :: receipts[j].value.key != c.key
      {
        if receipts[i].value.key == c.key {
          assert receipts[i] in receipts;
          return Err(IdempotencyConflict);
        }
      }
      assert !KeyTaken(receipts, c.key);
      var existingChild := Child(c.subjectId, c.session);
      var created := existingChild.None?;
      var committed := c.decision;
      if existingChild.Some? {
        var child := Resolve(registry, existingChild.value.decision);
        if child.Err? {
          return Err(ChildInvalid(child.error));
        }
        if DomainOf(child.value) != DomainOf(c.decision) {
          return Err(RevisionConflict);
        }
        committed := child.value;
      } else {
        Save(committed, c.session);
      }
      var receipt := Project(c.subjectId, committed.decisionId, c.key, c.fingerprint, false);
      ghost var middle := Contents();
      RememberReceipt(k, receipt);
      WithReceiptOk(middle, k, receipt);
      return Ok(Committed(created, committed, receipt));
    }

    /** `decision_ids = [...]`. */
    method IdsOf(session: string) returns (ids: seq<string>)
      ensures SetOf(ids) == SessionIds(decisions, session)
    {
      ids := [];
      for i := 0 to |decisions|
        invariant forall id :: id in ids <==> exists j | 0 <= j < i :: decisions[j].key == id && decisions[j].value.session == Some(session)
      {
        if decisions[i].value.session == Some(session) {
          ids := ids + [decisions[i].key];
        }
      }
    }

    /** `for decision_id in decision_ids: self._decisions.pop(decision_id, None)`. */
    method DropAll(ids: seq<string>)
      modifies this`decisions
      ensures decisions == Keep(old(decisions), KeyOutside(SetOf(ids)))
    {
      KeepAll(decisions);
      assert SetOf(ids[..0]) == {};
      for i := 0 to |ids|
        invariant decisions == Keep(old(decisions), KeyOutside(SetOf(ids[..i])))
      {
        RemoveOneMore(old(decisions), SetOf(ids[..i]), ids[i]);
        SetOfNext(ids, i);
        decisions := Remove(decisions, ids[i]);
      }
      assert ids[..|ids|] == ids;
    }

    method Forget(session: string, keepBinding: bool)
      requires Valid()
      modifies this
      ensures Valid() && Contents() == Forgotten(old(Contents()), session, keepBinding)
    {
      var ids := IdsOf(session);
      DropAll(ids);
      SessionByKey(old(decisions), session);
      receipts := Keep(receipts, SubjectOutside(SetOf(ids)));
      if !keepBinding {
        bindings := bindings - {session};
      }
      ForgetOk(old(Contents()), session, keepBinding);
    }

    method Bind(session: string, domainId: string) returns (r: Result<(), ()>)
      requires Valid()
      modifies this`bindings
      ensures Valid()
      ensures r.Ok? <==> Bound(old(Contents()), session, domainId).Ok?
      ensures Contents() == if r.Ok? then Bound(old(Contents()), session, domainId).value else old(Contents())
    {
      if session == "" {
        return Ok(());
      }
      if session in bindings && bindings[session] != "" && bindings[session] != domainId {
        return Err(());
      }
      bindings := bindings[session := domainId];
      return Ok(());
    }

    method Lineage(decision: Decision, session: Option<string>, limit: int) returns (values: seq<Decision>)
      ensures values == LineageOf(decisions, session, decision, Clamp(limit, 1, 16), {})
    {
      var room: nat := Clamp(limit, 1, 16);
      var current := decision;
      values := [];
      var seen: set<string> := {};
      while |values| < room && current.decisionId != "" && current.decisionId !in seen
        invariant |values| <= room
        invariant StillToCome(decisions, session, decision, room, {}, [])
                  == StillToCome(decisions, session, current, room - |values|, seen, values)
        decreases room - |values|
      {
        seen := seen + {current.decisionId};
        values := values + [current];
        var parent := if current.parent.Some? then current.parent.value else "";
        var restored := GetDecision(parent, session);
        if parent == "" || restored.None? {
          return Reverse(values);
        }
        current := restored.value;
      }
      return Reverse(values);
    }
  }

  /** The whole answer, when `values` have been collected and the walk goes on at `current`. */
  ghost function StillToCome(
    d: Decisions, session: Option<string>, current: Decision, room: nat, seen: set<string>, values: seq<Decision>
  ): (r: seq<Decision>)
    ensures room == 0 || current.decisionId == "" || current.decisionId in seen ==> r == Reverse(values)
    ensures values == [] ==> r == LineageOf(d, session, current, room, seen)
  {
    LineageOf(d, session, current, room, seen) + Reverse(values)
  }

  // ---------------------------------------------------------------- what every operation keeps

  /** Capacity, distinct keys, and every decision filed under its own id. */
  ghost predicate LedgerOk(l: Ledger) {
    && |l.decisions| <= l.max && |l.receipts| <= l.max
    && Distinct(l.decisions) && Distinct(l.receipts)
    && forall e | e in l.decisions :: e.value.decision.decisionId == e.key
  }

  lemma WithDecisionOk(l: Ledger, d: Decision, session: Option<string>)
    requires LedgerOk(l)
    ensures LedgerOk(WithDecision(l, d, session))
  {
    PutFacts(l.decisions, d.decisionId, Record(d, session));
    TrimFacts(Put(l.decisions, d.decisionId, Record(d, session)), l.max);
  }

  lemma WithReceiptOk(l: Ledger, k: CommandKey, r: Receipt)
    requires LedgerOk(l)
    ensures LedgerOk(WithReceipt(l, k, r))
  {
    PutFacts(l.receipts, k, r);
    TrimFacts(Put(l.receipts, k, r), l.max);
  }

  lemma ForgetOk(l: Ledger, session: string, keepBinding: bool)
    requires LedgerOk(l)
    ensures LedgerOk(Forgotten(l, session, keepBinding))
  {
    KeepFacts(l.decisions, OutsideSession(session));
    KeepFacts(l.receipts, SubjectOutside(SessionIds(l.decisions, session)));
  }

  lemma CommitOk(reg: Registry, l: Ledger, c: Command)
    requires LedgerOk(l)
    ensures LedgerOk(Commit(reg, l, c).0)
  {
    WithDecisionOk(l, c.decision, c.session);
    var s := Settle(reg, l, c);
    if s.Ok? {
      var l1 := if s.value.0 then WithDecision(l, s.value.1, c.session) else l;
      WithReceiptOk(l1, CommandKey(c.subjectId, c.action), Project(c.subjectId, s.value.1.decisionId, c.key, c.fingerprint, false));
    }
  }
}
