/** Properties of the routing ledger over whole runs of its operations. */
module RoutingLedgerSafety {
  import opened Wrappers
  import opened Text
  import opened OrderedDict
  import opened RoutingDecision
  import opened RoutingLedger

  datatype Op =
    | SaveOp(decision: Decision, session: Option<string>)
    | CommitOp(command: Command)
    | ForgetOp(session': string, keepBinding: bool)

  function Apply(reg: Registry, l: Ledger, op: Op): Ledger {
    match op
    case SaveOp(d, s) => WithDecision(l, d, s)
    case CommitOp(c) => Commit(reg, l, c).0
    case ForgetOp(s, keep) => Forgotten(l, s, keep)
  }

  function Run(reg: Registry, l: Ledger, ops: seq<Op>): Ledger
    decreases |ops|
  {
    if ops == [] then l else Run(reg, Apply(reg, l, ops[0]), ops[1..])
  }

  lemma ApplyOk(reg: Registry, l: Ledger, op: Op)
    requires LedgerOk(l)
    ensures LedgerOk(Apply(reg, l, op)) && Apply(reg, l, op).max == l.max
  {
    match op
    case SaveOp(d, s) => WithDecisionOk(l, d, s);
    case CommitOp(c) => CommitOk(reg, l, c);
    case ForgetOp(s, keep) => ForgetOk(l, s, keep);
  }

  lemma {:induction false} RunOk(reg: Registry, l: Ledger, ops: seq<Op>)
    requires LedgerOk(l)
    ensures LedgerOk(Run(reg, l, ops)) && Run(reg, l, ops).max == l.max
    decreases |ops|
  {
    if ops != [] {
      ApplyOk(reg, l, ops[0]);
      RunOk(reg, Apply(reg, l, ops[0]), ops[1..]);
    }
  }

  // ---------------------------------------------------------------- refused commits

  /** A refused commit changes nothing, and each refusal has exactly one cause. */
  lemma RefusalsChangeNothing(reg: Registry, l: Ledger, c: Command)
    ensures var (l', r) := Commit(reg, l, c);
            var receipt := Get(l.receipts, CommandKey(c.subjectId, c.action));
            && (r.Err? ==> l' == l)
            && (receipt.Some? ==> l' == l)
            && (receipt.Some? && (receipt.value.key != c.key || receipt.value.fingerprint != c.fingerprint)
                ==> r == Err(RevisionConflict))
            && (receipt.None? && KeyTaken(l.receipts, c.key) <==> r == Err(IdempotencyConflict))
            && (receipt.None? && !KeyTaken(l.receipts, c.key) && r == Err(RevisionConflict) ==>
                  ChildIn(l.decisions, c.subjectId, c.session).Some?)
  {
  }

  // ---------------------------------------------------------------- idempotency keys

  ghost predicate KeysDistinct(receipts: Receipts) {
    forall i, j | 0 <= i < j < |receipts| :: receipts[i].value.key != receipts[j].value.key
  }

  lemma {:induction false} RemoveKeysDistinct(receipts: Receipts, k: CommandKey)
    requires KeysDistinct(receipts)
    ensures KeysDistinct(Remove(receipts, k))
    decreases |receipts|
  {
    if receipts != [] {
      var init, last := receipts[..|receipts| - 1], receipts[|receipts| - 1];
      RemoveKeysDistinct(init, k);
      forall i | 0 <= i < |Remove(init, k)|
        ensures Remove(init, k)[i].value.key != last.value.key
      {
        var e := Remove(init, k)[i];
        assert e in Remove(init, k);
        var j :| 0 <= j < |init| && init[j] == e;
        assert receipts[j].value.key != receipts[|receipts| - 1].value.key;
      }
    }
  }

  lemma {:induction false} KeepKeysDistinct(receipts: Receipts, p: Entry<CommandKey, Receipt> -> bool)
    requires KeysDistinct(receipts)
    ensures KeysDistinct(Keep(receipts, p))
    decreases |receipts|
  {
    if receipts != [] {
      var init, last := receipts[..|receipts| - 1], receipts[|receipts| - 1];
      KeepKeysDistinct(init, p);
      forall i | 0 <= i < |Keep(init, p)|
        ensures Keep(init, p)[i].value.key != last.value.key
      {
        var e := Keep(init, p)[i];
        assert e in Keep(init, p);
        var j :| 0 <= j < |init| && init[j] == e;
        assert receipts[j].value.key != receipts[|receipts| - 1].value.key;
      }
    }
  }

  /** A key as long as a command can carry is stored whole, so no other receipt holds it. */
  lemma NewReceiptKeysDistinct(l: Ledger, k: CommandKey, resultId: string, c: Command)
    requires KeysDistinct(l.receipts) && !KeyTaken(l.receipts, c.key) && |c.key| <= 128
    ensures KeysDistinct(WithReceipt(l, k, Project(c.subjectId, resultId, c.key, c.fingerprint, false)).receipts)
  {
    RemoveKeysDistinct(l.receipts, k);
    forall i | 0 <= i < |Remove(l.receipts, k)|
      ensures Remove(l.receipts, k)[i].value.key != c.key
    {
      assert Remove(l.receipts, k)[i] in Remove(l.receipts, k);
    }
  }

  lemma CommitKeysDistinct(reg: Registry, l: Ledger, c: Command)
    requires KeysDistinct(l.receipts) && |c.key| <= 128
    ensures KeysDistinct(Commit(reg, l, c).0.receipts)
  {
    var s := Settle(reg, l, c);
    if Get(l.receipts, CommandKey(c.subjectId, c.action)).None? && !KeyTaken(l.receipts, c.key) && s.Ok? {
      var l1 := if s.value.0 then WithDecision(l, s.value.1, c.session) else l;
      NewReceiptKeysDistinct(l1, CommandKey(c.subjectId, c.action), s.value.1.decisionId, c);
    }
  }

  lemma ApplyKeysDistinct(reg: Registry, l: Ledger, op: Op)
    requires KeysDistinct(l.receipts) && (op.CommitOp? ==> |op.command.key| <= 128)
    ensures KeysDistinct(Apply(reg, l, op).receipts)
  {
    match op
    case SaveOp(_, _) =>
    case CommitOp(c) => CommitKeysDistinct(reg, l, c);
    case ForgetOp(s, _) => KeepKeysDistinct(l.receipts, SubjectOutside(SessionIds(l.decisions, s)));
  }

  /** Over any run whose commands respect the 128-character key bound, keys stay pairwise distinct. */
  lemma {:induction false} RunKeysDistinct(reg: Registry, l: Ledger, ops: seq<Op>)
    requires KeysDistinct(l.receipts)
    requires forall op | op in ops && op.CommitOp? :: |op.command.key| <= 128
    ensures KeysDistinct(Run(reg, l, ops).receipts)
    decreases |ops|
  {
    if ops != [] {
      assert ops[0] in ops;
      ApplyKeysDistinct(reg, l, ops[0]);
      RunKeysDistinct(reg, Apply(reg, l, ops[0]), ops[1..]);
    }
  }

  /** Beyond the bound the stored key is cut, so the same long key commits for two subjects. */
  lemma LongKeyCommitsTwice(reg: Registry, max: nat, a: Command, b: Command)
    requires max >= 2 && |a.key| > 128 && b.key == a.key
    requires a.subjectId != b.subjectId && a.decision.parent == Some(a.subjectId)
    ensures var (l1, r1) := Commit(reg, Ledger([], [], map[], max), a);
            var (l2, r2) := Commit(reg, l1, b);
            r1.Ok? && r2.Ok? && !KeysDistinct(l2.receipts)
  {
    var ka, kb := CommandKey(a.subjectId, a.action), CommandKey(b.subjectId, b.action);
    var ra := Project(a.subjectId, a.decision.decisionId, a.key, a.fingerprint, false);
    var rb := Project(b.subjectId, b.decision.decisionId, b.key, b.fingerprint, false);
    var (l1, r1) := Commit(reg, Ledger([], [], map[], max), a);
    assert l1.receipts == [Entry(ka, ra)] && l1.decisions == [Entry(a.decision.decisionId, Record(a.decision, a.session))];
    assert l1.receipts[..0] == [] && l1.decisions[..0] == [];
    assert Get(l1.receipts, kb).None? && !KeyTaken(l1.receipts, b.key) by {
      assert ra.key == a.key[..128];
    }
    assert ChildIn(l1.decisions, b.subjectId, b.session).None? by {
      assert l1.decisions[..|l1.decisions| - 1] == [];
      assert ChildIn(l1.decisions, b.subjectId, b.session) == ChildIn([], b.subjectId, b.session);
    }
    var (l2, r2) := Commit(reg, l1, b);
    assert Remove([Entry(ka, ra)], kb) == [Entry(ka, ra)] by { assert [Entry(ka, ra)][..0] == []; }
    assert l2.receipts == [Entry(ka, ra), Entry(kb, rb)];
    assert l2.receipts[0].value.key == l2.receipts[1].value.key;
  }

  // ---------------------------------------------------------------- one child per parent

  /** No two retained decisions of one session share a parent. */
  ghost predicate NoTwins(d: Decisions) {
    forall i, j | 0 <= i < j < |d| :: !Twins(d[i].value, d[j].value)
  }

  predicate Twins(a: Record, b: Record) {
    a.session == b.session && a.decision.parent.Some? && a.decision.parent == b.decision.parent
  }

  lemma {:induction false} ChildInFacts(d: Decisions, subject: string, session: Option<string>)
    ensures ChildIn(d, subject, session).None? <==>
            forall e | e in d :: !((session.None? || e.value.session == session) && e.value.decision.parent == Some(subject))
    ensures ChildIn(d, subject, session).Some? ==>
            exists e | e in d :: e.value == ChildIn(d, subject, session).value
                                 && (session.None? || e.value.session == session) && e.value.decision.parent == Some(subject)
    decreases |d|
  {
    if d != [] {
      var init, last := d[..|d| - 1], d[|d| - 1];
      ChildInFacts(init, subject, session);
      assert d == init + [last];
    }
  }

  /** `small` lists some of the entries of `big`, in the same order. */
  ghost predicate Thinned(small: Decisions, big: Decisions, at: seq<nat>) {
    && |at| == |small|
    && (forall i | 0 <= i < |small| :: at[i] < |big| && big[at[i]] == small[i])
    && (forall i, j | 0 <= i < j < |small| :: at[i] < at[j])
  }

  lemma {:induction false} RemoveThins(d: Decisions, id: string) returns (at: seq<nat>)
    ensures Thinned(Remove(d, id), d, at)
    decreases |d|
  {
    if d == [] {
      at := [];
    } else {
      at := RemoveThins(d[..|d| - 1], id);
      assert d == d[..|d| - 1] + [d[|d| - 1]];
      if d[|d| - 1].key != id {
        at := at + [|d| - 1];
      }
    }
  }

  lemma {:induction false} KeepThins(d: Decisions, p: Entry<string, Record> -> bool) returns (at: seq<nat>)
    ensures Thinned(Keep(d, p), d, at)
    decreases |d|
  {
    if d == [] {
      at := [];
    } else {
      at := KeepThins(d[..|d| - 1], p);
      assert d == d[..|d| - 1] + [d[|d| - 1]];
      if p(d[|d| - 1]) {
        at := at + [|d| - 1];
      }
    }
  }

  /** Remembering a decision without a sibling in its session creates no twins. */
  lemma RememberNoTwins(l: Ledger, d: Decision, session: Option<string>)
    requires NoTwins(l.decisions)
    requires d.parent.Some? ==>
               forall e | e in l.decisions :: !(e.value.session == session && e.value.decision.parent == d.parent)
    ensures NoTwins(WithDecision(l, d, session).decisions)
  {
    var at := RemoveThins(l.decisions, d.decisionId);
    var rest := Remove(l.decisions, d.decisionId);
    forall i | 0 <= i < |rest|
      ensures !Twins(rest[i].value, Record(d, session))
    {
      assert rest[i] in rest;
    }
  }

  /** What the routing application passes in: roots are saved, children arrive through commits. */
  ghost predicate AsRouted(op: Op) {
    match op
    case SaveOp(d, _) => d.parent.None?
    case CommitOp(c) => c.decision.parent == Some(c.subjectId)
    case ForgetOp(_, _) => true
  }

  lemma ApplyNoTwins(reg: Registry, l: Ledger, op: Op)
    requires NoTwins(l.decisions) && AsRouted(op)
    ensures NoTwins(Apply(reg, l, op).decisions)
  {
    match op
    case SaveOp(d, s) => RememberNoTwins(l, d, s);
    case CommitOp(c) =>
      ChildInFacts(l.decisions, c.subjectId, c.session);
      if ChildIn(l.decisions, c.subjectId, c.session).None? {
        RememberNoTwins(l, c.decision, c.session);
      }
    case ForgetOp(s, _) =>
      var at := KeepThins(l.decisions, OutsideSession(s));
  }

  /** No parent ever has two retained children in one session. */
  lemma {:induction false} RunNoTwins(reg: Registry, l: Ledger, ops: seq<Op>)
    requires NoTwins(l.decisions) && forall op | op in ops :: AsRouted(op)
    ensures NoTwins(Run(reg, l, ops).decisions)
    decreases |ops|
  {
    if ops != [] {
      assert ops[0] in ops;
      ApplyNoTwins(reg, l, ops[0]);
      RunNoTwins(reg, Apply(reg, l, ops[0]), ops[1..]);
    }
  }

  // ---------------------------------------------------------------- idempotent commits

  /** The decision id an operation would file, when it files one. */
  function Files(op: Op): Option<string> {
    match op
    case SaveOp(d, _) => Some(d.decisionId)
    case CommitOp(c) => Some(c.decision.decisionId)
    case ForgetOp(_, _) => None
  }

  /** Receipt and decision are there before and after each of these operations. */
  ghost predicate Retained(reg: Registry, l: Ledger, ops: seq<Op>, k: CommandKey, id: string)
    decreases |ops|
  {
    && Get(l.receipts, k).Some? && Get(l.decisions, id).Some?
    && (ops != [] ==> Retained(reg, Apply(reg, l, ops[0]), ops[1..], k, id))
  }

  lemma PutOther<K(!new), V(!new)>(d: Dict<K, V>, max: nat, k: K, v: V, other: K)
    requires Distinct(d) && other != k
    ensures Get(Trim(Put(d, k, v), max), other).Some? ==> Get(Trim(Put(d, k, v), max), other) == Get(d, other)
  {
    PutFacts(d, k, v);
    TrimFacts(Put(d, k, v), max);
    var found := Get(Trim(Put(d, k, v), max), other);
    if found.Some? {
      assert Entry(other, found.value) in d;
      GetIsMember(d, other, found.value);
    }
  }

  /** A hit that survives answers as before. */
  ghost predicate SameHit<K(!new), V(!new)>(before: Dict<K, V>, after: Dict<K, V>, k: K) {
    Get(after, k).Some? ==> Get(after, k) == Get(before, k)
  }

  lemma CommitKeepsAnswers(reg: Registry, l: Ledger, c: Command, k: CommandKey, id: string)
    requires LedgerOk(l) && Get(l.receipts, k).Some? && c.decision.decisionId != id
    ensures SameHit(l.receipts, Commit(reg, l, c).0.receipts, k)
    ensures SameHit(l.decisions, Commit(reg, l, c).0.decisions, id)
  {
    var k' := CommandKey(c.subjectId, c.action);
    var s := Settle(reg, l, c);
    if Get(l.receipts, k').None? && !KeyTaken(l.receipts, c.key) && s.Ok? {
      PutOther(l.receipts, l.max, k', Project(c.subjectId, s.value.1.decisionId, c.key, c.fingerprint, false), k);
      if s.value.0 {
        PutOther(l.decisions, l.max, c.decision.decisionId, Record(c.decision, c.session), id);
      }
    }
  }

  /** No operation rewrites a receipt, and none rewrites a decision it does not file. */
  lemma ApplyKeepsAnswers(reg: Registry, l: Ledger, op: Op, k: CommandKey, id: string)
    requires LedgerOk(l) && Get(l.receipts, k).Some? && Files(op) != Some(id)
    ensures SameHit(l.receipts, Apply(reg, l, op).receipts, k)
    ensures SameHit(l.decisions, Apply(reg, l, op).decisions, id)
  {
    match op
    case SaveOp(d, s) => PutOther(l.decisions, l.max, d.decisionId, Record(d, s), id);
    case CommitOp(c) => CommitKeepsAnswers(reg, l, c, k, id);
    case ForgetOp(s, _) =>
      KeepFacts(l.decisions, OutsideSession(s));
      KeepFacts(l.receipts, SubjectOutside(SessionIds(l.decisions, s)));
      SubsetHits(Keep(l.decisions, OutsideSession(s)), l.decisions, id);
      SubsetHits(Keep(l.receipts, SubjectOutside(SessionIds(l.decisions, s))), l.receipts, k);
  }

  lemma {:induction false} RetainedKeepsAnswers(reg: Registry, l: Ledger, ops: seq<Op>, k: CommandKey, id: string)
    requires LedgerOk(l) && Retained(reg, l, ops, k, id)
    requires forall op | op in ops :: Files(op) != Some(id)
    ensures Get(Run(reg, l, ops).receipts, k) == Get(l.receipts, k)
    ensures Get(Run(reg, l, ops).decisions, id) == Get(l.decisions, id)
    decreases |ops|
  {
    if ops != [] {
      assert ops[0] in ops;
      ApplyKeepsAnswers(reg, l, ops[0], k, id);
      ApplyOk(reg, l, ops[0]);
      RetainedKeepsAnswers(reg, Apply(reg, l, ops[0]), ops[1..], k, id);
    }
  }

  /** A session's existing child of the subject is filed under an id its dictionary form keeps. */
  ghost predicate ChildKeepsId(l: Ledger, c: Command) {
    var child := ChildIn(l.decisions, c.subjectId, c.session);
    child.Some? ==> Bounded(child.value.decision.decisionId, 96) == child.value.decision.decisionId
  }

  /**
   The first commit for a command leaves a receipt and a decision that answer for it: the
   decision itself when the commit created it, else the child it was read back from.
   */
  lemma CommitLeavesAnswer(reg: Registry, l: Ledger, c: Command)
    requires LedgerOk(l) && l.max > 0 && Commit(reg, l, c).1.Ok?
    requires Get(l.receipts, CommandKey(c.subjectId, c.action)).None?
    ensures var (l', r) := Commit(reg, l, c);
            var first, kept := r.value, Get(l'.decisions, r.value.decision.decisionId);
            && Get(l'.receipts, CommandKey(c.subjectId, c.action)) == Some(first.receipt)
            && first.receipt == Project(c.subjectId, first.decision.decisionId, c.key, c.fingerprint, false)
            && (first.created <==> ChildIn(l.decisions, c.subjectId, c.session).None?)
            && (first.created ==> kept.Some? && kept.value.decision == first.decision)
            && (!first.created && ChildKeepsId(l, c) ==> kept.Some? && Resolve(reg, kept.value.decision) == Ok(first.decision))
  {
    ChildInFacts(l.decisions, c.subjectId, c.session);
    if ChildIn(l.decisions, c.subjectId, c.session).Some? {
      var e :| e in l.decisions && e.value == ChildIn(l.decisions, c.subjectId, c.session).value;
      GetIsMember(l.decisions, e.key, e.value);
      ResolveFacts(reg, e.value.decision);
    }
  }

  /**
   Idempotent commit.  Once a command has committed, and for as long as its receipt and its
   decision stay in the ledger, every later commit for the same subject and action changes
   nothing: with the stored key and fingerprint it returns the decision the ledger holds and
   reports no creation, with any others it is refused.  What it returns is what the first
   commit returned, unless that one had read an older child back from its dictionary form and
   the child is not its own dictionary form.
   */
  lemma {:induction false} CommitIsIdempotent(reg: Registry, l: Ledger, c: Command, ops: seq<Op>, c2: Command)
    requires LedgerOk(l) && l.max > 0 && Commit(reg, l, c).1.Ok?
    requires Get(l.receipts, CommandKey(c.subjectId, c.action)).None?
    requires var first := Commit(reg, l, c).1.value;
             && |first.decision.decisionId| <= 160
             && Retained(reg, Commit(reg, l, c).0, ops, CommandKey(c.subjectId, c.action), first.decision.decisionId)
             && forall op | op in ops :: Files(op) != Some(first.decision.decisionId)
    requires c2.subjectId == c.subjectId && c2.action == c.action
    ensures var (l1, first) := Commit(reg, l, c);
            var later := Run(reg, l1, ops);
            var (last, r) := Commit(reg, later, c2);
            && last == later
            && (r.Ok? <==> c2.key == Take(c.key, 128) && c2.fingerprint == Take(c.fingerprint, 160))
            && (r.Err? ==> r.error == RevisionConflict)
            && (r.Ok? ==> AnswersAgain(reg, l1, first.value, r.value, ChildKeepsId(l, c)))
  {
    var (l1, r1) := Commit(reg, l, c);
    var k, id := CommandKey(c.subjectId, c.action), r1.value.decision.decisionId;
    CommitLeavesAnswer(reg, l, c);
    CommitOk(reg, l, c);
    RetainedKeepsAnswers(reg, l1, ops, k, id);
    LookupFacts(l1.decisions, id, None);
  }

  /** A repeated answer: what the ledger `l` holds under the id of the first one. */
  ghost predicate AnswersAgain(reg: Registry, l: Ledger, first: Committed, again: Committed, childKeepsId: bool) {
    && !again.created && again.receipt.reused
    && Lookup(l.decisions, first.decision.decisionId, None) == Some(again.decision)
    && again.decision.decisionId == first.decision.decisionId
    && (first.created ==> again.decision == first.decision)
    && (!first.created && childKeepsId ==>
          && Resolve(reg, again.decision) == Ok(first.decision)
          && (again.decision == first.decision <==> Resolve(reg, again.decision) == Ok(again.decision)))
  }

  // ---------------------------------------------------------------- forgetting

  /** Exactly the session's decisions go, and exactly the receipts about them. */
  lemma ForgetIsExact(l: Ledger, session: string, keepBinding: bool)
    requires LedgerOk(l)
    ensures var l' := Forgotten(l, session, keepBinding);
            && (forall e :: e in l'.decisions <==> e in l.decisions && e.value.session != Some(session))
            && (forall e :: e in l'.receipts <==>
                  e in l.receipts &&
                  !exists x | x in l.decisions :: x.key == e.key.subjectId && x.value.session == Some(session))
            && (forall s | s in l.bindings && s != session :: s in l'.bindings && l'.bindings[s] == l.bindings[s])
            && (session in l'.bindings <==> keepBinding && session in l.bindings)
  {
    forall e
      ensures e in Forgotten(l, session, keepBinding).receipts <==>
              e in l.receipts &&
              !exists x | x in l.decisions :: x.key == e.key.subjectId && x.value.session == Some(session)
    {
      assert SubjectOutside(SessionIds(l.decisions, session))(e) <==> e.key.subjectId !in SessionIds(l.decisions, session);
    }
  }

  // ---------------------------------------------------------------- lineage

  /** A bounded, duplicate-free chain in which each decision answers the one before it. */
  ghost predicate IsLineage(values: seq<Decision>, current: Decision, room: nat) {
    && 1 <= |values| <= room
    && values[|values| - 1] == current
    && (forall i | 0 <= i < |values| :: values[i].decisionId != "")
    && (forall i | 1 <= i < |values| :: values[i].parent == Some(values[i - 1].decisionId))
    && (forall i, j | 0 <= i < j < |values| :: values[i].decisionId != values[j].decisionId)
  }

  lemma LookupFacts(d: Decisions, id: string, session: Option<string>)
    requires forall e | e in d :: e.value.decision.decisionId == e.key
    ensures Lookup(d, id, session).Some? ==> Lookup(d, id, session).value.decisionId == id
  {
  }

  /**
   Lineage ends at the decision asked about and goes back parent by parent; it stops short of
   a root only for want of room, of a retained parent, or because the parents form a cycle.
   */
  lemma {:induction false} LineageIsChain(d: Decisions, session: Option<string>, current: Decision, room: nat, seen: set<string>)
    requires forall e | e in d :: e.value.decision.decisionId == e.key
    requires room > 0 && current.decisionId != "" && current.decisionId !in seen
    ensures var values := LineageOf(d, session, current, room, seen);
            && IsLineage(values, current, room)
            && (forall v | v in values :: v.decisionId !in seen)
            && (forall i | 0 <= i < |values| - 1 :: Lookup(d, values[i].decisionId, session) == Some(values[i]))
            && (var parent := values[0].parent;
                parent.Some? && parent.value != "" && Lookup(d, parent.value, session).Some? ==>
                  |values| == room || parent.value in seen || exists v | v in values :: v.decisionId == parent.value)
    decreases room
  {
    if current.parent.Some? && current.parent.value != "" {
      var found := Lookup(d, current.parent.value, session);
      LookupFacts(d, current.parent.value, session);
      if found.Some? && room > 1 && found.value.decisionId !in seen + {current.decisionId} {
        LineageIsChain(d, session, found.value, room - 1, seen + {current.decisionId});
        var rest := LineageOf(d, session, found.value, room - 1, seen + {current.decisionId});
        var values := rest + [current];
        assert LineageOf(d, session, current, room, seen) == values;
        assert rest[|rest| - 1] in rest && current in values;
        forall i | 0 <= i < |rest|
          ensures rest[i].decisionId != current.decisionId
        {
          assert rest[i] in rest;
        }
      }
    }
  }
}
