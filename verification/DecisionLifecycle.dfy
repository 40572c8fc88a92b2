/**
 Decision records, their public lifecycle evidence, and the atomic automaton that both
 stores are measured against.
 */
module DecisionLifecycle {
  import opened Wrappers
  import opened Text

  datatype Status = PENDING | ACCEPTED | REJECTED | CANCELLED | EXPIRED | CONSUMED

  datatype Choice = Approve | Reject

  datatype Code =
    | RequestInvalid | RecordInvalid | NotFound | NotPending | NotAccepted
    | VersionMismatch | ChoiceUnknown | DomainMismatch | RestoreFailed | IdTaken
    | ActionNotAllowed

  /** The fields no transition ever writes. */
  datatype Subject = Subject(
    kind: string, id: string, sessionId: Option<string>, decisionKind: string,
    prompt: string, options: seq<string>, fingerprint: string,
    createdAt: real, expiresAt: Option<real>)

  datatype DecisionRecord = DecisionRecord(
    decisionId: string, domainId: string, subject: Subject, status: Status,
    selectedChoice: Option<string>, version: int, resolvedAt: Option<real>)

  function Cut(s: seq<string>, count: nat): seq<string> {
    if |s| <= count then s else s[..count]
  }

  predicate RequestOk(domainId: string, subject: Subject) {
    && Strip(subject.kind) != "" && Strip(subject.id) != "" && Strip(domainId) != ""
    && Strip(subject.decisionKind) != "" && Strip(subject.prompt) != ""
    && subject.options != [] && subject.fingerprint != ""
  }

  predicate RecordOk(r: DecisionRecord) {
    r.decisionId != "" && r.subject.id != "" && r.domainId != "" && r.subject.fingerprint != ""
  }

  /** The record `create` builds from a request. */
  function NewRecord(id: string, domainId: string, subject: Subject, now: real): DecisionRecord {
    DecisionRecord(
      id, domainId,
      subject.(prompt := Take(subject.prompt, 320), options := Cut(subject.options, 8),
      fingerprint := Take(subject.fingerprint, 160), createdAt := now),
      PENDING, None, 1, None)
  }

  /** `_from_payload`: what every reader of a stored payload gets.  A version of 0 reads as 1. */
  function Reload(r: DecisionRecord): DecisionRecord {
    var options := Cut(r.subject.options, 8);
    r.(subject := r.subject.(prompt := Take(r.subject.prompt, 320),
      options := seq(|options|, i requires 0 <= i < |options| => Take(options[i], 32)),
      fingerprint := Take(r.subject.fingerprint, 160)),
      version := if r.version == 0 then 1 else r.version)
  }

  function ChoiceText(c: Choice): string {
    if c == Approve then "approve" else "reject"
  }

  function ChoiceStatus(c: Choice): Status {
    if c == Approve then ACCEPTED else REJECTED
  }

  function NormalizeChoice(choice: string): Result<Choice, Code> {
    var text := Take(Lower(Strip(choice)), 32);
    if text in ["approve", "accept", "confirm"] then Ok(Approve)
    else if text in ["reject", "deny"] then Ok(Reject)
    else Err(ChoiceUnknown)
  }

  /** `_updated_record`. */
  function Updated(r: DecisionRecord, status: Status, choice: Option<string>, now: real): DecisionRecord {
    r.(status := status,
       selectedChoice := if choice.Some? then choice else r.selectedChoice,
       version := r.version + 1,
       resolvedAt := Some(now))
  }

  predicate ExpiredAt(r: DecisionRecord, now: real) {
    r.subject.expiresAt.Some? && r.subject.expiresAt.value <= now
  }

  // ---------------------------------------------------------------- what a choice and a write mean

  /** The words that approve and those that refuse, whatever their case and the blanks around them. */
  predicate Approves(choice: string) {
    Lower(Strip(choice)) in {"approve", "accept", "confirm"}
  }

  predicate Refuses(choice: string) {
    Lower(Strip(choice)) in {"reject", "deny"}
  }

  /** The same decision one version on: everything it was asked with is kept, and the moment is stamped. */
  predicate MovedOn(before: DecisionRecord, after: DecisionRecord) {
    && after.decisionId == before.decisionId && after.domainId == before.domainId && after.subject == before.subject
    && after.version == before.version + 1
  }

  /** `after` is what the words ask for: never an approval for a refusal. */
  predicate DecidedAs(before: DecisionRecord, after: DecisionRecord, choice: string) {
    && MovedOn(before, after) && after.resolvedAt.Some? && (Approves(choice) || Refuses(choice))
    && (Approves(choice) ==> after.status == ACCEPTED && after.selectedChoice == Some("approve"))
    && (Refuses(choice) ==> after.status == REJECTED && after.selectedChoice == Some("reject"))
  }

  predicate ExpiredAs(before: DecisionRecord, after: DecisionRecord) {
    MovedOn(before, after) && after.status == EXPIRED && after.selectedChoice == before.selectedChoice
  }

  predicate ConsumedAs(before: DecisionRecord, after: DecisionRecord) {
    && MovedOn(before, after) && after.status == CONSUMED && after.selectedChoice == before.selectedChoice
    && after.resolvedAt.Some?
  }

  lemma ShortWord(word: string, known: string)
    requires |known| < 32
    ensures Take(word, 32) == known <==> word == known
  {
  }

  lemma ChoiceMeans(choice: string, r: DecisionRecord, now: real)
    ensures NormalizeChoice(choice).Ok? <==> Approves(choice) || Refuses(choice)
    ensures NormalizeChoice(choice).Err? ==> NormalizeChoice(choice) == Err(ChoiceUnknown)
    ensures NormalizeChoice(choice).Ok? ==>
              var c := NormalizeChoice(choice).value;
              DecidedAs(r, Updated(r, ChoiceStatus(c), Some(ChoiceText(c)), now), choice)
  {
    var word := Lower(Strip(choice));
    ShortWord(word, "approve");
    ShortWord(word, "accept");
    ShortWord(word, "confirm");
    ShortWord(word, "reject");
    ShortWord(word, "deny");
  }

  /** A request becomes a pending record of version 1 that keeps what was asked, its texts cut to their widths. */
  lemma NewRecordMeans(id: string, domainId: string, subject: Subject, now: real)
    ensures var r := NewRecord(id, domainId, subject, now);
            && r.decisionId == id && r.domainId == domainId && r.status == PENDING && r.version == 1
            && r.selectedChoice.None? && r.resolvedAt.None? && Shortened(subject.(createdAt := now), r.subject, false)
  {
  }

  /** Reading a stored payload back shortens texts at most, and never yields version 0. */
  lemma ReloadMeans(r: DecisionRecord)
    ensures Reload(r) == r.(subject := Reload(r).subject, version := if r.version == 0 then 1 else r.version)
    ensures Shortened(r.subject, Reload(r).subject, true)
  {
  }

  /** Prompt, options and fingerprint cut to 320, 8 and 160 (each option to 32 where `options` says so); the rest is the same. */
  ghost predicate Shortened(whole: Subject, kept: Subject, options: bool) {
    && kept == whole.(prompt := kept.prompt, options := kept.options, fingerprint := kept.fingerprint)
    && CutTo(whole.prompt, kept.prompt, 320) && CutTo(whole.fingerprint, kept.fingerprint, 160)
    && |kept.options| == (if |whole.options| <= 8 then |whole.options| else 8)
    && forall i | 0 <= i < |kept.options| ::
         if options then CutTo(whole.options[i], kept.options[i], 32) else kept.options[i] == whole.options[i]
  }

  ghost predicate CutTo(whole: string, kept: string, limit: nat) {
    kept <= whole && |kept| == if |whole| <= limit then |whole| else limit
  }

  // ---------------------------------------------------------------- the atomic automaton

  datatype Kind = Create | Restore | Expire | Resolve(choice: Choice) | Consume

  /** The update kinds: everything but the two ways a record enters the table. */
  predicate Updates(kind: Kind) {
    !kind.Create? && !kind.Restore?
  }

  /** One atomic transition of one decision, whose deadline was compared with `readAt`. */
  ghost predicate AtomicStep(kind: Kind, before: Option<DecisionRecord>, after: DecisionRecord, readAt: real) {
    match kind
    case Create => before.None? && after.status == PENDING && after.version == 1
    case Restore => before.None? && RecordOk(after)
    case Expire =>
      && before.Some? && before.value.status == PENDING && ExpiredAt(before.value, readAt)
      && exists now: real :: after == Updated(before.value, EXPIRED, None, now)
    case Resolve(c) =>
      && before.Some? && before.value.status == PENDING && !ExpiredAt(before.value, readAt)
      && exists now: real :: after == Updated(before.value, ChoiceStatus(c), Some(ChoiceText(c)), now)
    case Consume =>
      && before.Some? && before.value.status == ACCEPTED
      && exists now: real :: after == Updated(before.value, CONSUMED, None, now)
  }

  /** An update moves its record on and does what its kind says. */
  lemma StepMeans(kind: Kind, before: DecisionRecord, after: DecisionRecord, readAt: real)
    requires AtomicStep(kind, Some(before), after, readAt)
    ensures MovedOn(before, after) && after.resolvedAt.Some?
    ensures kind == Expire ==> before.status == PENDING && ExpiredAs(before, after) && Due(before, readAt)
    ensures kind == Consume ==> before.status == ACCEPTED && ConsumedAs(before, after)
    ensures kind == Resolve(Approve) ==>
              before.status == PENDING && !Due(before, readAt) && after.status == ACCEPTED && after.selectedChoice == Some("approve")
    ensures kind == Resolve(Reject) ==>
              before.status == PENDING && !Due(before, readAt) && after.status == REJECTED && after.selectedChoice == Some("reject")
  {
  }

  /** The deadline, if there is one, has come. */
  predicate Due(r: DecisionRecord, now: real) {
    match r.subject.expiresAt
    case None => false
    case Some(deadline) => deadline <= now
  }

  datatype Write = Write(id: string, kind: Kind, before: Option<DecisionRecord>, after: DecisionRecord, readAt: real)

  /** What the last of these writes stored for `id`. */
  ghost function Latest(log: seq<Write>, id: string): Option<DecisionRecord> {
    if log == [] then None
    else if log[|log| - 1].id == id then Some(log[|log| - 1].after)
    else Latest(log[..|log| - 1], id)
  }

  /** ... and what readers of `id` get back. */
  function ReadBack(stored: Option<DecisionRecord>): Option<DecisionRecord> {
    if stored.Some? then Some(Reload(stored.value)) else None
  }

  /** Every write is an atomic transition from what readers of its decision last saw. */
  ghost predicate IsPath(log: seq<Write>) {
    log == [] ||
    (var w := log[|log| - 1];
     && IsPath(log[..|log| - 1])
     && w.before == ReadBack(Latest(log[..|log| - 1], w.id))
     && AtomicStep(w.kind, w.before, w.after, w.readAt))
  }

  ghost function History(log: seq<Write>, id: string): seq<Write> {
    if log == [] then []
    else
      var rest := History(log[..|log| - 1], id);
      if log[|log| - 1].id == id then rest + [log[|log| - 1]] else rest
  }

  /** Restricting a path to one decision leaves a path with the same last value. */
  lemma {:induction false} HistoryIsPath(log: seq<Write>, id: string)
    requires IsPath(log)
    ensures IsPath(History(log, id))
    ensures Latest(History(log, id), id) == Latest(log, id)
    ensures forall w :: w in History(log, id) <==> w in log && w.id == id
  {
    if log != [] {
      var init, w := log[..|log| - 1], log[|log| - 1];
      HistoryIsPath(init, id);
      assert log == init + [w];
      if w.id == id {
        var h := History(log, id);
        assert h[..|h| - 1] == History(init, id);
      }
    }
  }

  lemma {:induction false} HistoryOwnId(log: seq<Write>, id: string)
    ensures forall i :: 0 <= i < |History(log, id)| ==> History(log, id)[i].id == id
  {
    if log != [] {
      HistoryOwnId(log[..|log| - 1], id);
    }
  }

  lemma {:induction false} PathPrefix(log: seq<Write>, n: nat)
    requires IsPath(log) && n <= |log|
    ensures IsPath(log[..n])
    decreases |log|
  {
    if n < |log| {
      PathPrefix(log[..|log| - 1], n);
      assert log[..|log| - 1][..n] == log[..n];
    } else {
      assert log[..n] == log;
    }
  }

  lemma PathAt(log: seq<Write>, i: nat)
    requires IsPath(log) && i < |log|
    ensures IsPath(log[..i])
    ensures log[i].before == ReadBack(Latest(log[..i], log[i].id))
    ensures AtomicStep(log[i].kind, log[i].before, log[i].after, log[i].readAt)
  {
    PathPrefix(log, i + 1);
    var upTo := log[..i + 1];
    assert upTo[..|upTo| - 1] == log[..i];
  }

  /** Along a path the version readers see never falls, and every update raises it. */
  lemma {:induction false} VersionsRise(log: seq<Write>, n: nat, id: string)
    requires IsPath(log) && n <= |log| && Latest(log[..n], id).Some?
    ensures Latest(log, id).Some?
    ensures Reload(Latest(log[..n], id).value).version <= Reload(Latest(log, id).value).version
    ensures (exists i :: n <= i < |log| && log[i].id == id)
            ==> Reload(Latest(log[..n], id).value).version < Reload(Latest(log, id).value).version
    decreases |log|
  {
    if n == |log| {
      assert log[..n] == log;
    } else {
      var init, w := log[..|log| - 1], log[|log| - 1];
      assert init[..n] == log[..n];
      VersionsRise(init, n, id);
      if w.id == id {
        assert w.before == ReadBack(Latest(init, id)) && w.before.Some?;
        assert w.after.version == w.before.value.version + 1;
      } else {
        forall i | n <= i < |log| && log[i].id == id
          ensures Reload(Latest(log[..n], id).value).version < Reload(Latest(log, id).value).version
        {
          assert init[i].id == id;
        }
      }
    }
  }

  /** Of all writers that read one version of a decision, at most one has ever written. */
  lemma OneWriterPerVersion(log: seq<Write>, i: nat, j: nat)
    requires IsPath(log) && i < j < |log| && log[i].id == log[j].id
    requires Updates(log[i].kind) && Updates(log[j].kind)
    ensures log[i].before.Some? && log[j].before.Some?
    ensures log[i].before.value.version < log[j].before.value.version
    ensures log[i].after.version == log[i].before.value.version + 1
  {
    PathAt(log, i);
    PathAt(log, j);
    assert log[..j][..i] == log[..i];
    assert log[..j][i] == log[i];
    VersionsRise(log[..j], i, log[i].id);
  }

  /** Nothing ever leaves a REJECTED, EXPIRED, CONSUMED or CANCELLED record. */
  lemma TerminalIsFinal(kind: Kind, before: DecisionRecord, after: DecisionRecord, readAt: real)
    requires AtomicStep(kind, Some(before), after, readAt)
    ensures before.status in {PENDING, ACCEPTED}
    ensures after.status != PENDING
    ensures before.status == ACCEPTED <==> after.status == CONSUMED
  {
  }

  ghost function VersionOf(status: Status): int {
    match status case PENDING => 1 case CONSUMED => 3 case _ => 2
  }

  /** Created first; then at most one of expire, approve, reject; then, after an approve only, consume. */
  ghost predicate CreatedShape(h: seq<Write>) {
    && 1 <= |h| <= 3 && h[0].kind == Create
    && (|h| >= 2 ==> h[1].kind.Expire? || h[1].kind.Resolve?)
    && (|h| == 3 ==> h[1].kind == Resolve(Approve) && h[2].kind == Consume)
  }

  lemma {:induction false} CreatedPath(h: seq<Write>, id: string)
    requires IsPath(h) && h != [] && h[0].kind == Create
    requires forall i :: 0 <= i < |h| ==> h[i].id == id
    ensures CreatedShape(h) && Latest(h, id).Some?
    ensures Latest(h, id).value.version == |h| == VersionOf(Latest(h, id).value.status)
    ensures Latest(h, id).value.status != CANCELLED
    ensures |h| == 2 ==> (Latest(h, id).value.status == ACCEPTED <==> h[1].kind == Resolve(Approve))
  {
    var init, w := h[..|h| - 1], h[|h| - 1];
    if |h| > 1 {
      CreatedPath(init, id);
      assert init[|init| - 1] == h[|h| - 2];
    }
  }

  /**
   A decision that entered through `create` has at most three writes: the creation, one of
   expire, approve or reject, and one consume that follows an approve.  The status fixes
   the version, and a consumed decision was approved.
   */
  lemma CreatedHistory(log: seq<Write>, id: string)
    requires IsPath(log) && History(log, id) != [] && History(log, id)[0].kind == Create
    ensures CreatedShape(History(log, id))
    ensures Latest(log, id).Some? && Latest(log, id).value.status != CANCELLED
    ensures Latest(log, id).value.version == VersionOf(Latest(log, id).value.status) == |History(log, id)|
  {
    HistoryIsPath(log, id);
    HistoryOwnId(log, id);
    CreatedPath(History(log, id), id);
  }

  /** The shape leaves room for one resolve and one consume. */
  lemma OneResolveOneConsume(h: seq<Write>, i: nat, j: nat)
    requires CreatedShape(h) && i < |h| && j < |h|
    ensures h[i].kind.Resolve? && h[j].kind.Resolve? ==> i == j
    ensures h[i].kind.Consume? ==> i == 2 && h[1].kind == Resolve(Approve)
  {
    assert i == 0 || i == 1 || i == 2;
    assert j == 0 || j == 1 || j == 2;
  }

  // ---------------------------------------------------------------- public evidence

  datatype State =
    | NotRequired | AwaitingConfirmation | Approved | Rejected | ClarificationRequired
    | Repairable | Recoverable | Executing | Completed | Failed

  datatype Action = Approve' | Reject' | Clarify | Repair | Retry | Recover

  /** The `_TRANSITIONS` table. */
  function Transition(state: State, action: Action): Option<State> {
    match (state, action)
    case (AwaitingConfirmation, Approve') => Some(Approved)
    case (AwaitingConfirmation, Reject') => Some(Rejected)
    case (ClarificationRequired, Clarify) => Some(ClarificationRequired)
    case (Repairable, Repair) => Some(Approved)
    case (Repairable, Reject') => Some(Rejected)
    case (Recoverable, Retry) => Some(Executing)
    case (Recoverable, Recover) => Some(Executing)
    case (_, _) => None
  }

  datatype Lifecycle = Lifecycle(state: State, allowed: seq<Action>, planFingerprint: string)

  /** `build_decision_evidence`: an action the table does not list for the state is refused. */
  function BuildEvidence(state: State, allowed: seq<Action>, planFingerprint: string): Result<Lifecycle, Code> {
    if forall a | a in allowed :: Transition(state, a).Some?
    then Ok(Lifecycle(state, allowed, planFingerprint))
    else Err(ActionNotAllowed)
  }

  function TransitionDecision(current: Lifecycle, action: Action): Result<Lifecycle, Code> {
    var next := Transition(current.state, action);
    if next.None? then Err(ActionNotAllowed)
    else BuildEvidence(next.value, [], current.planFingerprint)
  }

  function StateOf(status: Status): State {
    match status
    case PENDING => AwaitingConfirmation
    case ACCEPTED => Approved
    case REJECTED => Rejected
    case CANCELLED => Rejected
    case EXPIRED => Rejected
    case CONSUMED => Completed
  }

  function Evidence(r: DecisionRecord): Result<Lifecycle, Code> {
    BuildEvidence(
      StateOf(r.status), if r.status == PENDING then [Approve', Reject'] else [], r.subject.fingerprint)
  }

  /**
   The evidence state machine and the record automaton simulate each other: evidence is
   always well formed, it offers exactly the actions that lead on, and taking one lands on
   the evidence of the record that the matching resolve writes.
   */
  lemma EvidenceSimulatesRecord(r: DecisionRecord, c: Choice, now: real)
    ensures Evidence(r).Ok?
    ensures forall a ::
              (a in Evidence(r).value.allowed <==> TransitionDecision(Evidence(r).value, a).Ok?) &&
              (a in Evidence(r).value.allowed <==> r.status == PENDING && a in {Approve', Reject'})
    ensures r.status == PENDING ==>
              var a := if c == Approve then Approve' else Reject';
              TransitionDecision(Evidence(r).value, a)
              == Evidence(Updated(r, ChoiceStatus(c), Some(ChoiceText(c)), now))
  {
    if r.status != PENDING {
      assert forall a :: Transition(StateOf(r.status), a).None?;
    }
  }
}
