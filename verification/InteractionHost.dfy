/**
 The interaction gate: one contract says what may be done next to a subject, and a command
 reaches the dispatcher only through a fresh copy of that contract.
 */
module InteractionHost {
  import opened Wrappers
  import opened Text
  import opened Json
  import opened InteractionSchema
  import opened InteractionInput

  const MAX_ACTIONS := 12
  const MAX_ID := 160
  const MAX_REVISION := 1000000
  const MAX_FIELDS := 64
  const INTERACTION_SCHEMA := "spatial-agent.interaction.v1"
  const COMMAND_SCHEMA := "spatial-agent.interaction-command.v1"

  datatype HostError =
    | InteractionInvalid | SubjectInvalid | ActionInvalid | ActionSchemaInvalid | CommandInvalid
    | CommandUnknownSchema | CommandInput | KeyInvalid | Unavailable | RevisionConflict | NotAllowed
    | SubjectNotFound | SubjectConflict | InputRefused(schemaError: SchemaError)

  datatype ActionId =
    | SelectDomain | SelectCapability | SelectWorkflow | ProvideFacts | Preview | Repair | Confirm | Reject
    | Retry | Recover | Cancel | RebuildFromResult | StartNewRun

  datatype State =
    | CandidateSelection | FactsRequired | ConfirmationRequired | Repairable | Recoverable | Processing
    | Completed | Rejected | Cancelled | Failed | StateUnavailable

  datatype RefKind = RoutingDecision | RunSubject | ActionSubject | UnknownSubject

  // ---------------------------------------------------------------- payloads and contracts

  datatype RawRef = NoRef | RawRef(refKind: Json, refId: Json)

  datatype RawSubject = NoSubject | RawSubject(root: RawRef, current: RawRef, revision: Json, domainId: Json)

  /** `schema` is None when the payload's own is missing or empty. */
  datatype RawAction = NoAction | RawAction(actionId: Json, schema: Option<RawSchema>, idempotency: Json)

  datatype RawActions = NoActionList | ActionList(list: seq<RawAction>)

  datatype RawInteraction = NoInteraction | RawInteraction(
    version: Json, available: Json, subject: RawSubject, state: Json, actions: RawActions, blocked: seq<Json>)

  datatype RawCommand = NoCommand | RawCommand(
    version: Json, subject: RawSubject, actionId: Json, input: Json, key: Json)

  datatype Ref = Ref(kind: RefKind, id: string)

  /** An absent Domain id is the empty string. */
  datatype Subject = Subject(root: Ref, current: Ref, revision: nat, domainId: string)

  datatype Action = Action(id: ActionId, schema: Schema, idempotencyRequired: bool)

  datatype Interaction = Interaction(
    available: bool, actionable: bool, subject: Subject, state: State, actions: seq<Action>,
    allowed: seq<ActionId>, blocked: seq<ActionId>)

  datatype Command = Command(subject: Subject, action: ActionId, input: Json, key: string)

  // ---------------------------------------------------------------- vocabularies

  function ActionText(a: ActionId): string {
    match a
    case SelectDomain => "select_domain"
    case SelectCapability => "select_capability"
    case SelectWorkflow => "select_workflow"
    case ProvideFacts => "provide_facts"
    case Preview => "preview"
    case Repair => "repair"
    case Confirm => "confirm"
    case Reject => "reject"
    case Retry => "retry"
    case Recover => "recover"
    case Cancel => "cancel"
    case RebuildFromResult => "rebuild_from_result"
    case StartNewRun => "start_new_run"
  }

  const ACTIONS := [
    SelectDomain, SelectCapability, SelectWorkflow, ProvideFacts, Preview, Repair, Confirm, Reject,
    Retry, Recover, Cancel, RebuildFromResult, StartNewRun]

  function StateText(s: State): string {
    match s
    case CandidateSelection => "candidate_selection"
    case FactsRequired => "facts_required"
    case ConfirmationRequired => "confirmation_required"
    case Repairable => "repairable"
    case Recoverable => "recoverable"
    case Processing => "processing"
    case Completed => "completed"
    case Rejected => "rejected"
    case Cancelled => "cancelled"
    case Failed => "failed"
    case StateUnavailable => "unavailable"
  }

  const STATES := [
    CandidateSelection, FactsRequired, ConfirmationRequired, Repairable, Recoverable, Processing,
    Completed, Rejected, Cancelled, Failed, StateUnavailable]

  function RefText(k: RefKind): string {
    match k
    case RoutingDecision => "routing_decision"
    case RunSubject => "run"
    case ActionSubject => "action"
    case UnknownSubject => "unknown"
  }

  const REFS := [RoutingDecision, RunSubject, ActionSubject, UnknownSubject]

  /** The one of `values` whose text is `t`. */
  function Named<T>(t: string, values: seq<T>, text: T -> string): (r: Option<T>)
    ensures r.Some? ==> text(r.value) == t
  {
    if values == [] then None
    else if text(values[|values| - 1]) == t then Some(values[|values| - 1])
    else Named(t, values[..|values| - 1], text)
  }

  /** `_canonical_action_id`: `approve` is the old name of `confirm`. */
  function CanonicalAction(v: Json): Option<ActionId> {
    var t := Lower(TokenOf(v, 48));
    if t == "approve" then Some(Confirm) else Named(t, ACTIONS, ActionText)
  }

  function StateOf(v: Json): Option<State> {
    Named(TokenOf(v, 48), STATES, StateText)
  }

  predicate Closed(s: State) {
    s in {Completed, Rejected, Cancelled, Failed, StateUnavailable}
  }

  // ---------------------------------------------------------------- normalisation

  function RefOf(raw: RawRef): Result<Ref, HostError> {
    match raw
    case NoRef => Err(SubjectInvalid)
    case RawRef(k, id) =>
      var kind, identity := Named(TokenOf(k, 32), REFS, RefText), TokenOf(id, MAX_ID);
      if kind.None? || identity == "" then Err(SubjectInvalid) else Ok(Ref(kind.value, identity))
  }

  function SubjectOf(raw: RawSubject): Result<Subject, HostError> {
    match raw
    case NoSubject => Err(SubjectInvalid)
    case RawSubject(root, current, revision, domainId) =>
      if !revision.JInt? || revision.n < 0 then Err(SubjectInvalid)
      else
        var rootRef :- RefOf(root);
        var currentRef :- RefOf(current);
        Ok(Subject(rootRef, currentRef, if revision.n < MAX_REVISION then revision.n else MAX_REVISION,
                   TokenOf(domainId, MAX_ID)))
  }

  /** `defaults` gives the input schema of an action that publishes none. */
  function ActionOf(raw: RawAction, defaults: ActionId -> RawSchema): Result<Action, HostError> {
    match raw
    case NoAction => Err(InteractionInvalid)
    case RawAction(v, given, idempotency) =>
      match CanonicalAction(v)
      case None => Err(ActionInvalid)
      case Some(id) =>
        var schema :- PublishedSchema(if given.Some? then given.value else defaults(id));
        Ok(Action(id, schema, idempotency != JBool(false)))
  }

  function PublishedSchema(raw: RawSchema): (r: Result<Schema, HostError>)
    ensures r.Ok? ==> Shaped(r.value, MAX_SCHEMA_DEPTH)
  {
    match Normalize(raw, 0)
    case Err(_) => Err(ActionSchemaInvalid)
    case Ok(schema) =>
      NormalizeIsShaped(raw, 0);
      Ok(schema)
  }

  function Ids(actions: seq<Action>): (r: seq<ActionId>)
    ensures |r| == |actions| && forall i | 0 <= i < |r| :: r[i] == actions[i].id
  {
    seq(|actions|, i requires 0 <= i < |actions| => actions[i].id)
  }

  type Parsing = seq<Result<Action, HostError>>

  function Parsed(raws: seq<RawAction>, defaults: ActionId -> RawSchema): (r: Parsing)
    ensures |r| == |raws| && forall i | 0 <= i < |r| :: r[i] == ActionOf(raws[i], defaults)
  {
    seq(|raws|, i requires 0 <= i < |raws| => ActionOf(raws[i], defaults))
  }

  /** The first failure, or the first action of each id. */
  function Collected(results: Parsing): Result<seq<Action>, HostError> {
    if results == [] then Ok([])
    else
      var init :- Collected(results[..|results| - 1]);
      var action :- results[|results| - 1];
      Ok(if action.id in Ids(init) then init else init + [action])
  }

  function ActionsOf(raws: seq<RawAction>, defaults: ActionId -> RawSchema): Result<seq<Action>, HostError> {
    Collected(Parsed(raws, defaults))
  }

  function Readings(raws: seq<Json>): (r: seq<Option<ActionId>>)
    ensures |r| == |raws| && forall i | 0 <= i < |r| :: r[i] == CanonicalAction(raws[i])
  {
    seq(|raws|, i requires 0 <= i < |raws| => CanonicalAction(raws[i]))
  }

  /** What could be read, once each, in order. */
  function Noted(readings: seq<Option<ActionId>>): (r: seq<ActionId>)
    ensures |r| <= |readings|
  {
    if readings == [] then []
    else
      var init, id := Noted(readings[..|readings| - 1]), readings[|readings| - 1];
      if id.Some? && id.value !in init then init + [id.value] else init
  }

  function BlockedOf(raws: seq<Json>): (r: seq<ActionId>)
    ensures |r| <= |raws|
  {
    Noted(Readings(raws))
  }

  const NO_SUBJECT := Subject(Ref(UnknownSubject, "unknown"), Ref(UnknownSubject, "unknown"), 0, "")
  const UNAVAILABLE := Interaction(false, false, NO_SUBJECT, StateUnavailable, [], [], [])

  function Contract(raw: RawInteraction, defaults: ActionId -> RawSchema): Result<Interaction, HostError>
    requires raw.RawInteraction?
  {
    var subject :- SubjectOf(raw.subject);
    match StateOf(raw.state)
    case None => Err(InteractionInvalid)
    case Some(state) =>
      if raw.actions.NoActionList? then Err(InteractionInvalid)
      else
        var actions :- ActionsOf(Head(raw.actions.list, MAX_ACTIONS), defaults);
        var blocked := BlockedOf(Head(raw.blocked, MAX_ACTIONS));
        Ok(Assembled(Truthy(raw.available), subject, state, actions, blocked))
  }

  function Assembled(available: bool, subject: Subject, state: State, actions: seq<Action>, blocked: seq<ActionId>): Interaction {
    if !available then Interaction(false, false, subject, state, [], [], blocked)
    else Interaction(true, actions != [] && !Closed(state), subject, state, actions, Ids(actions), blocked)
  }

  /** `normalize_interaction`: anything it cannot read is an unavailable interaction. */
  function NormalizeInteraction(raw: RawInteraction, defaults: ActionId -> RawSchema): Interaction {
    if raw.NoInteraction? || raw.version != JStr(INTERACTION_SCHEMA) then UNAVAILABLE
    else
      match Contract(raw, defaults)
      case Err(_) => UNAVAILABLE
      case Ok(i) => i
  }

  predicate InputBounded(v: Json, depth: nat)
    decreases v
  {
    depth <= MAX_SCHEMA_DEPTH
    && match v
       case JObj(fields) =>
         |fields| <= MAX_FIELDS
         && forall f | f in fields :: TokenOf(JStr(f.key), 64) != "" && |f.key| <= 64 && InputBounded(f.value, depth + 1)
       case JList(items) => |items| <= MAX_ARRAY && forall x | x in items :: InputBounded(x, depth + 1)
       case JStr(s) => |s| <= MAX_TEXT
       case _ => true
  }

  function NormalizeCommand(raw: RawCommand): Result<Command, HostError> {
    if raw.NoCommand? then Err(CommandInvalid)
    else if raw.version != JStr(COMMAND_SCHEMA) then Err(CommandUnknownSchema)
    else
      match CanonicalAction(raw.actionId)
      case None => Err(ActionInvalid)
      case Some(action) =>
        if !raw.input.JObj? || !InputBounded(raw.input, 0) then Err(CommandInput)
        else
          var key := TokenOf(raw.key, 128);
          if key == "" || '/' in key || '\\' in key then Err(KeyInvalid)
          else
            var subject :- SubjectOf(raw.subject);
            Ok(Command(subject, action, raw.input, key))
  }

  // ---------------------------------------------------------------- normal forms as payloads

  function RawOfRef(r: Ref): RawRef {
    RawRef(JStr(RefText(r.kind)), JStr(r.id))
  }

  function RawOfSubject(s: Subject): RawSubject {
    RawSubject(RawOfRef(s.root), RawOfRef(s.current), JInt(s.revision), JStr(s.domainId))
  }

  function RawOfAction(a: Action): RawAction {
    RawAction(JStr(ActionText(a.id)), Some(RawOf(a.schema)), JBool(a.idempotencyRequired))
  }

  function RawActionsOf(actions: seq<Action>): (r: seq<RawAction>)
    ensures |r| == |actions| && forall i | 0 <= i < |r| :: r[i] == RawOfAction(actions[i])
  {
    seq(|actions|, i requires 0 <= i < |actions| => RawOfAction(actions[i]))
  }

  function ActionTexts(ids: seq<ActionId>): (r: seq<Json>)
    ensures |r| == |ids| && forall i | 0 <= i < |r| :: r[i] == JStr(ActionText(ids[i]))
  {
    seq(|ids|, i requires 0 <= i < |ids| => JStr(ActionText(ids[i])))
  }

  function RawOfInteraction(i: Interaction): RawInteraction {
    RawInteraction(JStr(INTERACTION_SCHEMA), JBool(i.available), RawOfSubject(i.subject), JStr(StateText(i.state)),
                   ActionList(RawActionsOf(i.actions)), ActionTexts(i.blocked))
  }

  function RawOfCommand(c: Command): RawCommand {
    RawCommand(JStr(COMMAND_SCHEMA), RawOfSubject(c.subject), JStr(ActionText(c.action)), c.input, JStr(c.key))
  }

  // ---------------------------------------------------------------- the gate

  /** What the dispatcher is handed. */
  datatype Dispatch = Dispatch(command: Command, action: Action, interaction: Interaction)

  function FindAction(actions: seq<Action>, id: ActionId): (r: Option<Action>)
    ensures r.Some? ==> r.value in actions && r.value.id == id
    ensures r.None? ==> forall a | a in actions :: a.id != id
  {
    if actions == [] then None
    else if actions[0].id == id then Some(actions[0])
    else FindAction(actions[1..], id)
  }

  /** `validate_interaction_command`: both sides are normalised once more. */
  function Authorize(rawCommand: RawCommand, raw: RawInteraction, defaults: ActionId -> RawSchema)
    : Result<(Command, Action), HostError>
  {
    var c :- NormalizeCommand(rawCommand);
    Decide(c, NormalizeInteraction(raw, defaults))
  }

  function Decide(c: Command, i: Interaction): Result<(Command, Action), HostError> {
    if !i.available then Err(Unavailable)
    else if c.subject != i.subject then Err(RevisionConflict)
    else
      match FindAction(i.actions, c.action)
      case None => Err(NotAllowed)
      case Some(action) =>
        match Validate(c.input, RawOf(action.schema), 0)
        case Err(e) => Err(InputRefused(e))
        case Ok(_) => Ok((c, action))
  }

  /** `inspect`: the loaded interaction must be about the subject that was asked for. */
  function Inspect(subject: Subject, source: RawInteraction, defaults: ActionId -> RawSchema): Result<Interaction, HostError> {
    if source.NoInteraction? then Err(SubjectNotFound)
    else
      var i := NormalizeInteraction(source, defaults);
      if i.subject.current != subject.current then Err(SubjectConflict) else Ok(i)
  }

  /** `invoke` up to the dispatcher. */
  function Invoke(raw: RawCommand, source: RawInteraction, defaults: ActionId -> RawSchema): Result<Dispatch, HostError> {
    var c :- NormalizeCommand(raw);
    var i :- Inspect(c.subject, source, defaults);
    var checked :- Authorize(RawOfCommand(c), RawOfInteraction(i), defaults);
    Ok(Dispatch(checked.0, checked.1, i))
  }

  // ---------------------------------------------------------------- the loops of the normaliser

  lemma {:induction false} FirstFailure(results: Parsing, n: nat)
    requires n <= |results| && Collected(results[..n]).Err?
    ensures Collected(results) == Collected(results[..n])
    decreases |results|
  {
    if n < |results| {
      assert results[..|results| - 1][..n] == results[..n];
      FirstFailure(results[..|results| - 1], n);
    } else {
      assert results[..n] == results;
    }
  }

  method CollectActions(raws: seq<RawAction>, defaults: ActionId -> RawSchema) returns (r: Result<seq<Action>, HostError>)
    ensures r == ActionsOf(raws, defaults)
  {
    var actions: seq<Action>, seen: set<ActionId> := [], {};
    ghost var results := Parsed(raws, defaults);
    for i := 0 to |raws|
      invariant Collected(results[..i]) == Ok(actions)
      invariant forall id :: id in seen <==> id in Ids(actions)
    {
      assert results[..i + 1][..i] == results[..i];
      var action := ActionOf(raws[i], defaults);
      if action.Err? {
        FirstFailure(results, i + 1);
        return Err(action.error);
      }
      if action.value.id !in seen {
        assert Ids(actions + [action.value]) == Ids(actions) + [action.value.id];
        actions := actions + [action.value];
        seen := seen + {action.value.id};
      }
    }
    assert results[..|raws|] == results;
    return Ok(actions);
  }

  method CollectBlocked(raws: seq<Json>) returns (blocked: seq<ActionId>)
    ensures blocked == BlockedOf(raws)
  {
    blocked := [];
    ghost var readings := Readings(raws);
    for i := 0 to |raws|
      invariant blocked == Noted(readings[..i])
    {
      assert readings[..i + 1][..i] == readings[..i];
      var id := CanonicalAction(raws[i]);
      if id.Some? && id.value !in blocked {
        blocked := blocked + [id.value];
      }
    }
    assert readings[..|raws|] == readings;
  }

  // ---------------------------------------------------------------- what every interaction keeps

  ghost predicate DistinctIds(ids: seq<ActionId>) {
    forall i, j | 0 <= i < j < |ids| :: ids[i] != ids[j]
  }

  /** At most twelve distinct actions, mirrored by the allowed list, and none when unavailable. */
  ghost predicate Sound(i: Interaction) {
    && |i.actions| <= MAX_ACTIONS && DistinctIds(Ids(i.actions)) && i.allowed == Ids(i.actions)
    && (!i.available ==> i.actions == [])
    && (i.actionable <==> i.available && i.actions != [] && !Closed(i.state))
    && |i.blocked| <= MAX_ACTIONS && DistinctIds(i.blocked)
    && i.subject.revision <= MAX_REVISION
    && forall a | a in i.actions :: Shaped(a.schema, MAX_SCHEMA_DEPTH)
  }

  lemma AppendId(actions: seq<Action>, action: Action)
    requires DistinctIds(Ids(actions)) && action.id !in Ids(actions)
    ensures DistinctIds(Ids(actions + [action]))
  {
    assert Ids(actions + [action]) == Ids(actions) + [action.id];
    assert forall i | 0 <= i < |actions| :: Ids(actions)[i] in Ids(actions);
  }

  lemma {:induction false} CollectedFacts(results: Parsing)
    requires Collected(results).Ok?
    ensures |Collected(results).value| <= |results| && DistinctIds(Ids(Collected(results).value))
    ensures forall a | a in Collected(results).value :: Ok(a) in results
    decreases |results|
  {
    if results != [] {
      var init, last := results[..|results| - 1], results[|results| - 1];
      CollectedFacts(init);
      assert results == init + [last];
      if last.value.id !in Ids(Collected(init).value) {
        AppendId(Collected(init).value, last.value);
      }
    }
  }

  lemma ActionsFacts(raws: seq<RawAction>, defaults: ActionId -> RawSchema)
    requires ActionsOf(raws, defaults).Ok?
    ensures var actions := ActionsOf(raws, defaults).value;
            && |actions| <= |raws| && DistinctIds(Ids(actions))
            && forall a | a in actions :: Shaped(a.schema, MAX_SCHEMA_DEPTH)
  {
    var results := Parsed(raws, defaults);
    CollectedFacts(results);
    forall a | a in ActionsOf(raws, defaults).value
      ensures Shaped(a.schema, MAX_SCHEMA_DEPTH)
    {
      var i :| 0 <= i < |results| && results[i] == Ok(a);
      assert ActionOf(raws[i], defaults) == Ok(a);
    }
  }

  lemma {:induction false} NotedFacts(readings: seq<Option<ActionId>>)
    ensures DistinctIds(Noted(readings))
    ensures forall id :: id in Noted(readings) <==> Some(id) in readings
    decreases |readings|
  {
    if readings != [] {
      NotedFacts(readings[..|readings| - 1]);
      var init := Noted(readings[..|readings| - 1]);
      assert forall i | 0 <= i < |init| :: init[i] in init;
      assert readings == readings[..|readings| - 1] + [readings[|readings| - 1]];
    }
  }

  lemma BlockedFacts(raws: seq<Json>)
    ensures DistinctIds(BlockedOf(raws))
  {
    NotedFacts(Readings(raws));
  }

  /** Every normalised interaction is sound, whatever the payload. */
  lemma NormalizedIsSound(raw: RawInteraction, defaults: ActionId -> RawSchema)
    ensures Sound(NormalizeInteraction(raw, defaults))
  {
    if raw.RawInteraction? {
      BlockedFacts(Head(raw.blocked, MAX_ACTIONS));
      if raw.actions.ActionList? && ActionsOf(Head(raw.actions.list, MAX_ACTIONS), defaults).Ok? {
        ActionsFacts(Head(raw.actions.list, MAX_ACTIONS), defaults);
      }
    }
  }

  // ---------------------------------------------------------------- reading back the vocabularies

  predicate IsWord(t: string) {
    1 <= |t| <= 32 && forall i | 0 <= i < |t| :: 'a' <= t[i] <= 'z' || t[i] == '_'
  }

  lemma WordIsToken(t: string, limit: nat)
    requires IsWord(t) && limit >= 32
    ensures TokenOf(JStr(t), limit) == t && Lower(t) == t
  {
    assert NulToSpace(t) == t;
    BoundedFixpoint(t, limit);
  }

  lemma ActionIsWord(a: ActionId)
    ensures IsWord(ActionText(a)) && ActionText(a) != "approve"
  {
  }

  lemma StateIsWord(s: State)
    ensures IsWord(StateText(s))
  {
  }

  lemma ActionTextsDiffer(a: ActionId, b: ActionId)
    requires a != b
    ensures ActionText(a) != ActionText(b)
  {
    var s, t := ActionText(a), ActionText(b);
    assert |s| != |t| || s[0] != t[0] || s[1] != t[1] || s[2] != t[2];
  }

  lemma StateTextsDiffer(a: State, b: State)
    requires a != b
    ensures StateText(a) != StateText(b)
  {
    var s, t := StateText(a), StateText(b);
    assert |s| != |t| || s[0] != t[0] || s[2] != t[2];
  }

  lemma RefTextsDiffer(a: RefKind, b: RefKind)
    requires a != b
    ensures RefText(a) != RefText(b)
  {
    assert |RefText(a)| != |RefText(b)|;
  }

  lemma {:induction false} NamedFix<T(!new)>(x: T, values: seq<T>, text: T -> string)
    requires x in values && forall y | y in values && y != x :: text(y) != text(x)
    ensures Named(text(x), values, text) == Some(x)
    decreases |values|
  {
    var last := values[|values| - 1];
    if last != x {
      NamedFix(x, values[..|values| - 1], text);
    }
  }

  lemma ActionFix(a: ActionId)
    ensures CanonicalAction(JStr(ActionText(a))) == Some(a)
  {
    ActionIsWord(a);
    WordIsToken(ActionText(a), 48);
    forall b | b in ACTIONS && b != a
      ensures ActionText(b) != ActionText(a)
    {
      ActionTextsDiffer(a, b);
    }
    NamedFix(a, ACTIONS, ActionText);
  }

  lemma StateFix(s: State)
    ensures StateOf(JStr(StateText(s))) == Some(s)
  {
    StateIsWord(s);
    WordIsToken(StateText(s), 48);
    forall b | b in STATES && b != s
      ensures StateText(b) != StateText(s)
    {
      StateTextsDiffer(s, b);
    }
    NamedFix(s, STATES, StateText);
  }

  lemma RefKindFix(k: RefKind)
    ensures Named(TokenOf(JStr(RefText(k)), 32), REFS, RefText) == Some(k)
  {
    WordIsToken(RefText(k), 32);
    forall b | b in REFS && b != k
      ensures RefText(b) != RefText(k)
    {
      RefTextsDiffer(k, b);
    }
    NamedFix(k, REFS, RefText);
  }
}
