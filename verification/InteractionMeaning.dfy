/**
 What the words of a payload are read as: from the raw command and the raw interaction to what
 the dispatcher is handed, without the functions that read them.
 */
module InteractionMeaning {
  import opened Wrappers
  import opened Text
  import opened Json
  import opened InteractionSchema
  import opened InteractionInput
  import opened InteractionHost
  import opened InteractionGate

  // ---------------------------------------------------------------- words

  /** The word, lower-cased, stands for the action; "approve" is the old word for confirm. */
  predicate Says(t: string, a: ActionId) {
    match a
    case SelectDomain => t == "select_domain"
    case SelectCapability => t == "select_capability"
    case SelectWorkflow => t == "select_workflow"
    case ProvideFacts => t == "provide_facts"
    case Preview => t == "preview"
    case Repair => t == "repair"
    case Confirm => t == "confirm" || t == "approve"
    case Reject => t == "reject"
    case Retry => t == "retry"
    case Recover => t == "recover"
    case Cancel => t == "cancel"
    case RebuildFromResult => t == "rebuild_from_result"
    case StartNewRun => t == "start_new_run"
  }

  /** The first 48 characters of the stripped text, in lower case. */
  function WordOf(v: Json): string {
    Lower(Take(Strip(NulToSpace(TextOf(v))), 48))
  }

  lemma {:induction false} NamedMisses<T(!new)>(t: string, values: seq<T>, text: T -> string)
    ensures Named(t, values, text).None? <==> forall x | x in values :: text(x) != t
    ensures Named(t, values, text).Some? ==> Named(t, values, text).value in values
    decreases |values|
  {
    if values != [] {
      NamedMisses(t, values[..|values| - 1], text);
      assert forall x :: x in values <==> x in values[..|values| - 1] || x == values[|values| - 1];
    }
  }

  lemma AllActionsListed(a: ActionId)
    ensures a in ACTIONS
  {
    assert ACTIONS[0] == SelectDomain && ACTIONS[1] == SelectCapability && ACTIONS[2] == SelectWorkflow;
    assert ACTIONS[3] == ProvideFacts && ACTIONS[4] == Preview && ACTIONS[5] == Repair && ACTIONS[6] == Confirm;
    assert ACTIONS[7] == Reject && ACTIONS[8] == Retry && ACTIONS[9] == Recover && ACTIONS[10] == Cancel;
    assert ACTIONS[11] == RebuildFromResult && ACTIONS[12] == StartNewRun;
  }

  lemma SaysIsText(t: string, a: ActionId)
    ensures Says(t, a) <==> ActionText(a) == t || (a == Confirm && t == "approve")
  {
  }

  lemma SaysOne(t: string, a: ActionId, b: ActionId)
    requires Says(t, a) && Says(t, b)
    ensures a == b
  {
    SaysIsText(t, a);
    SaysIsText(t, b);
    ActionIsWord(a);
    ActionIsWord(b);
    if a != b {
      ActionTextsDiffer(a, b);
    }
  }

  /** A value is read as an action exactly when its word says so. */
  lemma ActionMeans(v: Json, a: ActionId)
    ensures CanonicalAction(v) == Some(a) <==> Says(WordOf(v), a)
  {
    var t := WordOf(v);
    NamedMisses(t, ACTIONS, ActionText);
    AllActionsListed(a);
    SaysIsText(t, a);
    if t == "approve" {
      ActionIsWord(a);
    } else if Named(t, ACTIONS, ActionText).Some? {
      var b := Named(t, ACTIONS, ActionText).value;
      SaysIsText(t, b);
      if Says(t, a) {
        SaysOne(t, a, b);
      }
    }
  }

  /** The kinds a reference can be of. */
  predicate Denotes(t: string, k: RefKind) {
    match k
    case RoutingDecision => t == "routing_decision"
    case RunSubject => t == "run"
    case ActionSubject => t == "action"
    case UnknownSubject => t == "unknown"
  }

  predicate Describes(t: string, s: State) {
    match s
    case CandidateSelection => t == "candidate_selection"
    case FactsRequired => t == "facts_required"
    case ConfirmationRequired => t == "confirmation_required"
    case Repairable => t == "repairable"
    case Recoverable => t == "recoverable"
    case Processing => t == "processing"
    case Completed => t == "completed"
    case Rejected => t == "rejected"
    case Cancelled => t == "cancelled"
    case Failed => t == "failed"
    case StateUnavailable => t == "unavailable"
  }

  /** The stripped text, cut. */
  function Plain(v: Json, limit: nat): string {
    Take(Strip(NulToSpace(TextOf(v))), limit)
  }

  lemma StateMeans(v: Json)
    requires StateOf(v).Some?
    ensures Describes(Plain(v, 48), StateOf(v).value)
  {
  }

  // ---------------------------------------------------------------- subjects

  predicate RefReads(raw: RawRef, r: Ref) {
    && raw.RawRef? && Denotes(Plain(raw.refKind, 32), r.kind)
    && r.id == Plain(raw.refId, 160) && r.id != ""
  }

  predicate SubjectReads(raw: RawSubject, s: Subject) {
    && raw.RawSubject? && RefReads(raw.root, s.root) && RefReads(raw.current, s.current)
    && raw.revision.JInt? && raw.revision.n >= 0
    && s.revision == (if raw.revision.n < 1000000 then raw.revision.n else 1000000)
    && s.domainId == Plain(raw.domainId, 160)
  }

  lemma RefMeans(raw: RawRef, r: Ref)
    ensures RefOf(raw) == Ok(r) <==> RefReads(raw, r)
  {
    if raw.RawRef? {
      var t := Plain(raw.refKind, 32);
      NamedMisses(t, REFS, RefText);
      assert REFS[0] == RoutingDecision && REFS[1] == RunSubject && REFS[2] == ActionSubject && REFS[3] == UnknownSubject;
      if Denotes(t, r.kind) {
        RefKindFix(r.kind);
      }
    }
  }

  /** A subject is read exactly as it is written: both references, the bounded revision, the Domain. */
  lemma SubjectMeans(raw: RawSubject, s: Subject)
    ensures SubjectOf(raw) == Ok(s) <==> SubjectReads(raw, s)
  {
    if raw.RawSubject? {
      RefMeans(raw.root, s.root);
      RefMeans(raw.current, s.current);
      if RefOf(raw.root).Ok? {
        RefMeans(raw.root, RefOf(raw.root).value);
      }
      if RefOf(raw.current).Ok? {
        RefMeans(raw.current, RefOf(raw.current).value);
      }
    }
  }

  // ---------------------------------------------------------------- commands

  predicate CommandReads(raw: RawCommand, c: Command) {
    && raw.RawCommand? && raw.version == JStr("spatial-agent.interaction-command.v1")
    && Says(WordOf(raw.actionId), c.action) && SubjectReads(raw.subject, c.subject)
    && raw.input.JObj? && c.input == raw.input && InputBounded(raw.input, 0)
    && c.key == Plain(raw.key, 128) && c.key != "" && '/' !in c.key && '\\' !in c.key
  }

  /** A command is accepted exactly when it can be read, and then says what was written. */
  lemma CommandMeans(raw: RawCommand, c: Command)
    ensures NormalizeCommand(raw) == Ok(c) <==> CommandReads(raw, c)
  {
    if raw.RawCommand? {
      ActionMeans(raw.actionId, c.action);
      SubjectMeans(raw.subject, c.subject);
      if CanonicalAction(raw.actionId).Some? {
        ActionMeans(raw.actionId, CanonicalAction(raw.actionId).value);
      }
    }
  }

  // ---------------------------------------------------------------- published actions

  /** The first of these raw actions whose word says `id` stands at `i`. */
  predicate FirstSaying(raws: seq<RawAction>, id: ActionId, i: nat) {
    && i < |raws| && raws[i].RawAction? && Says(WordOf(raws[i].actionId), id)
    && forall j | 0 <= j < i :: raws[j].RawAction? ==> !Says(WordOf(raws[j].actionId), id)
  }

  /** The action published for a raw one: its own schema, or the default where it has none. */
  predicate ActionReads(raw: RawAction, a: Action, defaults: ActionId -> RawSchema) {
    && raw.RawAction? && Says(WordOf(raw.actionId), a.id) && a.idempotencyRequired == (raw.idempotency != JBool(false))
    && Normalize(match raw.schema case Some(own) => own case None => defaults(a.id), 0) == Ok(a.schema)
  }

  lemma OneActionMeans(raw: RawAction, a: Action, defaults: ActionId -> RawSchema)
    ensures ActionOf(raw, defaults) == Ok(a) <==> ActionReads(raw, a, defaults)
  {
    if raw.RawAction? {
      ActionMeans(raw.actionId, a.id);
      if CanonicalAction(raw.actionId).Some? {
        ActionMeans(raw.actionId, CanonicalAction(raw.actionId).value);
      }
    }
  }

  /** The published list: for each action said, the reading of the first raw action that says it. */
  ghost predicate ListReads(raws: seq<RawAction>, actions: seq<Action>, defaults: ActionId -> RawSchema) {
    && (forall a | a in actions :: exists i | 0 <= i < |raws| :: FirstSaying(raws, a.id, i) && ActionReads(raws[i], a, defaults))
    && (forall i | 0 <= i < |raws| :: Listed(raws[i], actions))
  }

  ghost predicate Listed(raw: RawAction, actions: seq<Action>) {
    raw.RawAction? && exists a | a in actions :: Says(WordOf(raw.actionId), a.id)
  }

  /** The first of these with its id. */
  ghost predicate FirstAt(read: seq<Action>, i: nat) {
    i < |read| && forall j | 0 <= j < i :: read[j].id != read[i].id
  }

  ghost predicate Represented(kept: seq<Action>, id: ActionId) {
    exists a | a in kept :: a.id == id
  }

  /** Of a list of actions the first of each id is kept. */
  ghost predicate FirstOfEach(read: seq<Action>, kept: seq<Action>) {
    && (forall a | a in kept :: KeptFirst(read, a))
    && (forall i | 0 <= i < |read| :: Represented(kept, read[i].id))
  }

  ghost predicate KeptFirst(read: seq<Action>, a: Action) {
    exists i | 0 <= i < |read| :: FirstAt(read, i) && read[i] == a
  }

  lemma RepresentedIsIn(kept: seq<Action>, id: ActionId)
    ensures Represented(kept, id) <==> id in Ids(kept)
  {
    if id in Ids(kept) {
      var k :| 0 <= k < |kept| && Ids(kept)[k] == id;
      assert kept[k] in kept;
    }
    if a :| a in kept && a.id == id {
      var k :| 0 <= k < |kept| && kept[k] == a;
      assert Ids(kept)[k] == id;
    }
  }

  lemma KeptFirstStays(read: seq<Action>, a: Action, x: Action)
    requires KeptFirst(read, x)
    ensures KeptFirst(read + [a], x)
  {
    var i :| 0 <= i < |read| && FirstAt(read, i) && read[i] == x;
    assert FirstAt(read + [a], i) && (read + [a])[i] == x;
  }

  lemma NewIsFirst(read: seq<Action>, kept: seq<Action>, a: Action)
    requires FirstOfEach(read, kept) && !Represented(kept, a.id)
    ensures KeptFirst(read + [a], a)
  {
    assert forall j | 0 <= j < |read| :: Represented(kept, read[j].id);
    assert FirstAt(read + [a], |read|) && (read + [a])[|read|] == a;
  }

  lemma RepresentedGrows(kept: seq<Action>, a: Action, id: ActionId)
    requires Represented(kept, id) || id == a.id
    ensures Represented(if a.id in Ids(kept) then kept else kept + [a], id)
  {
    RepresentedIsIn(kept, a.id);
    if id == a.id && a.id !in Ids(kept) {
      assert a in kept + [a];
    } else {
      var x :| x in kept && x.id == id;
      assert x in kept + [a];
    }
  }

  lemma FirstOfEachGrows(read: seq<Action>, kept: seq<Action>, a: Action)
    requires FirstOfEach(read, kept)
    ensures FirstOfEach(read + [a], if a.id in Ids(kept) then kept else kept + [a])
  {
    RepresentedIsIn(kept, a.id);
    forall x | x in kept || (x == a && a.id !in Ids(kept))
      ensures KeptFirst(read + [a], x)
    {
      if x in kept {
        KeptFirstStays(read, a, x);
      } else {
        NewIsFirst(read, kept, a);
      }
    }
    forall i | 0 <= i < |read + [a]|
      ensures Represented(if a.id in Ids(kept) then kept else kept + [a], (read + [a])[i].id)
    {
      RepresentedGrows(kept, a, (read + [a])[i].id);
    }
  }

  /** The actions read from the raw ones, one by one. */
  ghost predicate AllRead(raws: seq<RawAction>, read: seq<Action>, defaults: ActionId -> RawSchema) {
    |read| == |raws| && forall i | 0 <= i < |raws| :: Parsed(raws, defaults)[i] == Ok(read[i])
  }

  lemma {:induction false} CollectedMeans(results: Parsing) returns (read: seq<Action>)
    requires Collected(results).Ok?
    ensures |read| == |results| && (forall i | 0 <= i < |results| :: results[i] == Ok(read[i]))
    ensures FirstOfEach(read, Collected(results).value)
    decreases |results|
  {
    if results == [] {
      read := [];
    } else {
      read := CollectedMeans(results[..|results| - 1]);
      var a := results[|results| - 1].value;
      FirstOfEachGrows(read, Collected(results[..|results| - 1]).value, a);
      read := read + [a];
    }
  }

  /** A raw action that is read as `a` says `a` and nothing else. */
  lemma ReadSays(raw: RawAction, a: Action, defaults: ActionId -> RawSchema, id: ActionId)
    requires ActionOf(raw, defaults) == Ok(a)
    ensures ActionReads(raw, a, defaults) && (Says(WordOf(raw.actionId), id) <==> id == a.id)
  {
    OneActionMeans(raw, a, defaults);
    if Says(WordOf(raw.actionId), id) {
      SaysOne(WordOf(raw.actionId), id, a.id);
    }
  }

  lemma FirstRead(raws: seq<RawAction>, read: seq<Action>, defaults: ActionId -> RawSchema, i: nat)
    requires AllRead(raws, read, defaults) && FirstAt(read, i)
    ensures FirstSaying(raws, read[i].id, i) && ActionReads(raws[i], read[i], defaults)
  {
    forall j | 0 <= j <= i
      ensures raws[j].RawAction? && (Says(WordOf(raws[j].actionId), read[i].id) <==> read[j].id == read[i].id)
    {
      ReadSays(raws[j], read[j], defaults, read[i].id);
    }
    ReadSays(raws[i], read[i], defaults, read[i].id);
  }

  lemma KeptReads(raws: seq<RawAction>, read: seq<Action>, defaults: ActionId -> RawSchema, a: Action)
    requires AllRead(raws, read, defaults) && KeptFirst(read, a)
    ensures exists i | 0 <= i < |raws| :: FirstSaying(raws, a.id, i) && ActionReads(raws[i], a, defaults)
  {
    var i :| 0 <= i < |read| && FirstAt(read, i) && read[i] == a;
    FirstRead(raws, read, defaults, i);
  }

  lemma ReadIsListed(raw: RawAction, a: Action, defaults: ActionId -> RawSchema, kept: seq<Action>)
    requires ActionOf(raw, defaults) == Ok(a) && Represented(kept, a.id)
    ensures Listed(raw, kept)
  {
    var x :| x in kept && x.id == a.id;
    ReadSays(raw, a, defaults, x.id);
  }

  lemma ListMeans(raws: seq<RawAction>, defaults: ActionId -> RawSchema)
    requires ActionsOf(raws, defaults).Ok?
    ensures ListReads(raws, ActionsOf(raws, defaults).value, defaults)
  {
    var kept := ActionsOf(raws, defaults).value;
    var read := CollectedMeans(Parsed(raws, defaults));
    forall a | a in kept
      ensures exists i | 0 <= i < |raws| :: FirstSaying(raws, a.id, i) && ActionReads(raws[i], a, defaults)
    {
      KeptReads(raws, read, defaults, a);
    }
    forall i | 0 <= i < |raws|
      ensures Listed(raws[i], kept)
    {
      ReadIsListed(raws[i], read[i], defaults, kept);
    }
  }

  /** Some of these values says it. */
  ghost predicate Said(raws: seq<Json>, id: ActionId) {
    exists i | 0 <= i < |raws| :: Says(WordOf(raws[i]), id)
  }

  /** Blocked are exactly the actions that some entry says. */
  lemma BlockedMeans(raws: seq<Json>, id: ActionId)
    ensures id in BlockedOf(raws) <==> Said(raws, id)
  {
    NotedFacts(Readings(raws));
    forall i | 0 <= i < |raws|
      ensures Readings(raws)[i] == Some(id) <==> Says(WordOf(raws[i]), id)
    {
      ActionMeans(raws[i], id);
    }
  }

  lemma AllBlockedMean(raws: seq<Json>)
    ensures forall id :: id in BlockedOf(raws) <==> Said(raws, id)
  {
    forall id
      ensures id in BlockedOf(raws) <==> Said(raws, id)
    {
      BlockedMeans(raws, id);
    }
  }

  // ---------------------------------------------------------------- interactions

  /** What a readable interaction says: its own subject and state, the first twelve of what it offers and blocks. */
  ghost predicate InteractionReads(raw: RawInteraction, i: Interaction, defaults: ActionId -> RawSchema) {
    && raw.RawInteraction? && raw.version == JStr("spatial-agent.interaction.v1")
    && SubjectReads(raw.subject, i.subject) && Describes(Plain(raw.state, 48), i.state)
    && i.available == Truthy(raw.available)
    && raw.actions.ActionList?
    && (i.available ==> ListReads(Head(raw.actions.list, 12), i.actions, defaults))
    && (forall id :: id in i.blocked <==> Said(Head(raw.blocked, 12), id))
  }

  /** Anything that cannot be read is the one unavailable interaction, about nothing. */
  lemma InteractionMeans(raw: RawInteraction, defaults: ActionId -> RawSchema)
    ensures var i := NormalizeInteraction(raw, defaults);
            InteractionReads(raw, i, defaults)
            || (!i.available && i.subject.current.kind == UnknownSubject && i.actions == [] && i.blocked == [])
  {
    var i := NormalizeInteraction(raw, defaults);
    if raw.RawInteraction? && raw.version == JStr(INTERACTION_SCHEMA) && Contract(raw, defaults).Ok? {
      SubjectMeans(raw.subject, i.subject);
      StateMeans(raw.state);
      ListMeans(Head(raw.actions.list, MAX_ACTIONS), defaults);
      AllBlockedMean(Head(raw.blocked, MAX_ACTIONS));
    }
  }

  // ---------------------------------------------------------------- what reaches the dispatcher

  /** Some of the first twelve raw actions says it. */
  ghost predicate Offered(list: seq<RawAction>, id: ActionId) {
    exists i | 0 <= i < |list| && i < 12 :: list[i].RawAction? && Says(WordOf(list[i].actionId), id)
  }

  lemma OfferedInWords(list: seq<RawAction>, actions: seq<Action>, defaults: ActionId -> RawSchema, a: Action)
    requires ListReads(Head(list, 12), actions, defaults) && a in actions
    ensures Offered(list, a.id)
  {
    var i :| 0 <= i < |Head(list, 12)| && FirstSaying(Head(list, 12), a.id, i);
    assert Head(list, 12)[i] == list[i];
  }

  lemma AllowedIsListed(i: Interaction, id: ActionId) returns (a: Action)
    requires Sound(i) && id in i.allowed
    ensures a in i.actions && a.id == id
  {
    var k :| 0 <= k < |i.allowed| && i.allowed[k] == id;
    a := i.actions[k];
  }

  /**
   A command that reaches the dispatcher is handed over as the action its own word says, with
   the input it carried; and the interaction just loaded is available, about the same current
   subject at the same revision, and offers that action in its own words.
   */
  lemma DispatchMeans(raw: RawCommand, source: RawInteraction, defaults: ActionId -> RawSchema)
    requires Invoke(raw, source, defaults).Ok?
    ensures var d := Invoke(raw, source, defaults).value;
            && raw.RawCommand? && Says(WordOf(raw.actionId), d.command.action) && d.action.id == d.command.action
            && d.command.input == raw.input
            && source.RawInteraction? && Truthy(source.available)
            && source.actions.ActionList? && Offered(source.actions.list, d.command.action)
            && raw.subject.RawSubject? && source.subject.RawSubject?
            && (exists current :: RefReads(raw.subject.current, current) && RefReads(source.subject.current, current))
            && raw.subject.revision.JInt? && source.subject.revision.JInt?
            && (raw.subject.revision.n == source.subject.revision.n
                || (raw.subject.revision.n >= 1000000 && source.subject.revision.n >= 1000000))
  {
    var c, d := NormalizeCommand(raw).value, Invoke(raw, source, defaults).value;
    DispatchedCommand(raw, source, defaults);
    CommandMeans(raw, c);
    DispatchIsGuarded(raw, source, defaults);
    InteractionMeans(source, defaults);
    var a := AllowedIsListed(d.interaction, d.command.action);
    OfferedInWords(source.actions.list, d.interaction.actions, defaults, a);
    assert RefReads(raw.subject.current, c.subject.current) && RefReads(source.subject.current, c.subject.current);
  }

  /** A command whose word says nothing is never dispatched. */
  lemma UnknownWordIsRefused(raw: RawCommand, source: RawInteraction, defaults: ActionId -> RawSchema)
    requires raw.RawCommand? && forall a :: !Says(WordOf(raw.actionId), a)
    ensures Invoke(raw, source, defaults).Err?
  {
    if Invoke(raw, source, defaults).Ok? {
      DispatchMeans(raw, source, defaults);
    }
  }
}
