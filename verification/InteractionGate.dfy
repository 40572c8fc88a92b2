/** What a dispatched command was allowed to be: safety of the interaction gate over every run. */
module InteractionGate {
  import opened Wrappers
  import opened Text
  import opened Json
  import opened InteractionSchema
  import opened InteractionInput
  import opened InteractionHost

  // ---------------------------------------------------------------- normalising twice

  /** Identities without the blank edge that a cut can leave behind. */
  ghost predicate RefStable(r: Ref) {
    r.id != "" && TokenOf(JStr(r.id), MAX_ID) == r.id
  }

  ghost predicate SubjectStable(s: Subject) {
    RefStable(s.root) && RefStable(s.current) && s.revision <= MAX_REVISION && TokenOf(JStr(s.domainId), MAX_ID) == s.domainId
  }

  ghost predicate CommandStable(c: Command) {
    SubjectStable(c.subject) && TokenOf(JStr(c.key), 128) == c.key
  }

  ghost predicate InteractionStable(i: Interaction) {
    SubjectStable(i.subject) && forall a | a in i.actions :: NamesStable(a.schema)
  }

  lemma RefFix(r: Ref)
    requires RefStable(r)
    ensures RefOf(RawOfRef(r)) == Ok(r)
  {
    RefKindFix(r.kind);
  }

  lemma SubjectFix(s: Subject)
    requires SubjectStable(s)
    ensures SubjectOf(RawOfSubject(s)) == Ok(s)
  {
    RefFix(s.root);
    RefFix(s.current);
  }

  lemma CommandFacts(raw: RawCommand)
    requires NormalizeCommand(raw).Ok?
    ensures var c := NormalizeCommand(raw).value;
            && c.input == raw.input && c.input.JObj? && InputBounded(c.input, 0)
            && c.key != "" && '/' !in c.key && '\\' !in c.key && SubjectOf(raw.subject) == Ok(c.subject)
  {
  }

  lemma CommandFix(c: Command)
    requires CommandStable(c) && c.input.JObj? && InputBounded(c.input, 0)
    requires c.key != "" && '/' !in c.key && '\\' !in c.key
    ensures NormalizeCommand(RawOfCommand(c)) == Ok(c)
  {
    ActionFix(c.action);
    SubjectFix(c.subject);
  }

  lemma CommandKeyIsShort(raw: RawCommand)
    requires NormalizeCommand(raw).Ok?
    ensures 1 <= |NormalizeCommand(raw).value.key| <= 128
  {
    TokenAgain(TextOf(raw.key), 128);
  }

  lemma DecidedCommand(c: Command, i: Interaction)
    requires Decide(c, i).Ok?
    ensures Decide(c, i).value.0 == c
  {
  }

  lemma DispatchedCommand(raw: RawCommand, source: RawInteraction, defaults: ActionId -> RawSchema)
    requires Invoke(raw, source, defaults).Ok?
    ensures NormalizeCommand(raw).Ok?
    ensures NormalizeCommand(RawOfCommand(NormalizeCommand(raw).value)) == Ok(Invoke(raw, source, defaults).value.command)
  {
    var c, i := NormalizeCommand(raw).value, NormalizeInteraction(source, defaults);
    DecidedCommand(NormalizeCommand(RawOfCommand(c)).value, NormalizeInteraction(RawOfInteraction(i), defaults));
  }

  /** The gate hands over keys short enough to be stored whole by whoever keeps receipts. */
  lemma CheckedKeyIsShort(raw: RawCommand, source: RawInteraction, defaults: ActionId -> RawSchema)
    requires Invoke(raw, source, defaults).Ok?
    ensures 1 <= |Invoke(raw, source, defaults).value.command.key| <= 128
  {
    DispatchedCommand(raw, source, defaults);
    CommandKeyIsShort(RawOfCommand(NormalizeCommand(raw).value));
  }

  lemma ActionAgain(a: Action, defaults: ActionId -> RawSchema)
    requires Shaped(a.schema, MAX_SCHEMA_DEPTH) && NamesStable(a.schema)
    ensures ActionOf(RawOfAction(a), defaults) == Ok(a)
  {
    ActionFix(a.id);
    StableIsFixed(a.schema);
  }

  lemma {:induction false} AllCollected(results: Parsing, actions: seq<Action>)
    requires |results| == |actions| && forall i | 0 <= i < |results| :: results[i] == Ok(actions[i])
    requires DistinctIds(Ids(actions))
    ensures Collected(results) == Ok(actions)
    decreases |results|
  {
    if actions != [] {
      var init, last := actions[..|actions| - 1], actions[|actions| - 1];
      assert forall i | 0 <= i < |init| :: Ids(init)[i] == Ids(actions)[i];
      AllCollected(results[..|results| - 1], init);
      assert Ids(actions)[|actions| - 1] == last.id && last.id !in Ids(init);
      assert actions == init + [last];
    }
  }

  lemma ActionsAgain(actions: seq<Action>, defaults: ActionId -> RawSchema)
    requires DistinctIds(Ids(actions))
    requires forall a | a in actions :: Shaped(a.schema, MAX_SCHEMA_DEPTH) && NamesStable(a.schema)
    ensures ActionsOf(RawActionsOf(actions), defaults) == Ok(actions)
  {
    var raws := RawActionsOf(actions);
    forall i | 0 <= i < |actions|
      ensures Parsed(raws, defaults)[i] == Ok(actions[i])
    {
      assert actions[i] in actions;
      ActionAgain(actions[i], defaults);
    }
    AllCollected(Parsed(raws, defaults), actions);
  }

  lemma {:induction false} NotedAgain(readings: seq<Option<ActionId>>, ids: seq<ActionId>)
    requires |readings| == |ids| && DistinctIds(ids) && forall i | 0 <= i < |ids| :: readings[i] == Some(ids[i])
    ensures Noted(readings) == ids
    decreases |ids|
  {
    if ids != [] {
      var init, last := ids[..|ids| - 1], ids[|ids| - 1];
      NotedAgain(readings[..|ids| - 1], init);
      assert last !in init;
      assert ids == init + [last];
    }
  }

  lemma BlockedAgain(ids: seq<ActionId>)
    requires DistinctIds(ids)
    ensures BlockedOf(ActionTexts(ids)) == ids
  {
    forall i | 0 <= i < |ids|
      ensures Readings(ActionTexts(ids))[i] == Some(ids[i])
    {
      ActionFix(ids[i]);
    }
    NotedAgain(Readings(ActionTexts(ids)), ids);
  }

  lemma ContractParts(
    raw: RawInteraction, defaults: ActionId -> RawSchema, subject: Subject, state: State, actions: seq<Action>,
    blocked: seq<ActionId>)
    requires raw.RawInteraction? && raw.actions.ActionList?
    requires SubjectOf(raw.subject) == Ok(subject) && StateOf(raw.state) == Some(state)
    requires ActionsOf(Head(raw.actions.list, MAX_ACTIONS), defaults) == Ok(actions)
    requires BlockedOf(Head(raw.blocked, MAX_ACTIONS)) == blocked
    ensures Contract(raw, defaults) == Ok(Assembled(Truthy(raw.available), subject, state, actions, blocked))
  {
  }

  lemma ContractFix(i: Interaction, defaults: ActionId -> RawSchema)
    requires Sound(i) && InteractionStable(i)
    ensures Contract(RawOfInteraction(i), defaults) == Ok(i)
  {
    SubjectFix(i.subject);
    StateFix(i.state);
    ActionsAgain(i.actions, defaults);
    BlockedAgain(i.blocked);
    ContractParts(RawOfInteraction(i), defaults, i.subject, i.state, i.actions, i.blocked);
  }

  /** A sound interaction with stable texts is its own normal form. */
  lemma InteractionFix(i: Interaction, defaults: ActionId -> RawSchema)
    requires Sound(i) && InteractionStable(i)
    ensures NormalizeInteraction(RawOfInteraction(i), defaults) == i
  {
    ContractFix(i, defaults);
  }

  // ---------------------------------------------------------------- exactly the permitted commands

  ghost predicate Permitted(c: Command, i: Interaction) {
    && i.available && c.subject == i.subject
    && exists a | a in i.actions :: a.id == c.action && Conforms(c.input, a.schema)
  }

  lemma OnlyAction(i: Interaction, a: Action)
    requires Sound(i) && a in i.actions
    ensures FindAction(i.actions, a.id) == Some(a)
  {
    var b := FindAction(i.actions, a.id).value;
    var m :| 0 <= m < |i.actions| && i.actions[m] == a;
    var n :| 0 <= n < |i.actions| && i.actions[n] == b;
    assert Ids(i.actions)[m] == Ids(i.actions)[n];
  }

  lemma FoundMeans(c: Command, i: Interaction)
    requires Sound(i)
    ensures (exists a | a in i.actions :: a.id == c.action && Conforms(c.input, a.schema)) <==>
            var found := FindAction(i.actions, c.action); found.Some? && Conforms(c.input, found.value.schema)
  {
    forall a | a in i.actions && a.id == c.action
      ensures FindAction(i.actions, c.action) == Some(a)
    {
      OnlyAction(i, a);
    }
  }

  lemma AcceptedInput(v: Json, s: Schema)
    requires Shaped(s, MAX_SCHEMA_DEPTH) && NamesStable(s)
    ensures Validate(v, RawOf(s), 0).Ok? <==> Conforms(v, s)
  {
    StableIsFixed(s);
    StableBelow(s);
    ValidateMeansConforms(v, RawOf(s));
  }

  lemma DecidedMeans(c: Command, i: Interaction)
    requires Sound(i) && InteractionStable(i)
    ensures Decide(c, i).Ok? <==> Permitted(c, i)
    ensures Permitted(c, i) ==> FindAction(i.actions, c.action).Some?
                                && Decide(c, i) == Ok((c, FindAction(i.actions, c.action).value))
  {
    FoundMeans(c, i);
    var found := FindAction(i.actions, c.action);
    if found.Some? {
      AcceptedInput(c.input, found.value.schema);
    }
  }

  /** On normal forms the second normalisation is idle: the command is decided against what was loaded. */
  lemma InvokeIs(raw: RawCommand, source: RawInteraction, defaults: ActionId -> RawSchema, c: Command, i: Interaction)
    requires NormalizeCommand(raw) == Ok(c) && NormalizeCommand(RawOfCommand(c)) == Ok(c)
    requires NormalizeInteraction(source, defaults) == i && NormalizeInteraction(RawOfInteraction(i), defaults) == i
    ensures Invoke(raw, source, defaults)
            == if source.NoInteraction? then Err(SubjectNotFound)
               else if i.subject.current != c.subject.current then Err(SubjectConflict)
               else match Decide(c, i)
                    case Err(e) => Err(e)
                    case Ok(checked) => Ok(Dispatch(checked.0, checked.1, i))
  {
  }

  /**
   With stable texts, the dispatcher runs exactly when the interaction just loaded is available,
   has the command's own subject and revision, lists the action, and its schema accepts the
   input; it is handed the command unchanged.
   */
  lemma DispatchedIsPermitted(raw: RawCommand, source: RawInteraction, defaults: ActionId -> RawSchema)
    requires NormalizeCommand(raw).Ok? && CommandStable(NormalizeCommand(raw).value)
    requires InteractionStable(NormalizeInteraction(source, defaults))
    ensures var c, i := NormalizeCommand(raw).value, NormalizeInteraction(source, defaults);
            && (Invoke(raw, source, defaults).Ok? <==> source.RawInteraction? && Permitted(c, i))
            && (Invoke(raw, source, defaults).Ok? ==>
                  FindAction(i.actions, c.action).Some?
                  && Invoke(raw, source, defaults).value == Dispatch(c, FindAction(i.actions, c.action).value, i))
  {
    var c, i := NormalizeCommand(raw).value, NormalizeInteraction(source, defaults);
    CommandFacts(raw);
    CommandFix(c);
    NormalizedIsSound(source, defaults);
    InteractionFix(i, defaults);
    InvokeIs(raw, source, defaults, c, i);
    DecidedMeans(c, i);
  }

  // ---------------------------------------------------------------- every input

  /** Whatever the texts, a dispatched command meets these. */
  ghost predicate Guarded(d: Dispatch) {
    && d.interaction.available && Sound(d.interaction)
    && d.action.id == d.command.action && d.command.action in d.interaction.allowed
    && d.command.subject.revision == d.interaction.subject.revision
    && d.command.input.JObj? && InputBounded(d.command.input, 0) && Validate(d.command.input, RawOf(d.action.schema), 0).Ok?
  }

  lemma CommandAgain(c: Command)
    requires NormalizeCommand(RawOfCommand(c)).Ok? && c.subject.revision <= MAX_REVISION
    ensures var again := NormalizeCommand(RawOfCommand(c)).value;
            again.action == c.action && again.input == c.input && again.subject.revision == c.subject.revision
  {
    ActionFix(c.action);
  }

  lemma ActionKeepsId(a: Action, defaults: ActionId -> RawSchema)
    requires ActionOf(RawOfAction(a), defaults).Ok?
    ensures ActionOf(RawOfAction(a), defaults).value.id == a.id
  {
    ActionFix(a.id);
  }

  lemma ActionsStayListed(actions: seq<Action>, defaults: ActionId -> RawSchema)
    requires ActionsOf(RawActionsOf(actions), defaults).Ok?
    ensures forall a | a in ActionsOf(RawActionsOf(actions), defaults).value :: a.id in Ids(actions)
  {
    var results := Parsed(RawActionsOf(actions), defaults);
    CollectedFacts(results);
    forall a | a in ActionsOf(RawActionsOf(actions), defaults).value
      ensures a.id in Ids(actions)
    {
      var i :| 0 <= i < |results| && results[i] == Ok(a);
      ActionKeepsId(actions[i], defaults);
      assert Ids(actions)[i] == a.id;
    }
  }

  lemma InteractionAgain(i: Interaction, defaults: ActionId -> RawSchema)
    requires Sound(i)
    ensures var again := NormalizeInteraction(RawOfInteraction(i), defaults);
            again.available ==>
              && i.available && again.subject.revision == i.subject.revision
              && forall a | a in again.actions :: a.id in Ids(i.actions)
  {
    var again := NormalizeInteraction(RawOfInteraction(i), defaults);
    if again.available {
      assert Contract(RawOfInteraction(i), defaults) == Ok(again);
      ActionsStayListed(i.actions, defaults);
    }
  }

  lemma CommandRevision(raw: RawCommand)
    requires NormalizeCommand(raw).Ok?
    ensures NormalizeCommand(raw).value.subject.revision <= MAX_REVISION
  {
  }

  /** No command of any shape is dispatched outside these conditions. */
  lemma DispatchIsGuarded(raw: RawCommand, source: RawInteraction, defaults: ActionId -> RawSchema)
    requires Invoke(raw, source, defaults).Ok?
    ensures var d := Invoke(raw, source, defaults).value;
            && Guarded(d) && d.interaction == NormalizeInteraction(source, defaults)
            && d.interaction.subject.current == NormalizeCommand(raw).value.subject.current
            && d.command.action == NormalizeCommand(raw).value.action && d.command.input == raw.input
            && d.command.subject.revision == NormalizeCommand(raw).value.subject.revision
  {
    var c, i := NormalizeCommand(raw).value, NormalizeInteraction(source, defaults);
    CommandFacts(raw);
    CommandRevision(raw);
    CommandAgain(c);
    CommandFacts(RawOfCommand(c));
    NormalizedIsSound(source, defaults);
    InteractionAgain(i, defaults);
  }

  lemma RevisionIsCut(raw: RawSubject)
    requires SubjectOf(raw).Ok?
    ensures raw.RawSubject? && raw.revision.JInt? && raw.revision.n >= 0
    ensures SubjectOf(raw).value.revision == if raw.revision.n < MAX_REVISION then raw.revision.n else MAX_REVISION
  {
  }

  lemma AvailableSubject(source: RawInteraction, defaults: ActionId -> RawSchema)
    requires NormalizeInteraction(source, defaults).available
    ensures source.RawInteraction? && SubjectOf(source.subject) == Ok(NormalizeInteraction(source, defaults).subject)
  {
  }

  /** A command names the revision it saw; beyond a million, revisions are no longer told apart. */
  lemma StaleRevisionIsRefused(raw: RawCommand, source: RawInteraction, defaults: ActionId -> RawSchema)
    requires raw.RawCommand? && source.RawInteraction? && raw.subject.RawSubject? && source.subject.RawSubject?
    requires raw.subject.revision.JInt? && source.subject.revision.JInt?
    requires raw.subject.revision.n != source.subject.revision.n
    requires raw.subject.revision.n < MAX_REVISION || source.subject.revision.n < MAX_REVISION
    ensures Invoke(raw, source, defaults).Err?
  {
    if Invoke(raw, source, defaults).Ok? {
      DispatchIsGuarded(raw, source, defaults);
      CommandFacts(raw);
      RevisionIsCut(raw.subject);
      AvailableSubject(source, defaults);
      RevisionIsCut(source.subject);
    }
  }

  /** The payload names this revision. */
  predicate CommandAt(raw: RawCommand, m: int) {
    raw.RawCommand? && raw.subject.RawSubject? && raw.subject.revision == JInt(m)
  }

  predicate SourceAt(source: RawInteraction, n: int) {
    source.RawInteraction? && source.subject.RawSubject? && source.subject.revision == JInt(n)
  }

  function Renamed(raw: RawCommand, m: int): RawCommand
    requires raw.RawCommand? && raw.subject.RawSubject?
  {
    raw.(subject := raw.subject.(revision := JInt(m)))
  }

  function Moved(source: RawInteraction, n: int): RawInteraction
    requires source.RawInteraction? && source.subject.RawSubject?
  {
    source.(subject := source.subject.(revision := JInt(n)))
  }

  lemma SubjectsMerge(s: RawSubject, m: int)
    requires s.RawSubject? && s.revision.JInt? && s.revision.n >= MAX_REVISION && m >= MAX_REVISION
    ensures SubjectOf(s.(revision := JInt(m))) == SubjectOf(s)
  {
  }

  lemma CommandsMerge(raw: RawCommand, m: int, named: int)
    requires CommandAt(raw, named) && named >= MAX_REVISION && m >= MAX_REVISION
    ensures NormalizeCommand(Renamed(raw, m)) == NormalizeCommand(raw)
  {
    SubjectsMerge(raw.subject, m);
  }

  lemma SourcesMerge(source: RawInteraction, defaults: ActionId -> RawSchema, n: int, current: int)
    requires SourceAt(source, current) && current >= MAX_REVISION && n >= MAX_REVISION
    ensures NormalizeInteraction(Moved(source, n), defaults) == NormalizeInteraction(source, defaults)
  {
    SubjectsMerge(source.subject, n);
    assert Contract(Moved(source, n), defaults) == Contract(source, defaults);
  }

  /** From a million on, neither the revision a command names nor the current one makes any difference. */
  lemma RevisionsBeyondMillionMerge(
    raw: RawCommand, source: RawInteraction, defaults: ActionId -> RawSchema, named: int, current: int, m: int, n: int)
    requires CommandAt(raw, named) && SourceAt(source, current)
    requires named >= MAX_REVISION && current >= MAX_REVISION && m >= MAX_REVISION && n >= MAX_REVISION
    ensures Invoke(Renamed(raw, m), Moved(source, n), defaults) == Invoke(raw, source, defaults)
  {
    CommandsMerge(raw, m, named);
    SourcesMerge(source, defaults, n, current);
    SameInvoke(Renamed(raw, m), raw, Moved(source, n), source, defaults);
  }

  /** The gate reads both payloads only through their normal forms. */
  lemma SameInvoke(a: RawCommand, b: RawCommand, x: RawInteraction, y: RawInteraction, defaults: ActionId -> RawSchema)
    requires NormalizeCommand(a) == NormalizeCommand(b) && x.NoInteraction? == y.NoInteraction?
    requires NormalizeInteraction(x, defaults) == NormalizeInteraction(y, defaults)
    ensures Invoke(a, x, defaults) == Invoke(b, y, defaults)
  {
  }

  // ---------------------------------------------------------------- which revisions are told apart

  /** Some command naming revision `m` is dispatched while the current revision is `n`. */
  ghost predicate Dispatchable(m: int, n: int) {
    exists raw: RawCommand, source: RawInteraction, defaults: ActionId -> RawSchema ::
      CommandAt(raw, m) && SourceAt(source, n) && Invoke(raw, source, defaults).Ok?
  }

  function RunAt(revision: nat): Subject {
    Subject(Ref(RunSubject, "r"), Ref(RunSubject, "r"), revision, "")
  }

  const NO_FIELDS := ObjectSchema([], [], false)

  function CancelAt(revision: nat): Command {
    Command(RunAt(revision), Cancel, JObj([]), "k")
  }

  function CancellableAt(revision: nat): Interaction {
    Interaction(true, true, RunAt(revision), Processing, [Action(Cancel, NO_FIELDS, true)], [Cancel], [])
  }

  lemma RunIsStable(revision: nat)
    requires revision <= MAX_REVISION
    ensures SubjectStable(RunAt(revision))
  {
    LetterIsToken("r", MAX_ID);
    assert TokenOf(JStr(""), MAX_ID) == "";
  }

  lemma LetterIsToken(s: string, limit: nat)
    requires |s| == 1 && 'a' <= s[0] <= 'z' && limit > 0
    ensures TokenOf(JStr(s), limit) == s
  {
    assert NulToSpace(s) == s;
    BoundedFixpoint(s, limit);
  }

  lemma CancelIsFixed(revision: nat)
    requires revision <= MAX_REVISION
    ensures CommandStable(CancelAt(revision)) && NormalizeCommand(RawOfCommand(CancelAt(revision))) == Ok(CancelAt(revision))
  {
    RunIsStable(revision);
    LetterIsToken("k", 128);
    CommandFix(CancelAt(revision));
  }

  lemma CancellableIsFixed(revision: nat, defaults: ActionId -> RawSchema)
    requires revision <= MAX_REVISION
    ensures InteractionStable(CancellableAt(revision))
    ensures NormalizeInteraction(RawOfInteraction(CancellableAt(revision)), defaults) == CancellableAt(revision)
  {
    RunIsStable(revision);
    assert Ids(CancellableAt(revision).actions) == [Cancel];
    InteractionFix(CancellableAt(revision), defaults);
  }

  lemma CancelIsDispatched(revision: nat, defaults: ActionId -> RawSchema)
    requires revision <= MAX_REVISION
    ensures Invoke(RawOfCommand(CancelAt(revision)), RawOfInteraction(CancellableAt(revision)), defaults).Ok?
  {
    var c, i := CancelAt(revision), CancellableAt(revision);
    CancelIsFixed(revision);
    CancellableIsFixed(revision, defaults);
    assert i.actions[0] in i.actions && Conforms(c.input, i.actions[0].schema);
    DispatchedIsPermitted(RawOfCommand(c), RawOfInteraction(i), defaults);
  }

  /**
   A command is dispatched at another revision than the one it names exactly when both are a
   million or more.
   */
  lemma RevisionsToldApart(m: nat, n: nat)
    ensures Dispatchable(m, n) <==> m == n || (m >= MAX_REVISION && n >= MAX_REVISION)
  {
    if m == n || (m >= MAX_REVISION && n >= MAX_REVISION) {
      IndifferentIsDispatched(m, n);
    } else if Dispatchable(m, n) {
      var raw: RawCommand, source: RawInteraction, defaults: ActionId -> RawSchema :|
        CommandAt(raw, m) && SourceAt(source, n) && Invoke(raw, source, defaults).Ok?;
      StaleRevisionIsRefused(raw, source, defaults);
    }
  }

  lemma WitnessIsDispatched(m: nat, n: nat, raw: RawCommand, source: RawInteraction, defaults: ActionId -> RawSchema)
    requires CommandAt(raw, m) && SourceAt(source, n) && Invoke(raw, source, defaults).Ok?
    ensures Dispatchable(m, n)
  {
  }

  lemma SameIsDispatched(m: nat)
    requires m <= MAX_REVISION
    ensures Dispatchable(m, m)
  {
    var defaults := (a: ActionId) => NotASchema;
    CancelIsDispatched(m, defaults);
    WitnessIsDispatched(m, m, RawOfCommand(CancelAt(m)), RawOfInteraction(CancellableAt(m)), defaults);
  }

  lemma LargeIsDispatched(m: nat, n: nat)
    requires m >= MAX_REVISION && n >= MAX_REVISION
    ensures Dispatchable(m, n)
  {
    var defaults := (a: ActionId) => NotASchema;
    var raw, source := RawOfCommand(CancelAt(MAX_REVISION)), RawOfInteraction(CancellableAt(MAX_REVISION));
    CancelIsDispatched(MAX_REVISION, defaults);
    RevisionsBeyondMillionMerge(raw, source, defaults, MAX_REVISION, MAX_REVISION, m, n);
    WitnessIsDispatched(m, n, Renamed(raw, m), Moved(source, n), defaults);
  }

  lemma IndifferentIsDispatched(m: nat, n: nat)
    requires m == n || (m >= MAX_REVISION && n >= MAX_REVISION)
    ensures Dispatchable(m, n)
  {
    if m < MAX_REVISION {
      SameIsDispatched(m);
    } else {
      LargeIsDispatched(m, n);
    }
  }

  // ---------------------------------------------------------------- the host over a run

  /** The host with the store its loader reads and a record of what reached the dispatcher. */
  class Host {
    var store: map<Ref, RawInteraction>
    const defaults: ActionId -> RawSchema
    ghost var dispatched: seq<Dispatch>

    ghost predicate Valid()
      reads this
    {
      forall d | d in dispatched :: Guarded(d)
    }

    constructor (defaults: ActionId -> RawSchema)
      ensures Valid() && dispatched == [] && store == map[] && this.defaults == defaults
    {
      this.defaults := defaults;
      store := map[];
      dispatched := [];
    }

    function Load(subject: Ref): RawInteraction
      reads this
    {
      if subject in store then store[subject] else NoInteraction
    }

    /** Any other writer may change what is stored about a subject between two commands. */
    method Publish(subject: Ref, source: RawInteraction)
      requires Valid()
      modifies this`store
      ensures Valid() && store == old(store)[subject := source]
    {
      store := store[subject := source];
    }

    /** One command; `next` is what the dispatcher leaves behind when it runs. */
    method InvokeCommand(raw: RawCommand, next: RawInteraction) returns (r: Result<Dispatch, HostError>)
      requires Valid()
      modifies this
      ensures Valid()
      ensures NormalizeCommand(raw).Err? ==> r.Err?
      ensures NormalizeCommand(raw).Ok? ==>
                r == Invoke(raw, old(Load(NormalizeCommand(raw).value.subject.current)), defaults)
      ensures r.Err? ==> store == old(store) && dispatched == old(dispatched)
      ensures r.Ok? ==> dispatched == old(dispatched) + [r.value]
                        && store == old(store)[r.value.interaction.subject.current := next]
    {
      var c :- NormalizeCommand(raw);
      var source := Load(c.subject.current);
      var i :- Inspect(c.subject, source, defaults);
      var checked :- Authorize(RawOfCommand(c), RawOfInteraction(i), defaults);
      var d := Dispatch(checked.0, checked.1, i);
      assert Invoke(raw, source, defaults) == Ok(d);
      DispatchIsGuarded(raw, source, defaults);
      store := store[i.subject.current := next];
      dispatched := dispatched + [d];
      return Ok(d);
    }
  }
}
