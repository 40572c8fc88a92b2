/**
 What publishing an input schema does, stated on the schema as it is written: which schemas are
 admitted, and how each keyword of the published one comes from it.
 */
module SchemaMeaning {
  import opened Wrappers
  import opened Text
  import opened Json
  import opened InteractionSchema
  import opened Places

  // ---------------------------------------------------------------- keywords

  /** The type a schema names, of which no name means an object. */
  ghost predicate TypeNamed(v: Json, k: Kind) {
    var t := TokenOf(v, 16);
    match k
    case Object => t == "" || t == "object"
    case String => t == "string"
    case Number => t == "number"
    case Integer => t == "integer"
    case Boolean => t == "boolean"
    case Array => t == "array"
  }

  lemma {:induction false} KindNamedMeans(t: string, kinds: seq<Kind>)
    ensures match KindNamed(t, kinds) { case Some(k) => t == KindText(k) && k in kinds
                                        case None => forall k | k in kinds :: t != KindText(k) }
    decreases |kinds|
  {
    if kinds != [] {
      KindNamedMeans(t, kinds[..|kinds| - 1]);
      assert kinds == kinds[..|kinds| - 1] + [kinds[|kinds| - 1]];
    }
  }

  lemma EveryKind(k: Kind)
    ensures k in KINDS && KindText(k) != ""
  {
    assert KINDS[0] == Object && KINDS[1] == String && KINDS[2] == Number;
    assert KINDS[3] == Integer && KINDS[4] == Boolean && KINDS[5] == Array;
  }

  lemma KindMeans(v: Json, k: Kind)
    ensures KindOf(v) == Some(k) <==> TypeNamed(v, k)
  {
    var t := TokenOf(v, 16);
    KindNamedMeans(t, KINDS);
    EveryKind(k);
    if KindOf(v).Some? && KindOf(v).value != k {
      KindTextsDiffer(k, KindOf(v).value);
    }
    assert TypeNamed(v, k) <==> t == KindText(k) || (k == Object && t == "");
  }

  /** A whole number, brought into the range; anything else is no bound. */
  ghost predicate BoundReads(v: Json, most: nat, b: Option<int>) {
    if !v.JInt? then b == None
    else
      && b.Some? && 0 <= b.value <= most
      && (0 <= v.n <= most ==> b.value == v.n) && (v.n < 0 ==> b.value == 0) && (v.n > most ==> b.value == most)
  }

  ghost predicate NumberReads(v: Json, b: Option<Json>) {
    b == if v.JInt? || v.JFloat? then Some(v) else None
  }

  /** The scalars among the first 24 values, in their order. */
  ghost predicate EnumReads(e: Option<seq<Json>>, values: Option<seq<Json>>) {
    if e.None? then values == None else values.Some? && exists at :: ScalarsAt(FirstOnes(e.value), values.value, at)
  }

  function FirstOnes<T>(s: seq<T>): seq<T> {
    if |s| <= 24 then s else s[..24]
  }

  predicate Plain(v: Json) {
    !v.JList? && !v.JObj?
  }

  ghost predicate ScalarsAt(items: seq<Json>, values: seq<Json>, at: seq<nat>) {
    Chosen(items, Plain, at) && At(items, at, values)
  }

  lemma {:induction false} ScalarsMean(items: seq<Json>) returns (at: seq<nat>)
    ensures ScalarsAt(items, Scalars(items), at)
    decreases |items|
  {
    at := [];
    if items != [] {
      var n := |items| - 1;
      at := ScalarsMean(items[..n]);
      OneMoreItem(items, Plain, at);
      OneMoreAt(items, at, Scalars(items[..n]));
      at := if IsScalar(items[n]) then at + [n] else at;
    }
  }

  lemma EnumMeans(e: Option<seq<Json>>)
    ensures EnumReads(e, EnumOf(e))
  {
    if e.Some? {
      assert InteractionSchema.Head(e.value, MAX_ITEMS) == FirstOnes(e.value);
      var at := ScalarsMean(FirstOnes(e.value));
    }
  }

  /** The names among the first 24 that are declared, each once. */
  ghost predicate RequiredReads(items: seq<Json>, names: seq<string>, required: seq<string>) {
    exists at :: RequiredAt(NamesIn(FirstOnes(items)), names, required, at)
  }

  function NamesIn(items: seq<Json>): (r: seq<string>)
    ensures |r| == |items| && forall i | 0 <= i < |r| :: r[i] == TokenOf(items[i], 64)
  {
    seq(|items|, i requires 0 <= i < |items| => TokenOf(items[i], 64))
  }

  ghost function Declared(names: seq<string>): string -> bool {
    k => k in names
  }

  ghost predicate RequiredAt(keys: seq<string>, names: seq<string>, required: seq<string>, at: seq<nat>) {
    Firsts(keys, Declared(names), at) && At(keys, at, required)
  }

  lemma OneMoreName(keys: seq<string>, names: seq<string>, init: seq<string>, at: seq<nat>)
    requires keys != [] && RequiredAt(keys[..|keys| - 1], names, init, at)
    ensures var n := |keys| - 1;
            if keys[n] in names && keys[n] !in init then RequiredAt(keys, names, init + [keys[n]], at + [n])
            else RequiredAt(keys, names, init, at)
  {
    var n := |keys| - 1;
    TakenIffThere(keys[..n], Declared(names), at, init, keys[n]);
    OneMoreKey(keys, Declared(names), at);
    OneMoreAt(keys, at, init);
    assert keys[n] in keys[..n] <==> !Places.First(keys, n);
  }

  lemma {:induction false} RequiredAre(items: seq<Json>, names: seq<string>) returns (at: seq<nat>)
    ensures RequiredAt(NamesIn(items), names, RequiredOf(items, names), at)
    decreases |items|
  {
    at := [];
    if items != [] {
      var n, keys := |items| - 1, NamesIn(items);
      var init := RequiredOf(items[..n], names);
      at := RequiredAre(items[..n], names);
      assert NamesIn(items[..n]) == keys[..n];
      OneMoreName(keys, names, init, at);
      at := if keys[n] in names && keys[n] !in init then at + [n] else at;
    }
  }

  lemma RequiredMeans(items: seq<Json>, names: seq<string>)
    ensures RequiredReads(items, names, RequiredOf(InteractionSchema.Head(items, MAX_ITEMS), names))
  {
    assert InteractionSchema.Head(items, MAX_ITEMS) == FirstOnes(items);
    var at := RequiredAre(FirstOnes(items), names);
  }

  // ---------------------------------------------------------------- properties

  function EntryNames(entries: seq<RawProperty>): (r: seq<string>)
    ensures |r| == |entries| && forall i | 0 <= i < |r| :: r[i] == Token(entries[i].name, 64)
  {
    seq(|entries|, i requires 0 <= i < |entries| => Token(entries[i].name, 64))
  }

  predicate Visible(name: string) {
    name != ""
  }

  /** The entry is published: it has a name that no entry before it has. */
  ghost predicate Published(entries: seq<RawProperty>, j: nat)
    requires j < |entries|
  {
    Visible(EntryNames(entries)[j]) && Places.First(EntryNames(entries), j)
  }

  /** The schema that is published is the one that is written, keyword by keyword. */
  ghost predicate SchemaReads(raw: RawSchema, s: Schema)
    decreases raw, 2
  {
    && raw.RawSchema?
    && match s
       case ObjectSchema(ps, required, additional) =>
         && TypeNamed(raw.kind, Object) && PropertiesRead(raw.properties, ps)
         && RequiredReads(raw.required, Names(ps), required)
         && (additional <==> raw.additional == JBool(true))
       case ArraySchema(items, lo, hi) =>
         && TypeNamed(raw.kind, Array) && ItemsRead(raw.items, items)
         && BoundReads(raw.minItems, 128, lo) && BoundReads(raw.maxItems, 128, hi)
       case ScalarSchema(kind, e, minLength, maxLength, minimum, maximum) =>
         && kind != Object && kind != Array && TypeNamed(raw.kind, kind) && EnumReads(raw.enumeration, e)
         && (if kind == String
             then BoundReads(raw.minLength, 10000, minLength) && BoundReads(raw.maxLength, 10000, maxLength)
             else minLength == None && maxLength == None)
         && (if kind == Number || kind == Integer
             then NumberReads(raw.minimum, minimum) && NumberReads(raw.maximum, maximum)
             else minimum == None && maximum == None)
  }

  ghost predicate ItemsRead(raw: RawItems, items: Schema)
    decreases raw, 0
  {
    match raw
    case DefaultItems => items == ScalarSchema(String, None, None, None, None, None)
    case ItemSchema(schema) => SchemaReads(schema, items)
  }

  ghost predicate PropertiesRead(raw: RawProperties, ps: seq<Property>)
    decreases raw, 0
  {
    if raw.Entries? then EntriesRead(FirstOnes(raw.entries), ps) else raw.NoProperties? && ps == []
  }

  ghost predicate EntriesRead(entries: seq<RawProperty>, ps: seq<Property>)
    decreases entries, 1
  {
    exists at :: EntriesReadAt(entries, ps, at)
  }

  /** One property for each published entry, in their order. */
  ghost predicate EntriesReadAt(entries: seq<RawProperty>, ps: seq<Property>, at: seq<nat>)
    decreases entries, 0
  {
    && Firsts(EntryNames(entries), Visible, at) && At(EntryNames(entries), at, Names(ps))
    && forall i | 0 <= i < |at| :: PropertyReads(entries[at[i]], ps[i])
  }

  ghost predicate PropertyReads(entry: RawProperty, p: Property)
    decreases entry, 3
  {
    && p.name == Token(entry.name, 64)
    && SchemaReads(entry.spec, p.spec) && EnumReads(entry.spec.enumeration, p.carried)
  }

  /** A schema is admitted when it names a known type and everything published below it is admitted, four levels deep. */
  ghost predicate Admits(raw: RawSchema, depth: nat)
    decreases raw, 2
  {
    && depth <= 4 && raw.RawSchema? && (exists k :: TypeNamed(raw.kind, k))
    && (TypeNamed(raw.kind, Object) ==> PropertiesAdmitted(raw.properties, depth))
    && (TypeNamed(raw.kind, Array) ==> ItemsAdmitted(raw.items, depth + 1))
  }

  ghost predicate ItemsAdmitted(raw: RawItems, depth: nat)
    decreases raw, 0
  {
    match raw
    case DefaultItems => depth <= 4
    case ItemSchema(schema) => Admits(schema, depth)
  }

  ghost predicate PropertiesAdmitted(raw: RawProperties, depth: nat)
    decreases raw, 0
  {
    !raw.NotAMapping? && (raw.Entries? ==> EntriesAdmitted(FirstOnes(raw.entries), depth))
  }

  ghost predicate EntriesAdmitted(entries: seq<RawProperty>, depth: nat)
    decreases entries, 0
  {
    forall j | 0 <= j < |entries| && Published(entries, j) :: Admits(entries[j].spec, depth + 1)
  }

  // ---------------------------------------------------------------- proofs, by the nesting of the schema

  lemma LastEntry(entries: seq<RawProperty>)
    requires entries != []
    ensures EntryNames(entries[..|entries| - 1]) == EntryNames(entries)[..|entries| - 1]
    ensures forall j | 0 <= j < |entries| - 1 :: Published(entries[..|entries| - 1], j) <==> Published(entries, j)
  {
    var n := |entries| - 1;
    var keys := EntryNames(entries);
    assert EntryNames(entries[..n]) == keys[..n];
    forall j | 0 <= j < n
      ensures Places.First(keys[..n], j) <==> Places.First(keys, j)
    {
    }
  }

  /** One more entry is admitted with the others unless it is published and its schema is not. */
  lemma AdmittedLast(entries: seq<RawProperty>, depth: nat)
    requires entries != []
    ensures var n := |entries| - 1;
            EntriesAdmitted(entries, depth) <==>
            EntriesAdmitted(entries[..n], depth) && (Published(entries, n) ==> Admits(entries[n].spec, depth + 1))
  {
    var n := |entries| - 1;
    LastEntry(entries);
    assert forall j | 0 <= j < n :: entries[..n][j] == entries[j];
  }

  /** The last entry is published exactly when its name is not listed yet. */
  lemma PublishedLast(entries: seq<RawProperty>, ps: seq<Property>, at: seq<nat>)
    requires entries != [] && EntriesReadAt(entries[..|entries| - 1], ps, at)
    ensures var n := |entries| - 1;
            Published(entries, n) <==> Token(entries[n].name, 64) != "" && Token(entries[n].name, 64) !in Names(ps)
  {
    var n := |entries| - 1;
    var keys := EntryNames(entries);
    LastEntry(entries);
    TakenIffThere(keys[..n], Visible, at, Names(ps), keys[n]);
    assert keys[n] in keys[..n] <==> !Places.First(keys, n);
  }

  lemma UnpublishedLast(entries: seq<RawProperty>, ps: seq<Property>, at: seq<nat>)
    requires entries != [] && EntriesReadAt(entries[..|entries| - 1], ps, at) && !Published(entries, |entries| - 1)
    ensures EntriesReadAt(entries, ps, at)
  {
    var n, keys := |entries| - 1, EntryNames(entries);
    LastEntry(entries);
    OneMoreKey(keys, Visible, at);
    OneMoreAt(keys, at, Names(ps));
    SameEntries(entries, at, ps);
  }

  lemma SameEntries(entries: seq<RawProperty>, at: seq<nat>, ps: seq<Property>)
    requires entries != [] && EntriesReadAt(entries[..|entries| - 1], ps, at)
    ensures forall i | 0 <= i < |at| :: at[i] < |entries| - 1 && PropertyReads(entries[at[i]], ps[i])
  {
    assert forall i | 0 <= i < |at| :: entries[..|entries| - 1][at[i]] == entries[at[i]];
  }

  lemma NamesMore(ps: seq<Property>, p: Property)
    ensures Names(ps + [p]) == Names(ps) + [p.name]
  {
  }

  lemma ReadLast(entries: seq<RawProperty>, ps: seq<Property>, at: seq<nat>, p: Property)
    requires entries != [] && EntriesReadAt(entries[..|entries| - 1], ps, at)
    requires Published(entries, |entries| - 1) && PropertyReads(entries[|entries| - 1], p)
    ensures EntriesReadAt(entries, ps + [p], at + [|entries| - 1])
  {
    var n, keys := |entries| - 1, EntryNames(entries);
    LastEntry(entries);
    OneMoreKey(keys, Visible, at);
    OneMoreAt(keys, at, Names(ps));
    NamesMore(ps, p);
    SameEntries(entries, at, ps);
  }

  lemma {:induction false} EntriesMean(entries: seq<RawProperty>, depth: nat) returns (at: seq<nat>)
    ensures NormalizeProperties(entries, depth).Ok? <==> EntriesAdmitted(entries, depth)
    ensures NormalizeProperties(entries, depth).Ok? ==>
              EntriesReadAt(entries, NormalizeProperties(entries, depth).value, at)
    decreases entries, 3
  {
    at := [];
    if entries != [] {
      var n := |entries| - 1;
      at := EntriesMean(entries[..n], depth);
      AdmittedLast(entries, depth);
      if NormalizeProperties(entries[..n], depth).Ok? {
        var ps := NormalizeProperties(entries[..n], depth).value;
        PublishedLast(entries, ps, at);
        PropertyMeans(entries[n], depth);
        if !Published(entries, n) {
          UnpublishedLast(entries, ps, at);
        } else if PropertyOf(entries[n], depth).Ok? {
          ReadLast(entries, ps, at, PropertyOf(entries[n], depth).value);
          at := at + [n];
        }
      }
    }
  }

  lemma PropertyMeans(entry: RawProperty, depth: nat)
    ensures PropertyOf(entry, depth).Ok? <==> Admits(entry.spec, depth + 1)
    ensures PropertyOf(entry, depth).Ok? ==> PropertyReads(entry, PropertyOf(entry, depth).value)
    decreases entry, 3
  {
    PublishMeans(entry.spec, depth + 1);
    if PropertyOf(entry, depth).Ok? {
      EnumMeans(entry.spec.enumeration);
    }
  }

  lemma ItemsMean(raw: RawItems, depth: nat)
    ensures NormalizeItems(raw, depth).Ok? <==> ItemsAdmitted(raw, depth)
    ensures NormalizeItems(raw, depth).Ok? ==> ItemsRead(raw, NormalizeItems(raw, depth).value)
    decreases raw, 3
  {
    if raw.ItemSchema? {
      PublishMeans(raw.schema, depth);
    }
  }

  lemma PropertiesMean(raw: RawProperties, depth: nat)
    ensures !raw.NotAMapping? && PropertiesOf(raw, depth).Ok? <==> PropertiesAdmitted(raw, depth)
    ensures !raw.NotAMapping? && PropertiesOf(raw, depth).Ok? ==> PropertiesRead(raw, PropertiesOf(raw, depth).value)
    decreases raw, 4
  {
    if raw.Entries? {
      assert InteractionSchema.Head(raw.entries, MAX_ITEMS) == FirstOnes(raw.entries);
      var at := EntriesMean(FirstOnes(raw.entries), depth);
    }
  }

  lemma ObjectMeans(raw: RawSchema, depth: nat)
    requires raw.RawSchema? && TypeNamed(raw.kind, Object)
    ensures ObjectOf(raw, depth).Ok? <==> PropertiesAdmitted(raw.properties, depth)
    ensures ObjectOf(raw, depth).Ok? ==> SchemaReads(raw, ObjectOf(raw, depth).value)
    decreases raw, 0
  {
    PropertiesMean(raw.properties, depth);
    if ObjectOf(raw, depth).Ok? {
      RequiredMeans(raw.required, Names(ObjectOf(raw, depth).value.properties));
    }
  }

  lemma ScalarReads(raw: RawSchema, k: Kind)
    requires raw.RawSchema? && TypeNamed(raw.kind, k) && k != Object && k != Array
    ensures SchemaReads(raw, ScalarOf(raw, k))
  {
    EnumMeans(raw.enumeration);
  }

  lemma TypesMean(v: Json)
    ensures KindOf(v).Some? <==> exists k :: TypeNamed(v, k)
    ensures forall k :: TypeNamed(v, k) <==> KindOf(v) == Some(k)
  {
    forall k
      ensures TypeNamed(v, k) <==> KindOf(v) == Some(k)
    {
      KindMeans(v, k);
    }
    if KindOf(v).Some? {
      assert TypeNamed(v, KindOf(v).value);
    }
  }

  lemma AdmitsByKind(raw: RawSchema, depth: nat)
    requires depth <= 4 && raw.RawSchema?
    ensures Admits(raw, depth) <==>
            match KindOf(raw.kind) { case None => false
                                     case Some(Object) => PropertiesAdmitted(raw.properties, depth)
                                     case Some(Array) => ItemsAdmitted(raw.items, depth + 1)
                                     case Some(_) => true }
  {
    TypesMean(raw.kind);
  }

  lemma ArrayMeans(raw: RawSchema, depth: nat)
    requires raw.RawSchema? && TypeNamed(raw.kind, Array)
    ensures ArrayOf(raw, depth).Ok? <==> ItemsAdmitted(raw.items, depth + 1)
    ensures ArrayOf(raw, depth).Ok? ==> SchemaReads(raw, ArrayOf(raw, depth).value)
    decreases raw, 0
  {
    ItemsMean(raw.items, depth + 1);
  }

  /**
   A schema is published exactly when it is admitted, and the published one then says what is
   written, keyword by keyword and level by level.
   */
  lemma {:induction false} PublishMeans(raw: RawSchema, depth: nat)
    ensures Normalize(raw, depth).Ok? <==> Admits(raw, depth)
    ensures Normalize(raw, depth).Ok? ==> SchemaReads(raw, Normalize(raw, depth).value)
    decreases raw, 2
  {
    if depth <= 4 && raw.RawSchema? {
      AdmitsByKind(raw, depth);
      var kind := KindOf(raw.kind);
      if kind.Some? {
        KindMeans(raw.kind, kind.value);
        match kind.value
        case Object => ObjectMeans(raw, depth);
        case Array => ArrayMeans(raw, depth);
        case k => ScalarReads(raw, k);
      }
    }
  }
}
