/**
 Action input schemas: a bounded subset of JSON Schema is normalised once when an action is
 published and again at every level of every validation. The main result is that this equals
 checking against the schema the client was shown.
 */
module InteractionSchema {
  import opened Wrappers
  import opened Text
  import opened Json

  const MAX_ITEMS := 24
  const MAX_SCHEMA_DEPTH := 4
  const MAX_ARRAY := 128
  const MAX_TEXT := 10000

  datatype SchemaError = SchemaInvalid | InputInvalid | InputRequired | AdditionalProperty | OutsideEnum

  datatype Kind = Object | String | Number | Integer | Boolean | Array

  /** What the normaliser finds in a schema it is given; absent keys read as null. */
  datatype RawSchema = NotASchema | RawSchema(
    kind: Json, properties: RawProperties, required: seq<Json>, additional: Json, items: RawItems,
    enumeration: Option<seq<Json>>, minItems: Json, maxItems: Json, minLength: Json, maxLength: Json,
    minimum: Json, maximum: Json)

  /** Falsy, not a mapping, or the mapping's entries in order. */
  datatype RawProperties = NoProperties | NotAMapping | Entries(entries: seq<RawProperty>)

  datatype RawProperty = RawProperty(name: string, spec: RawSchema)

  datatype RawItems = DefaultItems | ItemSchema(schema: RawSchema)

  datatype Schema =
    | ObjectSchema(properties: seq<Property>, required: seq<string>, additional: bool)
    | ArraySchema(items: Schema, minItems: Option<int>, maxItems: Option<int>)
    | ScalarSchema(kind: Kind, enumeration: Option<seq<Json>>, minLength: Option<int>, maxLength: Option<int>,
                   minimum: Option<Json>, maximum: Option<Json>)

  /** `carried` is the enum written beside a property, whatever the property's type. */
  datatype Property = Property(name: string, spec: Schema, carried: Option<seq<Json>>)

  // ---------------------------------------------------------------- normalisation

  function Head<T>(s: seq<T>, n: nat): (r: seq<T>)
    ensures |r| <= n && r <= s
    ensures |s| <= n ==> r == s
  {
    if |s| <= n then s else s[..n]
  }

  function TokenOf(v: Json, limit: nat): string {
    Token(TextOf(v), limit)
  }

  function KindText(k: Kind): string {
    match k
    case Object => "object"
    case String => "string"
    case Number => "number"
    case Integer => "integer"
    case Boolean => "boolean"
    case Array => "array"
  }

  const KINDS := [Object, String, Number, Integer, Boolean, Array]

  function KindNamed(t: string, kinds: seq<Kind>): Option<Kind> {
    if kinds == [] then None
    else if t == KindText(kinds[|kinds| - 1]) then Some(kinds[|kinds| - 1])
    else KindNamed(t, kinds[..|kinds| - 1])
  }

  /** The type a schema names; no name means an object. */
  function KindOf(v: Json): Option<Kind> {
    var t := TokenOf(v, 16);
    if t == "" then Some(Object) else KindNamed(t, KINDS)
  }

  predicate IsScalar(v: Json) {
    !v.JList? && !v.JObj?
  }

  function Scalars(items: seq<Json>): (r: seq<Json>)
    ensures |r| <= |items|
    ensures forall v | v in r :: IsScalar(v)
  {
    if items == [] then []
    else if IsScalar(items[|items| - 1]) then Scalars(items[..|items| - 1]) + [items[|items| - 1]]
    else Scalars(items[..|items| - 1])
  }

  function EnumOf(e: Option<seq<Json>>): Option<seq<Json>> {
    if e.None? then None else Some(Scalars(Head(e.value, MAX_ITEMS)))
  }

  function BoundOf(v: Json, maximum: nat): Option<int> {
    match v
    case JInt(n) => Some(if n < 0 then 0 else if n > maximum then maximum else n)
    case _ => None
  }

  function NumberOf(v: Json): Option<Json> {
    if v.JInt? || v.JFloat? then Some(v) else None
  }

  function Names(ps: seq<Property>): (r: seq<string>)
    ensures |r| == |ps| && forall i | 0 <= i < |ps| :: r[i] == ps[i].name
  {
    seq(|ps|, i requires 0 <= i < |ps| => ps[i].name)
  }

  function RequiredOf(items: seq<Json>, names: seq<string>): (r: seq<string>)
    ensures |r| <= |items| && forall n | n in r :: n in names
  {
    if items == [] then []
    else
      var init, name := RequiredOf(items[..|items| - 1], names), TokenOf(items[|items| - 1], 64);
      if name in names && name !in init then init + [name] else init
  }

  function Normalize(raw: RawSchema, depth: nat): Result<Schema, SchemaError>
    decreases raw, 1
  {
    if depth > MAX_SCHEMA_DEPTH || raw.NotASchema? then Err(SchemaInvalid)
    else
      match KindOf(raw.kind)
      case None => Err(SchemaInvalid)
      case Some(Object) => ObjectOf(raw, depth)
      case Some(Array) => ArrayOf(raw, depth)
      case Some(k) => Ok(ScalarOf(raw, k))
  }

  function ObjectOf(raw: RawSchema, depth: nat): Result<Schema, SchemaError>
    requires raw.RawSchema?
    decreases raw, 0
  {
    if raw.properties.NotAMapping? then Err(SchemaInvalid)
    else
      var ps :- PropertiesOf(raw.properties, depth);
      Ok(ObjectSchema(ps, RequiredOf(Head(raw.required, MAX_ITEMS), Names(ps)), raw.additional == JBool(true)))
  }

  function PropertiesOf(raw: RawProperties, depth: nat): Result<seq<Property>, SchemaError>
    decreases raw, 0
  {
    if raw.Entries? then NormalizeProperties(Head(raw.entries, MAX_ITEMS), depth) else Ok([])
  }

  function ArrayOf(raw: RawSchema, depth: nat): Result<Schema, SchemaError>
    requires raw.RawSchema?
    decreases raw, 0
  {
    var items :- NormalizeItems(raw.items, depth + 1);
    Ok(ArraySchema(items, BoundOf(raw.minItems, MAX_ARRAY), BoundOf(raw.maxItems, MAX_ARRAY)))
  }

  function ScalarOf(raw: RawSchema, k: Kind): Schema
    requires raw.RawSchema?
  {
    var text, number := k == String, k == Number || k == Integer;
    ScalarSchema(
      k, EnumOf(raw.enumeration),
      if text then BoundOf(raw.minLength, MAX_TEXT) else None,
      if text then BoundOf(raw.maxLength, MAX_TEXT) else None,
      if number then NumberOf(raw.minimum) else None,
      if number then NumberOf(raw.maximum) else None)
  }

  const PLAIN_STRING := ScalarSchema(String, None, None, None, None, None)

  /** An array that names no items has `{"type": "string"}`. */
  function NormalizeItems(items: RawItems, depth: nat): Result<Schema, SchemaError>
    decreases items, 0
  {
    match items
    case DefaultItems => if depth > MAX_SCHEMA_DEPTH then Err(SchemaInvalid) else Ok(PLAIN_STRING)
    case ItemSchema(schema) => Normalize(schema, depth)
  }

  /** One property for each distinct name, in order. */
  function NormalizeProperties(entries: seq<RawProperty>, depth: nat): Result<seq<Property>, SchemaError>
    decreases entries, 0
  {
    if entries == [] then Ok([])
    else
      var last := entries[|entries| - 1];
      var init :- NormalizeProperties(entries[..|entries| - 1], depth);
      var name := Token(last.name, 64);
      if name == "" || name in Names(init) then Ok(init)
      else
        var p :- PropertyOf(last, depth);
        Ok(init + [p])
  }

  function PropertyOf(raw: RawProperty, depth: nat): Result<Property, SchemaError>
    decreases raw, 2
  {
    var spec :- Normalize(raw.spec, depth + 1);
    Ok(Property(Token(raw.name, 64), spec, EnumOf(raw.spec.enumeration)))
  }

  // ---------------------------------------------------------------- the normaliser's loops

  lemma {:induction false} FirstFailure(entries: seq<RawProperty>, n: nat, depth: nat)
    requires n <= |entries| && NormalizeProperties(entries[..n], depth).Err?
    ensures NormalizeProperties(entries, depth) == NormalizeProperties(entries[..n], depth)
    decreases |entries|
  {
    if n < |entries| {
      assert entries[..|entries| - 1][..n] == entries[..n];
      FirstFailure(entries[..|entries| - 1], n, depth);
    } else {
      assert entries[..n] == entries;
    }
  }

  method CollectRequired(items: seq<Json>, names: seq<string>) returns (required: seq<string>)
    ensures required == RequiredOf(items, names)
  {
    required := [];
    for i := 0 to |items|
      invariant required == RequiredOf(items[..i], names)
    {
      assert items[..i + 1][..i] == items[..i];
      var name := TokenOf(items[i], 64);
      if name in names && name !in required {
        required := required + [name];
      }
    }
    assert items[..|items|] == items;
  }

  method NormalizeProperty(raw: RawProperty, depth: nat) returns (r: Result<Property, SchemaError>)
    ensures r == PropertyOf(raw, depth)
    decreases raw, 2
  {
    var spec :- NormalizeSchema(raw.spec, depth + 1);
    return Ok(Property(Token(raw.name, 64), spec, EnumOf(raw.spec.enumeration)));
  }

  method CollectProperties(entries: seq<RawProperty>, depth: nat) returns (r: Result<seq<Property>, SchemaError>)
    ensures r == NormalizeProperties(entries, depth)
    decreases entries, 2
  {
    var properties := [];
    for i := 0 to |entries|
      invariant NormalizeProperties(entries[..i], depth) == Ok(properties)
    {
      assert entries[..i + 1][..i] == entries[..i];
      var name := Token(entries[i].name, 64);
      if name != "" && name !in Names(properties) {
        var property := NormalizeProperty(entries[i], depth);
        if property.Err? {
          FirstFailure(entries, i + 1, depth);
          return Err(property.error);
        }
        properties := properties + [property.value];
      }
    }
    assert entries[..|entries|] == entries;
    return Ok(properties);
  }

  method NormalizeObject(raw: RawSchema, depth: nat) returns (r: Result<Schema, SchemaError>)
    requires raw.RawSchema?
    ensures r == ObjectOf(raw, depth)
    decreases raw, 0
  {
    if raw.properties.NotAMapping? {
      return Err(SchemaInvalid);
    }
    var properties := [];
    if raw.properties.Entries? {
      properties :- CollectProperties(Head(raw.properties.entries, MAX_ITEMS), depth);
    }
    var required := CollectRequired(Head(raw.required, MAX_ITEMS), Names(properties));
    return Ok(ObjectSchema(properties, required, raw.additional == JBool(true)));
  }

  method NormalizeArrayItems(items: RawItems, depth: nat) returns (r: Result<Schema, SchemaError>)
    ensures r == NormalizeItems(items, depth)
    decreases items, 2
  {
    match items {
      case DefaultItems => r := if depth > MAX_SCHEMA_DEPTH then Err(SchemaInvalid) else Ok(PLAIN_STRING);
      case ItemSchema(schema) => r := NormalizeSchema(schema, depth);
    }
  }

  method NormalizeArray(raw: RawSchema, depth: nat) returns (r: Result<Schema, SchemaError>)
    requires raw.RawSchema?
    ensures r == ArrayOf(raw, depth)
    decreases raw, 0
  {
    var items :- NormalizeArrayItems(raw.items, depth + 1);
    return Ok(ArraySchema(items, BoundOf(raw.minItems, MAX_ARRAY), BoundOf(raw.maxItems, MAX_ARRAY)));
  }

  method NormalizeSchema(raw: RawSchema, depth: nat) returns (r: Result<Schema, SchemaError>)
    ensures r == Normalize(raw, depth)
    decreases raw, 1
  {
    if depth > MAX_SCHEMA_DEPTH || raw.NotASchema? {
      return Err(SchemaInvalid);
    }
    var kind := KindOf(raw.kind);
    match kind {
      case None => return Err(SchemaInvalid);
      case Some(Object) => r := NormalizeObject(raw, depth);
      case Some(Array) => r := NormalizeArray(raw, depth);
      case Some(k) => return Ok(ScalarOf(raw, k));
    }
  }

  // ---------------------------------------------------------------- what normalisation yields

  ghost predicate NoRepeats(s: seq<string>) {
    forall i, j | 0 <= i < j < |s| :: s[i] != s[j]
  }

  ghost predicate EnumOk(e: Option<seq<Json>>) {
    e.Some? ==> |e.value| <= MAX_ITEMS && forall v | v in e.value :: IsScalar(v)
  }

  ghost predicate BoundOk(b: Option<int>, maximum: nat) {
    b.Some? ==> 0 <= b.value <= maximum
  }

  ghost predicate ScalarOk(s: Schema)
    requires s.ScalarSchema?
  {
    && s.kind != Object && s.kind != Array && EnumOk(s.enumeration)
    && BoundOk(s.minLength, MAX_TEXT) && BoundOk(s.maxLength, MAX_TEXT)
    && (s.kind != String ==> s.minLength.None? && s.maxLength.None?)
    && (s.kind != Number && s.kind != Integer ==> s.minimum.None? && s.maximum.None?)
    && (s.minimum.Some? ==> NumberOf(s.minimum.value).Some?) && (s.maximum.Some? ==> NumberOf(s.maximum.value).Some?)
  }

  /** The bounded shape of a normalised schema with at most `room` levels below it. */
  ghost predicate Shaped(s: Schema, room: int)
    decreases s
  {
    match s
    case ObjectSchema(ps, required, _) =>
      && |ps| <= MAX_ITEMS && NoRepeats(Names(ps)) && |required| <= MAX_ITEMS && NoRepeats(required)
      && (forall n | n in required :: n in Names(ps))
      && forall p | p in ps :: room > 0 && PropertyOk(p) && Shaped(p.spec, room - 1)
    case ArraySchema(items, lo, hi) =>
      room > 0 && BoundOk(lo, MAX_ARRAY) && BoundOk(hi, MAX_ARRAY) && Shaped(items, room - 1)
    case ScalarSchema(_, _, _, _, _, _) => ScalarOk(s)
  }

  ghost predicate PropertyOk(p: Property) {
    1 <= |p.name| <= 64 && EnumOk(p.carried) && (p.spec.ScalarSchema? ==> p.carried == p.spec.enumeration)
  }

  lemma {:induction false} RequiredFacts(items: seq<Json>, names: seq<string>)
    ensures NoRepeats(RequiredOf(items, names))
    decreases |items|
  {
    if items != [] {
      RequiredFacts(items[..|items| - 1], names);
      var init := RequiredOf(items[..|items| - 1], names);
      assert forall i | 0 <= i < |init| :: init[i] in init;
    }
  }

  lemma EnumFacts(e: Option<seq<Json>>)
    ensures EnumOk(EnumOf(e))
  {
  }

  lemma ScalarIsShaped(raw: RawSchema, k: Kind, room: int)
    requires raw.RawSchema? && k != Object && k != Array
    ensures Shaped(ScalarOf(raw, k), room)
  {
    EnumFacts(raw.enumeration);
  }

  lemma ObjectIsShaped(raw: RawSchema, depth: nat)
    requires depth <= MAX_SCHEMA_DEPTH && raw.RawSchema? && ObjectOf(raw, depth).Ok?
    ensures Shaped(ObjectOf(raw, depth).value, MAX_SCHEMA_DEPTH - depth)
    decreases raw, 0
  {
    RequiredFacts(Head(raw.required, MAX_ITEMS), Names(ObjectOf(raw, depth).value.properties));
    if raw.properties.Entries? {
      PropertiesAreShaped(Head(raw.properties.entries, MAX_ITEMS), depth);
    }
  }

  lemma ArrayIsShaped(raw: RawSchema, depth: nat)
    requires depth <= MAX_SCHEMA_DEPTH && raw.RawSchema? && ArrayOf(raw, depth).Ok?
    ensures Shaped(ArrayOf(raw, depth).value, MAX_SCHEMA_DEPTH - depth)
    decreases raw, 0
  {
    ItemsAreShaped(raw.items, depth + 1);
  }

  lemma ItemsAreShaped(raw: RawItems, depth: nat)
    requires NormalizeItems(raw, depth).Ok?
    ensures depth <= MAX_SCHEMA_DEPTH && Shaped(NormalizeItems(raw, depth).value, MAX_SCHEMA_DEPTH - depth)
    decreases raw, 2
  {
    if raw.ItemSchema? {
      NormalizeIsShaped(raw.schema, depth);
    }
  }

  /** Everything the normaliser accepts has the bounded shape, with the depth it was given left over. */
  lemma {:induction false} NormalizeIsShaped(raw: RawSchema, depth: nat)
    requires Normalize(raw, depth).Ok?
    ensures Shaped(Normalize(raw, depth).value, MAX_SCHEMA_DEPTH - depth)
    decreases raw, 1
  {
    match KindOf(raw.kind).value
    case Object => ObjectIsShaped(raw, depth);
    case Array => ArrayIsShaped(raw, depth);
    case k => ScalarIsShaped(raw, k, MAX_SCHEMA_DEPTH - depth);
  }

  lemma AppendName(init: seq<Property>, p: Property)
    requires NoRepeats(Names(init)) && p.name !in Names(init)
    ensures NoRepeats(Names(init + [p]))
  {
    assert Names(init + [p]) == Names(init) + [p.name];
    assert forall i | 0 <= i < |init| :: Names(init)[i] in Names(init);
  }

  lemma {:induction false} PropertiesAreShaped(entries: seq<RawProperty>, depth: nat)
    requires NormalizeProperties(entries, depth).Ok? && depth <= MAX_SCHEMA_DEPTH
    ensures var ps := NormalizeProperties(entries, depth).value;
            && |ps| <= |entries| && NoRepeats(Names(ps))
            && forall p | p in ps :: depth < MAX_SCHEMA_DEPTH && PropertyOk(p) && Shaped(p.spec, MAX_SCHEMA_DEPTH - depth - 1)
    decreases entries, 2
  {
    if entries != [] {
      var last := entries[|entries| - 1];
      PropertiesAreShaped(entries[..|entries| - 1], depth);
      var init := NormalizeProperties(entries[..|entries| - 1], depth).value;
      var name := Token(last.name, 64);
      if name != "" && name !in Names(init) {
        PropertyIsShaped(last, depth);
        AppendName(init, PropertyOf(last, depth).value);
      }
    }
  }

  lemma PropertyIsShaped(raw: RawProperty, depth: nat)
    requires PropertyOf(raw, depth).Ok? && Token(raw.name, 64) != ""
    ensures depth < MAX_SCHEMA_DEPTH
    ensures var p := PropertyOf(raw, depth).value; PropertyOk(p) && Shaped(p.spec, MAX_SCHEMA_DEPTH - depth - 1)
    decreases raw, 1
  {
    TokenAgain(raw.name, 64);
    NormalizeIsShaped(raw.spec, depth + 1);
    EnumFacts(raw.spec.enumeration);
  }

  // ---------------------------------------------------------------- a normalised schema as input

  function Nullable(n: Option<int>): Json {
    if n.Some? then JInt(n.value) else JNull
  }

  function NullableNumber(n: Option<Json>): Json {
    if n.Some? then n.value else JNull
  }

  function Texts(names: seq<string>): (r: seq<Json>)
    ensures |r| == |names| && forall i | 0 <= i < |r| :: r[i] == JStr(names[i])
  {
    seq(|names|, i requires 0 <= i < |names| => JStr(names[i]))
  }

  function RawOf(s: Schema): (r: RawSchema)
    ensures r.RawSchema?
  {
    match s
    case ObjectSchema(ps, required, additional) =>
      RawSchema(JStr(KindText(Object)), if ps == [] then NoProperties else Entries(RawEntries(ps)), Texts(required),
                JBool(additional), DefaultItems, None, JNull, JNull, JNull, JNull, JNull, JNull)
    case ArraySchema(items, lo, hi) =>
      RawSchema(JStr(KindText(Array)), NoProperties, [], JNull, ItemSchema(RawOf(items)), None,
                Nullable(lo), Nullable(hi), JNull, JNull, JNull, JNull)
    case ScalarSchema(k, e, minLength, maxLength, minimum, maximum) =>
      RawSchema(JStr(KindText(k)), NoProperties, [], JNull, DefaultItems, e, JNull, JNull, Nullable(minLength),
                Nullable(maxLength), NullableNumber(minimum), NullableNumber(maximum))
  }

  function RawEntries(ps: seq<Property>): (r: seq<RawProperty>)
    ensures |r| == |ps|
  {
    if ps == [] then []
    else RawEntries(ps[..|ps| - 1]) + [RawProperty(ps[|ps| - 1].name, RawOfProperty(ps[|ps| - 1]))]
  }

  function WithEnum(raw: RawSchema, e: Option<seq<Json>>): RawSchema {
    match raw
    case NotASchema => raw
    case RawSchema(_, _, _, _, _, _, _, _, _, _, _, _) => raw.(enumeration := e)
  }

  /** A property's schema as it is written: the carried enum sits beside it. */
  function RawOfProperty(p: Property): RawSchema {
    WithEnum(RawOf(p.spec), p.carried)
  }

  // ---------------------------------------------------------------- normalising again

  /** No property name, at any depth, ends in the blanks that a cut can leave behind. */
  ghost predicate NamesStable(s: Schema) {
    match s
    case ObjectSchema(ps, _, _) => forall p | p in ps :: TokenStable(p.name, 64) && NamesStable(p.spec)
    case ArraySchema(items, _, _) => NamesStable(items)
    case ScalarSchema(_, _, _, _, _, _) => true
  }

  predicate IsLowerWord(s: string) {
    1 <= |s| <= 16 && forall i | 0 <= i < |s| :: s[i] >= 'a' && !IsSpace(s[i])
  }

  lemma KindTextIsWord(k: Kind)
    ensures IsLowerWord(KindText(k))
  {
  }

  lemma WordIsToken(t: string)
    requires IsLowerWord(t)
    ensures TokenOf(JStr(t), 16) == t
  {
    assert NulToSpace(t) == t;
    BoundedFixpoint(t, 16);
  }

  lemma {:induction false} KindNamedFix(k: Kind, kinds: seq<Kind>)
    requires k in kinds
    ensures KindNamed(KindText(k), kinds) == Some(k)
    decreases |kinds|
  {
    var last := kinds[|kinds| - 1];
    if last != k {
      KindTextsDiffer(k, last);
      KindNamedFix(k, kinds[..|kinds| - 1]);
    }
  }

  lemma KindTextsDiffer(k: Kind, l: Kind)
    requires k != l
    ensures KindText(k) != KindText(l)
  {
    var a, b := KindText(k), KindText(l);
    assert |a| != |b| || a[0] != b[0];
  }

  lemma KindFix(k: Kind)
    ensures KindOf(JStr(KindText(k))) == Some(k)
  {
    KindTextIsWord(k);
    WordIsToken(KindText(k));
    assert k in KINDS by {
      assert KINDS[0] == Object && KINDS[1] == String && KINDS[2] == Number;
      assert KINDS[3] == Integer && KINDS[4] == Boolean && KINDS[5] == Array;
    }
    KindNamedFix(k, KINDS);
  }

  lemma {:induction false} ScalarsFix(items: seq<Json>)
    requires forall v | v in items :: IsScalar(v)
    ensures Scalars(items) == items
    decreases |items|
  {
    if items != [] {
      ScalarsFix(items[..|items| - 1]);
      assert items[|items| - 1] in items;
    }
  }

  lemma EnumFix(e: Option<seq<Json>>)
    requires EnumOk(e)
    ensures EnumOf(e) == e
  {
    if e.Some? {
      ScalarsFix(e.value);
    }
  }

  lemma OneMoreRequired(init: seq<string>, last: string, names: seq<string>)
    requires RequiredOf(Texts(init), names) == init
    requires last in names && last !in init && TokenOf(JStr(last), 64) == last
    ensures RequiredOf(Texts(init + [last]), names) == init + [last]
  {
    var texts := Texts(init + [last]);
    assert texts[..|texts| - 1] == Texts(init);
  }

  lemma TokenOfText(s: string)
    requires TokenStable(s, 64)
    ensures TokenOf(JStr(s), 64) == s
  {
  }

  lemma {:induction false} RequiredFix(required: seq<string>, names: seq<string>)
    requires NoRepeats(required) && forall n | n in required :: n in names && TokenOf(JStr(n), 64) == n
    ensures RequiredOf(Texts(required), names) == required
    decreases |required|
  {
    if required == [] {
      assert Texts(required) == [];
    } else {
      var init, last := required[..|required| - 1], required[|required| - 1];
      RequiredFix(init, names);
      assert last in required && required == init + [last];
      OneMoreRequired(init, last, names);
    }
  }

  lemma ScalarFix(s: Schema)
    requires s.ScalarSchema? && ScalarOk(s)
    ensures ScalarOf(RawOf(s), s.kind) == s
  {
    EnumFix(s.enumeration);
  }

  lemma RequiredStays(s: Schema)
    requires s.ObjectSchema? && NamesStable(s)
    requires NoRepeats(s.required) && forall n | n in s.required :: n in Names(s.properties)
    ensures RequiredOf(Texts(s.required), Names(s.properties)) == s.required
  {
    forall n | n in s.required
      ensures TokenOf(JStr(n), 64) == n
    {
      var i :| 0 <= i < |s.properties| && Names(s.properties)[i] == n;
      assert s.properties[i] in s.properties;
      TokenOfText(n);
    }
    RequiredFix(s.required, Names(s.properties));
  }

  lemma ObjectFix(s: Schema, depth: nat, e: Option<seq<Json>>)
    requires s.ObjectSchema? && depth <= MAX_SCHEMA_DEPTH && Shaped(s, MAX_SCHEMA_DEPTH - depth) && NamesStable(s)
    ensures ObjectOf(WithEnum(RawOf(s), e), depth) == Ok(s)
    decreases s, 0
  {
    PropertiesFix(s.properties, depth);
    RequiredStays(s);
  }

  lemma WithOwnEnum(s: Schema)
    ensures WithEnum(RawOf(s), RawOf(s).enumeration) == RawOf(s)
    ensures s.ScalarSchema? ==> RawOf(s).enumeration == s.enumeration
  {
  }

  lemma ArrayFix(s: Schema, depth: nat, e: Option<seq<Json>>)
    requires s.ArraySchema? && depth <= MAX_SCHEMA_DEPTH && Shaped(s, MAX_SCHEMA_DEPTH - depth) && NamesStable(s)
    ensures ArrayOf(WithEnum(RawOf(s), e), depth) == Ok(s)
    decreases s, 0
  {
    WithOwnEnum(s.items);
    Renormalize(s.items, depth + 1, RawOf(s.items).enumeration);
  }

  function KindOfSchema(s: Schema): Kind {
    match s
    case ObjectSchema(_, _, _) => Object
    case ArraySchema(_, _, _) => Array
    case ScalarSchema(k, _, _, _, _, _) => k
  }

  /** A schema written out names its own type. */
  lemma KindAsWritten(s: Schema, e: Option<seq<Json>>)
    ensures WithEnum(RawOf(s), e).RawSchema? && KindOf(WithEnum(RawOf(s), e).kind) == Some(KindOfSchema(s))
  {
    KindFix(KindOfSchema(s));
  }

  /** A schema of the bounded shape with stable names is normalised to itself. */
  lemma {:induction false} Renormalize(s: Schema, depth: nat, e: Option<seq<Json>>)
    requires depth <= MAX_SCHEMA_DEPTH && Shaped(s, MAX_SCHEMA_DEPTH - depth) && NamesStable(s)
    requires s.ScalarSchema? ==> e == s.enumeration
    ensures Normalize(WithEnum(RawOf(s), e), depth) == Ok(s)
    decreases s, 1
  {
    KindAsWritten(s, e);
    match s
    case ObjectSchema(_, _, _) => ObjectFix(s, depth, e);
    case ArraySchema(_, _, _) => ArrayFix(s, depth, e);
    case ScalarSchema(_, _, _, _, _, _) =>
      WithOwnEnum(s);
      ScalarFix(s);
  }

  lemma InitNames(ps: seq<Property>)
    requires ps != [] && NoRepeats(Names(ps))
    ensures NoRepeats(Names(ps[..|ps| - 1])) && ps[|ps| - 1].name !in Names(ps[..|ps| - 1])
  {
    assert forall i | 0 <= i < |ps| - 1 :: Names(ps[..|ps| - 1])[i] == Names(ps)[i];
    assert Names(ps)[|ps| - 1] == ps[|ps| - 1].name;
  }

  lemma OneMoreProperty(init: seq<Property>, last: Property, depth: nat)
    requires NormalizeProperties(RawEntries(init), depth) == Ok(init)
    requires Normalize(RawOfProperty(last), depth + 1) == Ok(last.spec)
    requires TokenStable(last.name, 64) && last.name != "" && last.name !in Names(init)
    requires EnumOf(last.carried) == last.carried
    ensures NormalizeProperties(RawEntries(init + [last]), depth) == Ok(init + [last])
  {
    var ps := init + [last];
    assert ps[..|ps| - 1] == init;
    assert RawEntries(ps) == RawEntries(init) + [RawProperty(last.name, RawOfProperty(last))];
    assert RawEntries(ps)[..|ps| - 1] == RawEntries(init);
  }

  lemma {:induction false} PropertiesFix(ps: seq<Property>, depth: nat)
    requires depth <= MAX_SCHEMA_DEPTH && NoRepeats(Names(ps))
    requires forall p | p in ps :: depth < MAX_SCHEMA_DEPTH && PropertyOk(p) && TokenStable(p.name, 64)
                                   && Shaped(p.spec, MAX_SCHEMA_DEPTH - depth - 1) && NamesStable(p.spec)
    ensures NormalizeProperties(RawEntries(ps), depth) == Ok(ps)
    decreases ps, 2
  {
    if ps == [] {
      assert NormalizeProperties([], depth) == Ok(ps);
    } else {
      var init, last := ps[..|ps| - 1], ps[|ps| - 1];
      assert last in ps && ps == init + [last];
      InitNames(ps);
      PropertiesFix(init, depth);
      Renormalize(last.spec, depth + 1, last.carried);
      EnumFix(last.carried);
      OneMoreProperty(init, last, depth);
    }
  }

  lemma ObjectReads(s: Schema, depth: nat, e: Option<seq<Json>>)
    requires s.ObjectSchema? && Normalize(WithEnum(RawOf(s), e), depth) == Ok(s)
    ensures NormalizeProperties(RawEntries(Head(s.properties, MAX_ITEMS)), depth) == Ok(s.properties)
  {
    KindAsWritten(s, e);
    assert ObjectOf(WithEnum(RawOf(s), e), depth) == Ok(s);
    HeadOfEntries(s.properties, MAX_ITEMS);
  }

  lemma ArrayReads(s: Schema, depth: nat, e: Option<seq<Json>>)
    requires s.ArraySchema? && Normalize(WithEnum(RawOf(s), e), depth) == Ok(s)
    ensures Normalize(RawOf(s.items), depth + 1) == Ok(s.items)
  {
    KindAsWritten(s, e);
    var raw := WithEnum(RawOf(s), e);
    assert ArrayOf(raw, depth) == Ok(s) && raw.items == ItemSchema(RawOf(s.items));
    assert NormalizeItems(raw.items, depth + 1) == Ok(s.items);
  }

  lemma {:induction false} HeadOfEntries(ps: seq<Property>, n: nat)
    ensures Head(RawEntries(ps), n) == RawEntries(Head(ps, n))
    decreases |ps|
  {
    if n < |ps| {
      var init := ps[..|ps| - 1];
      assert RawEntries(ps)[..|ps| - 1] == RawEntries(init);
      HeadOfEntries(init, n);
      assert RawEntries(ps)[..n] == RawEntries(init)[..n] && init[..n] == ps[..n];
    }
  }

  lemma {:induction false} PropertiesNeverGrow(entries: seq<RawProperty>, depth: nat)
    requires NormalizeProperties(entries, depth).Ok?
    ensures |NormalizeProperties(entries, depth).value| <= |entries|
    decreases |entries|
  {
    if entries != [] {
      PropertiesNeverGrow(entries[..|entries| - 1], depth);
    }
  }

  /** Only stable names come back unchanged. */
  lemma {:induction false} FixedIsStable(s: Schema, depth: nat, e: Option<seq<Json>>)
    requires depth <= MAX_SCHEMA_DEPTH && Normalize(WithEnum(RawOf(s), e), depth) == Ok(s)
    ensures NamesStable(s)
    decreases s, 1
  {
    if s.ObjectSchema? {
      ObjectReads(s, depth, e);
      var ps := s.properties;
      PropertiesNeverGrow(RawEntries(Head(ps, MAX_ITEMS)), depth);
      assert Head(ps, MAX_ITEMS) == ps;
      FixedPropertiesAreStable(ps, depth);
    } else if s.ArraySchema? {
      ArrayReads(s, depth, e);
      NormalizeDepth(RawOf(s.items), depth + 1);
      WithOwnEnum(s.items);
      FixedIsStable(s.items, depth + 1, RawOf(s.items).enumeration);
    }
  }

  lemma NormalizeDepth(raw: RawSchema, depth: nat)
    requires Normalize(raw, depth).Ok?
    ensures depth <= MAX_SCHEMA_DEPTH
  {
  }

  lemma {:induction false} FixedPropertiesAreStable(ps: seq<Property>, depth: nat)
    requires NormalizeProperties(RawEntries(ps), depth) == Ok(ps)
    ensures forall p | p in ps :: TokenStable(p.name, 64) && NamesStable(p.spec)
    decreases ps, 2
  {
    if ps != [] {
      var init, last := ps[..|ps| - 1], ps[|ps| - 1];
      assert RawEntries(ps)[..|ps| - 1] == RawEntries(init);
      PropertiesNeverGrow(RawEntries(init), depth);
      assert NormalizeProperties(RawEntries(init), depth) == Ok(init);
      FixedPropertiesAreStable(init, depth);
      NormalizeDepth(RawOfProperty(last), depth + 1);
      FixedIsStable(last.spec, depth + 1, last.carried);
      assert ps == init + [last];
    }
  }

  lemma StableIsFixed(s: Schema)
    requires Shaped(s, MAX_SCHEMA_DEPTH) && NamesStable(s)
    ensures Normalize(RawOf(s), 0) == Ok(s)
  {
    WithOwnEnum(s);
    Renormalize(s, 0, RawOf(s).enumeration);
  }

  lemma UnstableIsNotFixed(s: Schema)
    requires !NamesStable(s)
    ensures Normalize(RawOf(s), 0) != Ok(s)
  {
    WithOwnEnum(s);
    if Normalize(RawOf(s), 0) == Ok(s) {
      FixedIsStable(s, 0, RawOf(s).enumeration);
    }
  }

  /** A published schema survives a second normalisation exactly when all its names are stable. */
  lemma PublishedIsFixed(raw: RawSchema)
    requires Normalize(raw, 0).Ok?
    ensures var s := Normalize(raw, 0).value; Normalize(RawOf(s), 0) == Ok(s) <==> NamesStable(s)
  {
    var s := Normalize(raw, 0).value;
    NormalizeIsShaped(raw, 0);
    if NamesStable(s) {
      StableIsFixed(s);
    } else {
      UnstableIsNotFixed(s);
    }
  }
}
