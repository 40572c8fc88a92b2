/**
 Validating action input. The code normalises the schema again at every level of the value;
 the reference checker walks the schema the client was shown. The keywords mean what
 JSON Schema Validation (draft 2020-12) says in sections 6.1.2, 6.2, 6.3, 6.4 and 6.5.3.
 */
module InteractionInput {
  import opened Wrappers
  import opened Text
  import opened Json
  import opened InteractionSchema

  // ---------------------------------------------------------------- one level

  predicate IsNumber(v: Json) {
    v.JInt? || v.JFloat?
  }

  function Magnitude(v: Json): real
    requires IsNumber(v) || v.JBool?
  {
    match v
    case JInt(n) => n as real
    case JFloat(x, _) => x
    case JBool(b) => if b then 1.0 else 0.0
  }

  /** Python's `==` on scalars: booleans and numbers compare by magnitude. */
  predicate SameScalar(a: Json, b: Json) {
    if (IsNumber(a) || a.JBool?) && (IsNumber(b) || b.JBool?) then Magnitude(a) == Magnitude(b) else a == b
  }

  predicate InEnum(v: Json, e: seq<Json>) {
    exists x | x in e :: SameScalar(v, x)
  }

  predicate HasType(v: Json, k: Kind) {
    match k
    case Object => v.JObj?
    case String => v.JStr?
    case Number => IsNumber(v)
    case Integer => v.JInt?
    case Boolean => v.JBool?
    case Array => v.JList?
  }

  predicate HasKey(fields: seq<Field>, name: string) {
    exists f | f in fields :: f.key == name
  }

  predicate CountWithin(n: nat, lo: Option<int>, hi: Option<int>, most: nat) {
    (if lo.Some? then lo.value else 0) <= n <= (if hi.Some? then hi.value else most)
  }

  predicate NumberWithin(v: Json, lo: Option<Json>, hi: Option<Json>)
    requires IsNumber(v)
    requires (lo.Some? ==> IsNumber(lo.value)) && (hi.Some? ==> IsNumber(hi.value))
  {
    (lo.Some? ==> Magnitude(lo.value) <= Magnitude(v)) && (hi.Some? ==> Magnitude(v) <= Magnitude(hi.value))
  }

  function CheckScalar(v: Json, s: Schema): Result<(), SchemaError>
    requires s.ScalarSchema? && ScalarOk(s)
  {
    if !HasType(v, s.kind) then Err(InputInvalid)
    else if s.enumeration.Some? && !InEnum(v, s.enumeration.value) then Err(OutsideEnum)
    else if s.kind == String && !CountWithin(|v.text|, s.minLength, s.maxLength, MAX_TEXT) then Err(InputInvalid)
    else if (s.kind == Number || s.kind == Integer) && !NumberWithin(v, s.minimum, s.maximum) then Err(InputInvalid)
    else Ok(())
  }

  /** Required names first, then names the schema does not know. */
  function CheckNames(v: Json, s: Schema): Result<(), SchemaError>
    requires s.ObjectSchema?
  {
    if !v.JObj? then Err(InputInvalid)
    else if exists n | n in s.required :: !HasKey(v.fields, n) then Err(InputRequired)
    else if !s.additional && exists f | f in v.fields :: f.key !in Names(s.properties) then Err(AdditionalProperty)
    else Ok(())
  }

  function CheckCount(v: Json, s: Schema): Result<(), SchemaError>
    requires s.ArraySchema?
  {
    if !v.JList? then Err(InputInvalid)
    else if !CountWithin(|v.items|, s.minItems, s.maxItems, MAX_ARRAY) then Err(InputInvalid)
    else Ok(())
  }

  function Find(ps: seq<Property>, name: string): (r: Option<Property>)
    ensures r.Some? ==> r.value in ps && r.value.name == name
    ensures r.None? ==> forall p | p in ps :: p.name != name
  {
    if ps == [] then None
    else if ps[|ps| - 1].name == name then Some(ps[|ps| - 1])
    else Find(ps[..|ps| - 1], name)
  }

  // ---------------------------------------------------------------- the code: normalise at every level

  function Validate(v: Json, raw: RawSchema, depth: nat): Result<(), SchemaError>
    decreases v, 2
  {
    if depth > MAX_SCHEMA_DEPTH then Err(InputInvalid)
    else
      var s :- Normalize(raw, 0);
      NormalizeIsShaped(raw, 0);
      ValidateLevel(v, s, depth)
  }

  function ValidateLevel(v: Json, s: Schema, depth: nat): Result<(), SchemaError>
    requires s.ScalarSchema? ==> ScalarOk(s)
    decreases v, 1
  {
    match s
    case ObjectSchema(ps, _, _) =>
      var _ :- CheckNames(v, s);
      ValidateFields(v.fields, ps, depth + 1)
    case ArraySchema(items, _, _) =>
      var _ :- CheckCount(v, s);
      ValidateItems(v.items, RawOf(items), depth + 1)
    case ScalarSchema(_, _, _, _, _, _) => CheckScalar(v, s)
  }

  function ValidateFields(fields: seq<Field>, ps: seq<Property>, depth: nat): Result<(), SchemaError>
    decreases fields, 0
  {
    if fields == [] then Ok(())
    else
      var _ :- ValidateFields(fields[..|fields| - 1], ps, depth);
      var last := fields[|fields| - 1];
      match Find(ps, last.key)
      case None => Ok(())
      case Some(p) => Validate(last.value, RawOfProperty(p), depth)
  }

  function ValidateItems(items: seq<Json>, raw: RawSchema, depth: nat): Result<(), SchemaError>
    decreases items, 0
  {
    if items == [] then Ok(())
    else
      var _ :- ValidateItems(items[..|items| - 1], raw, depth);
      Validate(items[|items| - 1], raw, depth)
  }

  // ---------------------------------------------------------------- the reference: the published schema only

  /** `Shaped` at some depth: all the reference checker needs of a schema. */
  function RefCheck(v: Json, s: Schema, room: int): Result<(), SchemaError>
    requires Shaped(s, room)
    decreases v, 1
  {
    match s
    case ObjectSchema(ps, _, _) =>
      var _ :- CheckNames(v, s);
      RefFields(v.fields, ps, room - 1)
    case ArraySchema(items, _, _) =>
      var _ :- CheckCount(v, s);
      RefItems(v.items, items, room - 1)
    case ScalarSchema(_, _, _, _, _, _) => CheckScalar(v, s)
  }

  function RefFields(fields: seq<Field>, ps: seq<Property>, room: int): Result<(), SchemaError>
    requires forall p | p in ps :: Shaped(p.spec, room)
    decreases fields, 0
  {
    if fields == [] then Ok(())
    else
      var _ :- RefFields(fields[..|fields| - 1], ps, room);
      var last := fields[|fields| - 1];
      match Find(ps, last.key)
      case None => Ok(())
      case Some(p) => RefCheck(last.value, p.spec, room)
  }

  function RefItems(items: seq<Json>, s: Schema, room: int): Result<(), SchemaError>
    requires Shaped(s, room)
    decreases items, 0
  {
    if items == [] then Ok(())
    else
      var _ :- RefItems(items[..|items| - 1], s, room);
      RefCheck(items[|items| - 1], s, room)
  }

  // ---------------------------------------------------------------- the two agree

  lemma {:induction false} ShapedWithMoreRoom(s: Schema, room: int, more: int)
    requires Shaped(s, room) && room <= more
    ensures Shaped(s, more)
    decreases s
  {
    match s
    case ObjectSchema(ps, _, _) =>
      forall p | p in ps
        ensures Shaped(p.spec, more - 1)
      {
        ShapedWithMoreRoom(p.spec, room - 1, more - 1);
      }
    case ArraySchema(items, _, _) => ShapedWithMoreRoom(items, room - 1, more - 1);
    case ScalarSchema(_, _, _, _, _, _) =>
  }

  /** The schemas below the top level are the ones normalised a second time. */
  ghost predicate NestedStable(s: Schema) {
    match s
    case ObjectSchema(ps, _, _) => forall p | p in ps :: NamesStable(p.spec)
    case ArraySchema(items, _, _) => NamesStable(items)
    case ScalarSchema(_, _, _, _, _, _) => true
  }

  /** A property's schema, normalised on the way down, is the one that was published. */
  lemma PropertyAgain(p: Property, room: nat)
    requires room <= MAX_SCHEMA_DEPTH && PropertyOk(p) && Shaped(p.spec, room) && NamesStable(p.spec)
    ensures Normalize(RawOfProperty(p), 0) == Ok(p.spec)
  {
    ShapedWithMoreRoom(p.spec, room, MAX_SCHEMA_DEPTH);
    Renormalize(p.spec, 0, p.carried);
  }

  lemma ItemsAgain(s: Schema, room: nat)
    requires room <= MAX_SCHEMA_DEPTH && Shaped(s, room) && NamesStable(s)
    ensures Normalize(RawOf(s), 0) == Ok(s)
  {
    ShapedWithMoreRoom(s, room, MAX_SCHEMA_DEPTH);
    StableIsFixed(s);
  }

  lemma StableBelow(s: Schema)
    requires NamesStable(s)
    ensures NestedStable(s)
  {
  }

  /**
   Normalising at every level accepts and refuses exactly what the published schema does, with
   the same error, at every depth; in particular the depth guard never fires.
   */
  lemma {:induction false} LevelsAgree(v: Json, raw: RawSchema, depth: nat, s: Schema)
    requires depth <= MAX_SCHEMA_DEPTH && Normalize(raw, 0) == Ok(s)
    requires Shaped(s, MAX_SCHEMA_DEPTH - depth) && NestedStable(s)
    ensures Validate(v, raw, depth) == RefCheck(v, s, MAX_SCHEMA_DEPTH - depth)
    decreases v, 2
  {
    LevelAgrees(v, s, depth);
  }

  lemma LevelAgrees(v: Json, s: Schema, depth: nat)
    requires depth <= MAX_SCHEMA_DEPTH && Shaped(s, MAX_SCHEMA_DEPTH - depth) && NestedStable(s)
    ensures ValidateLevel(v, s, depth) == RefCheck(v, s, MAX_SCHEMA_DEPTH - depth)
    decreases v, 1
  {
    if s.ObjectSchema? && v.JObj? {
      FieldsAgree(v.fields, s.properties, depth + 1);
    } else if s.ArraySchema? && v.JList? {
      ItemsAgree(v.items, s.items, depth + 1);
    }
  }

  lemma {:induction false} FieldsAgree(fields: seq<Field>, ps: seq<Property>, depth: nat)
    requires forall p | p in ps :: depth <= MAX_SCHEMA_DEPTH && PropertyOk(p) && NamesStable(p.spec)
    requires forall p | p in ps :: Shaped(p.spec, MAX_SCHEMA_DEPTH - depth)
    ensures ValidateFields(fields, ps, depth) == RefFields(fields, ps, MAX_SCHEMA_DEPTH - depth)
    decreases fields, 0
  {
    if fields != [] {
      var last := fields[|fields| - 1];
      FieldsAgree(fields[..|fields| - 1], ps, depth);
      match Find(ps, last.key)
      case None =>
      case Some(p) =>
        PropertyAgain(p, MAX_SCHEMA_DEPTH - depth);
        StableBelow(p.spec);
        LevelsAgree(last.value, RawOfProperty(p), depth, p.spec);
    }
  }

  lemma {:induction false} ItemsAgree(items: seq<Json>, s: Schema, depth: nat)
    requires depth <= MAX_SCHEMA_DEPTH && Shaped(s, MAX_SCHEMA_DEPTH - depth) && NamesStable(s)
    ensures ValidateItems(items, RawOf(s), depth) == RefItems(items, s, MAX_SCHEMA_DEPTH - depth)
    decreases items, 0
  {
    if items != [] {
      ItemsAgree(items[..|items| - 1], s, depth);
      ItemsAgain(s, MAX_SCHEMA_DEPTH - depth);
      StableBelow(s);
      LevelsAgree(items[|items| - 1], RawOf(s), depth, s);
    }
  }

  // ---------------------------------------------------------------- what acceptance means

  /** The meaning of the published schema, keyword by keyword. */
  ghost predicate Conforms(v: Json, s: Schema)
    decreases s
  {
    match s
    case ObjectSchema(ps, required, additional) =>
      && v.JObj?
      && (forall n | n in required :: exists f | f in v.fields :: f.key == n)
      && (!additional ==> forall f | f in v.fields :: exists p | p in ps :: p.name == f.key)
      && (forall p | p in ps :: forall f | f in v.fields :: f.key == p.name ==> Conforms(f.value, p.spec))
    case ArraySchema(items, lo, hi) =>
      && v.JList? && (lo.Some? ==> lo.value <= |v.items|) && |v.items| <= (if hi.Some? then hi.value else MAX_ARRAY)
      && (forall x | x in v.items :: Conforms(x, items))
    case ScalarSchema(kind, e, lo, hi, minimum, maximum) =>
      && HasType(v, kind)
      && (e.Some? ==> exists x | x in e.value :: SameScalar(v, x))
      && (kind == String ==> (lo.Some? ==> lo.value <= |v.text|) && |v.text| <= (if hi.Some? then hi.value else MAX_TEXT))
      && (minimum.Some? && IsNumber(minimum.value) && IsNumber(v) ==> Magnitude(minimum.value) <= Magnitude(v))
      && (maximum.Some? && IsNumber(maximum.value) && IsNumber(v) ==> Magnitude(v) <= Magnitude(maximum.value))
  }

  lemma NameKnown(ps: seq<Property>, name: string)
    ensures name in Names(ps) <==> exists p | p in ps :: p.name == name
  {
    if name in Names(ps) {
      var i :| 0 <= i < |ps| && Names(ps)[i] == name;
      assert ps[i] in ps;
    }
    if p :| p in ps && p.name == name {
      var i :| 0 <= i < |ps| && ps[i] == p;
      assert Names(ps)[i] == name;
    }
  }

  lemma FindIsTheOne(ps: seq<Property>, p: Property)
    requires NoRepeats(Names(ps)) && p in ps
    ensures Find(ps, p.name) == Some(p)
  {
    var q := Find(ps, p.name).value;
    var i :| 0 <= i < |ps| && ps[i] == p;
    var j :| 0 <= j < |ps| && ps[j] == q;
    assert Names(ps)[i] == Names(ps)[j];
  }

  lemma ScalarMeans(v: Json, s: Schema)
    requires s.ScalarSchema? && ScalarOk(s)
    ensures CheckScalar(v, s).Ok? <==> Conforms(v, s)
  {
  }

  lemma NamesMean(v: Json, s: Schema)
    requires s.ObjectSchema?
    ensures CheckNames(v, s).Ok? <==>
            && v.JObj?
            && (forall n | n in s.required :: exists f | f in v.fields :: f.key == n)
            && (!s.additional ==> forall f | f in v.fields :: exists p | p in s.properties :: p.name == f.key)
  {
    if v.JObj? {
      forall f | f in v.fields
        ensures f.key in Names(s.properties) <==> exists p | p in s.properties :: p.name == f.key
      {
        NameKnown(s.properties, f.key);
      }
    }
  }

  /** The reference checker accepts exactly the values that conform. */
  lemma {:induction false} AcceptedConforms(v: Json, s: Schema, room: int)
    requires Shaped(s, room)
    ensures RefCheck(v, s, room).Ok? <==> Conforms(v, s)
    decreases v, 1
  {
    match s
    case ObjectSchema(ps, _, _) =>
      NamesMean(v, s);
      if v.JObj? {
        FieldsConform(v.fields, ps, room - 1);
      }
    case ArraySchema(items, _, _) =>
      if v.JList? {
        ItemsConform(v.items, items, room - 1);
      }
    case ScalarSchema(_, _, _, _, _, _) => ScalarMeans(v, s);
  }

  lemma {:induction false} FieldsConform(fields: seq<Field>, ps: seq<Property>, room: int)
    requires NoRepeats(Names(ps)) && forall p | p in ps :: Shaped(p.spec, room)
    ensures RefFields(fields, ps, room).Ok? <==>
            forall p | p in ps :: forall f | f in fields :: f.key == p.name ==> Conforms(f.value, p.spec)
    decreases fields, 0
  {
    if fields != [] {
      var init, last := fields[..|fields| - 1], fields[|fields| - 1];
      FieldsConform(init, ps, room);
      assert fields == init + [last];
      match Find(ps, last.key)
      case None =>
      case Some(p) =>
        AcceptedConforms(last.value, p.spec, room);
        forall q | q in ps && q.name == last.key
          ensures q == p
        {
          FindIsTheOne(ps, q);
        }
    }
  }

  lemma {:induction false} ItemsConform(items: seq<Json>, s: Schema, room: int)
    requires Shaped(s, room)
    ensures RefItems(items, s, room).Ok? <==> forall x | x in items :: Conforms(x, s)
    decreases items, 0
  {
    if items != [] {
      var init, last := items[..|items| - 1], items[|items| - 1];
      ItemsConform(init, s, room);
      AcceptedConforms(last, s, room);
      assert items == init + [last];
    }
  }

  /**
   Validation against a raw schema gives the verdict of the published one, and accepts exactly
   the values that conform to it.
   */
  lemma ValidateMeansConforms(v: Json, raw: RawSchema)
    requires Normalize(raw, 0).Ok? && NestedStable(Normalize(raw, 0).value)
    ensures Shaped(Normalize(raw, 0).value, MAX_SCHEMA_DEPTH)
    ensures Validate(v, raw, 0) == RefCheck(v, Normalize(raw, 0).value, MAX_SCHEMA_DEPTH)
    ensures Validate(v, raw, 0).Ok? <==> Conforms(v, Normalize(raw, 0).value)
  {
    var s := Normalize(raw, 0).value;
    NormalizeIsShaped(raw, 0);
    LevelsAgree(v, raw, 0, s);
    AcceptedConforms(v, s, MAX_SCHEMA_DEPTH);
  }

  // ---------------------------------------------------------------- enums beside containers

  /** A published schema without the enums carried beside object and array properties. */
  function Uncarried(s: Schema): (r: Schema)
    ensures r.ObjectSchema? == s.ObjectSchema? && r.ArraySchema? == s.ArraySchema?
    ensures s.ScalarSchema? ==> r == s
  {
    match s
    case ObjectSchema(ps, required, additional) => ObjectSchema(UncarriedAll(ps), required, additional)
    case ArraySchema(items, lo, hi) => ArraySchema(Uncarried(items), lo, hi)
    case ScalarSchema(_, _, _, _, _, _) => s
  }

  function UncarriedAll(ps: seq<Property>): (r: seq<Property>)
    ensures |r| == |ps|
  {
    if ps == [] then []
    else
      var p := ps[|ps| - 1];
      UncarriedAll(ps[..|ps| - 1])
      + [Property(p.name, Uncarried(p.spec), if p.spec.ScalarSchema? then p.carried else None)]
  }

  lemma {:induction false} UncarriedAt(ps: seq<Property>, i: nat)
    requires i < |ps|
    ensures var p := ps[i];
            UncarriedAll(ps)[i] == Property(p.name, Uncarried(p.spec), if p.spec.ScalarSchema? then p.carried else None)
    decreases |ps|
  {
    if i < |ps| - 1 {
      UncarriedAt(ps[..|ps| - 1], i);
    }
  }

  /** The schema as it is written, without the enums beside objects and arrays, at any depth. */
  function Erased(raw: RawSchema): (r: RawSchema)
    ensures r.NotASchema? == raw.NotASchema?
    decreases raw, 1
  {
    match raw
    case NotASchema => raw
    case RawSchema(kind, ps, required, additional, items, e, minItems, maxItems, minLength, maxLength, minimum, maximum) =>
      RawSchema(kind, ErasedProperties(ps), required, additional, ErasedItems(items),
                if IsContainer(KindOf(kind)) then None else e,
                minItems, maxItems, minLength, maxLength, minimum, maximum)
  }

  predicate IsContainer(k: Option<Kind>) {
    k == Some(Object) || k == Some(Array)
  }

  function ErasedProperties(ps: RawProperties): RawProperties
    decreases ps, 0
  {
    match ps
    case Entries(entries) => Entries(ErasedAll(entries))
    case _ => ps
  }

  function ErasedItems(items: RawItems): RawItems
    decreases items, 0
  {
    match items
    case ItemSchema(schema) => ItemSchema(Erased(schema))
    case DefaultItems => items
  }

  function ErasedAll(entries: seq<RawProperty>): (r: seq<RawProperty>)
    ensures |r| == |entries|
    decreases entries, 0
  {
    if entries == [] then []
    else ErasedAll(entries[..|entries| - 1]) + [ErasedEntry(entries[|entries| - 1])]
  }

  function ErasedEntry(entry: RawProperty): RawProperty
    decreases entry, 2
  {
    RawProperty(entry.name, Erased(entry.spec))
  }

  function UncarriedProperty(p: Property): Property {
    Property(p.name, Uncarried(p.spec), if p.spec.ScalarSchema? then p.carried else None)
  }

  function UncarriedResult(r: Result<Schema, SchemaError>): Result<Schema, SchemaError> {
    match r
    case Ok(s) => Ok(Uncarried(s))
    case Err(e) => Err(e)
  }

  lemma {:induction false} ErasedHead(entries: seq<RawProperty>, n: nat)
    ensures Head(ErasedAll(entries), n) == ErasedAll(Head(entries, n))
    decreases |entries|
  {
    if |entries| > n {
      var init, last := entries[..|entries| - 1], entries[|entries| - 1];
      ErasedHead(init, n);
      assert Head(entries, n) == Head(init, n);
      var all := ErasedAll(init);
      assert (all + [ErasedEntry(last)])[..n] == Head(all, n);
    }
  }

  lemma UncarriedNames(ps: seq<Property>)
    ensures Names(UncarriedAll(ps)) == Names(ps)
  {
    forall i | 0 <= i < |ps|
      ensures UncarriedAll(ps)[i].name == ps[i].name
    {
      UncarriedAt(ps, i);
    }
  }

  lemma UncarriedAppend(ps: seq<Property>, p: Property)
    ensures UncarriedAll(ps + [p]) == UncarriedAll(ps) + [UncarriedProperty(p)]
  {
    assert (ps + [p])[..|ps|] == ps;
  }

  /** Erasing first takes nothing but the carried enums out of what is published. */
  lemma {:induction false} ErasedNormalizes(raw: RawSchema, depth: nat)
    ensures Normalize(Erased(raw), depth) == UncarriedResult(Normalize(raw, depth))
    decreases raw, 1
  {
    if depth <= MAX_SCHEMA_DEPTH && raw.RawSchema? {
      match KindOf(raw.kind)
      case Some(Object) => ErasedObject(raw, depth);
      case Some(Array) => ErasedArray(raw, depth);
      case _ =>
    }
  }

  lemma ErasedObject(raw: RawSchema, depth: nat)
    requires raw.RawSchema?
    ensures ObjectOf(Erased(raw), depth) == UncarriedResult(ObjectOf(raw, depth))
    decreases raw, 0
  {
    if raw.properties.Entries? {
      ErasedHead(raw.properties.entries, MAX_ITEMS);
      ErasedEntries(Head(raw.properties.entries, MAX_ITEMS), depth);
    }
    if ObjectOf(raw, depth).Ok? {
      UncarriedNames(ObjectOf(raw, depth).value.properties);
    }
  }

  lemma ErasedArray(raw: RawSchema, depth: nat)
    requires raw.RawSchema?
    ensures ArrayOf(Erased(raw), depth) == UncarriedResult(ArrayOf(raw, depth))
    decreases raw, 0
  {
    if raw.items.ItemSchema? {
      ErasedNormalizes(raw.items.schema, depth + 1);
    }
  }

  lemma {:induction false} ErasedEntries(entries: seq<RawProperty>, depth: nat)
    ensures var r := NormalizeProperties(entries, depth);
            NormalizeProperties(ErasedAll(entries), depth)
            == match r case Ok(ps) => Ok(UncarriedAll(ps)) case Err(e) => Err(e)
    decreases entries, 0
  {
    if entries != [] {
      var init, last := entries[..|entries| - 1], entries[|entries| - 1];
      ErasedEntries(init, depth);
      assert ErasedAll(entries)[..|entries| - 1] == ErasedAll(init) && ErasedAll(entries)[|entries| - 1] == ErasedEntry(last);
      ErasedProperty(last, depth);
      if NormalizeProperties(init, depth).Ok? {
        var ps := NormalizeProperties(init, depth).value;
        UncarriedNames(ps);
        if PropertyOf(last, depth).Ok? {
          UncarriedAppend(ps, PropertyOf(last, depth).value);
        }
      }
    }
  }

  lemma ErasedProperty(entry: RawProperty, depth: nat)
    ensures var r := PropertyOf(entry, depth);
            PropertyOf(ErasedEntry(entry), depth)
            == match r case Ok(p) => Ok(UncarriedProperty(p)) case Err(e) => Err(e)
    decreases entry, 2
  {
    ErasedNormalizes(entry.spec, depth + 1);
  }

  // What the validator hands down is erased in the same way.

  lemma {:induction false} UncarriedIsErased(s: Schema, room: int)
    requires Shaped(s, room)
    ensures RawOf(Uncarried(s)) == Erased(RawOf(s))
    decreases s, 1
  {
    match s
    case ObjectSchema(ps, _, _) =>
      KindFix(Object);
      EntriesAreErased(ps, room - 1);
    case ArraySchema(items, _, _) =>
      KindFix(Array);
      UncarriedIsErased(items, room - 1);
    case ScalarSchema(k, _, _, _, _, _) => KindFix(k);
  }

  lemma {:induction false} EntriesAreErased(ps: seq<Property>, room: int)
    requires forall p | p in ps :: Shaped(p.spec, room)
    ensures RawEntries(UncarriedAll(ps)) == ErasedAll(RawEntries(ps))
    decreases ps, 0
  {
    if ps != [] {
      var init, p := ps[..|ps| - 1], ps[|ps| - 1];
      EntriesAreErased(init, room);
      PropertyIsErased(p, room);
      assert UncarriedAll(ps) == UncarriedAll(init) + [UncarriedProperty(p)];
      assert UncarriedAll(ps)[..|ps| - 1] == UncarriedAll(init);
      assert RawEntries(ps)[..|ps| - 1] == RawEntries(init);
    }
  }

  lemma PropertyIsErased(p: Property, room: int)
    requires Shaped(p.spec, room)
    ensures RawOfProperty(UncarriedProperty(p)) == Erased(RawOfProperty(p))
    decreases p, 2
  {
    UncarriedIsErased(p.spec, room);
    KindFix(if p.spec.ObjectSchema? then Object else if p.spec.ArraySchema? then Array else p.spec.kind);
  }

  lemma {:induction false} FindUncarried(ps: seq<Property>, name: string)
    ensures Find(UncarriedAll(ps), name)
            == match Find(ps, name) case None => None case Some(p) => Some(UncarriedProperty(p))
    decreases |ps|
  {
    if ps != [] {
      FindUncarried(ps[..|ps| - 1], name);
      assert UncarriedAll(ps)[..|ps| - 1] == UncarriedAll(ps[..|ps| - 1]);
    }
  }

  /**
   An enum written beside an object or array, at any depth of a schema, is never enforced: with
   all of them erased, validation gives every value the same verdict.
   */
  lemma {:induction false} CarriedEnumIsIdle(v: Json, raw: RawSchema, depth: nat)
    ensures Validate(v, Erased(raw), depth) == Validate(v, raw, depth)
    decreases v, 2
  {
    ErasedNormalizes(raw, 0);
    if depth <= MAX_SCHEMA_DEPTH && Normalize(raw, 0).Ok? {
      NormalizeIsShaped(raw, 0);
      UncarriedLevel(v, Normalize(raw, 0).value, depth);
    }
  }

  lemma UncarriedLevel(v: Json, s: Schema, depth: nat)
    requires Shaped(s, MAX_SCHEMA_DEPTH)
    ensures ValidateLevel(v, Uncarried(s), depth) == ValidateLevel(v, s, depth)
    decreases v, 1
  {
    match s
    case ObjectSchema(ps, _, _) =>
      UncarriedNames(ps);
      if v.JObj? {
        UncarriedFields(v.fields, ps, depth + 1);
      }
    case ArraySchema(items, _, _) =>
      UncarriedIsErased(items, MAX_SCHEMA_DEPTH - 1);
      if v.JList? {
        ErasedElements(v.items, RawOf(items), depth + 1);
      }
    case ScalarSchema(_, _, _, _, _, _) =>
  }

  lemma {:induction false} UncarriedFields(fields: seq<Field>, ps: seq<Property>, depth: nat)
    requires forall p | p in ps :: Shaped(p.spec, MAX_SCHEMA_DEPTH - 1)
    ensures ValidateFields(fields, UncarriedAll(ps), depth) == ValidateFields(fields, ps, depth)
    decreases fields, 0
  {
    if fields != [] {
      var last := fields[|fields| - 1];
      UncarriedFields(fields[..|fields| - 1], ps, depth);
      FindUncarried(ps, last.key);
      match Find(ps, last.key)
      case None =>
      case Some(p) =>
        PropertyIsErased(p, MAX_SCHEMA_DEPTH - 1);
        CarriedEnumIsIdle(last.value, RawOfProperty(p), depth);
    }
  }

  lemma {:induction false} ErasedElements(items: seq<Json>, raw: RawSchema, depth: nat)
    ensures ValidateItems(items, Erased(raw), depth) == ValidateItems(items, raw, depth)
    decreases items, 0
  {
    if items != [] {
      ErasedElements(items[..|items| - 1], raw, depth);
      CarriedEnumIsIdle(items[|items| - 1], raw, depth);
    }
  }

  // ---------------------------------------------------------------- unstable names

  function AnyObject(ps: seq<RawProperty>): RawSchema {
    RawSchema(JStr(KindText(Object)), Entries(ps), [], JBool(false), DefaultItems, None, JNull, JNull, JNull, JNull, JNull, JNull)
  }

  function AnyString(): RawSchema {
    RawSchema(JStr(KindText(String)), NoProperties, [], JNull, DefaultItems, None, JNull, JNull, JNull, JNull, JNull, JNull)
  }

  function StringProperty(name: string): Schema {
    ObjectSchema([Property(name, PLAIN_STRING, None)], [], false)
  }

  lemma OnePropertyObject(name: string, spec: RawSchema, depth: nat)
    requires depth < MAX_SCHEMA_DEPTH && Normalize(spec, depth + 1).Ok? && Token(name, 64) != ""
    ensures Normalize(AnyObject([RawProperty(name, spec)]), depth)
            == Ok(ObjectSchema([Property(Token(name, 64), Normalize(spec, depth + 1).value, EnumOf(spec.enumeration))], [], false))
  {
    KindFix(Object);
    var entries := [RawProperty(name, spec)];
    var p := Property(Token(name, 64), Normalize(spec, depth + 1).value, EnumOf(spec.enumeration));
    var none: seq<Property> := [];
    assert entries[..|entries| - 1] == [] && entries[|entries| - 1] == RawProperty(name, spec);
    assert NormalizeProperties(entries[..|entries| - 1], depth) == Ok(none) && Names(none) == [];
    assert NormalizeProperties(entries, depth) == Ok(none + [p]);
    assert none + [p] == [p];
    assert Head(entries, MAX_ITEMS) == entries;
    assert PropertiesOf(Entries(entries), depth) == Ok([p]);
    assert ObjectOf(AnyObject(entries), depth) == Ok(ObjectSchema([p], [], false));
  }

  lemma AnyStringIsPlain(depth: nat)
    requires depth <= MAX_SCHEMA_DEPTH
    ensures Normalize(AnyString(), depth) == Ok(PLAIN_STRING)
  {
    KindFix(String);
  }

  function OneField(name: string, v: Json): Json {
    JObj([Field(name, v)])
  }

  /** A value with the one field `name`, itself an object with the one text field `key`. */
  function Nested(name: string, key: string, text: string): Json {
    OneField(name, OneField(key, JStr(text)))
  }

  lemma OneStringAccepts(name: string, key: string, text: string)
    requires |text| <= MAX_TEXT
    ensures Conforms(OneField(key, JStr(text)), StringProperty(name)) <==> key == name
  {
    var fields, ps := [Field(key, JStr(text))], [Property(name, PLAIN_STRING, None)];
    assert Field(key, JStr(text)) in fields && Property(name, PLAIN_STRING, None) in ps;
    assert Conforms(JStr(text), PLAIN_STRING);
  }

  lemma VisibleToken(n: string, limit: nat)
    requires limit > 0
    ensures Token(n, limit) != "" ==> Token(Token(n, limit), limit) != ""
  {
    var t := Token(n, limit);
    if t != "" {
      StripStable(NulToSpace(n));
      LStripKeepsStable(NulToSpace(n));
      RStripKeepsStable(LStrip(NulToSpace(n)));
      NoNulStrip(NulToSpace(n));
      assert !IsSpace(t[0]) && t[0] == Strip(NulToSpace(n))[0];
      assert NulToSpace(t)[0] == t[0];
      RStripHead(NulToSpace(t));
    }
  }

  lemma {:induction false} RStripHead(s: string)
    requires s != "" && !IsSpace(s[0])
    ensures LStrip(s) == s && RStrip(s) != ""
  {
    if IsSpace(s[|s| - 1]) {
      RStripHead(s[..|s| - 1]);
    }
  }

  lemma PublishedInner(n: string)
    requires Token(n, 64) != ""
    ensures Normalize(AnyObject([RawProperty(n, AnyString())]), 1) == Ok(StringProperty(Token(n, 64)))
    ensures Normalize(AnyObject([RawProperty(n, AnyString())]), 0) == Ok(StringProperty(Token(n, 64)))
  {
    AnyStringIsPlain(1);
    AnyStringIsPlain(2);
    OnePropertyObject(n, AnyString(), 0);
    OnePropertyObject(n, AnyString(), 1);
  }

  lemma InnerAsWritten(name: string)
    ensures RawOfProperty(Property("p", StringProperty(name), None)) == AnyObject([RawProperty(name, AnyString())])
  {
    var ps := [Property(name, PLAIN_STRING, None)];
    assert ps[..0] == [];
    assert RawOfProperty(ps[0]) == AnyString();
    assert RawEntries(ps) == [RawProperty(name, AnyString())];
    assert Texts([]) == [];
  }

  function NestedSchema(n: string): RawSchema {
    AnyObject([RawProperty("p", AnyObject([RawProperty(n, AnyString())]))])
  }

  lemma PublishedOuter(n: string)
    requires Token(n, 64) != ""
    ensures Normalize(NestedSchema(n), 0) == Ok(ObjectSchema([Property("p", StringProperty(Token(n, 64)), None)], [], false))
  {
    PublishedInner(n);
    assert NulToSpace("p") == "p";
    BoundedFixpoint("p", 64);
    OnePropertyObject("p", AnyObject([RawProperty(n, AnyString())]), 0);
  }

  /** One level down, the code asks for the name cut twice. */
  lemma InnerVerdict(n: string, key: string, text: string)
    requires Token(n, 64) != "" && |text| <= MAX_TEXT
    ensures var p := Property("p", StringProperty(Token(n, 64)), None);
            Validate(OneField(key, JStr(text)), RawOfProperty(p), 1).Ok? <==> key == Token(Token(n, 64), 64)
  {
    var once := Token(n, 64);
    VisibleToken(n, 64);
    InnerAsWritten(once);
    PublishedInner(once);
    var s, v := StringProperty(Token(once, 64)), OneField(key, JStr(text));
    NormalizeIsShaped(AnyObject([RawProperty(once, AnyString())]), 1);
    LevelsAgree(v, AnyObject([RawProperty(once, AnyString())]), 1, s);
    AcceptedConforms(v, s, MAX_SCHEMA_DEPTH - 1);
    OneStringAccepts(Token(once, 64), key, text);
  }

  /**
   A nested name that a cut left with a trailing blank moves: the published schema asks for the
   name cut once, the validator for the name cut twice. They differ exactly when it is unstable.
   */
  lemma UnstableNameMoves(n: string, key: string, text: string)
    requires Token(n, 64) != "" && |text| <= MAX_TEXT
    ensures Validate(Nested("p", key, text), NestedSchema(n), 0).Ok? <==> key == Token(Token(n, 64), 64)
    ensures Normalize(NestedSchema(n), 0).Ok?
    ensures Conforms(Nested("p", key, text), Normalize(NestedSchema(n), 0).value) <==> key == Token(n, 64)
    ensures Token(n, 64) == Token(Token(n, 64), 64) <==> TrimStable(Token(n, 64))
  {
    PublishedOuter(n);
    InnerVerdict(n, key, text);
    OneStringAccepts(Token(n, 64), key, text);
    TokenAgain(n, 64);
    var p := Property("p", StringProperty(Token(n, 64)), None);
    OuterVerdict(p, NestedSchema(n), OneField(key, JStr(text)));
  }

  /** An object with one known property is judged by that property alone. */
  lemma OuterVerdict(p: Property, raw: RawSchema, inner: Json)
    requires Normalize(raw, 0) == Ok(ObjectSchema([p], [], false))
    ensures Validate(OneField(p.name, inner), raw, 0).Ok? <==> Validate(inner, RawOfProperty(p), 1).Ok?
    ensures Conforms(OneField(p.name, inner), ObjectSchema([p], [], false)) <==> Conforms(inner, p.spec)
  {
    var f, ps := Field(p.name, inner), [p];
    assert f in [f] && p in ps;
    NamesMean(OneField(p.name, inner), ObjectSchema(ps, [], false));
    assert [f][..|[f]| - 1] == [];
    assert ValidateFields([], ps, 1) == Ok(());
    assert Find(ps, p.name) == Some(p);
    assert ValidateFields([f], ps, 1) == Validate(inner, RawOfProperty(p), 1);
    assert CheckNames(OneField(p.name, inner), ObjectSchema(ps, [], false)) == Ok(());
  }

  /** There are such names: 63 letters, a blank, one more letter. */
  lemma UnstableNameExists()
    ensures exists n: string :: Token(n, 64) != "" && !TrimStable(Token(n, 64))
  {
    var n := seq(63, _ => 'a') + " a";
    assert NulToSpace(n) == n && TrimStable(n);
    StripStable(n);
    assert Token(n, 64) == n[..64] && Token(n, 64)[63] == ' ';
  }
}
