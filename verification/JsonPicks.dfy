/** What one JSON object keeps of another: dictionary comprehensions over listed keys, and single assignments. */
module JsonPicks {
  import opened Wrappers
  import opened Json
  import opened Places

  /** A Python dictionary. */
  ghost predicate DistinctKeys(fields: seq<Field>) {
    forall i, j | 0 <= i < j < |fields| :: fields[i].key != fields[j].key
  }

  /** `{key: item[key] for key in keys if key in item}`. */
  function Project(fields: seq<Field>, keys: seq<string>): (r: seq<Field>)
    ensures forall f | f in r :: f.key in keys
    decreases |keys|
  {
    if keys == [] then []
    else
      var init, key := Project(fields, keys[..|keys| - 1]), keys[|keys| - 1];
      var v := GetKey(fields, key);
      if v.Some? then init + [Field(key, v.value)] else init
  }

  /** The projections of the items that are objects. */
  function ProjectAll(items: seq<Json>, keys: seq<string>): (r: seq<Json>)
    ensures |r| <= |items|
    ensures (forall v | v in items :: v.JObj?) ==> |r| == |items|
    ensures forall v | v in r :: v.JObj? && forall f | f in v.fields :: f.key in keys
    decreases |items|
  {
    if items == [] then []
    else
      var init, last := ProjectAll(items[..|items| - 1], keys), items[|items| - 1];
      if last.JObj? then init + [JObj(Project(last.fields, keys))] else init
  }

  // ---------------------------------------------------------------- what is kept

  /** Nothing but the named keys reads differently. */
  ghost predicate Touches(p: seq<Field>, q: seq<Field>, keys: seq<string>) {
    forall k | k !in keys :: GetKey(q, k) == GetKey(p, k)
  }

  /** The object holds the listed keys of the other, as they are there, and nothing else. */
  ghost predicate Picks(item: Json, picked: Json, keys: seq<string>) {
    && item.JObj? && picked.JObj?
    && forall k :: GetKey(picked.fields, k) == if k in keys then GetKey(item.fields, k) else None
  }

  /** What an object may be kept as. */
  type Keeping = (Json, Json) -> bool

  /** Every object among the items is kept, in their order, and nothing else is. */
  ghost predicate KeptAt(items: seq<Json>, kept: seq<Json>, at: seq<nat>, keeps: Keeping) {
    && |at| == |kept| && Rising(at, |items|)
    && (forall i | 0 <= i < |at| :: items[at[i]].JObj? && keeps(items[at[i]], kept[i]))
    && forall j | 0 <= j < |items| && items[j].JObj? :: j in at
  }

  ghost function Picking(keys: seq<string>): Keeping {
    (item: Json, picked: Json) => Picks(item, picked, keys)
  }

  ghost predicate PicksAll(items: seq<Json>, picked: seq<Json>, keys: seq<string>) {
    exists at: seq<nat> :: KeptAt(items, picked, at, Picking(keys))
  }

  predicate Distinct(keys: seq<string>) {
    forall i, j | 0 <= i < j < |keys| :: keys[i] != keys[j]
  }

  lemma {:induction false} ProjectReads(fields: seq<Field>, keys: seq<string>, key: string)
    requires forall i, j | 0 <= i < j < |keys| :: keys[i] != keys[j]
    ensures GetKey(Project(fields, keys), key) == if key in keys then GetKey(fields, key) else None
    decreases |keys|
  {
    if keys != [] {
      var init, last := keys[..|keys| - 1], keys[|keys| - 1];
      ProjectReads(fields, init, key);
      var v := GetKey(fields, last);
      if v.Some? {
        AppendedIndex(Project(fields, init), Field(last, v.value), key);
      }
      assert key in keys <==> key in init || key == last;
    }
  }

  lemma AppendedIndex(fields: seq<Field>, f: Field, key: string)
    ensures IndexOf(fields + [f], key)
            == if IndexOf(fields, key) >= 0 then IndexOf(fields, key) else if f.key == key then |fields| else -1
  {
    assert (fields + [f])[..|fields|] == fields;
  }

  lemma ProjectPicks(item: seq<Field>, keys: seq<string>)
    requires Distinct(keys)
    ensures Picks(JObj(item), JObj(Project(item, keys)), keys)
  {
    forall k
      ensures GetKey(Project(item, keys), k) == if k in keys then GetKey(item, k) else None
    {
      ProjectReads(item, keys, k);
    }
  }

  lemma KeptLast(items: seq<Json>, kept: seq<Json>, at: seq<nat>, keeps: Keeping)
    requires items != [] && KeptAt(items[..|items| - 1], kept, at, keeps)
    ensures var last := items[|items| - 1];
            && (!last.JObj? ==> KeptAt(items, kept, at, keeps))
            && forall x | last.JObj? && keeps(last, x) :: KeptAt(items, kept + [x], at + [|items| - 1], keeps)
  {
    var n := |items| - 1;
    assert forall j | 0 <= j < n :: items[..n][j] == items[j];
    assert n == (at + [n])[|at|] && forall j | j in at :: j in at + [n];
  }

  lemma {:induction false} ProjectAllPicks(items: seq<Json>, keys: seq<string>) returns (at: seq<nat>)
    requires Distinct(keys)
    ensures KeptAt(items, ProjectAll(items, keys), at, Picking(keys))
    decreases |items|
  {
    at := [];
    if items != [] {
      var n := |items| - 1;
      at := ProjectAllPicks(items[..n], keys);
      KeptLast(items, ProjectAll(items[..n], keys), at, Picking(keys));
      if items[n].JObj? {
        ProjectPicks(items[n].fields, keys);
        assert Picking(keys)(items[n], JObj(Project(items[n].fields, keys)));
        at := at + [n];
      }
    }
  }

  lemma SetTouches(fields: seq<Field>, key: string, value: Json)
    ensures Touches(fields, SetKey(fields, key, value), [key])
    ensures GetKey(SetKey(fields, key, value), key) == Some(value)
  {
    SetKeyReads(fields, key, value, key);
    forall k | k !in [key]
      ensures GetKey(SetKey(fields, key, value), k) == GetKey(fields, k)
    {
      SetKeyReads(fields, key, value, k);
    }
  }

  lemma TouchesBoth(p: seq<Field>, q: seq<Field>, r: seq<Field>, a: string, b: string)
    requires Touches(p, q, [a]) && Touches(q, r, [b])
    ensures Touches(p, r, [a, b])
    ensures a != b ==> GetKey(q, b) == GetKey(p, b) && GetKey(r, a) == GetKey(q, a)
  {
  }

  lemma TouchesAll(p: seq<Field>, q: seq<Field>, r: seq<Field>, a: seq<string>, b: seq<string>)
    requires Touches(p, q, a) && Touches(q, r, b)
    ensures Touches(p, r, a + b)
    ensures forall k | k in a && k !in b :: GetKey(r, k) == GetKey(q, k)
    ensures forall k | k in b && k !in a :: GetKey(q, k) == GetKey(p, k)
  {
  }
}
