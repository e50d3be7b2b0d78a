/** Object literals: a list of distinct keys paired with a list of values. */
module JsonObjects {
  import opened Texts
  import opened Json

  ghost predicate Distinct(keys: seq<Str>) {
    forall i, j | 0 <= i < j < |keys| :: keys[i] != keys[j]
  }

  function Literal(keys: seq<Str>, values: seq<Json>): (f: Fields)
    requires |keys| == |values|
    ensures forall k | k in Keys(f) :: k in keys
    decreases |keys|
  {
    if keys == [] then End else Field(keys[0], values[0], Literal(keys[1..], values[1..]))
  }

  /** Looking up a listed key gives the value listed with it. */
  lemma {:induction false} LookupLiteral(keys: seq<Str>, values: seq<Json>, i: nat)
    requires |keys| == |values| && Distinct(keys) && i < |keys|
    ensures Lookup(Literal(keys, values), keys[i]) == Some(values[i])
    decreases |keys|
  {
    if i > 0 { LookupLiteral(keys[1..], values[1..], i - 1); }
  }

  lemma {:induction false} LiteralValid(keys: seq<Str>, values: seq<Json>)
    requires |keys| == |values| && Distinct(keys)
    requires forall i | 0 <= i < |values| :: Valid(values[i])
    ensures ValidFields(Literal(keys, values))
    decreases |keys|
  {
    if keys != [] {
      LiteralValid(keys[1..], values[1..]);
    }
  }

  // ---------- one property of an object ----------

  /** `delete object[key]` */
  function Delete(f: Fields, key: Str): (r: Fields)
    ensures Keys(r) == Keys(f) - {key} || key in Keys(r)
    ensures forall k | k != key :: Lookup(r, k) == Lookup(f, k)
  {
    match f
    case End => End
    case Field(k, v, r) => if k == key then r else Field(k, v, Delete(r, key))
    case Hole(k, r) => if k == key then r else Hole(k, Delete(r, key))
  }

  /** `object[key] = value` for a key already there. */
  function Replace(f: Fields, key: Str, value: Json): (r: Fields)
    ensures Keys(r) == Keys(f)
    ensures Lookup(f, key).Some? ==> Lookup(r, key) == Some(value)
    ensures forall k | k != key :: Lookup(r, k) == Lookup(f, k)
  {
    match f
    case End => End
    case Field(k, v, r) => if k == key then Field(k, value, r) else Field(k, v, Replace(r, key, value))
    case Hole(k, r) => Hole(k, Replace(r, key, value))
  }

  lemma {:induction false} DeleteMeaning(f: Fields, key: Str)
    requires ValidFields(f)
    ensures ValidFields(Delete(f, key)) && Keys(Delete(f, key)) == Keys(f) - {key}
    ensures MeaningFields(Delete(f, key)) == MeaningFields(f) - {key}
  {
    match f
    case End =>
    case Field(k, _, r) => DeleteMeaning(r, key);
    case Hole(k, r) => DeleteMeaning(r, key);
  }

  lemma {:induction false} ReplaceMeaning(f: Fields, key: Str, value: Json)
    requires ValidFields(f) && Valid(value) && Lookup(f, key).Some?
    ensures ValidFields(Replace(f, key, value))
    ensures MeaningFields(Replace(f, key, value)) == MeaningFields(f)[key := Meaning(value)]
  {
    match f
    case Field(k, v, r) =>
      if k != key {
        ReplaceMeaning(r, key, value);
        var m: map<Str, Value> := MeaningFields(r);
        assert m[key := Meaning(value)][k := Meaning(v)] == m[k := Meaning(v)][key := Meaning(value)];
      }
    case Hole(k, r) => ReplaceMeaning(r, key, value);
  }

  lemma {:induction false} LookupValid(f: Fields, key: Str)
    requires ValidFields(f) && Lookup(f, key).Some?
    ensures Valid(Lookup(f, key).value) && Size(Lookup(f, key).value) < SizeFields(f)
  {
    match f
    case Field(k, _, r) => if k != key { LookupValid(r, key); }
    case Hole(_, r) => LookupValid(r, key);
  }
}
