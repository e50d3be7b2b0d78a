/** When a meaning has one canonical text: which keys may tie, and what a tie does. */
module CanonicalForm {
  import opened Texts
  import opened Json
  import opened JsonObjects
  import opened StableSerialize

  /** No two keys tie in any object, at any depth; properties that are `undefined` do not count. */
  ghost predicate Untied(x: Value, less: (Str, Str) -> bool) {
    match x
    case VArr(items) => forall y | y in items :: Untied(y, less)
    case VObj(m) => KeysApart(m.Keys, less) && forall k | k in m :: Untied(m[k], less)
    case _ => true
  }

  ghost predicate KeysApart(keys: set<Str>, less: (Str, Str) -> bool) {
    forall k, k' | k in keys && k' in keys :: !Tied(k, k', less)
  }

  // ---------- untied values: one canonical form for one meaning ----------

  /** Keys strictly increase and no property is `undefined`, at every depth. */
  ghost predicate Canonical(v: Json, less: (Str, Str) -> bool) {
    match v
    case Arr(items) => CanonicalItems(items, less)
    case Obj(f) => CanonicalFields(f, less)
    case _ => true
  }

  ghost predicate CanonicalItems(items: Items, less: (Str, Str) -> bool) {
    items.Cons? ==> Canonical(items.head, less) && CanonicalItems(items.tail, less)
  }

  ghost predicate CanonicalFields(f: Fields, less: (Str, Str) -> bool) {
    match f
    case End => true
    case Field(k, v, r) => Canonical(v, less) && CanonicalFields(r, less) && (forall k' | k' in Keys(r) :: less(k, k'))
    case Hole(_, _) => false
  }

  ghost predicate Ascending(f: Fields, less: (Str, Str) -> bool) {
    match f
    case End => true
    case Field(k, _, r) => Ascending(r, less) && (forall k' | k' in Keys(r) :: less(k, k'))
    case Hole(_, _) => false
  }

  lemma {:induction false} InsertAscending(k: Str, v: Json, f: Fields, less: (Str, Str) -> bool)
    requires StrictOrder(less) && Ascending(f, less) && k !in Keys(f) && KeysApart({k} + Keys(f), less)
    ensures Ascending(Insert(k, v, f, less), less)
  {
    if f.Field? {
      assert !Tied(k, f.key, less);
      if less(f.key, k) { InsertAscending(k, v, f.rest, less); }
    }
  }

  lemma {:induction false} MeaningKeys(f: Fields)
    requires NoHoles(f)
    ensures MeaningFields(f).Keys == Keys(f)
  {
    if f.Field? { MeaningKeys(f.rest); }
  }

  lemma SortedKeys(f: Fields, less: (Str, Str) -> bool)
    requires ValidFields(f)
    ensures Keys(SortedEntries(f, less)) == MeaningFields(f).Keys
  {
    SortKeeps(f, less);
    MeaningKeys(SortedEntries(f, less));
  }

  lemma {:induction false} SortAscending(f: Fields, less: (Str, Str) -> bool)
    requires StrictOrder(less) && ValidFields(f) && KeysApart(MeaningFields(f).Keys, less)
    ensures Ascending(SortedEntries(f, less), less)
  {
    match f
    case End =>
    case Field(k, v, r) =>
      SortAscending(r, less);
      SortedKeys(r, less);
      InsertAscending(k, v, SortedEntries(r, less), less);
    case Hole(_, r) => SortAscending(r, less);
  }

  lemma {:induction false} CanonIsCanonical(v: Json, less: (Str, Str) -> bool)
    requires StrictOrder(less) && Valid(v) && Untied(Meaning(v), less)
    ensures Canonical(Canon(v, less), less)
    decreases Size(v)
  {
    match v
    case Arr(items) => CanonItemsCanonical(items, less);
    case Obj(f) =>
      SortKeeps(f, less);
      SortAscending(f, less);
      CanonEntriesCanonical(SortedEntries(f, less), less);
    case _ =>
  }

  lemma {:induction false} CanonItemsCanonical(items: Items, less: (Str, Str) -> bool)
    requires StrictOrder(less) && ValidItems(items)
    requires forall x | x in MeaningItems(items) :: Untied(x, less)
    ensures CanonicalItems(CanonItems(items, less), less)
    decreases SizeItems(items)
  {
    if items.Cons? {
      assert MeaningItems(items)[0] == Meaning(items.head);
      CanonIsCanonical(items.head, less);
      CanonItemsCanonical(items.tail, less);
    }
  }

  lemma {:induction false} CanonEntriesCanonical(f: Fields, less: (Str, Str) -> bool)
    requires StrictOrder(less) && ValidFields(f) && Ascending(f, less)
    requires forall k | k in MeaningFields(f) :: Untied(MeaningFields(f)[k], less)
    ensures CanonicalFields(CanonEntries(f, less), less)
    decreases SizeFields(f)
  {
    if f.Field? {
      var m := MeaningFields(f);
      assert f.key in m && m[f.key] == Meaning(f.value);
      forall k | k in MeaningFields(f.rest) ensures Untied(MeaningFields(f.rest)[k], less) {
        assert k in m && m[k] == MeaningFields(f.rest)[k];
      }
      CanonIsCanonical(f.value, less);
      CanonEntriesCanonical(f.rest, less);
    }
  }

  /** A meaning has one canonical value. */
  lemma {:induction false} CanonicalUnique(v: Json, w: Json, less: (Str, Str) -> bool)
    requires StrictOrder(less) && Canonical(v, less) && Canonical(w, less)
    requires Meaning(v) == Meaning(w)
    ensures v == w
    decreases v
  {
    match v
    case Arr(items) => CanonicalItemsUnique(items, w.items, less);
    case Obj(f) => CanonicalFieldsUnique(f, w.fields, less);
    case _ =>
  }

  lemma {:induction false} CanonicalItemsUnique(a: Items, b: Items, less: (Str, Str) -> bool)
    requires StrictOrder(less) && CanonicalItems(a, less) && CanonicalItems(b, less)
    requires MeaningItems(a) == MeaningItems(b)
    ensures a == b
    decreases a
  {
    if a.Cons? && b.Cons? {
      assert MeaningItems(a)[0] == Meaning(a.head) && MeaningItems(b)[0] == Meaning(b.head);
      assert MeaningItems(a)[1..] == MeaningItems(a.tail) && MeaningItems(b)[1..] == MeaningItems(b.tail);
      CanonicalUnique(a.head, b.head, less);
      CanonicalItemsUnique(a.tail, b.tail, less);
    }
  }

  lemma {:induction false} CanonicalKeys(f: Fields, less: (Str, Str) -> bool)
    requires StrictOrder(less) && CanonicalFields(f, less)
    ensures MeaningFields(f).Keys == Keys(f)
    ensures f.Field? ==> f.key !in Keys(f.rest)
  {
    if f.Field? { CanonicalKeys(f.rest, less); }
  }

  lemma SmallestFirst(f: Fields, g: Fields, less: (Str, Str) -> bool)
    requires StrictOrder(less) && CanonicalFields(f, less) && CanonicalFields(g, less)
    requires Keys(f) == Keys(g) && f.Field?
    ensures g.Field? && f.key == g.key
  {
    assert f.key in Keys(g);
    assert g.key in Keys(f);
  }

  lemma {:induction false} CanonicalFieldsUnique(f: Fields, g: Fields, less: (Str, Str) -> bool)
    requires StrictOrder(less) && CanonicalFields(f, less) && CanonicalFields(g, less)
    requires MeaningFields(f) == MeaningFields(g)
    ensures f == g
    decreases f
  {
    CanonicalKeys(f, less);
    CanonicalKeys(g, less);
    if f.Field? {
      SmallestFirst(f, g, less);
      CanonicalKeys(f.rest, less);
      CanonicalKeys(g.rest, less);
      assert MeaningFields(f)[f.key] == Meaning(f.value) && MeaningFields(g)[f.key] == Meaning(g.value);
      assert MeaningFields(f.rest) == MeaningFields(f) - {f.key};
      assert MeaningFields(g.rest) == MeaningFields(g) - {f.key};
      CanonicalUnique(f.value, g.value, less);
      CanonicalFieldsUnique(f.rest, g.rest, less);
    } else {
      assert Keys(g) == {};
    }
  }

  // ---------- properties of a canonical form ----------

  lemma {:induction false} InsertLookup(k: Str, v: Json, f: Fields, less: (Str, Str) -> bool, key: Str)
    requires k !in Keys(f)
    ensures Lookup(Insert(k, v, f, less), key) == if key == k then Some(v) else Lookup(f, key)
  {
    match f
    case End =>
    case Field(_, _, r) => InsertLookup(k, v, r, less, key);
    case Hole(_, r) => InsertLookup(k, v, r, less, key);
  }

  lemma {:induction false} SortLookup(f: Fields, less: (Str, Str) -> bool, key: Str)
    requires ValidFields(f)
    ensures Lookup(SortedEntries(f, less), key) == Lookup(f, key)
  {
    match f
    case End =>
    case Field(k, v, r) =>
      SortLookup(r, less, key);
      InsertLookup(k, v, SortedEntries(r, less), less, key);
    case Hole(_, r) => SortLookup(r, less, key);
  }

  function CanonOf(o: Option<Json>, less: (Str, Str) -> bool): Option<Json> {
    if o.Some? then Some(Canon(o.value, less)) else None
  }

  lemma {:induction false} CanonEntriesLookup(f: Fields, less: (Str, Str) -> bool, key: Str)
    requires NoHoles(f)
    ensures Lookup(CanonEntries(f, less), key) == CanonOf(Lookup(f, key), less)
  {
    if f.Field? { CanonEntriesLookup(f.rest, less, key); }
  }

  /** A property of the canonical form is the canonical form of the property. */
  lemma CanonLookup(f: Fields, less: (Str, Str) -> bool, key: Str)
    requires ValidFields(f)
    ensures Lookup(CanonEntries(SortedEntries(f, less), less), key) == CanonOf(Lookup(f, key), less)
  {
    SortKeeps(f, less);
    SortLookup(f, less, key);
    CanonEntriesLookup(SortedEntries(f, less), less, key);
  }

  lemma {:induction false} InsertCanons(k: Str, v: Json, f: Fields, less: (Str, Str) -> bool)
    requires NoHoles(f)
    ensures CanonEntries(Insert(k, v, f, less), less) == Insert(k, Canon(v, less), CanonEntries(f, less), less)
  {
    if f.Field? { InsertCanons(k, v, f.rest, less); }
  }

  lemma {:induction false} CanonsSort(f: Fields, less: (Str, Str) -> bool)
    requires ValidFields(f)
    ensures CanonEntries(SortedEntries(f, less), less) == SortedEntries(CanonEntries(f, less), less)
  {
    match f
    case End =>
    case Field(k, v, r) =>
      CanonsSort(r, less);
      SortKeeps(r, less);
      InsertCanons(k, v, SortedEntries(r, less), less);
    case Hole(_, r) => CanonsSort(r, less);
  }

  /** Properties with one list of canonical forms have one sorted list of them. */
  lemma SortedCanons(f: Fields, g: Fields, less: (Str, Str) -> bool)
    requires ValidFields(f) && ValidFields(g) && CanonEntries(f, less) == CanonEntries(g, less)
    ensures Canon(Obj(f), less) == Canon(Obj(g), less)
  {
    CanonsSort(f, less);
    CanonsSort(g, less);
  }

  // ---------- tied keys: the order of arrival shows ----------

  /** Of two keys, the one that a list of properties has first. */
  function FirstOf(f: Fields, a: Str, b: Str): Option<Str> {
    match f
    case End => None
    case Field(k, _, r) => if k == a || k == b then Some(k) else FirstOf(r, a, b)
    case Hole(_, r) => FirstOf(r, a, b)
  }

  lemma {:induction false} InsertedFirst(k: Str, v: Json, f: Fields, other: Str, less: (Str, Str) -> bool)
    requires k !in Keys(f) && !less(other, k)
    ensures FirstOf(Insert(k, v, f, less), k, other) == Some(k) == FirstOf(Insert(k, v, f, less), other, k)
  {
    match f
    case End =>
    case Field(_, _, r) => InsertedFirst(k, v, r, other, less);
    case Hole(_, r) => InsertedFirst(k, v, r, other, less);
  }

  lemma {:induction false} CanonKeepsFirst(f: Fields, a: Str, b: Str, less: (Str, Str) -> bool)
    requires NoHoles(f)
    ensures FirstOf(CanonEntries(f, less), a, b) == FirstOf(f, a, b)
  {
    if f.Field? { CanonKeepsFirst(f.rest, a, b, less); }
  }

  /** A property that came before one it ties with is printed before it. */
  lemma FirstStaysFirst(k: Str, v: Json, f: Fields, other: Str, less: (Str, Str) -> bool)
    requires ValidFields(Field(k, v, f)) && !less(other, k)
    ensures var r := CanonEntries(SortedEntries(Field(k, v, f), less), less);
      FirstOf(r, k, other) == Some(k) == FirstOf(r, other, k)
  {
    SortKeeps(Field(k, v, f), less);
    InsertedFirst(k, v, SortedEntries(f, less), other, less);
    CanonKeepsFirst(SortedEntries(Field(k, v, f), less), k, other, less);
    CanonKeepsFirst(SortedEntries(Field(k, v, f), less), other, k, less);
  }

  /** The two properties in front, one before the other, and all others behind. */
  function InFront(f: Fields, a: Str, x: Json, b: Str, y: Json): Fields {
    Field(a, x, Field(b, y, Delete(Delete(f, a), b)))
  }

  lemma InFrontMeans(f: Fields, a: Str, x: Json, b: Str, y: Json)
    requires ValidFields(f) && a != b && Lookup(f, a) == Some(x) && Lookup(f, b) == Some(y)
    ensures ValidFields(InFront(f, a, x, b, y)) && MeaningFields(InFront(f, a, x, b, y)) == MeaningFields(f)
  {
    LookupIsMeaning(f, a);
    LookupIsMeaning(f, b);
    LookupValid(f, a);
    LookupValid(f, b);
    DeleteMeaning(f, a);
    DeleteMeaning(Delete(f, a), b);
    var m := MeaningFields(f);
    assert (m - {a} - {b})[b := Meaning(y)][a := Meaning(x)] == m;
  }

  lemma InFrontOrder(f: Fields, a: Str, x: Json, b: Str, y: Json, less: (Str, Str) -> bool)
    requires ValidFields(InFront(f, a, x, b, y)) && ValidFields(InFront(f, b, y, a, x)) && Tied(a, b, less)
    ensures Canon(Obj(InFront(f, a, x, b, y)), less) != Canon(Obj(InFront(f, b, y, a, x)), less)
  {
    FirstStaysFirst(a, x, InFront(f, a, x, b, y).rest, b, less);
    FirstStaysFirst(b, y, InFront(f, b, y, a, x).rest, a, less);
  }

  /** Two tied keys in one object: one of their two orders prints unlike the given one. */
  lemma TiedPairShows(f: Fields, a: Str, b: Str, less: (Str, Str) -> bool) returns (g: Fields)
    requires ValidFields(f) && Lookup(f, a).Some? && Lookup(f, b).Some? && Tied(a, b, less)
    ensures ValidFields(g) && MeaningFields(g) == MeaningFields(f)
    ensures Canon(Obj(g), less) != Canon(Obj(f), less)
  {
    var x, y := Lookup(f, a).value, Lookup(f, b).value;
    var p, q := InFront(f, a, x, b, y), InFront(f, b, y, a, x);
    InFrontMeans(f, a, x, b, y);
    InFrontMeans(f, b, y, a, x);
    InFrontOrder(f, a, x, b, y, less);
    g := if Canon(Obj(p), less) != Canon(Obj(f), less) then p else q;
  }

  lemma ReplacedShows(f: Fields, k: Str, x: Json, less: (Str, Str) -> bool)
    requires ValidFields(f) && Valid(x) && Lookup(f, k).Some?
    requires Meaning(x) == Meaning(Lookup(f, k).value) && Canon(x, less) != Canon(Lookup(f, k).value, less)
    ensures ValidFields(Replace(f, k, x)) && MeaningFields(Replace(f, k, x)) == MeaningFields(f)
    ensures Canon(Obj(Replace(f, k, x)), less) != Canon(Obj(f), less)
  {
    LookupIsMeaning(f, k);
    ReplaceMeaning(f, k, x);
    CanonLookup(f, less, k);
    CanonLookup(Replace(f, k, x), less, k);
  }

  /** A tie at any depth: some value of the same meaning prints otherwise. */
  lemma {:induction false} TiesShow(v: Json, less: (Str, Str) -> bool) returns (w: Json)
    requires Valid(v) && !Untied(Meaning(v), less)
    ensures Valid(w) && Meaning(w) == Meaning(v) && Canon(w, less) != Canon(v, less)
    decreases Size(v)
  {
    match v
    case Arr(items) =>
      var r := TiesShowInItems(items, less);
      w := Arr(r);
    case Obj(f) =>
      var g := TiesShowInFields(f, less);
      w := Obj(g);
    case _ => assert false;
  }

  lemma {:induction false} TiesShowInItems(items: Items, less: (Str, Str) -> bool) returns (r: Items)
    requires ValidItems(items) && exists x :: x in MeaningItems(items) && !Untied(x, less)
    ensures ValidItems(r) && MeaningItems(r) == MeaningItems(items) && CanonItems(r, less) != CanonItems(items, less)
    decreases SizeItems(items)
  {
    if Untied(Meaning(items.head), less) {
      var x :| x in MeaningItems(items) && !Untied(x, less);
      assert x in MeaningItems(items.tail);
      var t := TiesShowInItems(items.tail, less);
      r := Cons(items.head, t);
    } else {
      var h := TiesShow(items.head, less);
      r := Cons(h, items.tail);
    }
  }

  lemma {:induction false} TiesShowInFields(f: Fields, less: (Str, Str) -> bool) returns (g: Fields)
    requires ValidFields(f) && !Untied(VObj(MeaningFields(f)), less)
    ensures ValidFields(g) && MeaningFields(g) == MeaningFields(f) && Canon(Obj(g), less) != Canon(Obj(f), less)
    decreases SizeFields(f)
  {
    var m := MeaningFields(f);
    if a, b :| a in m && b in m && Tied(a, b, less) {
      LookupIsMeaning(f, a);
      LookupIsMeaning(f, b);
      g := TiedPairShows(f, a, b, less);
    } else {
      var k :| k in m && !Untied(m[k], less);
      LookupIsMeaning(f, k);
      LookupValid(f, k);
      var x := TiesShow(Lookup(f, k).value, less);
      g := Replace(f, k, x);
      ReplacedShows(f, k, x, less);
    }
  }

  // ---------- the theorems ----------

  /** Values that print alike mean the same, for every comparator; an untied value prints like all that mean the
      same. */
  lemma SerializeAgreesIffSameMeaning(v: Json, w: Json, less: (Str, Str) -> bool)
    requires Valid(v) && Valid(w)
    ensures Serialize(v, less) == Serialize(w, less) ==> Meaning(v) == Meaning(w)
    ensures StrictOrder(less) && Untied(Meaning(v), less) ==>
      (Serialize(v, less) == Serialize(w, less) <==> Meaning(v) == Meaning(w))
  {
    SameTextIffSameCanon(v, w, less);
    if Serialize(v, less) == Serialize(w, less) { SameTextSameMeaning(v, w, less, less); }
    if StrictOrder(less) && Untied(Meaning(v), less) && Meaning(v) == Meaning(w) {
      CanonIsCanonical(v, less);
      CanonIsCanonical(w, less);
      CanonKeepsMeaning(v, less);
      CanonKeepsMeaning(w, less);
      CanonicalUnique(Canon(v, less), Canon(w, less), less);
    }
  }

  /** All values of one meaning print alike exactly when no two of its keys tie. */
  lemma OneTextIffUntied(v: Json, less: (Str, Str) -> bool)
    requires StrictOrder(less) && Valid(v)
    ensures (forall w | Valid(w) && Meaning(w) == Meaning(v) :: Serialize(w, less) == Serialize(v, less))
       <==> Untied(Meaning(v), less)
  {
    if Untied(Meaning(v), less) {
      forall w | Valid(w) && Meaning(w) == Meaning(v) ensures Serialize(w, less) == Serialize(v, less) {
        SerializeAgreesIffSameMeaning(v, w, less);
      }
    } else {
      var w := TiesShow(v, less);
      SameTextIffSameCanon(w, v, less);
    }
  }

  /** An object whose keys are the two spellings of one letter prints in the order it was built. */
  lemma TiedKeysShow(less: (Str, Str) -> bool)
    requires Tied(COMPOSED, DECOMPOSED, less)
    ensures var v := Obj(Field(COMPOSED, Null, Field(DECOMPOSED, Null, End)));
      var w := Obj(Field(DECOMPOSED, Null, Field(COMPOSED, Null, End)));
      Meaning(v) == Meaning(w) && Serialize(v, less) != Serialize(w, less)
  {
    var f := Field(COMPOSED, Null, Field(DECOMPOSED, Null, End));
    var g := Field(DECOMPOSED, Null, Field(COMPOSED, Null, End));
    var m := map[COMPOSED := VNull, DECOMPOSED := VNull];
    assert MeaningFields(f) == m && MeaningFields(g) == m;
    FirstStaysFirst(COMPOSED, Null, f.rest, DECOMPOSED, less);
    FirstStaysFirst(DECOMPOSED, Null, g.rest, COMPOSED, less);
    SameTextIffSameCanon(Obj(f), Obj(g), less);
  }

  lemma {:induction false} TotalOrderUnties(x: Value, less: (Str, Str) -> bool)
    requires StrictTotal(less)
    ensures Untied(x, less)
  {
    match x
    case VArr(items) => forall y | y in items ensures Untied(y, less) { TotalOrderUnties(y, less); }
    case VObj(m) => forall k | k in m ensures Untied(m[k], less) { TotalOrderUnties(m[k], less); }
    case _ =>
  }

  /** Two serializers that sort by different orders put an untied value together with the same values. */
  lemma KeyOrderIsImmaterial(v: Json, w: Json, less: (Str, Str) -> bool, less': (Str, Str) -> bool)
    requires StrictOrder(less) && StrictOrder(less') && Valid(v) && Valid(w)
    requires Untied(Meaning(v), less) && Untied(Meaning(v), less')
    ensures Serialize(v, less) == Serialize(w, less) <==> Serialize(v, less') == Serialize(w, less')
  {
    SerializeAgreesIffSameMeaning(v, w, less);
    SerializeAgreesIffSameMeaning(v, w, less');
  }

  /** The serializer with the default sort order puts `v` together with the same values exactly when `v` is untied. */
  lemma SameClassesIffUntied(v: Json, less: (Str, Str) -> bool)
    requires StrictOrder(less) && Valid(v)
    ensures (forall w | Valid(w) ::
              Serialize(v, less) == Serialize(w, less) <==> Serialize(v, UnitLess) == Serialize(w, UnitLess))
       <==> Untied(Meaning(v), less)
  {
    UnitLessStrictTotal();
    TotalOrderUnties(Meaning(v), UnitLess);
    if Untied(Meaning(v), less) {
      forall w | Valid(w)
        ensures Serialize(v, less) == Serialize(w, less) <==> Serialize(v, UnitLess) == Serialize(w, UnitLess)
      {
        KeyOrderIsImmaterial(v, w, less, UnitLess);
      }
    } else {
      var w := TiesShow(v, less);
      SameTextIffSameCanon(v, w, less);
      SerializeAgreesIffSameMeaning(v, w, UnitLess);
    }
  }
}
