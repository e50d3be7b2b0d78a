/** JSON values as the JavaScript engine holds them: objects are property lists in enumeration order. */
module Json {
  import opened Texts

  /** A number is held as its numeral; `Number::toString` gives one numeral to each finite number. */
  datatype Json =
    | Null
    | Bool(b: bool)
    | Num(numeral: Str)
    | Text(text: Str)
    | Arr(items: Items)
    | Obj(fields: Fields)

  datatype Items = Nil | Cons(head: Json, tail: Items)

  /** `Hole` is a property that is present but holds `undefined`. */
  datatype Fields =
    | End
    | Field(key: Str, value: Json, rest: Fields)
    | Hole(name: Str, others: Fields)

  function Keys(f: Fields): set<Str> {
    match f
    case End => {}
    case Field(k, _, r) => {k} + Keys(r)
    case Hole(k, r) => {k} + Keys(r)
  }

  function Lookup(f: Fields, key: Str): (r: Option<Json>)
    ensures r.Some? ==> key in Keys(f)
  {
    match f
    case End => None
    case Field(k, v, r) => if k == key then Some(v) else Lookup(r, key)
    case Hole(k, r) => if k == key then None else Lookup(r, key)
  }

  predicate NumeralUnit(u: Unit) {
    0x30 <= u <= 0x39 || u == 0x2B || u == 0x2D || u == 0x2E || u == 0x45 || u == 0x65
  }

  /** Covers every number of RFC 8259 section 6: optional minus, a digit, then numeral characters. */
  predicate Numeral(t: Str) {
    && t != []
    && (Digit(t[0]) || (t[0] == 0x2D && |t| > 1 && Digit(t[1])))
    && (forall u | u in t :: NumeralUnit(u))
  }

  /** What every parsed value satisfies: numerals are numerals and no object repeats a key. */
  predicate Valid(v: Json) {
    match v
    case Num(t) => Numeral(t)
    case Arr(items) => ValidItems(items)
    case Obj(f) => ValidFields(f)
    case _ => true
  }

  predicate ValidItems(items: Items) {
    items.Cons? ==> Valid(items.head) && ValidItems(items.tail)
  }

  predicate ValidFields(f: Fields) {
    match f
    case End => true
    case Field(k, v, r) => k !in Keys(r) && Valid(v) && ValidFields(r)
    case Hole(k, r) => k !in Keys(r) && ValidFields(r)
  }

  function Size(v: Json): nat {
    match v
    case Arr(items) => 1 + SizeItems(items)
    case Obj(f) => 1 + SizeFields(f)
    case _ => 1
  }

  function SizeItems(items: Items): nat {
    match items
    case Nil => 0
    case Cons(h, t) => 1 + Size(h) + SizeItems(t)
  }

  function SizeFields(f: Fields): nat {
    match f
    case End => 0
    case Field(_, v, r) => 1 + Size(v) + SizeFields(r)
    case Hole(_, r) => 1 + SizeFields(r)
  }

  /** What a JSON value denotes: objects are maps, so key order is gone at every depth. */
  datatype Value =
    | VNull
    | VBool(b: bool)
    | VNum(numeral: Str)
    | VText(text: Str)
    | VArr(items: seq<Value>)
    | VObj(members: map<Str, Value>)

  function Meaning(v: Json): Value {
    match v
    case Null => VNull
    case Bool(b) => VBool(b)
    case Num(t) => VNum(t)
    case Text(t) => VText(t)
    case Arr(items) => VArr(MeaningItems(items))
    case Obj(f) => VObj(MeaningFields(f))
  }

  function MeaningItems(items: Items): seq<Value> {
    match items
    case Nil => []
    case Cons(h, t) => [Meaning(h)] + MeaningItems(t)
  }

  function MeaningFields(f: Fields): (m: map<Str, Value>)
    ensures m.Keys <= Keys(f)
  {
    match f
    case End => map[]
    case Field(k, v, r) => MeaningFields(r)[k := Meaning(v)]
    case Hole(_, r) => MeaningFields(r)
  }

  /** The denoted map answers exactly what property lookup answers. */
  lemma {:induction false} LookupIsMeaning(f: Fields, key: Str)
    requires ValidFields(f)
    ensures key in MeaningFields(f) <==> Lookup(f, key).Some?
    ensures Lookup(f, key).Some? ==> MeaningFields(f)[key] == Meaning(Lookup(f, key).value)
  {
    match f
    case End =>
    case Field(k, v, r) => LookupIsMeaning(r, key);
    case Hole(k, r) => LookupIsMeaning(r, key);
  }
}
