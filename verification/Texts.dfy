/** JavaScript strings as sequences of UTF-16 code units, and the orders used to sort them. */
module Texts {
  type Unit = u: int | 0 <= u < 0x10000
  type Str = seq<Unit>

  /** A value that may be `undefined`. */
  datatype Option<+T> = None | Some(value: T)

  predicate Digit(u: Unit) { 0x30 <= u <= 0x39 }

  /** The value of a hexadecimal digit in either case. */
  function HexValue(u: Unit): Option<nat> {
    if 0x30 <= u <= 0x39 then Some(u - 0x30)
    else if 0x61 <= u <= 0x66 then Some(u - 0x61 + 10)
    else if 0x41 <= u <= 0x46 then Some(u - 0x41 + 10)
    else None
  }

  /** One code unit per character; the model only writes ASCII literals this way. */
  function Code(c: char): Unit {
    if c as int < 0x10000 then c as int else 0xFFFD
  }

  /** A string literal as code units. */
  function S(s: string): (r: Str)
    ensures |r| == |s|
    ensures forall i | 0 <= i < |s| :: r[i] == Code(s[i])
  {
    seq(|s|, i requires 0 <= i < |s| => Code(s[i]))
  }

  ghost predicate StrictTotal<T(!new)>(less: (T, T) -> bool) {
    && (forall a :: !less(a, a))
    && (forall a, b :: a == b || less(a, b) || less(b, a))
    && (forall a, b, c :: less(a, b) && less(b, c) ==> less(a, c))
  }

  /** An order that may leave distinct elements tied; `localeCompare` is one. */
  ghost predicate StrictOrder<T(!new)>(less: (T, T) -> bool) {
    && (forall a :: !less(a, a))
    && (forall a, b, c :: less(a, b) && less(b, c) ==> less(a, c))
  }

  /** Distinct and not ordered either way. */
  predicate Tied<T(==)>(a: T, b: T, less: (T, T) -> bool) {
    a != b && !less(a, b) && !less(b, a)
  }

  /** One letter, written as one code unit and as two: canonically equivalent strings. */
  const COMPOSED: Str := [0xE9]
  const DECOMPOSED: Str := [0x65, 0x301]

  /** Lexicographic order of code units: the order of the default `sort()`. */
  predicate UnitLess(a: Str, b: Str)
    decreases |a|
  {
    if b == [] then false
    else if a == [] then true
    else a[0] < b[0] || (a[0] == b[0] && UnitLess(a[1..], b[1..]))
  }

  lemma {:induction false} UnitLessIrreflexive(a: Str)
    ensures !UnitLess(a, a)
    decreases |a|
  {
    if a != [] { UnitLessIrreflexive(a[1..]); }
  }

  lemma {:induction false} UnitLessConnected(a: Str, b: Str)
    ensures a == b || UnitLess(a, b) || UnitLess(b, a)
    decreases |a|
  {
    if a != [] && b != [] && a[0] == b[0] {
      UnitLessConnected(a[1..], b[1..]);
      assert a == [a[0]] + a[1..] && b == [b[0]] + b[1..];
    }
  }

  lemma {:induction false} UnitLessTransitive(a: Str, b: Str, c: Str)
    requires UnitLess(a, b) && UnitLess(b, c)
    ensures UnitLess(a, c)
    decreases |a|
  {
    if a != [] && a[0] == b[0] == c[0] {
      UnitLessTransitive(a[1..], b[1..], c[1..]);
    }
  }

  lemma UnitLessAsymmetric(a: Str, b: Str)
    requires UnitLess(a, b)
    ensures !UnitLess(b, a)
  {
    if UnitLess(b, a) {
      UnitLessTransitive(a, b, a);
      UnitLessIrreflexive(a);
    }
  }

  /** The default sort order is a strict total order, so it separates every two distinct strings. */
  lemma UnitLessStrictTotal()
    ensures StrictTotal(UnitLess)
  {
    forall a: Str ensures !UnitLess(a, a) { UnitLessIrreflexive(a); }
    forall a: Str, b: Str ensures a == b || UnitLess(a, b) || UnitLess(b, a) { UnitLessConnected(a, b); }
    forall a: Str, b: Str, c: Str | UnitLess(a, b) && UnitLess(b, c) ensures UnitLess(a, c) {
      UnitLessTransitive(a, b, c);
    }
  }
}
