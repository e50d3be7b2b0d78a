/** Fixed-width decimal fields: printing, reading back, and how texts of them compare. */
module Numerals {
  import opened Texts

  function Pow10(w: nat): (p: nat)
    ensures p > 0
  {
    if w == 0 then 1 else 10 * Pow10(w - 1)
  }

  /** The last `w` decimal digits of `n`. */
  function Pad(n: nat, w: nat): (s: Str)
    ensures |s| == w && AllDigits(s)
    decreases w
  {
    if w == 0 then [] else Pad(n / 10, w - 1) + [0x30 + n % 10]
  }

  predicate AllDigits(s: Str) { forall i | 0 <= i < |s| :: Digit(s[i]) }

  function Decimal(s: Str): (n: nat)
    requires AllDigits(s)
    decreases |s|
  {
    if s == [] then 0 else 10 * Decimal(s[..|s| - 1]) + (s[|s| - 1] - 0x30)
  }

  lemma {:induction false} ValueOfPad(n: nat, w: nat)
    requires n < Pow10(w)
    ensures Decimal(Pad(n, w)) == n
    decreases w
  {
    if w > 0 {
      ValueOfPad(n / 10, w - 1);
      assert Pad(n, w)[..w - 1] == Pad(n / 10, w - 1);
    }
  }

  lemma {:induction false} ValueBound(s: Str)
    requires AllDigits(s)
    ensures Decimal(s) < Pow10(|s|)
    decreases |s|
  {
    if s != [] { ValueBound(s[..|s| - 1]); }
  }

  // ---------- comparing texts block by block ----------

  lemma {:induction false} CommonPrefix(p: Str, a: Str, b: Str)
    ensures UnitLess(p + a, p + b) <==> UnitLess(a, b)
    decreases |p|
  {
    if p == [] {
      assert p + a == a && p + b == b;
    } else {
      assert (p + a)[1..] == p[1..] + a && (p + b)[1..] == p[1..] + b;
      CommonPrefix(p[1..], a, b);
    }
  }

  lemma {:induction false} BlockDecides(x: Str, y: Str, a: Str, b: Str)
    requires |x| == |y| && x != y
    ensures UnitLess(x + a, y + b) <==> UnitLess(x, y)
    decreases |x|
  {
    assert x + a != [] && y + b != [];
    if x[0] == y[0] {
      assert x == [x[0]] + x[1..] && y == [y[0]] + y[1..];
      assert (x + a)[1..] == x[1..] + a && (y + b)[1..] == y[1..] + b;
      BlockDecides(x[1..], y[1..], a, b);
    }
  }

  lemma LastUnit(u: Unit, v: Unit)
    ensures UnitLess([u], [v]) <==> u < v
  {
    assert !UnitLess([u][1..], [v][1..]);
  }

  /** Numbers of one width compare as their texts do. */
  lemma {:induction false} PadOrder(m: nat, n: nat, w: nat)
    requires m < Pow10(w) && n < Pow10(w)
    ensures UnitLess(Pad(m, w), Pad(n, w)) <==> m < n
    ensures Pad(m, w) == Pad(n, w) <==> m == n
    decreases w
  {
    ValueOfPad(m, w);
    ValueOfPad(n, w);
    if w > 0 {
      var x, y := Pad(m / 10, w - 1), Pad(n / 10, w - 1);
      var u, v := 0x30 + m % 10, 0x30 + n % 10;
      PadOrder(m / 10, n / 10, w - 1);
      LastUnit(u, v);
      if x == y {
        CommonPrefix(x, [u], [v]);
      } else {
        BlockDecides(x, y, [u], [v]);
      }
    }
  }

  // ---------- rows of columns: a separator, then a number of fixed width ----------

  datatype Column = Column(sep: Unit, width: nat)

  ghost predicate Fits(shape: seq<Column>, values: seq<nat>) {
    |shape| == |values| && forall i | 0 <= i < |shape| :: values[i] < Pow10(shape[i].width)
  }

  function Print(shape: seq<Column>, values: seq<nat>): Str
    requires |shape| == |values|
    decreases |shape|
  {
    if shape == [] then []
    else [shape[0].sep] + Pad(values[0], shape[0].width) + Print(shape[1..], values[1..])
  }

  function Read(shape: seq<Column>, s: Str): (r: Option<(seq<nat>, Str)>)
    ensures r.Some? ==> |r.value.0| == |shape|
    decreases |shape|
  {
    if shape == [] then Some(([], s))
    else
      var w := shape[0].width;
      if |s| < 1 + w || s[0] != shape[0].sep || !AllDigits(s[1..1 + w]) then None
      else
        match Read(shape[1..], s[1 + w..])
        case None => None
        case Some((values, rest)) => Some(([Decimal(s[1..1 + w])] + values, rest))
  }

  lemma RowSplits(sep: Unit, field: Str, row: Str, end: Str)
    ensures [sep] + field + row + end == [sep] + (field + (row + end))
    ensures ([sep] + field + row + end)[1..1 + |field|] == field
    ensures ([sep] + field + row + end)[1 + |field|..] == row + end
  {
  }

  lemma ReadField(shape: seq<Column>, field: Str, tail: Str, values: seq<nat>, rest: Str)
    requires shape != [] && AllDigits(field) && |field| == shape[0].width
    requires Read(shape[1..], tail) == Some((values, rest))
    ensures Read(shape, [shape[0].sep] + field + tail) == Some(([Decimal(field)] + values, rest))
  {
    var s := [shape[0].sep] + field + tail;
    assert s[1..1 + |field|] == field && s[1 + |field|..] == tail;
  }

  lemma {:induction false} ReadPrint(shape: seq<Column>, values: seq<nat>, rest: Str)
    requires Fits(shape, values)
    ensures Read(shape, Print(shape, values) + rest) == Some((values, rest))
    decreases |shape|
  {
    if shape == [] {
      assert Print(shape, values) + rest == rest && values == [];
    } else {
      var field, row := Pad(values[0], shape[0].width), Print(shape[1..], values[1..]);
      ValueOfPad(values[0], shape[0].width);
      ReadPrint(shape[1..], values[1..], rest);
      ReadField(shape, field, row + rest, values[1..], rest);
      assert [shape[0].sep] + field + row + rest == [shape[0].sep] + field + (row + rest);
      assert values == [values[0]] + values[1..];
    }
  }

  /** The first field that differs decides. */
  predicate Precedes(a: seq<nat>, b: seq<nat>)
    requires |a| == |b|
    decreases |a|
  {
    a != [] && (a[0] < b[0] || (a[0] == b[0] && Precedes(a[1..], b[1..])))
  }

  lemma {:induction false} PrecedesAt(a: seq<nat>, b: seq<nat>, i: nat)
    requires |a| == |b| && i < |a| && a[i] < b[i]
    requires forall j | 0 <= j < i :: a[j] == b[j]
    ensures Precedes(a, b)
    decreases |a|
  {
    if i > 0 { PrecedesAt(a[1..], b[1..], i - 1); }
  }

  /** Rows compare as texts exactly as their values compare field by field. */
  lemma {:induction false} PrintOrder(shape: seq<Column>, a: seq<nat>, b: seq<nat>, end: Str)
    requires Fits(shape, a) && Fits(shape, b)
    ensures UnitLess(Print(shape, a) + end, Print(shape, b) + end) <==> Precedes(a, b)
    decreases |shape|
  {
    if shape == [] {
      UnitLessIrreflexive(end);
      assert Print(shape, a) + end == end && Print(shape, b) + end == end;
    } else {
      var w := shape[0].width;
      var x, y := Pad(a[0], w), Pad(b[0], w);
      var s, t := Print(shape[1..], a[1..]) + end, Print(shape[1..], b[1..]) + end;
      RowSplits(shape[0].sep, x, Print(shape[1..], a[1..]), end);
      RowSplits(shape[0].sep, y, Print(shape[1..], b[1..]), end);
      CommonPrefix([shape[0].sep], x + s, y + t);
      PadOrder(a[0], b[0], w);
      if a[0] == b[0] {
        CommonPrefix(x, s, t);
        PrintOrder(shape[1..], a[1..], b[1..], end);
      } else {
        BlockDecides(x, y, s, t);
      }
    }
  }
}
