/** Merge rules for the two attribute kinds that element-wise inference works
    out for every operand of an operator: tensor shapes and element types.

    A merge rule takes a target `y` and a new value `x`, writes the merged value
    into the target and reports whether the two agreed. Both rules are modelled
    here, together with an information order (`Refines`) in which a successful
    merge is exactly the least upper bound of its two arguments. */
module MergeRules {

  // ---------------------------------------------------------------------------
  // Shapes
  // ---------------------------------------------------------------------------

  /** A dimension size; -1 marks a size that is not known yet. */
  type Dim = d: int | d >= -1

  /** A tensor shape: unknown rank, or a known rank whose sizes may be unknown. */
  datatype Shape = UnknownRank | Dims(dims: seq<Dim>)

  /** Number of dimensions; -1 when the rank is unknown. */
  function NDim(s: Shape): (n: int) {
    match s
    case UnknownRank => -1
    case Dims(d) => |d|
  }

  predicate NDimIsKnown(s: Shape) {
    s.Dims?
  }

  predicate DimSizeIsKnown(d: Dim) {
    d != -1
  }

  /** A shape is known when its rank and every one of its sizes are known. */
  predicate ShapeIsKnown(s: Shape) {
    NDimIsKnown(s) && forall i :: 0 <= i < |s.dims| ==> DimSizeIsKnown(s.dims[i])
  }

  predicate ShapeIsNone(s: Shape) {
    !ShapeIsKnown(s)
  }

  /** The result of a merge: whether it succeeded, and the target's new value. */
  datatype Assigned<A> = Assigned(ok: bool, value: A)

  /** Position-wise conflict: a known target size meets a different known size. */
  predicate DimsClash(y: Dim, x: Dim) {
    DimSizeIsKnown(y) && y != x && x >= 0
  }

  /** Index of the first clashing position of two equally long size lists, or
      their length when no position clashes. */
  function FirstClash(y: seq<Dim>, x: seq<Dim>): (k: nat)
    requires |y| == |x|
    ensures k <= |y|
    ensures forall i :: 0 <= i < k ==> !DimsClash(y[i], x[i])
    ensures k < |y| ==> DimsClash(y[k], x[k])
  {
    if |y| == 0 then 0
    else if DimsClash(y[0], x[0]) then 0
    else 1 + FirstClash(y[1..], x[1..])
  }

  /** Every unknown size of `y` replaced by the size at the same position of `x`. */
  function FillUnknown(y: seq<Dim>, x: seq<Dim>): (r: seq<Dim>)
    requires |y| == |x|
  {
    seq(|y|, i requires 0 <= i < |y| => if DimSizeIsKnown(y[i]) then y[i] else x[i])
  }

  /** The shape merge rule. A target of unknown rank takes `x` wholesale. Two
      known ranks that differ fail; a new value of unknown rank leaves a ranked
      target alone. At equal rank the sizes are merged position by position, up
      to the first clash: the target keeps the positions it had already filled
      when a clash stops the merge. */
  function ShapeMerge(y: Shape, x: Shape): (r: Assigned<Shape>) {
    if !NDimIsKnown(y) then Assigned(true, x)
    else if NDim(y) != NDim(x) then Assigned(!NDimIsKnown(x), y)
    else
      var k := FirstClash(y.dims, x.dims);
      Assigned(k == |y.dims|, Dims(FillUnknown(y.dims[..k], x.dims[..k]) + y.dims[k..]))
  }

  /** What the shape merge rule promises, case by case. */
  lemma {:induction false} ShapeMergeCases(y: Shape, x: Shape)
    ensures y.UnknownRank? ==> ShapeMerge(y, x) == Assigned(true, x)
    ensures y.Dims? && x.UnknownRank? ==> ShapeMerge(y, x) == Assigned(true, y)
    ensures y.Dims? && x.Dims? && |y.dims| != |x.dims| ==> ShapeMerge(y, x) == Assigned(false, y)
    ensures y.Dims? && x.Dims? && |y.dims| == |x.dims| ==>
      var r := ShapeMerge(y, x);
      && r.value.Dims? && |r.value.dims| == |y.dims|
      && (r.ok <==> forall i :: 0 <= i < |y.dims| ==> !DimsClash(y.dims[i], x.dims[i]))
      && (forall i :: 0 <= i < |y.dims| && DimSizeIsKnown(y.dims[i]) ==> r.value.dims[i] == y.dims[i])
      && (r.ok ==> forall i :: 0 <= i < |y.dims| && !DimSizeIsKnown(y.dims[i]) ==> r.value.dims[i] == x.dims[i])
  {
  }

  /** The shape rule as the source runs it: it overwrites the target's sizes one
      at a time and returns at the first clash. */
  method ShapeAssign(y: Shape, x: Shape) returns (ok: bool, r: Shape)
    ensures Assigned(ok, r) == ShapeMerge(y, x)
  {
    if !NDimIsKnown(y) {
      return true, x;
    } else if NDim(y) != NDim(x) {
      return !NDimIsKnown(x), y;
    }
    var dims := y.dims;
    ghost var k := FirstClash(y.dims, x.dims);
    var i := 0;
    while i < |dims|
      invariant |dims| == |y.dims| == |x.dims|
      invariant 0 <= i <= k
      invariant forall j :: 0 <= j < i ==> dims[j] == FillUnknown(y.dims, x.dims)[j]
      invariant dims[i..] == y.dims[i..]
    {
      assert dims[i] == y.dims[i] by {
        assert dims[i..][0] == y.dims[i..][0];
      }
      if !DimSizeIsKnown(dims[i]) {
        dims := dims[i := x.dims[i]];
      } else if dims[i] != x.dims[i] && x.dims[i] >= 0 {
        FilledUpTo(y.dims, x.dims, i, dims);
        return false, Dims(dims);
      }
      i := i + 1;
    }
    FilledUpTo(y.dims, x.dims, i, dims);
    return true, Dims(dims);
  }

  /** A size list that holds the merged sizes before position `k` and the
      target's own sizes from `k` on is the partly merged list. */
  lemma {:induction false} FilledUpTo(y: seq<Dim>, x: seq<Dim>, k: nat, dims: seq<Dim>)
    requires |y| == |x| == |dims| && k <= |y|
    requires forall j :: 0 <= j < k ==> dims[j] == FillUnknown(y, x)[j]
    requires dims[k..] == y[k..]
    ensures dims == FillUnknown(y[..k], x[..k]) + y[k..]
  {
    var m := FillUnknown(y[..k], x[..k]) + y[k..];
    forall j | 0 <= j < |dims|
      ensures dims[j] == m[j]
    {
      if j >= k {
        assert dims[k..][j - k] == y[k..][j - k];
      }
    }
  }

  // ---------------------------------------------------------------------------
  // Element types
  // ---------------------------------------------------------------------------

  /** Element type codes, numbered as in the mshadow tensor library. */
  const NoType: int := -1
  const Float32: int := 0
  const Float64: int := 1
  const Float16: int := 2
  const Uint8: int := 3
  const Int32: int := 4
  const Int8: int := 5
  const Int64: int := 6
  const Bool: int := 7

  /** The codes that have a printable name. */
  const NamedTypes: set<int> := {Float32, Float64, Float16, Int8, Uint8, Int32, Int64}

  /** The name printed for a type code in a conflict report. */
  function TypeString(t: int): (name: string)
    ensures name == "unknown" <==> t !in NamedTypes
  {
    if t == Float32 then "float32"
    else if t == Float64 then "float64"
    else if t == Float16 then "float16"
    else if t == Int8 then "int8"
    else if t == Uint8 then "uint8"
    else if t == Int32 then "int32"
    else if t == Int64 then "int64"
    else "unknown"
  }

  /** Distinct named codes print distinct names. */
  lemma {:induction false} TypeNamesDistinct(t: int, u: int)
    requires t in NamedTypes && u in NamedTypes && t != u
    ensures TypeString(t) != TypeString(u)
  {
  }

  predicate TypeIsNone(t: int) {
    t == NoType
  }

  /** The type merge rule: an unknown target takes `x`; a known target never
      changes, and agrees with `x` when `x` is unknown or the same code. */
  function TypeAssign(y: int, x: int): (r: Assigned<int>)
    ensures TypeIsNone(y) ==> r == Assigned(true, x)
    ensures r.ok <==> (TypeIsNone(y) || TypeIsNone(x) || x == y)
    ensures !TypeIsNone(y) ==> r.value == y
    ensures r.ok ==> (TypeIsNone(x) || r.value == x)
  {
    if y == NoType then Assigned(true, x)
    else if y != x && x != NoType then Assigned(false, y)
    else Assigned(true, y)
  }

  // ---------------------------------------------------------------------------
  // Attributes of either kind
  // ---------------------------------------------------------------------------

  /** An attribute slot's value: a shape, or an element type code. */
  datatype Attr = ShapeAttr(shape: Shape) | TypeAttr(dtype: int)

  datatype Kind = ShapeKind | TypeKind

  function KindOf(a: Attr): (k: Kind) {
    match a
    case ShapeAttr(_) => ShapeKind
    case TypeAttr(_) => TypeKind
  }

  /** Every slot of `s` holds an attribute of kind `k`. */
  predicate OfKind(s: seq<Attr>, k: Kind) {
    forall i :: 0 <= i < |s| ==> KindOf(s[i]) == k
  }

  predicate IsNone(a: Attr) {
    match a
    case ShapeAttr(s) => ShapeIsNone(s)
    case TypeAttr(t) => TypeIsNone(t)
  }

  /** The merge rule of the attribute's kind. */
  function Merge(y: Attr, x: Attr): (r: Assigned<Attr>)
    requires KindOf(y) == KindOf(x)
    ensures KindOf(r.value) == KindOf(y)
  {
    match y
    case ShapeAttr(s) =>
      var m := ShapeMerge(s, x.shape);
      Assigned(m.ok, ShapeAttr(m.value))
    case TypeAttr(t) =>
      var m := TypeAssign(t, x.dtype);
      Assigned(m.ok, TypeAttr(m.value))
  }

  /** Merges `x` into the target `y` with the rule of their kind. */
  method Assign(y: Attr, x: Attr) returns (ok: bool, r: Attr)
    requires KindOf(y) == KindOf(x)
    ensures Assigned(ok, r) == Merge(y, x)
  {
    match y
    case ShapeAttr(s) =>
      var shape;
      ok, shape := ShapeAssign(s, x.shape);
      r := ShapeAttr(shape);
    case TypeAttr(t) =>
      var m := TypeAssign(t, x.dtype);
      ok, r := m.ok, TypeAttr(m.value);
  }

  // ---------------------------------------------------------------------------
  // The information order
  // ---------------------------------------------------------------------------

  /** `b` agrees with `a` and knows at least as much: every rank, size or type
      code that `a` knows, `b` knows too, with the same value. */
  predicate Refines(a: Attr, b: Attr) {
    match a
    case TypeAttr(s) => b.TypeAttr? && (TypeIsNone(s) || s == b.dtype)
    case ShapeAttr(s) =>
      b.ShapeAttr? &&
      (s.UnknownRank? ||
       (b.shape.Dims? && |s.dims| == |b.shape.dims| &&
        forall i :: 0 <= i < |s.dims| ==> !DimSizeIsKnown(s.dims[i]) || s.dims[i] == b.shape.dims[i]))
  }

  lemma {:induction false} RefinesReflexive(a: Attr)
    ensures Refines(a, a)
  {
  }

  lemma {:induction false} RefinesTransitive(a: Attr, b: Attr, c: Attr)
    requires Refines(a, b) && Refines(b, c)
    ensures Refines(a, c)
  {
  }

  lemma {:induction false} RefinesAntisymmetric(a: Attr, b: Attr)
    requires Refines(a, b) && Refines(b, a)
    ensures a == b
  {
    if a.ShapeAttr? && a.shape.Dims? {
      assert a.shape.dims == b.shape.dims;
    }
  }

  /** `j` is the least upper bound of `y` and `x`. */
  ghost predicate IsJoin(j: Attr, y: Attr, x: Attr) {
    && Refines(y, j) && Refines(x, j)
    && forall z :: Refines(y, z) && Refines(x, z) ==> Refines(j, z)
  }

  /** A merge succeeds exactly when its two arguments have a common refinement,
      and then it yields their least upper bound. */
  lemma {:induction false} MergeIsJoin(y: Attr, x: Attr)
    requires KindOf(y) == KindOf(x)
    ensures Merge(y, x).ok ==> IsJoin(Merge(y, x).value, y, x)
    ensures !Merge(y, x).ok ==> forall z :: !(Refines(y, z) && Refines(x, z))
  {
    var r := Merge(y, x);
    if y.ShapeAttr? {
      ShapeMergeCases(y.shape, x.shape);
    }
    if y.ShapeAttr? && y.shape.Dims? && x.shape.Dims? && |y.shape.dims| == |x.shape.dims| {
      var yd, xd, rd := y.shape.dims, x.shape.dims, r.value.shape.dims;
      if r.ok {
        forall z | Refines(y, z) && Refines(x, z)
          ensures Refines(r.value, z)
        {
          forall i | 0 <= i < |rd|
            ensures !DimSizeIsKnown(rd[i]) || rd[i] == z.shape.dims[i]
          {
            assert !DimSizeIsKnown(yd[i]) || yd[i] == z.shape.dims[i];
            assert !DimSizeIsKnown(xd[i]) || xd[i] == z.shape.dims[i];
          }
        }
      } else {
        var k := FirstClash(yd, xd);
        forall z | Refines(y, z)
          ensures !Refines(x, z)
        {
          assert yd[k] == z.shape.dims[k];
        }
      }
    }
  }

  /** Merging a value into a target that it refines makes the target that value. */
  lemma {:induction false} MergeIntoRefinement(y: Attr, x: Attr)
    requires Refines(y, x)
    ensures KindOf(y) == KindOf(x) && Merge(y, x) == Assigned(true, x)
  {
    if y.ShapeAttr? {
      ShapeMergeCases(y.shape, x.shape);
    }
    if y.ShapeAttr? && y.shape.Dims? {
      var m := Merge(y, x).value.shape.dims;
      assert m == x.shape.dims;
    }
  }

  /** A merge never loses what the target knew, even when it fails. */
  lemma {:induction false} MergeOnlyRefines(y: Attr, x: Attr)
    requires KindOf(y) == KindOf(x)
    ensures Refines(y, Merge(y, x).value)
  {
    if y.ShapeAttr? {
      ShapeMergeCases(y.shape, x.shape);
    }
  }

  /** `a` admits no strictly more informative attribute. */
  ghost predicate Maximal(a: Attr) {
    forall b :: Refines(a, b) ==> b == a
  }

  /** An attribute is "none" exactly when something more can still be learnt
      about it: an unknown type, an unknown rank, or an unknown size. */
  lemma {:induction false} NoneIffNotMaximal(a: Attr)
    ensures IsNone(a) <==> !Maximal(a)
  {
    match a
    case TypeAttr(t) =>
      if IsNone(a) {
        assert Refines(a, TypeAttr(0));
      }
    case ShapeAttr(s) =>
      if !NDimIsKnown(s) {
        assert Refines(a, ShapeAttr(Dims([])));
      } else if IsNone(a) {
        var i :| 0 <= i < |s.dims| && !DimSizeIsKnown(s.dims[i]);
        var b := ShapeAttr(Dims(s.dims[i := 0]));
        assert Refines(a, b) && b.shape.dims[i] != a.shape.dims[i];
      } else {
        forall b | Refines(a, b)
          ensures b == a
        {
          assert b.shape.dims == s.dims;
        }
      }
  }
}
