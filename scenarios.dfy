/** Worked runs of the inference functions on small operand lists. */
module Scenarios {
  import opened MergeRules
  import opened Unifier
  import opened Elemwise

  function S(dims: seq<Dim>): (a: Attr) {
    ShapeAttr(Dims(dims))
  }

  function T(code: int): (a: Attr) {
    TypeAttr(code)
  }

  /** Shapes [2, 3] and [?, 3] in, [?, ?] out: all three become [2, 3]. */
  lemma {:induction false} PartialShapesResolve()
    ensures Infer([S([2, 3]), S([-1, 3])], [S([-1, -1])], ShapeNone, 2, 1)
         == Unified(Pass, [S([2, 3]), S([2, 3])], [S([2, 3])])
  {
    var ins, outs := [S([2, 3]), S([-1, 3])], [S([-1, -1])];
    var d := S([2, 3]);
    var seeds := Seeds(ins, outs, true, 2, 1);
    assert seeds == [S([2, 3]), S([-1, 3]), S([-1, -1])];
    PartialShapesFold(seeds);
    ReverseResolves(ins, outs, ShapeNone, -1, -1, d);
    assert Resolved(ins, 2, d) == [d, d] && Resolved(outs, 1, d) == [d];
  }

  lemma {:induction false} PartialShapesFold(seeds: seq<Attr>)
    requires seeds == [S([2, 3]), S([-1, 3]), S([-1, -1])]
    ensures FoldSlots(ShapeNone, seeds) == Folded(S([2, 3]))
  {
    assert seeds[..1] == [S([2, 3])] && seeds[..2] == [S([2, 3]), S([-1, 3])];
    assert FoldSlots(ShapeNone, seeds[..0]) == Folded(ShapeNone);
    assert FoldSlots(ShapeNone, seeds[..1]) == Folded(S([2, 3]));
    FillsTo23([-1, 3]);
    assert FoldSlots(ShapeNone, seeds[..2]) == Folded(S([2, 3]));
    FillsTo23([-1, -1]);
  }

  /** [2, 3] absorbs a same-rank shape whose known sizes agree with it. */
  lemma {:induction false} FillsTo23(x: seq<Dim>)
    requires x == [-1, 3] || x == [-1, -1]
    ensures Merge(S([2, 3]), S(x)) == Assigned(true, S([2, 3]))
  {
    var m := ShapeMerge(Dims([2, 3]), Dims(x));
    ShapeMergeCases(Dims([2, 3]), Dims(x));
    assert m.value.dims[0] == 2 && m.value.dims[1] == 3;
    assert m.value.dims == [2, 3];
  }

  /** Types float32 and unknown in, float32 out: all become float32. */
  lemma {:induction false} UnknownTypeResolves()
    ensures Infer([T(Float32), T(NoType)], [T(Float32)], TypeNone, -1, -1)
         == Unified(Pass, [T(Float32), T(Float32)], [T(Float32)])
  {
    var ins, outs := [T(Float32), T(NoType)], [T(Float32)];
    var seeds := ins[..2] + outs[..1];
    assert seeds == [T(Float32), T(NoType), T(Float32)];
    assert seeds[..1] == [T(Float32)] && seeds[..2] == [T(Float32), T(NoType)];
    assert FoldSlots(TypeNone, seeds[..0]) == Folded(TypeNone);
    assert FoldSlots(TypeNone, seeds[..1]) == Folded(T(Float32));
    assert FoldSlots(TypeNone, seeds[..2]) == Folded(T(Float32));
    assert FoldSlots(TypeNone, seeds) == Folded(T(Float32));
    FoldIsJoin(TypeNone, seeds);
    ReverseInference(ins, outs, TypeNone, -1, -1);
  }

  /** Inputs float32 and int32: the second input conflicts with float32 and
      nothing is written. */
  lemma {:induction false} MixedTypesConflict()
    ensures Infer([T(Float32), T(Int32)], [T(NoType)], TypeNone, -1, -1)
         == Unified(Fail(Conflict(1, Input, T(Float32), T(Int32))), [T(Float32), T(Int32)], [T(NoType)])
  {
    var ins, outs := [T(Float32), T(Int32)], [T(NoType)];
    var seeds := Seeds(ins, outs, true, 2, 1);
    assert seeds == [T(Float32), T(Int32), T(NoType)];
    assert seeds[..1] == [T(Float32)] && seeds[..2] == [T(Float32), T(Int32)];
    assert FoldSlots(TypeNone, seeds[..0]) == Folded(TypeNone);
    assert FoldSlots(TypeNone, seeds[..1]) == Folded(T(Float32));
    assert FoldSlots(TypeNone, seeds[..2]) == Stuck(1, T(Float32));
    StuckPersists(TypeNone, seeds, 2);
    UnifyStuck(ins, outs, TypeNone, true, -1, -1);
  }

  /** Input [2, 3] against output [3, 2]: the output conflicts in the deduce
      phase. */
  lemma {:induction false} TransposedShapesConflict()
    ensures Infer([S([2, 3])], [S([3, 2])], ShapeNone, 1, 1)
         == Unified(Fail(Conflict(0, Output, S([2, 3]), S([3, 2]))), [S([2, 3])], [S([3, 2])])
  {
    var ins, outs := [S([2, 3])], [S([3, 2])];
    var seeds := Seeds(ins, outs, true, 1, 1);
    assert seeds == [S([2, 3]), S([3, 2])];
    assert seeds[..1] == [S([2, 3])];
    assert FoldSlots(ShapeNone, seeds[..0]) == Folded(ShapeNone);
    assert FoldSlots(ShapeNone, seeds[..1]) == Folded(S([2, 3]));
    var m := ShapeMerge(Dims([2, 3]), Dims([3, 2]));
    ShapeMergeCases(Dims([2, 3]), Dims([3, 2]));
    var y, x: seq<Dim> := [2, 3], [3, 2];
    assert DimsClash(y[0], x[0]);
    assert m.value.dims[0] == 2 && m.value.dims[1] == 3;
    assert m.value.dims == [2, 3];
    assert FoldSlots(ShapeNone, seeds) == Stuck(1, S([2, 3]));
    UnifyStuck(ins, outs, ShapeNone, true, -1, -1);
  }

  /** Integer type inference rejects a float32 first input before any merge. */
  lemma {:induction false} FloatRejectedAsInteger()
    ensures InferIntType([T(Float32)], [T(NoType)], 1, 1)
         == Unified(Fail(NotIntegerType), [T(Float32)], [T(NoType)])
  {
  }

  /** A fixed input count that the operand list does not have is rejected. */
  lemma {:induction false} WrongArityRejected()
    ensures Infer([T(Int32)], [T(NoType)], TypeNone, 2, 1).outcome == Fail(SizeMismatch(Input))
  {
  }
}
