/** The element-wise shape and type inference functions an operator registers:
    each checks the operand counts fixed for the operator and then runs the
    unifier in reverse mode over every input and output, so that all operands
    of an element-wise operator end up with one shape and one element type. */
module Elemwise {
  import opened MergeRules
  import opened Unifier

  /** The "nothing known" shape: a shape of unknown rank. */
  const ShapeNone: Attr := ShapeAttr(UnknownRank)

  /** The "nothing known" element type. */
  const TypeNone: Attr := TypeAttr(NoType)

  /** The fixed operand count check: -1 accepts any number of operands; any
      other value must equal the number of operands (a negative one never
      does, since it is compared as an unsigned size). */
  predicate ArityMatches(n: int, size: nat) {
    n == -1 || n == size
  }

  /** The type codes accepted as integer element types. */
  const IntegerTypes: set<int> := {Int64, Int32, Int8, Uint8, Bool}

  predicate IsIntegerType(a: Attr) {
    a.TypeAttr? && a.dtype in IntegerTypes
  }

  // ---------------------------------------------------------------------------
  // Specification
  // ---------------------------------------------------------------------------

  /** The operand count checks, then the unifier in reverse mode over the
      whole of both lists. */
  function Infer(ins: seq<Attr>, outs: seq<Attr>, none: Attr, nIn: int, nOut: int): (u: Unified)
    requires OfKind(ins, KindOf(none)) && OfKind(outs, KindOf(none))
  {
    if !ArityMatches(nIn, |ins|) then Unified(Fail(SizeMismatch(Input)), ins, outs)
    else if !ArityMatches(nOut, |outs|) then Unified(Fail(SizeMismatch(Output)), ins, outs)
    else Unify(ins, outs, none, true, -1, -1)
  }

  /** Integer type inference: the first input must exist and hold an integer
      type before anything else is checked; then it is type inference. */
  function InferIntType(ins: seq<Attr>, outs: seq<Attr>, nIn: int, nOut: int): (u: Unified)
    requires OfKind(ins, TypeKind) && OfKind(outs, TypeKind)
  {
    if |ins| == 0 then Unified(Fail(MissingInput), ins, outs)
    else if !IsIntegerType(ins[0]) then Unified(Fail(NotIntegerType), ins, outs)
    else Infer(ins, outs, TypeNone, nIn, nOut)
  }

  // ---------------------------------------------------------------------------
  // The registered inference functions
  // ---------------------------------------------------------------------------

  /** Shape inference for an element-wise operator with `nIn` inputs and
      `nOut` outputs (-1: any number). */
  method ElemwiseShape(ins: array<Attr>, outs: array<Attr>, nIn: int, nOut: int) returns (res: Outcome)
    requires ins != outs
    requires OfKind(ins[..], ShapeKind) && OfKind(outs[..], ShapeKind)
    modifies ins, outs
    ensures Infer(old(ins[..]), old(outs[..]), ShapeNone, nIn, nOut) == Unified(res, ins[..], outs[..])
  {
    if nIn != -1 && ins.Length != nIn {
      return Fail(SizeMismatch(Input));
    }
    if nOut != -1 && outs.Length != nOut {
      return Fail(SizeMismatch(Output));
    }
    res := ElemwiseAttrHelper(ins, outs, ShapeNone, true, -1, -1);
  }

  /** Element type inference for an element-wise operator. */
  method ElemwiseType(ins: array<Attr>, outs: array<Attr>, nIn: int, nOut: int) returns (res: Outcome)
    requires ins != outs
    requires OfKind(ins[..], TypeKind) && OfKind(outs[..], TypeKind)
    modifies ins, outs
    ensures Infer(old(ins[..]), old(outs[..]), TypeNone, nIn, nOut) == Unified(res, ins[..], outs[..])
  {
    if nIn != -1 && ins.Length != nIn {
      return Fail(SizeMismatch(Input));
    }
    if nOut != -1 && outs.Length != nOut {
      return Fail(SizeMismatch(Output));
    }
    res := ElemwiseAttrHelper(ins, outs, TypeNone, true, -1, -1);
  }

  /** Element type inference restricted to integer element types. */
  method ElemwiseIntType(ins: array<Attr>, outs: array<Attr>, nIn: int, nOut: int) returns (res: Outcome)
    requires ins != outs
    requires OfKind(ins[..], TypeKind) && OfKind(outs[..], TypeKind)
    modifies ins, outs
    ensures InferIntType(old(ins[..]), old(outs[..]), nIn, nOut) == Unified(res, ins[..], outs[..])
  {
    if ins.Length == 0 {
      return Fail(MissingInput);
    }
    var first := ins[0];
    if !(first.dtype == Int64 || first.dtype == Int32 || first.dtype == Int8
         || first.dtype == Uint8 || first.dtype == Bool) {
      return Fail(NotIntegerType);
    }
    res := ElemwiseType(ins, outs, nIn, nOut);
  }

  // ---------------------------------------------------------------------------
  // Properties
  // ---------------------------------------------------------------------------

  /** With the operand counts accepted, inference passes exactly when all the
      operands have a common refinement, and then gives every operand their
      least upper bound; a failure changes nothing. */
  lemma {:induction false} InferAgreement(ins: seq<Attr>, outs: seq<Attr>, none: Attr, nIn: int, nOut: int)
    requires OfKind(ins, KindOf(none)) && OfKind(outs, KindOf(none))
    ensures
      var u := Infer(ins, outs, none, nIn, nOut);
      && (u.outcome == Pass <==>
            ArityMatches(nIn, |ins|) && ArityMatches(nOut, |outs|) && Consistent(none, ins + outs))
      && (u.outcome == Pass ==>
            var d := FoldSlots(none, ins + outs).acc;
            && IsLeastUpperBound(d, none, ins + outs)
            && (forall i :: 0 <= i < |ins| ==> u.ins[i] == d)
            && (forall j :: 0 <= j < |outs| ==> u.outs[j] == d))
      && (u.outcome != Pass ==> u.ins == ins && u.outs == outs)
  {
    if ArityMatches(nIn, |ins|) && ArityMatches(nOut, |outs|) {
      assert ins[..|ins|] == ins && outs[..|outs|] == outs;
      ReverseInference(ins, outs, none, -1, -1);
    }
  }

  /** Element types have a common refinement exactly when all the known types
      among them are the same code. */
  lemma {:induction false} TypesConsistent(s: seq<Attr>)
    requires OfKind(s, TypeKind)
    ensures Consistent(TypeNone, s) <==>
      forall i, j :: 0 <= i < |s| && 0 <= j < |s| && !IsNone(s[i]) && !IsNone(s[j]) ==> s[i] == s[j]
  {
    if forall i, j :: 0 <= i < |s| && 0 <= j < |s| && !IsNone(s[i]) && !IsNone(s[j]) ==> s[i] == s[j] {
      if k :| 0 <= k < |s| && !IsNone(s[k]) {
        assert UpperBound(s[k], TypeNone, s);
      } else {
        assert UpperBound(TypeNone, TypeNone, s);
      }
    } else {
      var i, j :| 0 <= i < |s| && 0 <= j < |s| && !IsNone(s[i]) && !IsNone(s[j]) && s[i] != s[j];
      forall z | true
        ensures !UpperBound(z, TypeNone, s)
      {
        MemberBounded(z, TypeNone, s, s[i]);
        MemberBounded(z, TypeNone, s, s[j]);
      }
    }
  }

  /** Type inference passes exactly when the operand counts are accepted and
      all known types among the inputs and outputs agree. */
  lemma {:induction false} TypeAgreement(ins: seq<Attr>, outs: seq<Attr>, nIn: int, nOut: int)
    requires OfKind(ins, TypeKind) && OfKind(outs, TypeKind)
    ensures
      var s := ins + outs;
      Infer(ins, outs, TypeNone, nIn, nOut).outcome == Pass <==>
        && ArityMatches(nIn, |ins|) && ArityMatches(nOut, |outs|)
        && forall i, j :: 0 <= i < |s| && 0 <= j < |s| && !IsNone(s[i]) && !IsNone(s[j]) ==> s[i] == s[j]
  {
    InferAgreement(ins, outs, TypeNone, nIn, nOut);
    TypesConsistent(ins + outs);
  }

  /** Integer type inference that passes gives every operand the first
      input's type, which is an integer type. */
  lemma {:induction false} IntTypePropagates(ins: seq<Attr>, outs: seq<Attr>, nIn: int, nOut: int)
    requires OfKind(ins, TypeKind) && OfKind(outs, TypeKind)
    ensures
      var u := InferIntType(ins, outs, nIn, nOut);
      u.outcome == Pass ==>
        && |ins| > 0 && IsIntegerType(ins[0])
        && (forall i :: 0 <= i < |u.ins| ==> u.ins[i] == ins[0])
        && (forall j :: 0 <= j < |u.outs| ==> u.outs[j] == ins[0])
  {
    if |ins| > 0 && IsIntegerType(ins[0]) && ArityMatches(nIn, |ins|) && ArityMatches(nOut, |outs|) {
      assert ins[..|ins|] == ins && outs[..|outs|] == outs;
      assert ins[0] in ins + outs;
      KnownSeedDecides(ins, outs, TypeNone, -1, -1, ins[0]);
    }
  }

  /** The integer check on the first input comes before the operand count
      checks and before any merge: a non-integer first input fails the run
      whatever the counts, and leaves both lists as they were. */
  lemma {:induction false} IntTypeChecksFirst(ins: seq<Attr>, outs: seq<Attr>, nIn: int, nOut: int)
    requires OfKind(ins, TypeKind) && OfKind(outs, TypeKind)
    requires |ins| > 0 && !IsIntegerType(ins[0])
    ensures InferIntType(ins, outs, nIn, nOut) == Unified(Fail(NotIntegerType), ins, outs)
  {
  }
}
