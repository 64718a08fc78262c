/** The element-wise attribute unifier. It works out one attribute for all the
    counted input and output slots of an operator in two phases: a deduce phase
    folds the seed slots into an accumulator with the kind's merge rule, then a
    write phase merges the accumulator back into every counted slot, in place.
    Any merge that fails stops the run with a conflict naming the slot. */
module Unifier {
  import opened MergeRules

  datatype Role = Input | Output

  /** Why a run stopped. The helper reports the first two; the per-operator
      wrappers in module Elemwise add the others. */
  datatype Failure =
    | CountExceedsSize(role: Role)
    | Conflict(index: nat, role: Role, expected: Attr, got: Attr)
    | SizeMismatch(role: Role)
    | MissingInput
    | NotIntegerType

  datatype Outcome = Pass | Fail(failure: Failure)

  /** The accumulator after a fold: every slot merged, or stopped at slot `at`
      with the value the failed merge left in the accumulator. */
  datatype Fold = Folded(acc: Attr) | Stuck(at: nat, acc: Attr)

  /** The outcome of a run with the lists as it leaves them. */
  datatype Unified = Unified(outcome: Outcome, ins: seq<Attr>, outs: seq<Attr>)

  /** The number of leading slots that take part: an override of -1 means the
      whole list. */
  function EffectiveCount(n: int, size: nat): (c: int) {
    if n == -1 then size else n
  }

  /** The count check. A negative override other than -1 is converted to an
      unsigned size of at least 2^63, which no list reaches. */
  predicate CountFits(n: int, size: nat) {
    0 <= EffectiveCount(n, size) <= size
  }

  // ---------------------------------------------------------------------------
  // Specification of the two phases
  // ---------------------------------------------------------------------------

  /** Merges the slots of `s`, first to last, into the accumulator `acc`. */
  function FoldSlots(acc: Attr, s: seq<Attr>): (f: Fold)
    requires OfKind(s, KindOf(acc))
    ensures KindOf(f.acc) == KindOf(acc)
    ensures f.Stuck? ==> f.at < |s|
    decreases |s|
  {
    if |s| == 0 then Folded(acc)
    else
      var n := |s| - 1;
      match FoldSlots(acc, s[..n])
      case Stuck(k, a) => Stuck(k, a)
      case Folded(a) =>
        var m := Merge(a, s[n]);
        if m.ok then Folded(m.value) else Stuck(n, m.value)
  }

  /** Index of the first slot of `s` that does not accept `acc`, or `|s|`. */
  function FirstRejecting(acc: Attr, s: seq<Attr>): (k: nat)
    requires OfKind(s, KindOf(acc))
    ensures k <= |s|
    ensures forall i :: 0 <= i < k ==> Merge(s[i], acc).ok
    ensures k < |s| ==> !Merge(s[k], acc).ok
  {
    if |s| == 0 then 0
    else if !Merge(s[0], acc).ok then 0
    else 1 + FirstRejecting(acc, s[1..])
  }

  /** The list after `acc` was merged into slots `0..k` (slot `k` only when
      `k < n`), the rest left as they were. */
  function WrittenSlots(acc: Attr, s: seq<Attr>, n: nat, k: nat): (w: seq<Attr>)
    requires k <= n <= |s| && OfKind(s, KindOf(acc))
    ensures |w| == |s| && OfKind(w, KindOf(acc))
  {
    seq(|s|, i requires 0 <= i < |s| => if i < n && i <= k then Merge(s[i], acc).value else s[i])
  }

  /** The slots that seed the accumulator: the counted inputs, then the counted
      outputs when outputs may constrain inputs (reverse inference). */
  function Seeds(ins: seq<Attr>, outs: seq<Attr>, reverse: bool, ni: nat, no: nat): (s: seq<Attr>)
    requires ni <= |ins| && no <= |outs|
    ensures |s| == if reverse then ni + no else ni
  {
    ins[..ni] + if reverse then outs[..no] else []
  }

  lemma {:induction false} SeedsOfKind(ins: seq<Attr>, outs: seq<Attr>, reverse: bool, ni: nat, no: nat, k: Kind)
    requires ni <= |ins| && no <= |outs| && OfKind(ins, k) && OfKind(outs, k)
    ensures OfKind(Seeds(ins, outs, reverse, ni, no), k)
  {
    var s := Seeds(ins, outs, reverse, ni, no);
    forall i | 0 <= i < |s|
      ensures KindOf(s[i]) == k
    {
      if i < ni {
        assert s[i] == ins[i];
      } else {
        assert s[i] == outs[i - ni];
      }
    }
  }

  /** One run of the unifier over value lists: the count checks, the deduce
      phase over the seeds, then the writes into the counted inputs and the
      counted outputs. A conflict in the deduce phase at seed `k` is reported
      as input `k`, or as output `k - ni` when `k` lies among the outputs. */
  function Unify(ins: seq<Attr>, outs: seq<Attr>, none: Attr, reverse: bool, nIn: int, nOut: int): (u: Unified)
    requires OfKind(ins, KindOf(none)) && OfKind(outs, KindOf(none))
    ensures |u.ins| == |ins| && |u.outs| == |outs|
    ensures OfKind(u.ins, KindOf(none)) && OfKind(u.outs, KindOf(none))
  {
    var ni, no := EffectiveCount(nIn, |ins|), EffectiveCount(nOut, |outs|);
    if !CountFits(nIn, |ins|) then Unified(Fail(CountExceedsSize(Input)), ins, outs)
    else if !CountFits(nOut, |outs|) then Unified(Fail(CountExceedsSize(Output)), ins, outs)
    else
      var seeds := Seeds(ins, outs, reverse, ni, no);
      match FoldSlots(none, seeds)
      case Stuck(k, a) =>
        var c := if k < ni then Conflict(k, Input, a, ins[k])
                 else Conflict(k - ni, Output, a, outs[k - ni]);
        Unified(Fail(c), ins, outs)
      case Folded(d) => WriteBack(d, ins, outs, ni, no)
  }

  /** The write phase: `d` merged into the counted inputs, then into the
      counted outputs, stopping at the first slot that rejects it. */
  function WriteBack(d: Attr, ins: seq<Attr>, outs: seq<Attr>, ni: nat, no: nat): (u: Unified)
    requires ni <= |ins| && no <= |outs|
    requires OfKind(ins, KindOf(d)) && OfKind(outs, KindOf(d))
    ensures |u.ins| == |ins| && |u.outs| == |outs|
    ensures OfKind(u.ins, KindOf(d)) && OfKind(u.outs, KindOf(d))
  {
    var ki := FirstRejecting(d, ins[..ni]);
    var ins' := WrittenSlots(d, ins, ni, ki);
    if ki < ni then Unified(Fail(Conflict(ki, Input, d, ins'[ki])), ins', outs)
    else
      var ko := FirstRejecting(d, outs[..no]);
      var outs' := WrittenSlots(d, outs, no, ko);
      if ko < no then Unified(Fail(Conflict(ko, Output, d, outs'[ko])), ins', outs')
      else Unified(Pass, ins', outs')
  }

  // ---------------------------------------------------------------------------
  // The imperative unifier
  // ---------------------------------------------------------------------------

  /** The deduce phase over one list: merges its first `size` slots into the
      accumulator, stopping at the first merge that fails. */
  method Deduce(vec: array<Attr>, size: nat, dattr: Attr) returns (f: Fold)
    requires size <= vec.Length && OfKind(vec[..], KindOf(dattr))
    ensures f == FoldSlots(dattr, vec[..size])
  {
    var acc := dattr;
    var i := 0;
    while i < size
      invariant i <= size
      invariant FoldSlots(dattr, vec[..i]) == Folded(acc)
    {
      assert vec[..i + 1][..i] == vec[..i];
      var ok, next := Assign(acc, vec[i]);
      if !ok {
        assert vec[..size][..i + 1] == vec[..i + 1];
        assert FoldSlots(dattr, vec[..i + 1]) == Stuck(i, next);
        StuckPersists(dattr, vec[..size], i + 1);
        return Stuck(i, next);
      }
      acc := next;
      i := i + 1;
    }
    return Folded(acc);
  }

  /** The write phase over one list: merges the accumulator into its first
      `size` slots in place, stopping at the first slot that rejects it.
      Returns that slot's index, or `size`. */
  method Write(vec: array<Attr>, size: nat, dattr: Attr) returns (rejected: nat)
    requires size <= vec.Length && OfKind(vec[..], KindOf(dattr))
    modifies vec
    ensures rejected == FirstRejecting(dattr, old(vec[..size]))
    ensures vec[..] == WrittenSlots(dattr, old(vec[..]), size, rejected)
  {
    ghost var s := vec[..];
    ghost var k := FirstRejecting(dattr, s[..size]);
    var i := 0;
    while i < size
      invariant i <= k
      invariant forall j :: 0 <= j < i ==> vec[j] == Merge(s[j], dattr).value
      invariant forall j :: i <= j < vec.Length ==> vec[j] == s[j]
    {
      assert s[..size][i] == s[i];
      var ok, next := Assign(vec[i], dattr);
      vec[i] := next;
      if !ok {
        WrittenUpTo(dattr, s, size, i, vec[..]);
        return i;
      }
      i := i + 1;
    }
    WrittenUpTo(dattr, s, size, size, vec[..]);
    return size;
  }

  /** A list that holds merged slots up to and including `k` (below `n`) and
      the original slots after it is the written list. */
  lemma {:induction false} WrittenUpTo(d: Attr, s: seq<Attr>, n: nat, k: nat, w: seq<Attr>)
    requires k <= n <= |s| && OfKind(s, KindOf(d)) && |w| == |s|
    requires forall j :: 0 <= j < |s| && j < n && j <= k ==> w[j] == Merge(s[j], d).value
    requires forall j :: 0 <= j < |s| && !(j < n && j <= k) ==> w[j] == s[j]
    ensures w == WrittenSlots(d, s, n, k)
  {
  }

  /** The unifier. `none` starts the accumulator; `reverse` lets the outputs
      seed it too; `nIn` and `nOut` override the number of counted slots (-1
      for the whole list). */
  method ElemwiseAttrHelper(ins: array<Attr>, outs: array<Attr>, none: Attr, reverse: bool, nIn: int, nOut: int)
      returns (res: Outcome)
    requires ins != outs
    requires OfKind(ins[..], KindOf(none)) && OfKind(outs[..], KindOf(none))
    modifies ins, outs
    ensures Unify(old(ins[..]), old(outs[..]), none, reverse, nIn, nOut) == Unified(res, ins[..], outs[..])
  {
    ghost var ins0, outs0 := ins[..], outs[..];
    var dattr := none;
    var inSize, outSize := ins.Length, outs.Length;
    if nIn != -1 {
      inSize := nIn;
    }
    if nOut != -1 {
      outSize := nOut;
    }
    if !(0 <= inSize <= ins.Length) {
      return Fail(CountExceedsSize(Input));
    }
    if !(0 <= outSize <= outs.Length) {
      return Fail(CountExceedsSize(Output));
    }
    assert CountFits(nIn, |ins0|) && CountFits(nOut, |outs0|);
    assert inSize == EffectiveCount(nIn, |ins0|) && outSize == EffectiveCount(nOut, |outs0|);
    var f := DeducePhase(ins, outs, dattr, reverse, inSize, outSize);
    match f
    case Stuck(k, a) =>
      UnifyStuck(ins0, outs0, none, reverse, nIn, nOut);
      if k < inSize {
        return Fail(Conflict(k, Input, a, ins[k]));
      }
      return Fail(Conflict(k - inSize, Output, a, outs[k - inSize]));
    case Folded(d) =>
      UnifyFolded(ins0, outs0, none, reverse, nIn, nOut, d);
      res := WritePhase(ins, outs, d, inSize, outSize);
  }

  /** The deduce phase: the counted inputs, then the counted outputs when
      `reverse` is set, merged into `dattr`. A failure on an output is
      reported at its position among the seeds. */
  method DeducePhase(ins: array<Attr>, outs: array<Attr>, dattr: Attr, reverse: bool, inSize: nat, outSize: nat)
      returns (f: Fold)
    requires inSize <= ins.Length && outSize <= outs.Length
    requires OfKind(ins[..], KindOf(dattr)) && OfKind(outs[..], KindOf(dattr))
    ensures f == FoldSlots(dattr, Seeds(ins[..], outs[..], reverse, inSize, outSize))
  {
    ghost var seeds := Seeds(ins[..], outs[..], reverse, inSize, outSize);
    f := Deduce(ins, inSize, dattr);
    if f.Stuck? {
      assert seeds[..inSize] == ins[..inSize];
      StuckPersists(dattr, seeds, inSize);
      return;
    }
    if !reverse {
      assert seeds == ins[..inSize];
      return;
    }
    var g := Deduce(outs, outSize, f.acc);
    FoldAppend(dattr, ins[..inSize], outs[..outSize]);
    assert seeds == ins[..inSize] + outs[..outSize];
    if g.Stuck? {
      return Stuck(inSize + g.at, g.acc);
    }
    return g;
  }

  /** The write phase: the inputs, then the outputs, stopping at the first
      slot that rejects the deduced value. */
  method WritePhase(ins: array<Attr>, outs: array<Attr>, dattr: Attr, inSize: nat, outSize: nat)
      returns (res: Outcome)
    requires ins != outs
    requires inSize <= ins.Length && outSize <= outs.Length
    requires OfKind(ins[..], KindOf(dattr)) && OfKind(outs[..], KindOf(dattr))
    modifies ins, outs
    ensures WriteBack(dattr, old(ins[..]), old(outs[..]), inSize, outSize) == Unified(res, ins[..], outs[..])
  {
    var k := Write(ins, inSize, dattr);
    if k < inSize {
      return Fail(Conflict(k, Input, dattr, ins[k]));
    }
    k := Write(outs, outSize, dattr);
    if k < outSize {
      return Fail(Conflict(k, Output, dattr, outs[k]));
    }
    return Pass;
  }

  /** A run whose deduce phase succeeds is its write phase. */
  lemma {:induction false} UnifyFolded(ins: seq<Attr>, outs: seq<Attr>, none: Attr, reverse: bool, nIn: int, nOut: int, d: Attr)
    requires OfKind(ins, KindOf(none)) && OfKind(outs, KindOf(none))
    requires CountFits(nIn, |ins|) && CountFits(nOut, |outs|)
    requires FoldSlots(none, Seeds(ins, outs, reverse, EffectiveCount(nIn, |ins|), EffectiveCount(nOut, |outs|))) == Folded(d)
    ensures KindOf(d) == KindOf(none)
    ensures Unify(ins, outs, none, reverse, nIn, nOut) ==
      WriteBack(d, ins, outs, EffectiveCount(nIn, |ins|), EffectiveCount(nOut, |outs|))
  {
  }

  /** A run whose deduce phase gets stuck reports the seed it got stuck on,
      by role and by index within its own list, and changes nothing. */
  lemma {:induction false} UnifyStuck(ins: seq<Attr>, outs: seq<Attr>, none: Attr, reverse: bool, nIn: int, nOut: int)
    requires OfKind(ins, KindOf(none)) && OfKind(outs, KindOf(none))
    requires CountFits(nIn, |ins|) && CountFits(nOut, |outs|)
    requires FoldSlots(none, Seeds(ins, outs, reverse, EffectiveCount(nIn, |ins|), EffectiveCount(nOut, |outs|))).Stuck?
    ensures
      var ni := EffectiveCount(nIn, |ins|);
      var f := FoldSlots(none, Seeds(ins, outs, reverse, ni, EffectiveCount(nOut, |outs|)));
      Unify(ins, outs, none, reverse, nIn, nOut) ==
        Unified(Fail(if f.at < ni then Conflict(f.at, Input, f.acc, ins[f.at])
                     else Conflict(f.at - ni, Output, f.acc, outs[f.at - ni])), ins, outs)
  {
  }

  // ---------------------------------------------------------------------------
  // Properties of the fold
  // ---------------------------------------------------------------------------

  /** Once the fold is stuck on a prefix, it is stuck there on the whole list. */
  lemma {:induction false} StuckPersists(acc: Attr, s: seq<Attr>, j: nat)
    requires j <= |s| && OfKind(s, KindOf(acc))
    requires FoldSlots(acc, s[..j]).Stuck?
    ensures FoldSlots(acc, s) == FoldSlots(acc, s[..j])
    decreases |s| - j
  {
    if j < |s| {
      var n := |s| - 1;
      assert s[..n][..j] == s[..j];
      StuckPersists(acc, s[..n], j);
    } else {
      assert s[..j] == s;
    }
  }

  /** Folding a concatenation is folding the first part, then the second part
      from where the first left the accumulator. */
  lemma {:induction false} FoldAppend(acc: Attr, a: seq<Attr>, b: seq<Attr>)
    requires OfKind(a, KindOf(acc)) && OfKind(b, KindOf(acc))
    ensures FoldSlots(acc, a + b) ==
      match FoldSlots(acc, a)
      case Stuck(k, x) => Stuck(k, x)
      case Folded(d) =>
        match FoldSlots(d, b)
        case Stuck(k, x) => Stuck(|a| + k, x)
        case Folded(e) => Folded(e)
    decreases |b|
  {
    if |b| == 0 {
      assert a + b == a;
    } else {
      var n := |b| - 1;
      assert (a + b)[..|a + b| - 1] == a + b[..n];
      FoldAppend(acc, a, b[..n]);
    }
  }

  /** `z` refines the accumulator and every slot of `s`. */
  ghost predicate UpperBound(z: Attr, acc: Attr, s: seq<Attr>) {
    Refines(acc, z) && forall i :: 0 <= i < |s| ==> Refines(s[i], z)
  }

  /** Some attribute refines the accumulator and every slot of `s`. */
  ghost predicate Consistent(acc: Attr, s: seq<Attr>) {
    exists z :: UpperBound(z, acc, s)
  }

  ghost predicate IsLeastUpperBound(d: Attr, acc: Attr, s: seq<Attr>) {
    UpperBound(d, acc, s) && forall z :: UpperBound(z, acc, s) ==> Refines(d, z)
  }

  /** The fold finds the least upper bound of the accumulator and the slots,
      and gets stuck exactly at the first slot that leaves them without one. */
  lemma {:induction false} FoldIsJoin(acc: Attr, s: seq<Attr>)
    requires OfKind(s, KindOf(acc))
    ensures FoldSlots(acc, s).Folded? <==> Consistent(acc, s)
    ensures FoldSlots(acc, s).Folded? ==> IsLeastUpperBound(FoldSlots(acc, s).acc, acc, s)
    ensures FoldSlots(acc, s).Stuck? ==>
      var k := FoldSlots(acc, s).at;
      Consistent(acc, s[..k]) && !Consistent(acc, s[..k + 1])
    decreases |s|
  {
    if |s| == 0 {
      RefinesReflexive(acc);
      assert UpperBound(acc, acc, s);
    } else {
      var n := |s| - 1;
      FoldIsJoin(acc, s[..n]);
      if FoldSlots(acc, s[..n]).Stuck? {
        var k := FoldSlots(acc, s[..n]).at;
        PrefixOfPrefix(s, n, k);
        StuckPersists(acc, s, n);
        PrefixOfConsistent(acc, s, k + 1);
      } else {
        FoldStep(acc, s);
      }
    }
  }

  lemma {:induction false} PrefixOfPrefix(s: seq<Attr>, n: nat, k: nat)
    requires k < n <= |s|
    ensures s[..n][..k] == s[..k] && s[..n][..k + 1] == s[..k + 1]
  {
  }

  /** The inductive step of FoldIsJoin when the fold reached the last slot. */
  lemma {:induction false} FoldStep(acc: Attr, s: seq<Attr>)
    requires |s| > 0 && OfKind(s, KindOf(acc))
    requires var f := FoldSlots(acc, s[..|s| - 1]);
      f.Folded? && IsLeastUpperBound(f.acc, acc, s[..|s| - 1])
    ensures FoldSlots(acc, s).Folded? <==> Consistent(acc, s)
    ensures FoldSlots(acc, s).Folded? ==> IsLeastUpperBound(FoldSlots(acc, s).acc, acc, s)
    ensures FoldSlots(acc, s).Stuck? ==>
      var k := FoldSlots(acc, s).at;
      k == |s| - 1 && Consistent(acc, s[..k]) && !Consistent(acc, s[..k + 1])
  {
    var n := |s| - 1;
    assert s[..n + 1] == s;
    var s', x := s[..n], s[n];
    var a := FoldSlots(acc, s').acc;
    MergeIsJoin(a, x);
    assert s == s' + [x];
    if Merge(a, x).ok {
      JoinExtends(acc, s', a, x, Merge(a, x).value);
    } else {
      NoJoinBlocks(acc, s', a, x);
    }
  }

  /** Joining the least upper bound of a list with one more slot gives the
      least upper bound of the longer list. */
  lemma {:induction false} JoinExtends(acc: Attr, s: seq<Attr>, a: Attr, x: Attr, j: Attr)
    requires IsLeastUpperBound(a, acc, s) && IsJoin(j, a, x)
    ensures IsLeastUpperBound(j, acc, s + [x])
  {
    BoundsOfExtension(acc, s, x);
    forall i | 0 <= i < |s|
      ensures Refines(s[i], j)
    {
      RefinesTransitive(s[i], a, j);
    }
    RefinesTransitive(acc, a, j);
  }

  /** A slot that has no common refinement with the least upper bound of a
      list has none with the list either. */
  lemma {:induction false} NoJoinBlocks(acc: Attr, s: seq<Attr>, a: Attr, x: Attr)
    requires IsLeastUpperBound(a, acc, s)
    requires forall z :: !(Refines(a, z) && Refines(x, z))
    ensures Consistent(acc, s) && !Consistent(acc, s + [x])
  {
    BoundsOfExtension(acc, s, x);
  }

  /** The upper bounds of a list extended by one slot are the upper bounds of
      the list that also refine the slot. */
  lemma {:induction false} BoundsOfExtension(acc: Attr, s: seq<Attr>, x: Attr)
    ensures forall z :: UpperBound(z, acc, s + [x]) <==> UpperBound(z, acc, s) && Refines(x, z)
  {
    var t := s + [x];
    assert forall i :: 0 <= i < |s| ==> t[i] == s[i];
    assert t[|s|] == x;
  }

  /** Whatever bounds a list bounds each of its prefixes. */
  lemma {:induction false} PrefixOfConsistent(acc: Attr, s: seq<Attr>, j: nat)
    requires j <= |s|
    ensures Consistent(acc, s) ==> Consistent(acc, s[..j])
  {
    if Consistent(acc, s) {
      var z :| UpperBound(z, acc, s);
      assert UpperBound(z, acc, s[..j]);
    }
  }

  // ---------------------------------------------------------------------------
  // Properties of a run
  // ---------------------------------------------------------------------------

  /** Merging `d` into slots that it refines succeeds everywhere and leaves `d`
      in each of them. */
  lemma {:induction false} WriteIntoBound(d: Attr, s: seq<Attr>, n: nat)
    requires n <= |s| && OfKind(s, KindOf(d))
    requires forall i :: 0 <= i < n ==> Refines(s[i], d)
    ensures FirstRejecting(d, s[..n]) == n
    ensures WrittenSlots(d, s, n, n) == Resolved(s, n, d)
  {
    forall i | 0 <= i < n
      ensures Merge(s[i], d) == Assigned(true, d)
    {
      MergeIntoRefinement(s[i], d);
    }
    assert forall i :: 0 <= i < n ==> s[..n][i] == s[i];
  }

  /** `s` with its first `n` slots replaced by `d`. */
  function Resolved(s: seq<Attr>, n: nat, d: Attr): (r: seq<Attr>)
    requires n <= |s|
    ensures |r| == |s|
  {
    seq(|s|, i requires 0 <= i < |s| => if i < n then d else s[i])
  }

  /** The count checks come first and change nothing; a run that gets past them
      touches no slot beyond the counts. */
  lemma {:induction false} UnifyFrame(ins: seq<Attr>, outs: seq<Attr>, none: Attr, reverse: bool, nIn: int, nOut: int)
    requires OfKind(ins, KindOf(none)) && OfKind(outs, KindOf(none))
    ensures var u := Unify(ins, outs, none, reverse, nIn, nOut);
      && (u.outcome == Fail(CountExceedsSize(Input)) <==> !CountFits(nIn, |ins|))
      && (u.outcome == Fail(CountExceedsSize(Output)) <==> CountFits(nIn, |ins|) && !CountFits(nOut, |outs|))
      && (!CountFits(nIn, |ins|) || !CountFits(nOut, |outs|) ==> u.ins == ins && u.outs == outs)
    ensures CountFits(nIn, |ins|) && CountFits(nOut, |outs|) ==>
      var u := Unify(ins, outs, none, reverse, nIn, nOut);
      && (forall i :: EffectiveCount(nIn, |ins|) <= i < |ins| ==> u.ins[i] == ins[i])
      && (forall i :: EffectiveCount(nOut, |outs|) <= i < |outs| ==> u.outs[i] == outs[i])
  {
  }

  /** A run only ever adds information: every slot it leaves behind refines
      the slot it started from, whatever the outcome. */
  lemma {:induction false} UnifyOnlyRefines(ins: seq<Attr>, outs: seq<Attr>, none: Attr, reverse: bool, nIn: int, nOut: int)
    requires OfKind(ins, KindOf(none)) && OfKind(outs, KindOf(none))
    ensures var u := Unify(ins, outs, none, reverse, nIn, nOut);
      && (forall i :: 0 <= i < |ins| ==> Refines(ins[i], u.ins[i]))
      && (forall i :: 0 <= i < |outs| ==> Refines(outs[i], u.outs[i]))
  {
    forall i | 0 <= i < |ins| ensures KindOf(ins[i]) == KindOf(none) {}
    forall i | 0 <= i < |outs| ensures KindOf(outs[i]) == KindOf(none) {}
    if CountFits(nIn, |ins|) && CountFits(nOut, |outs|) {
      var ni, no := EffectiveCount(nIn, |ins|), EffectiveCount(nOut, |outs|);
      var f := FoldSlots(none, Seeds(ins, outs, reverse, ni, no));
      if f.Folded? {
        UnifyFolded(ins, outs, none, reverse, nIn, nOut, f.acc);
        WrittenRefines(f.acc, ins, ni, FirstRejecting(f.acc, ins[..ni]));
        WrittenRefines(f.acc, outs, no, FirstRejecting(f.acc, outs[..no]));
      } else {
        AllReflexive(ins);
        AllReflexive(outs);
      }
    } else {
      AllReflexive(ins);
      AllReflexive(outs);
    }
  }

  lemma {:induction false} WrittenRefines(d: Attr, s: seq<Attr>, n: nat, k: nat)
    requires k <= n <= |s| && OfKind(s, KindOf(d))
    ensures forall i :: 0 <= i < |s| ==> Refines(s[i], WrittenSlots(d, s, n, k)[i])
  {
    forall i | 0 <= i < |s|
      ensures Refines(s[i], WrittenSlots(d, s, n, k)[i])
    {
      if i < n && i <= k {
        MergeOnlyRefines(s[i], d);
      } else {
        RefinesReflexive(s[i]);
      }
    }
  }

  lemma {:induction false} AllReflexive(s: seq<Attr>)
    ensures forall i :: 0 <= i < |s| ==> Refines(s[i], s[i])
  {
    forall i | 0 <= i < |s| ensures Refines(s[i], s[i]) {
      RefinesReflexive(s[i]);
    }
  }

  /** The seeds of a reverse run, indexed by role. */
  lemma {:induction false} ReverseSeeds(ins: seq<Attr>, outs: seq<Attr>, ni: nat, no: nat)
    requires ni <= |ins| && no <= |outs|
    ensures var seeds := Seeds(ins, outs, true, ni, no);
      && |seeds| == ni + no
      && (forall i :: 0 <= i < ni ==> seeds[i] == ins[i])
      && (forall j :: 0 <= j < no ==> seeds[ni + j] == outs[j])
  {
  }

  /** Reverse inference: with the counts in range, a run passes exactly when
      the counted inputs and outputs have a common refinement, and then leaves
      their least upper bound in every counted slot; otherwise it reports a
      conflict and changes nothing. */
  lemma {:induction false} ReverseInference(ins: seq<Attr>, outs: seq<Attr>, none: Attr, nIn: int, nOut: int)
    requires OfKind(ins, KindOf(none)) && OfKind(outs, KindOf(none))
    requires CountFits(nIn, |ins|) && CountFits(nOut, |outs|)
    ensures
      var ni, no := EffectiveCount(nIn, |ins|), EffectiveCount(nOut, |outs|);
      var seeds := ins[..ni] + outs[..no];
      var u := Unify(ins, outs, none, true, nIn, nOut);
      && (u.outcome == Pass <==> Consistent(none, seeds))
      && (u.outcome == Pass ==>
            var d := FoldSlots(none, seeds).acc;
            && IsLeastUpperBound(d, none, seeds)
            && (forall i :: 0 <= i < ni ==> u.ins[i] == d)
            && (forall j :: 0 <= j < no ==> u.outs[j] == d))
      && (u.outcome != Pass ==> u.outcome.failure.Conflict? && u.ins == ins && u.outs == outs)
  {
    var ni, no := EffectiveCount(nIn, |ins|), EffectiveCount(nOut, |outs|);
    var seeds := ins[..ni] + outs[..no];
    assert seeds == Seeds(ins, outs, true, ni, no);
    FoldIsJoin(none, seeds);
    var f := FoldSlots(none, seeds);
    if f.Folded? {
      var d := f.acc;
      UnifyFolded(ins, outs, none, true, nIn, nOut, d);
      ReverseSeeds(ins, outs, ni, no);
      WriteIntoBound(d, ins, ni);
      WriteIntoBound(d, outs, no);
    } else {
      UnifyStuck(ins, outs, none, true, nIn, nOut);
    }
  }

  /** A conflict found in reverse mode names the first seed that leaves the
      seeds before it without a common refinement. */
  lemma {:induction false} ReverseConflictIsFirst(ins: seq<Attr>, outs: seq<Attr>, none: Attr, nIn: int, nOut: int)
    requires OfKind(ins, KindOf(none)) && OfKind(outs, KindOf(none))
    requires CountFits(nIn, |ins|) && CountFits(nOut, |outs|)
    ensures
      var ni, no := EffectiveCount(nIn, |ins|), EffectiveCount(nOut, |outs|);
      var u := Unify(ins, outs, none, true, nIn, nOut);
      && (u.outcome.Fail? && u.outcome.failure.Conflict? && u.outcome.failure.role == Input ==>
            var k := u.outcome.failure.index;
            k < ni && u.outcome.failure.got == ins[k] &&
            Consistent(none, ins[..k]) && !Consistent(none, ins[..k + 1]))
      && (u.outcome.Fail? && u.outcome.failure.Conflict? && u.outcome.failure.role == Output ==>
            var k := u.outcome.failure.index;
            k < no && u.outcome.failure.got == outs[k] &&
            Consistent(none, ins[..ni] + outs[..k]) && !Consistent(none, ins[..ni] + outs[..k + 1]))
  {
    var ni, no := EffectiveCount(nIn, |ins|), EffectiveCount(nOut, |outs|);
    var seeds := Seeds(ins, outs, true, ni, no);
    assert OfKind(seeds, KindOf(none)) by { SeedsOfKind(ins, outs, true, ni, no, KindOf(none)); }
    var f := FoldSlots(none, seeds);
    if f.Folded? {
      FoldedWriteBack(ins, outs, none, ni, no, f.acc);
      UnifyFolded(ins, outs, none, true, nIn, nOut, f.acc);
    } else {
      FoldIsJoin(none, seeds);
      UnifyStuck(ins, outs, none, true, nIn, nOut);
      SeedsPrefix(ins, outs, ni, no, f.at);
    }
  }

  /** How a prefix of the reverse-mode seeds splits into inputs and outputs. */
  lemma {:induction false} SeedsPrefix(ins: seq<Attr>, outs: seq<Attr>, ni: nat, no: nat, p: nat)
    requires ni <= |ins| && no <= |outs| && p < ni + no
    ensures
      var s := Seeds(ins, outs, true, ni, no);
      && (p < ni ==> s[..p] == ins[..p] && s[..p + 1] == ins[..p + 1])
      && (ni <= p ==> s[..p] == ins[..ni] + outs[..p - ni] && s[..p + 1] == ins[..ni] + outs[..p - ni + 1])
  {
    var s := Seeds(ins, outs, true, ni, no);
    if p < ni {
      assert s[..p] == ins[..p] && s[..p + 1] == ins[..p + 1];
    } else {
      assert s[..p] == ins[..ni] + outs[..p - ni];
      assert s[..p + 1] == ins[..ni] + outs[..p - ni + 1];
    }
  }

  /** Two counted slots with no common refinement make a reverse run fail. */
  lemma {:induction false} IncompatibleSlotsFail(ins: seq<Attr>, outs: seq<Attr>, none: Attr, nIn: int, nOut: int, a: Attr, b: Attr)
    requires OfKind(ins, KindOf(none)) && OfKind(outs, KindOf(none))
    requires CountFits(nIn, |ins|) && CountFits(nOut, |outs|)
    requires
      var ni, no := EffectiveCount(nIn, |ins|), EffectiveCount(nOut, |outs|);
      a in ins[..ni] + outs[..no] && b in ins[..ni] + outs[..no]
    requires forall z :: !(Refines(a, z) && Refines(b, z))
    ensures Unify(ins, outs, none, true, nIn, nOut).outcome.Fail?
  {
    var ni, no := EffectiveCount(nIn, |ins|), EffectiveCount(nOut, |outs|);
    var seeds := ins[..ni] + outs[..no];
    ReverseInference(ins, outs, none, nIn, nOut);
    forall z | true
      ensures !UpperBound(z, none, seeds)
    {
      MemberBounded(z, none, seeds, a);
      MemberBounded(z, none, seeds, b);
    }
  }

  lemma {:induction false} MemberBounded(z: Attr, acc: Attr, s: seq<Attr>, a: Attr)
    ensures UpperBound(z, acc, s) && a in s ==> Refines(a, z)
  {
    if a in s {
      var i :| 0 <= i < |s| && s[i] == a;
    }
  }

  /** A list has at most one least upper bound. */
  lemma {:induction false} LeastUpperBoundUnique(d1: Attr, d2: Attr, acc: Attr, s: seq<Attr>)
    requires IsLeastUpperBound(d1, acc, s) && IsLeastUpperBound(d2, acc, s)
    ensures d1 == d2
  {
    RefinesAntisymmetric(d1, d2);
  }

  /** Whatever bounds a list bounds every rearrangement of it. */
  lemma {:induction false} BoundsOfPermutation(z: Attr, acc: Attr, s: seq<Attr>, t: seq<Attr>)
    requires multiset(s) == multiset(t)
    ensures UpperBound(z, acc, s) ==> UpperBound(z, acc, t)
  {
    if UpperBound(z, acc, s) {
      forall j | 0 <= j < |t|
        ensures Refines(t[j], z)
      {
        assert t[j] in multiset(t);
        MemberBounded(z, acc, s, t[j]);
      }
    }
  }

  /** The order of the seeds does not matter: folding any rearrangement of
      them succeeds or fails alike and, on success, resolves the same value. */
  lemma {:induction false} FoldOrderIndependent(acc: Attr, s: seq<Attr>, t: seq<Attr>)
    requires OfKind(s, KindOf(acc)) && OfKind(t, KindOf(acc))
    requires multiset(s) == multiset(t)
    ensures FoldSlots(acc, s).Folded? <==> FoldSlots(acc, t).Folded?
    ensures FoldSlots(acc, s).Folded? ==> FoldSlots(acc, s).acc == FoldSlots(acc, t).acc
    ensures Consistent(acc, s) <==> Consistent(acc, t)
  {
    forall z | true
      ensures UpperBound(z, acc, s) <==> UpperBound(z, acc, t)
    {
      BoundsOfPermutation(z, acc, s, t);
      BoundsOfPermutation(z, acc, t, s);
    }
    FoldIsJoin(acc, s);
    FoldIsJoin(acc, t);
    if FoldSlots(acc, s).Folded? {
      LeastUpperBoundUnique(FoldSlots(acc, s).acc, FoldSlots(acc, t).acc, acc, t);
    }
  }

  /** Two reverse runs whose counted slots hold the same attributes in a
      different order agree on whether they pass and on the value they
      resolve. */
  lemma {:induction false} ReverseOrderIndependent(ins: seq<Attr>, outs: seq<Attr>, ins': seq<Attr>, outs': seq<Attr>, none: Attr,
                                nIn: int, nOut: int, nIn': int, nOut': int)
    requires OfKind(ins, KindOf(none)) && OfKind(outs, KindOf(none))
    requires OfKind(ins', KindOf(none)) && OfKind(outs', KindOf(none))
    requires CountFits(nIn, |ins|) && CountFits(nOut, |outs|)
    requires CountFits(nIn', |ins'|) && CountFits(nOut', |outs'|)
    requires
      multiset(ins[..EffectiveCount(nIn, |ins|)] + outs[..EffectiveCount(nOut, |outs|)]) ==
      multiset(ins'[..EffectiveCount(nIn', |ins'|)] + outs'[..EffectiveCount(nOut', |outs'|)])
    ensures
      var ni, no := EffectiveCount(nIn, |ins|), EffectiveCount(nOut, |outs|);
      var ni', no' := EffectiveCount(nIn', |ins'|), EffectiveCount(nOut', |outs'|);
      var u, u' := Unify(ins, outs, none, true, nIn, nOut), Unify(ins', outs', none, true, nIn', nOut');
      var d := FoldSlots(none, ins[..ni] + outs[..no]).acc;
      && (u.outcome == Pass <==> u'.outcome == Pass)
      && (u.outcome == Pass ==>
            && (forall i :: 0 <= i < ni ==> u.ins[i] == d)
            && (forall j :: 0 <= j < no ==> u.outs[j] == d)
            && (forall i :: 0 <= i < ni' ==> u'.ins[i] == d)
            && (forall j :: 0 <= j < no' ==> u'.outs[j] == d))
  {
    var ni, no := EffectiveCount(nIn, |ins|), EffectiveCount(nOut, |outs|);
    var ni', no' := EffectiveCount(nIn', |ins'|), EffectiveCount(nOut', |outs'|);
    var seeds, seeds' := ins[..ni] + outs[..no], ins'[..ni'] + outs'[..no'];
    assert OfKind(seeds, KindOf(none)) by { SeedsOfKind(ins, outs, true, ni, no, KindOf(none)); }
    assert OfKind(seeds', KindOf(none)) by { SeedsOfKind(ins', outs', true, ni', no', KindOf(none)); }
    FoldOrderIndependent(none, seeds, seeds');
    ReverseInference(ins, outs, none, nIn, nOut);
    ReverseInference(ins', outs', none, nIn', nOut');
  }

  /** A counted slot that is already fully known decides the run: if it
      passes, every counted slot ends up equal to that slot. */
  lemma {:induction false} KnownSeedDecides(ins: seq<Attr>, outs: seq<Attr>, none: Attr, nIn: int, nOut: int, a: Attr)
    requires OfKind(ins, KindOf(none)) && OfKind(outs, KindOf(none))
    requires CountFits(nIn, |ins|) && CountFits(nOut, |outs|)
    requires a in ins[..EffectiveCount(nIn, |ins|)] + outs[..EffectiveCount(nOut, |outs|)] && !IsNone(a)
    ensures
      var u := Unify(ins, outs, none, true, nIn, nOut);
      u.outcome == Pass ==>
        && (forall i :: 0 <= i < EffectiveCount(nIn, |ins|) ==> u.ins[i] == a)
        && (forall j :: 0 <= j < EffectiveCount(nOut, |outs|) ==> u.outs[j] == a)
  {
    var seeds := ins[..EffectiveCount(nIn, |ins|)] + outs[..EffectiveCount(nOut, |outs|)];
    ReverseInference(ins, outs, none, nIn, nOut);
    var d := FoldSlots(none, seeds).acc;
    MemberBounded(d, none, seeds, a);
    NoneIffNotMaximal(a);
    assert Refines(a, d) ==> d == a;
  }

  /** A reverse run whose seeds fold to `d` passes and leaves `d` in every
      counted slot, the others as they were. */
  lemma {:induction false} ReverseResolves(ins: seq<Attr>, outs: seq<Attr>, none: Attr, nIn: int, nOut: int, d: Attr)
    requires OfKind(ins, KindOf(none)) && OfKind(outs, KindOf(none))
    requires CountFits(nIn, |ins|) && CountFits(nOut, |outs|)
    requires
      var ni, no := EffectiveCount(nIn, |ins|), EffectiveCount(nOut, |outs|);
      FoldSlots(none, Seeds(ins, outs, true, ni, no)) == Folded(d)
    ensures
      var ni, no := EffectiveCount(nIn, |ins|), EffectiveCount(nOut, |outs|);
      Unify(ins, outs, none, true, nIn, nOut) == Unified(Pass, Resolved(ins, ni, d), Resolved(outs, no, d))
  {
    var ni, no := EffectiveCount(nIn, |ins|), EffectiveCount(nOut, |outs|);
    var w := Unified(Pass, Resolved(ins, ni, d), Resolved(outs, no, d));
    FoldedWriteBack(ins, outs, none, ni, no, d);
    UnifyFolded(ins, outs, none, true, nIn, nOut, d);
    assert Unify(ins, outs, none, true, nIn, nOut) == WriteBack(d, ins, outs, ni, no);
    assert WriteBack(d, ins, outs, ni, no) == w;
  }

  /** The write phase of a reverse run whose deduce phase completed passes and
      leaves the fold's result in every counted slot. */
  lemma {:induction false} FoldedWriteBack(ins: seq<Attr>, outs: seq<Attr>, none: Attr, ni: nat, no: nat, d: Attr)
    requires OfKind(ins, KindOf(none)) && OfKind(outs, KindOf(none))
    requires ni <= |ins| && no <= |outs|
    requires FoldSlots(none, Seeds(ins, outs, true, ni, no)) == Folded(d)
    ensures KindOf(d) == KindOf(none)
    ensures WriteBack(d, ins, outs, ni, no) == Unified(Pass, Resolved(ins, ni, d), Resolved(outs, no, d))
  {
    SeedsOfKind(ins, outs, true, ni, no, KindOf(none));
    FoldedIsBound(none, Seeds(ins, outs, true, ni, no), d);
    SeedsAcceptBound(ins, outs, none, ni, no, d);
  }

  /** Once every counted slot holds the result of a completed fold, folding
      the counted slots again completes with that same result. */
  lemma {:induction false} CopiesRefold(ins: seq<Attr>, outs: seq<Attr>, none: Attr, ni: nat, no: nat, d: Attr)
    requires ni <= |ins| && no <= |outs|
    requires OfKind(ins, KindOf(none)) && OfKind(outs, KindOf(none))
    requires Refines(none, d)
    requires forall i :: 0 <= i < ni ==> ins[i] == d
    requires forall j :: 0 <= j < no ==> outs[j] == d
    requires ni + no == 0 ==> d == none
    ensures FoldSlots(none, Seeds(ins, outs, true, ni, no)) == Folded(d)
  {
    var s := Seeds(ins, outs, true, ni, no);
    SeedsOfKind(ins, outs, true, ni, no, KindOf(none));
    ReverseSeeds(ins, outs, ni, no);
    forall i | 0 <= i < |s|
      ensures s[i] == d
    {
      if i >= ni {
        assert s[ni + (i - ni)] == outs[i - ni];
      }
    }
    FoldOfCopies(none, s, d);
  }

  /** A completed fold ends on a refinement of where it started, of the same
      kind, and an empty fold ends where it started. */
  lemma {:induction false} FoldedRefines(acc: Attr, s: seq<Attr>, d: Attr)
    requires OfKind(s, KindOf(acc)) && FoldSlots(acc, s) == Folded(d)
    ensures Refines(acc, d) && KindOf(d) == KindOf(acc)
    ensures |s| == 0 ==> d == acc
  {
    FoldedIsBound(acc, s, d);
  }

  /** What a completed fold leaves in the accumulator refines every slot. */
  lemma {:induction false} FoldedIsBound(acc: Attr, s: seq<Attr>, d: Attr)
    requires OfKind(s, KindOf(acc)) && FoldSlots(acc, s) == Folded(d)
    ensures UpperBound(d, acc, s) && KindOf(d) == KindOf(acc)
  {
    FoldIsJoin(acc, s);
  }

  /** An upper bound of the seeds of a reverse run is accepted by every counted
      slot: the write phase passes and leaves it in each of them. */
  lemma {:induction false} SeedsAcceptBound(ins: seq<Attr>, outs: seq<Attr>, none: Attr, ni: nat, no: nat, d: Attr)
    requires ni <= |ins| && no <= |outs|
    requires OfKind(ins, KindOf(none)) && OfKind(outs, KindOf(none)) && KindOf(d) == KindOf(none)
    requires UpperBound(d, none, Seeds(ins, outs, true, ni, no))
    ensures WriteBack(d, ins, outs, ni, no) == Unified(Pass, Resolved(ins, ni, d), Resolved(outs, no, d))
  {
    var seeds := Seeds(ins, outs, true, ni, no);
    ReverseSeeds(ins, outs, ni, no);
    forall i | 0 <= i < ni
      ensures Refines(ins[i], d)
    {
      assert seeds[i] == ins[i];
    }
    forall j | 0 <= j < no
      ensures Refines(outs[j], d)
    {
      assert seeds[ni + j] == outs[j];
    }
    WriteIntoBound(d, ins, ni);
    WriteIntoBound(d, outs, no);
    WriteBackPasses(d, ins, outs, ni, no);
  }

  /** A write phase in which no slot rejects the accumulator passes. */
  lemma {:induction false} WriteBackPasses(d: Attr, ins: seq<Attr>, outs: seq<Attr>, ni: nat, no: nat)
    requires ni <= |ins| && no <= |outs|
    requires OfKind(ins, KindOf(d)) && OfKind(outs, KindOf(d))
    requires FirstRejecting(d, ins[..ni]) == ni && FirstRejecting(d, outs[..no]) == no
    ensures WriteBack(d, ins, outs, ni, no) == Unified(Pass, WrittenSlots(d, ins, ni, ni), WrittenSlots(d, outs, no, no))
  {
  }

  /** Folding copies of a refinement `d` of the accumulator gives `d`. */
  lemma {:induction false} FoldOfCopies(acc: Attr, s: seq<Attr>, d: Attr)
    requires Refines(acc, d) && OfKind(s, KindOf(acc))
    requires forall i :: 0 <= i < |s| ==> s[i] == d
    requires |s| == 0 ==> d == acc
    ensures FoldSlots(acc, s) == Folded(d)
    decreases |s|
  {
    if |s| > 0 {
      var n := |s| - 1;
      if n == 0 {
        assert FoldSlots(acc, s[..n]) == Folded(acc);
        MergeIntoRefinement(acc, d);
      } else {
        FoldOfCopies(acc, s[..n], d);
        RefinesReflexive(d);
        MergeIntoRefinement(d, d);
      }
    }
  }

  /** Lists a reverse run has resolved to the result `d` of its deduce phase
      are left as they are by a second run. */
  lemma {:induction false} ResolvedIsFixed(ins: seq<Attr>, outs: seq<Attr>, none: Attr, nIn: int, nOut: int, d: Attr)
    requires OfKind(ins, KindOf(none)) && OfKind(outs, KindOf(none))
    requires CountFits(nIn, |ins|) && CountFits(nOut, |outs|)
    requires
      var ni, no := EffectiveCount(nIn, |ins|), EffectiveCount(nOut, |outs|);
      FoldSlots(none, Seeds(ins, outs, true, ni, no)) == Folded(d)
    ensures
      var u := Unify(ins, outs, none, true, nIn, nOut);
      Unify(u.ins, u.outs, none, true, nIn, nOut) == u
  {
    var ni, no := EffectiveCount(nIn, |ins|), EffectiveCount(nOut, |outs|);
    var ins', outs' := Resolved(ins, ni, d), Resolved(outs, no, d);
    var w := Unified(Pass, ins', outs');
    ReverseResolves(ins, outs, none, nIn, nOut, d);
    assert Unify(ins, outs, none, true, nIn, nOut) == w;
    assert Refines(none, d) && (ni + no == 0 ==> d == none) by {
      SeedsOfKind(ins, outs, true, ni, no, KindOf(none));
      FoldedRefines(none, Seeds(ins, outs, true, ni, no), d);
    }
    CopiesRefold(ins', outs', none, ni, no, d);
    ReverseResolves(ins', outs', none, nIn, nOut, d);
    ResolvedTwice(ins, ni, d);
    ResolvedTwice(outs, no, d);
    assert Unify(ins', outs', none, true, nIn, nOut) == w;
  }

  /** Resolving the same slots to the same value a second time changes nothing. */
  lemma {:induction false} ResolvedTwice(s: seq<Attr>, n: nat, d: Attr)
    requires n <= |s|
    ensures Resolved(Resolved(s, n, d), n, d) == Resolved(s, n, d)
  {
  }

  /** Running reverse inference again on the lists a passing run left behind
      passes and changes nothing. */
  lemma {:induction false} ReverseIdempotent(ins: seq<Attr>, outs: seq<Attr>, none: Attr, nIn: int, nOut: int)
    requires OfKind(ins, KindOf(none)) && OfKind(outs, KindOf(none))
    requires CountFits(nIn, |ins|) && CountFits(nOut, |outs|)
    ensures
      var u := Unify(ins, outs, none, true, nIn, nOut);
      u.outcome == Pass ==> Unify(u.ins, u.outs, none, true, nIn, nOut) == u
  {
    var ni, no := EffectiveCount(nIn, |ins|), EffectiveCount(nOut, |outs|);
    match FoldSlots(none, Seeds(ins, outs, true, ni, no))
    case Stuck(_, _) => UnifyStuck(ins, outs, none, true, nIn, nOut);
    case Folded(d) => ResolvedIsFixed(ins, outs, none, nIn, nOut, d);
  }
}
