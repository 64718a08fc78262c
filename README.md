# Element-wise attribute inference for the MXNet dummy operator

This project models the shape and type inference of the MXNet plugin operator
in `nvtx_plugins/cc/mxnet/dummy_op.cc`. An element-wise operator needs one
shape and one element type shared by all of its inputs and outputs. The
inference functions work these out from whatever is already known about each
operand. They fill in unknown operands, and they fail when two operands
disagree.

The model has three layers, one module each:

- `MergeRules` (`merge_rules.dfy`) holds the two merge rules.
  - `shape_assign` is the method `ShapeAssign`. Like the source, it loops over the dimensions and returns at the first clash. It is proved equal to the function `ShapeMerge`.
  - `type_assign` is the function `TypeAssign`.
  - `type_string` and the "is none" predicates are also here.
  - An information order `Refines` is defined: unknown rank, unknown sizes and the unknown type `-1` are refined by anything more specific. A merge that succeeds gives the least upper bound of its two arguments. A merge that fails means the two have no common refinement.
- `Unifier` (`unifier.dfy`) holds `ElemwiseAttrHelper`. It is an imperative method over two arrays of slots, with a deduce loop (`Deduce`) and a write loop (`Write`).
  - Its result and final array contents are proved equal to the function `Unify` applied to the initial contents.
  - `Unify`'s meaning is proved as lemmas. The deduce phase computes the least upper bound of the seed slots. In reverse mode, a run passes exactly when the counted slots are consistent, and it then leaves their least upper bound in every one of them. Conflicts are reported at the first slot that breaks consistency. The seed order does not matter. A second run changes nothing.
- `Elemwise` (`elemwise.dfy`) holds `ElemwiseShape`, `ElemwiseType` and `ElemwiseIntType`. Each does its arity checks and then runs the unifier in reverse mode.
- `Scenarios` (`scenarios.dfy`) works through small concrete runs.

The C++ template parameter `AttrType` becomes the datatype `Attr`, which holds either a shape or a type code. The unifier requires `none` and every slot to have the same kind, which is what C++'s static typing guarantees. A failed `CHECK` becomes a `Failure` value. For a conflict it carries the slot index, the role (input or output), the accumulator after the failed merge (the "expected" value) and the slot after the failed merge (the "got" value). Writes made before a failure are kept, as they are in the vectors when the C++ check throws.

Type codes follow mshadow:

| Code | Type |
|---|---|
| -1 | unknown |
| 0 | float32 |
| 1 | float64 |
| 2 | float16 |
| 3 | uint8 |
| 4 | int32 |
| 5 | int8 |
| 6 | int64 |
| 7 | bool |

A default-constructed `TShape` is the shape of unknown rank.

The count overrides `n_in` and `n_out` are converted with `static_cast<size_t>`. A negative value other than -1 therefore becomes a size of at least 2^63, and no list reaches that size. The model states this directly: an override must be -1 or a count in `0..size`, and the arity check needs `n == -1` or `n == size`.

`ElemwiseAttr` (lines 120-132) only passes the node name through to `ElemwiseAttrHelper`. The node name appears only in error text, so `ElemwiseAttrHelper` models both.

`ElemwiseShape` and `ElemwiseType` call `ElemwiseAttr` with its default counts of -1, whatever their own `n_in` and `n_out` are. Their own counts only drive the arity checks. The model follows this and calls the helper with -1 and -1.

A conflict names the operand slot and its role, not a dimension: [2, 3] against [3, 2] fails at output slot 0 in the deduce phase, with [2, 3] expected and [3, 2] got (`Scenarios.TransposedShapesConflict`).

## Model

| member | source | states |
|---|---|---|
| MergeRules.ShapeMergeCases | nvtx_plugins/cc/mxnet/dummy_op.cc:9-25 | Target of unknown rank: succeeds and becomes `x`. Known ranks that differ: fails, target unchanged. `x` of unknown rank: succeeds, target unchanged. Equal rank: succeeds iff no position has a known target size, a known `x` size, and the two differ; known target sizes are kept; on success every unknown size takes `x`'s. |
| MergeRules.ShapeAssign | nvtx_plugins/cc/mxnet/dummy_op.cc:9-25 | The in-place size loop with early return gives exactly `ShapeMerge`'s success flag and new target, including the partly filled target left by a clash. |
| MergeRules.TypeString | nvtx_plugins/cc/mxnet/dummy_op.cc:27-45 | The name is "unknown" exactly for codes outside the seven named ones, so -1 and bool are "unknown". |
| MergeRules.TypeNamesDistinct | nvtx_plugins/cc/mxnet/dummy_op.cc:27-45 | Distinct named codes have distinct names. |
| MergeRules.TypeAssign | nvtx_plugins/cc/mxnet/dummy_op.cc:47-55 | An unknown target always succeeds and takes `x`. Otherwise it succeeds iff `x` is unknown or equal to the target. A known target never changes. |
| MergeRules.Merge | nvtx_plugins/cc/mxnet/dummy_op.cc:71-72 | The `assign` template parameter: the merge rule of the slots' kind; the kind is preserved. |
| MergeRules.Assign | nvtx_plugins/cc/mxnet/dummy_op.cc:71-72 | Running the kind's merge rule (the shape loop for shapes) gives `Merge`'s flag and value. |
| MergeRules.MergeIsJoin | nvtx_plugins/cc/mxnet/dummy_op.cc:9-55 | A successful merge yields the least upper bound of target and `x`. A failed merge means no attribute refines both. |
| MergeRules.MergeIntoRefinement | nvtx_plugins/cc/mxnet/dummy_op.cc:9-55 | Merging a value that refines the target succeeds and leaves that value. |
| MergeRules.MergeOnlyRefines | nvtx_plugins/cc/mxnet/dummy_op.cc:9-55 | The target after a merge, failed or not, refines the target before it. |
| MergeRules.NoneIffNotMaximal | nvtx_plugins/cc/mxnet/dummy_op.cc:63-69 | `shape_is_none` / `type_is_none` hold exactly when a strictly more specific attribute exists. |
| Unifier.FoldSlots | nvtx_plugins/cc/mxnet/dummy_op.cc:91-98 | Folding slots into the accumulator keeps its kind; a failure names a slot of the list. |
| Unifier.FirstRejecting | nvtx_plugins/cc/mxnet/dummy_op.cc:100-107 | The index returned is the first slot whose merge with the accumulator fails; every slot before it accepts it. |
| Unifier.Unify | nvtx_plugins/cc/mxnet/dummy_op.cc:71-117 | A run keeps both lists' lengths and the slots' kind. |
| Unifier.WriteBack | nvtx_plugins/cc/mxnet/dummy_op.cc:113-114 | The write phase keeps both lists' lengths and the slots' kind. |
| Unifier.Deduce | nvtx_plugins/cc/mxnet/dummy_op.cc:91-98 | The deduce loop returns the fold of the first `size` slots: the final accumulator, or the first failing slot with the accumulator after the failed merge. |
| Unifier.Write | nvtx_plugins/cc/mxnet/dummy_op.cc:100-107 | The write loop returns the first rejecting slot (or `size`). The array afterwards has the accumulator merged into every slot up to and including that one, and the rest untouched. |
| Unifier.ElemwiseAttrHelper | nvtx_plugins/cc/mxnet/dummy_op.cc:71-117 | The outcome and the final contents of both arrays are `Unify` of the initial contents: count checks, deduce over inputs (then outputs in reverse mode), write into inputs, then outputs. |
| Unifier.DeducePhase | nvtx_plugins/cc/mxnet/dummy_op.cc:109-111 | Deducing over the inputs, then the outputs when reverse, is the fold over their concatenation. |
| Unifier.WritePhase | nvtx_plugins/cc/mxnet/dummy_op.cc:113-114 | Writing inputs then outputs yields `WriteBack`'s outcome and lists. |
| Unifier.UnifyFolded | nvtx_plugins/cc/mxnet/dummy_op.cc:109-114 | A run whose deduce phase completes is its write phase. |
| Unifier.UnifyStuck | nvtx_plugins/cc/mxnet/dummy_op.cc:91-111 | A deduce failure is reported as an input index, or as an output index when it lies among the outputs, and changes no slot. |
| Unifier.StuckPersists | nvtx_plugins/cc/mxnet/dummy_op.cc:91-98 | The first deduce failure on a prefix is the failure on the whole list. |
| Unifier.FoldAppend | nvtx_plugins/cc/mxnet/dummy_op.cc:109-111 | Deducing over two lists in turn equals deducing over their concatenation, with output indices shifted by the input count. |
| Unifier.FoldIsJoin | nvtx_plugins/cc/mxnet/dummy_op.cc:91-98 | The deduce phase succeeds iff the seeds have a common refinement. It then yields their least upper bound. Otherwise it stops at the first slot that makes them inconsistent. |
| Unifier.UnifyFrame | nvtx_plugins/cc/mxnet/dummy_op.cc:79-107 | Count failures come first, in input-then-output order, and change nothing. Slots at or beyond the effective counts are never changed. |
| Unifier.UnifyOnlyRefines | nvtx_plugins/cc/mxnet/dummy_op.cc:100-107 | Every slot after a run refines the slot before it, whatever the outcome. |
| Unifier.ReverseInference | nvtx_plugins/cc/mxnet/dummy_op.cc:109-114 | In reverse mode with the counts in range, a run passes iff the counted slots are consistent. It then leaves their least upper bound in every counted input and output. A failure is a conflict that changes nothing. |
| Unifier.ReverseConflictIsFirst | nvtx_plugins/cc/mxnet/dummy_op.cc:91-111 | A reported conflict names the first counted slot (inputs before outputs) that makes the seeds inconsistent, and carries that slot's value. |
| Unifier.IncompatibleSlotsFail | nvtx_plugins/cc/mxnet/dummy_op.cc:91-111 | Two counted slots with no common refinement make a reverse run fail. |
| Unifier.FoldOrderIndependent | nvtx_plugins/cc/mxnet/dummy_op.cc:91-98 | Any reordering of the seeds succeeds or fails alike and resolves the same value. |
| Unifier.ReverseOrderIndependent | nvtx_plugins/cc/mxnet/dummy_op.cc:109-114 | Reverse runs whose counted slots are rearrangements of each other agree on passing. On a pass, every counted input and output of both runs holds the same value: the fold of the first run's seeds. |
| Unifier.KnownSeedDecides | nvtx_plugins/cc/mxnet/dummy_op.cc:109-114 | A fully known counted slot decides the run: on a pass every counted slot equals it. |
| Unifier.FoldedIsBound | nvtx_plugins/cc/mxnet/dummy_op.cc:91-98 | A completed deduce phase leaves an accumulator that refines the starting value and every seed, with the same kind. |
| Unifier.FoldedRefines | nvtx_plugins/cc/mxnet/dummy_op.cc:91-98 | A completed deduce phase ends on a refinement of `none`, and over no seeds it ends on `none` itself. |
| Unifier.SeedsAcceptBound | nvtx_plugins/cc/mxnet/dummy_op.cc:100-114 | Every counted slot accepts a common refinement of the reverse-mode seeds. The write phase then passes and leaves that value in each counted slot and the other slots as they were. |
| Unifier.FoldedWriteBack | nvtx_plugins/cc/mxnet/dummy_op.cc:109-114 | After a completed reverse-mode deduce phase, the write phase passes and leaves the deduced value in every counted slot. |
| Unifier.ReverseResolves | nvtx_plugins/cc/mxnet/dummy_op.cc:79-117 | A reverse run whose seeds fold to `d` passes. Every counted input and output then holds `d`, and the uncounted slots are unchanged. |
| Unifier.FoldOfCopies | nvtx_plugins/cc/mxnet/dummy_op.cc:91-98 | Deducing over copies of a refinement `d` of the accumulator ends on `d`. |
| Unifier.CopiesRefold | nvtx_plugins/cc/mxnet/dummy_op.cc:109-111 | When every counted slot already holds the deduced value, a second deduce phase completes on that same value. |
| Unifier.ResolvedIsFixed | nvtx_plugins/cc/mxnet/dummy_op.cc:79-117 | Running reverse inference again on the lists a completed run left gives back exactly that result. |
| Unifier.ReverseIdempotent | nvtx_plugins/cc/mxnet/dummy_op.cc:109-114 | Re-running reverse inference on the result of a passing run passes and changes nothing. |
| Elemwise.ElemwiseShape | nvtx_plugins/cc/mxnet/dummy_op.cc:134-146 | An input count other than -1 that differs from the list size fails first, then the same for outputs. Otherwise it is the reverse-mode unifier over all slots from the unknown-rank shape. |
| Elemwise.ElemwiseType | nvtx_plugins/cc/mxnet/dummy_op.cc:148-160 | The same arity checks, then the reverse-mode unifier over all slots from type -1. |
| Elemwise.ElemwiseIntType | nvtx_plugins/cc/mxnet/dummy_op.cc:163-180 | A missing first input fails. A first input that is not int64/int32/int8/uint8/bool fails before anything else. Otherwise it is type inference. |
| Elemwise.InferAgreement | nvtx_plugins/cc/mxnet/dummy_op.cc:134-160 | Shape or type inference passes iff the arities are accepted and all operands are consistent. Then every operand holds their least upper bound. A failure changes nothing. |
| Elemwise.TypesConsistent | nvtx_plugins/cc/mxnet/dummy_op.cc:47-55 | Types are consistent iff all known codes among them are equal. |
| Elemwise.TypeAgreement | nvtx_plugins/cc/mxnet/dummy_op.cc:148-160 | Type inference passes iff the arities are accepted and all known types among inputs and outputs agree. |
| Elemwise.IntTypePropagates | nvtx_plugins/cc/mxnet/dummy_op.cc:163-180 | A passing integer type inference had an integer first input and gives every operand its type. |
| Elemwise.IntTypeChecksFirst | nvtx_plugins/cc/mxnet/dummy_op.cc:167-177 | A non-integer first input fails whatever the arities, with both lists unchanged. |
| Scenarios.PartialShapesResolve | nvtx_plugins/cc/mxnet/dummy_op.cc:134-146 | Inputs [2,3], [?,3] and output [?,?] all resolve to [2,3]. |
| Scenarios.UnknownTypeResolves | nvtx_plugins/cc/mxnet/dummy_op.cc:148-160 | Inputs float32, unknown and output float32 all resolve to float32. |
| Scenarios.MixedTypesConflict | nvtx_plugins/cc/mxnet/dummy_op.cc:91-98 | Inputs float32, int32 fail at input 1, expected float32, got int32, with nothing written. |
| Scenarios.TransposedShapesConflict | nvtx_plugins/cc/mxnet/dummy_op.cc:109-111 | Input [2,3] against output [3,2] fails at output 0 in the deduce phase. |
| Scenarios.FloatRejectedAsInteger | nvtx_plugins/cc/mxnet/dummy_op.cc:167-171 | Integer type inference rejects a float32 first input. |
| Scenarios.WrongArityRejected | nvtx_plugins/cc/mxnet/dummy_op.cc:152-157 | A fixed input count of 2 rejects a single input. |

## Left out

- `AbsOpForward` (lines 182-198): a floating-point `fabs` kernel over raw tensor pointers. Its loop condition `i > n` means its body never runs.
- Operator registration and the in-place option lambda (lines 201-212): these are host-framework registration with global state.
- `shape_string` (lines 57-61): it formats through mxnet's stream operator for `TShape`, which is not part of this model. Conflicts carry the two attribute values instead of their text.
- Error message text and the node name: failures are values naming the kind of failure, the slot index and the role.
- The mxnet `TShape` internals (`ndim_is_known`, `dim_size_is_known`, `shape_is_known`): these are modelled by their sentinel conventions (rank unknown, size -1).
- The Python loaders in `nvtx_plugins/python`: they only load shared libraries.
- Aliasing of the two lists: the unifier requires the input and output arrays to be distinct objects, as they are in the framework.
- Exceptions: a failed `CHECK` throws in C++. Here it returns a `Failure` with the lists as the throw leaves them. `at()` on an empty input list in `ElemwiseIntType` is the failure `MissingInput`.
- Fixed-width integers: dimension sizes are unbounded integers of at least -1. `index_t` and `size_t` widths only matter for the count cast, which is described above.
- Forward mode: the wrappers always run the unifier in reverse mode. For forward mode (reverse off), only the general lemmas are proved (`Unify` itself, `UnifyFrame` and `UnifyOnlyRefines`), not the reverse-mode characterisation.
