# pydiag block ensembles in Dafny

This project models the block-ensemble core of pydiag. An **ensemble** partitions a
dataset into labelled blocks. Each block has a key, which is a tuple of strings with one
label per axis, and an integer degeneracy. The containers hold one datum per block of
an ensemble:

- `Array` and `EnsembleArray` hold one n-d array per block, and all arrays have the same
  number of axes.
- `Scalar` and `EnsembleScalar` hold one value per block, or `None`.
- `EnsembleTriDiag` holds one symmetric tridiagonal matrix per block, stored as its
  diagonal and its off-diagonal.

The free functions of `algebra.py`, `ensemble_array.py` and `ensemble_algebra.py` lift
numpy and scipy routines to these containers, one block at a time.

Python's exceptions become the `Results.Error` values of a `Result`. The Python objects
an operation may receive become the `Containers.Obj` sum type. Insertion-ordered
dictionaries (`OrderedDict`) become `OrderedDicts.ODict`. The numpy routines the core
calls are either modelled concretely in `NdArrays` or passed in as function parameters:

- modelled concretely: broadcasting arithmetic, `flatten`, `item`, `np.outer`,
  `np.add.outer`, `np.subtract.outer` and `np.diag`;
- passed in: `expm`, `transpose`, `conj`, `dot`, `einsum`, the tridiagonal eigensolvers
  and the `dtype` caster.

The modules follow the source files:

| module | file | contents |
|---|---|---|
| `Results`, `OrderedDicts`, `Values`, `NdArrays` | (support) | exceptions, `OrderedDict`, Python values, the numpy subset |
| `LexOrder` | `ensemble.py` | Python's tuple ordering and `sorted` on block keys |
| `Ensembles` | `ensemble.py` | the `Ensemble` constructor and iteration |
| `Containers` | all containers | the container datatypes and the per-block loops |
| `Arrays` | `array.py`, `ensemble_array.py` | constructor, operators, indexing, `flatten` |
| `Scalars` | `scalar.py`, `ensemble_scalar.py` | constructors, operators, `min`/`max`, indexing |
| `Algebra` | `algebra.py`, `ensemble_array.py` | `expm`, `transpose`, `conj`, `dot`, the outer products, `einsum`, `ensemble_*` |
| `EnsembleAlgebra` | `ensemble_algebra.py` | `ensemble_dot`, `ensemble_asscalar` |
| `TriDiag` | `ensemble_tridiag.py` | constructor, iteration, `eig0`, `eig`, `eigvals`, `asarray` |

Where a documented purpose and the code disagree, the model follows the code: iteration
over an `Ensemble` follows the insertion order of its degeneracy dictionary, which is the
product order of the axes, not the sorted `blocks` list (`Ensembles.IterationNotSorted`).

The model departs from the code in one place. `ensemble_asscalar` calls `np.asscalar`,
which newer numpy releases no longer have, so as written it raises AttributeError there.
The model gives it the meaning `np.asscalar` had, `a.item()`
(`EnsembleAlgebra.AsScalar`).

## Model

| member | source | states |
|---|---|---|
| `Ensembles.NormalizeItem` | pydiag/ensemble/ensemble.py:41-55 | An axis element is accepted exactly when it is not a tuple, or is a pair whose second part converts to an integer. A tuple of another length raises ValueError and a bad pair raises TypeError. |
| `Ensembles.NormalizeAxis` | pydiag/ensemble/ensemble.py:32-56 | A non-iterable argument raises TypeError. Otherwise the axis normalises element by element to `(label, degeneracy)` pairs, and the first bad element decides the error. |
| `Ensembles.NormalizeAxes` | pydiag/ensemble/ensemble.py:31-56 | All arguments normalise exactly when each one does, and they keep their order. Otherwise the first argument that does not normalise decides the error (TypeError or ValueError). |
| `Ensembles.ProductLength` | pydiag/ensemble/ensemble.py:58 | `itertools.product` yields as many combinations as the product of the axis lengths. |
| `Ensembles.ProductMembers` | pydiag/ensemble/ensemble.py:58 | A tuple is a combination exactly when its k-th component comes from axis k. |
| `Ensembles.Construct` | pydiag/ensemble/ensemble.py:25-69 | Construction succeeds exactly when every axis normalises, and otherwise raises the error of the first axis that does not. Then `blocks` is the sorted list of generated keys and the degeneracy dict holds the assignments of the product loop. |
| `Ensembles.ConstructCount` | pydiag/ensemble/ensemble.py:58-66 | There is one block per combination of one item from each axis. |
| `Ensembles.ConstructBlocks` | pydiag/ensemble/ensemble.py:58-69 | A key is among the blocks exactly when its k-th label is the label of some item of axis k. |
| `Ensembles.ConstructDegeneracy` | pydiag/ensemble/ensemble.py:58-67 | A block's degeneracy is the product of the degeneracies of the last combination with its labels (a repeated key takes the last write). |
| `Ensembles.ProductDistinct` | pydiag/ensemble/ensemble.py:58-64 | When no axis repeats a label, no block key repeats. |
| `Ensembles.ConstructIterationOrder` | pydiag/ensemble/ensemble.py:58-72 | When no axis repeats a label, iteration yields every combination's key and degeneracy, in product order. |
| `Ensembles.TwoAxesExample` | pydiag/ensemble/ensemble.py:25-69 | Axes `[("a",1),("b",2)]` and `[("x",1),("y",1)]` give four sorted blocks with degeneracies 1, 1, 2, 2. |
| `Ensembles.IterationNotSorted` | pydiag/ensemble/ensemble.py:69-72 | With one axis `["b","a"]`, `blocks` is sorted but iteration yields `("b",)` first. |
| `LexOrder.Sort` | pydiag/ensemble/ensemble.py:69 | `sorted(self.blocks)` is ordered by Python's tuple comparison and is a permutation of its input. |
| `LexOrder.SortedUnique` | pydiag/ensemble/ensemble.py:69 | Two sorted permutations of one list are equal, so the result does not depend on the sorting algorithm. |
| `LexOrder.BlockLessTransitive` | pydiag/ensemble/ensemble.py:69 | Tuple order on block keys is transitive. |
| `LexOrder.BlockLessTotal` | pydiag/ensemble/ensemble.py:69 | Any two distinct block keys are ordered one way or the other. |
| `Values.Subscript` | pydiag/ensemble/array.py:37 | On a dictionary, `v[k]` succeeds exactly when the key is present, and a missing key raises KeyError. A numpy array indexed with `()` returns itself, or a number when it is 0-d. Any other key raises IndexError on an array. None and numbers raise TypeError. |
| `Values.ToArray` | pydiag/ensemble/array.py:37 | `np.array(v, dtype)` turns a number into a 0-d array and copies an array, applying the caster to every element. Other values give object arrays, which are outside the model. |
| `Values.WrapToArray` | pydiag/ensemble/array.py:69 | `np.array` undoes numpy's unwrapping of 0-d results into numbers. |
| `Values.ArrayOpIsBinOp` | pydiag/ensemble/array.py:69 | An array container's block operation is the value operation followed by `np.array`. |
| `Values.Unwrap` | pydiag/ensemble/scalar.py:41-53 | `None` is stored as None. An array is reduced with `.item()`, which fails unless it has one element. The caster is applied when given. |
| `NdArrays.BroadcastNumber` | pydiag/ensemble/array.py:67-69 | An array combined with a number keeps its shape, and every element is combined with the number. |
| `NdArrays.NumberRoundTrip` | pydiag/ensemble/array.py:64-85 | Adding a number to an array and subtracting it again gives back the array. |
| `NdArrays.SameShapeRoundTrip` | pydiag/ensemble/array.py:64-85 | Adding an array of the same shape and subtracting it again gives back the array. |
| `NdArrays.OuterVectors` | pydiag/ensemble/algebra.py:96 | For vectors, entry (i, j) of the outer operation combines the i-th element of the first vector with the j-th element of the second. |
| `NdArrays.TridiagonalDense` | pydiag/ensemble/ensemble_tridiag.py:160-162 | The sum of the three `np.diag` matrices is the dense n x n tridiagonal matrix. |
| `NdArrays.TridiagonalEmpty` | pydiag/ensemble/ensemble_tridiag.py:160-162 | With an empty diagonal, the 1 x 1 off-diagonal matrices broadcast against 0 x 0, giving a 0 x 0 matrix. |
| `Arrays.BlockDatum` | pydiag/ensemble/array.py:35-43 | A block's datum is `data[block]`, or `data[block][tag]` when a tag is given, passed through `np.array`. A missing block raises KeyError. |
| `Arrays.CommonNdim` | pydiag/ensemble/array.py:45-50 | `np.unique` of the blocks' numbers of axes has one value exactly when there are blocks and they all agree. Otherwise ValueError. |
| `Arrays.New` | pydiag/ensemble/array.py:16-50 | TypeError for a non-Ensemble, a non-OrderedDict or a non-string tag, in that order. On success the container holds each block's datum. |
| `Arrays.NewError` | pydiag/ensemble/array.py:35-50 | Past the type checks: when some block's datum cannot be read, the constructor raises that error for the first such block in iteration order. When every datum reads, the only possible error is ValueError for mismatched axes. |
| `Arrays.FromArraysIsNew` | pydiag/ensemble/array.py:16-50 | Building from an OrderedDict of the arrays themselves gives exactly those arrays. |
| `Arrays.Lookup` | pydiag/ensemble/array.py:72-73 | `other[block]` looks the block up in a dictionary or a `Scalar`. On an array container with axes and a filled block it raises IndexError for every non-empty key. Other objects raise TypeError. |
| `Arrays.Operator` | pydiag/ensemble/ensemble_array.py:88-107 | `EnsembleArray` `*` and `/` with anything but a number raise TypeError. The other cases are the element-wise operation. |
| `Arrays.Elementwise` | pydiag/ensemble/array.py:64-108 | On success the result has the same class, ensemble and blocks. With a number it succeeds exactly when every block broadcasts with it, and each block is the broadcast. With any other operand each block is `arr op other[block]`. The first failing block (in iteration order) decides the error, and with no failing block only ValueError for mismatched axes remains. |
| `Arrays.NumberOperand` | pydiag/ensemble/array.py:67-108 | A container combined with a number succeeds exactly when every element does. |
| `Arrays.NumberElement` | pydiag/ensemble/array.py:67-108 | Each element of `x op c` is that element combined with `c`, and the shapes are kept. |
| `Arrays.AddSubNumber` | pydiag/ensemble/array.py:64-85 | `(x + c) - c` equals `x`. |
| `Arrays.RMulElement` | pydiag/ensemble/array.py:97-98 | Each element of `c * x` is the element times `c`. |
| `Arrays.GetItem` | pydiag/ensemble/array.py:110-117 | A 0-d container raises TypeError. A non-empty block key as index raises IndexError when a block is filled. On success every filled block is indexed with numpy's rule (`()` keeps it whole) and every empty block becomes `np.empty(0)`. The result's number of axes is one less for a position, unchanged for `()`, and 1 when all blocks are empty. |
| `Arrays.GetItemWhole` | pydiag/ensemble/array.py:110-117 | `x[()]`, the only block key of an ensemble without axes, gives back a container that has no empty block unchanged. |
| `Arrays.GetItemAt` | pydiag/ensemble/array.py:110-117 | Indexing with a position succeeds exactly when it is in range for every filled block and the resulting axes agree. |
| `Arrays.Flatten` | pydiag/ensemble/array.py:128-138 | Every block is flattened into a 1-d array with its elements in row-major order. |
| `Arrays.Iter` | pydiag/ensemble/array.py:58-59 | Iteration yields `(block, array)` in the ensemble's order. |
| `Arrays.ContainerOperandFails` | pydiag/ensemble/array.py:72-74 | As written, `x op y` for two array containers raises IndexError whenever the ensemble has at least one axis (so no key is `()`) and `y` has axes and a non-empty block. |
| `Arrays.PairedRoundTrip` | pydiag/ensemble/array.py:72-85 | With block-wise pairing, `(x + y) - y` equals `x` for containers of equal shapes. |
| `Arrays.PairedSameShapes` | pydiag/ensemble/array.py:72-74 | With block-wise pairing of equal shapes, the operation fails only where an element does, and it keeps the shapes. |
| `Scalars.Datum` | pydiag/ensemble/scalar.py:33-53 | A non-string tag raises TypeError when the block is read. The stored value is `data[block]` or `data[block][tag]`, unwrapped. |
| `Scalars.New` | pydiag/ensemble/scalar.py:15-53 | TypeError for a non-Ensemble or a non-dict. Success exactly when every block's datum reads. The first failing block decides the error. |
| `Scalars.TagCheckedPerBlock` | pydiag/ensemble/scalar.py:33-38 | A non-string tag is accepted exactly when the ensemble has no blocks. |
| `Scalars.NewOfOwn` | pydiag/ensemble/scalar.py:15-53 | Rebuilding a `Scalar` from its own OrderedDict gives it back. |
| `Scalars.NewEnsemble` | pydiag/ensemble/ensemble_scalar.py:15-51 | `EnsembleScalar` stores `data[block]`, cast when a dtype is given. A non-string tag raises TypeError. |
| `Scalars.RebuildEnsemble` | pydiag/ensemble/ensemble_scalar.py:33-40 | An `EnsembleScalar` built from an OrderedDict holds exactly that data. |
| `Scalars.EnsembleTagIgnored` | pydiag/ensemble/ensemble_scalar.py:41-51 | As written, a string tag gives the same result as no tag. |
| `Scalars.TaggedAgreesUntagged` | pydiag/ensemble/ensemble_scalar.py:33-40 | The corrected constructor agrees with the original when there is no tag. |
| `Scalars.NumberOp` | pydiag/ensemble/scalar.py:69-72 | `x op c` succeeds exactly when every block's value combines with `c`, and keeps the blocks. |
| `Scalars.ScalarsOp` | pydiag/ensemble/scalar.py:73-76 | Two `Scalar`s of numbers over the same blocks combine block by block. |
| `Scalars.AddSubScalars` | pydiag/ensemble/scalar.py:67-87 | `(x + y) - y` equals `x` for `Scalar`s of numbers. |
| `Scalars.AddSubNumber` | pydiag/ensemble/scalar.py:67-87 | `(x + c) - c` equals `x` for a `Scalar` of numbers. |
| `Scalars.Delegate` | pydiag/ensemble/scalar.py:95-114 | `x * other` and `x / other` apply a number per block and hand the call to an `Array` or `Scalar` other. Objects without the method raise AttributeError. A numpy array operand gives `Unmodelled`. |
| `Scalars.ScalarsRecurse` | pydiag/ensemble/scalar.py:101-102 | As written, `Scalar * Scalar` and `Scalar / Scalar` exhaust the stack and raise RecursionError. |
| `Scalars.DivArraySwapped` | pydiag/ensemble/scalar.py:113-114 | As written, `x / a` for an `Array` `a` divides each element of `a` by the block's value. |
| `Scalars.IntendedMulDiv` | pydiag/ensemble/scalar.py:95-114 | In the corrected version, `Scalar` by `Scalar` works block by block and `x / a` divides the value by the array. |
| `Scalars.DivMulScalars` | pydiag/ensemble/scalar.py:95-114 | In the corrected version, `(x / y) * y` equals `x` for `Scalar`s of numbers when `y` has no zeros. |
| `Scalars.IntendedDivElement` | pydiag/ensemble/scalar.py:113-114 | In the corrected version, each element of `x / a` is the block's value over the element. |
| `Scalars.RMulValue` | pydiag/ensemble/scalar.py:104-105 | `c * x` multiplies every block's number by `c`. |
| `Scalars.GetItem` | pydiag/ensemble/scalar.py:116-117 | `x[block]` is the stored value, and KeyError exactly for a block outside the ensemble. |
| `Scalars.Neg` | pydiag/ensemble/scalar.py:89-93 | As written, `-x` raises NameError exactly when every value negates. Otherwise it raises TypeError. |
| `Scalars.NegInvolution` | pydiag/ensemble/scalar.py:89-93 | In the corrected version, negating twice gives back the `Scalar`. |
| `Scalars.Iter` | pydiag/ensemble/scalar.py:61-62 | Iteration yields `(block, value)` in the ensemble's order. |
| `Scalars.Present` | pydiag/ensemble/scalar.py:135 | The values other than None, each as often as it occurs: the multiset of the input with the Nones removed. |
| `Scalars.PresentAppend` | pydiag/ensemble/scalar.py:135 | The filter keeps the order: appending a value appends it to the result unless it is None. |
| `Scalars.Extreme` | pydiag/ensemble/scalar.py:129-143 | `min`/`max` of an empty list raise ValueError. One value is returned as is. Several values succeed exactly when all are numbers, and the result is the least (greatest) one and is one of them. |
| `Scalars.Min` | pydiag/ensemble/scalar.py:129-135 | `x.min()` is the least value other than None, with ValueError when there is none. |
| `Scalars.Max` | pydiag/ensemble/scalar.py:137-143 | `x.max()` is the greatest value other than None, with ValueError when there is none. |
| `Algebra.Unary` | pydiag/ensemble/algebra.py:10-58 | Anything but an `Array` raises TypeError. Otherwise the kernel is applied to every block, and the result keeps the number of axes when the kernel does. |
| `Algebra.ConjOfReal` | pydiag/ensemble/algebra.py:52-56 | The conjugate of real data is the data itself. |
| `Algebra.InvolutionLifts` | pydiag/ensemble/algebra.py:35-39 | A block kernel that undoes itself, as `np.transpose` does, makes `transpose(transpose(A)) == A`. |
| `Algebra.Binary` | pydiag/ensemble/algebra.py:61-139 | TypeError unless both are `Array`s, ValueError for different ensembles, and otherwise the kernel of every pair of blocks. |
| `Algebra.OuterNeverFails` | pydiag/ensemble/algebra.py:90-99 | Over one ensemble `outer` never fails and gives matrices. |
| `Algebra.AddOuterNeverFails` | pydiag/ensemble/algebra.py:110-119 | Over one ensemble `add_outer` never fails and adds up the numbers of axes. |
| `Algebra.SubtractOuterNeverFails` | pydiag/ensemble/algebra.py:130-139 | Over one ensemble `subtract_outer` never fails and adds up the numbers of axes. |
| `Algebra.OuterEntry` | pydiag/ensemble/algebra.py:90-97 | For vector blocks, entry (i, j) of `outer` is the product of the i-th and j-th elements. |
| `Algebra.AddOuterEntry` | pydiag/ensemble/algebra.py:110-117 | For vector blocks, entry (i, j) of `add_outer` is their sum. |
| `Algebra.SubtractOuterEntry` | pydiag/ensemble/algebra.py:130-137 | For vector blocks, entry (i, j) of `subtract_outer` is their difference. |
| `Algebra.EnsembleSetSize` | pydiag/ensemble/algebra.py:161-163 | `len(set(ensembles)) > 1` exactly when some operand's ensemble differs from the first. |
| `Algebra.Einsum` | pydiag/ensemble/algebra.py:154-169 | No operands raise ValueError, a non-`Array` raises TypeError and different ensembles raise ValueError. Otherwise each block is the kernel of the operands' blocks. A block on which the kernel fails makes the call fail, and the error is such a block's error or the ValueError of the axes check. |
| `Algebra.EinsumUniform` | pydiag/ensemble/algebra.py:154-169 | For any number of operands over one ensemble, when the kernel gives an array with `n` axes on every block, `einsum` succeeds with `n` axes. |
| `Algebra.EinsumOfTwo` | pydiag/ensemble/algebra.py:143-169 | `einsum` of two operands with a two-array kernel is the paired operation of `dot`/`outer`, errors included. |
| `Algebra.EnsembleExpm` | pydiag/ensemble/ensemble_array.py:131-142 | The kernel of every block, as an `EnsembleArray`. |
| `Algebra.EnsembleUnaryAgrees` | pydiag/ensemble/ensemble_array.py:139-142 | On an `Array`, `expm` and `ensemble_expm` compute the same blocks and differ only in the class. |
| `Algebra.EnsembleDot` | pydiag/ensemble/ensemble_array.py:171-186 | Different ensembles raise ValueError. Otherwise `np.dot` of every pair of blocks. |
| `Algebra.EnsembleDotAgrees` | pydiag/ensemble/ensemble_array.py:180-186 | On two `Array`s, `dot` and `ensemble_dot` agree except for the class. |
| `EnsembleAlgebra.ZipIsByBlock` | pydiag/ensemble/ensemble_algebra.py:30 | Over one ensemble, zipping keys and values by position pairs the values of the same block. |
| `EnsembleAlgebra.EnsembleDot` | pydiag/ensemble/ensemble_algebra.py:9-36 | A missing `.ensemble` raises AttributeError and different ensembles or other classes raise ValueError. Two `EnsembleScalar`s give products, and other pairs give `np.dot` per block. In that array branch a block whose `np.dot` fails makes the call fail, and the error is such a block's error or the ValueError of the axes check. |
| `EnsembleAlgebra.ScalarDotNumbers` | pydiag/ensemble/ensemble_algebra.py:29-32 | On numbers, the scalar branch multiplies block by block. |
| `EnsembleAlgebra.EnsembleDotsAgree` | pydiag/ensemble/ensemble_algebra.py:33-36 | On two `EnsembleArray`s, the two `ensemble_dot` functions give the same result and the same errors. |
| `EnsembleAlgebra.AsScalar` | pydiag/ensemble/ensemble_algebra.py:38-51 | An `EnsembleScalar` is returned as is. An `EnsembleArray` succeeds exactly when every block has one element, and then holds those elements. |
| `EnsembleAlgebra.AsScalarRoundTrip` | pydiag/ensemble/ensemble_algebra.py:45-51 | `ensemble_asscalar` undoes wrapping an `EnsembleScalar`'s numbers into 0-d arrays. |
| `TriDiag.Normalise` | pydiag/ensemble/ensemble_tridiag.py:48-56 | Equal lengths drop the last off-diagonal entry and one shorter is kept. Any other length raises ValueError. |
| `TriDiag.NormaliseIdempotent` | pydiag/ensemble/ensemble_tridiag.py:48-56 | Normalising a normalised pair changes nothing. |
| `TriDiag.NormalisePadded` | pydiag/ensemble/ensemble_tridiag.py:48-53 | An off-diagonal padded with one trailing entry normalises as the unpadded one. |
| `TriDiag.Build` | pydiag/ensemble/ensemble_tridiag.py:44-56 | The loop succeeds exactly when every block normalises, and stores each block's normalised pair. |
| `TriDiag.New` | pydiag/ensemble/ensemble_tridiag.py:20-56 | TypeError for a non-Ensemble, a non-OrderedDict or non-string tags, then the errors of the two `EnsembleArray`s, then ValueError. On success each block holds its normalised flattened data. |
| `TriDiag.NewOfRecords` | pydiag/ensemble/ensemble_tridiag.py:20-56 | Building from per-block records of a container's diagonal and off-diagonal gives that container back. |
| `TriDiag.Iter` | pydiag/ensemble/ensemble_tridiag.py:64-67 | Iteration zips keys, diagonals and off-diagonals, yielding each block's own pair in the ensemble's order. |
| `TriDiag.IterRebuilds` | pydiag/ensemble/ensemble_tridiag.py:64-67 | Collecting the iteration into dicts gives back the diagonals and off-diagonals. |
| `TriDiag.Eig0` | pydiag/ensemble/ensemble_tridiag.py:88-104 | None exactly for an empty block, the single entry for a 1 x 1 block, and the solver's lowest eigenvalue otherwise. |
| `TriDiag.Eigvals` | pydiag/ensemble/ensemble_tridiag.py:129-146 | An empty block gives `np.empty(0)`, a 1 x 1 block its diagonal, and larger blocks the solver's spectrum. This succeeds when there are blocks and the solver returns vectors. |
| `TriDiag.Eig` | pydiag/ensemble/ensemble_tridiag.py:106-127 | Like `eigvals`, with eigenvectors `np.empty((0,0))` and `np.ones((1,1))` for the small blocks. |
| `TriDiag.AsArray` | pydiag/ensemble/ensemble_tridiag.py:148-163 | Succeeds exactly when there are blocks, giving one n x n matrix per block. |
| `TriDiag.AsArrayEntries` | pydiag/ensemble/ensemble_tridiag.py:160-162 | Each matrix holds the diagonal, the off-diagonal on both neighbouring diagonals, and zeros elsewhere. |
| `TriDiag.AsArraySymmetric` | pydiag/ensemble/ensemble_tridiag.py:160-162 | Each dense block is symmetric. |
| `TriDiag.BandsOfDense` | pydiag/ensemble/ensemble_tridiag.py:154-163 | Reading the bands of a dense block gives back its diagonal and off-diagonal, so `asarray` loses nothing. |
| `TriDiag.Eig0IsMinimum` | pydiag/ensemble/ensemble_tridiag.py:88-146 | With a consistent solver, `eig0` is None exactly when the `eigvals` block is empty, and otherwise is its minimum. |
| `TriDiag.EigvalsIsEig` | pydiag/ensemble/ensemble_tridiag.py:106-146 | With solvers that agree on eigenvalues, `eigvals` is the first half of `eig`. |
| `TriDiag.SmallBlocksExact` | pydiag/ensemble/ensemble_tridiag.py:116-121 | For blocks up to 1 x 1, `eig` has the right shapes, and for 1 x 1 the eigenvalue is the matrix entry and the eigenvector is 1. |

## Left out

- File input (`data.py`) and `__str__` are out of scope. So is `__next__`, which in every
  class calls a method that dict views do not have.
- The numerical kernels are parameters. This covers `scipy.linalg.expm`,
  `np.transpose`, `np.conj`, `np.dot`, `np.einsum` with its subscripts and
  `optimize` flag, `eigvalsh_tridiagonal` and `eigh_tridiagonal`. Their numerical
  correctness (for example that the eigenvectors diagonalise the matrix) is not modelled.
  Properties that need them are stated for any kernel with the stated shape.
- Numbers are real numbers, not IEEE floats. Complex data, NaN, infinities and
  division-by-zero results are not modelled. Dividing by zero gives the `Unmodelled`
  error, as do numpy object arrays built from None or dictionaries.
- `dtype` is modelled as a caster applied to every number. Casts that change
  representation, such as integer truncation, are only as faithful as the caster passed
  in.
- `np.isscalar` is true for numbers only. Strings and other Python scalars are not
  modelled as operands.
- General numpy indexing (slices, tuples, fancy indexing) is out of scope. An index is an
  integer or a block key, and these are the two the containers meet.
- Broadcasting is modelled for equal shapes, and for one side of size one that is no
  longer than the other side. Other broadcasts give `Unmodelled`.
- Recursion depth is a parameter of `Scalars.Delegate`. The interpreter's actual stack
  limit is not modelled.
- Python `min`/`max` comparisons involving arrays give `Unmodelled`.
- `keys()`, `values()` and `items()` of the containers are modelled only through
  iteration: `Arrays.Iter`, `Scalars.Iter`, `TriDiag.Iter` and `Ensemble.Iter`.
- The free functions `ensemble_expm`, `ensemble_transpose`, `ensemble_conj`,
  `ensemble_dot` of `ensemble_array.py` and `ensemble_asscalar` do no type checks.
  Their models take the container kind their docstrings name as a precondition.
- `asarray` checks `self.diag[block] is None`. A stored diagonal is always an array, so
  that branch never applies and `TriDiag.AsArray` does not model it.
- `Arrays.GetItem`: an empty block becomes `np.empty(0)`, which is 1-d whatever `ndim`
  is. Indexing with a position removes one axis from the filled blocks. So a container
  mixing empty and filled blocks fails the axes check when it is 1-d, or 3-d and higher
  (`Arrays.GetItemAt`). The model reproduces this behaviour but does not report it as a
  finding.
- `EnsembleArray.__getitem__` prints `self.ndim * (0,)` for every empty block. The model
  leaves out that console output, as it does all output.
- `Arrays.LookupOp`: when `y[block]` is itself an `Array` container, combining a numpy
  block with it is numpy's object-array fallback, and the model gives `Unmodelled`. This
  happens for `y[()]` over an ensemble without axes, and for every key when all of `y`'s
  blocks are empty, since `Array.__getitem__` then succeeds.
- `Scalars.Delegate`: `Scalar * ndarray` and `Scalar / ndarray` hand the call to
  `ndarray.__mul__(x)` or `ndarray.__truediv__(x)`, numpy's object-array fallback. The
  model gives `Unmodelled` for a numpy array operand.
- `EnsembleAlgebra.AsScalar`: `np.asscalar(a)` is modelled as `a.item()`. The
  AttributeError that numpy releases without `asscalar` raise is not modelled.
- `Ensembles.NormalizeItem`: a bare label takes `default_degeneracy` unconverted, while a
  pair's degeneracy goes through `int`. The model takes the default as an integer, so a
  float default such as 2.5, which Python stores and multiplies as a float, is not
  modelled.
- `TriDiag.Eig0` returns the container directly. Its `EnsembleScalar` construction
  cannot fail.
- Product and quotient properties (`Arrays.RMulElement`, `Scalars.RMulValue`,
  `EnsembleAlgebra.ScalarDotNumbers`, `Algebra.OuterEntry`) are stated through
  `NdArrays.Ring`. `Ring` is the real arithmetic operation itself.

## Findings

| source | as written | input that shows it | evidently intended | confidence | as-written member | corrected member |
|---|---|---|---|---|---|---|
| pydiag/ensemble/array.py:72-74 | `other[block]` on an `Array` other calls `Array.__getitem__`, which indexes every block's numpy array with the block tuple | `x + x` for an `Array` of 1-d blocks over an ensemble with an axis, one block non-empty: numpy rejects the tuple-of-strings index with IndexError | pair the blocks, `arr + other.array[block]` | not executed | `Arrays.ContainerOperandFails` | `Arrays.PairedOp` (`Arrays.PairedRoundTrip`) |
| pydiag/ensemble/scalar.py:101-102 | `Scalar * Scalar` calls `other.__mul__(self)`, which calls back, with no end | `s * t` for two `Scalar`s: RecursionError | block-wise products, as `__add__` does | not executed | `Scalars.ScalarsRecurse` | `Scalars.IntendedMulDiv` (`Scalars.DivMulScalars`) |
| pydiag/ensemble/scalar.py:113-114 | `x / a` for an `Array` `a` returns `a.__truediv__(x)`, which is `a / x` | `Scalar` holding 2.0 over an `Array` block `[4.0]`: gives 2.0, not 0.5 | each block's value divided by the array | not executed | `Scalars.DivArraySwapped` | `Scalars.IntendedDivArray` (`Scalars.IntendedDivElement`) |
| pydiag/ensemble/ensemble_scalar.py:45-51 | with a string tag the loop stores `data[block]` and never reads `[tag]` | `EnsembleScalar(e, {b: {"x": 1.0}}, tag="x")` stores the dict, not 1.0 | store `data[block][tag]`, as `Scalar` does | not executed | `Scalars.EnsembleTagIgnored` (`Scalars.EnsembleTagExample`) | `Scalars.NewEnsembleTagged` (`Scalars.TaggedAgreesUntagged`) |
| pydiag/ensemble/scalar.py:89-93 | `__neg__` returns `Array(self.ensemble, data)`, and scalar.py never imports `Array` | `-s` for any `Scalar` of numbers: NameError | `Scalar(self.ensemble, data)` with every value negated | not executed | `Scalars.Neg` | `Scalars.IntendedNeg` (`Scalars.NegInvolution`) |
