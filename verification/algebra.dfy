/** The block algebra of `algebra.py` and the free functions of `ensemble_array.py`:
    the type and ensemble checks come first, then one kernel call per block, then a
    container over the same ensemble. The numerical kernels are parameters; the outer
    products are defined concretely. */
module Algebra {
  import opened Results
  import opened OrderedDicts
  import opened Ensembles
  import opened NdArrays
  import opened Containers
  import Arrays

  /** A per-block routine of one array (`scipy.linalg.expm`, `np.transpose`,
      `np.conj`); it may raise. */
  type Kernel = NdArray -> Result<NdArray>

  /** A per-block routine of two arrays (`np.dot`). */
  type Kernel2 = (NdArray, NdArray) -> Result<NdArray>

  /** A per-block routine of any number of arrays (`np.einsum` with its subscripts). */
  type KernelN = seq<NdArray> -> Result<NdArray>

  /** `isinstance(o, Array)`: an `EnsembleArray` is a different class and fails it. */
  predicate IsArray(o: Obj) {
    o.ArrayObj? && o.a.cls.PlainArray?
  }

  /** `y` holds `k` of every block of `x`, over the same ensemble and blocks. */
  ghost predicate Blockwise(x: ArrayC, k: Kernel, y: ArrayC) {
    && y.Wf() && y.ensemble == x.ensemble && y.arrays.keys == x.arrays.keys
    && forall b :: b in x.arrays.vals ==>
         k(x.arrays.vals[b]).Ok? && b in y.arrays.vals && y.arrays.vals[b] == k(x.arrays.vals[b]).value
  }

  /** The loop `for block, arr in A.items(): data[block] = k(arr)`. */
  function KernelBlocks(x: ArrayC, k: Kernel): (r: Result<ODict<Block, NdArray>>)
    requires x.Wf()
    ensures r.Ok? <==> forall b :: b in x.arrays.vals ==> k(x.arrays.vals[b]).Ok?
    ensures r.Ok? ==> r.value.Valid() && r.value.keys == x.arrays.keys
    ensures r.Ok? ==> forall b :: b in x.arrays.vals ==> r.value.vals[b] == k(x.arrays.vals[b]).value
    ensures r.Err? ==> exists b :: b in x.arrays.vals && k(x.arrays.vals[b]) == Err(r.error)
  {
    MapBlocks(x.arrays, (b, arr) => k(arr))
  }

  /** The kernel applied to every block, then `Array(A.ensemble, data)` (or
      `EnsembleArray`): it fails when a kernel call raises, or with ValueError when the
      results disagree in their number of axes. */
  function ApplyBlocks(cls: ArrayClass, x: ArrayC, k: Kernel): (r: Result<ArrayC>)
    requires x.Wf()
    ensures r.Ok? ==> r.value.cls == cls && Blockwise(x, k, r.value)
    ensures (exists b :: b in x.arrays.vals && k(x.arrays.vals[b]).Err?) ==> r.Err?
    ensures r.Err? ==> r.error == ValueError || exists b :: b in x.arrays.vals && k(x.arrays.vals[b]) == Err(r.error)
    ensures (forall b :: b in x.arrays.vals ==> k(x.arrays.vals[b]).Ok? && Ndim(k(x.arrays.vals[b]).value) == x.ndim) ==>
      r.Ok? && r.value.ndim == x.ndim
  {
    var data :- KernelBlocks(x, k);
    assert x.arrays.keys[0] in x.arrays.vals;
    Arrays.FromArrays(cls, x.ensemble, data)
  }

  /** `expm(A)`, `transpose(A)` and `conj(A)` share one shape: TypeError unless `A` is an
      `Array`, otherwise the kernel of every block over `A`'s ensemble. */
  ghost predicate UnaryContract(A: Obj, k: Kernel, r: Result<ArrayC>) {
    && (!IsArray(A) ==> r == Err(TypeError))
    && (r.Ok? ==> IsArray(A) && r.value.cls.PlainArray? && Blockwise(A.a, k, r.value))
    && (IsArray(A) && (forall b :: b in A.a.arrays.vals ==> k(A.a.arrays.vals[b]).Ok? && Ndim(k(A.a.arrays.vals[b]).value) == A.a.ndim) ==>
          r.Ok? && r.value.ndim == A.a.ndim)
  }

  function Unary(A: Obj, k: Kernel): (r: Result<ArrayC>)
    requires ObjWf(A)
    ensures UnaryContract(A, k, r)
  {
    if IsArray(A) then ApplyBlocks(PlainArray, A.a, k) else Err(TypeError)
  }

  /** `expm(A)` with `scipy.linalg.expm` as the kernel. */
  function Expm(A: Obj, expm: Kernel): (r: Result<ArrayC>)
    requires ObjWf(A)
    ensures UnaryContract(A, expm, r)
  {
    Unary(A, expm)
  }

  /** `transpose(A)` with `np.transpose` as the kernel. */
  function Transpose(A: Obj, transpose: Kernel): (r: Result<ArrayC>)
    requires ObjWf(A)
    ensures UnaryContract(A, transpose, r)
  {
    Unary(A, transpose)
  }

  /** `conj(A)` with `np.conj` as the kernel. */
  function Conj(A: Obj, conj: Kernel): (r: Result<ArrayC>)
    requires ObjWf(A)
    ensures UnaryContract(A, conj, r)
  {
    Unary(A, conj)
  }

  /** The model's numbers are real, and `np.conj` of real data is the data itself:
      `conj` then gives back a container equal to its argument. */
  lemma ConjOfReal(x: ArrayC)
    requires x.Wf() && x.cls.PlainArray?
    ensures Conj(ArrayObj(x), a => Ok(a)) == Ok(x)
  {
    var r := Conj(ArrayObj(x), a => Ok(a));
    SameArrays(x, r.value);
  }

  /** A container is determined by its class, ensemble, blocks and arrays. */
  lemma SameArrays(x: ArrayC, y: ArrayC)
    requires x.Wf() && y.Wf() && y.cls == x.cls && y.ensemble == x.ensemble && y.arrays.keys == x.arrays.keys
    requires forall b :: b in x.arrays.vals ==> y.arrays.vals[b] == x.arrays.vals[b]
    ensures y == x
  {
    assert y.arrays.vals.Keys == x.arrays.vals.Keys;
    assert y.arrays.vals == x.arrays.vals;
    assert x.arrays.keys[0] in x.arrays.vals;
  }

  /** A kernel that undoes itself (as `np.transpose` does) lifts to a container
      operation that undoes itself. */
  lemma {:induction false} InvolutionLifts(x: ArrayC, k: Kernel)
    requires x.Wf() && x.cls.PlainArray?
    requires forall a: NdArray :: k(a).Ok? && k(k(a).value) == Ok(a)
    requires forall a: NdArray :: Ndim(k(a).value) == Ndim(a)
    ensures Transpose(ArrayObj(x), k).Ok?
    ensures Transpose(ArrayObj(Transpose(ArrayObj(x), k).value), k) == Ok(x)
  {
    var y := Transpose(ArrayObj(x), k).value;
    var z := Transpose(ArrayObj(y), k);
    assert forall b :: b in y.arrays.vals ==> Ndim(k(y.arrays.vals[b]).value) == y.ndim;
    assert forall b :: b in x.arrays.vals ==> z.value.arrays.vals[b] == k(k(x.arrays.vals[b]).value).value;
    SameArrays(x, z.value);
  }

  /** `z` holds `k` of the paired blocks of `x` and `y`, over `x`'s ensemble and blocks. */
  ghost predicate Pairwise(x: ArrayC, y: ArrayC, k: Kernel2, z: ArrayC) {
    && z.Wf() && z.ensemble == x.ensemble && z.arrays.keys == x.arrays.keys
    && forall b :: b in x.arrays.vals ==>
         b in y.arrays.vals && k(x.arrays.vals[b], y.arrays.vals[b]).Ok?
         && b in z.arrays.vals && z.arrays.vals[b] == k(x.arrays.vals[b], y.arrays.vals[b]).value
  }

  /** `k(a.array[block], b.array[block])`; a block missing from either raises KeyError. */
  function PairKernel(x: ArrayC, y: ArrayC, k: Kernel2, b: Block): (r: Result<NdArray>)
    ensures b in x.arrays.vals && b in y.arrays.vals ==> r == k(x.arrays.vals[b], y.arrays.vals[b])
  {
    if b in x.arrays.vals && b in y.arrays.vals then k(x.arrays.vals[b], y.arrays.vals[b]) else Err(KeyError)
  }

  /** The loop `for block, deg in a.ensemble: data[block] = k(...)`, then the
      container over `a.ensemble`. */
  function PairBlocks(cls: ArrayClass, x: ArrayC, y: ArrayC, k: Kernel2): (r: Result<ArrayC>)
    requires x.Wf() && y.Wf() && x.ensemble == y.ensemble
    ensures r.Ok? ==> r.value.cls == cls && Pairwise(x, y, k, r.value)
    ensures (exists b :: b in x.arrays.vals && k(x.arrays.vals[b], y.arrays.vals[b]).Err?) ==> r.Err?
    ensures r.Err? ==>
      r.error == ValueError || exists b :: b in x.arrays.vals && k(x.arrays.vals[b], y.arrays.vals[b]) == Err(r.error)
  {
    var data :- ForBlocks(x.ensemble, b => PairKernel(x, y, k, b));
    assert x.arrays.keys[0] in x.arrays.vals;
    Arrays.FromArrays(cls, x.ensemble, data)
  }

  /** `dot`, `outer`, `add_outer` and `subtract_outer` share one shape: TypeError unless
      both operands are `Array`s, then ValueError unless they share one ensemble, then
      the kernel of every pair of blocks. */
  ghost predicate BinaryContract(a: Obj, b: Obj, k: Kernel2, r: Result<ArrayC>) {
    && (!(IsArray(a) && IsArray(b)) ==> r == Err(TypeError))
    && (IsArray(a) && IsArray(b) && a.a.ensemble != b.a.ensemble ==> r == Err(ValueError))
    && (r.Ok? ==> IsArray(a) && IsArray(b) && a.a.ensemble == b.a.ensemble && r.value.cls.PlainArray?
                  && Pairwise(a.a, b.a, k, r.value))
  }

  function Binary(a: Obj, b: Obj, k: Kernel2): (r: Result<ArrayC>)
    requires ObjWf(a) && ObjWf(b)
    ensures BinaryContract(a, b, k, r)
  {
    if !(IsArray(a) && IsArray(b)) then Err(TypeError)
    else if a.a.ensemble != b.a.ensemble then Err(ValueError)
    else PairBlocks(PlainArray, a.a, b.a, k)
  }

  /** On two `Array`s over one ensemble, the checks pass and the blocks are paired. */
  lemma BinaryPaired(x: ArrayC, y: ArrayC, k: Kernel2)
    requires x.Wf() && y.Wf() && x.cls.PlainArray? && y.cls.PlainArray? && x.ensemble == y.ensemble
    ensures Binary(ArrayObj(x), ArrayObj(y), k) == PairBlocks(PlainArray, x, y, k)
  {
  }

  /** `dot(a, b)` with `np.dot` as the kernel. */
  function Dot(a: Obj, b: Obj, dot: Kernel2): (r: Result<ArrayC>)
    requires ObjWf(a) && ObjWf(b)
    ensures BinaryContract(a, b, dot, r)
  {
    Binary(a, b, dot)
  }

  /** `outer(a, b)`: `np.outer` of every pair of blocks. */
  function Outer(a: Obj, b: Obj): (r: Result<ArrayC>)
    requires ObjWf(a) && ObjWf(b)
    ensures BinaryContract(a, b, OuterKernel(Mul), r)
  {
    Binary(a, b, OuterKernel(Mul))
  }

  /** `add_outer(a, b)`: `np.add.outer` of every pair of blocks. */
  function AddOuter(a: Obj, b: Obj): (r: Result<ArrayC>)
    requires ObjWf(a) && ObjWf(b)
    ensures BinaryContract(a, b, OuterKernel(Add), r)
  {
    Binary(a, b, OuterKernel(Add))
  }

  /** `subtract_outer(a, b)`: `np.subtract.outer` of every pair of blocks. */
  function SubtractOuter(a: Obj, b: Obj): (r: Result<ArrayC>)
    requires ObjWf(a) && ObjWf(b)
    ensures BinaryContract(a, b, OuterKernel(Sub), r)
  {
    Binary(a, b, OuterKernel(Sub))
  }

  /** When every pair of blocks gives an array with `n` axes, the paired operation
      succeeds with `n` axes. */
  lemma PairBlocksUniform(cls: ArrayClass, x: ArrayC, y: ArrayC, k: Kernel2, n: nat)
    requires x.Wf() && y.Wf() && x.ensemble == y.ensemble
    requires forall b :: b in x.arrays.vals ==> k(x.arrays.vals[b], y.arrays.vals[b]).Ok? && Ndim(k(x.arrays.vals[b], y.arrays.vals[b]).value) == n
    ensures PairBlocks(cls, x, y, k).Ok? && PairBlocks(cls, x, y, k).value.ndim == n
  {
    var f := b => PairKernel(x, y, k, b);
    var data := ForBlocks(x.ensemble, f);
    assert forall i :: 0 <= i < |x.ensemble.Keys()| ==> x.ensemble.Keys()[i] in x.arrays.vals;
    assert data.Ok?;
    assert x.arrays.keys[0] in data.value.vals;
    assert forall b :: b in data.value.vals ==> Ndim(data.value.vals[b]) == n;
  }

  /** The kernels of `outer` (`np.outer`, which flattens its inputs), `add_outer` and
      `subtract_outer` (`np.add.outer`, `np.subtract.outer`). */
  function OuterKernel(op: Op): Kernel2
    requires !op.Div?
  {
    if op.Mul? then (p, q) => Ok(NpOuter(p, q)) else (p, q) => Ok(OuterWith(op, p, q))
  }

  /** The number of axes of every block of an outer operation. */
  function OuterNdim(op: Op, x: ArrayC, y: ArrayC): nat {
    if op.Mul? then 2 else x.ndim + y.ndim
  }

  lemma OuterKernelNdim(op: Op, x: ArrayC, y: ArrayC)
    requires x.Wf() && y.Wf() && x.ensemble == y.ensemble && !op.Div?
    ensures forall b :: b in x.arrays.vals ==>
      OuterKernel(op)(x.arrays.vals[b], y.arrays.vals[b]).Ok? && Ndim(OuterKernel(op)(x.arrays.vals[b], y.arrays.vals[b]).value) == OuterNdim(op, x, y)
  {
    forall b | b in x.arrays.vals
      ensures Ndim(OuterKernel(op)(x.arrays.vals[b], y.arrays.vals[b]).value) == OuterNdim(op, x, y)
    {
      var p, q := x.arrays.vals[b], y.arrays.vals[b];
      if !op.Mul? {
        assert OuterKernel(op)(p, q).value.shape == p.shape + q.shape;
      }
    }
  }

  /** Over one ensemble the outer operations never fail: `outer` gives matrices, and
      `add_outer` and `subtract_outer` add up the numbers of axes. */
  lemma OuterSucceeds(op: Op, x: ArrayC, y: ArrayC)
    requires x.Wf() && y.Wf() && x.ensemble == y.ensemble && !op.Div?
    ensures PairBlocks(PlainArray, x, y, OuterKernel(op)).Ok?
    ensures PairBlocks(PlainArray, x, y, OuterKernel(op)).value.ndim == OuterNdim(op, x, y)
  {
    OuterKernelNdim(op, x, y);
    PairBlocksUniform(PlainArray, x, y, OuterKernel(op), OuterNdim(op, x, y));
  }

  /** A one-dimensional array is the vector of its elements. */
  lemma OneDim(a: NdArray)
    requires Ndim(a) == 1
    ensures a == Vector(a.flat) && Flatten(a) == a
  {
    Size1(a.shape[0]);
    assert a.shape == [a.shape[0]];
  }

  /** Two `Array`s of one-dimensional blocks over one ensemble. */
  ghost predicate VectorPair(x: ArrayC, y: ArrayC) {
    && x.Wf() && y.Wf() && x.cls.PlainArray? && y.cls.PlainArray? && x.ensemble == y.ensemble
    && x.ndim == 1 && y.ndim == 1
  }

  /** For one-dimensional blocks, entry `(i, j)` of block `b` of an outer operation
      combines element `i` of `a`'s block with element `j` of `b`'s block. */
  lemma OuterBlockEntry(op: Op, x: ArrayC, y: ArrayC, b: Block, i: nat, j: nat)
    requires VectorPair(x, y) && b in x.arrays.vals && !op.Div?
    requires i < |x.arrays.vals[b].flat| && j < |y.arrays.vals[b].flat|
    ensures PairBlocks(PlainArray, x, y, OuterKernel(op)).Ok?
    ensures var m := PairBlocks(PlainArray, x, y, OuterKernel(op)).value.arrays.vals[b];
      m.shape == [|x.arrays.vals[b].flat|, |y.arrays.vals[b].flat|]
      && At2(m, i, j) == Ring(op, x.arrays.vals[b].flat[i], y.arrays.vals[b].flat[j])
  {
    OuterSucceeds(op, x, y);
    var p, q := x.arrays.vals[b], y.arrays.vals[b];
    var m := PairBlocks(PlainArray, x, y, OuterKernel(op)).value.arrays.vals[b];
    OneDim(p);
    OneDim(q);
    assert m == OuterWith(op, Vector(p.flat), Vector(q.flat));
    OuterVectors(op, p.flat, q.flat, i, j);
  }

  /** For one-dimensional blocks, entry `(i, j)` of block `b` of `outer(a, b)` is the
      product `a[i] * b[j]` (`Ring(Mul, ...)`), in a `|a| x |b|` matrix. */
  lemma OuterEntry(x: ArrayC, y: ArrayC, b: Block, i: nat, j: nat)
    requires VectorPair(x, y) && b in x.arrays.vals
    requires i < |x.arrays.vals[b].flat| && j < |y.arrays.vals[b].flat|
    ensures Outer(ArrayObj(x), ArrayObj(y)).Ok?
    ensures var m := Outer(ArrayObj(x), ArrayObj(y)).value.arrays.vals[b];
      m.shape == [|x.arrays.vals[b].flat|, |y.arrays.vals[b].flat|]
      && At2(m, i, j) == Ring(Mul, x.arrays.vals[b].flat[i], y.arrays.vals[b].flat[j])
  {
    OuterBlockEntry(Mul, x, y, b, i, j);
    BinaryPaired(x, y, OuterKernel(Mul));
  }

  /** For one-dimensional blocks, entry `(i, j)` of block `b` of `add_outer(a, b)` is
      `a[i] + b[j]`, in a `|a| x |b|` matrix. */
  lemma AddOuterEntry(x: ArrayC, y: ArrayC, b: Block, i: nat, j: nat)
    requires VectorPair(x, y) && b in x.arrays.vals
    requires i < |x.arrays.vals[b].flat| && j < |y.arrays.vals[b].flat|
    ensures AddOuter(ArrayObj(x), ArrayObj(y)).Ok?
    ensures var m := AddOuter(ArrayObj(x), ArrayObj(y)).value.arrays.vals[b];
      m.shape == [|x.arrays.vals[b].flat|, |y.arrays.vals[b].flat|]
      && At2(m, i, j) == x.arrays.vals[b].flat[i] + y.arrays.vals[b].flat[j]
  {
    OuterBlockEntry(Add, x, y, b, i, j);
    BinaryPaired(x, y, OuterKernel(Add));
  }

  /** For one-dimensional blocks, entry `(i, j)` of block `b` of `subtract_outer(a, b)`
      is `a[i] - b[j]`, in a `|a| x |b|` matrix. */
  lemma SubtractOuterEntry(x: ArrayC, y: ArrayC, b: Block, i: nat, j: nat)
    requires VectorPair(x, y) && b in x.arrays.vals
    requires i < |x.arrays.vals[b].flat| && j < |y.arrays.vals[b].flat|
    ensures SubtractOuter(ArrayObj(x), ArrayObj(y)).Ok?
    ensures var m := SubtractOuter(ArrayObj(x), ArrayObj(y)).value.arrays.vals[b];
      m.shape == [|x.arrays.vals[b].flat|, |y.arrays.vals[b].flat|]
      && At2(m, i, j) == x.arrays.vals[b].flat[i] - y.arrays.vals[b].flat[j]
  {
    OuterBlockEntry(Sub, x, y, b, i, j);
    BinaryPaired(x, y, OuterKernel(Sub));
  }

  /** On two `Array`s over one ensemble, `outer` never fails and gives matrices. */
  lemma OuterNeverFails(x: ArrayC, y: ArrayC)
    requires x.Wf() && y.Wf() && x.cls.PlainArray? && y.cls.PlainArray? && x.ensemble == y.ensemble
    ensures Outer(ArrayObj(x), ArrayObj(y)).Ok? && Outer(ArrayObj(x), ArrayObj(y)).value.ndim == 2
  {
    OuterSucceeds(Mul, x, y);
    BinaryPaired(x, y, OuterKernel(Mul));
  }

  /** On two `Array`s over one ensemble, `add_outer` never fails and adds up the numbers
      of axes. */
  lemma AddOuterNeverFails(x: ArrayC, y: ArrayC)
    requires x.Wf() && y.Wf() && x.cls.PlainArray? && y.cls.PlainArray? && x.ensemble == y.ensemble
    ensures AddOuter(ArrayObj(x), ArrayObj(y)).Ok? && AddOuter(ArrayObj(x), ArrayObj(y)).value.ndim == x.ndim + y.ndim
  {
    OuterSucceeds(Add, x, y);
    BinaryPaired(x, y, OuterKernel(Add));
  }

  /** On two `Array`s over one ensemble, `subtract_outer` never fails and adds up the
      numbers of axes. */
  lemma SubtractOuterNeverFails(x: ArrayC, y: ArrayC)
    requires x.Wf() && y.Wf() && x.cls.PlainArray? && y.cls.PlainArray? && x.ensemble == y.ensemble
    ensures SubtractOuter(ArrayObj(x), ArrayObj(y)).Ok? && SubtractOuter(ArrayObj(x), ArrayObj(y)).value.ndim == x.ndim + y.ndim
  {
    OuterSucceeds(Sub, x, y);
    BinaryPaired(x, y, OuterKernel(Sub));
  }

  /** `[o.ensemble for o in operands]` as a set. */
  function EnsembleSet(operands: seq<Obj>): set<Ensemble>
    requires forall i :: 0 <= i < |operands| ==> IsArray(operands[i])
  {
    set i | 0 <= i < |operands| && operands[i].ArrayObj? :: operands[i].a.ensemble
  }

  /** `len(set(ensembles)) > 1` holds exactly when some operand's ensemble differs from
      the first one's. */
  lemma EnsembleSetSize(operands: seq<Obj>)
    requires |operands| > 0 && forall i :: 0 <= i < |operands| ==> IsArray(operands[i])
    ensures |EnsembleSet(operands)| > 1 <==> exists i :: 0 <= i < |operands| && operands[i].a.ensemble != operands[0].a.ensemble
  {
    var s, e0 := EnsembleSet(operands), operands[0].a.ensemble;
    if exists i :: 0 <= i < |operands| && operands[i].a.ensemble != e0 {
      var i :| 0 <= i < |operands| && operands[i].a.ensemble != e0;
      var rest := s - {e0};
      assert operands[i].a.ensemble in rest;
      assert s == rest + {e0};
    } else {
      assert s == {e0};
    }
  }

  /** `[o.array[block] for o in operands]`; a block missing from any operand raises
      KeyError. */
  function OperandBlocks(xs: seq<ArrayC>, b: Block): (r: Result<seq<NdArray>>)
    ensures r.Ok? <==> forall i :: 0 <= i < |xs| ==> b in xs[i].arrays.vals
    ensures r.Ok? ==> |r.value| == |xs| && forall i :: 0 <= i < |xs| ==> r.value[i] == xs[i].arrays.vals[b]
  {
    if forall i :: 0 <= i < |xs| ==> b in xs[i].arrays.vals then
      Ok(seq(|xs|, i requires 0 <= i < |xs| => xs[i].arrays.vals[b]))
    else Err(KeyError)
  }

  /** `np.einsum(subscripts, *arrs)` for one block. */
  function EinsumBlock(xs: seq<ArrayC>, einsum: KernelN, b: Block): (r: Result<NdArray>)
    ensures OperandBlocks(xs, b).Ok? ==> r == einsum(OperandBlocks(xs, b).value)
    ensures OperandBlocks(xs, b).Err? ==> r.Err?
  {
    var arrs :- OperandBlocks(xs, b);
    einsum(arrs)
  }

  /** The containers of the operands, once all of them are known to be `Array`s. */
  function OperandArrays(operands: seq<Obj>): (r: seq<ArrayC>)
    requires forall i :: 0 <= i < |operands| ==> operands[i].ArrayObj?
    ensures |r| == |operands| && forall i :: 0 <= i < |operands| ==> r[i] == operands[i].a
  {
    seq(|operands|, i requires 0 <= i < |operands| => operands[i].a)
  }

  /** The per-block loop of `einsum` over operands that share one ensemble. */
  function EinsumOver(xs: seq<ArrayC>, einsum: KernelN): (r: Result<ArrayC>)
    requires |xs| > 0 && xs[0].Wf()
    ensures r.Ok? ==>
      && r.value.Wf() && r.value.cls.PlainArray? && r.value.ensemble == xs[0].ensemble
      && r.value.arrays.keys == xs[0].arrays.keys
      && forall b :: b in r.value.arrays.vals ==>
           OperandBlocks(xs, b).Ok? && einsum(OperandBlocks(xs, b).value).Ok? && r.value.arrays.vals[b] == einsum(OperandBlocks(xs, b).value).value
    ensures (exists b :: b in xs[0].arrays.vals && EinsumBlock(xs, einsum, b).Err?) ==> r.Err?
    ensures r.Err? ==>
      r.error == ValueError || exists b :: b in xs[0].arrays.vals && EinsumBlock(xs, einsum, b) == Err(r.error)
  {
    var data :- ForBlocks(xs[0].ensemble, b => EinsumBlock(xs, einsum, b));
    assert xs[0].arrays.keys[0] in xs[0].arrays.vals;
    Arrays.FromArrays(PlainArray, xs[0].ensemble, data)
  }

  /** Every operand is an `Array` and all of them share the first one's ensemble: the
      checks of `einsum` pass. */
  ghost predicate SharedArrays(operands: seq<Obj>) {
    && |operands| > 0 && IsArray(operands[0])
    && forall i :: 0 <= i < |operands| ==> IsArray(operands[i]) && operands[i].a.ensemble == operands[0].a.ensemble
  }

  /** Operands over one ensemble hold every block of it, so collecting a block's arrays
      never raises KeyError. */
  lemma SharedBlocksRead(operands: seq<Obj>)
    requires forall i :: 0 <= i < |operands| ==> ObjWf(operands[i])
    requires SharedArrays(operands)
    ensures forall b :: b in operands[0].a.arrays.vals ==> OperandBlocks(OperandArrays(operands), b).Ok?
  {
    forall b | b in operands[0].a.arrays.vals
      ensures OperandBlocks(OperandArrays(operands), b).Ok?
    {
      forall i | 0 <= i < |operands|
        ensures b in OperandArrays(operands)[i].arrays.vals
      {
        assert ObjWf(operands[i]);
        assert b in operands[0].a.arrays.keys;
      }
    }
  }

  /** `einsum(subscripts, *operands)` with `np.einsum(subscripts, ...)` as the kernel:
      ValueError without operands, TypeError when any is not an `Array`, ValueError when
      they do not share one ensemble, then the kernel on every block over the first
      operand's ensemble. */
  function Einsum(operands: seq<Obj>, einsum: KernelN): (r: Result<ArrayC>)
    requires forall i :: 0 <= i < |operands| ==> ObjWf(operands[i])
    ensures |operands| == 0 ==> r == Err(ValueError)
    ensures |operands| > 0 && (exists i :: 0 <= i < |operands| && !IsArray(operands[i])) ==> r == Err(TypeError)
    ensures |operands| > 0 && (forall i :: 0 <= i < |operands| ==> IsArray(operands[i])) && |EnsembleSet(operands)| > 1 ==>
      r == Err(ValueError)
    ensures r.Ok? ==>
      && |operands| > 0 && (forall i :: 0 <= i < |operands| ==> IsArray(operands[i]) && operands[i].a.ensemble == operands[0].a.ensemble)
      && r.value.Wf() && r.value.cls.PlainArray? && r.value.ensemble == operands[0].a.ensemble
      && r.value.arrays.keys == operands[0].a.arrays.keys
      && forall b :: b in r.value.arrays.vals ==>
           && OperandBlocks(OperandArrays(operands), b).Ok?
           && einsum(OperandBlocks(OperandArrays(operands), b).value).Ok?
           && r.value.arrays.vals[b] == einsum(OperandBlocks(OperandArrays(operands), b).value).value
    ensures (SharedArrays(operands)
             && exists b :: b in operands[0].a.arrays.vals && OperandBlocks(OperandArrays(operands), b).Ok?
                            && einsum(OperandBlocks(OperandArrays(operands), b).value).Err?) ==>
      r.Err?
    ensures SharedArrays(operands) && r.Err? ==>
      r.error == ValueError
      || exists b :: b in operands[0].a.arrays.vals && OperandBlocks(OperandArrays(operands), b).Ok?
                     && einsum(OperandBlocks(OperandArrays(operands), b).value) == Err(r.error)
  {
    if |operands| == 0 then Err(ValueError)
    else if exists i :: 0 <= i < |operands| && !IsArray(operands[i]) then Err(TypeError)
    else
      EnsembleSetSize(operands);
      if |EnsembleSet(operands)| > 1 then Err(ValueError)
      else
        assert ObjWf(operands[0]);
        SharedBlocksRead(operands);
        EinsumOver(OperandArrays(operands), einsum)
  }

  /** When the kernel gives an array with `n` axes on every block of operands that share
      one ensemble, `einsum` succeeds with `n` axes, for any number of operands. */
  lemma EinsumUniform(operands: seq<Obj>, einsum: KernelN, n: nat)
    requires forall i :: 0 <= i < |operands| ==> ObjWf(operands[i])
    requires SharedArrays(operands)
    requires forall b :: b in operands[0].a.arrays.vals ==>
      && OperandBlocks(OperandArrays(operands), b).Ok?
      && einsum(OperandBlocks(OperandArrays(operands), b).value).Ok?
      && Ndim(einsum(OperandBlocks(OperandArrays(operands), b).value).value) == n
    ensures Einsum(operands, einsum).Ok? && Einsum(operands, einsum).value.ndim == n
  {
    var xs := OperandArrays(operands);
    var x0 := operands[0].a;
    assert ObjWf(operands[0]);
    EnsembleSetSize(operands);
    assert |EnsembleSet(operands)| <= 1;
    var data := ForBlocks(x0.ensemble, b => EinsumBlock(xs, einsum, b));
    assert forall i :: 0 <= i < |x0.ensemble.Keys()| ==> x0.ensemble.Keys()[i] in x0.arrays.vals;
    assert data.Ok?;
    assert x0.arrays.keys[0] in data.value.vals;
    assert forall b :: b in data.value.vals ==> Ndim(data.value.vals[b]) == n;
    assert Einsum(operands, einsum) == EinsumOver(xs, einsum);
  }

  /** A two-array kernel seen as a kernel of an operand list. */
  function Lift2(k: Kernel2): (r: KernelN)
    ensures forall p, q :: r([p, q]) == k(p, q)
  {
    arrs => if |arrs| == 2 then k(arrs[0], arrs[1]) else Err(Unmodelled)
  }

  /** The einsum loop over two operands visits the same blocks as the paired loop. */
  lemma EinsumOverPair(x: ArrayC, y: ArrayC, k: Kernel2)
    requires x.Wf() && y.Wf() && x.ensemble == y.ensemble
    ensures EinsumOver([x, y], Lift2(k)) == PairBlocks(PlainArray, x, y, k)
  {
    var e, xs := x.ensemble, [x, y];
    forall i | 0 <= i < |e.Keys()|
      ensures EinsumBlock(xs, Lift2(k), e.Keys()[i]) == PairKernel(x, y, k, e.Keys()[i])
    {
      var blk := e.Keys()[i];
      assert blk in x.arrays.vals && blk in y.arrays.vals;
      assert OperandBlocks(xs, blk).value == [x.arrays.vals[blk], y.arrays.vals[blk]];
    }
    TraverseCongruent(e.Keys(), b => EinsumBlock(xs, Lift2(k), b), b => PairKernel(x, y, k, b));
  }

  /** `einsum` on two operands with a kernel of two arrays is the paired operation of
      `dot` and the outer products with that kernel: same checks in the same order,
      same blocks. */
  lemma EinsumOfTwo(a: Obj, b: Obj, k: Kernel2)
    requires ObjWf(a) && ObjWf(b)
    ensures Einsum([a, b], Lift2(k)) == Binary(a, b, k)
  {
    if IsArray(a) && IsArray(b) {
      EinsumTwoArrays(a, b, k);
      if a.a.ensemble == b.a.ensemble {
        EinsumOverPair(a.a, b.a, k);
      }
    } else {
      EinsumTwoTypes(a, b, k);
    }
  }

  /** Two `Array` operands: the ensemble check, then the loop over the arrays. */
  lemma EinsumTwoArrays(a: Obj, b: Obj, k: Kernel2)
    requires ObjWf(a) && ObjWf(b) && IsArray(a) && IsArray(b)
    ensures a.a.ensemble != b.a.ensemble ==> Einsum([a, b], Lift2(k)) == Err(ValueError) == Binary(a, b, k)
    ensures a.a.ensemble == b.a.ensemble ==>
      Einsum([a, b], Lift2(k)) == EinsumOver([a.a, b.a], Lift2(k)) && Binary(a, b, k) == PairBlocks(PlainArray, a.a, b.a, k)
  {
    var ops := [a, b];
    EnsembleSetSize(ops);
    if a.a.ensemble == b.a.ensemble {
      assert OperandArrays(ops) == [a.a, b.a];
    } else {
      assert ops[1].a.ensemble != ops[0].a.ensemble;
    }
  }

  /** An operand that is not an `Array` fails both with TypeError. */
  lemma EinsumTwoTypes(a: Obj, b: Obj, k: Kernel2)
    requires ObjWf(a) && ObjWf(b) && !(IsArray(a) && IsArray(b))
    ensures Einsum([a, b], Lift2(k)) == Err(TypeError) == Binary(a, b, k)
  {
    var ops := [a, b];
    assert !IsArray(ops[0]) || !IsArray(ops[1]);
  }

  /** `ensemble_expm(A)`, `ensemble_transpose(A)` and `ensemble_conj(A)` share one shape:
      no type check, the kernel of every block, and an `EnsembleArray` over `A`'s
      ensemble. */
  ghost predicate EnsembleUnaryContract(A: ArrayC, k: Kernel, r: Result<ArrayC>) {
    && (r.Ok? ==> r.value.cls.EnsembleArrayClass? && Blockwise(A, k, r.value))
    && ((exists b :: b in A.arrays.vals && k(A.arrays.vals[b]).Err?) ==> r.Err?)
    && ((forall b :: b in A.arrays.vals ==> k(A.arrays.vals[b]).Ok? && Ndim(k(A.arrays.vals[b]).value) == A.ndim) ==>
          r.Ok? && r.value.ndim == A.ndim)
  }

  /** `ensemble_expm(A)` with `scipy.linalg.expm` as the kernel. */
  function EnsembleExpm(A: ArrayC, expm: Kernel): (r: Result<ArrayC>)
    requires A.Wf()
    ensures EnsembleUnaryContract(A, expm, r)
  {
    ApplyBlocks(EnsembleArrayClass, A, expm)
  }

  /** `ensemble_transpose(A)` with `np.transpose` as the kernel. */
  function EnsembleTranspose(A: ArrayC, transpose: Kernel): (r: Result<ArrayC>)
    requires A.Wf()
    ensures EnsembleUnaryContract(A, transpose, r)
  {
    ApplyBlocks(EnsembleArrayClass, A, transpose)
  }

  /** `ensemble_conj(A)` with `np.conj` as the kernel. */
  function EnsembleConj(A: ArrayC, conj: Kernel): (r: Result<ArrayC>)
    requires A.Wf()
    ensures EnsembleUnaryContract(A, conj, r)
  {
    ApplyBlocks(EnsembleArrayClass, A, conj)
  }

  /** On an `Array`, `expm` and `ensemble_expm` compute the same blocks and differ only
      in the class of the result (and likewise `transpose` and `conj`). */
  lemma EnsembleUnaryAgrees(x: ArrayC, k: Kernel)
    requires x.Wf() && x.cls.PlainArray?
    ensures Unary(ArrayObj(x), k).Ok? <==> EnsembleExpm(x, k).Ok?
    ensures Unary(ArrayObj(x), k).Err? ==> Unary(ArrayObj(x), k).error == EnsembleExpm(x, k).error
    ensures Unary(ArrayObj(x), k).Ok? ==> EnsembleExpm(x, k).value == Unary(ArrayObj(x), k).value.(cls := EnsembleArrayClass)
  {
  }

  /** `ensemble_dot(a, b)` of `ensemble_array.py` with `np.dot` as the kernel: no type
      check, ValueError unless both share one ensemble, then `np.dot` of every pair of
      blocks as an `EnsembleArray`. */
  function EnsembleDot(a: ArrayC, b: ArrayC, dot: Kernel2): (r: Result<ArrayC>)
    requires a.Wf() && b.Wf()
    ensures a.ensemble != b.ensemble ==> r == Err(ValueError)
    ensures r.Ok? ==> a.ensemble == b.ensemble && r.value.cls.EnsembleArrayClass? && Pairwise(a, b, dot, r.value)
    ensures a.ensemble == b.ensemble && (exists blk :: blk in a.arrays.vals && dot(a.arrays.vals[blk], b.arrays.vals[blk]).Err?) ==>
      r.Err?
  {
    if a.ensemble != b.ensemble then Err(ValueError) else PairBlocks(EnsembleArrayClass, a, b, dot)
  }

  /** On two `Array`s, `dot` and `ensemble_dot` compute the same blocks and differ only
      in the class of the result. */
  lemma EnsembleDotAgrees(x: ArrayC, y: ArrayC, k: Kernel2)
    requires x.Wf() && y.Wf() && x.cls.PlainArray? && y.cls.PlainArray?
    ensures Dot(ArrayObj(x), ArrayObj(y), k).Ok? <==> EnsembleDot(x, y, k).Ok?
    ensures Dot(ArrayObj(x), ArrayObj(y), k).Err? ==> Dot(ArrayObj(x), ArrayObj(y), k).error == EnsembleDot(x, y, k).error
    ensures Dot(ArrayObj(x), ArrayObj(y), k).Ok? ==>
      EnsembleDot(x, y, k).value == Dot(ArrayObj(x), ArrayObj(y), k).value.(cls := EnsembleArrayClass)
  {
  }
}
