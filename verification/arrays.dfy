/** The array containers `Array` (array.py) and `EnsembleArray` (ensemble_array.py):
    one n-d array per block, built from a dictionary, combined element by element with
    numbers and with other per-block data, and indexed block by block. */
module Arrays {
  import opened Results
  import opened OrderedDicts
  import opened Ensembles
  import opened NdArrays
  import opened Values
  import opened Containers

  /** The datum the constructor reads for one block: `data[block]`, or
      `data[block][tag]` when a tag is given, passed through `np.array(..., dtype)`. */
  function BlockDatum(data: Value, b: Block, tag: Tag, dtype: DType): (r: Result<NdArray>)
    requires !tag.OtherTag?
    ensures r.Ok? ==> (data.Dict? && BlockKey(b) in data.entries) || (data.Arr? && b == [] && tag.NoTag?)
    ensures data.Dict? && BlockKey(b) !in data.entries ==> r == Err(KeyError)
    ensures tag.NoTag? && data.Dict? && BlockKey(b) in data.entries ==>
      r == ToArray(data.entries[BlockKey(b)], dtype)
    ensures tag.StrTag? && r.Ok? ==>
      var x := data.entries[BlockKey(b)];
      x.Dict? && StrKey(tag.s) in x.entries && r == ToArray(x.entries[StrKey(tag.s)], dtype)
  {
    var x :- Subscript(data, BlockKey(b));
    if tag.NoTag? then ToArray(x, dtype)
    else
      var y :- Subscript(x, StrKey(tag.s));
      ToArray(y, dtype)
  }

  /** `np.unique` of the blocks' numbers of axes must hold exactly one value: no blocks
      at all, or two different numbers of axes, raise ValueError. */
  function CommonNdim(d: ODict<Block, NdArray>): (r: Result<nat>)
    requires d.Valid()
    ensures r.Ok? <==> |d.keys| > 0 && forall b :: b in d.vals ==> Ndim(d.vals[b]) == Ndim(d.vals[d.keys[0]])
    ensures r.Ok? ==> forall b :: b in d.vals ==> Ndim(d.vals[b]) == r.value
    ensures r.Err? ==> r.error == ValueError
  {
    if |d.keys| == 0 then Err(ValueError)
    else
      var n := Ndim(d.vals[d.keys[0]]);
      if forall b :: b in d.vals ==> Ndim(d.vals[b]) == n then Ok(n) else Err(ValueError)
  }

  /** The loop of the constructor: one array per block of the ensemble, in iteration
      order; the first block whose datum cannot be read aborts it. */
  function ReadBlocks(e: Ensemble, data: Value, tag: Tag, dtype: DType): (r: Result<ODict<Block, NdArray>>)
    requires e.Valid() && !tag.OtherTag?
    ensures r.Ok? <==> forall i :: 0 <= i < |e.Keys()| ==> BlockDatum(data, e.Keys()[i], tag, dtype).Ok?
    ensures r.Ok? ==> r.value.Valid() && r.value.keys == e.Keys()
    ensures r.Ok? ==> forall b :: b in r.value.vals ==>
      BlockDatum(data, b, tag, dtype).Ok? && r.value.vals[b] == BlockDatum(data, b, tag, dtype).value
    ensures r.Err? ==>
      exists i :: 0 <= i < |e.Keys()| && BlockDatum(data, e.Keys()[i], tag, dtype) == Err(r.error)
        && forall j :: 0 <= j < i ==> BlockDatum(data, e.Keys()[j], tag, dtype).Ok?
  {
    ForBlocks(e, b => BlockDatum(data, b, tag, dtype))
  }

  /** The constructor as the operations call it, on a fresh `OrderedDict` holding one
      array per block of the ensemble (see `ReadArrays`): the container holds exactly
      those arrays, unless their numbers of axes differ. */
  function FromArrays(cls: ArrayClass, e: Ensemble, data: ODict<Block, NdArray>): (r: Result<ArrayC>)
    requires e.Valid() && data.Valid() && data.keys == e.Keys()
    ensures r.Ok? <==>
      |data.keys| > 0 && forall b :: b in data.vals ==> Ndim(data.vals[b]) == Ndim(data.vals[data.keys[0]])
    ensures r.Ok? ==> r.value.Wf() && r.value == ArrayC(cls, e, data, Ndim(data.vals[data.keys[0]]))
    ensures r.Err? ==> r.error == ValueError
  {
    var n :- CommonNdim(data);
    Ok(ArrayC(cls, e, data, n))
  }

  /** `Array(ensemble, data, tag, dtype)` and `EnsembleArray(...)`: the type checks, then
      one array per block of the ensemble in iteration order, then the common number of
      axes. */
  function New(cls: ArrayClass, ensemble: Obj, data: Obj, tag: Tag, dtype: DType): (r: Result<ArrayC>)
    requires ObjWf(ensemble)
    ensures !ensemble.EnsembleObj? ==> r == Err(TypeError)
    ensures ensemble.EnsembleObj? && !IsOrderedDict(data) ==> r == Err(TypeError)
    ensures ensemble.EnsembleObj? && IsOrderedDict(data) && tag.OtherTag? ==> r == Err(TypeError)
    ensures r.Ok? ==>
      && ensemble.EnsembleObj? && IsOrderedDict(data) && !tag.OtherTag?
      && r.value.Wf() && r.value.cls == cls && r.value.ensemble == ensemble.e
      && forall b :: b in r.value.arrays.vals ==>
           BlockDatum(data.v, b, tag, dtype).Ok? && r.value.arrays.vals[b] == BlockDatum(data.v, b, tag, dtype).value
  {
    if !ensemble.EnsembleObj? then Err(TypeError)
    else if !IsOrderedDict(data) then Err(TypeError)
    else if tag.OtherTag? then Err(TypeError)
    else
      var arrays :- ReadBlocks(ensemble.e, data.v, tag, dtype);
      FromArrays(cls, ensemble.e, arrays)
  }

  /** Once every block's datum is read, the constructor succeeds exactly when there is a
      block and all the arrays have the same number of axes. */
  lemma NewUniform(cls: ArrayClass, e: Ensemble, data: Value, tag: Tag, dtype: DType)
    requires e.Valid() && data.Dict? && data.ordered && !tag.OtherTag?
    requires forall i :: 0 <= i < |e.Keys()| ==> BlockDatum(data, e.Keys()[i], tag, dtype).Ok?
    ensures var ks := e.Keys();
      New(cls, EnsembleObj(e), Plain(data), tag, dtype).Ok? <==>
        |ks| > 0 && forall i :: 0 <= i < |ks| ==>
          Ndim(BlockDatum(data, ks[i], tag, dtype).value) == Ndim(BlockDatum(data, ks[0], tag, dtype).value)
  {
    NewIsFromArrays(cls, e, data, tag, dtype);
    ReadUniform(cls, e, data, tag, dtype);
  }

  lemma NewIsFromArrays(cls: ArrayClass, e: Ensemble, data: Value, tag: Tag, dtype: DType)
    requires e.Valid() && data.Dict? && data.ordered && !tag.OtherTag?
    requires ReadBlocks(e, data, tag, dtype).Ok?
    ensures New(cls, EnsembleObj(e), Plain(data), tag, dtype) == FromArrays(cls, e, ReadBlocks(e, data, tag, dtype).value)
  {
  }

  lemma ReadUniform(cls: ArrayClass, e: Ensemble, data: Value, tag: Tag, dtype: DType)
    requires e.Valid() && !tag.OtherTag?
    requires ReadBlocks(e, data, tag, dtype).Ok?
    ensures var ks := e.Keys();
      FromArrays(cls, e, ReadBlocks(e, data, tag, dtype).value).Ok? <==>
        |ks| > 0 && forall i :: 0 <= i < |ks| ==>
          Ndim(BlockDatum(data, ks[i], tag, dtype).value) == Ndim(BlockDatum(data, ks[0], tag, dtype).value)
  {
    var ks := e.Keys();
    var arrays := ReadBlocks(e, data, tag, dtype).value;
    forall i | 0 <= i < |ks|
      ensures ks[i] in arrays.vals && arrays.vals[ks[i]] == BlockDatum(data, ks[i], tag, dtype).value
    {
      assert ks[i] in arrays.keys;
    }
    if |ks| > 0 { UniformByIndex(arrays); }
  }

  /** Equal numbers of axes over the blocks, stated by position. */
  lemma UniformByIndex(d: ODict<Block, NdArray>)
    requires d.Valid() && |d.keys| > 0
    ensures (forall b :: b in d.vals ==> Ndim(d.vals[b]) == Ndim(d.vals[d.keys[0]])) <==>
      (forall i :: 0 <= i < |d.keys| ==> Ndim(d.vals[d.keys[i]]) == Ndim(d.vals[d.keys[0]]))
  {
    if forall i :: 0 <= i < |d.keys| ==> Ndim(d.vals[d.keys[i]]) == Ndim(d.vals[d.keys[0]]) {
      forall b | b in d.vals
        ensures Ndim(d.vals[b]) == Ndim(d.vals[d.keys[0]])
      {
        var i :| 0 <= i < |d.keys| && d.keys[i] == b;
      }
    }
  }

  /** Past the type checks, the constructor fails with the error of the first block
      whose datum cannot be read, or with ValueError for mismatched numbers of axes. */
  lemma NewError(cls: ArrayClass, e: Ensemble, data: Value, tag: Tag, dtype: DType)
    requires e.Valid() && data.Dict? && data.ordered && !tag.OtherTag?
    requires New(cls, EnsembleObj(e), Plain(data), tag, dtype).Err?
    ensures var ks := e.Keys();
      (exists i :: 0 <= i < |ks| && BlockDatum(data, ks[i], tag, dtype).Err?) ==>
        exists i :: 0 <= i < |ks| && BlockDatum(data, ks[i], tag, dtype) == Err(New(cls, EnsembleObj(e), Plain(data), tag, dtype).error)
          && forall j :: 0 <= j < i ==> BlockDatum(data, ks[j], tag, dtype).Ok?
    ensures var ks := e.Keys();
      (forall i :: 0 <= i < |ks| ==> BlockDatum(data, ks[i], tag, dtype).Ok?) ==>
        New(cls, EnsembleObj(e), Plain(data), tag, dtype).error == ValueError
  {
  }

  /** Reading the `OrderedDict` of a container's own arrays gives those arrays back. */
  lemma ReadArrays(e: Ensemble, data: ODict<Block, NdArray>)
    requires e.Valid() && data.Valid() && data.keys == e.Keys()
    ensures ReadBlocks(e, ArrayDictValue(data), NoTag, None) == Ok(data)
  {
    var ks := e.Keys();
    forall i | 0 <= i < |ks|
      ensures BlockDatum(ArrayDictValue(data), ks[i], NoTag, None).Ok?
    {
      assert ks[i] in data.vals;
      ArrayDatum(data, ks[i]);
    }
    var r := ReadBlocks(e, ArrayDictValue(data), NoTag, None).value;
    forall b | b in r.vals
      ensures b in data.vals && r.vals[b] == data.vals[b]
    {
      ArrayDatum(data, b);
    }
    SameDict(r, data);
  }

  lemma ArrayDatum(data: ODict<Block, NdArray>, b: Block)
    requires data.Valid() && b in data.vals
    ensures BlockDatum(ArrayDictValue(data), b, NoTag, None) == Ok(data.vals[b])
  {
  }

  lemma SameDict(r: ODict<Block, NdArray>, data: ODict<Block, NdArray>)
    requires r.Valid() && data.Valid() && r.keys == data.keys
    requires forall b :: b in r.vals ==> b in data.vals && r.vals[b] == data.vals[b]
    ensures r == data
  {
    assert r.vals == data.vals;
  }

  /** `FromArrays` is the constructor applied to the `OrderedDict` of the arrays. */
  lemma FromArraysIsNew(cls: ArrayClass, e: Ensemble, data: ODict<Block, NdArray>)
    requires e.Valid() && data.Valid() && data.keys == e.Keys()
    ensures FromArrays(cls, e, data) == New(cls, EnsembleObj(e), Plain(ArrayDictValue(data)), NoTag, None)
  {
    ReadArrays(e, data);
  }

  /** `other[block]` as the operators evaluate it: a dictionary and a `Scalar` are looked
      up by block; an array container applies its own `__getitem__`, which indexes each
      of its blocks with the block key; other objects have no `[]`. */
  function Lookup(other: Obj, b: Block): (r: Result<Obj>)
    requires ObjWf(other)
    ensures other.Plain? ==>
      (r.Ok? <==> Subscript(other.v, BlockKey(b)).Ok?) && (r.Ok? ==> r == Ok(Plain(Subscript(other.v, BlockKey(b)).value)))
    ensures other.ScalarObj? && other.s.cls.PlainScalar? ==>
      (r.Ok? <==> b in other.s.scalar.vals) && (r.Ok? ==> r == Ok(Plain(other.s.scalar.vals[b])))
    ensures other.ScalarObj? && other.s.cls.PlainScalar? && r.Err? ==> r.error == KeyError
    ensures other.ArrayObj? && other.a.ndim > 0 && |b| > 0 && HasFilledBlock(other.a) ==> r == Err(IndexError)
    ensures other.EnsembleObj? || other.TriDiagObj? || (other.ScalarObj? && other.s.cls.EnsembleScalarClass?) ==>
      r == Err(TypeError)
  {
    match other
    case Plain(v) =>
      var x :- Subscript(v, BlockKey(b));
      Ok(Plain(x))
    case ScalarObj(s) =>
      if s.cls.PlainScalar? then
        var x :- s.scalar.Get(b);
        Ok(Plain(x))
      else Err(TypeError)
    case ArrayObj(a) =>
      var y :- GetItem(a, Label(b));
      Ok(ArrayObj(y))
    case _ => Err(TypeError)
  }

  /** `x op c` for a number `c` (the `np.isscalar(other)` branch): every block against
      the number, keeping its shape. */
  function NumberOp(x: ArrayC, op: Op, c: real): (r: Result<ArrayC>)
    requires x.Wf()
    ensures r.Ok? <==> forall b :: b in x.arrays.vals ==> BroadcastOp(op, x.arrays.vals[b], Scalar0(c)).Ok?
    ensures r.Ok? ==>
      && r.value.Wf() && r.value.cls == x.cls && r.value.ensemble == x.ensemble
      && r.value.ndim == x.ndim && r.value.arrays.keys == x.arrays.keys
      && forall b :: b in x.arrays.vals ==> r.value.arrays.vals[b] == BroadcastOp(op, x.arrays.vals[b], Scalar0(c)).value
  {
    var data :- MapBlocks(x.arrays, (b, arr) => BroadcastOp(op, arr, Scalar0(c)));
    assert x.arrays.keys[0] in x.arrays.vals;
    NumberShapes(x, op, c);
    FromArrays(x.cls, x.ensemble, data)
  }

  lemma NumberShapes(x: ArrayC, op: Op, c: real)
    requires x.Wf()
    ensures forall b :: b in x.arrays.vals && BroadcastOp(op, x.arrays.vals[b], Scalar0(c)).Ok? ==>
      BroadcastOp(op, x.arrays.vals[b], Scalar0(c)).value.shape == x.arrays.vals[b].shape
  {
    forall b | b in x.arrays.vals {
      BroadcastNumber(op, x.arrays.vals[b], c);
    }
  }

  /** A container against a number succeeds exactly when every element does. */
  lemma NumberOperand(x: ArrayC, op: Op, c: real)
    requires x.Wf()
    ensures NumberOp(x, op, c).Ok? <==>
      forall b, p :: b in x.arrays.vals && 0 <= p < |x.arrays.vals[b].flat| ==> ApplyNum(op, x.arrays.vals[b].flat[p], c).Ok?
  {
    forall b | b in x.arrays.vals {
      BroadcastNumber(op, x.arrays.vals[b], c);
    }
  }

  /** Each element of a container against a number is that element against the number,
      in a block of unchanged shape. */
  lemma NumberElement(x: ArrayC, op: Op, c: real, b: Block, p: nat)
    requires x.Wf() && NumberOp(x, op, c).Ok?
    requires b in x.arrays.vals && p < |x.arrays.vals[b].flat|
    ensures NumberOp(x, op, c).value.arrays.vals[b].shape == x.arrays.vals[b].shape
    ensures NumberOp(x, op, c).value.arrays.vals[b].flat[p] == ApplyNum(op, x.arrays.vals[b].flat[p], c).value
  {
    BroadcastNumber(op, x.arrays.vals[b], c);
  }

  /** One block of `x op other[block]`. When `other[block]` is itself a container (an
      array container indexed with `()`), numpy's object-array fallback decides, which
      is outside the model. */
  function LookupOp(op: Op, arr: NdArray, b: Block, other: Obj): (r: Result<NdArray>)
    requires ObjWf(other)
    ensures r.Ok? ==> Lookup(other, b).Ok? && Lookup(other, b).value.Plain? && r == ArrayOp(op, arr, Lookup(other, b).value.v)
    ensures Lookup(other, b).Err? ==> r == Err(Lookup(other, b).error)
    ensures Lookup(other, b).Ok? && !Lookup(other, b).value.Plain? ==> r == Err(Unmodelled)
  {
    var o :- Lookup(other, b);
    if o.Plain? then ArrayOp(op, arr, o.v) else Err(Unmodelled)
  }

  /** How the per-block loop fails: a failing block aborts it with its own error, the
      first in iteration order deciding; otherwise only the constructor's check of the
      numbers of axes (ValueError) remains. */
  ghost predicate ContainerOpErrors(x: ArrayC, op: Op, other: Obj, r: Result<ArrayC>)
    requires x.Wf() && ObjWf(other)
  {
    var ks := x.arrays.keys;
    && ((exists b :: b in x.arrays.vals && LookupOp(op, x.arrays.vals[b], b, other).Err?) ==> r.Err?)
    && (r.Err? && (forall b :: b in x.arrays.vals ==> LookupOp(op, x.arrays.vals[b], b, other).Ok?) ==>
          r.error == ValueError)
    && (r.Err? && (exists b :: b in x.arrays.vals && LookupOp(op, x.arrays.vals[b], b, other).Err?) ==>
          exists i :: 0 <= i < |ks| && LookupOp(op, x.arrays.vals[ks[i]], ks[i], other) == Err(r.error)
            && forall j :: 0 <= j < i ==> LookupOp(op, x.arrays.vals[ks[j]], ks[j], other).Ok?)
  }

  /** `x op other` for anything but a number: every block against `other[block]`. */
  function ContainerOp(x: ArrayC, op: Op, other: Obj): (r: Result<ArrayC>)
    requires x.Wf() && ObjWf(other)
    ensures ContainerOpErrors(x, op, other, r)
    ensures r.Ok? ==>
      && r.value.Wf() && r.value.cls == x.cls && r.value.ensemble == x.ensemble
      && r.value.arrays.keys == x.arrays.keys
      && forall b :: b in x.arrays.vals ==>
           LookupOp(op, x.arrays.vals[b], b, other).Ok? && r.value.arrays.vals[b] == LookupOp(op, x.arrays.vals[b], b, other).value
  {
    var data :- MapBlocks(x.arrays, (b, arr) => LookupOp(op, arr, b, other));
    assert x.arrays.keys[0] in x.arrays.vals;
    FromArrays(x.cls, x.ensemble, data)
  }

  /** `x + other`, `x - other`, `x * other`, `x / other` on `Array` (and `+`, `-` on
      `EnsembleArray`): the number branch or the per-block branch, wrapped in a
      container of the same class over the same ensemble. */
  function Elementwise(x: ArrayC, op: Op, other: Obj): (r: Result<ArrayC>)
    requires x.Wf() && ObjWf(other)
    ensures r.Ok? ==>
      && r.value.Wf() && r.value.cls == x.cls && r.value.ensemble == x.ensemble
      && r.value.arrays.keys == x.arrays.keys
    ensures IsScalarObj(other) ==>
      && (r.Ok? <==> forall b :: b in x.arrays.vals ==> BroadcastOp(op, x.arrays.vals[b], Scalar0(other.v.x)).Ok?)
      && (r.Ok? ==> forall b :: b in x.arrays.vals ==>
            r.value.arrays.vals[b] == BroadcastOp(op, x.arrays.vals[b], Scalar0(other.v.x)).value)
    ensures !IsScalarObj(other) && r.Ok? ==> forall b :: b in x.arrays.vals ==>
      LookupOp(op, x.arrays.vals[b], b, other).Ok? && r.value.arrays.vals[b] == LookupOp(op, x.arrays.vals[b], b, other).value
    ensures !IsScalarObj(other) ==> ContainerOpErrors(x, op, other, r)
  {
    if IsScalarObj(other) then NumberOp(x, op, other.v.x) else ContainerOp(x, op, other)
  }

  /** The operators of both classes: `EnsembleArray` accepts only numbers for `*` and
      `/` and raises TypeError otherwise; everything else is `Elementwise`. */
  function Operator(x: ArrayC, op: Op, other: Obj): (r: Result<ArrayC>)
    requires x.Wf() && ObjWf(other)
    ensures x.cls.EnsembleArrayClass? && (op.Mul? || op.Div?) && !IsScalarObj(other) ==> r == Err(TypeError)
    ensures x.cls.PlainArray? || op.Add? || op.Sub? || IsScalarObj(other) ==> r == Elementwise(x, op, other)
  {
    if x.cls.EnsembleArrayClass? && (op.Mul? || op.Div?) && !IsScalarObj(other) then Err(TypeError)
    else Elementwise(x, op, other)
  }

  /** `c * x` (`__rmul__`): multiplying by a number on the left never fails and keeps
      every block's shape (`RMulElement` gives the elements). */
  function RMul(x: ArrayC, other: Obj): (r: Result<ArrayC>)
    requires x.Wf() && ObjWf(other)
    ensures IsScalarObj(other) ==>
      && r.Ok? && r.value.Wf() && r.value.ndim == x.ndim && r.value.arrays.keys == x.arrays.keys
      && forall b :: b in x.arrays.vals ==> r.value.arrays.vals[b].shape == x.arrays.vals[b].shape
    ensures !IsScalarObj(other) ==> r == Operator(x, Mul, other)
  {
    var r := Operator(x, Mul, other);
    assert IsScalarObj(other) ==> r == NumberOp(x, Mul, other.v.x) && r.Ok?;
    r
  }

  /** Every element of `c * x` is the element of `x` times `c`. */
  lemma RMulElement(x: ArrayC, c: real, b: Block, p: nat)
    requires x.Wf() && b in x.arrays.vals && p < |x.arrays.vals[b].flat|
    ensures RMul(x, Plain(Num(c))).value.arrays.vals[b].flat[p] == Ring(Mul, x.arrays.vals[b].flat[p], c)
  {
    RMulIsNumberOp(x, c);
    NumberElement(x, Mul, c, b, p);
  }

  lemma RMulIsNumberOp(x: ArrayC, c: real)
    requires x.Wf()
    ensures RMul(x, Plain(Num(c))) == NumberOp(x, Mul, c)
  {
  }

  /** Adding a number and subtracting it again gives back the container. */
  lemma AddSubNumber(x: ArrayC, c: real)
    requires x.Wf()
    ensures NumberOp(x, Add, c).Ok?
    ensures NumberOp(NumberOp(x, Add, c).value, Sub, c) == Ok(x)
  {
    NumberOperand(x, Add, c);
    var y := NumberOp(x, Add, c).value;
    NumberOperand(y, Sub, c);
    var z := NumberOp(y, Sub, c).value;
    forall b | b in x.arrays.vals
      ensures z.arrays.vals[b] == x.arrays.vals[b]
    {
      AddSubBlock(x, c, b);
    }
    SameContainer(x, z);
  }

  /** Two containers with the same class, ensemble, axes and blocks are equal. */
  lemma SameContainer(x: ArrayC, z: ArrayC)
    requires x.Wf() && z.Wf() && z.cls == x.cls && z.ensemble == x.ensemble && z.ndim == x.ndim
    requires forall b :: b in x.arrays.vals ==> z.arrays.vals[b] == x.arrays.vals[b]
    ensures z == x
  {
    assert z.arrays.vals == x.arrays.vals;
  }

  lemma AddSubBlock(x: ArrayC, c: real, b: Block)
    requires x.Wf() && b in x.arrays.vals
    requires NumberOp(x, Add, c).Ok? && NumberOp(NumberOp(x, Add, c).value, Sub, c).Ok?
    ensures NumberOp(NumberOp(x, Add, c).value, Sub, c).value.arrays.vals[b] == x.arrays.vals[b]
  {
    NumberRoundTrip(x.arrays.vals[b], c);
  }

  /** Some block has an empty first axis / some block has a non-empty one. */
  ghost predicate HasEmptyBlock(x: ArrayC)
    requires x.ndim > 0 && x.Wf()
  {
    exists b :: b in x.arrays.vals && x.arrays.vals[b].shape[0] == 0
  }

  ghost predicate HasFilledBlock(x: ArrayC)
    requires x.ndim > 0 && x.Wf()
  {
    exists b :: b in x.arrays.vals && x.arrays.vals[b].shape[0] > 0
  }

  /** `arr[k]` for one block; a block with an empty first axis becomes `np.empty(0)`
      (`self.ndim * (0)` is the number 0, not a shape). */
  function GetBlock(arr: NdArray, k: Index): (r: Result<NdArray>)
    ensures Ndim(arr) == 0 ==> r == Err(TypeError)
    ensures Ndim(arr) > 0 && arr.shape[0] == 0 ==> r == Ok(Empty1())
    ensures Ndim(arr) > 0 && arr.shape[0] > 0 ==> r == IndexWith(arr, k)
  {
    var n :- Len(arr);
    if n > 0 then IndexWith(arr, k) else Ok(Empty1())
  }

  /** A block's result has one axis less for a position, all of them for `()`, and one
      axis when the block is empty. */
  lemma GetBlockNdim(arr: NdArray, k: Index)
    requires Ndim(arr) > 0 && GetBlock(arr, k).Ok?
    ensures Ndim(GetBlock(arr, k).value) ==
      if arr.shape[0] == 0 then 1 else if k.At? then Ndim(arr) - 1 else Ndim(arr)
  {
  }

  /** `x[k]`: every block indexed with `k`. A 0-d container has no length; indexing with
      a non-empty block key fails in numpy while `()` keeps every block whole; and an
      empty block yields a 1-d empty array, so the blocks' results need not agree in
      their number of axes. */
  function GetItem(x: ArrayC, k: Index): (r: Result<ArrayC>)
    requires x.Wf()
    ensures x.ndim == 0 ==> r == Err(TypeError)
    ensures x.ndim > 0 && k.Label? && |k.b| > 0 && HasFilledBlock(x) ==> r == Err(IndexError)
    ensures r.Ok? ==>
      && x.ndim > 0 && r.value.Wf() && r.value.cls == x.cls && r.value.ensemble == x.ensemble
      && r.value.arrays.keys == x.arrays.keys
      && r.value.ndim == (if !HasFilledBlock(x) then 1 else if k.At? then x.ndim - 1 else x.ndim)
      && forall b :: b in x.arrays.vals ==>
           if x.arrays.vals[b].shape[0] == 0 then r.value.arrays.vals[b] == Empty1()
           else IndexWith(x.arrays.vals[b], k).Ok? && r.value.arrays.vals[b] == IndexWith(x.arrays.vals[b], k).value
  {
    var data :- IndexBlocks(x, k);
    assert x.arrays.keys[0] in x.arrays.vals;
    IndexedNdim(x, k, data);
    FromArrays(x.cls, x.ensemble, data)
  }

  /** When the indexed blocks agree in their number of axes, that number is the one the
      filled blocks (or, lacking any, the empty blocks) give. */
  lemma IndexedNdim(x: ArrayC, k: Index, data: ODict<Block, NdArray>)
    requires x.Wf() && IndexBlocks(x, k) == Ok(data)
    ensures x.ndim > 0 && FromArrays(x.cls, x.ensemble, data).Ok? ==>
      Ndim(data.vals[data.keys[0]]) == (if !HasFilledBlock(x) then 1 else if k.At? then x.ndim - 1 else x.ndim)
  {
    assert x.arrays.keys[0] in x.arrays.vals;
    if x.ndim > 0 && FromArrays(x.cls, x.ensemble, data).Ok? {
      var b := x.arrays.keys[0];
      if HasFilledBlock(x) {
        b :| b in x.arrays.vals && x.arrays.vals[b].shape[0] > 0;
      }
      GetBlockNdim(x.arrays.vals[b], k);
      assert Ndim(data.vals[b]) == Ndim(data.vals[data.keys[0]]);
    }
  }

  /** `x[()]`: numpy returns every non-empty block whole, so a container without empty
      blocks comes back unchanged. `()` is the only key of an ensemble without axes. */
  lemma GetItemWhole(x: ArrayC)
    requires x.Wf() && x.ndim > 0
    requires forall b :: b in x.arrays.vals ==> x.arrays.vals[b].shape[0] > 0
    ensures GetItem(x, Label([])) == Ok(x)
  {
    var m := IndexBlocks(x, Label([]));
    assert m.Ok?;
    assert m.value.vals == x.arrays.vals;
    assert m.value == x.arrays;
    assert x.arrays.keys[0] in x.arrays.vals;
  }

  /** The loop of `__getitem__`: every block indexed with `k`. */
  function IndexBlocks(x: ArrayC, k: Index): (r: Result<ODict<Block, NdArray>>)
    requires x.Wf()
    ensures r.Ok? <==> forall b :: b in x.arrays.vals ==> GetBlock(x.arrays.vals[b], k).Ok?
    ensures r.Ok? ==> r.value.Valid() && r.value.keys == x.arrays.keys
    ensures r.Ok? ==> forall b :: b in x.arrays.vals ==> r.value.vals[b] == GetBlock(x.arrays.vals[b], k).value
  {
    MapBlocks(x.arrays, (b, arr) => GetBlock(arr, k))
  }

  /** Indexing with a position succeeds exactly when the position is in range for every
      non-empty block and the blocks' results agree in their number of axes. */
  lemma GetItemAt(x: ArrayC, i: int)
    requires x.Wf() && x.ndim > 0
    ensures GetItem(x, At(i)).Ok? <==>
      && (forall b :: b in x.arrays.vals ==>
            x.arrays.vals[b].shape[0] == 0 || -x.arrays.vals[b].shape[0] <= i < x.arrays.vals[b].shape[0])
      && (x.ndim == 2 || !HasEmptyBlock(x) || !HasFilledBlock(x))
  {
    forall b | b in x.arrays.vals
      ensures GetBlock(x.arrays.vals[b], At(i)).Ok? <==>
        x.arrays.vals[b].shape[0] == 0 || -x.arrays.vals[b].shape[0] <= i < x.arrays.vals[b].shape[0]
      ensures GetBlock(x.arrays.vals[b], At(i)).Ok? ==>
        Ndim(GetBlock(x.arrays.vals[b], At(i)).value) == if x.arrays.vals[b].shape[0] == 0 then 1 else x.ndim - 1
    {
    }
    var m := IndexBlocks(x, At(i));
    if m.Ok? {
      assert GetItem(x, At(i)) == FromArrays(x.cls, x.ensemble, m.value);
      UniformRows(x, m.value);
    }
  }

  /** Rows of non-empty blocks keep all but the first axis, empty blocks give 1-d
      arrays: the results agree exactly when the container is 2-d or the blocks are all
      empty or all non-empty. */
  lemma UniformRows(x: ArrayC, data: ODict<Block, NdArray>)
    requires x.Wf() && x.ndim > 0 && data.Valid() && data.keys == x.arrays.keys
    requires forall b :: b in x.arrays.vals ==>
      Ndim(data.vals[b]) == if x.arrays.vals[b].shape[0] == 0 then 1 else x.ndim - 1
    ensures (forall b :: b in data.vals ==> Ndim(data.vals[b]) == Ndim(data.vals[data.keys[0]])) <==>
      (x.ndim == 2 || !HasEmptyBlock(x) || !HasFilledBlock(x))
  {
    var k0 := data.keys[0];
    assert k0 in x.arrays.vals;
    if x.ndim != 2 && HasEmptyBlock(x) && HasFilledBlock(x) {
      var b1 :| b1 in x.arrays.vals && x.arrays.vals[b1].shape[0] == 0;
      var b2 :| b2 in x.arrays.vals && x.arrays.vals[b2].shape[0] > 0;
      assert Ndim(data.vals[b1]) != Ndim(data.vals[b2]);
    } else if !HasEmptyBlock(x) {
      assert forall b :: b in data.vals ==> Ndim(data.vals[b]) == x.ndim - 1;
    } else if !HasFilledBlock(x) {
      assert forall b :: b in data.vals ==> Ndim(data.vals[b]) == 1;
    }
  }

  /** `x.flatten()` (`Array` only): every block flattened, its elements unchanged. */
  function Flatten(x: ArrayC): (r: Result<ArrayC>)
    requires x.Wf() && x.cls.PlainArray?
    ensures r.Ok? && r.value.Wf() && r.value.cls == x.cls && r.value.ensemble == x.ensemble
    ensures r.Ok? ==> r.value.ndim == 1 && r.value.arrays.keys == x.arrays.keys
    ensures r.Ok? ==> forall b :: b in x.arrays.vals ==>
      && r.value.arrays.vals[b].shape == [|x.arrays.vals[b].flat|]
      && r.value.arrays.vals[b].flat == x.arrays.vals[b].flat
  {
    var m := MapBlocks(x.arrays, (b: Block, arr: NdArray) => Ok(NdArrays.Flatten(arr)));
    assert x.arrays.keys[0] in x.arrays.vals;
    FromArrays(x.cls, x.ensemble, m.value)
  }

  /** `for block, arr in x`: the blocks in the ensemble's iteration order. */
  function Iter(x: ArrayC): (r: seq<(Block, NdArray)>)
    requires x.Wf()
    ensures |r| == |x.ensemble.Iter()|
    ensures forall i :: 0 <= i < |r| ==> r[i].0 == x.ensemble.Iter()[i].0 && r[i].1 == x.arrays.vals[r[i].0]
  {
    x.arrays.Items()
  }

  /** As written, `x op y` for two array containers takes `y[block]`, which indexes every
      block of `y` with a block key: numpy rejects that for an ensemble with at least one
      axis (whose keys are non-empty tuples), so the operation fails. */
  lemma ContainerOperandFails(x: ArrayC, op: Op, y: ArrayC)
    requires x.Wf() && y.Wf() && y.ndim > 0 && HasFilledBlock(y)
    requires forall b :: b in x.arrays.vals ==> |b| > 0
    ensures Elementwise(x, op, ArrayObj(y)) == Err(IndexError)
  {
    var f := (b, arr) => LookupOp(op, arr, b, ArrayObj(y));
    var b0 := x.arrays.keys[0];
    assert b0 in x.arrays.vals;
    assert Lookup(ArrayObj(y), b0) == Err(IndexError);
    assert f(b0, x.arrays.vals[b0]).Err?;
  }

  /** One block of the intended pairing: `x.array[block] op y.array[block]`. */
  function PairBlock(op: Op, arr: NdArray, b: Block, y: ODict<Block, NdArray>): (r: Result<NdArray>)
    ensures b in y.vals ==> r == BroadcastOp(op, arr, y.vals[b])
    ensures b !in y.vals ==> r == Err(KeyError)
  {
    var yb :- y.Get(b);
    BroadcastOp(op, arr, yb)
  }

  /** The blocks of the intended pairing, before the constructor. */
  function PairedData(x: ArrayC, op: Op, y: ArrayC): (r: Result<ODict<Block, NdArray>>)
    requires x.Wf() && y.Wf()
    ensures r.Ok? <==> forall b :: b in x.arrays.vals ==> PairBlock(op, x.arrays.vals[b], b, y.arrays).Ok?
    ensures r.Ok? ==> r.value.Valid() && r.value.keys == x.arrays.keys
    ensures r.Ok? ==> forall b :: b in x.arrays.vals ==> r.value.vals[b] == PairBlock(op, x.arrays.vals[b], b, y.arrays).value
  {
    MapBlocks(x.arrays, (b, arr) => PairBlock(op, arr, b, y.arrays))
  }

  /** The evidently intended `x op y` for two array containers over one ensemble: block
      by block, `x.array[block] op y.array[block]`. */
  function PairedOp(x: ArrayC, op: Op, y: ArrayC): (r: Result<ArrayC>)
    requires x.Wf() && y.Wf()
    ensures r.Ok? ==>
      && r.value.Wf() && r.value.cls == x.cls && r.value.ensemble == x.ensemble
      && r.value.arrays.keys == x.arrays.keys
      && forall b :: b in x.arrays.vals ==>
           b in y.arrays.vals && BroadcastOp(op, x.arrays.vals[b], y.arrays.vals[b]).Ok?
           && r.value.arrays.vals[b] == BroadcastOp(op, x.arrays.vals[b], y.arrays.vals[b]).value
  {
    var data :- PairedData(x, op, y);
    FromArrays(x.cls, x.ensemble, data)
  }

  /** Two containers with the same blocks and the same shapes pair element by element. */
  ghost predicate SameShapes(x: ArrayC, y: ArrayC) {
    && x.arrays.keys == y.arrays.keys
    && x.ndim == y.ndim
    && forall b :: b in x.arrays.vals ==> b in y.arrays.vals && x.arrays.vals[b].shape == y.arrays.vals[b].shape
  }

  /** For containers of the same shapes the pairing fails only where an element does. */
  lemma PairedSameShapes(x: ArrayC, op: Op, y: ArrayC)
    requires x.Wf() && y.Wf() && SameShapes(x, y)
    ensures PairedOp(x, op, y).Ok? <==> forall b :: b in x.arrays.vals ==> SameShapeOp(op, x.arrays.vals[b], y.arrays.vals[b]).Ok?
    ensures PairedOp(x, op, y).Ok? ==> SameShapes(PairedOp(x, op, y).value, y)
  {
    var data := PairedData(x, op, y);
    assert forall b :: b in x.arrays.vals ==>
      PairBlock(op, x.arrays.vals[b], b, y.arrays) == SameShapeOp(op, x.arrays.vals[b], y.arrays.vals[b]);
    if data.Ok? {
      PairedDataShapes(x, op, y);
    }
  }

  lemma PairedDataShapes(x: ArrayC, op: Op, y: ArrayC)
    requires x.Wf() && y.Wf() && SameShapes(x, y)
    requires PairedData(x, op, y).Ok?
    ensures PairedOp(x, op, y).Ok? && SameShapes(PairedOp(x, op, y).value, y)
  {
    var data := PairedData(x, op, y).value;
    assert forall b :: b in x.arrays.vals ==>
      PairBlock(op, x.arrays.vals[b], b, y.arrays) == SameShapeOp(op, x.arrays.vals[b], y.arrays.vals[b]);
    assert forall b :: b in data.vals ==> data.vals[b].shape == x.arrays.vals[b].shape;
    assert x.arrays.keys[0] in x.arrays.vals;
    assert FromArrays(x.cls, x.ensemble, data).Ok?;
  }

  /** One element of the intended pairing. */
  lemma PairedElement(x: ArrayC, op: Op, y: ArrayC, b: Block, p: nat)
    requires x.Wf() && y.Wf() && SameShapes(x, y) && PairedOp(x, op, y).Ok?
    requires b in x.arrays.vals && p < |x.arrays.vals[b].flat|
    ensures PairedOp(x, op, y).value.arrays.vals[b].shape == x.arrays.vals[b].shape
    ensures PairedOp(x, op, y).value.arrays.vals[b].flat[p] ==
      ApplyNum(op, x.arrays.vals[b].flat[p], y.arrays.vals[b].flat[p]).value
  {
  }

  /** With the intended pairing, adding an array container and subtracting it again
      gives back the first one. */
  lemma PairedRoundTrip(x: ArrayC, y: ArrayC)
    requires x.Wf() && y.Wf() && SameShapes(x, y)
    ensures PairedOp(x, Add, y).Ok?
    ensures PairedOp(PairedOp(x, Add, y).value, Sub, y) == Ok(x)
  {
    PairedSameShapes(x, Add, y);
    var s := PairedOp(x, Add, y).value;
    PairedSameShapes(s, Sub, y);
    var z := PairedOp(s, Sub, y).value;
    forall b | b in x.arrays.vals
      ensures z.arrays.vals[b] == x.arrays.vals[b]
    {
      PairedRoundTripBlock(x, y, b);
    }
    SameContainer(x, z);
  }

  lemma PairedRoundTripBlock(x: ArrayC, y: ArrayC, b: Block)
    requires x.Wf() && y.Wf() && SameShapes(x, y) && b in x.arrays.vals
    requires PairedOp(x, Add, y).Ok? && SameShapes(PairedOp(x, Add, y).value, y)
    requires PairedOp(PairedOp(x, Add, y).value, Sub, y).Ok?
    ensures PairedOp(PairedOp(x, Add, y).value, Sub, y).value.arrays.vals[b] == x.arrays.vals[b]
  {
    SameShapeRoundTrip(x.arrays.vals[b], y.arrays.vals[b]);
  }
}
