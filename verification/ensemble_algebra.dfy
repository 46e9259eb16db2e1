/** `ensemble_algebra.py`: `ensemble_dot`, which dispatches on `EnsembleScalar` and
    `EnsembleArray` operands, and `ensemble_asscalar`. */
module EnsembleAlgebra {
  import opened Results
  import opened OrderedDicts
  import opened Ensembles
  import opened NdArrays
  import opened Values
  import opened Containers
  import Arrays
  import Scalars
  import Algebra

  /** `o.ensemble`: the containers carry one; an `Ensemble`, a number, an array or a
      dictionary has no such attribute. */
  function EnsembleAttr(o: Obj): (r: Result<Ensemble>)
    ensures r.Ok? <==> o.ScalarObj? || o.ArrayObj? || o.TriDiagObj?
    ensures o.ScalarObj? ==> r == Ok(o.s.ensemble)
    ensures o.ArrayObj? ==> r == Ok(o.a.ensemble)
    ensures r.Err? ==> r.error == AttributeError
  {
    match o
    case ScalarObj(s) => Ok(s.ensemble)
    case ArrayObj(a) => Ok(a.ensemble)
    case TriDiagObj(t) => Ok(t.ensemble)
    case _ => Err(AttributeError)
  }

  /** `isinstance(o, EnsembleScalar)` */
  predicate IsEnsembleScalar(o: Obj) {
    o.ScalarObj? && o.s.cls.EnsembleScalarClass?
  }

  /** `isinstance(o, EnsembleArray)` */
  predicate IsEnsembleArray(o: Obj) {
    o.ArrayObj? && o.a.cls.EnsembleArrayClass?
  }

  /** `o.keys()` of an `EnsembleScalar` or `EnsembleArray`. */
  function BlockKeys(o: Obj): seq<Block>
    requires IsEnsembleScalar(o) || IsEnsembleArray(o)
  {
    if o.ScalarObj? then o.s.scalar.keys else o.a.arrays.keys
  }

  /** The Python value stored for one block: a value of an `EnsembleScalar`, an array of
      an `EnsembleArray`. */
  function BlockValue(o: Obj, b: Block): (r: Result<Value>)
    requires IsEnsembleScalar(o) || IsEnsembleArray(o)
    ensures o.ScalarObj? ==> (r.Ok? <==> b in o.s.scalar.vals) && (r.Ok? ==> r.value == o.s.scalar.vals[b])
    ensures o.ArrayObj? ==> (r.Ok? <==> b in o.a.arrays.vals) && (r.Ok? ==> r.value == Arr(o.a.arrays.vals[b]))
  {
    if o.ScalarObj? then o.s.scalar.Get(b)
    else
      var a :- o.a.arrays.Get(b);
      Ok(Arr(a))
  }

  /** `o.values()`, in block order. */
  function BlockValues(o: Obj): (r: seq<Value>)
    requires ObjWf(o) && (IsEnsembleScalar(o) || IsEnsembleArray(o))
    ensures |r| == |BlockKeys(o)|
    ensures forall i :: 0 <= i < |r| ==> BlockValue(o, BlockKeys(o)[i]) == Ok(r[i])
  {
    if o.ScalarObj? then o.s.scalar.Values()
    else seq(|o.a.arrays.keys|, i requires 0 <= i < |o.a.arrays.keys| => Arr(o.a.arrays.vals[o.a.arrays.keys[i]]))
  }

  /** `zip(a.keys(), a.values(), b.values())` pairs the blocks by position; over one
      ensemble both list the ensemble's blocks in the same order, so the pairing is the
      pairing by block. */
  lemma ZipIsByBlock(a: Obj, b: Obj)
    requires ObjWf(a) && ObjWf(b) && (IsEnsembleScalar(a) || IsEnsembleArray(a)) && (IsEnsembleScalar(b) || IsEnsembleArray(b))
    requires EnsembleAttr(a) == EnsembleAttr(b)
    ensures BlockKeys(a) == BlockKeys(b) && |BlockValues(a)| == |BlockValues(b)| == |BlockKeys(a)|
    ensures forall i :: 0 <= i < |BlockKeys(a)| ==>
      BlockValue(a, BlockKeys(a)[i]) == Ok(BlockValues(a)[i]) && BlockValue(b, BlockKeys(a)[i]) == Ok(BlockValues(b)[i])
  {
  }

  /** `aa * bb` for one block of two `EnsembleScalar`s. */
  function ProductBin(x: ScalarC, y: ScalarC, b: Block): (r: Result<Value>)
    ensures b in x.scalar.vals && b in y.scalar.vals ==> r == BinOp(Mul, x.scalar.vals[b], y.scalar.vals[b])
  {
    if b in x.scalar.vals && b in y.scalar.vals then BinOp(Mul, x.scalar.vals[b], y.scalar.vals[b]) else Err(KeyError)
  }

  /** The products of the scalar branch, before the constructor. */
  function Products(x: ScalarC, y: ScalarC): (r: Result<ODict<Block, Value>>)
    requires x.Wf() && y.Wf() && x.ensemble == y.ensemble
    ensures r.Ok? <==> forall b :: b in x.scalar.vals ==> BinOp(Mul, x.scalar.vals[b], y.scalar.vals[b]).Ok?
    ensures r.Ok? ==> r.value.Valid() && r.value.keys == x.scalar.keys
    ensures r.Ok? ==> forall b :: b in x.scalar.vals ==> r.value.vals[b] == BinOp(Mul, x.scalar.vals[b], y.scalar.vals[b]).value
  {
    MapBlocks(x.scalar, (b, v) => ProductBin(x, y, b))
  }

  /** The scalar branch of `ensemble_dot`: the block-wise products `aa * bb` as an
      `EnsembleScalar` over the shared ensemble. */
  function ScalarDot(x: ScalarC, y: ScalarC): (r: Result<ScalarC>)
    requires x.Wf() && y.Wf() && x.ensemble == y.ensemble
    ensures r.Ok? <==> forall b :: b in x.scalar.vals ==> BinOp(Mul, x.scalar.vals[b], y.scalar.vals[b]).Ok?
    ensures r.Ok? ==>
      && r.value.Wf() && r.value.cls.EnsembleScalarClass? && r.value.ensemble == x.ensemble
      && r.value.scalar.keys == x.scalar.keys
      && forall b :: b in x.scalar.vals ==> r.value.scalar.vals[b] == BinOp(Mul, x.scalar.vals[b], y.scalar.vals[b]).value
  {
    var data :- Products(x, y);
    Scalars.RebuildEnsemble(x.ensemble, data);
    Scalars.NewEnsemble(EnsembleObj(x.ensemble), Plain(DictValue(data)), NoTag, None)
  }

  /** On numbers the scalar branch never fails. */
  lemma ScalarDotNumbersOk(x: ScalarC, y: ScalarC)
    requires x.Wf() && y.Wf() && x.ensemble == y.ensemble
    requires forall c :: c in x.scalar.vals ==> x.scalar.vals[c].Num? && y.scalar.vals[c].Num?
    ensures ScalarDot(x, y).Ok?
  {
    forall c | c in x.scalar.vals
      ensures BinOp(Mul, x.scalar.vals[c], y.scalar.vals[c]).Ok?
    {
      assert ApplyNum(Mul, x.scalar.vals[c].x, y.scalar.vals[c].x).Ok?;
    }
  }

  /** On numbers the scalar branch multiplies block by block. */
  lemma ScalarDotNumbers(x: ScalarC, y: ScalarC, b: Block)
    requires x.Wf() && y.Wf() && x.ensemble == y.ensemble && ScalarDot(x, y).Ok?
    requires b in x.scalar.vals && x.scalar.vals[b].Num? && y.scalar.vals[b].Num?
    ensures ScalarDot(x, y).value.scalar.vals[b] == Num(Ring(Mul, x.scalar.vals[b].x, y.scalar.vals[b].x))
  {
    var u, v := x.scalar.vals[b], y.scalar.vals[b];
    assert BinOp(Mul, u, v).value == Num(ApplyNum(Mul, u.x, v.x).value);
  }

  /** `np.dot(aa, bb)` for one block: numbers become 0-d arrays. */
  function DotBin(dot: Algebra.Kernel2, a: Obj, c: Obj, b: Block): (r: Result<NdArray>)
    requires IsEnsembleScalar(a) || IsEnsembleArray(a)
    requires IsEnsembleScalar(c) || IsEnsembleArray(c)
    ensures BlockValue(a, b).Ok? && BlockValue(c, b).Ok? && ToArray(BlockValue(a, b).value, None).Ok?
              && ToArray(BlockValue(c, b).value, None).Ok? ==>
      r == dot(ToArray(BlockValue(a, b).value, None).value, ToArray(BlockValue(c, b).value, None).value)
  {
    var aa :- BlockValue(a, b);
    var bb :- BlockValue(c, b);
    var p :- ToArray(aa, None);
    var q :- ToArray(bb, None);
    dot(p, q)
  }

  /** The array branch of `ensemble_dot`: `np.dot` of every pair of blocks as an
      `EnsembleArray` over the shared ensemble. */
  function ArrayDot(a: Obj, c: Obj, e: Ensemble, dot: Algebra.Kernel2): (r: Result<ArrayC>)
    requires e.Valid()
    requires IsEnsembleScalar(a) || IsEnsembleArray(a)
    requires IsEnsembleScalar(c) || IsEnsembleArray(c)
    ensures (exists i :: 0 <= i < |e.Keys()| && DotBin(dot, a, c, e.Keys()[i]).Err?) ==> r.Err?
    ensures r.Err? ==> r.error == ValueError || exists i :: 0 <= i < |e.Keys()| && DotBin(dot, a, c, e.Keys()[i]) == Err(r.error)
    ensures r.Ok? ==>
      && r.value.Wf() && r.value.cls.EnsembleArrayClass? && r.value.ensemble == e
      && forall b :: b in r.value.arrays.vals ==> DotBin(dot, a, c, b).Ok? && r.value.arrays.vals[b] == DotBin(dot, a, c, b).value
  {
    var data :- ForBlocks(e, b => DotBin(dot, a, c, b));
    Arrays.FromArrays(EnsembleArrayClass, e, data)
  }

  /** The pair of operands for which `ensemble_dot` takes its array branch: both share
      one ensemble, each is an `EnsembleScalar` or an `EnsembleArray`, and not both are
      `EnsembleScalar`s. */
  ghost predicate TakesArrayBranch(a: Obj, c: Obj) {
    && EnsembleAttr(a).Ok? && EnsembleAttr(a) == EnsembleAttr(c)
    && (IsEnsembleScalar(a) || IsEnsembleArray(a)) && (IsEnsembleScalar(c) || IsEnsembleArray(c))
    && !(IsEnsembleScalar(a) && IsEnsembleScalar(c))
  }

  /** `ensemble_dot(a, b)` with `np.dot` as the kernel: the ensembles are compared
      first (ValueError when they differ), then both operands must be `EnsembleScalar`
      or `EnsembleArray` (ValueError otherwise); two `EnsembleScalar`s give an
      `EnsembleScalar` of products, any other pair an `EnsembleArray` of `np.dot`s. */
  function EnsembleDot(a: Obj, c: Obj, dot: Algebra.Kernel2): (r: Result<Obj>)
    requires ObjWf(a) && ObjWf(c)
    ensures EnsembleAttr(a).Err? || EnsembleAttr(c).Err? ==> r == Err(AttributeError)
    ensures EnsembleAttr(a).Ok? && EnsembleAttr(c).Ok? && EnsembleAttr(a) != EnsembleAttr(c) ==> r == Err(ValueError)
    ensures EnsembleAttr(a).Ok? && EnsembleAttr(a) == EnsembleAttr(c)
            && !((IsEnsembleScalar(a) || IsEnsembleArray(a)) && (IsEnsembleScalar(c) || IsEnsembleArray(c))) ==>
      r == Err(ValueError)
    ensures IsEnsembleScalar(a) && IsEnsembleScalar(c) && a.s.ensemble == c.s.ensemble ==>
      && (r.Ok? <==> ScalarDot(a.s, c.s).Ok?)
      && (r.Ok? ==> r.value == ScalarObj(ScalarDot(a.s, c.s).value))
    ensures r.Ok? && !(IsEnsembleScalar(a) && IsEnsembleScalar(c)) ==>
      && (IsEnsembleScalar(a) || IsEnsembleArray(a)) && (IsEnsembleScalar(c) || IsEnsembleArray(c))
      && EnsembleAttr(a) == EnsembleAttr(c)
      && r.value.ArrayObj? && r.value.a.Wf() && r.value.a.cls.EnsembleArrayClass? && r.value.a.ensemble == EnsembleAttr(a).value
      && forall b :: b in r.value.a.arrays.vals ==>
           DotBin(dot, a, c, b).Ok? && r.value.a.arrays.vals[b] == DotBin(dot, a, c, b).value
    ensures (TakesArrayBranch(a, c)
             && exists i :: 0 <= i < |EnsembleAttr(a).value.Keys()| && DotBin(dot, a, c, EnsembleAttr(a).value.Keys()[i]).Err?) ==>
      r.Err?
    ensures TakesArrayBranch(a, c) && r.Err? ==>
      r.error == ValueError
      || exists i :: 0 <= i < |EnsembleAttr(a).value.Keys()| && DotBin(dot, a, c, EnsembleAttr(a).value.Keys()[i]) == Err(r.error)
  {
    var ea :- EnsembleAttr(a);
    var ec :- EnsembleAttr(c);
    if ea != ec then Err(ValueError)
    else if !IsEnsembleScalar(a) && !IsEnsembleArray(a) then Err(ValueError)
    else if !IsEnsembleScalar(c) && !IsEnsembleArray(c) then Err(ValueError)
    else if IsEnsembleScalar(a) && IsEnsembleScalar(c) then
      var s :- ScalarDot(a.s, c.s);
      Ok(ScalarObj(s))
    else
      var x :- ArrayDot(a, c, ea, dot);
      Ok(ArrayObj(x))
  }

  /** On two `EnsembleArray`s, the `ensemble_dot` of `ensemble_algebra.py` and the one
      of `ensemble_array.py` agree. */
  lemma EnsembleDotsAgree(x: ArrayC, y: ArrayC, dot: Algebra.Kernel2)
    requires x.Wf() && y.Wf() && x.cls.EnsembleArrayClass? && y.cls.EnsembleArrayClass?
    ensures EnsembleDot(ArrayObj(x), ArrayObj(y), dot).Ok? <==> Algebra.EnsembleDot(x, y, dot).Ok?
    ensures EnsembleDot(ArrayObj(x), ArrayObj(y), dot).Ok? ==>
      EnsembleDot(ArrayObj(x), ArrayObj(y), dot).value == ArrayObj(Algebra.EnsembleDot(x, y, dot).value)
    ensures EnsembleDot(ArrayObj(x), ArrayObj(y), dot).Err? ==>
      EnsembleDot(ArrayObj(x), ArrayObj(y), dot).error == Algebra.EnsembleDot(x, y, dot).error
  {
    if x.ensemble == y.ensemble {
      ArrayDotIsPairBlocks(x, y, dot);
      ArrayBranch(x, y, dot);
    }
  }

  /** Between two `EnsembleArray`s over one ensemble, `ensemble_dot` takes its array
      branch. */
  lemma ArrayBranch(x: ArrayC, y: ArrayC, dot: Algebra.Kernel2)
    requires x.Wf() && y.Wf() && x.cls.EnsembleArrayClass? && y.cls.EnsembleArrayClass? && x.ensemble == y.ensemble
    ensures EnsembleDot(ArrayObj(x), ArrayObj(y), dot) ==
      match ArrayDot(ArrayObj(x), ArrayObj(y), x.ensemble, dot)
      case Ok(z) => Ok(ArrayObj(z))
      case Err(err) => Err(err)
  {
  }

  /** The array branch of the two `ensemble_dot`s runs the same loop. */
  lemma ArrayDotIsPairBlocks(x: ArrayC, y: ArrayC, dot: Algebra.Kernel2)
    requires x.Wf() && y.Wf() && x.cls.EnsembleArrayClass? && y.cls.EnsembleArrayClass? && x.ensemble == y.ensemble
    ensures ArrayDot(ArrayObj(x), ArrayObj(y), x.ensemble, dot) == Algebra.PairBlocks(EnsembleArrayClass, x, y, dot)
  {
    var e := x.ensemble;
    var a, c := ArrayObj(x), ArrayObj(y);
    forall i | 0 <= i < |e.Keys()|
      ensures DotBin(dot, a, c, e.Keys()[i]) == Algebra.PairKernel(x, y, dot, e.Keys()[i])
    {
      assert e.Keys()[i] in x.arrays.vals && e.Keys()[i] in y.arrays.vals;
    }
    TraverseCongruent(e.Keys(), b => DotBin(dot, a, c, b), b => Algebra.PairKernel(x, y, dot, b));
  }

  /** `np.asscalar(aa)` (`aa.item()`) for one block. */
  function ItemBin(arr: NdArray): (r: Result<Value>)
    ensures r.Ok? <==> |arr.flat| == 1
    ensures r.Ok? ==> r.value == Num(arr.flat[0])
    ensures r.Err? ==> r.error == ValueError
  {
    var x :- NdArrays.Item(arr);
    Ok(Num(x))
  }

  /** `ensemble_asscalar(a)`: an `EnsembleScalar` is returned unchanged; an
      `EnsembleArray` becomes an `EnsembleScalar` over the same ensemble holding each
      block's sole element, and a block of any other size raises ValueError. */
  function AsScalar(a: Obj): (r: Result<ScalarC>)
    requires ObjWf(a) && (IsEnsembleScalar(a) || IsEnsembleArray(a))
    ensures IsEnsembleScalar(a) ==> r == Ok(a.s)
    ensures IsEnsembleArray(a) ==> (r.Ok? <==> forall b :: b in a.a.arrays.vals ==> |a.a.arrays.vals[b].flat| == 1)
    ensures IsEnsembleArray(a) && r.Ok? ==>
      && r.value.Wf() && r.value.cls.EnsembleScalarClass? && r.value.ensemble == a.a.ensemble
      && r.value.scalar.keys == a.a.arrays.keys
      && forall b :: b in a.a.arrays.vals ==> r.value.scalar.vals[b] == Num(a.a.arrays.vals[b].flat[0])
    ensures r.Err? ==> r.error == ValueError
  {
    if IsEnsembleScalar(a) then Ok(a.s)
    else
      var data :- MapBlocks(a.a.arrays, (b, arr) => ItemBin(arr));
      Scalars.RebuildEnsemble(a.a.ensemble, data);
      Scalars.NewEnsemble(EnsembleObj(a.a.ensemble), Plain(DictValue(data)), NoTag, None)
  }

  /** The 0-d arrays holding the numbers of an `EnsembleScalar`. */
  function ZeroDim(s: ScalarC): (r: ODict<Block, NdArray>)
    requires s.Wf() && forall b :: b in s.scalar.vals ==> s.scalar.vals[b].Num?
    ensures r.Valid() && r.keys == s.scalar.keys
    ensures forall b :: b in s.scalar.vals ==> b in r.vals && r.vals[b] == Scalar0(s.scalar.vals[b].x)
  {
    ODict(s.scalar.keys, map b | b in s.scalar.vals :: Scalar0(s.scalar.vals[b].x))
  }

  /** `ensemble_asscalar` undoes the wrapping of an `EnsembleScalar`'s numbers into an
      `EnsembleArray` of 0-d arrays. */
  lemma AsScalarRoundTrip(s: ScalarC)
    requires s.Wf() && s.cls.EnsembleScalarClass? && |s.scalar.keys| > 0
    requires forall b :: b in s.scalar.vals ==> s.scalar.vals[b].Num?
    ensures Arrays.FromArrays(EnsembleArrayClass, s.ensemble, ZeroDim(s)).Ok?
    ensures AsScalar(ArrayObj(Arrays.FromArrays(EnsembleArrayClass, s.ensemble, ZeroDim(s)).value)) == Ok(s)
  {
    var d := ZeroDim(s);
    assert forall b :: b in d.vals ==> Ndim(d.vals[b]) == 0;
    var x := Arrays.FromArrays(EnsembleArrayClass, s.ensemble, d).value;
    var r := AsScalar(ArrayObj(x)).value;
    assert forall b :: b in r.scalar.vals ==> b in s.scalar.vals && r.scalar.vals[b] == s.scalar.vals[b];
    Scalars.SameDict(r.scalar, s.scalar);
  }
}
