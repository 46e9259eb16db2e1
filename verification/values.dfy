/** The plain Python data the containers store and are built from: `None`, numbers,
    numpy arrays and dictionaries keyed by block tuples or tag strings. */
module Values {
  import opened Results
  import opened NdArrays

  /** A dictionary key: a block tuple, or a tag string. */
  datatype Key = BlockKey(b: seq<string>) | StrKey(s: string)

  /** A Python value. `Dict` is a `dict`, or an `OrderedDict` when `ordered` holds. */
  datatype Value = NoneV | Num(x: real) | Arr(a: NdArray) | Dict(ordered: bool, entries: map<Key, Value>)

  /** `np.isscalar(v)`: numbers only; arrays, `None` and dictionaries are not scalars. */
  predicate IsScalar(v: Value) {
    v.Num?
  }

  /** `v[k]`: a dictionary lookup (KeyError when absent); numpy rejects a string or a
      non-empty block tuple as an index with IndexError, and the empty tuple `()`
      returns the whole array (a number for a 0-d one); `None` and numbers are not
      subscriptable. */
  function Subscript(v: Value, k: Key): (r: Result<Value>)
    ensures v.Dict? ==> (r.Ok? <==> k in v.entries)
    ensures v.Dict? && r.Ok? ==> r.value == v.entries[k]
    ensures v.Dict? && k !in v.entries ==> r == Err(KeyError)
    ensures v.Arr? && k == BlockKey([]) ==> r == Ok(Wrap(v.a))
    ensures v.Arr? && k != BlockKey([]) ==> r == Err(IndexError)
    ensures (v.NoneV? || v.Num?) ==> r == Err(TypeError)
  {
    match v
    case NoneV => Err(TypeError)
    case Num(_) => Err(TypeError)
    case Arr(a) => if k == BlockKey([]) then Ok(Wrap(a)) else Err(IndexError)
    case Dict(_, m) => if k in m then Ok(m[k]) else Err(KeyError)
  }

  /** `np.array(v, dtype=dtype)`: a number becomes a 0-d array, an array is copied, and
      the caster, when given, is applied to every element. `None` and dictionaries
      become object arrays, which the model does not represent. */
  function ToArray(v: Value, dtype: Option<real -> real>): (r: Result<NdArray>)
    ensures r.Ok? <==> v.Num? || v.Arr?
    ensures r.Err? ==> r.error == Unmodelled
    ensures v.Num? && dtype.None? ==> r == Ok(Scalar0(v.x))
    ensures v.Arr? && dtype.None? ==> r == Ok(v.a)
    ensures r.Ok? && dtype.Some? ==>
      && r.value.shape == (if v.Num? then [] else v.a.shape)
      && forall p :: 0 <= p < |r.value.flat| ==>
           r.value.flat[p] == dtype.value(if v.Num? then v.x else v.a.flat[p])
  {
    match v
    case Num(x) => Ok(if dtype.None? then Scalar0(x) else Cast(Scalar0(x), dtype.value))
    case Arr(a) => Ok(if dtype.None? then a else Cast(a, dtype.value))
    case _ => Err(Unmodelled)
  }

  /** The Python object a numpy operation hands back: a number for a 0-d result (numpy
      returns a scalar), an array otherwise. */
  function Wrap(a: NdArray): (r: Value)
    ensures r.Num? <==> Ndim(a) == 0
    ensures r.Num? ==> r.x == a.flat[0]
    ensures r.Arr? ==> r.a == a
  {
    if |a.shape| == 0 then Num(a.flat[0]) else Arr(a)
  }

  /** `np.array` undoes the unwrapping of 0-d results. */
  lemma WrapToArray(a: NdArray)
    ensures ToArray(Wrap(a), None) == Ok(a)
  {
    if |a.shape| == 0 {
      assert Scalar0(a.flat[0]) == a;
    }
  }

  /** `x op y` on two Python values: numbers give a number, numbers and arrays broadcast
      to an array (a 0-d result comes back as a number); `None` and dictionaries raise
      TypeError. */
  function BinOp(op: Op, x: Value, y: Value): (r: Result<Value>)
    ensures (x.NoneV? || x.Dict? || y.NoneV? || y.Dict?) ==> r == Err(TypeError)
    ensures x.Num? && y.Num? ==>
      (r.Ok? <==> ApplyNum(op, x.x, y.x).Ok?) && (r.Ok? ==> r.value == Num(ApplyNum(op, x.x, y.x).value))
    ensures r.Ok? ==> r.value.Num? || r.value.Arr?
  {
    if x.NoneV? || x.Dict? || y.NoneV? || y.Dict? then Err(TypeError)
    else if x.Num? && y.Num? then
      var z :- ApplyNum(op, x.x, y.x);
      Ok(Num(z))
    else
      var a := ToArray(x, None).value;
      var b := ToArray(y, None).value;
      var c :- BroadcastOp(op, a, b);
      Ok(Wrap(c))
  }

  /** The same operation with an array on the left, as the array containers apply it
      to each block: the result is what `np.array` makes of the outcome. */
  function ArrayOp(op: Op, a: NdArray, y: Value): (r: Result<NdArray>)
    ensures (y.NoneV? || y.Dict?) ==> r == Err(TypeError)
    ensures y.Num? ==> r == BroadcastOp(op, a, Scalar0(y.x))
    ensures y.Arr? ==> r == BroadcastOp(op, a, y.a)
  {
    match y
    case NoneV => Err(TypeError)
    case Dict(_, _) => Err(TypeError)
    case Num(x) => BroadcastOp(op, a, Scalar0(x))
    case Arr(b) => BroadcastOp(op, a, b)
  }

  /** `ArrayOp` is `BinOp` followed by `np.array`. */
  lemma ArrayOpIsBinOp(op: Op, a: NdArray, y: Value)
    ensures ArrayOp(op, a, y).Ok? <==> BinOp(op, Arr(a), y).Ok?
    ensures ArrayOp(op, a, y).Ok? ==> ToArray(BinOp(op, Arr(a), y).value, None) == ArrayOp(op, a, y)
  {
    if ArrayOp(op, a, y).Ok? {
      WrapToArray(ArrayOp(op, a, y).value);
    }
  }

  /** `dtype(v)`: the caster applied to a number, or to the sole element of an array of
      size one; `float(None)`, `float({})` and larger arrays raise TypeError. */
  function CastValue(f: real -> real, v: Value): (r: Result<Value>)
    ensures r.Ok? <==> v.Num? || (v.Arr? && |v.a.flat| == 1)
    ensures r.Ok? ==> r.value == Num(f(if v.Num? then v.x else v.a.flat[0]))
    ensures r.Err? ==> r.error == TypeError
  {
    match v
    case Num(x) => Ok(Num(f(x)))
    case Arr(a) => if |a.flat| == 1 then Ok(Num(f(a.flat[0]))) else Err(TypeError)
    case _ => Err(TypeError)
  }

  /** The value `Scalar` stores for a datum: `None` stays `None`, an array is reduced
      to its sole element with `.item()`, and the caster is applied when given. */
  function Unwrap(v: Value, dtype: Option<real -> real>): (r: Result<Value>)
    ensures v.NoneV? ==> r == Ok(NoneV)
    ensures v.Arr? ==> (r.Ok? <==> |v.a.flat| == 1)
    ensures v.Arr? && r.Err? ==> r.error == ValueError
    ensures v.Arr? && r.Ok? ==>
      r.value == Num(if dtype.None? then v.a.flat[0] else dtype.value(v.a.flat[0]))
    ensures !v.NoneV? && !v.Arr? && dtype.None? ==> r == Ok(v)
    ensures !v.NoneV? && !v.Arr? && dtype.Some? ==> r == CastValue(dtype.value, v)
  {
    match v
    case NoneV => Ok(NoneV)
    case Arr(a) =>
      var x :- Item(a);
      Ok(Num(if dtype.None? then x else dtype.value(x)))
    case _ => if dtype.None? then Ok(v) else CastValue(dtype.value, v)
  }
}
