/** The part of numpy the containers rely on: n-d arrays of reals as a shape and a
    row-major flat sequence, with the indexing, broadcasting, outer products and
    `np.diag` the core applies block by block. */
module NdArrays {
  import opened Results

  /** The number of elements of an array of the given shape. */
  function Size(shape: seq<nat>): nat
    decreases |shape|
  {
    if |shape| == 0 then 1 else shape[0] * Size(shape[1..])
  }

  datatype ArrayData = ArrayData(shape: seq<nat>, flat: seq<real>)

  /** An `np.ndarray`: the flat data holds exactly one element per index. */
  type NdArray = a: ArrayData | |a.flat| == Size(a.shape) witness ArrayData([], [0.0])

  function Ndim(a: NdArray): nat {
    |a.shape|
  }

  /** A 0-d array, as `np.array(x)` builds from a number. */
  function Scalar0(x: real): NdArray {
    ArrayData([], [x])
  }

  lemma Size1(n: nat)
    ensures Size([n]) == n
  {
    assert [n][1..] == [];
  }

  lemma Size2(n: nat, m: nat)
    ensures Size([n, m]) == n * m
  {
    assert [n, m][1..] == [m];
    Size1(m);
  }

  /** A 1-d array. */
  function Vector(xs: seq<real>): NdArray {
    Size1(|xs|);
    ArrayData([|xs|], xs)
  }

  /** `len(a)`: the extent of the first axis; a 0-d array has no length. */
  function Len(a: NdArray): (r: Result<nat>)
    ensures r.Ok? <==> Ndim(a) > 0
    ensures r.Ok? ==> r.value == a.shape[0]
    ensures r.Err? ==> r.error == TypeError
  {
    if |a.shape| == 0 then Err(TypeError) else Ok(a.shape[0])
  }

  /** `a.flatten()` */
  function Flatten(a: NdArray): (r: NdArray)
    ensures Ndim(r) == 1 && r.shape[0] == Size(a.shape)
    ensures r.flat == a.flat
  {
    Size1(|a.flat|);
    ArrayData([|a.flat|], a.flat)
  }

  /** `a.item()`: the sole element, for arrays of size one. */
  function Item(a: NdArray): (r: Result<real>)
    ensures r.Ok? <==> Size(a.shape) == 1
    ensures r.Ok? ==> r.value == a.flat[0]
    ensures r.Err? ==> r.error == ValueError
  {
    if |a.flat| == 1 then Ok(a.flat[0]) else Err(ValueError)
  }

  /** `np.array(a, dtype=f)`: the caster applied to every element. */
  function Cast(a: NdArray, f: real -> real): (r: NdArray)
    ensures r.shape == a.shape
    ensures forall p :: 0 <= p < |a.flat| ==> r.flat[p] == f(a.flat[p])
  {
    ArrayData(a.shape, seq(|a.flat|, p requires 0 <= p < |a.flat| => f(a.flat[p])))
  }

  /** `np.empty(0)` and `np.empty((0, 0))`. */
  function Empty1(): NdArray {
    Size1(0);
    ArrayData([0], [])
  }

  function Empty2(): NdArray {
    Size2(0, 0);
    ArrayData([0, 0], [])
  }

  /** `np.ones((1, 1))` */
  function Ones11(): NdArray {
    Size2(1, 1);
    ArrayData([1, 1], [1.0])
  }

  lemma SizeCons(shape: seq<nat>)
    requires |shape| > 0
    ensures Size(shape) == shape[0] * Size(shape[1..])
  {
  }

  lemma RowBound(i: nat, n: nat, m: nat)
    requires i < n
    ensures (i + 1) * m <= n * m
  {
    assert n * m - (i + 1) * m == (n - i - 1) * m;
  }

  lemma MulBound(i: nat, j: nat, n: nat, m: nat)
    requires i < n && j < m
    ensures i * m + j < n * m
    ensures (i + 1) * m <= n * m
  {
    RowBound(i, n, m);
  }

  /** An index applied to every block: an integer, or a block key used by mistake. */
  datatype Index = At(i: int) | Label(b: seq<string>)

  /** `a[i]` for an integer `i`: the sub-array at position `i` of the first axis,
      counting from the end for a negative `i`. */
  function Row(a: NdArray, i: int): (r: Result<NdArray>)
    ensures r.Ok? <==> Ndim(a) > 0 && -a.shape[0] <= i < a.shape[0]
    ensures r.Err? ==> r.error == IndexError
    ensures r.Ok? ==> r.value == RowSlice(a, if i < 0 then i + a.shape[0] else i)
  {
    if |a.shape| == 0 then Err(IndexError)
    else
      var n := a.shape[0];
      if !(-n <= i < n) then Err(IndexError)
      else
        var j := if i < 0 then i + n else i;
        Ok(RowSlice(a, j))
  }

  /** The sub-array at position `j` of the first axis. */
  function RowSlice(a: NdArray, j: nat): (r: NdArray)
    requires Ndim(a) > 0 && j < a.shape[0]
    ensures var w := Size(a.shape[1..]);
      && r.shape == a.shape[1..]
      && (j + 1) * w <= |a.flat|
      && r.flat == a.flat[j * w .. (j + 1) * w]
  {
    var w := Size(a.shape[1..]);
    RowBound(j, a.shape[0], w);
    ArrayData(a.shape[1..], a.flat[j * w .. (j + 1) * w])
  }

  /** `a[k]`: numpy rejects a non-empty tuple of strings as an index with IndexError,
      while the empty tuple `()` selects the whole array. */
  function IndexWith(a: NdArray, k: Index): (r: Result<NdArray>)
    ensures k.Label? && |k.b| > 0 ==> r == Err(IndexError)
    ensures k.Label? && |k.b| == 0 ==> r == Ok(a)
    ensures k.At? ==> r == Row(a, k.i)
  {
    match k
    case At(i) => Row(a, i)
    case Label(b) => if |b| == 0 then Ok(a) else Err(IndexError)
  }

  /** The arithmetic operators of the containers. */
  datatype Op = Add | Sub | Mul | Div

  /** `+`, `-` and `*` on reals. */
  function Ring(op: Op, x: real, y: real): real
    requires !op.Div?
  {
    match op
    case Add => x + y
    case Sub => x - y
    case Mul => x * y
  }

  /** One arithmetic operation on two numbers. Division by zero (IEEE infinities or
      ZeroDivisionError) is outside the model. */
  function ApplyNum(op: Op, x: real, y: real): (r: Result<real>)
    ensures r.Err? <==> op.Div? && y == 0.0
    ensures r.Err? ==> r.error == Unmodelled
    ensures r.Ok? && !op.Div? ==> r.value == Ring(op, x, y)
    ensures r.Ok? && op.Div? ==> r.value == x / y
  {
    if op.Div? then (if y == 0.0 then Err(Unmodelled) else Ok(x / y)) else Ok(Ring(op, x, y))
  }

  /** `*` on two numbers is their product. */
  lemma MulValue(x: real, y: real)
    ensures ApplyNum(Mul, x, y) == Ok(x * y)
  {
    assert Ring(Mul, x, y) == x * y;
  }

  /** Multiplication undoes division, and subtraction undoes addition. */
  lemma OpInverses(x: real, y: real)
    ensures ApplyNum(Sub, ApplyNum(Add, x, y).value, y) == Ok(x)
    ensures y != 0.0 ==> ApplyNum(Mul, ApplyNum(Div, x, y).value, y) == Ok(x)
  {
    if y != 0.0 {
      assert ApplyNum(Div, x, y).value * y == x;
    }
  }

  function Pairs(xs: seq<real>, ys: seq<real>): (r: seq<(real, real)>)
    requires |xs| == |ys|
    ensures |r| == |xs| && forall p :: 0 <= p < |xs| ==> r[p] == (xs[p], ys[p])
  {
    seq(|xs|, p requires 0 <= p < |xs| => (xs[p], ys[p]))
  }

  /** The operation element by element on two sequences of one length. */
  function Zip(op: Op, xs: seq<real>, ys: seq<real>): (r: Result<seq<real>>)
    requires |xs| == |ys|
    ensures r.Ok? <==> forall p :: 0 <= p < |xs| ==> ApplyNum(op, xs[p], ys[p]).Ok?
    ensures r.Ok? ==>
      |r.value| == |xs| && forall p :: 0 <= p < |xs| ==> r.value[p] == ApplyNum(op, xs[p], ys[p]).value
  {
    var f := (q: (real, real)) => ApplyNum(op, q.0, q.1);
    var ps := Pairs(xs, ys);
    assert forall p :: 0 <= p < |xs| ==> f(ps[p]) == ApplyNum(op, xs[p], ys[p]);
    MapAll(ps, f)
  }

  /** The shape numpy broadcasts two shapes to, aligning them on the right: per axis,
      equal extents or an extent 1 stretched to the other; anything else is a ValueError. */
  function BroadcastShape(s: seq<nat>, t: seq<nat>): (r: Result<seq<nat>>)
    ensures r.Err? ==> r.error == ValueError
    ensures r.Ok? ==> |r.value| == if |s| < |t| then |t| else |s|
    decreases |s| + |t|
  {
    if |s| == 0 then Ok(t)
    else if |t| == 0 then Ok(s)
    else
      var x, y := s[|s| - 1], t[|t| - 1];
      match BroadcastShape(s[..|s| - 1], t[..|t| - 1])
      case Err(e) => Err(e)
      case Ok(init) =>
        if x == y || y == 1 then Ok(init + [x])
        else if x == 1 then Ok(init + [y])
        else Err(ValueError)
  }

  /** A shape of size one has extent 1 on every axis. */
  lemma {:induction false} SizeOneAllOnes(t: seq<nat>)
    requires Size(t) == 1
    ensures forall d :: 0 <= d < |t| ==> t[d] == 1
    decreases |t|
  {
    if |t| > 0 {
      ProductOne(t[0], Size(t[1..]));
      SizeOneAllOnes(t[1..]);
      forall d | 0 <= d < |t| ensures t[d] == 1 {
        if d > 0 { assert t[d] == t[1..][d - 1]; }
      }
    }
  }

  lemma ProductOne(a: nat, b: nat)
    requires a * b == 1
    ensures a == 1 && b == 1
  {
  }

  /** A shape broadcasts with itself unchanged. */
  lemma {:induction false} BroadcastSame(s: seq<nat>)
    ensures BroadcastShape(s, s) == Ok(s)
    decreases |s|
  {
    if |s| > 0 {
      var init := s[..|s| - 1];
      BroadcastSame(init);
      assert BroadcastShape(s, s) == Ok(init + [s[|s| - 1]]);
      assert init + [s[|s| - 1]] == s;
    }
  }

  /** A shape of ones no longer than `s` broadcasts to `s`, on either side. */
  lemma {:induction false} BroadcastOnes(s: seq<nat>, t: seq<nat>)
    requires |t| <= |s| && forall d :: 0 <= d < |t| ==> t[d] == 1
    ensures BroadcastShape(s, t) == Ok(s)
    ensures BroadcastShape(t, s) == Ok(s)
    decreases |t|
  {
    if |t| > 0 {
      var t' := t[..|t| - 1];
      BroadcastOnes(s[..|s| - 1], t');
      assert s[..|s| - 1] + [s[|s| - 1]] == s;
    }
  }

  /** Element by element, for two arrays of one shape. */
  function SameShapeOp(op: Op, a: NdArray, b: NdArray): (r: Result<NdArray>)
    requires a.shape == b.shape
    ensures r.Ok? <==> forall p :: 0 <= p < |a.flat| ==> ApplyNum(op, a.flat[p], b.flat[p]).Ok?
    ensures r.Ok? ==> r.value.shape == a.shape
    ensures r.Ok? ==>
      forall p :: 0 <= p < |a.flat| ==> r.value.flat[p] == ApplyNum(op, a.flat[p], b.flat[p]).value
  {
    var xs :- Zip(op, a.flat, b.flat);
    Ok(ArrayData(a.shape, xs))
  }

  /** Every element of `a` against the sole element of `b`. */
  function ScalarRightOp(op: Op, a: NdArray, b: NdArray): (r: Result<NdArray>)
    requires |b.flat| == 1
    ensures r.Ok? <==> forall p :: 0 <= p < |a.flat| ==> ApplyNum(op, a.flat[p], b.flat[0]).Ok?
    ensures r.Ok? ==> r.value.shape == a.shape
    ensures r.Ok? ==>
      forall p :: 0 <= p < |a.flat| ==> r.value.flat[p] == ApplyNum(op, a.flat[p], b.flat[0]).value
  {
    var ys := seq(|a.flat|, _ => b.flat[0]);
    var xs :- Zip(op, a.flat, ys);
    Ok(ArrayData(a.shape, xs))
  }

  /** The sole element of `a` against every element of `b`. */
  function ScalarLeftOp(op: Op, a: NdArray, b: NdArray): (r: Result<NdArray>)
    requires |a.flat| == 1
    ensures r.Ok? <==> forall p :: 0 <= p < |b.flat| ==> ApplyNum(op, a.flat[0], b.flat[p]).Ok?
    ensures r.Ok? ==> r.value.shape == b.shape
    ensures r.Ok? ==>
      forall p :: 0 <= p < |b.flat| ==> r.value.flat[p] == ApplyNum(op, a.flat[0], b.flat[p]).value
  {
    var xs' := seq(|b.flat|, _ => a.flat[0]);
    var xs :- Zip(op, xs', b.flat);
    Ok(ArrayData(b.shape, xs))
  }

  /** `a op b` on arrays, for the broadcasting the containers meet: equal shapes
      element by element, or one side of size one (no more axes than the other, such
      as a number) against every element of the other. Shapes numpy cannot broadcast
      raise ValueError; the remaining broadcasts are outside the model. */
  function BroadcastOp(op: Op, a: NdArray, b: NdArray): (r: Result<NdArray>)
    ensures r.Ok? ==> BroadcastShape(a.shape, b.shape) == Ok(r.value.shape)
    ensures BroadcastShape(a.shape, b.shape).Err? ==> r == Err(ValueError)
    ensures a.shape == b.shape ==> r == SameShapeOp(op, a, b)
    ensures a.shape != b.shape && |b.flat| == 1 && |b.shape| <= |a.shape| ==> r == ScalarRightOp(op, a, b)
  {
    if a.shape == b.shape then
      BroadcastSame(a.shape);
      SameShapeOp(op, a, b)
    else if |b.flat| == 1 && |b.shape| <= |a.shape| then
      SizeOneAllOnes(b.shape);
      BroadcastOnes(a.shape, b.shape);
      ScalarRightOp(op, a, b)
    else if |a.flat| == 1 && |a.shape| <= |b.shape| then
      SizeOneAllOnes(a.shape);
      BroadcastOnes(b.shape, a.shape);
      ScalarLeftOp(op, a, b)
    else if BroadcastShape(a.shape, b.shape).Err? then Err(ValueError)
    else Err(Unmodelled)
  }

  /** An array against a number: every element against the number, keeping the shape. */
  lemma BroadcastNumber(op: Op, a: NdArray, c: real)
    ensures BroadcastOp(op, a, Scalar0(c)).Ok? <==> forall p :: 0 <= p < |a.flat| ==> ApplyNum(op, a.flat[p], c).Ok?
    ensures BroadcastOp(op, a, Scalar0(c)).Ok? ==>
      && BroadcastOp(op, a, Scalar0(c)).value.shape == a.shape
      && forall p :: 0 <= p < |a.flat| ==> BroadcastOp(op, a, Scalar0(c)).value.flat[p] == ApplyNum(op, a.flat[p], c).value
  {
    var b := Scalar0(c);
    assert b.flat[0] == c;
    if a.shape == b.shape {
      assert |a.flat| == 1;
    }
  }

  /** A number against an array: the number against every element, keeping the shape. */
  lemma BroadcastNumberLeft(op: Op, c: real, a: NdArray)
    ensures BroadcastOp(op, Scalar0(c), a).Ok? <==> forall p :: 0 <= p < |a.flat| ==> ApplyNum(op, c, a.flat[p]).Ok?
    ensures BroadcastOp(op, Scalar0(c), a).Ok? ==>
      && BroadcastOp(op, Scalar0(c), a).value.shape == a.shape
      && forall p :: 0 <= p < |a.flat| ==> BroadcastOp(op, Scalar0(c), a).value.flat[p] == ApplyNum(op, c, a.flat[p]).value
  {
    var b := Scalar0(c);
    assert b.flat[0] == c;
    if a.shape == b.shape {
      assert |a.flat| == 1;
    }
  }

  /** Adding a number to every element and subtracting it again gives back the array. */
  lemma NumberRoundTrip(a: NdArray, c: real)
    ensures BroadcastOp(Add, a, Scalar0(c)).Ok?
    ensures BroadcastOp(Sub, BroadcastOp(Add, a, Scalar0(c)).value, Scalar0(c)) == Ok(a)
  {
    BroadcastNumber(Add, a, c);
    var s := BroadcastOp(Add, a, Scalar0(c)).value;
    BroadcastNumber(Sub, s, c);
    var t := BroadcastOp(Sub, s, Scalar0(c)).value;
    forall p | 0 <= p < |a.flat|
      ensures t.flat[p] == a.flat[p]
    {
      OpInverses(a.flat[p], c);
    }
    assert t.flat == a.flat;
  }

  /** Adding an array of the same shape and subtracting it again gives back the array. */
  lemma SameShapeRoundTrip(a: NdArray, b: NdArray)
    requires a.shape == b.shape
    ensures BroadcastOp(Add, a, b).Ok?
    ensures BroadcastOp(Sub, BroadcastOp(Add, a, b).value, b) == Ok(a)
  {
    var s := BroadcastOp(Add, a, b).value;
    var t := BroadcastOp(Sub, s, b).value;
    forall p | 0 <= p < |a.flat|
      ensures t.flat[p] == a.flat[p]
    {
      OpInverses(a.flat[p], b.flat[p]);
    }
    assert t.flat == a.flat;
  }

  /** `[(x, y) for x in xs for y in ys]` */
  function OuterPairs(xs: seq<real>, ys: seq<real>): seq<(real, real)>
    decreases |xs|
  {
    if |xs| == 0 then [] else seq(|ys|, j requires 0 <= j < |ys| => (xs[0], ys[j])) + OuterPairs(xs[1..], ys)
  }

  lemma {:induction false} OuterPairsLength(xs: seq<real>, ys: seq<real>)
    ensures |OuterPairs(xs, ys)| == |xs| * |ys|
    decreases |xs|
  {
    if |xs| > 0 {
      OuterPairsLength(xs[1..], ys);
      assert |xs| * |ys| == |ys| + (|xs| - 1) * |ys|;
    }
  }

  /** Row-major position `i * |ys| + j` holds the pair `(xs[i], ys[j])`. */
  lemma {:induction false} OuterPairsAt(xs: seq<real>, ys: seq<real>, i: nat, j: nat)
    requires i < |xs| && j < |ys|
    ensures i * |ys| + j < |OuterPairs(xs, ys)|
    ensures OuterPairs(xs, ys)[i * |ys| + j] == (xs[i], ys[j])
    decreases i
  {
    OuterPairsLength(xs, ys);
    MulBound(i, j, |xs|, |ys|);
    if i > 0 {
      OuterPairsAt(xs[1..], ys, i - 1, j);
      assert i * |ys| + j == |ys| + ((i - 1) * |ys| + j);
    }
  }

  lemma {:induction false} SizeConcat(s: seq<nat>, t: seq<nat>)
    ensures Size(s + t) == Size(s) * Size(t)
    decreases |s|
  {
    if |s| > 0 {
      var st := s + t;
      assert st[0] == s[0] && st[1..] == s[1..] + t;
      SizeConcat(s[1..], t);
      assert Size(st) == st[0] * Size(st[1..]);
      assert Size(s + t) == s[0] * (Size(s[1..]) * Size(t));
      assert s[0] * (Size(s[1..]) * Size(t)) == (s[0] * Size(s[1..])) * Size(t);
    } else {
      assert s + t == t;
    }
  }

  /** `np.add.outer`, `np.subtract.outer` and `np.multiply.outer`: the shape of `a`
      followed by the shape of `b`, and every element of `a` against every element of `b`. */
  function OuterWith(op: Op, a: NdArray, b: NdArray): (r: NdArray)
    requires !op.Div?
    ensures r.shape == a.shape + b.shape
    ensures |r.flat| == |a.flat| * |b.flat|
  {
    var ps := OuterPairs(a.flat, b.flat);
    OuterPairsLength(a.flat, b.flat);
    SizeConcat(a.shape, b.shape);
    ArrayData(a.shape + b.shape, seq(|ps|, p requires 0 <= p < |ps| => Ring(op, ps[p].0, ps[p].1)))
  }

  /** Element `(i, j)` of an outer operation combines `a`'s i-th and `b`'s j-th elements. */
  lemma OuterEntry(op: Op, a: NdArray, b: NdArray, i: nat, j: nat)
    requires !op.Div? && i < |a.flat| && j < |b.flat|
    ensures i * |b.flat| + j < |OuterWith(op, a, b).flat|
    ensures OuterWith(op, a, b).flat[i * |b.flat| + j] == Ring(op, a.flat[i], b.flat[j])
  {
    OuterPairsAt(a.flat, b.flat, i, j);
  }

  /** `np.outer(a, b)`: both inputs flattened, then a `|a| x |b|` matrix of products. */
  function NpOuter(a: NdArray, b: NdArray): (r: NdArray)
    ensures r.shape == [|a.flat|, |b.flat|]
  {
    OuterWith(Mul, Flatten(a), Flatten(b))
  }

  /** Element `(i, j)` of a two-dimensional array. */
  function At2(a: NdArray, i: nat, j: nat): real
    requires Ndim(a) == 2 && i < a.shape[0] && j < a.shape[1]
  {
    Size2(a.shape[0], a.shape[1]);
    assert a.shape == [a.shape[0], a.shape[1]];
    MulBound(i, j, a.shape[0], a.shape[1]);
    a.flat[i * a.shape[1] + j]
  }

  /** For one-dimensional blocks, `outer`, `add_outer` and `subtract_outer` give the
      `|a| x |b|` matrix of products, sums and differences. */
  lemma OuterVectors(op: Op, xs: seq<real>, ys: seq<real>, i: nat, j: nat)
    requires !op.Div? && i < |xs| && j < |ys|
    ensures OuterWith(op, Vector(xs), Vector(ys)).shape == [|xs|, |ys|]
    ensures At2(OuterWith(op, Vector(xs), Vector(ys)), i, j) == Ring(op, xs[i], ys[j])
  {
    OuterEntry(op, Vector(xs), Vector(ys), i, j);
  }

  /** The rows of a matrix one after the other. */
  function Concat(rows: seq<seq<real>>): seq<real>
    decreases |rows|
  {
    if |rows| == 0 then [] else rows[0] + Concat(rows[1..])
  }

  lemma {:induction false} ConcatAt(rows: seq<seq<real>>, m: nat, i: nat, j: nat)
    requires forall k :: 0 <= k < |rows| ==> |rows[k]| == m
    requires i < |rows| && j < m
    ensures |Concat(rows)| == |rows| * m
    ensures i * m + j < |Concat(rows)|
    ensures Concat(rows)[i * m + j] == rows[i][j]
    decreases |rows|
  {
    ConcatLength(rows, m);
    MulBound(i, j, |rows|, m);
    if i > 0 {
      ConcatAt(rows[1..], m, i - 1, j);
      assert i * m + j == m + ((i - 1) * m + j);
    }
  }

  lemma {:induction false} ConcatLength(rows: seq<seq<real>>, m: nat)
    requires forall k :: 0 <= k < |rows| ==> |rows[k]| == m
    ensures |Concat(rows)| == |rows| * m
    decreases |rows|
  {
    if |rows| > 0 {
      ConcatLength(rows[1..], m);
      assert |rows| * m == m + (|rows| - 1) * m;
    }
  }

  function Abs(k: int): nat {
    if k < 0 then -k else k
  }

  /** The value `np.diag(v, k)` puts at `(i, j)`. */
  function DiagEntry(v: seq<real>, k: int, i: nat, j: nat): real {
    if j - i == k then
      var p := if k >= 0 then i else j;
      if p < |v| then v[p] else 0.0
    else 0.0
  }

  /** `np.diag(v, k)` for a one-dimensional `v`: the square matrix of side `|v| + |k|`
      with `v` on the k-th diagonal and zeros elsewhere. */
  function Diag(v: seq<real>, k: int): (r: NdArray)
    ensures r.shape == [|v| + Abs(k), |v| + Abs(k)]
  {
    var n := |v| + Abs(k);
    var rows := seq(n, i requires 0 <= i < n => seq(n, j requires 0 <= j < n => DiagEntry(v, k, i, j)));
    ConcatLength(rows, n);
    Size2(n, n);
    ArrayData([n, n], Concat(rows))
  }

  /** Every entry of `np.diag(v, k)` lies on the k-th diagonal or is zero, and the
      diagonal holds `v` in order. */
  lemma DiagAt(v: seq<real>, k: int, i: nat, j: nat)
    requires i < |v| + Abs(k) && j < |v| + Abs(k)
    ensures At2(Diag(v, k), i, j) == (if j - i == k then v[if k >= 0 then i else j] else 0.0)
  {
    var n := |v| + Abs(k);
    var rows := seq(n, i requires 0 <= i < n => seq(n, j requires 0 <= j < n => DiagEntry(v, k, i, j)));
    ConcatAt(rows, n, i, j);
  }

  /** The dense entry `(i, j)` of the symmetric tridiagonal matrix with diagonal `d` and
      off-diagonal `od`. */
  function TriEntry(d: seq<real>, od: seq<real>, i: nat, j: nat): real
    requires i < |d| && j < |d| && |od| + 1 >= |d|
  {
    if i == j then d[i]
    else if j == i + 1 then od[i]
    else if i == j + 1 then od[j]
    else 0.0
  }

  /** `np.diag(d) + np.diag(od, k=1) + np.diag(od, k=-1)`. */
  function Tridiagonal(d: seq<real>, od: seq<real>): Result<NdArray> {
    var upper :- BroadcastOp(Add, Diag(d, 0), Diag(od, 1));
    BroadcastOp(Add, upper, Diag(od, -1))
  }

  /** An empty diagonal: the `1 x 1` zero matrices broadcast against `0 x 0`. */
  lemma TridiagonalEmpty()
    ensures Tridiagonal([], []) == Ok(Empty2())
  {
    var a, b, c := Diag([], 0), Diag([], 1), Diag([], -1);
    Size2(1, 1);
    assert |b.flat| == 1 && |b.shape| <= |a.shape| && a.shape != b.shape;
    var u := BroadcastOp(Add, a, b);
    assert u == ScalarRightOp(Add, a, b);
    assert u.Ok? && u.value.shape == [0, 0];
    assert |c.flat| == 1;
    var t := BroadcastOp(Add, u.value, c);
    assert t == ScalarRightOp(Add, u.value, c);
  }

  /** At least one diagonal entry: three `n x n` matrices added element by element. */
  lemma TridiagonalEntries(d: seq<real>, od: seq<real>, i: nat, j: nat)
    requires |d| > 0 && |od| == |d| - 1 && i < |d| && j < |d|
    ensures Tridiagonal(d, od).Ok?
    ensures Tridiagonal(d, od).value.shape == [|d|, |d|]
    ensures At2(Tridiagonal(d, od).value, i, j) == TriEntry(d, od, i, j)
  {
    var a, b, c := Diag(d, 0), Diag(od, 1), Diag(od, -1);
    var u := SameShapeOp(Add, a, b);
    AddAt2(a, b, i, j);
    var t := SameShapeOp(Add, u.value, c);
    AddAt2(u.value, c, i, j);
    assert Tridiagonal(d, od) == t;
    DiagAt(d, 0, i, j);
    DiagAt(od, 1, i, j);
    DiagAt(od, -1, i, j);
  }

  /** Adding two matrices of one shape adds their entries. */
  lemma AddAt2(a: NdArray, b: NdArray, i: nat, j: nat)
    requires a.shape == b.shape && Ndim(a) == 2 && i < a.shape[0] && j < a.shape[1]
    ensures SameShapeOp(Add, a, b).Ok? && SameShapeOp(Add, a, b).value.shape == a.shape
    ensures At2(SameShapeOp(Add, a, b).value, i, j) == At2(a, i, j) + At2(b, i, j)
  {
    Size2(a.shape[0], a.shape[1]);
    assert a.shape == [a.shape[0], a.shape[1]];
    MulBound(i, j, a.shape[0], a.shape[1]);
    var p := i * a.shape[1] + j;
    var r := SameShapeOp(Add, a, b).value;
    assert r.flat[p] == ApplyNum(Add, a.flat[p], b.flat[p]).value;
  }

  /** With `|od| == max(|d| - 1, 0)` the sum is the dense `n x n` tridiagonal matrix. */
  lemma TridiagonalDense(d: seq<real>, od: seq<real>)
    requires |od| == if |d| == 0 then 0 else |d| - 1
    ensures Tridiagonal(d, od).Ok?
    ensures Tridiagonal(d, od).value.shape == [|d|, |d|]
    ensures forall i: nat, j: nat :: i < |d| && j < |d| ==>
      At2(Tridiagonal(d, od).value, i, j) == TriEntry(d, od, i, j)
  {
    if |d| == 0 {
      TridiagonalEmpty();
    } else {
      TridiagonalEntries(d, od, 0, 0);
      forall i: nat, j: nat | i < |d| && j < |d|
        ensures At2(Tridiagonal(d, od).value, i, j) == TriEntry(d, od, i, j)
      {
        TridiagonalEntries(d, od, i, j);
      }
    }
  }

  /** The dense tridiagonal matrix is symmetric. */
  lemma TriEntrySymmetric(d: seq<real>, od: seq<real>, i: nat, j: nat)
    requires i < |d| && j < |d| && |od| + 1 >= |d|
    ensures TriEntry(d, od, i, j) == TriEntry(d, od, j, i)
  {
  }
}
