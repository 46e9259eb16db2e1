/** The scalar containers `Scalar` (scalar.py) and `EnsembleScalar` (ensemble_scalar.py):
    one value per block, built from a dictionary, combined with numbers and with other
    per-block data, and reduced to their least and greatest value. */
module Scalars {
  import opened Results
  import opened OrderedDicts
  import opened Ensembles
  import opened NdArrays
  import opened Values
  import opened Containers
  import Arrays

  /** The value `Scalar` stores for one block: the tag is checked inside the loop, then
      `data[block]` or `data[block][tag]` is read and unwrapped. */
  function Datum(data: Value, b: Block, tag: Tag, dtype: DType): (r: Result<Value>)
    ensures tag.OtherTag? ==> r == Err(TypeError)
    ensures r.Ok? ==> !r.value.Arr?
    ensures tag.NoTag? ==>
      (Subscript(data, BlockKey(b)).Err? ==> r == Err(Subscript(data, BlockKey(b)).error))
      && (Subscript(data, BlockKey(b)).Ok? ==> r == Unwrap(Subscript(data, BlockKey(b)).value, dtype))
    ensures tag.StrTag? && r.Ok? ==>
      && data.Dict? && BlockKey(b) in data.entries
      && var x := data.entries[BlockKey(b)];
         x.Dict? && StrKey(tag.s) in x.entries && r == Unwrap(x.entries[StrKey(tag.s)], dtype)
  {
    if tag.OtherTag? then Err(TypeError)
    else
      var x :- Subscript(data, BlockKey(b));
      var dt :- if tag.NoTag? then Ok(x) else Subscript(x, StrKey(tag.s));
      Unwrap(dt, dtype)
  }

  /** `Scalar(ensemble, data, tag, dtype)`: the type checks, then one value per block of
      the ensemble in iteration order; the first block that fails aborts the call. */
  function New(ensemble: Obj, data: Obj, tag: Tag, dtype: DType): (r: Result<ScalarC>)
    requires ObjWf(ensemble)
    ensures !ensemble.EnsembleObj? ==> r == Err(TypeError)
    ensures ensemble.EnsembleObj? && !IsDict(data) ==> r == Err(TypeError)
    ensures ensemble.EnsembleObj? && IsDict(data) ==>
      (r.Ok? <==> forall i :: 0 <= i < |ensemble.e.Keys()| ==> Datum(data.v, ensemble.e.Keys()[i], tag, dtype).Ok?)
    ensures r.Ok? ==>
      && ensemble.EnsembleObj? && IsDict(data)
      && r.value.Wf() && r.value.cls.PlainScalar? && r.value.ensemble == ensemble.e
      && forall b :: b in r.value.scalar.vals ==>
           Datum(data.v, b, tag, dtype).Ok? && r.value.scalar.vals[b] == Datum(data.v, b, tag, dtype).value
    ensures ensemble.EnsembleObj? && IsDict(data) && r.Err? ==>
      var ks := ensemble.e.Keys();
      exists i :: 0 <= i < |ks| && Datum(data.v, ks[i], tag, dtype) == Err(r.error)
        && forall j :: 0 <= j < i ==> Datum(data.v, ks[j], tag, dtype).Ok?
  {
    if !ensemble.EnsembleObj? then Err(TypeError)
    else if !IsDict(data) then Err(TypeError)
    else
      var d :- ForBlocks(ensemble.e, b => Datum(data.v, b, tag, dtype));
      Ok(ScalarC(PlainScalar, ensemble.e, d))
  }

  /** The tag is checked only when a block is read: a non-string tag is accepted by an
      ensemble without blocks and rejected by any other. */
  lemma TagCheckedPerBlock(e: Ensemble, data: Value, dtype: DType)
    requires e.Valid() && data.Dict?
    ensures New(EnsembleObj(e), Plain(data), OtherTag, dtype).Ok? <==> |e.Keys()| == 0
    ensures New(EnsembleObj(e), Plain(data), OtherTag, dtype).Err? ==>
      New(EnsembleObj(e), Plain(data), OtherTag, dtype).error == TypeError
  {
    if |e.Keys()| > 0 {
      assert Datum(data, e.Keys()[0], OtherTag, dtype).Err?;
    }
  }

  /** The constructor as the operations call it, on a fresh `OrderedDict` of values that
      are not arrays: the container holds exactly those values. */
  lemma Rebuild(e: Ensemble, data: ODict<Block, Value>)
    requires e.Valid() && data.Valid() && data.keys == e.Keys()
    requires forall b :: b in data.vals ==> !data.vals[b].Arr?
    ensures New(EnsembleObj(e), Plain(DictValue(data)), NoTag, None) == Ok(ScalarC(PlainScalar, e, data))
  {
    var ks := e.Keys();
    forall i | 0 <= i < |ks|
      ensures Datum(DictValue(data), ks[i], NoTag, None).Ok?
    {
      assert ks[i] in data.vals;
      OwnDatum(data, ks[i]);
    }
    var r := New(EnsembleObj(e), Plain(DictValue(data)), NoTag, None).value;
    forall b | b in r.scalar.vals
      ensures b in data.vals && r.scalar.vals[b] == data.vals[b]
    {
      OwnDatum(data, b);
    }
    SameDict(r.scalar, data);
  }

  lemma OwnDatum(data: ODict<Block, Value>, b: Block)
    requires b in data.vals && !data.vals[b].Arr?
    ensures Datum(DictValue(data), b, NoTag, None) == Ok(data.vals[b])
  {
  }

  lemma SameDict(r: ODict<Block, Value>, data: ODict<Block, Value>)
    requires r.Valid() && data.Valid() && r.keys == data.keys
    requires forall b :: b in r.vals ==> b in data.vals && r.vals[b] == data.vals[b]
    ensures r == data
  {
    assert r.vals == data.vals;
  }

  /** Rebuilding a `Scalar` from its own `OrderedDict` gives it back. */
  lemma NewOfOwn(s: ScalarC)
    requires s.Wf() && s.cls.PlainScalar?
    ensures New(EnsembleObj(s.ensemble), Plain(DictValue(s.scalar)), NoTag, None) == Ok(s)
  {
    Rebuild(s.ensemble, s.scalar);
  }

  /** The value `EnsembleScalar` stores for one block: `data[block]`, with the caster
      applied when given. The tag plays no part (see `EnsembleTagIgnored`). */
  function EnsembleDatum(data: Value, b: Block, dtype: DType): (r: Result<Value>)
    ensures Subscript(data, BlockKey(b)).Err? ==> r == Err(Subscript(data, BlockKey(b)).error)
    ensures Subscript(data, BlockKey(b)).Ok? && dtype.None? ==> r == Subscript(data, BlockKey(b))
    ensures Subscript(data, BlockKey(b)).Ok? && dtype.Some? ==>
      r == CastValue(dtype.value, Subscript(data, BlockKey(b)).value)
  {
    var dt :- Subscript(data, BlockKey(b));
    if dtype.None? then Ok(dt) else CastValue(dtype.value, dt)
  }

  /** `EnsembleScalar(ensemble, data, tag, dtype)` as written: a non-string tag is
      rejected before the loop, and a string tag is then ignored. */
  function NewEnsemble(ensemble: Obj, data: Obj, tag: Tag, dtype: DType): (r: Result<ScalarC>)
    requires ObjWf(ensemble)
    ensures !ensemble.EnsembleObj? ==> r == Err(TypeError)
    ensures ensemble.EnsembleObj? && !IsDict(data) ==> r == Err(TypeError)
    ensures ensemble.EnsembleObj? && IsDict(data) && tag.OtherTag? ==> r == Err(TypeError)
    ensures ensemble.EnsembleObj? && IsDict(data) && !tag.OtherTag? ==>
      (r.Ok? <==> forall i :: 0 <= i < |ensemble.e.Keys()| ==> EnsembleDatum(data.v, ensemble.e.Keys()[i], dtype).Ok?)
    ensures r.Ok? ==>
      && ensemble.EnsembleObj? && IsDict(data) && !tag.OtherTag?
      && r.value.Wf() && r.value.cls.EnsembleScalarClass? && r.value.ensemble == ensemble.e
      && forall b :: b in r.value.scalar.vals ==>
           EnsembleDatum(data.v, b, dtype).Ok? && r.value.scalar.vals[b] == EnsembleDatum(data.v, b, dtype).value
  {
    if !ensemble.EnsembleObj? then Err(TypeError)
    else if !IsDict(data) then Err(TypeError)
    else if tag.OtherTag? then Err(TypeError)
    else
      var d :- ForBlocks(ensemble.e, b => EnsembleDatum(data.v, b, dtype));
      Ok(ScalarC(EnsembleScalarClass, ensemble.e, d))
  }

  /** `EnsembleScalar(ensemble, data)` on a fresh `OrderedDict` holds exactly that data. */
  lemma RebuildEnsemble(e: Ensemble, data: ODict<Block, Value>)
    requires e.Valid() && data.Valid() && data.keys == e.Keys()
    ensures NewEnsemble(EnsembleObj(e), Plain(DictValue(data)), NoTag, None) == Ok(ScalarC(EnsembleScalarClass, e, data))
  {
    var ks := e.Keys();
    assert forall i :: 0 <= i < |ks| ==> ks[i] in data.vals;
    var r := NewEnsemble(EnsembleObj(e), Plain(DictValue(data)), NoTag, None).value;
    SameDict(r.scalar, data);
  }

  /** A string tag has no effect: the call reads `data[block]` whatever the tag. */
  lemma EnsembleTagIgnored(e: Ensemble, data: Value, t: string, dtype: DType)
    requires e.Valid()
    ensures NewEnsemble(EnsembleObj(e), Plain(data), StrTag(t), dtype) == NewEnsemble(EnsembleObj(e), Plain(data), NoTag, dtype)
  {
  }

  /** One block whose datum is a dictionary `{"x": 1.0}`: with the tag `"x"` the value
      stored is the dictionary, not the number under the tag. */
  lemma EnsembleTagExample(b: Block)
    ensures var data := Dict(true, map[BlockKey(b) := Dict(false, map[StrKey("x") := Num(1.0)])]);
      && EnsembleDatum(data, b, None) == Ok(Dict(false, map[StrKey("x") := Num(1.0)]))
      && TaggedDatum(data, b, StrTag("x"), None) == Ok(Num(1.0))
  {
  }

  /** The value the evidently intended `EnsembleScalar` stores for one block:
      `data[block][tag]` when a tag is given, `data[block]` otherwise. */
  function TaggedDatum(data: Value, b: Block, tag: Tag, dtype: DType): (r: Result<Value>)
    requires !tag.OtherTag?
    ensures tag.NoTag? ==> r == EnsembleDatum(data, b, dtype)
    ensures tag.StrTag? && r.Ok? ==>
      && data.Dict? && BlockKey(b) in data.entries
      && var x := data.entries[BlockKey(b)];
         x.Dict? && StrKey(tag.s) in x.entries
         && (dtype.None? ==> r.value == x.entries[StrKey(tag.s)])
         && (dtype.Some? ==> r == CastValue(dtype.value, x.entries[StrKey(tag.s)]))
  {
    if tag.NoTag? then EnsembleDatum(data, b, dtype)
    else
      var x :- Subscript(data, BlockKey(b));
      var dt :- Subscript(x, StrKey(tag.s));
      if dtype.None? then Ok(dt) else CastValue(dtype.value, dt)
  }

  /** The evidently intended `EnsembleScalar` constructor: a string tag selects the entry
      `data[block][tag]`, as in `Scalar`, `Array` and `EnsembleArray`. */
  function NewEnsembleTagged(ensemble: Obj, data: Obj, tag: Tag, dtype: DType): (r: Result<ScalarC>)
    requires ObjWf(ensemble)
    ensures !ensemble.EnsembleObj? || !IsDict(data) || tag.OtherTag? ==> r == Err(TypeError)
    ensures ensemble.EnsembleObj? && IsDict(data) && !tag.OtherTag? ==>
      (r.Ok? <==> forall i :: 0 <= i < |ensemble.e.Keys()| ==> TaggedDatum(data.v, ensemble.e.Keys()[i], tag, dtype).Ok?)
    ensures r.Ok? ==>
      && ensemble.EnsembleObj? && IsDict(data) && !tag.OtherTag?
      && r.value.Wf() && r.value.cls.EnsembleScalarClass? && r.value.ensemble == ensemble.e
      && forall b :: b in r.value.scalar.vals ==>
           TaggedDatum(data.v, b, tag, dtype).Ok? && r.value.scalar.vals[b] == TaggedDatum(data.v, b, tag, dtype).value
  {
    if !ensemble.EnsembleObj? then Err(TypeError)
    else if !IsDict(data) then Err(TypeError)
    else if tag.OtherTag? then Err(TypeError)
    else
      var d :- ForBlocks(ensemble.e, b => TaggedDatum(data.v, b, tag, dtype));
      Ok(ScalarC(EnsembleScalarClass, ensemble.e, d))
  }

  /** Without a tag the intended constructor is the one as written. */
  lemma TaggedAgreesUntagged(e: Ensemble, data: Value, dtype: DType)
    requires e.Valid()
    ensures NewEnsembleTagged(EnsembleObj(e), Plain(data), NoTag, dtype) == NewEnsemble(EnsembleObj(e), Plain(data), NoTag, dtype)
  {
    TraverseCongruent(e.Keys(), b => TaggedDatum(data, b, NoTag, dtype), b => EnsembleDatum(data, b, dtype));
  }

  /** `x op c` for a number `c` (the `np.isscalar(other)` branch of `__add__`, `__sub__`,
      `__mul__` and `__truediv__`): every block's value against the number, then the
      constructor. `None` and dictionaries cannot take part in arithmetic. */
  function NumberOp(s: ScalarC, op: Op, c: real): (r: Result<ScalarC>)
    requires s.Wf() && s.cls.PlainScalar?
    ensures r.Ok? <==> forall b :: b in s.scalar.vals ==>
      s.scalar.vals[b].Num? && ApplyNum(op, s.scalar.vals[b].x, c).Ok?
    ensures r.Ok? ==>
      && r.value.Wf() && r.value.cls.PlainScalar? && r.value.ensemble == s.ensemble
      && r.value.scalar.keys == s.scalar.keys
      && forall b :: b in s.scalar.vals ==> r.value.scalar.vals[b] == Num(ApplyNum(op, s.scalar.vals[b].x, c).value)
    ensures r.Err? ==> r.error == TypeError || r.error == Unmodelled
  {
    NumberBins(s, op, c);
    var data :- MapBlocks(s.scalar, (b, v) => BinOp(op, v, Num(c)));
    Rebuild(s.ensemble, data);
    New(EnsembleObj(s.ensemble), Plain(DictValue(data)), NoTag, None)
  }

  lemma NumberBins(s: ScalarC, op: Op, c: real)
    requires s.Wf() && s.cls.PlainScalar?
    ensures forall b :: b in s.scalar.vals ==>
      (BinOp(op, s.scalar.vals[b], Num(c)).Ok? <==> s.scalar.vals[b].Num? && ApplyNum(op, s.scalar.vals[b].x, c).Ok?)
    ensures forall b :: b in s.scalar.vals && BinOp(op, s.scalar.vals[b], Num(c)).Ok? ==>
      BinOp(op, s.scalar.vals[b], Num(c)).value == Num(ApplyNum(op, s.scalar.vals[b].x, c).value)
    ensures forall b :: b in s.scalar.vals && BinOp(op, s.scalar.vals[b], Num(c)).Err? ==>
      BinOp(op, s.scalar.vals[b], Num(c)).error == TypeError || BinOp(op, s.scalar.vals[b], Num(c)).error == Unmodelled
  {
  }

  /** `x op other[block]` for one block (the other branch of `__add__` and `__sub__`):
      only a plain value can be combined with the block's value; an array container
      coming back from `other[block]` has no reflected operator. */
  function LookupBin(op: Op, v: Value, b: Block, other: Obj): (r: Result<Value>)
    requires ObjWf(other)
    ensures Arrays.Lookup(other, b).Err? ==> r == Err(Arrays.Lookup(other, b).error)
    ensures Arrays.Lookup(other, b).Ok? && Arrays.Lookup(other, b).value.Plain? ==>
      r == BinOp(op, v, Arrays.Lookup(other, b).value.v)
    ensures Arrays.Lookup(other, b).Ok? && !Arrays.Lookup(other, b).value.Plain? ==> r == Err(TypeError)
  {
    var y :- Arrays.Lookup(other, b);
    if y.Plain? then BinOp(op, v, y.v) else Err(TypeError)
  }

  /** `x op other` for anything but a number: every block's value against
      `other[block]`, then the constructor, which reduces an array result to its sole
      element. */
  function ContainerOp(s: ScalarC, op: Op, other: Obj): (r: Result<ScalarC>)
    requires s.Wf() && s.cls.PlainScalar? && ObjWf(other)
    ensures r.Ok? ==>
      && r.value.Wf() && r.value.cls.PlainScalar? && r.value.ensemble == s.ensemble
      && r.value.scalar.keys == s.scalar.keys
      && forall b :: b in s.scalar.vals ==>
           && LookupBin(op, s.scalar.vals[b], b, other).Ok?
           && Unwrap(LookupBin(op, s.scalar.vals[b], b, other).value, None).Ok?
           && r.value.scalar.vals[b] == Unwrap(LookupBin(op, s.scalar.vals[b], b, other).value, None).value
  {
    var data :- LookupBins(s, op, other);
    RebuildUnwraps(s.ensemble, data);
    New(EnsembleObj(s.ensemble), Plain(DictValue(data)), NoTag, None)
  }

  /** The constructor on a fresh `OrderedDict` of values unwraps each of them. */
  lemma RebuildUnwraps(e: Ensemble, data: ODict<Block, Value>)
    requires e.Valid() && data.Valid() && data.keys == e.Keys()
    ensures var r := New(EnsembleObj(e), Plain(DictValue(data)), NoTag, None);
      r.Ok? ==> && r.value.scalar.keys == data.keys
                && forall b :: b in data.vals ==>
                     Unwrap(data.vals[b], None).Ok? && r.value.scalar.vals[b] == Unwrap(data.vals[b], None).value
  {
    forall b | b in data.vals
      ensures Datum(DictValue(data), b, NoTag, None) == Unwrap(data.vals[b], None)
    {
    }
  }

  /** `x + other` and `x - other`. */
  function AddSub(s: ScalarC, op: Op, other: Obj): (r: Result<ScalarC>)
    requires s.Wf() && s.cls.PlainScalar? && ObjWf(other) && (op.Add? || op.Sub?)
    ensures IsScalarObj(other) ==> r == NumberOp(s, op, other.v.x)
    ensures !IsScalarObj(other) ==> r == ContainerOp(s, op, other)
  {
    if IsScalarObj(other) then NumberOp(s, op, other.v.x) else ContainerOp(s, op, other)
  }

  /** The loop of the non-number branch, before the constructor. */
  function LookupBins(s: ScalarC, op: Op, other: Obj): (r: Result<ODict<Block, Value>>)
    requires s.Wf() && ObjWf(other)
    ensures r.Ok? <==> forall b :: b in s.scalar.vals ==> LookupBin(op, s.scalar.vals[b], b, other).Ok?
    ensures r.Ok? ==> r.value.Valid() && r.value.keys == s.scalar.keys
    ensures r.Ok? ==> forall b :: b in s.scalar.vals ==> r.value.vals[b] == LookupBin(op, s.scalar.vals[b], b, other).value
  {
    MapBlocks(s.scalar, (b, v) => LookupBin(op, v, b, other))
  }

  /** Every block holds a number. */
  ghost predicate Numeric(s: ScalarC) {
    forall b :: b in s.scalar.vals ==> s.scalar.vals[b].Num?
  }

  /** Two `Scalar`s over the same blocks combine block by block: `other[block]` is the
      other's value for the block. */
  lemma ScalarsOp(s: ScalarC, op: Op, t: ScalarC)
    requires s.Wf() && s.cls.PlainScalar? && t.Wf() && t.cls.PlainScalar? && t.scalar.keys == s.scalar.keys
    requires Numeric(s) && Numeric(t)
    ensures ContainerOp(s, op, ScalarObj(t)).Ok? <==>
      forall b :: b in s.scalar.vals ==> ApplyNum(op, s.scalar.vals[b].x, t.scalar.vals[b].x).Ok?
    ensures ContainerOp(s, op, ScalarObj(t)).Ok? ==>
      forall b :: b in s.scalar.vals ==>
        ContainerOp(s, op, ScalarObj(t)).value.scalar.vals[b] == Num(ApplyNum(op, s.scalar.vals[b].x, t.scalar.vals[b].x).value)
  {
    forall b | b in s.scalar.vals {
      PairBin(s, op, t, b);
    }
    var m := LookupBins(s, op, ScalarObj(t));
    if m.Ok? {
      Rebuild(s.ensemble, m.value);
    }
  }

  lemma PairBin(s: ScalarC, op: Op, t: ScalarC, b: Block)
    requires s.Wf() && t.Wf() && t.cls.PlainScalar? && t.scalar.keys == s.scalar.keys
    requires b in s.scalar.vals && s.scalar.vals[b].Num? && t.scalar.vals[b].Num?
    ensures LookupBin(op, s.scalar.vals[b], b, ScalarObj(t)).Ok? <==> ApplyNum(op, s.scalar.vals[b].x, t.scalar.vals[b].x).Ok?
    ensures LookupBin(op, s.scalar.vals[b], b, ScalarObj(t)).Ok? ==>
      LookupBin(op, s.scalar.vals[b], b, ScalarObj(t)).value == Num(ApplyNum(op, s.scalar.vals[b].x, t.scalar.vals[b].x).value)
  {
    assert b in t.scalar.vals;
  }

  /** Adding a `Scalar` and subtracting it again gives back the numbers. */
  lemma AddSubScalars(s: ScalarC, t: ScalarC)
    requires s.Wf() && s.cls.PlainScalar? && t.Wf() && t.cls.PlainScalar? && t.scalar.keys == s.scalar.keys
    requires Numeric(s) && Numeric(t)
    ensures ContainerOp(s, Add, ScalarObj(t)).Ok?
    ensures ContainerOp(ContainerOp(s, Add, ScalarObj(t)).value, Sub, ScalarObj(t)) == Ok(s)
  {
    ScalarsOp(s, Add, t);
    var u := ContainerOp(s, Add, ScalarObj(t)).value;
    ScalarsOp(u, Sub, t);
    forall b | b in s.scalar.vals
      ensures ApplyNum(Sub, u.scalar.vals[b].x, t.scalar.vals[b].x) == Ok(s.scalar.vals[b].x)
    {
      OpInverses(s.scalar.vals[b].x, t.scalar.vals[b].x);
    }
    var w := ContainerOp(u, Sub, ScalarObj(t)).value;
    SameDict(w.scalar, s.scalar);
  }

  /** Dividing by a `Scalar` without zeros and multiplying by it again gives back the
      numbers (with the block-by-block operators of `IntendedMulDiv`). */
  lemma DivMulScalars(s: ScalarC, t: ScalarC)
    requires s.Wf() && s.cls.PlainScalar? && t.Wf() && t.cls.PlainScalar? && t.scalar.keys == s.scalar.keys
    requires Numeric(s) && Numeric(t)
    requires forall b :: b in t.scalar.vals ==> t.scalar.vals[b].x != 0.0
    ensures ContainerOp(s, Div, ScalarObj(t)).Ok?
    ensures ContainerOp(ContainerOp(s, Div, ScalarObj(t)).value, Mul, ScalarObj(t)) == Ok(s)
  {
    ScalarsOp(s, Div, t);
    var u := ContainerOp(s, Div, ScalarObj(t)).value;
    ScalarsOp(u, Mul, t);
    forall b | b in s.scalar.vals
      ensures ApplyNum(Mul, u.scalar.vals[b].x, t.scalar.vals[b].x) == Ok(s.scalar.vals[b].x)
    {
      OpInverses(s.scalar.vals[b].x, t.scalar.vals[b].x);
    }
    var w := ContainerOp(u, Mul, ScalarObj(t)).value;
    SameDict(w.scalar, s.scalar);
  }

  /** Adding a number and subtracting it again gives back the numbers. */
  lemma AddSubNumber(s: ScalarC, c: real)
    requires s.Wf() && s.cls.PlainScalar? && Numeric(s)
    ensures NumberOp(s, Add, c).Ok?
    ensures NumberOp(NumberOp(s, Add, c).value, Sub, c) == Ok(s)
  {
    var u := NumberOp(s, Add, c).value;
    forall b | b in s.scalar.vals
      ensures ApplyNum(Sub, u.scalar.vals[b].x, c) == Ok(s.scalar.vals[b].x)
    {
      OpInverses(s.scalar.vals[b].x, c);
    }
    var w := NumberOp(u, Sub, c).value;
    SameDict(w.scalar, s.scalar);
  }

  /** `x * other` and `x / other` as written: a number is applied block by block; any
      other operand is asked to do the operation itself (`other.__mul__(x)`), with `x`
      now on its right. `depth` is the number of calls the interpreter's stack still
      admits. */
  function Delegate(s: ScalarC, op: Op, other: Obj, depth: nat): (r: Result<Obj>)
    requires s.Wf() && s.cls.PlainScalar? && ObjWf(other) && (op.Mul? || op.Div?)
    ensures IsScalarObj(other) ==>
      (r.Ok? <==> NumberOp(s, op, other.v.x).Ok?) && (r.Ok? ==> r.value == ScalarObj(NumberOp(s, op, other.v.x).value))
    ensures other.ArrayObj? ==>
      (r.Ok? <==> Arrays.Operator(other.a, op, ScalarObj(s)).Ok?)
      && (r.Ok? ==> r.value == ArrayObj(Arrays.Operator(other.a, op, ScalarObj(s)).value))
    ensures other.EnsembleObj? || other.TriDiagObj? || (other.ScalarObj? && other.s.cls.EnsembleScalarClass?) ==>
      r == Err(AttributeError)
    ensures other.Plain? && (other.v.NoneV? || other.v.Dict?) ==> r == Err(AttributeError)
    ensures other.Plain? && other.v.Arr? ==> r == Err(Unmodelled)
    decreases depth
  {
    if IsScalarObj(other) then
      var t :- NumberOp(s, op, other.v.x);
      Ok(ScalarObj(t))
    else
      match other
      case ScalarObj(t) =>
        if t.cls.EnsembleScalarClass? then Err(AttributeError)
        else if depth == 0 then Err(RecursionError)
        else Delegate(t, op, ScalarObj(s), depth - 1)
      case ArrayObj(a) =>
        var y :- Arrays.Operator(a, op, ScalarObj(s));
        Ok(ArrayObj(y))
      case Plain(v) => if v.Arr? then Err(Unmodelled) else Err(AttributeError)
      case _ => Err(AttributeError)
  }

  /** `Scalar * Scalar` and `Scalar / Scalar` never return: each operand hands the
      operation back to the other until the stack is exhausted. */
  lemma {:induction false} ScalarsRecurse(s: ScalarC, op: Op, t: ScalarC, depth: nat)
    requires s.Wf() && s.cls.PlainScalar? && t.Wf() && t.cls.PlainScalar? && (op.Mul? || op.Div?)
    ensures Delegate(s, op, ScalarObj(t), depth) == Err(RecursionError)
    decreases depth
  {
    if depth > 0 {
      ScalarsRecurse(t, op, s, depth - 1);
    }
  }

  /** `x / a` for an array container `a` computes `a / x`: each block's array is divided
      by the block's value, not the other way round. */
  lemma DivArraySwapped(s: ScalarC, a: ArrayC, depth: nat, b: Block, p: nat)
    requires s.Wf() && s.cls.PlainScalar? && a.Wf() && a.cls.PlainArray?
    requires Delegate(s, Div, ArrayObj(a), depth).Ok?
    requires b in a.arrays.vals && p < |a.arrays.vals[b].flat|
    ensures b in s.scalar.vals && s.scalar.vals[b].Num? && s.scalar.vals[b].x != 0.0
    ensures var y := Delegate(s, Div, ArrayObj(a), depth).value;
      && y.ArrayObj? && b in y.a.arrays.vals && p < |y.a.arrays.vals[b].flat|
      && y.a.arrays.vals[b].flat[p] == a.arrays.vals[b].flat[p] / s.scalar.vals[b].x
  {
    var z := Arrays.ContainerOp(a, Div, ScalarObj(s)).value;
    assert Arrays.Operator(a, Div, ScalarObj(s)) == Arrays.ContainerOp(a, Div, ScalarObj(s));
    var arr := a.arrays.vals[b];
    assert Arrays.LookupOp(Div, arr, b, ScalarObj(s)).Ok?;
    var v := s.scalar.vals[b];
    assert z.arrays.vals[b] == ArrayOp(Div, arr, v).value;
    BroadcastNumber(Div, arr, v.x);
  }

  /** The evidently intended `x / a` for an array container `a`: each block's value
      divided by every element of the block's array. */
  function IntendedDivArray(s: ScalarC, a: ArrayC): (r: Result<ArrayC>)
    requires s.Wf() && a.Wf()
    ensures r.Ok? ==>
      && r.value.Wf() && r.value.cls == a.cls && r.value.ensemble == a.ensemble
      && r.value.arrays.keys == a.arrays.keys
      && forall b :: b in a.arrays.vals ==>
           && b in s.scalar.vals && s.scalar.vals[b].Num?
           && BroadcastOp(Div, Scalar0(s.scalar.vals[b].x), a.arrays.vals[b]).Ok?
           && r.value.arrays.vals[b] == BroadcastOp(Div, Scalar0(s.scalar.vals[b].x), a.arrays.vals[b]).value
  {
    var data :- DivideBlocks(s, a);
    assert a.arrays.keys[0] in a.arrays.vals;
    ValueOverShapes(s, a, data);
    Arrays.FromArrays(a.cls, a.ensemble, data)
  }

  function ValueOver(v: Result<Value>, arr: NdArray): (r: Result<NdArray>)
    ensures r.Ok? ==> v.Ok? && v.value.Num? && r == BroadcastOp(Div, Scalar0(v.value.x), arr)
  {
    var x :- v;
    if x.Num? then BroadcastOp(Div, Scalar0(x.x), arr) else Err(TypeError)
  }

  function DivideBlocks(s: ScalarC, a: ArrayC): (r: Result<ODict<Block, NdArray>>)
    requires a.Wf()
    ensures r.Ok? ==> r.value.Valid() && r.value.keys == a.arrays.keys
    ensures r.Ok? ==> forall b :: b in a.arrays.vals ==>
      ValueOver(s.scalar.Get(b), a.arrays.vals[b]).Ok? && r.value.vals[b] == ValueOver(s.scalar.Get(b), a.arrays.vals[b]).value
  {
    MapBlocks(a.arrays, (b, arr) => ValueOver(s.scalar.Get(b), arr))
  }

  lemma ValueOverShapes(s: ScalarC, a: ArrayC, data: ODict<Block, NdArray>)
    requires a.Wf() && DivideBlocks(s, a) == Ok(data)
    ensures forall b :: b in data.vals ==> Ndim(data.vals[b]) == a.ndim
  {
    forall b | b in data.vals
      ensures Ndim(data.vals[b]) == a.ndim
    {
      var v := s.scalar.Get(b).value;
      BroadcastNumberLeft(Div, v.x, a.arrays.vals[b]);
    }
  }

  /** One element of the intended quotient: the block's value over the element. */
  lemma IntendedDivElement(s: ScalarC, a: ArrayC, b: Block, p: nat)
    requires s.Wf() && a.Wf() && IntendedDivArray(s, a).Ok?
    requires b in a.arrays.vals && p < |a.arrays.vals[b].flat|
    ensures b in s.scalar.vals && s.scalar.vals[b].Num? && a.arrays.vals[b].flat[p] != 0.0
    ensures var q := IntendedDivArray(s, a).value.arrays.vals[b];
      && p < |q.flat|
      && q.flat[p] == s.scalar.vals[b].x / a.arrays.vals[b].flat[p]
  {
    var x := s.scalar.vals[b].x;
    var arr := a.arrays.vals[b];
    var q := IntendedDivArray(s, a).value.arrays.vals[b];
    assert q == BroadcastOp(Div, Scalar0(x), arr).value;
    QuotientElement(x, arr, p);
  }

  lemma QuotientElement(x: real, arr: NdArray, p: nat)
    requires BroadcastOp(Div, Scalar0(x), arr).Ok? && p < |arr.flat|
    ensures arr.flat[p] != 0.0
    ensures var q := BroadcastOp(Div, Scalar0(x), arr).value;
      p < |q.flat| && q.flat[p] == x / arr.flat[p]
  {
    BroadcastNumberLeft(Div, x, arr);
    assert ApplyNum(Div, x, arr.flat[p]).Ok?;
  }

  /** The evidently intended `x * other` and `x / other` for two `Scalar`s: block by
      block, as `__add__` does (see `ScalarsOp` and `DivMulScalars`). */
  function IntendedMulDiv(s: ScalarC, op: Op, other: Obj, depth: nat): (r: Result<Obj>)
    requires s.Wf() && s.cls.PlainScalar? && ObjWf(other) && (op.Mul? || op.Div?)
    ensures other.ScalarObj? && other.s.cls.PlainScalar? ==>
      (r.Ok? <==> ContainerOp(s, op, other).Ok?) && (r.Ok? ==> r.value == ScalarObj(ContainerOp(s, op, other).value))
    ensures other.ArrayObj? && op.Div? ==>
      (r.Ok? <==> IntendedDivArray(s, other.a).Ok?) && (r.Ok? ==> r.value == ArrayObj(IntendedDivArray(s, other.a).value))
    ensures !(other.ScalarObj? && other.s.cls.PlainScalar?) && !(other.ArrayObj? && op.Div?) ==> r == Delegate(s, op, other, depth)
  {
    if other.ScalarObj? && other.s.cls.PlainScalar? then
      var t :- ContainerOp(s, op, other);
      Ok(ScalarObj(t))
    else if other.ArrayObj? && op.Div? then
      var y :- IntendedDivArray(s, other.a);
      Ok(ArrayObj(y))
    else Delegate(s, op, other, depth)
  }

  /** `other * x` with `x` on the right: `__rmul__` is `__mul__`. */
  function RMul(s: ScalarC, other: Obj, depth: nat): (r: Result<Obj>)
    requires s.Wf() && s.cls.PlainScalar? && ObjWf(other)
    ensures IsScalarObj(other) ==>
      (r.Ok? <==> Numeric(s))
      && (r.Ok? ==> r.value.ScalarObj? && r.value.s.Wf() && r.value.s.scalar.keys == s.scalar.keys)
    ensures !IsScalarObj(other) ==> r == Delegate(s, Mul, other, depth)
  {
    Delegate(s, Mul, other, depth)
  }

  /** `c * x` multiplies every block's number by `c` (as `x * c`, the order scalar.py
      evaluates). */
  lemma RMulValue(s: ScalarC, c: real, depth: nat, b: Block)
    requires s.Wf() && s.cls.PlainScalar? && Numeric(s) && b in s.scalar.vals
    ensures RMul(s, Plain(Num(c)), depth).Ok?
    ensures var y := RMul(s, Plain(Num(c)), depth).value;
      y.ScalarObj? && b in y.s.scalar.vals && y.s.scalar.vals[b] == Num(Ring(Mul, s.scalar.vals[b].x, c))
  {
    assert RMul(s, Plain(Num(c)), depth) == Ok(ScalarObj(NumberOp(s, Mul, c).value));
    ScaledValue(s, c, b);
  }

  lemma ScaledValue(s: ScalarC, c: real, b: Block)
    requires s.Wf() && s.cls.PlainScalar? && Numeric(s) && b in s.scalar.vals
    ensures NumberOp(s, Mul, c).Ok?
    ensures b in NumberOp(s, Mul, c).value.scalar.vals
    ensures NumberOp(s, Mul, c).value.scalar.vals[b] == Num(Ring(Mul, s.scalar.vals[b].x, c))
  {
  }

  /** `x[block]`: the stored value, or KeyError for a block the ensemble does not have. */
  function GetItem(s: ScalarC, b: Block): (r: Result<Value>)
    requires s.Wf()
    ensures r.Ok? <==> b in s.ensemble.Keys()
    ensures r.Ok? ==> r.value == s.scalar.vals[b]
    ensures r.Err? ==> r.error == KeyError
  {
    s.scalar.Get(b)
  }

  /** `-v` on a stored value: numbers are negated, `None` and dictionaries raise
      TypeError. */
  function Negate(v: Value): (r: Result<Value>)
    ensures r.Ok? <==> v.Num? || v.Arr?
    ensures v.Num? ==> r == Ok(Num(-v.x))
    ensures r.Err? ==> r.error == TypeError
  {
    match v
    case Num(x) => Ok(Num(-x))
    case Arr(a) => Ok(Arr(Cast(a, y => -y)))
    case _ => Err(TypeError)
  }

  /** `-x` as written: every value is negated, then the result is handed to `Array`, a
      name scalar.py does not import. */
  function Neg(s: ScalarC): (r: Result<ScalarC>)
    requires s.Wf() && s.cls.PlainScalar?
    ensures r.Err?
    ensures r.error == NameError <==> Numeric(s)
    ensures r.error != NameError ==> r.error == TypeError
  {
    var _ :- NegatedData(s);
    Err(NameError)
  }

  /** The evidently intended `-x`: every value negated, then handed to `Scalar`. */
  function IntendedNeg(s: ScalarC): (r: Result<ScalarC>)
    requires s.Wf() && s.cls.PlainScalar?
    ensures r.Ok? <==> Numeric(s)
    ensures r.Ok? ==> NegatedData(s).Ok? && r.value == ScalarC(PlainScalar, s.ensemble, NegatedData(s).value)
  {
    var data :- NegatedData(s);
    Ok(ScalarC(PlainScalar, s.ensemble, data))
  }

  /** That result is what `Scalar(self.ensemble, data)` builds from the negated values. */
  lemma IntendedNegIsNew(s: ScalarC)
    requires s.Wf() && s.cls.PlainScalar? && Numeric(s)
    ensures NegatedData(s).Ok?
    ensures IntendedNeg(s) == New(EnsembleObj(s.ensemble), Plain(DictValue(NegatedData(s).value)), NoTag, None)
  {
    Rebuild(s.ensemble, NegatedData(s).value);
  }

  /** The loop of `__neg__`, before the constructor: every number negated. */
  function NegatedData(s: ScalarC): (r: Result<ODict<Block, Value>>)
    requires s.Wf() && s.cls.PlainScalar?
    ensures r.Ok? <==> Numeric(s)
    ensures r.Ok? ==> r.value.Valid() && r.value.keys == s.scalar.keys
    ensures r.Ok? ==> forall b :: b in s.scalar.vals ==> r.value.vals[b] == Num(-s.scalar.vals[b].x)
  {
    assert forall b :: b in s.scalar.vals ==> (Negate(s.scalar.vals[b]).Ok? <==> s.scalar.vals[b].Num?);
    MapBlocks(s.scalar, (b, v) => Negate(v))
  }

  /** Negating twice, as intended, gives back the `Scalar`. */
  lemma NegInvolution(s: ScalarC)
    requires s.Wf() && s.cls.PlainScalar? && Numeric(s)
    ensures IntendedNeg(s).Ok?
    ensures IntendedNeg(IntendedNeg(s).value) == Ok(s)
  {
    var du := NegatedData(s).value;
    var u := ScalarC(PlainScalar, s.ensemble, du);
    assert IntendedNeg(s) == Ok(u);
    assert Numeric(u);
    var dw := NegatedData(u).value;
    assert IntendedNeg(u) == Ok(ScalarC(PlainScalar, s.ensemble, dw));
    forall b | b in dw.vals
      ensures b in s.scalar.vals && dw.vals[b] == s.scalar.vals[b]
    {
      assert b in du.keys && b in du.vals && b in s.scalar.vals;
      assert du.vals[b] == Num(-s.scalar.vals[b].x);
      assert dw.vals[b] == Num(-du.vals[b].x);
    }
    SameDict(dw, s.scalar);
  }

  /** `for block, value in x`: the blocks in the ensemble's iteration order. */
  function Iter(s: ScalarC): (r: seq<(Block, Value)>)
    requires s.Wf()
    ensures |r| == |s.ensemble.Iter()|
    ensures forall i :: 0 <= i < |r| ==> r[i].0 == s.ensemble.Iter()[i].0 && r[i].1 == s.scalar.vals[r[i].0]
  {
    s.scalar.Items()
  }

  /** The stored values other than `None`, in block order (the list comprehension of
      `min` and `max`). */
  function Present(vs: seq<Value>): (r: seq<Value>)
    ensures forall v :: v in r <==> v in vs && !v.NoneV?
    ensures multiset(r) == multiset(vs)[NoneV := 0]
    ensures |r| <= |vs|
  {
    if |vs| == 0 then []
    else
      assert vs == [vs[0]] + vs[1..];
      if vs[0].NoneV? then Present(vs[1..])
      else [vs[0]] + Present(vs[1..])
  }

  /** The filter keeps the order: a value appended to the list is appended to the
      result unless it is `None`, so with `Present([]) == []` this determines it. */
  lemma {:induction false} PresentAppend(vs: seq<Value>, v: Value)
    ensures Present(vs + [v]) == Present(vs) + (if v.NoneV? then [] else [v])
    decreases |vs|
  {
    if |vs| == 0 {
      assert [] + [v] == [v];
      assert [v][1..] == [];
    } else {
      assert (vs + [v])[0] == vs[0];
      assert (vs + [v])[1..] == vs[1..] + [v];
      PresentAppend(vs[1..], v);
    }
  }

  /** Python's `min(xs)` (`least`) or `max(xs)`: the first element is kept until a later
      one compares below (above) it. Numbers compare; a dictionary compared with
      anything raises TypeError; comparisons involving arrays are outside the model. */
  method Extreme(xs: seq<Value>, least: bool) returns (r: Result<Value>)
    ensures |xs| == 0 ==> r == Err(ValueError)
    ensures r.Ok? <==> |xs| == 1 || (|xs| > 1 && forall i :: 0 <= i < |xs| ==> xs[i].Num?)
    ensures r.Ok? ==> r.value in xs
    ensures |xs| == 1 ==> r == Ok(xs[0])
    ensures r.Ok? && |xs| > 1 ==> r.value.Num? && forall i :: 0 <= i < |xs| ==>
      if least then r.value.x <= xs[i].x else r.value.x >= xs[i].x
    ensures r.Err? && |xs| > 0 ==> r.error == TypeError || r.error == Unmodelled
  {
    if |xs| == 0 {
      return Err(ValueError);
    }
    var cur := xs[0];
    var i := 1;
    while i < |xs|
      invariant 1 <= i <= |xs|
      invariant cur in xs[..i]
      invariant i > 1 ==> forall j :: 0 <= j < i ==> xs[j].Num?
      invariant i > 1 ==> cur.Num? && forall j :: 0 <= j < i ==> if least then cur.x <= xs[j].x else cur.x >= xs[j].x
    {
      var y := xs[i];
      if y.Num? && cur.Num? {
        if (least && y.x < cur.x) || (!least && y.x > cur.x) {
          cur := y;
        }
      } else if y.Arr? || cur.Arr? {
        return Err(Unmodelled);
      } else {
        return Err(TypeError);
      }
      i := i + 1;
    }
    assert xs[..i] == xs;
    return Ok(cur);
  }

  /** `x.min()`: the least value other than `None`; ValueError when there is none. */
  method Min(s: ScalarC) returns (r: Result<Value>)
    requires s.Wf()
    ensures var xs := Present(s.scalar.Values());
      && (|xs| == 0 ==> r == Err(ValueError))
      && (r.Ok? <==> |xs| == 1 || (|xs| > 1 && forall i :: 0 <= i < |xs| ==> xs[i].Num?))
      && (r.Ok? ==> r.value in xs)
      && (r.Ok? && |xs| > 1 ==> r.value.Num? && forall i :: 0 <= i < |xs| ==> r.value.x <= xs[i].x)
  {
    r := Extreme(Present(s.scalar.Values()), true);
  }

  /** `x.max()`: the greatest value other than `None`; ValueError when there is none. */
  method Max(s: ScalarC) returns (r: Result<Value>)
    requires s.Wf()
    ensures var xs := Present(s.scalar.Values());
      && (|xs| == 0 ==> r == Err(ValueError))
      && (r.Ok? <==> |xs| == 1 || (|xs| > 1 && forall i :: 0 <= i < |xs| ==> xs[i].Num?))
      && (r.Ok? ==> r.value in xs)
      && (r.Ok? && |xs| > 1 ==> r.value.Num? && forall i :: 0 <= i < |xs| ==> r.value.x >= xs[i].x)
  {
    r := Extreme(Present(s.scalar.Values()), false);
  }
}

