/** The tridiagonal container `EnsembleTriDiag` (ensemble_tridiag.py): one symmetric
    tridiagonal matrix per block, kept as its diagonal and off-diagonal, with the dense
    form and the eigen-solvers block by block. The solvers are parameters: the model
    says which blocks reach them and what is done with their answers, not how
    eigenvalues are computed. */
module TriDiag {
  import opened Results
  import opened OrderedDicts
  import opened Ensembles
  import opened NdArrays
  import opened Values
  import opened Containers
  import Arrays
  import Scalars

  /** `eigvalsh_tridiagonal(d, od, 'i', select_range=(0, 0))[0]`: the lowest eigenvalue. */
  type Lowest = (seq<real>, seq<real>) -> real

  /** `eigvalsh_tridiagonal(d, od, select='a')`: all eigenvalues. */
  type Spectrum = (seq<real>, seq<real>) -> NdArray

  /** `eigh_tridiagonal(d, od, select='a')`: the eigenvalues and the eigenvectors. */
  type Decomposition = (seq<real>, seq<real>) -> (NdArray, NdArray)

  /** What the constructor keeps of a block's flattened diagonal `d` and off-diagonal
      `od`: an off-diagonal as long as the diagonal loses its last entry, one exactly one
      shorter is kept, any other pair of lengths raises ValueError. */
  function Normalise(d: seq<real>, od: seq<real>): (r: Result<(seq<real>, seq<real>)>)
    ensures r.Ok? <==> |od| == |d| || |od| + 1 == |d|
    ensures r.Err? ==> r.error == ValueError
    ensures r.Ok? ==> r.value.0 == d && |r.value.1| == (if |d| == 0 then 0 else |d| - 1)
    ensures r.Ok? ==> r.value.1 == od[..|r.value.1|]
  {
    if |d| == |od| then Ok((d, if |od| == 0 then [] else od[..|od| - 1]))
    else if |d| == |od| + 1 then Ok((d, od))
    else Err(ValueError)
  }

  /** A stored pair is kept as it is. */
  lemma NormaliseStored(d: seq<real>, od: seq<real>)
    requires |od| == if |d| == 0 then 0 else |d| - 1
    ensures Normalise(d, od) == Ok((d, od))
  {
  }

  /** Normalising twice changes nothing. */
  lemma NormaliseIdempotent(d: seq<real>, od: seq<real>)
    requires Normalise(d, od).Ok?
    ensures Normalise(Normalise(d, od).value.0, Normalise(d, od).value.1) == Normalise(d, od)
  {
    var p := Normalise(d, od).value;
    NormaliseStored(p.0, p.1);
  }

  /** A trailing off-diagonal entry, as an off-diagonal padded to the diagonal's length
      carries, is dropped whatever its value. */
  lemma NormalisePadded(d: seq<real>, od: seq<real>, x: real)
    requires |d| > 0 && |od| + 1 == |d|
    ensures Normalise(d, od + [x]) == Normalise(d, od)
  {
    assert (od + [x])[..|od|] == od;
  }

  /** One block of the constructor's loop: both data flattened, then normalised. */
  function BlockEntry(dg: ArrayC, og: ArrayC, b: Block): (r: Result<(seq<real>, seq<real>)>)
    ensures b in dg.arrays.vals && b in og.arrays.vals ==>
      r == Normalise(dg.arrays.vals[b].flat, og.arrays.vals[b].flat)
  {
    if b in dg.arrays.vals && b in og.arrays.vals then
      Normalise(NdArrays.Flatten(dg.arrays.vals[b]).flat, NdArrays.Flatten(og.arrays.vals[b]).flat)
    else Err(KeyError)
  }

  /** The diagonals of the pairs the loop produced. */
  function Diagonals(p: ODict<Block, (seq<real>, seq<real>)>): (r: ODict<Block, seq<real>>)
    ensures p.Valid() ==> r.Valid()
    ensures r.keys == p.keys && forall b :: b in r.vals <==> b in p.vals
    ensures forall b :: b in p.vals ==> r.vals[b] == p.vals[b].0
  {
    ODict(p.keys, map b | b in p.vals :: p.vals[b].0)
  }

  /** The off-diagonals of the pairs the loop produced. */
  function OffDiagonals(p: ODict<Block, (seq<real>, seq<real>)>): (r: ODict<Block, seq<real>>)
    ensures p.Valid() ==> r.Valid()
    ensures r.keys == p.keys && forall b :: b in r.vals <==> b in p.vals
    ensures forall b :: b in p.vals ==> r.vals[b] == p.vals[b].1
  {
    ODict(p.keys, map b | b in p.vals :: p.vals[b].1)
  }

  /** The loop over the ensemble that fills `self.diag` and `self.offdiag` from the two
      `EnsembleArray`s; the first block whose lengths do not fit raises ValueError. */
  function Build(e: Ensemble, dg: ArrayC, og: ArrayC): (r: Result<TriDiagC>)
    requires e.Valid() && dg.arrays.Valid() && og.arrays.Valid()
    requires dg.arrays.keys == e.Keys() && og.arrays.keys == e.Keys()
    ensures r.Ok? <==> forall i :: 0 <= i < |e.Keys()| ==> BlockEntry(dg, og, e.Keys()[i]).Ok?
    ensures r.Ok? ==> r.value.Wf() && r.value.ensemble == e
    ensures r.Ok? ==> forall b :: b in r.value.diag.vals ==>
      BlockEntry(dg, og, b) == Ok((r.value.diag.vals[b], r.value.offdiag.vals[b]))
  {
    var p :- ForBlocks(e, b => BlockEntry(dg, og, b));
    PairsWf(e, dg, og, p);
    Ok(TriDiagC(e, Diagonals(p), OffDiagonals(p)))
  }

  /** The loop fails only on lengths that do not fit. */
  lemma BuildError(e: Ensemble, dg: ArrayC, og: ArrayC)
    requires e.Valid() && dg.arrays.Valid() && og.arrays.Valid()
    requires dg.arrays.keys == e.Keys() && og.arrays.keys == e.Keys()
    ensures Build(e, dg, og).Err? ==> Build(e, dg, og).error == ValueError
  {
  }

  /** The pairs the loop produced form a well-formed container. */
  lemma PairsWf(e: Ensemble, dg: ArrayC, og: ArrayC, p: ODict<Block, (seq<real>, seq<real>)>)
    requires e.Valid() && p.Valid() && p.keys == e.Keys()
    requires forall b :: b in p.vals ==> BlockEntry(dg, og, b) == Ok(p.vals[b])
    requires forall b :: b in p.vals ==> b in dg.arrays.vals && b in og.arrays.vals
    ensures TriDiagC(e, Diagonals(p), OffDiagonals(p)).Wf()
  {
  }

  /** One block read straight from the data: `data[block][diag_tag]` and
      `data[block][offdiag_tag]`, flattened and normalised. */
  function ReadEntry(data: Value, b: Block, diagTag: string, offdiagTag: string, dtype: DType): (r: Result<(seq<real>, seq<real>)>)
    ensures var dd, oo := Arrays.BlockDatum(data, b, StrTag(diagTag), dtype), Arrays.BlockDatum(data, b, StrTag(offdiagTag), dtype);
      r.Ok? ==> dd.Ok? && oo.Ok? && r == Normalise(dd.value.flat, oo.value.flat)
  {
    var d :- Arrays.BlockDatum(data, b, StrTag(diagTag), dtype);
    var od :- Arrays.BlockDatum(data, b, StrTag(offdiagTag), dtype);
    Normalise(d.flat, od.flat)
  }

  /** `EnsembleTriDiag(ensemble, data, diag_tag, offdiag_tag, dtype)`: the type checks,
      the diagonals as one `EnsembleArray`, the off-diagonals as another, then the loop.
      A failing `EnsembleArray` raises its own error, the diagonals' first. */
  function New(ensemble: Obj, data: Obj, diagTag: Tag, offdiagTag: Tag, dtype: DType): (r: Result<TriDiagC>)
    requires ObjWf(ensemble)
    ensures !ensemble.EnsembleObj? ==> r == Err(TypeError)
    ensures ensemble.EnsembleObj? && !IsOrderedDict(data) ==> r == Err(TypeError)
    ensures ensemble.EnsembleObj? && IsOrderedDict(data) && !(diagTag.StrTag? && offdiagTag.StrTag?) ==>
      r == Err(TypeError)
    ensures ensemble.EnsembleObj? && IsOrderedDict(data) && diagTag.StrTag? && offdiagTag.StrTag? ==>
      var dg := Arrays.New(EnsembleArrayClass, ensemble, data, diagTag, dtype);
      var og := Arrays.New(EnsembleArrayClass, ensemble, data, offdiagTag, dtype);
      && (dg.Err? ==> r == Err(dg.error))
      && (dg.Ok? && og.Err? ==> r == Err(og.error))
      && (dg.Ok? && og.Ok? && r.Err? ==> r.error == ValueError)
    ensures r.Ok? ==>
      && ensemble.EnsembleObj? && IsOrderedDict(data) && diagTag.StrTag? && offdiagTag.StrTag?
      && r.value.Wf() && r.value.ensemble == ensemble.e && |r.value.diag.keys| > 0
      && forall b :: b in r.value.diag.vals ==>
           ReadEntry(data.v, b, diagTag.s, offdiagTag.s, dtype) == Ok((r.value.diag.vals[b], r.value.offdiag.vals[b]))
  {
    if !ensemble.EnsembleObj? then Err(TypeError)
    else if !IsOrderedDict(data) then Err(TypeError)
    else if !diagTag.StrTag? || !offdiagTag.StrTag? then Err(TypeError)
    else
      var dg :- Arrays.New(EnsembleArrayClass, ensemble, data, diagTag, dtype);
      var og :- Arrays.New(EnsembleArrayClass, ensemble, data, offdiagTag, dtype);
      BuildError(ensemble.e, dg, og);
      var t :- Build(ensemble.e, dg, og);
      assert forall b :: b in t.diag.vals ==> b in dg.arrays.vals && b in og.arrays.vals;
      Ok(t)
  }

  /** The per-block record a container is built from: its diagonal and off-diagonal
      under the two tags. */
  function Record(d: seq<real>, od: seq<real>, diagTag: string, offdiagTag: string): Value {
    Dict(false, map[StrKey(diagTag) := Arr(Vector(d)), StrKey(offdiagTag) := Arr(Vector(od))])
  }

  /** The `OrderedDict` of records that describes a container. */
  function Records(t: TriDiagC, diagTag: string, offdiagTag: string): (r: Value)
    requires t.Wf()
    ensures r.Dict? && r.ordered
    ensures forall b :: b in t.diag.vals ==>
      BlockKey(b) in r.entries && r.entries[BlockKey(b)] == Record(t.diag.vals[b], t.offdiag.vals[b], diagTag, offdiagTag)
  {
    Dict(true, map b | b in t.diag.vals :: BlockKey(b) := Record(t.diag.vals[b], t.offdiag.vals[b], diagTag, offdiagTag))
  }

  lemma RecordDatum(t: TriDiagC, diagTag: string, offdiagTag: string, b: Block)
    requires t.Wf() && diagTag != offdiagTag && b in t.diag.vals
    ensures Arrays.BlockDatum(Records(t, diagTag, offdiagTag), b, StrTag(diagTag), None) == Ok(Vector(t.diag.vals[b]))
    ensures Arrays.BlockDatum(Records(t, diagTag, offdiagTag), b, StrTag(offdiagTag), None) == Ok(Vector(t.offdiag.vals[b]))
  {
  }

  /** Reading one tag of the records gives an `EnsembleArray` of vectors. */
  lemma RecordsRead(t: TriDiagC, diagTag: string, offdiagTag: string, tag: string)
    requires t.Wf() && diagTag != offdiagTag && |t.ensemble.Keys()| > 0
    requires tag == diagTag || tag == offdiagTag
    ensures Arrays.New(EnsembleArrayClass, EnsembleObj(t.ensemble), Plain(Records(t, diagTag, offdiagTag)), StrTag(tag), None).Ok?
  {
    var ks := t.ensemble.Keys();
    var v := Records(t, diagTag, offdiagTag);
    forall i | 0 <= i < |ks|
      ensures Arrays.BlockDatum(v, ks[i], StrTag(tag), None).Ok?
      ensures Ndim(Arrays.BlockDatum(v, ks[i], StrTag(tag), None).value) == 1
    {
      assert ks[i] in t.diag.vals;
      RecordDatum(t, diagTag, offdiagTag, ks[i]);
    }
    Arrays.NewUniform(EnsembleArrayClass, t.ensemble, v, StrTag(tag), None);
  }

  lemma SameBand(r: ODict<Block, seq<real>>, d: ODict<Block, seq<real>>)
    requires r.Valid() && d.Valid() && r.keys == d.keys
    requires forall b :: b in r.vals ==> b in d.vals && r.vals[b] == d.vals[b]
    ensures r == d
  {
    assert r.vals == d.vals;
  }

  /** The loop rebuilds a container whose every block it reads back unchanged. */
  lemma BuildOfStored(t: TriDiagC, dg: ArrayC, og: ArrayC)
    requires t.Wf() && dg.arrays.Valid() && og.arrays.Valid()
    requires dg.arrays.keys == t.ensemble.Keys() && og.arrays.keys == t.ensemble.Keys()
    requires forall b :: b in t.diag.vals ==> BlockEntry(dg, og, b) == Ok((t.diag.vals[b], t.offdiag.vals[b]))
    ensures Build(t.ensemble, dg, og) == Ok(t)
  {
    var ks := t.ensemble.Keys();
    assert forall i :: 0 <= i < |ks| ==> ks[i] in t.diag.vals;
    var u := Build(t.ensemble, dg, og).value;
    SameBand(u.diag, t.diag);
    SameBand(u.offdiag, t.offdiag);
  }

  /** Building a container from the records of another gives that container back. */
  lemma NewOfRecords(t: TriDiagC, diagTag: string, offdiagTag: string)
    requires t.Wf() && diagTag != offdiagTag && |t.ensemble.Keys()| > 0
    ensures New(EnsembleObj(t.ensemble), Plain(Records(t, diagTag, offdiagTag)), StrTag(diagTag), StrTag(offdiagTag), None) == Ok(t)
  {
    var v := Records(t, diagTag, offdiagTag);
    RecordsRead(t, diagTag, offdiagTag, diagTag);
    RecordsRead(t, diagTag, offdiagTag, offdiagTag);
    var dg := Arrays.New(EnsembleArrayClass, EnsembleObj(t.ensemble), Plain(v), StrTag(diagTag), None).value;
    var og := Arrays.New(EnsembleArrayClass, EnsembleObj(t.ensemble), Plain(v), StrTag(offdiagTag), None).value;
    forall b | b in t.diag.vals
      ensures BlockEntry(dg, og, b) == Ok((t.diag.vals[b], t.offdiag.vals[b]))
    {
      RecordEntry(t, diagTag, offdiagTag, b);
    }
    BuildOfStored(t, dg, og);
    NewIsBuild(t.ensemble, v, diagTag, offdiagTag);
  }

  /** Once both `EnsembleArray`s are built, the constructor is the loop over them. */
  lemma NewIsBuild(e: Ensemble, v: Value, diagTag: string, offdiagTag: string)
    requires e.Valid() && v.Dict? && v.ordered
    requires Arrays.New(EnsembleArrayClass, EnsembleObj(e), Plain(v), StrTag(diagTag), None).Ok?
    requires Arrays.New(EnsembleArrayClass, EnsembleObj(e), Plain(v), StrTag(offdiagTag), None).Ok?
    ensures New(EnsembleObj(e), Plain(v), StrTag(diagTag), StrTag(offdiagTag), None) ==
      Build(e, Arrays.New(EnsembleArrayClass, EnsembleObj(e), Plain(v), StrTag(diagTag), None).value,
               Arrays.New(EnsembleArrayClass, EnsembleObj(e), Plain(v), StrTag(offdiagTag), None).value)
  {
  }

  /** Each block of the records reads back as the container's own block. */
  lemma RecordEntry(t: TriDiagC, diagTag: string, offdiagTag: string, b: Block)
    requires t.Wf() && diagTag != offdiagTag && |t.ensemble.Keys()| > 0 && b in t.diag.vals
    ensures var v := Records(t, diagTag, offdiagTag);
      var dg := Arrays.New(EnsembleArrayClass, EnsembleObj(t.ensemble), Plain(v), StrTag(diagTag), None);
      var og := Arrays.New(EnsembleArrayClass, EnsembleObj(t.ensemble), Plain(v), StrTag(offdiagTag), None);
      dg.Ok? && og.Ok? && BlockEntry(dg.value, og.value, b) == Ok((t.diag.vals[b], t.offdiag.vals[b]))
  {
    RecordsRead(t, diagTag, offdiagTag, diagTag);
    RecordsRead(t, diagTag, offdiagTag, offdiagTag);
    RecordDatum(t, diagTag, offdiagTag, b);
    NormaliseStored(t.diag.vals[b], t.offdiag.vals[b]);
  }

  /** `for block, d, od in t`: the diagonals' keys, the diagonals and the off-diagonals,
      zipped by position. */
  function Iter(t: TriDiagC): (r: seq<(Block, seq<real>, seq<real>)>)
    requires t.Wf()
    ensures |r| == |t.ensemble.Iter()|
    ensures forall i :: 0 <= i < |r| ==>
      r[i].0 == t.ensemble.Iter()[i].0 && r[i].1 == t.diag.vals[r[i].0] && r[i].2 == t.offdiag.vals[r[i].0]
  {
    var ks, ds, os := t.diag.keys, t.diag.Values(), t.offdiag.Values();
    seq(|ks|, i requires 0 <= i < |ks| => (ks[i], ds[i], os[i]))
  }

  /** The pairs `(block, d)` of an iteration. */
  function DiagPairs(it: seq<(Block, seq<real>, seq<real>)>): (r: seq<(Block, seq<real>)>)
    ensures |r| == |it| && forall i :: 0 <= i < |it| ==> r[i] == (it[i].0, it[i].1)
  {
    seq(|it|, i requires 0 <= i < |it| => (it[i].0, it[i].1))
  }

  /** The pairs `(block, od)` of an iteration. */
  function OffDiagPairs(it: seq<(Block, seq<real>, seq<real>)>): (r: seq<(Block, seq<real>)>)
    ensures |r| == |it| && forall i :: 0 <= i < |it| ==> r[i] == (it[i].0, it[i].2)
  {
    seq(|it|, i requires 0 <= i < |it| => (it[i].0, it[i].2))
  }

  /** A dict equal item by item to a valid dict is that dict. */
  lemma SameItems(r: ODict<Block, seq<real>>, d: ODict<Block, seq<real>>)
    requires r.Valid() && d.Valid() && r.Items() == d.Items()
    ensures r == d
  {
    assert r.keys == d.keys by {
      forall i | 0 <= i < |r.keys| ensures r.keys[i] == d.keys[i] {
        assert r.Items()[i] == d.Items()[i];
      }
    }
    forall b | b in r.vals ensures b in d.vals && r.vals[b] == d.vals[b] {
      var i :| 0 <= i < |r.keys| && r.keys[i] == b;
      assert r.Items()[i] == d.Items()[i];
    }
  }

  /** Collecting the iteration into dicts, `OrderedDict((b, d) for b, d, od in t)` and
      likewise for `od`, gives back the container's own dicts. */
  lemma IterRebuilds(t: TriDiagC)
    requires t.Wf()
    ensures FromPairs(DiagPairs(Iter(t))) == t.diag
    ensures FromPairs(OffDiagPairs(Iter(t))) == t.offdiag
  {
    var it := Iter(t);
    var dp, op := DiagPairs(it), OffDiagPairs(it);
    assert Firsts(dp) == t.diag.keys;
    assert Firsts(op) == t.diag.keys;
    FromPairsDistinct(dp);
    FromPairsDistinct(op);
    assert dp == t.diag.Items();
    assert op == t.offdiag.Items();
    SameItems(FromPairs(dp), t.diag);
    SameItems(FromPairs(op), t.offdiag);
  }

  /** The loop `for block, deg in self.ensemble: out[block] = f(diag, offdiag)`, which
      every operation below runs and which cannot fail. */
  function PerBlock<T>(t: TriDiagC, f: (seq<real>, seq<real>) -> T): (r: ODict<Block, T>)
    requires t.Wf()
    ensures r.Valid() && r.keys == t.ensemble.Keys()
    ensures forall b :: b in r.vals <==> b in t.diag.vals
    ensures forall b :: b in t.diag.vals ==> r.vals[b] == f(t.diag.vals[b], t.offdiag.vals[b])
  {
    var g := (b: Block) => if b in t.diag.vals && b in t.offdiag.vals then Ok(f(t.diag.vals[b], t.offdiag.vals[b])) else Err(KeyError);
    assert forall i :: 0 <= i < |t.ensemble.Keys()| ==> g(t.ensemble.Keys()[i]).Ok?;
    ForBlocks(t.ensemble, g).value
  }

  /** `eig0` for one block. */
  function LowestValue(d: seq<real>, od: seq<real>, lowest: Lowest): Value {
    if |d| == 0 then NoneV
    else if |d| == 1 then Num(d[0])
    else Num(lowest(d, od))
  }

  /** The `OrderedDict` `eig0` fills. */
  function LowestData(t: TriDiagC, lowest: Lowest): (r: ODict<Block, Value>)
    requires t.Wf()
    ensures r.Valid() && r.keys == t.ensemble.Keys() && forall b :: b in r.vals <==> b in t.diag.vals
    ensures forall b :: b in t.diag.vals ==> r.vals[b] == LowestValue(t.diag.vals[b], t.offdiag.vals[b], lowest)
  {
    PerBlock(t, (d, od) => LowestValue(d, od, lowest))
  }

  /** `t.eig0()`: the lowest eigenvalue of every block as an `EnsembleScalar`: `None`
      for an empty block, the sole entry of a 1 x 1 block, the solver's answer
      otherwise. */
  function Eig0(t: TriDiagC, lowest: Lowest): (r: ScalarC)
    requires t.Wf()
    ensures r.Wf() && r.cls.EnsembleScalarClass? && r.ensemble == t.ensemble && r.scalar.keys == t.ensemble.Keys()
    ensures forall b :: b in t.diag.vals ==> b in r.scalar.vals && (r.scalar.vals[b].NoneV? <==> |t.diag.vals[b]| == 0)
    ensures forall b :: b in t.diag.vals && |t.diag.vals[b]| == 1 ==> r.scalar.vals[b] == Num(t.diag.vals[b][0])
    ensures forall b :: b in t.diag.vals && |t.diag.vals[b]| > 1 ==>
      r.scalar.vals[b] == Num(lowest(t.diag.vals[b], t.offdiag.vals[b]))
  {
    var data := LowestData(t, lowest);
    Scalars.RebuildEnsemble(t.ensemble, data);
    Scalars.NewEnsemble(EnsembleObj(t.ensemble), Plain(DictValue(data)), NoTag, None).value
  }

  /** `eigvals` for one block. */
  function EvalsBlock(d: seq<real>, od: seq<real>, spectrum: Spectrum): NdArray {
    if |d| == 0 then Empty1()
    else if |d| == 1 then Vector(d)
    else spectrum(d, od)
  }

  /** `eig` for one block. */
  function EigBlock(d: seq<real>, od: seq<real>, decompose: Decomposition): (NdArray, NdArray) {
    if |d| == 0 then (Empty1(), Empty2())
    else if |d| == 1 then (Vector(d), Ones11())
    else decompose(d, od)
  }

  /** The `OrderedDict` `eigvals` fills. */
  function EvalsData(t: TriDiagC, spectrum: Spectrum): (r: ODict<Block, NdArray>)
    requires t.Wf()
    ensures r.Valid() && r.keys == t.ensemble.Keys() && forall b :: b in r.vals <==> b in t.diag.vals
    ensures forall b :: b in t.diag.vals ==> r.vals[b] == EvalsBlock(t.diag.vals[b], t.offdiag.vals[b], spectrum)
  {
    PerBlock(t, (d, od) => EvalsBlock(d, od, spectrum))
  }

  /** The two `OrderedDict`s `eig` fills. */
  function EigValsData(t: TriDiagC, decompose: Decomposition): (r: ODict<Block, NdArray>)
    requires t.Wf()
    ensures r.Valid() && r.keys == t.ensemble.Keys() && forall b :: b in r.vals <==> b in t.diag.vals
    ensures forall b :: b in t.diag.vals ==> r.vals[b] == EigBlock(t.diag.vals[b], t.offdiag.vals[b], decompose).0
  {
    PerBlock(t, (d, od) => EigBlock(d, od, decompose).0)
  }

  function EigVecsData(t: TriDiagC, decompose: Decomposition): (r: ODict<Block, NdArray>)
    requires t.Wf()
    ensures r.Valid() && r.keys == t.ensemble.Keys() && forall b :: b in r.vals <==> b in t.diag.vals
    ensures forall b :: b in t.diag.vals ==> r.vals[b] == EigBlock(t.diag.vals[b], t.offdiag.vals[b], decompose).1
  {
    PerBlock(t, (d, od) => EigBlock(d, od, decompose).1)
  }

  /** The common number of axes the per-block results need: a solver that answers with
      vectors passes. */
  ghost predicate SpectrumVectors(t: TriDiagC, spectrum: Spectrum)
    requires t.Wf()
  {
    forall b :: b in t.diag.vals && |t.diag.vals[b]| > 1 ==> Ndim(spectrum(t.diag.vals[b], t.offdiag.vals[b])) == 1
  }

  /** A solver that answers with a vector of eigenvalues and a matrix of eigenvectors. */
  ghost predicate DecompositionShapes(t: TriDiagC, decompose: Decomposition)
    requires t.Wf()
  {
    forall b :: b in t.diag.vals && |t.diag.vals[b]| > 1 ==>
      Ndim(decompose(t.diag.vals[b], t.offdiag.vals[b]).0) == 1 && Ndim(decompose(t.diag.vals[b], t.offdiag.vals[b]).1) == 2
  }

  /** With such solvers, every block's answer has the expected number of axes. */
  lemma EvalsNdims(t: TriDiagC, spectrum: Spectrum)
    requires t.Wf()
    ensures SpectrumVectors(t, spectrum) ==> forall b :: b in t.diag.vals ==> Ndim(EvalsData(t, spectrum).vals[b]) == 1
  {
    if SpectrumVectors(t, spectrum) {
      forall b | b in t.diag.vals ensures Ndim(EvalsData(t, spectrum).vals[b]) == 1 {
        Size1(0);
      }
    }
  }

  lemma EigNdims(t: TriDiagC, decompose: Decomposition)
    requires t.Wf()
    ensures DecompositionShapes(t, decompose) ==> forall b :: b in t.diag.vals ==>
      Ndim(EigValsData(t, decompose).vals[b]) == 1 && Ndim(EigVecsData(t, decompose).vals[b]) == 2
  {
    if DecompositionShapes(t, decompose) {
      forall b | b in t.diag.vals
        ensures Ndim(EigValsData(t, decompose).vals[b]) == 1 && Ndim(EigVecsData(t, decompose).vals[b]) == 2
      {
        Size1(0);
      }
    }
  }

  /** `t.eigvals()`: the eigenvalues of every block as an `EnsembleArray`: an empty
      vector for an empty block, the diagonal itself for a 1 x 1 block, the solver's
      answer otherwise. Building the `EnsembleArray` fails on an ensemble without blocks,
      or when the solver's answers do not all have one axis. */
  function Eigvals(t: TriDiagC, spectrum: Spectrum): (r: Result<ArrayC>)
    requires t.Wf()
    ensures |t.ensemble.Keys()| > 0 && SpectrumVectors(t, spectrum) ==> r.Ok?
    ensures r.Ok? ==> |t.ensemble.Keys()| > 0
    ensures r.Err? ==> r.error == ValueError
    ensures r.Ok? ==> r.value.Wf() && r.value.cls.EnsembleArrayClass? && r.value.ensemble == t.ensemble
    ensures r.Ok? ==> forall b :: b in t.diag.vals ==>
      && (|t.diag.vals[b]| == 0 ==> r.value.arrays.vals[b] == Empty1())
      && (|t.diag.vals[b]| == 1 ==> r.value.arrays.vals[b] == Vector(t.diag.vals[b]))
      && (|t.diag.vals[b]| > 1 ==> r.value.arrays.vals[b] == spectrum(t.diag.vals[b], t.offdiag.vals[b]))
  {
    EvalsNdims(t, spectrum);
    Arrays.FromArrays(EnsembleArrayClass, t.ensemble, EvalsData(t, spectrum))
  }

  /** `t.eig()`: the eigenvalues and the eigenvectors of every block as two
      `EnsembleArray`s: shapes `(0,)` and `(0, 0)` for an empty block, the diagonal and
      `[[1]]` for a 1 x 1 block, the solver's answer otherwise. */
  function Eig(t: TriDiagC, decompose: Decomposition): (r: Result<(ArrayC, ArrayC)>)
    requires t.Wf()
    ensures |t.ensemble.Keys()| > 0 && DecompositionShapes(t, decompose) ==> r.Ok?
    ensures r.Ok? ==> |t.ensemble.Keys()| > 0
    ensures r.Err? ==> r.error == ValueError
    ensures r.Ok? ==>
      && r.value.0.Wf() && r.value.0.cls.EnsembleArrayClass? && r.value.0.ensemble == t.ensemble
      && r.value.1.Wf() && r.value.1.cls.EnsembleArrayClass? && r.value.1.ensemble == t.ensemble
    ensures r.Ok? ==> forall b :: b in t.diag.vals ==>
      && (|t.diag.vals[b]| == 0 ==> r.value.0.arrays.vals[b] == Empty1() && r.value.1.arrays.vals[b] == Empty2())
      && (|t.diag.vals[b]| == 1 ==> r.value.0.arrays.vals[b] == Vector(t.diag.vals[b]) && r.value.1.arrays.vals[b] == Ones11())
      && (|t.diag.vals[b]| > 1 ==>
            r.value.0.arrays.vals[b] == decompose(t.diag.vals[b], t.offdiag.vals[b]).0
            && r.value.1.arrays.vals[b] == decompose(t.diag.vals[b], t.offdiag.vals[b]).1)
  {
    EigNdims(t, decompose);
    var evals :- Arrays.FromArrays(EnsembleArrayClass, t.ensemble, EigValsData(t, decompose));
    var evecs :- Arrays.FromArrays(EnsembleArrayClass, t.ensemble, EigVecsData(t, decompose));
    Ok((evals, evecs))
  }

  /** `t.asarray()`: every block as its dense `n x n` matrix,
      `np.diag(d) + np.diag(od, k=1) + np.diag(od, k=-1)`, as an `EnsembleArray`. The
      source's `is None` branch never applies, since a stored diagonal is always an
      array. */
  function AsArray(t: TriDiagC): (r: Result<ArrayC>)
    requires t.Wf()
    ensures r.Ok? <==> |t.ensemble.Keys()| > 0
    ensures r.Err? ==> r.error == ValueError
    ensures r.Ok? ==> r.value.Wf() && r.value.cls.EnsembleArrayClass? && r.value.ensemble == t.ensemble && r.value.ndim == 2
    ensures r.Ok? ==> forall b :: b in t.diag.vals ==> r.value.arrays.vals[b].shape == [|t.diag.vals[b]|, |t.diag.vals[b]|]
  {
    Arrays.FromArrays(EnsembleArrayClass, t.ensemble, Matrices(t))
  }

  function DenseBlock(t: TriDiagC, b: Block): Result<NdArray> {
    if b in t.diag.vals && b in t.offdiag.vals then Tridiagonal(t.diag.vals[b], t.offdiag.vals[b]) else Err(KeyError)
  }

  /** The `OrderedDict` `asarray` fills: every block's dense matrix, which exists and is
      square. */
  function Matrices(t: TriDiagC): (r: ODict<Block, NdArray>)
    requires t.Wf()
    ensures r.Valid() && r.keys == t.ensemble.Keys() && forall b :: b in r.vals <==> b in t.diag.vals
    ensures forall b :: b in t.diag.vals ==>
      Tridiagonal(t.diag.vals[b], t.offdiag.vals[b]).Ok? && r.vals[b] == Tridiagonal(t.diag.vals[b], t.offdiag.vals[b]).value
    ensures forall b :: b in t.diag.vals ==> r.vals[b].shape == [|t.diag.vals[b]|, |t.diag.vals[b]|]
    ensures forall b :: b in r.vals ==> Ndim(r.vals[b]) == 2
  {
    DenseBlocks(t);
    ForBlocks(t.ensemble, b => DenseBlock(t, b)).value
  }

  lemma DenseBlocks(t: TriDiagC)
    requires t.Wf()
    ensures forall b :: b in t.diag.vals ==>
      DenseBlock(t, b).Ok? && DenseBlock(t, b).value.shape == [|t.diag.vals[b]|, |t.diag.vals[b]|]
    ensures forall i :: 0 <= i < |t.ensemble.Keys()| ==> DenseBlock(t, t.ensemble.Keys()[i]).Ok?
  {
    forall b | b in t.diag.vals
      ensures DenseBlock(t, b).Ok? && DenseBlock(t, b).value.shape == [|t.diag.vals[b]|, |t.diag.vals[b]|]
    {
      TridiagonalDense(t.diag.vals[b], t.offdiag.vals[b]);
    }
    assert forall i :: 0 <= i < |t.ensemble.Keys()| ==> t.ensemble.Keys()[i] in t.diag.vals;
  }

  /** A block of `asarray` is that block's dense matrix. */
  lemma AsArrayBlock(t: TriDiagC, b: Block)
    requires t.Wf() && AsArray(t).Ok? && b in t.diag.vals
    ensures Tridiagonal(t.diag.vals[b], t.offdiag.vals[b]).Ok?
    ensures AsArray(t).value.arrays.vals[b] == Tridiagonal(t.diag.vals[b], t.offdiag.vals[b]).value
  {
  }

  /** The dense matrix holds the diagonal on the main diagonal, the off-diagonal on both
      adjacent diagonals and zero elsewhere. */
  lemma AsArrayEntries(t: TriDiagC, b: Block, i: nat, j: nat)
    requires t.Wf() && AsArray(t).Ok? && b in t.diag.vals && i < |t.diag.vals[b]| && j < |t.diag.vals[b]|
    ensures At2(AsArray(t).value.arrays.vals[b], i, j) == TriEntry(t.diag.vals[b], t.offdiag.vals[b], i, j)
  {
    AsArrayBlock(t, b);
    TridiagonalEntries(t.diag.vals[b], t.offdiag.vals[b], i, j);
  }

  /** Every dense block is symmetric. */
  lemma AsArraySymmetric(t: TriDiagC, b: Block, i: nat, j: nat)
    requires t.Wf() && AsArray(t).Ok? && b in t.diag.vals && i < |t.diag.vals[b]| && j < |t.diag.vals[b]|
    ensures At2(AsArray(t).value.arrays.vals[b], i, j) == At2(AsArray(t).value.arrays.vals[b], j, i)
  {
    AsArrayEntries(t, b, i, j);
    AsArrayEntries(t, b, j, i);
    TriEntrySymmetric(t.diag.vals[b], t.offdiag.vals[b], i, j);
  }

  /** The main and the first upper diagonal of a square matrix. */
  function Bands(m: NdArray): (r: (seq<real>, seq<real>))
    requires Ndim(m) == 2 && m.shape[0] == m.shape[1]
    ensures |r.0| == m.shape[0] && |r.1| == (if m.shape[0] == 0 then 0 else m.shape[0] - 1)
    ensures forall i :: 0 <= i < |r.0| ==> r.0[i] == At2(m, i, i)
    ensures forall i :: 0 <= i < |r.1| ==> r.1[i] == At2(m, i, i + 1)
  {
    var n := m.shape[0];
    (seq(n, i requires 0 <= i < n => At2(m, i, i)),
     seq(if n == 0 then 0 else n - 1, i requires 0 <= i < n - 1 => At2(m, i, i + 1)))
  }

  /** The bands of the dense matrix are the diagonal and the off-diagonal it was
      built from. */
  lemma BandsOfTridiagonal(d: seq<real>, od: seq<real>)
    requires |od| == if |d| == 0 then 0 else |d| - 1
    ensures Tridiagonal(d, od).Ok? && Tridiagonal(d, od).value.shape == [|d|, |d|]
    ensures Bands(Tridiagonal(d, od).value) == (d, od)
  {
    TridiagonalDense(d, od);
    var r := Bands(Tridiagonal(d, od).value);
    assert r.0 == d;
    assert r.1 == od;
  }

  /** Reading the bands of a dense block gives back its diagonal and off-diagonal. */
  lemma BandsOfDense(t: TriDiagC, b: Block)
    requires t.Wf() && AsArray(t).Ok? && b in t.diag.vals
    ensures Bands(AsArray(t).value.arrays.vals[b]) == (t.diag.vals[b], t.offdiag.vals[b])
  {
    AsArrayBlock(t, b);
    BandsOfTridiagonal(t.diag.vals[b], t.offdiag.vals[b]);
  }

  /** `x` is the least element of `s`. */
  ghost predicate IsMinimum(x: real, s: seq<real>) {
    (exists i :: 0 <= i < |s| && s[i] == x) && forall i :: 0 <= i < |s| ==> x <= s[i]
  }

  /** One block of `eig0` is the minimum of the same block of `eigvals`. */
  lemma LowestIsMinimum(d: seq<real>, od: seq<real>, lowest: Lowest, spectrum: Spectrum)
    requires |d| > 1 ==> IsMinimum(lowest(d, od), spectrum(d, od).flat)
    ensures LowestValue(d, od, lowest).NoneV? <==> |EvalsBlock(d, od, spectrum).flat| == 0
    ensures LowestValue(d, od, lowest).Num? ==> IsMinimum(LowestValue(d, od, lowest).x, EvalsBlock(d, od, spectrum).flat)
  {
    var e := EvalsBlock(d, od, spectrum).flat;
    if |d| == 1 {
      assert e == d;
      assert IsMinimum(d[0], e) by { assert e[0] == d[0]; }
    } else if |d| > 1 {
      assert |e| > 0 by { var i :| 0 <= i < |e| && e[i] == lowest(d, od); }
    }
  }

  lemma Eig0Block(t: TriDiagC, lowest: Lowest, b: Block)
    requires t.Wf() && b in t.diag.vals
    ensures Eig0(t, lowest).scalar.vals[b] == LowestValue(t.diag.vals[b], t.offdiag.vals[b], lowest)
  {
  }

  lemma EigvalsBlock(t: TriDiagC, spectrum: Spectrum, b: Block)
    requires t.Wf() && Eigvals(t, spectrum).Ok? && b in t.diag.vals
    ensures Eigvals(t, spectrum).value.arrays.vals[b] == EvalsBlock(t.diag.vals[b], t.offdiag.vals[b], spectrum)
  {
  }

  /** `eig0` is the minimum of `eigvals` on every non-empty block, and `None` exactly
      where `eigvals` is empty, as long as the two solvers agree on the larger blocks. */
  lemma Eig0IsMinimum(t: TriDiagC, lowest: Lowest, spectrum: Spectrum, b: Block)
    requires t.Wf() && Eigvals(t, spectrum).Ok? && b in t.diag.vals
    requires |t.diag.vals[b]| > 1 ==>
      IsMinimum(lowest(t.diag.vals[b], t.offdiag.vals[b]), spectrum(t.diag.vals[b], t.offdiag.vals[b]).flat)
    ensures Eig0(t, lowest).scalar.vals[b].NoneV? <==> |Eigvals(t, spectrum).value.arrays.vals[b].flat| == 0
    ensures Eig0(t, lowest).scalar.vals[b].Num? ==>
      IsMinimum(Eig0(t, lowest).scalar.vals[b].x, Eigvals(t, spectrum).value.arrays.vals[b].flat)
  {
    Eig0Block(t, lowest, b);
    EigvalsBlock(t, spectrum, b);
    LowestIsMinimum(t.diag.vals[b], t.offdiag.vals[b], lowest, spectrum);
  }

  /** `eig`'s eigenvalues are the constructor applied to their `OrderedDict`. */
  lemma EigFirst(t: TriDiagC, decompose: Decomposition)
    requires t.Wf() && Eig(t, decompose).Ok?
    ensures Arrays.FromArrays(EnsembleArrayClass, t.ensemble, EigValsData(t, decompose)) == Ok(Eig(t, decompose).value.0)
  {
  }

  /** Solvers that agree on the eigenvalues fill the same `OrderedDict`. */
  lemma SameEvalsData(t: TriDiagC, spectrum: Spectrum, decompose: Decomposition)
    requires t.Wf()
    requires forall b :: b in t.diag.vals ==> spectrum(t.diag.vals[b], t.offdiag.vals[b]) == decompose(t.diag.vals[b], t.offdiag.vals[b]).0
    ensures EvalsData(t, spectrum) == EigValsData(t, decompose)
  {
    Arrays.SameDict(EvalsData(t, spectrum), EigValsData(t, decompose));
  }

  /** `eigvals` is the first half of `eig` when the two solvers agree. */
  lemma EigvalsIsEig(t: TriDiagC, spectrum: Spectrum, decompose: Decomposition)
    requires t.Wf() && Eig(t, decompose).Ok?
    requires forall b :: b in t.diag.vals ==> spectrum(t.diag.vals[b], t.offdiag.vals[b]) == decompose(t.diag.vals[b], t.offdiag.vals[b]).0
    ensures Eigvals(t, spectrum) == Ok(Eig(t, decompose).value.0)
  {
    SameEvalsData(t, spectrum, decompose);
    EigFirst(t, decompose);
  }

  /** The blocks `eig` answers without a solver are exact: an empty block has empty
      eigenvalues and eigenvectors, and the one entry of a 1 x 1 block is its eigenvalue,
      with eigenvector 1. */
  lemma SmallBlocksExact(t: TriDiagC, decompose: Decomposition, b: Block)
    requires t.Wf() && Eig(t, decompose).Ok? && b in t.diag.vals && |t.diag.vals[b]| <= 1
    ensures AsArray(t).Ok?
    ensures var m, evals, evecs := AsArray(t).value.arrays.vals[b], Eig(t, decompose).value.0.arrays.vals[b], Eig(t, decompose).value.1.arrays.vals[b];
      && evals.shape == [|t.diag.vals[b]|] && evecs.shape == [|t.diag.vals[b]|, |t.diag.vals[b]|]
      && (|t.diag.vals[b]| == 1 ==> At2(m, 0, 0) == evals.flat[0] && At2(evecs, 0, 0) == 1.0)
  {
    Size2(1, 1);
    if |t.diag.vals[b]| == 1 {
      AsArrayEntries(t, b, 0, 0);
    }
  }
}
