/** The per-block containers (`Array`, `EnsembleArray`, `Scalar`, `EnsembleScalar`,
    `EnsembleTriDiag`) and the Python objects the operations receive. */
module Containers {
  import opened Results
  import opened OrderedDicts
  import opened Ensembles
  import opened NdArrays
  import opened Values

  /** `Array` (array.py) or `EnsembleArray` (ensemble_array.py): one class layout, two
      classes with different operators. */
  datatype ArrayClass = PlainArray | EnsembleArrayClass

  /** `Scalar` (scalar.py) or `EnsembleScalar` (ensemble_scalar.py). */
  datatype ScalarClass = PlainScalar | EnsembleScalarClass

  /** One n-d array per block (the attribute `array`), all with `ndim` axes. */
  datatype ArrayC = ArrayC(cls: ArrayClass, ensemble: Ensemble, arrays: ODict<Block, NdArray>, ndim: nat) {
    ghost predicate Wf() {
      && ensemble.Valid()
      && arrays.Valid()
      && arrays.keys == ensemble.Keys()
      && |arrays.keys| > 0
      && forall b :: b in arrays.vals ==> Ndim(arrays.vals[b]) == ndim
    }
  }

  /** One value per block; `None` means the block has no datum. A `Scalar` reduces an
      array datum to its sole element, so it never holds an array. */
  datatype ScalarC = ScalarC(cls: ScalarClass, ensemble: Ensemble, scalar: ODict<Block, Value>) {
    ghost predicate Wf() {
      && ensemble.Valid() && scalar.Valid() && scalar.keys == ensemble.Keys()
      && (cls.PlainScalar? ==> forall b :: b in scalar.vals ==> !scalar.vals[b].Arr?)
    }
  }

  /** One symmetric tridiagonal matrix per block, as its diagonal and off-diagonal. */
  datatype TriDiagC = TriDiagC(ensemble: Ensemble, diag: ODict<Block, seq<real>>, offdiag: ODict<Block, seq<real>>) {
    ghost predicate Wf() {
      && ensemble.Valid() && diag.Valid() && offdiag.Valid()
      && diag.keys == ensemble.Keys() && offdiag.keys == ensemble.Keys()
      && forall b :: b in diag.vals ==> |offdiag.vals[b]| == if |diag.vals[b]| == 0 then 0 else |diag.vals[b]| - 1
    }
  }

  /** Any Python object an operation may receive. */
  datatype Obj =
    | Plain(v: Value)
    | EnsembleObj(e: Ensemble)
    | ScalarObj(s: ScalarC)
    | ArrayObj(a: ArrayC)
    | TriDiagObj(t: TriDiagC)

  /** What the constructors establish about every object of a class of the core. */
  ghost predicate ObjWf(o: Obj) {
    match o
    case Plain(_) => true
    case EnsembleObj(e) => e.Valid()
    case ScalarObj(s) => s.Wf()
    case ArrayObj(a) => a.Wf()
    case TriDiagObj(t) => t.Wf()
  }

  /** The `tag` argument: `None`, a string, or anything else. */
  datatype Tag = NoTag | StrTag(s: string) | OtherTag

  /** The `dtype` argument: `None`, or a caster applied to every number. */
  type DType = Option<real -> real>

  /** `np.isscalar(other)` */
  predicate IsScalarObj(o: Obj) {
    o.Plain? && IsScalar(o.v)
  }

  /** `isinstance(data, OrderedDict)` */
  predicate IsOrderedDict(o: Obj) {
    o.Plain? && o.v.Dict? && o.v.ordered
  }

  /** `isinstance(data, OrderedDict) or isinstance(data, dict)` */
  predicate IsDict(o: Obj) {
    o.Plain? && o.v.Dict?
  }

  /** The `OrderedDict` an operation assembles and hands to a constructor. */
  function DictValue(d: ODict<Block, Value>): (r: Value)
    ensures r.Dict? && r.ordered
    ensures forall b :: BlockKey(b) in r.entries <==> b in d.vals
    ensures forall b :: b in d.vals ==> r.entries[BlockKey(b)] == d.vals[b]
    ensures forall s :: StrKey(s) !in r.entries
  {
    Dict(true, map b | b in d.vals :: BlockKey(b) := d.vals[b])
  }

  /** The `OrderedDict` of arrays an operation assembles and hands to a constructor. */
  function ArrayDictValue(d: ODict<Block, NdArray>): (r: Value)
    ensures r.Dict? && r.ordered
    ensures forall b :: BlockKey(b) in r.entries <==> b in d.vals
    ensures forall b :: b in d.vals ==> r.entries[BlockKey(b)] == Arr(d.vals[b])
  {
    Dict(true, map b | b in d.vals :: BlockKey(b) := Arr(d.vals[b]))
  }

  /** The loop `for block, x in d.items(): out[block] = f(block, x)` over a fresh
      `OrderedDict`; the first block whose `f` raises aborts the loop. */
  function MapBlocks<A, B>(d: ODict<Block, A>, f: (Block, A) -> Result<B>): (r: Result<ODict<Block, B>>)
    ensures d.Valid() ==> (r.Ok? <==> forall b :: b in d.vals ==> f(b, d.vals[b]).Ok?)
    ensures d.Valid() && r.Ok? ==> r.value.Valid() && r.value.keys == d.keys
    ensures d.Valid() && r.Ok? ==> forall b :: b in d.vals ==> r.value.vals[b] == f(b, d.vals[b]).value
    ensures d.Valid() && r.Err? ==>
      exists i :: 0 <= i < |d.keys| && f(d.keys[i], d.vals[d.keys[i]]) == Err(r.error)
        && forall j :: 0 <= j < i ==> f(d.keys[j], d.vals[d.keys[j]]).Ok?
  {
    var g := (b: Block) => if b in d.vals then f(b, d.vals[b]) else Err(KeyError);
    assert d.Valid() ==> forall i :: 0 <= i < |d.keys| ==> g(d.keys[i]) == f(d.keys[i], d.vals[d.keys[i]]);
    Traverse(d.keys, g)
  }

  /** The loop `for block, deg in ensemble: out[block] = f(block)` over a fresh
      `OrderedDict`. */
  function ForBlocks<B>(e: Ensemble, f: Block -> Result<B>): (r: Result<ODict<Block, B>>)
    ensures r.Ok? <==> forall i :: 0 <= i < |e.Keys()| ==> f(e.Keys()[i]).Ok?
    ensures r.Ok? && e.Valid() ==> r.value.Valid() && r.value.keys == e.Keys()
    ensures r.Ok? ==> forall b :: b in r.value.vals ==> f(b).Ok? && r.value.vals[b] == f(b).value
    ensures r.Err? ==>
      exists i :: 0 <= i < |e.Keys()| && f(e.Keys()[i]) == Err(r.error)
        && forall j :: 0 <= j < i ==> f(e.Keys()[j]).Ok?
  {
    Traverse(e.Keys(), f)
  }
}
