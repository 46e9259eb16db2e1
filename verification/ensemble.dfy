/** The partition of a dataset into blocks with degeneracies (pydiag/ensemble/ensemble.py). */
module Ensembles {
  import opened Results
  import opened OrderedDicts
  import LexOrder

  /** A block key: one label per axis, a Python tuple of strings. */
  type Block = seq<string>

  /** A Python object as the constructor sees it: the text `str(obj)` and, when the call
      succeeds, the integer `int(obj)`. */
  datatype Atom = Atom(text: string, asInt: Option<int>)

  /** One element of an axis: a tuple (of any length) or any other object. */
  datatype Item = Bare(obj: Atom) | Tuple(parts: seq<Atom>)

  /** A positional argument of the constructor: an iterable of items, or an object
      `iter()` rejects. */
  datatype Axis = Iterable(items: seq<Item>) | NotIterable

  /** A normalised axis element `(str label, int degeneracy)`. */
  type Entry = (string, int)

  /** The items the normalisation accepts: anything but a tuple, or a pair whose second
      part converts to an integer. */
  predicate WellFormedItem(it: Item) {
    it.Bare? || (|it.parts| == 2 && it.parts[1].asInt.Some?)
  }

  /** The exception a malformed item raises. */
  function ItemError(it: Item): Error {
    if it.Tuple? && |it.parts| != 2 then ValueError else TypeError
  }

  /** The entry a well-formed item normalises to. */
  function ItemEntry(it: Item, defaultDeg: int): Entry
    requires WellFormedItem(it)
  {
    match it
    case Bare(o) => (o.text, defaultDeg)
    case Tuple(parts) => (parts[0].text, parts[1].asInt.value)
  }

  /** The body of the inner loop: one axis element into `(str, int)` form. */
  function NormalizeItem(it: Item, defaultDeg: int): (r: Result<Entry>)
    ensures r.Ok? <==> WellFormedItem(it)
    ensures r.Ok? ==> r.value == ItemEntry(it, defaultDeg)
    ensures r.Err? ==> r.error == ItemError(it)
  {
    match it
    case Bare(o) => Ok((o.text, defaultDeg))
    case Tuple(parts) =>
      if |parts| != 2 then Err(ValueError)
      else if parts[1].asInt.None? then Err(TypeError)
      else Ok((parts[0].text, parts[1].asInt.value))
  }

  /** One positional argument into a list of `(str label, int degeneracy)` pairs. */
  function NormalizeAxis(ax: Axis, defaultDeg: int): (r: Result<seq<Entry>>)
    ensures ax.NotIterable? ==> r == Err(TypeError)
    ensures ax.Iterable? ==>
      (r.Ok? <==> forall i :: 0 <= i < |ax.items| ==> WellFormedItem(ax.items[i]))
    ensures r.Ok? ==>
      |r.value| == |ax.items|
      && forall i :: 0 <= i < |ax.items| ==>
           WellFormedItem(ax.items[i]) && r.value[i] == ItemEntry(ax.items[i], defaultDeg)
    ensures r.Err? && ax.Iterable? ==>
      exists i :: 0 <= i < |ax.items| && !WellFormedItem(ax.items[i])
        && r.error == ItemError(ax.items[i])
        && forall j :: 0 <= j < i ==> WellFormedItem(ax.items[j])
  {
    match ax
    case NotIterable => Err(TypeError)
    case Iterable(items) => MapAll(items, it => NormalizeItem(it, defaultDeg))
  }

  /** All positional arguments, in order; the first malformed one raises. */
  function NormalizeAxes(axes: seq<Axis>, defaultDeg: int): (r: Result<seq<seq<Entry>>>)
    ensures r.Ok? <==> forall k :: 0 <= k < |axes| ==> NormalizeAxis(axes[k], defaultDeg).Ok?
    ensures r.Ok? ==>
      |r.value| == |axes|
      && forall k :: 0 <= k < |axes| ==> r.value[k] == NormalizeAxis(axes[k], defaultDeg).value
    ensures r.Err? ==>
      exists k :: 0 <= k < |axes| && NormalizeAxis(axes[k], defaultDeg) == Err(r.error)
        && forall j :: 0 <= j < k ==> NormalizeAxis(axes[j], defaultDeg).Ok?
  {
    MapAll(axes, ax => NormalizeAxis(ax, defaultDeg))
  }

  /** The product of the axis lengths. */
  function LengthProduct<T>(axes: seq<seq<T>>): nat {
    if |axes| == 0 then 1 else |axes[0]| * LengthProduct(axes[1..])
  }

  /** `t` takes its k-th component from axis k, for every axis. */
  ghost predicate InProduct<T>(t: seq<T>, axes: seq<seq<T>>) {
    |t| == |axes| && forall k :: 0 <= k < |axes| ==> t[k] in axes[k]
  }

  /** `[(f,) + t for t in tails]` */
  function WithHead(f: Entry, tails: seq<seq<Entry>>): (r: seq<seq<Entry>>)
    ensures |r| == |tails|
    ensures forall j :: 0 <= j < |tails| ==> r[j] == [f] + tails[j]
  {
    seq(|tails|, j requires 0 <= j < |tails| => [f] + tails[j])
  }

  lemma WithHeadMembers(f: Entry, tails: seq<seq<Entry>>, u: seq<Entry>)
    ensures u in WithHead(f, tails) <==> |u| > 0 && u[0] == f && u[1..] in tails
  {
    var r := WithHead(f, tails);
    if |u| > 0 && u[0] == f && u[1..] in tails {
      var j :| 0 <= j < |tails| && tails[j] == u[1..];
      assert r[j] == u;
    }
  }

  /** `[(f,) + t for f in firsts for t in tails]` */
  function Prepend(firsts: seq<Entry>, tails: seq<seq<Entry>>): (r: seq<seq<Entry>>)
    decreases |firsts|
  {
    if |firsts| == 0 then [] else WithHead(firsts[0], tails) + Prepend(firsts[1..], tails)
  }

  lemma {:induction false} PrependLength(firsts: seq<Entry>, tails: seq<seq<Entry>>)
    ensures |Prepend(firsts, tails)| == |firsts| * |tails|
    decreases |firsts|
  {
    if |firsts| > 0 {
      PrependLength(firsts[1..], tails);
      assert |firsts| * |tails| == |tails| + (|firsts| - 1) * |tails|;
    }
  }

  lemma {:induction false} PrependMembers(firsts: seq<Entry>, tails: seq<seq<Entry>>, u: seq<Entry>)
    ensures u in Prepend(firsts, tails) <==> |u| > 0 && u[0] in firsts && u[1..] in tails
    decreases |firsts|
  {
    if |firsts| > 0 {
      WithHeadMembers(firsts[0], tails, u);
      PrependMembers(firsts[1..], tails, u);
      assert firsts == [firsts[0]] + firsts[1..];
    }
  }

  /** `itertools.product(*axes)`: the last axis varies fastest; no axes give one empty tuple. */
  function Product(axes: seq<seq<Entry>>): (r: seq<seq<Entry>>)
    decreases |axes|
  {
    if |axes| == 0 then [[]] else Prepend(axes[0], Product(axes[1..]))
  }

  /** There are as many combinations as the product of the axis lengths. */
  lemma {:induction false} ProductLength(axes: seq<seq<Entry>>)
    ensures |Product(axes)| == LengthProduct(axes)
    decreases |axes|
  {
    if |axes| > 0 {
      ProductLength(axes[1..]);
      PrependLength(axes[0], Product(axes[1..]));
    }
  }

  /** The product holds exactly the tuples taking their k-th component from axis k. */
  lemma {:induction false} ProductMembers(axes: seq<seq<Entry>>, t: seq<Entry>)
    ensures t in Product(axes) <==> InProduct(t, axes)
    decreases |axes|
  {
    if |axes| == 0 {
      assert InProduct(t, axes) <==> t == [];
    } else {
      PrependMembers(axes[0], Product(axes[1..]), t);
      if |t| > 0 {
        ProductMembers(axes[1..], t[1..]);
        assert InProduct(t, axes) <==> t[0] in axes[0] && InProduct(t[1..], axes[1..]) by {
          if t[0] in axes[0] && InProduct(t[1..], axes[1..]) {
            forall k | 0 <= k < |axes| ensures t[k] in axes[k] {
              if k > 0 { assert t[k] == t[1..][k - 1]; }
            }
          }
          if InProduct(t, axes) {
            forall k | 0 <= k < |axes| - 1 ensures t[1..][k] in axes[1..][k] {
              assert t[k + 1] in axes[k + 1];
            }
          }
        }
      }
    }
  }

  /** The labels of a combination, as a block key. */
  function Labels(combo: seq<Entry>): (b: Block)
    ensures |b| == |combo|
    ensures forall k :: 0 <= k < |combo| ==> b[k] == combo[k].0
  {
    seq(|combo|, k requires 0 <= k < |combo| => combo[k].0)
  }

  /** The product of the degeneracies of a combination, starting from 1. */
  function Degeneracy(combo: seq<Entry>): int
    decreases |combo|
  {
    if |combo| == 0 then 1 else Degeneracy(combo[..|combo| - 1]) * combo[|combo| - 1].1
  }

  /** The block keys in the order the product generates them. */
  function GeneratedBlocks(combos: seq<seq<Entry>>): (r: seq<Block>)
    ensures |r| == |combos|
    ensures forall i :: 0 <= i < |combos| ==> r[i] == Labels(combos[i])
  {
    seq(|combos|, i requires 0 <= i < |combos| => Labels(combos[i]))
  }

  /** The `(block, deg)` assignments of the construction loop, in order. */
  function Assignments(combos: seq<seq<Entry>>): (r: seq<(Block, int)>)
    ensures |r| == |combos|
    ensures forall i :: 0 <= i < |combos| ==> r[i] == (Labels(combos[i]), Degeneracy(combos[i]))
  {
    seq(|combos|, i requires 0 <= i < |combos| => (Labels(combos[i]), Degeneracy(combos[i])))
  }

  /** An `Ensemble` object. Python gives it no `__eq__`, so `id` stands for its identity:
      two references compare equal exactly when their ids do. */
  datatype Ensemble = Ensemble(id: nat, blocks: seq<Block>, degeneracy: ODict<Block, int>) {

    ghost predicate Valid() {
      degeneracy.Valid()
    }

    /** The block keys in iteration order. */
    function Keys(): seq<Block> {
      degeneracy.keys
    }

    /** `for block, deg in ensemble`: the items of the degeneracy dict. */
    function Iter(): (r: seq<(Block, int)>)
      requires Valid()
      ensures |r| == |Keys()|
      ensures forall i :: 0 <= i < |r| ==> r[i].0 == Keys()[i] && r[i].1 == degeneracy.vals[Keys()[i]]
    {
      degeneracy.Items()
    }
  }

  /** `e1 != e2` on ensembles: object identity. */
  predicate SameEnsemble(e1: Ensemble, e2: Ensemble) {
    e1.id == e2.id
  }

  /** `Ensemble(*axes, default_degeneracy=defaultDeg)`, for a fresh identity `id`. */
  function Construct(id: nat, axes: seq<Axis>, defaultDeg: int): (r: Result<Ensemble>)
    ensures r.Ok? <==> forall k :: 0 <= k < |axes| ==> NormalizeAxis(axes[k], defaultDeg).Ok?
    ensures r.Ok? ==>
      var combos := Product(NormalizeAxes(axes, defaultDeg).value);
      && r.value.id == id
      && r.value.Valid()
      && LexOrder.SortedBlocks(r.value.blocks)
      && multiset(r.value.blocks) == multiset(GeneratedBlocks(combos))
      && r.value.degeneracy == FromPairs(Assignments(combos))
    ensures r.Err? ==>
      exists k :: 0 <= k < |axes| && NormalizeAxis(axes[k], defaultDeg) == Err(r.error)
        && forall j :: 0 <= j < k ==> NormalizeAxis(axes[j], defaultDeg).Ok?
  {
    var formatted :- NormalizeAxes(axes, defaultDeg);
    var combos := Product(formatted);
    Ok(Ensemble(id, LexOrder.Sort(GeneratedBlocks(combos)), FromPairs(Assignments(combos))))
  }

  /** The product of the number of items of each axis. */
  function ItemCountProduct(axes: seq<Axis>): nat {
    if |axes| == 0 then 1
    else (if axes[0].Iterable? then |axes[0].items| else 0) * ItemCountProduct(axes[1..])
  }

  lemma {:induction false} NormalizedCount(axes: seq<Axis>, defaultDeg: int)
    requires NormalizeAxes(axes, defaultDeg).Ok?
    ensures LengthProduct(NormalizeAxes(axes, defaultDeg).value) == ItemCountProduct(axes)
    decreases |axes|
  {
    if |axes| > 0 {
      var f := NormalizeAxes(axes, defaultDeg).value;
      var f' := NormalizeAxes(axes[1..], defaultDeg).value;
      assert f[1..] == f' by {
        forall k | 0 <= k < |f'| ensures f[1..][k] == f'[k] {
          assert axes[1..][k] == axes[k + 1];
        }
      }
      NormalizedCount(axes[1..], defaultDeg);
    }
  }

  /** The ensemble has one block per combination of one item from each axis. */
  lemma ConstructCount(id: nat, axes: seq<Axis>, defaultDeg: int)
    requires Construct(id, axes, defaultDeg).Ok?
    ensures |Construct(id, axes, defaultDeg).value.blocks| == ItemCountProduct(axes)
  {
    NormalizedCount(axes, defaultDeg);
    ProductLength(NormalizeAxes(axes, defaultDeg).value);
    var e := Construct(id, axes, defaultDeg).value;
    var combos := Product(NormalizeAxes(axes, defaultDeg).value);
    assert |e.blocks| == |multiset(e.blocks)| == |multiset(GeneratedBlocks(combos))|;
  }

  /** `x` is the label of some entry of an axis. */
  ghost predicate LabelOf(x: string, entries: seq<Entry>) {
    exists j :: 0 <= j < |entries| && entries[j].0 == x
  }

  lemma SortedBlocksMembers(id: nat, axes: seq<Axis>, defaultDeg: int, b: Block)
    requires Construct(id, axes, defaultDeg).Ok?
    ensures b in Construct(id, axes, defaultDeg).value.blocks
      <==> b in GeneratedBlocks(Product(NormalizeAxes(axes, defaultDeg).value))
  {
    var e := Construct(id, axes, defaultDeg).value;
    var gen := GeneratedBlocks(Product(NormalizeAxes(axes, defaultDeg).value));
    assert b in e.blocks <==> b in multiset(e.blocks);
    assert b in gen <==> b in multiset(gen);
  }

  lemma GeneratedHasLabels(f: seq<seq<Entry>>, b: Block)
    requires b in GeneratedBlocks(Product(f))
    ensures |b| == |f| && forall k :: 0 <= k < |f| ==> LabelOf(b[k], f[k])
  {
    var combos := Product(f);
    var gen := GeneratedBlocks(combos);
    var i :| 0 <= i < |gen| && gen[i] == b;
    var c := combos[i];
    ProductMembers(f, c);
    assert Labels(c) == b;
    forall k | 0 <= k < |f| ensures LabelOf(b[k], f[k]) {
      EntryLabel(c[k], f[k]);
    }
  }

  lemma EntryLabel(e: Entry, entries: seq<Entry>)
    requires e in entries
    ensures LabelOf(e.0, entries)
  {
    var j :| 0 <= j < |entries| && entries[j] == e;
  }

  lemma LabelsAreGenerated(f: seq<seq<Entry>>, b: Block)
    requires |b| == |f| && forall k :: 0 <= k < |f| ==> LabelOf(b[k], f[k])
    ensures b in GeneratedBlocks(Product(f))
  {
    var combo := seq(|f|, k requires 0 <= k < |f| =>
      var j :| 0 <= j < |f[k]| && f[k][j].0 == b[k]; f[k][j]);
    assert InProduct(combo, f) by {
      forall k | 0 <= k < |f| ensures combo[k] in f[k] {
        var j :| 0 <= j < |f[k]| && f[k][j] == combo[k];
      }
    }
    var combos := Product(f);
    ProductMembers(f, combo);
    var i :| 0 <= i < |combos| && combos[i] == combo;
    assert Labels(combo) == b;
    assert GeneratedBlocks(combos)[i] == b;
  }

  /** The blocks are exactly the tuples taking their k-th label from axis k: the full
      Cartesian product of the label sets. */
  lemma ConstructBlocks(id: nat, axes: seq<Axis>, defaultDeg: int, b: Block)
    requires Construct(id, axes, defaultDeg).Ok?
    ensures var f := NormalizeAxes(axes, defaultDeg).value;
      b in Construct(id, axes, defaultDeg).value.blocks
      <==> |b| == |axes| && forall k :: 0 <= k < |axes| ==> LabelOf(b[k], f[k])
  {
    var f := NormalizeAxes(axes, defaultDeg).value;
    SortedBlocksMembers(id, axes, defaultDeg, b);
    if b in GeneratedBlocks(Product(f)) {
      GeneratedHasLabels(f, b);
    }
    if |b| == |axes| && forall k :: 0 <= k < |axes| ==> LabelOf(b[k], f[k]) {
      LabelsAreGenerated(f, b);
    }
  }

  /** `deg` is the degeneracy of the last combination whose labels are `b`. */
  ghost predicate LastDegeneracy(combos: seq<seq<Entry>>, b: Block, deg: int) {
    exists i :: 0 <= i < |combos| && Labels(combos[i]) == b && deg == Degeneracy(combos[i])
                && forall j :: i < j < |combos| ==> Labels(combos[j]) != b
  }

  /** The degeneracy of a block is the product of the degeneracies of a combination
      carrying its labels: the last such combination, since later assignments overwrite. */
  lemma ConstructDegeneracy(id: nat, axes: seq<Axis>, defaultDeg: int, b: Block)
    requires Construct(id, axes, defaultDeg).Ok?
    requires b in Construct(id, axes, defaultDeg).value.degeneracy.vals
    ensures LastDegeneracy(Product(NormalizeAxes(axes, defaultDeg).value), b,
                           Construct(id, axes, defaultDeg).value.degeneracy.vals[b])
  {
    AssignmentsLastWrite(Product(NormalizeAxes(axes, defaultDeg).value), b);
  }

  lemma AssignmentsLastWrite(combos: seq<seq<Entry>>, b: Block)
    requires b in FromPairs(Assignments(combos)).vals
    ensures LastDegeneracy(combos, b, FromPairs(Assignments(combos)).vals[b])
  {
    var pairs := Assignments(combos);
    var v := FromPairs(pairs).vals[b];
    FromPairsLastWrite(pairs, b);
    var i :| 0 <= i < |pairs| && pairs[i] == (b, v)
              && forall j :: i < j < |pairs| ==> pairs[j].0 != b;
    assert Labels(combos[i]) == b && v == Degeneracy(combos[i]);
    forall j | i < j < |combos| ensures Labels(combos[j]) != b {
      assert pairs[j].0 == Labels(combos[j]);
    }
  }

  /** Without repeated labels within an axis, no block key repeats. */
  ghost predicate DistinctLabels(entries: seq<Entry>) {
    forall i, j :: 0 <= i < j < |entries| ==> entries[i].0 != entries[j].0
  }

  lemma DistinctConcat(a: seq<Block>, b: seq<Block>)
    requires Distinct(a) && Distinct(b)
    requires forall x :: x in a ==> x !in b
    ensures Distinct(a + b)
  {
    forall i, j | 0 <= i < j < |a + b| ensures (a + b)[i] != (a + b)[j] {
      if i < |a| && j >= |a| {
        assert (a + b)[i] in a && (a + b)[j] in b;
      }
    }
  }

  lemma WithHeadDistinct(f: Entry, tails: seq<seq<Entry>>)
    requires Distinct(GeneratedBlocks(tails))
    ensures Distinct(GeneratedBlocks(WithHead(f, tails)))
  {
    var g, gt := GeneratedBlocks(WithHead(f, tails)), GeneratedBlocks(tails);
    forall i | 0 <= i < |g| ensures g[i] == [f.0] + gt[i] {
      assert WithHead(f, tails)[i] == [f] + tails[i];
    }
    forall i, j | 0 <= i < j < |g| ensures g[i] != g[j] {
      assert g[i][1..] == gt[i] && g[j][1..] == gt[j];
    }
  }

  lemma PrependHeads(firsts: seq<Entry>, tails: seq<seq<Entry>>, x: Block)
    requires x in GeneratedBlocks(Prepend(firsts, tails))
    ensures |x| > 0 && exists k :: 0 <= k < |firsts| && firsts[k].0 == x[0]
  {
    var p := Prepend(firsts, tails);
    var i :| 0 <= i < |p| && Labels(p[i]) == x;
    PrependMembers(firsts, tails, p[i]);
    var k :| 0 <= k < |firsts| && firsts[k] == p[i][0];
  }

  lemma DistinctLabelsTail(firsts: seq<Entry>)
    requires |firsts| > 0 && DistinctLabels(firsts)
    ensures DistinctLabels(firsts[1..])
  {
    var rest := firsts[1..];
    forall i, j | 0 <= i < j < |rest| ensures rest[i].0 != rest[j].0 {
      assert rest[i] == firsts[i + 1] && rest[j] == firsts[j + 1];
    }
  }

  lemma HeadsDisjoint(firsts: seq<Entry>, tails: seq<seq<Entry>>)
    requires |firsts| > 0 && DistinctLabels(firsts)
    ensures forall x :: x in GeneratedBlocks(WithHead(firsts[0], tails)) ==>
      x !in GeneratedBlocks(Prepend(firsts[1..], tails))
  {
    var rest := firsts[1..];
    forall x | x in GeneratedBlocks(WithHead(firsts[0], tails))
      ensures x !in GeneratedBlocks(Prepend(rest, tails))
    {
      WithHeadHeads(firsts[0], tails, x);
      forall k | 0 <= k < |rest| ensures rest[k].0 != x[0] {
        assert rest[k] == firsts[k + 1];
      }
      if x in GeneratedBlocks(Prepend(rest, tails)) {
        PrependHeads(rest, tails, x);
      }
    }
  }

  lemma WithHeadHeads(f: Entry, tails: seq<seq<Entry>>, x: Block)
    requires x in GeneratedBlocks(WithHead(f, tails))
    ensures |x| > 0 && x[0] == f.0
  {
    var w := WithHead(f, tails);
    var i :| 0 <= i < |w| && Labels(w[i]) == x;
    assert w[i] == [f] + tails[i];
  }

  lemma {:induction false} PrependDistinct(firsts: seq<Entry>, tails: seq<seq<Entry>>)
    requires DistinctLabels(firsts)
    requires Distinct(GeneratedBlocks(tails))
    ensures Distinct(GeneratedBlocks(Prepend(firsts, tails)))
    decreases |firsts|
  {
    if |firsts| > 0 {
      DistinctLabelsTail(firsts);
      PrependDistinct(firsts[1..], tails);
      WithHeadDistinct(firsts[0], tails);
      HeadsDisjoint(firsts, tails);
      var gh := GeneratedBlocks(WithHead(firsts[0], tails));
      var gr := GeneratedBlocks(Prepend(firsts[1..], tails));
      DistinctConcat(gh, gr);
      assert GeneratedBlocks(Prepend(firsts, tails)) == gh + gr;
    }
  }

  lemma {:induction false} ProductDistinct(axes: seq<seq<Entry>>)
    requires forall k :: 0 <= k < |axes| ==> DistinctLabels(axes[k])
    ensures Distinct(GeneratedBlocks(Product(axes)))
    decreases |axes|
  {
    if |axes| > 0 {
      ProductDistinct(axes[1..]);
      PrependDistinct(axes[0], Product(axes[1..]));
    }
  }

  /** Without repeated labels within an axis, iteration yields every generated
      `(block, degeneracy)` pair once, in the order `itertools.product` produces them. */
  lemma ConstructIterationOrder(id: nat, axes: seq<Axis>, defaultDeg: int)
    requires Construct(id, axes, defaultDeg).Ok?
    requires forall k :: 0 <= k < |axes| ==> DistinctLabels(NormalizeAxes(axes, defaultDeg).value[k])
    ensures var combos := Product(NormalizeAxes(axes, defaultDeg).value);
      Construct(id, axes, defaultDeg).value.Iter() == Assignments(combos)
  {
    var combos := Product(NormalizeAxes(axes, defaultDeg).value);
    ProductDistinct(NormalizeAxes(axes, defaultDeg).value);
    assert Firsts(Assignments(combos)) == GeneratedBlocks(combos);
    FromPairsDistinct(Assignments(combos));
  }

  /** A pair item `(name, deg)` with an integer degeneracy. */
  function Pair(name: string, deg: int): Item {
    Tuple([Atom(name, None), Atom(IntText(deg), Some(deg))])
  }

  /** A decimal rendering good enough for the small literals used below. */
  function IntText(n: int): string {
    if 0 <= n < 10 then ["0123456789"[n]] else "n"
  }

  lemma NormalizeTwo(i1: Item, i2: Item, defaultDeg: int)
    requires WellFormedItem(i1) && WellFormedItem(i2)
    ensures NormalizeAxis(Iterable([i1, i2]), defaultDeg)
      == Ok([ItemEntry(i1, defaultDeg), ItemEntry(i2, defaultDeg)])
  {
    var r := NormalizeAxis(Iterable([i1, i2]), defaultDeg);
    assert forall i :: 0 <= i < |[i1, i2]| ==> WellFormedItem([i1, i2][i]);
    assert r.Ok? && |r.value| == 2;
    assert r.value[0] == ItemEntry(i1, defaultDeg) && r.value[1] == ItemEntry(i2, defaultDeg);
    assert r.value == [ItemEntry(i1, defaultDeg), ItemEntry(i2, defaultDeg)];
  }

  /** Construction once the axes are known to normalise to `f`. */
  lemma ConstructFrom(id: nat, axes: seq<Axis>, defaultDeg: int, f: seq<seq<Entry>>)
    requires NormalizeAxes(axes, defaultDeg) == Ok(f)
    ensures Construct(id, axes, defaultDeg)
      == Ok(Ensemble(id, LexOrder.Sort(GeneratedBlocks(Product(f))), FromPairs(Assignments(Product(f)))))
  {
  }

  lemma SortIs(gen: seq<Block>, sorted: seq<Block>)
    requires LexOrder.SortedBlocks(sorted) && multiset(gen) == multiset(sorted)
    ensures LexOrder.Sort(gen) == sorted
  {
    LexOrder.SortedUnique(LexOrder.Sort(gen), sorted);
  }

  lemma SingleAxisProduct(x: Entry, y: Entry)
    ensures Product([[x, y]]) == [[x], [y]]
  {
    assert [[x, y]][1..] == [];
    assert WithHead(x, [[]])[0] == [x] + [] == [x];
    assert WithHead(y, [[]])[0] == [y] + [] == [y];
    assert Prepend([y], [[]]) == [[y]];
  }

  lemma TwoAxesProduct(a: Entry, b: Entry, x: Entry, y: Entry)
    ensures Product([[a, b], [x, y]]) == [[a, x], [a, y], [b, x], [b, y]]
  {
    assert [[a, b], [x, y]][1..] == [[x, y]];
    SingleAxisProduct(x, y);
    assert [a] + [x] == [a, x] && [a] + [y] == [a, y];
    assert [b] + [x] == [b, x] && [b] + [y] == [b, y];
    assert WithHead(a, [[x], [y]]) == [[a, x], [a, y]];
    assert WithHead(b, [[x], [y]]) == [[b, x], [b, y]];
    assert Prepend([b], [[x], [y]]) == [[b, x], [b, y]];
  }

  lemma NormalizeBoth(a1: Axis, a2: Axis, defaultDeg: int, f1: seq<Entry>, f2: seq<Entry>)
    requires NormalizeAxis(a1, defaultDeg) == Ok(f1) && NormalizeAxis(a2, defaultDeg) == Ok(f2)
    ensures NormalizeAxes([a1, a2], defaultDeg) == Ok([f1, f2])
  {
    var r := NormalizeAxes([a1, a2], defaultDeg);
    assert r.Ok? && r.value[0] == f1 && r.value[1] == f2;
    assert r.value == [f1, f2];
  }

  lemma NormalizeOne(a1: Axis, defaultDeg: int, f1: seq<Entry>)
    requires NormalizeAxis(a1, defaultDeg) == Ok(f1)
    ensures NormalizeAxes([a1], defaultDeg) == Ok([f1])
  {
    var r := NormalizeAxes([a1], defaultDeg);
    assert r.Ok? && r.value[0] == f1;
    assert r.value == [f1];
  }

  /** The axes `[("a", 1), ("b", 2)]` and `[("x", 1), ("y", 1)]`. */
  function TwoAxes(): seq<Axis> {
    [Iterable([Pair("a", 1), Pair("b", 2)]), Iterable([Pair("x", 1), Pair("y", 1)])]
  }

  lemma TwoAxesCombos()
    ensures NormalizeAxes(TwoAxes(), 1).Ok?
    ensures Product(NormalizeAxes(TwoAxes(), 1).value)
      == [[("a", 1), ("x", 1)], [("a", 1), ("y", 1)], [("b", 2), ("x", 1)], [("b", 2), ("y", 1)]]
  {
    NormalizeTwo(Pair("a", 1), Pair("b", 2), 1);
    NormalizeTwo(Pair("x", 1), Pair("y", 1), 1);
    NormalizeBoth(TwoAxes()[0], TwoAxes()[1], 1, [("a", 1), ("b", 2)], [("x", 1), ("y", 1)]);
    TwoAxesProduct(("a", 1), ("b", 2), ("x", 1), ("y", 1));
  }

  lemma TwoAxesSorted(combos: seq<seq<Entry>>)
    requires combos
      == [[("a", 1), ("x", 1)], [("a", 1), ("y", 1)], [("b", 2), ("x", 1)], [("b", 2), ("y", 1)]]
    ensures LexOrder.Sort(GeneratedBlocks(combos)) == [["a", "x"], ["a", "y"], ["b", "x"], ["b", "y"]]
  {
    var gen := [["a", "x"], ["a", "y"], ["b", "x"], ["b", "y"]];
    assert Labels(combos[0]) == gen[0] && Labels(combos[1]) == gen[1];
    assert Labels(combos[2]) == gen[2] && Labels(combos[3]) == gen[3];
    assert GeneratedBlocks(combos) == gen;
    assert LexOrder.SortedBlocks(gen) by {
      assert LexOrder.StrLess("a", "b") && LexOrder.StrLess("x", "y");
    }
    SortIs(gen, gen);
  }

  /** The degeneracy of a two-axis combination is the product of its two entries'. */
  lemma DegeneracyPair(p: Entry, q: Entry)
    ensures Degeneracy([p, q]) == p.1 * q.1
  {
    assert [p, q][..1] == [p];
    assert [p][..0] == [];
    assert Degeneracy([p]) == p.1;
  }

  lemma TwoAxesItems(combos: seq<seq<Entry>>)
    requires combos
      == [[("a", 1), ("x", 1)], [("a", 1), ("y", 1)], [("b", 2), ("x", 1)], [("b", 2), ("y", 1)]]
    ensures FromPairs(Assignments(combos)).Valid()
    ensures FromPairs(Assignments(combos)).Items()
      == [(["a", "x"], 1), (["a", "y"], 1), (["b", "x"], 2), (["b", "y"], 2)]
  {
    var gen := [["a", "x"], ["a", "y"], ["b", "x"], ["b", "y"]];
    assert Labels(combos[0]) == gen[0] && Labels(combos[1]) == gen[1];
    assert Labels(combos[2]) == gen[2] && Labels(combos[3]) == gen[3];
    DegeneracyPair(("a", 1), ("x", 1));
    DegeneracyPair(("a", 1), ("y", 1));
    DegeneracyPair(("b", 2), ("x", 1));
    DegeneracyPair(("b", 2), ("y", 1));
    assert Degeneracy(combos[0]) == 1 && Degeneracy(combos[1]) == 1;
    assert Degeneracy(combos[2]) == 2 && Degeneracy(combos[3]) == 2;
    assert Assignments(combos) == [(gen[0], 1), (gen[1], 1), (gen[2], 2), (gen[3], 2)];
    assert Firsts(Assignments(combos)) == gen;
    FromPairsDistinct(Assignments(combos));
  }

  /** Two axes `[("a", 1), ("b", 2)]` and `[("x", 1), ("y", 1)]`: four blocks, sorted, with
      degeneracy the product of the degeneracies of their labels. */
  lemma TwoAxesExample()
    ensures var r := Construct(7, TwoAxes(), 1);
      && r.Ok?
      && r.value.blocks == [["a", "x"], ["a", "y"], ["b", "x"], ["b", "y"]]
      && r.value.Iter() == [(["a", "x"], 1), (["a", "y"], 1), (["b", "x"], 2), (["b", "y"], 2)]
  {
    TwoAxesCombos();
    var f := NormalizeAxes(TwoAxes(), 1).value;
    ConstructFrom(7, TwoAxes(), 1, f);
    TwoAxesSorted(Product(f));
    TwoAxesItems(Product(f));
  }

  /** One axis `["b", "a"]` of bare labels. */
  function UnsortedAxis(): seq<Axis> {
    [Iterable([Bare(Atom("b", None)), Bare(Atom("a", None))])]
  }

  lemma UnsortedCombos()
    ensures NormalizeAxes(UnsortedAxis(), 1).Ok?
    ensures Product(NormalizeAxes(UnsortedAxis(), 1).value) == [[("b", 1)], [("a", 1)]]
  {
    NormalizeTwo(Bare(Atom("b", None)), Bare(Atom("a", None)), 1);
    NormalizeOne(UnsortedAxis()[0], 1, [("b", 1), ("a", 1)]);
    SingleAxisProduct(("b", 1), ("a", 1));
  }

  lemma UnsortedSorted(combos: seq<seq<Entry>>)
    requires combos == [[("b", 1)], [("a", 1)]]
    ensures LexOrder.Sort(GeneratedBlocks(combos)) == [["a"], ["b"]]
  {
    assert Labels(combos[0]) == ["b"] && Labels(combos[1]) == ["a"];
    assert GeneratedBlocks(combos) == [["b"], ["a"]];
    assert LexOrder.SortedBlocks([["a"], ["b"]]) by {
      assert LexOrder.StrLess("a", "b");
    }
    assert multiset([["b"], ["a"]]) == multiset([["a"], ["b"]]);
    SortIs([["b"], ["a"]], [["a"], ["b"]]);
  }

  lemma UnsortedItems(combos: seq<seq<Entry>>)
    requires combos == [[("b", 1)], [("a", 1)]]
    ensures FromPairs(Assignments(combos)).Valid()
    ensures FromPairs(Assignments(combos)).Items() == [(["b"], 1), (["a"], 1)]
  {
    assert Labels(combos[0]) == ["b"] && Labels(combos[1]) == ["a"];
    assert Assignments(combos) == [(["b"], 1), (["a"], 1)];
    assert Firsts(Assignments(combos)) == [["b"], ["a"]];
    FromPairsDistinct(Assignments(combos));
  }

  /** Iteration does not follow the sorted `blocks`: with one axis `["b", "a"]` the blocks
      are `[("a",), ("b",)]` but iteration yields `("b",)` first. */
  lemma IterationNotSorted()
    ensures var r := Construct(3, UnsortedAxis(), 1);
      && r.Ok?
      && r.value.blocks == [["a"], ["b"]]
      && r.value.Iter() == [(["b"], 1), (["a"], 1)]
  {
    UnsortedCombos();
    var f := NormalizeAxes(UnsortedAxis(), 1).value;
    ConstructFrom(3, UnsortedAxis(), 1, f);
    UnsortedSorted(Product(f));
    UnsortedItems(Product(f));
  }
}
