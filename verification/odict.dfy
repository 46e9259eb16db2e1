/** Python's insertion-ordered `dict` / `OrderedDict`, as every container of the core uses it. */
module OrderedDicts {
  import opened Results

  /** No key occurs twice. */
  ghost predicate Distinct<K>(s: seq<K>) {
    forall i, j :: 0 <= i < j < |s| ==> s[i] != s[j]
  }

  /** A dictionary: its keys in insertion order, and the value of each key. */
  datatype ODict<K(==, !new), V> = ODict(keys: seq<K>, vals: map<K, V>) {

    ghost predicate Valid() {
      && Distinct(keys)
      && (forall k :: k in vals <==> k in keys)
    }

    /** `d[k] = v`: a key already present keeps its position and takes the new value,
        a new key is appended. */
    function Set(k: K, v: V): (r: ODict<K, V>)
      ensures Valid() ==> r.Valid()
      ensures r.vals == vals[k := v]
      ensures k in vals ==> r.keys == keys
      ensures k !in vals ==> r.keys == keys + [k]
    {
      if k in vals then ODict(keys, vals[k := v]) else ODict(keys + [k], vals[k := v])
    }

    /** `d[k]`, raising KeyError for a missing key. */
    function Get(k: K): (r: Result<V>)
      ensures r.Ok? <==> k in vals
      ensures r.Ok? ==> r.value == vals[k]
      ensures r.Err? ==> r.error == KeyError
    {
      if k in vals then Ok(vals[k]) else Err(KeyError)
    }

    /** `d.values()`, in key order. */
    function Values(): (r: seq<V>)
      requires Valid()
      ensures |r| == |keys|
      ensures forall i :: 0 <= i < |keys| ==> r[i] == vals[keys[i]]
    {
      seq(|keys|, i requires 0 <= i < |keys| => vals[keys[i]])
    }

    /** `d.items()`, in key order. */
    function Items(): (r: seq<(K, V)>)
      requires Valid()
      ensures |r| == |keys|
      ensures forall i :: 0 <= i < |keys| ==> r[i] == (keys[i], vals[keys[i]])
    {
      seq(|keys|, i requires 0 <= i < |keys| => (keys[i], vals[keys[i]]))
    }
  }

  /** `{}` */
  function Empty<K(==, !new), V>(): (r: ODict<K, V>)
    ensures r.Valid() && r.keys == [] && r.vals == map[]
  {
    ODict([], map[])
  }

  /** The loop `for k in keys: d[k] = f(k)` over a fresh dict, where evaluating `f(k)`
      may raise: the first key whose `f` raises aborts the loop with that exception. */
  function Traverse<K(==, !new), V>(keys: seq<K>, f: K -> Result<V>): (r: Result<ODict<K, V>>)
    ensures r.Ok? <==> forall i :: 0 <= i < |keys| ==> f(keys[i]).Ok?
    ensures r.Ok? ==> (forall k :: k in r.value.vals <==> k in keys)
    ensures r.Ok? ==> forall k :: k in keys ==> f(k).Ok? && r.value.vals[k] == f(k).value
    ensures r.Ok? && Distinct(keys) ==> r.value.keys == keys && r.value.Valid()
    ensures r.Err? ==>
      exists i :: 0 <= i < |keys| && f(keys[i]) == Err(r.error)
        && forall j :: 0 <= j < i ==> f(keys[j]).Ok?
    decreases |keys|
  {
    if |keys| == 0 then Ok(Empty())
    else
      var pre, last := keys[..|keys| - 1], keys[|keys| - 1];
      assert keys == pre + [last];
      match Traverse(pre, f)
      case Err(e) => Err(e)
      case Ok(init) =>
        match f(last)
        case Err(e) =>
          assert forall j :: 0 <= j < |pre| ==> f(keys[j]).Ok? by {
            forall j | 0 <= j < |pre| ensures f(keys[j]).Ok? { assert keys[j] == pre[j]; }
          }
          Err(e)
        case Ok(v) =>
          assert Distinct(keys) ==> Distinct(pre) && last !in init.vals by {
            if Distinct(keys) {
              assert forall i :: 0 <= i < |pre| ==> pre[i] == keys[i];
            }
          }
          Ok(init.Set(last, v))
  }

  /** The first components of a sequence of pairs. */
  function Firsts<K, V>(pairs: seq<(K, V)>): (r: seq<K>)
    ensures |r| == |pairs|
    ensures forall i :: 0 <= i < |pairs| ==> r[i] == pairs[i].0
  {
    seq(|pairs|, i requires 0 <= i < |pairs| => pairs[i].0)
  }

  /** The loop `for k, v in pairs: d[k] = v` over a fresh dict. */
  function FromPairs<K(==, !new), V>(pairs: seq<(K, V)>): (r: ODict<K, V>)
    ensures r.Valid()
    ensures forall k :: k in r.vals <==> k in Firsts(pairs)
    decreases |pairs|
  {
    if |pairs| == 0 then Empty()
    else
      var pre, last := pairs[..|pairs| - 1], pairs[|pairs| - 1];
      assert Firsts(pairs) == Firsts(pre) + [last.0];
      FromPairs(pre).Set(last.0, last.1)
  }

  /** A repeated key ends up with the value of its last occurrence. */
  lemma {:induction false} FromPairsLastWrite<K(!new), V>(pairs: seq<(K, V)>, k: K)
    requires k in FromPairs(pairs).vals
    ensures exists i :: 0 <= i < |pairs| && pairs[i] == (k, FromPairs(pairs).vals[k])
                        && forall j :: i < j < |pairs| ==> pairs[j].0 != k
    decreases |pairs|
  {
    var pre, last := pairs[..|pairs| - 1], pairs[|pairs| - 1];
    if k == last.0 {
      assert pairs[|pairs| - 1] == (k, FromPairs(pairs).vals[k]);
    } else {
      assert Firsts(pairs) == Firsts(pre) + [last.0];
      FromPairsLastWrite(pre, k);
      var i :| 0 <= i < |pre| && pre[i] == (k, FromPairs(pre).vals[k])
                && forall j :: i < j < |pre| ==> pre[j].0 != k;
      assert pairs[i] == (k, FromPairs(pairs).vals[k]);
      assert forall j :: i < j < |pairs| ==> pairs[j].0 != k by {
        forall j | i < j < |pairs| ensures pairs[j].0 != k {
          if j < |pre| { assert pairs[j] == pre[j]; }
        }
      }
    }
  }

  /** Without repeated keys, the dict built from `pairs` iterates exactly as `pairs`. */
  lemma {:induction false} FromPairsDistinct<K(!new), V>(pairs: seq<(K, V)>)
    requires Distinct(Firsts(pairs))
    ensures FromPairs(pairs).keys == Firsts(pairs)
    ensures FromPairs(pairs).Items() == pairs
    decreases |pairs|
  {
    if |pairs| > 0 {
      var pre, last := pairs[..|pairs| - 1], pairs[|pairs| - 1];
      assert pairs == pre + [last];
      assert Firsts(pairs) == Firsts(pre) + [last.0];
      assert Distinct(Firsts(pre)) by {
        forall i, j | 0 <= i < j < |pre| ensures Firsts(pre)[i] != Firsts(pre)[j] {
          assert Firsts(pre)[i] == Firsts(pairs)[i] && Firsts(pre)[j] == Firsts(pairs)[j];
        }
      }
      FromPairsDistinct(pre);
      var init := FromPairs(pre);
      assert last.0 !in init.vals;
      var r := FromPairs(pairs);
      assert r.keys == init.keys + [last.0];
      forall i | 0 <= i < |pairs| ensures r.Items()[i] == pairs[i] {
        if i < |pre| {
          assert init.Items()[i] == pre[i];
          assert init.keys[i] != last.0;
        }
      }
    }
  }

  /** The loop's outcome depends only on the values `f` takes on the keys. */
  lemma {:induction false} TraverseCongruent<K(!new), V>(keys: seq<K>, f: K -> Result<V>, g: K -> Result<V>)
    requires forall i :: 0 <= i < |keys| ==> f(keys[i]) == g(keys[i])
    ensures Traverse(keys, f) == Traverse(keys, g)
    decreases |keys|
  {
    if |keys| > 0 {
      var pre := keys[..|keys| - 1];
      assert forall i :: 0 <= i < |pre| ==> pre[i] == keys[i];
      TraverseCongruent(pre, f, g);
    }
  }
}
