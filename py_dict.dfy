/**
  The Python `dict` from strings to integers that the reports accumulate
  into: keys remember their insertion order, which decides the order of
  chart series and of ties when rows are sorted.
 */
module PyDict {

  datatype Dict = Dict(keys: seq<string>, vals: map<string, int>)

  predicate Distinct(ks: seq<string>) {
    forall i, j | 0 <= i < j < |ks| :: ks[i] != ks[j]
  }

  /** Every key is listed once, and the listed keys are the mapped ones. */
  predicate Valid(d: Dict) {
    Distinct(d.keys) && (forall k | k in d.keys :: k in d.vals) && (forall k | k in d.vals :: k in d.keys)
  }

  function Empty(): (d: Dict)
    ensures Valid(d) && d.keys == []
  {
    Dict([], map[])
  }

  /** `d.get(k, 0)`, which is also what reading a `defaultdict(int)` gives. */
  function Get(d: Dict, k: string): int {
    if k in d.vals then d.vals[k] else 0
  }

  /** `d[k] = v`: a new key goes to the end, an existing key keeps its place. */
  function Put(d: Dict, k: string, v: int): (r: Dict)
    requires Valid(d)
    ensures Valid(r)
    ensures forall j :: Get(r, j) == if j == k then v else Get(d, j)
    ensures forall j :: j in r.vals <==> j == k || j in d.vals
    ensures k in d.vals ==> r.keys == d.keys
    ensures k !in d.vals ==> r.keys == d.keys + [k]
  {
    if k in d.vals then Dict(d.keys, d.vals[k := v]) else Dict(d.keys + [k], d.vals[k := v])
  }

  /** `d[k] += v` on a `defaultdict(int)`, or `d[k] = d.get(k, 0) + v`. */
  function Add(d: Dict, k: string, v: int): (r: Dict)
    requires Valid(d)
    ensures Valid(r)
  {
    Put(d, k, Get(d, k) + v)
  }

  /** After `d[k] += v` the keys are those of `d` and `k`. */
  lemma AddKeys(d: Dict, k: string, v: int, j: string)
    requires Valid(d)
    ensures j in Add(d, k, v).vals <==> j == k || j in d.vals
  {
  }

  /** `d` without its most recently inserted key. */
  function DropLast(d: Dict): (r: Dict)
    requires Valid(d) && d.keys != []
    ensures Valid(r)
    ensures r.keys == d.keys[..|d.keys| - 1]
    ensures r.vals == d.vals - {d.keys[|d.keys| - 1]}
  {
    var k := d.keys[|d.keys| - 1];
    var r := Dict(d.keys[..|d.keys| - 1], d.vals - {k});
    assert forall j | j in r.vals :: j in r.keys by {
      forall j | j in r.vals
        ensures j in r.keys
      {
        var i :| 0 <= i < |d.keys| && d.keys[i] == j;
        assert i < |d.keys| - 1;
      }
    }
    r
  }

  /** `d.update(e)`: `e`'s entries put into `d` in `e`'s order. */
  function Update(d: Dict, e: Dict): (r: Dict)
    requires Valid(d) && Valid(e)
    ensures Valid(r)
    ensures forall j :: j in r.vals <==> j in d.vals || j in e.vals
    decreases |e.keys|
  {
    if e.keys == [] then d
    else
      var k := e.keys[|e.keys| - 1];
      var front := DropLast(e);
      Put(Update(d, front), k, e.vals[k])
  }

  /** A key of `e` takes `e`'s value; every other key keeps its value in `d`. */
  lemma {:induction false} UpdateGet(d: Dict, e: Dict, k: string)
    requires Valid(d) && Valid(e)
    ensures Get(Update(d, e), k) == if k in e.vals then e.vals[k] else Get(d, k)
    decreases |e.keys|
  {
    if e.keys != [] {
      var front := DropLast(e);
      UpdateGet(d, front, k);
    }
  }

  /** `{k: v for k, v in d.items() if '.' in k}`: keeps the order of the dotted keys. */
  function FilterDotted(d: Dict): (r: Dict)
    requires Valid(d)
    ensures Valid(r)
    ensures forall k :: k in r.vals <==> k in d.vals && '.' in k
    ensures forall k | k in r.vals :: r.vals[k] == d.vals[k]
    decreases |d.keys|
  {
    if d.keys == [] then Empty()
    else
      var k := d.keys[|d.keys| - 1];
      var front := DropLast(d);
      var rest := FilterDotted(front);
      if '.' in k then Put(rest, k, d.vals[k]) else rest
  }

  /** `d.items()`: key and value pairs in key order. */
  function Items(d: Dict): (r: seq<(string, int)>)
    requires Valid(d)
    ensures |r| == |d.keys|
    ensures forall i :: 0 <= i < |r| ==> r[i] == (d.keys[i], d.vals[d.keys[i]])
  {
    seq(|d.keys|, i requires 0 <= i < |d.keys| => (d.keys[i], d.vals[d.keys[i]]))
  }

  /** The sum of `m[k]` over the keys `ks`. */
  function SumOver(ks: seq<string>, m: map<string, int>): int
    requires forall k | k in ks :: k in m
    decreases |ks|
  {
    if ks == [] then 0 else SumOver(ks[..|ks| - 1], m) + m[ks[|ks| - 1]]
  }

  /** `sum(d.values())`. */
  function Total(d: Dict): int
    requires Valid(d)
  {
    SumOver(d.keys, d.vals)
  }

  lemma {:induction false} SumOverUpdate(ks: seq<string>, m: map<string, int>, k: string, x: int)
    requires Distinct(ks) && k in m
    requires forall j | j in ks :: j in m
    ensures SumOver(ks, m[k := x]) == SumOver(ks, m) + (if k in ks then x - m[k] else 0)
    decreases |ks|
  {
    if ks != [] {
      var front := ks[..|ks| - 1];
      assert forall j | j in front :: j in ks;
      assert Distinct(front);
      SumOverUpdate(front, m, k, x);
      if k == ks[|ks| - 1] {
        assert k !in front;
      }
    }
  }

  lemma {:induction false} SumOverExtend(ks: seq<string>, m: map<string, int>, k: string, x: int)
    requires k !in ks
    requires forall j | j in ks :: j in m
    ensures SumOver(ks, m[k := x]) == SumOver(ks, m)
    decreases |ks|
  {
    if ks != [] {
      var front := ks[..|ks| - 1];
      assert forall j | j in front :: j in ks;
      SumOverExtend(front, m, k, x);
    }
  }

  /** Adding `v` under any key adds `v` to the sum of the values. */
  lemma AddTotal(d: Dict, k: string, v: int)
    requires Valid(d)
    ensures Total(Add(d, k, v)) == Total(d) + v
  {
    if k in d.vals {
      SumOverUpdate(d.keys, d.vals, k, Get(d, k) + v);
    } else {
      var m := d.vals[k := v];
      SumOverExtend(d.keys, d.vals, k, v);
      SumOverSnoc(d.keys, k, m);
    }
  }

  /** One more key at the end adds its value. */
  lemma SumOverSnoc(ks: seq<string>, k: string, m: map<string, int>)
    requires forall j | j in ks :: j in m
    requires k in m
    ensures SumOver(ks + [k], m) == SumOver(ks, m) + m[k]
  {
    assert (ks + [k])[..|ks|] == ks;
  }

}
