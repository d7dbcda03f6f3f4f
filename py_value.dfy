/** Dynamic Python values as the test services see them (JSON-like data
    read from test-case tables), and `dict`s as insertion-ordered
    association lists with string keys. */
module PyValue {
  import opened Wrappers

  datatype Value =
    | PyNone
    | PyBool(b: bool)
    | PyInt(i: int)
    | PyFloat(r: real)
    | PyStr(s: string)
    | PyList(items: seq<Value>)
    | PyDict(entries: seq<(string, Value)>)
      /** An instance of a user class built from a dict of attributes. */
    | PyObject(cls: string, attrs: seq<(string, Value)>)

  /** A dict: keys in insertion order, each with its value. */
  type Dict<V> = seq<(string, V)>

  function Keys<V>(d: Dict<V>): (ks: seq<string>)
    ensures |ks| == |d|
    ensures forall i :: 0 <= i < |d| ==> ks[i] == d[i].0
  {
    if d == [] then [] else [d[0].0] + Keys(d[1..])
  }

  predicate HasKey<V>(d: Dict<V>, k: string) {
    exists i :: 0 <= i < |d| && d[i].0 == k
  }

  predicate DistinctKeys<V>(d: Dict<V>) {
    forall i, j :: 0 <= i < j < |d| ==> d[i].0 != d[j].0
  }

  /** `d.get(k)`: the value stored under `k`, if any. */
  function Get<V>(d: Dict<V>, k: string): (r: Option<V>)
    ensures r.None? <==> !HasKey(d, k)
    ensures r.Some? ==> exists i :: 0 <= i < |d| && d[i] == (k, r.value)
  {
    if d == [] then None
    else if d[0].0 == k then Some(d[0].1)
    else
      var r := Get(d[1..], k);
      assert HasKey(d, k) ==> HasKey(d[1..], k) by {
        if HasKey(d, k) {
          var i :| 0 <= i < |d| && d[i].0 == k;
          assert d[1..][i - 1].0 == k;
        }
      }
      assert r.Some? ==> exists i :: 0 <= i < |d| && d[i] == (k, r.value) by {
        if r.Some? {
          var i :| 0 <= i < |d| - 1 && d[1..][i] == (k, r.value);
          assert d[i + 1] == (k, r.value);
        }
      }
      r
  }

  /** `d[k] = v`: overwrite in place when `k` is present, append otherwise. */
  function Set<V>(d: Dict<V>, k: string, v: V): (r: Dict<V>)
    ensures HasKey(d, k) ==> |r| == |d| && Keys(r) == Keys(d)
    ensures !HasKey(d, k) ==> r == d + [(k, v)]
  {
    if d == [] then [(k, v)]
    else if d[0].0 == k then [(k, v)] + d[1..]
    else
      assert HasKey(d[1..], k) <==> HasKey(d, k) by {
        if HasKey(d, k) {
          var i :| 0 <= i < |d| && d[i].0 == k;
          assert d[1..][i - 1].0 == k;
        }
        if HasKey(d[1..], k) {
          var i :| 0 <= i < |d| - 1 && d[1..][i].0 == k;
          assert d[i + 1].0 == k;
        }
      }
      [d[0]] + Set(d[1..], k, v)
  }

  /** Reading a key just written gives the written value; other keys keep
      their values. */
  lemma {:induction false} GetSet<V>(d: Dict<V>, k: string, v: V, k2: string)
    ensures Get(Set(d, k, v), k2) == if k2 == k then Some(v) else Get(d, k2)
  {
    if d != [] && d[0].0 != k {
      GetSet(d[1..], k, v, k2);
      assert Set(d, k, v)[1..] == Set(d[1..], k, v);
    }
  }

  /** Appending an entry answers for its key only where the dict had none. */
  lemma {:induction false} GetAppend<V>(d: Dict<V>, k: string, v: V, k2: string)
    ensures Get(d + [(k, v)], k2) == if HasKey(d, k2) then Get(d, k2) else if k2 == k then Some(v) else None
  {
    if d != [] {
      assert (d + [(k, v)])[1..] == d[1..] + [(k, v)];
      GetAppend(d[1..], k, v, k2);
      if d[0].0 != k2 && HasKey(d, k2) {
        var i :| 0 <= i < |d| && d[i].0 == k2;
        assert d[1..][i - 1].0 == k2;
      }
    }
  }

  /** `{**a, **b}`: `a` overridden key by key by `b`. */
  function Merge<V>(a: Dict<V>, b: Dict<V>): Dict<V>
    decreases |b|
  {
    if b == [] then a else Merge(Set(a, b[0].0, b[0].1), b[1..])
  }

  /** A merged dict answers from `b` where `b` has the key, else from `a`. */
  lemma {:induction false} GetMerge<V>(a: Dict<V>, b: Dict<V>, k: string)
    requires DistinctKeys(b)
    ensures Get(Merge(a, b), k) == if HasKey(b, k) then Get(b, k) else Get(a, k)
    decreases |b|
  {
    if b != [] {
      GetMerge(Set(a, b[0].0, b[0].1), b[1..], k);
      GetSet(a, b[0].0, b[0].1, k);
      if HasKey(b, k) && b[0].0 != k {
        var i :| 0 <= i < |b| && b[i].0 == k;
        assert b[1..][i - 1].0 == k;
      }
      if HasKey(b[1..], k) {
        var i :| 0 <= i < |b| - 1 && b[1..][i].0 == k;
        assert b[i + 1].0 == k;
        assert b[0].0 != k;
      }
    }
  }

  /** `counter[k] += 1` on a counting dict (a `defaultdict(int)`). */
  function Increment(d: Dict<nat>, k: string): Dict<nat> {
    Set(d, k, Get(d, k).GetOr(0) + 1)
  }

  /** The sum of a counting dict's values. */
  function SumValues(d: Dict<nat>): nat
    decreases |d|
  {
    if d == [] then 0 else d[0].1 + SumValues(d[1..])
  }

  lemma {:induction false} SumValuesSet(d: Dict<nat>, k: string, v: nat)
    ensures SumValues(Set(d, k, v)) + Get(d, k).GetOr(0) == SumValues(d) + v
    decreases |d|
  {
    if d != [] && d[0].0 != k {
      SumValuesSet(d[1..], k, v);
    }
  }

  /** Incrementing one key adds one to the total. */
  lemma IncrementSum(d: Dict<nat>, k: string)
    ensures SumValues(Increment(d, k)) == SumValues(d) + 1
  {
    SumValuesSet(d, k, Get(d, k).GetOr(0) + 1);
  }

  /** Python truthiness. */
  predicate Truthy(v: Value) {
    match v
    case PyNone => false
    case PyBool(b) => b
    case PyInt(i) => i != 0
    case PyFloat(r) => r != 0.0
    case PyStr(s) => s != []
    case PyList(xs) => xs != []
    case PyDict(es) => es != []
    case PyObject(_, _) => true
  }

  /** `isinstance(v, (int, float))` — `bool` is a subclass of `int`. */
  predicate IsNumber(v: Value) {
    v.PyBool? || v.PyInt? || v.PyFloat?
  }

  /** The numeric value of a number (`True` is 1). */
  function NumValue(v: Value): real
    requires IsNumber(v)
  {
    match v
    case PyBool(b) => if b then 1.0 else 0.0
    case PyInt(i) => i as real
    case PyFloat(r) => r
  }

  /** Python's `==`: numbers compare by value across bool/int/float, lists
      element-wise, dicts key by key regardless of order. Instances are
      compared by their class and attributes, as a class defining `__eq__`
      over its fields would; Python's default `==` compares them by
      identity instead. */
  predicate Eq(x: Value, y: Value)
    decreases x
  {
    if IsNumber(x) || IsNumber(y) then IsNumber(x) && IsNumber(y) && NumValue(x) == NumValue(y)
    else match x
      case PyNone => y.PyNone?
      case PyStr(s) => y == PyStr(s)
      case PyList(xs) =>
        y.PyList? && |xs| == |y.items| && forall i :: 0 <= i < |xs| ==> Eq(xs[i], y.items[i])
      case PyDict(es) =>
        y.PyDict? && |es| == |y.entries| && DictEq(es, y.entries, x)
      case PyObject(c, as_) =>
        y.PyObject? && y.cls == c && |as_| == |y.attrs| && DictEq(as_, y.attrs, x)
  }

  predicate DictEq(es: Dict<Value>, fs: Dict<Value>, ghost parent: Value)
    requires forall i :: 0 <= i < |es| ==> es[i].1 < parent
    decreases parent, 0
  {
    forall i :: 0 <= i < |es| ==>
      match Get(fs, es[i].0)
      case Some(w) => Eq(es[i].1, w)
      case None => false
  }

  /** Values whose dicts never repeat a key, as any JSON-decoded value. */
  predicate WellFormed(v: Value)
    decreases v
  {
    match v
    case PyList(xs) => forall i :: 0 <= i < |xs| ==> WellFormed(xs[i])
    case PyDict(es) => DistinctKeys(es) && forall i :: 0 <= i < |es| ==> WellFormed(es[i].1)
    case PyObject(_, as_) => DistinctKeys(as_) && forall i :: 0 <= i < |as_| ==> WellFormed(as_[i].1)
    case _ => true
  }

  lemma GetDistinct<V>(d: Dict<V>, i: int)
    requires DistinctKeys(d) && 0 <= i < |d|
    ensures Get(d, d[i].0) == Some(d[i].1)
  {
    if i > 0 {
      assert d[0].0 != d[i].0;
      GetDistinct(d[1..], i - 1);
    }
  }

  /** `==` is reflexive on well-formed values. */
  lemma {:induction false} EqRefl(v: Value)
    requires WellFormed(v)
    ensures Eq(v, v)
    decreases v
  {
    match v
    case PyList(xs) =>
      forall i | 0 <= i < |xs| ensures Eq(xs[i], xs[i]) { EqRefl(xs[i]); }
    case PyDict(es) =>
      forall i | 0 <= i < |es| ensures Get(es, es[i].0) == Some(es[i].1) && Eq(es[i].1, es[i].1) {
        GetDistinct(es, i);
        EqRefl(es[i].1);
      }
    case PyObject(c, as_) =>
      forall i | 0 <= i < |as_| ensures Get(as_, as_[i].0) == Some(as_[i].1) && Eq(as_[i].1, as_[i].1) {
        GetDistinct(as_, i);
        EqRefl(as_[i].1);
      }
    case _ =>
  }
}
