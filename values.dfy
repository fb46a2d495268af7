/** Values the contract layer handles, Python's `isinstance` on them, and the
    insertion-ordered dictionaries that the contract layer builds and walks. */
module Values {

  datatype Option<T> = None | Some(value: T)

  /** A Python value as the contract layer sees it. `VObj` is an instance of a
      contract class: the names of the classes in its ancestry (for
      `isinstance`) and a snapshot of its attributes. */
  datatype Value =
    | VNone
    | VBool(b: bool)
    | VInt(i: int)
    | VStr(s: string)
    | VList(items: seq<Value>)
    | VDict(entries: seq<(string, Value)>)
    | VObj(ancestry: seq<string>, attrs: seq<(string, Value)>)

  /** The semantic type a property declares (its `_type`). The base property's
      `_type` is `type(None)`, which is `TNone`. */
  datatype Tag = TNone | TBool | TInt | TStr | TList | TDict | TContract(name: string)

  /** `isinstance(v, t)`. In Python `bool` is a subclass of `int`, so a boolean
      is an instance of `int` as well. */
  predicate HasType(v: Value, t: Tag) {
    match t
    case TNone => v.VNone?
    case TBool => v.VBool?
    case TInt => v.VInt? || v.VBool?
    case TStr => v.VStr?
    case TList => v.VList?
    case TDict => v.VDict?
    case TContract(n) => v.VObj? && n in v.ancestry
  }

  /** `hasattr(v, "items")`: only dictionaries have it. */
  predicate IsMapping(v: Value) {
    v.VDict?
  }

  /** Python truth value. A contract instance defines neither `__bool__` nor
      `__len__`, so it is always true. */
  predicate Truthy(v: Value) {
    match v
    case VNone => false
    case VBool(b) => b
    case VInt(i) => i != 0
    case VStr(s) => s != ""
    case VList(items) => items != []
    case VDict(entries) => entries != []
    case VObj(_, _) => true
  }

  /** The keys of an insertion-ordered dictionary. */
  function KeysOf<V>(m: seq<(string, V)>): (ks: set<string>)
    ensures forall i :: 0 <= i < |m| ==> m[i].0 in ks
    ensures forall k :: k in ks ==> exists i :: 0 <= i < |m| && m[i].0 == k
  {
    if m == [] then {} else {m[0].0} + KeysOf(m[1..])
  }

  /** A Python dictionary never holds the same key twice. */
  predicate UniqueKeys<V>(m: seq<(string, V)>) {
    forall i, j :: 0 <= i < j < |m| ==> m[i].0 != m[j].0
  }

  /** Where `k` first occurs among the keys. */
  function IndexOf<V>(m: seq<(string, V)>, k: string): (i: nat)
    requires k in KeysOf(m)
    ensures i < |m| && m[i].0 == k
    ensures forall j :: 0 <= j < i ==> m[j].0 != k
  {
    if m[0].0 == k then 0 else 1 + IndexOf(m[1..], k)
  }

  /** `d.get(k)`: the value held under `k`, if any. */
  function Lookup<V>(m: seq<(string, V)>, k: string): (r: Option<V>)
    ensures r.Some? <==> k in KeysOf(m)
    ensures r.Some? ==> (k, r.value) in m
  {
    if k in KeysOf(m) then Some(m[IndexOf(m, k)].1) else None
  }

  /** `d[k] = v`: a key already present keeps its position and takes the new
      value; a new key goes at the end. */
  function Put<V>(m: seq<(string, V)>, k: string, v: V): (r: seq<(string, V)>)
    ensures KeysOf(r) == KeysOf(m) + {k}
    ensures Lookup(r, k) == Some(v)
    ensures forall k' :: k' != k ==> Lookup(r, k') == Lookup(m, k')
    ensures UniqueKeys(m) ==> UniqueKeys(r)
    ensures k in KeysOf(m) ==> |r| == |m| && forall i :: 0 <= i < |m| ==> r[i].0 == m[i].0
    ensures k !in KeysOf(m) ==> r == m + [(k, v)]
  {
    if k in KeysOf(m) then
      PutExisting(m, k, v);
      m[IndexOf(m, k) := (k, v)]
    else
      PutNew(m, k, v);
      m + [(k, v)]
  }

  /** Overwriting the value of a key already present. */
  lemma PutExisting<V>(m: seq<(string, V)>, k: string, v: V)
    requires k in KeysOf(m)
    ensures var r := m[IndexOf(m, k) := (k, v)];
            && KeysOf(r) == KeysOf(m)
            && Lookup(r, k) == Some(v)
            && (forall k' :: k' != k ==> Lookup(r, k') == Lookup(m, k'))
            && (UniqueKeys(m) ==> UniqueKeys(r))
            && |r| == |m| && (forall i :: 0 <= i < |m| ==> r[i].0 == m[i].0)
  {
    var r := m[IndexOf(m, k) := (k, v)];
    SameKeys(m, r);
  }

  /** Appending a key not yet present. */
  lemma PutNew<V>(m: seq<(string, V)>, k: string, v: V)
    requires k !in KeysOf(m)
    ensures var r := m + [(k, v)];
            && KeysOf(r) == KeysOf(m) + {k}
            && Lookup(r, k) == Some(v)
            && (forall k' :: k' != k ==> Lookup(r, k') == Lookup(m, k'))
            && (UniqueKeys(m) ==> UniqueKeys(r))
  {
    var r := m + [(k, v)];
    Appended(m, k, v);
    assert r[|m|] == (k, v);
    forall k' | k' != k ensures Lookup(r, k') == Lookup(m, k') {
      if k' in KeysOf(m) {
        assert r[IndexOf(m, k')] == m[IndexOf(m, k')];
      }
    }
    if UniqueKeys(m) {
      forall i, j | 0 <= i < j < |r| ensures r[i].0 != r[j].0 {
        if j == |m| {
          assert m[i].0 in KeysOf(m);
        }
      }
    }
  }

  /** Two dictionaries with the same keys in the same positions find every key
      at the same index. */
  lemma SameKeys<V>(a: seq<(string, V)>, b: seq<(string, V)>)
    requires |a| == |b| && forall i :: 0 <= i < |a| ==> a[i].0 == b[i].0
    ensures KeysOf(a) == KeysOf(b)
    ensures forall k :: k in KeysOf(a) ==> IndexOf(a, k) == IndexOf(b, k)
  {
    forall k | k in KeysOf(a) ensures k in KeysOf(b) && IndexOf(a, k) == IndexOf(b, k) {
      var i := IndexOf(a, k);
      assert b[i].0 == k;
      var j := IndexOf(b, k);
      assert a[j].0 == k;
    }
    forall k | k in KeysOf(b) ensures k in KeysOf(a) {
      var i := IndexOf(b, k);
      assert a[i].0 == k;
    }
  }

  /** Appending a new key leaves every other key where it was. */
  lemma Appended<V>(m: seq<(string, V)>, k: string, v: V)
    requires k !in KeysOf(m)
    ensures KeysOf(m + [(k, v)]) == KeysOf(m) + {k}
    ensures IndexOf(m + [(k, v)], k) == |m|
    ensures forall k' :: k' in KeysOf(m) ==> IndexOf(m + [(k, v)], k') == IndexOf(m, k')
  {
    var r := m + [(k, v)];
    assert forall j :: 0 <= j < |m| ==> r[j] == m[j];
    assert r[|m|].0 == k;
    assert k in KeysOf(r);
    forall j | 0 <= j < |m| ensures r[j].0 != k {
      assert m[j].0 in KeysOf(m);
    }
    forall k' | k' in KeysOf(r) ensures k' in KeysOf(m) + {k} {
      var i := IndexOf(r, k');
      if i < |m| { assert m[i].0 == k'; }
    }
    forall k' | k' in KeysOf(m) ensures k' in KeysOf(r) && IndexOf(r, k') == IndexOf(m, k') {
      var i := IndexOf(m, k');
      assert r[i].0 == k';
    }
  }

  /** The integer a number compares as: `True` is 1 and `False` is 0. */
  function AsInt(v: Value): (n: int)
    requires v.VInt? || v.VBool?
    ensures v.VInt? ==> n == v.i
    ensures v.VBool? ==> (n == 1 <==> v.b) && (n == 0 <==> !v.b)
  {
    if v.VBool? then (if v.b then 1 else 0) else v.i
  }

  /** Python's `==` on values. `bool` is a subclass of `int`, so `True == 1`
      and `False == 0`; lists compare element by element; dictionaries compare
      as mappings, whatever their insertion order; a contract instance is
      compared only with an identical snapshot of itself. */
  predicate PyEq(x: Value, y: Value)
    decreases x
  {
    match x
    case VNone => y.VNone?
    case VBool(_) => (y.VInt? || y.VBool?) && AsInt(x) == AsInt(y)
    case VInt(_) => (y.VInt? || y.VBool?) && AsInt(x) == AsInt(y)
    case VStr(s) => y.VStr? && y.s == s
    case VList(xs) =>
      && y.VList? && |xs| == |y.items|
      && forall i :: 0 <= i < |xs| ==> PyEq(xs[i], y.items[i])
    case VDict(m) =>
      && y.VDict? && KeysOf(m) == KeysOf(y.entries)
      && forall k :: k in KeysOf(m) ==> PyEq(m[IndexOf(m, k)].1, y.entries[IndexOf(y.entries, k)].1)
    case VObj(_, _) => x == y
  }

  /** Every value is `==` to itself. */
  lemma {:induction false} PyEqReflexive(x: Value)
    ensures PyEq(x, x)
    decreases x
  {
    match x
    case VList(xs) =>
      forall i | 0 <= i < |xs| ensures PyEq(xs[i], xs[i]) {
        PyEqReflexive(xs[i]);
      }
    case VDict(m) =>
      forall k | k in KeysOf(m) ensures PyEq(m[IndexOf(m, k)].1, m[IndexOf(m, k)].1) {
        PyEqReflexive(m[IndexOf(m, k)].1);
      }
    case _ =>
  }

  /** `==` on values is symmetric. */
  lemma {:induction false} PyEqSymmetric(x: Value, y: Value)
    requires PyEq(x, y)
    ensures PyEq(y, x)
    decreases x
  {
    match x
    case VList(xs) =>
      forall i | 0 <= i < |xs| ensures PyEq(y.items[i], xs[i]) {
        PyEqSymmetric(xs[i], y.items[i]);
      }
    case VDict(m) =>
      var n := y.entries;
      forall k | k in KeysOf(n) ensures PyEq(n[IndexOf(n, k)].1, m[IndexOf(m, k)].1) {
        PyEqSymmetric(m[IndexOf(m, k)].1, n[IndexOf(n, k)].1);
      }
    case _ =>
  }
}
