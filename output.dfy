/** What a built contract offers: iteration over its fields with their
    values, conversion back into a mapping (`to_dict`), and equality. */
module Output {
  import opened Values
  import opened Errors
  import opened Property
  import opened Discovery
  import opened Population

  /** `__iter_properties`, run to the end: each field id with its property and
      the value `getattr` reads, which is validated again; the first read that
      fails raises. */
  function TriplesOf(fields: seq<(string, Prop)>, store: map<string, Value>): (r: Result<seq<(string, Prop, Value)>>)
    ensures r.Ok? <==> forall i :: 0 <= i < |fields| ==> Conforms(fields[i].1, Stored(fields[i].1, store))
    ensures r.Ok? ==> |r.value| == |fields|
    ensures r.Ok? ==> forall i :: 0 <= i < |fields| ==>
                        r.value[i] == (fields[i].0, fields[i].1, Stored(fields[i].1, store))
    ensures r.Err? ==> exists i :: && 0 <= i < |fields| && !Conforms(fields[i].1, Stored(fields[i].1, store))
                                   && (forall j :: 0 <= j < i ==> Conforms(fields[j].1, Stored(fields[j].1, store)))
                                   && r.failure == Validate(fields[i].1, Stored(fields[i].1, store)).failure
  {
    if fields == [] then Ok([])
    else match Get(fields[0].1, store)
      case Err(f) => Err(f)
      case Ok(v) =>
        match TriplesOf(fields[1..], store)
        case Err(f) => Err(f)
        case Ok(rest) => Ok([(fields[0].0, fields[0].1, v)] + rest)
  }

  function Triples(inst: Instance): Result<seq<(string, Prop, Value)>> {
    TriplesOf(inst.schema.fields, inst.store)
  }

  /** An external name starting with an underscore is private. */
  predicate Private(name: string) {
    |name| > 0 && name[0] == '_'
  }

  /** Whether `to_dict` emits a field holding `v`. */
  predicate Included(p: Prop, v: Value) {
    !Private(p.name) && (!v.VNone? || !p.excludeIfNone)
  }

  /** The `to_dict` comprehension from the dictionary `acc` on: each included
      field under its external name, with its serialized value. */
  function DictFrom(acc: seq<(string, Value)>, ts: seq<(string, Prop, Value)>): seq<(string, Value)>
    decreases |ts|
  {
    if ts == [] then acc
    else
      var acc' := if Included(ts[0].1, ts[0].2) then Put(acc, ts[0].1.name, Serialize(ts[0].1, ts[0].2)) else acc;
      DictFrom(acc', ts[1..])
  }

  /** `to_dict`. */
  function ToDict(inst: Instance): (r: Result<seq<(string, Value)>>)
    ensures r.Ok? <==> Triples(inst).Ok?
    ensures r.Err? ==> r.failure == Triples(inst).failure
  {
    match Triples(inst)
    case Err(f) => Err(f)
    case Ok(ts) => Ok(DictFrom([], ts))
  }

  /** Python's `==` on two triples `(id, property, value)`: element by
      element, the values under Python's `==`. */
  predicate SameTriple(s: (string, Prop, Value), t: (string, Prop, Value)) {
    s.0 == t.0 && s.1 == t.1 && PyEq(s.2, t.2)
  }

  /** `all(map(==, zip(a's triples, b's triples)))` from field `i` on, as
      lazily as Python runs it: `a`'s value is read before `b`'s, the walk
      stops when either side runs out or at the first unequal pair, and a read
      that fails raises. */
  function EqFrom(a: Instance, b: Instance, i: nat): Result<bool>
    decreases |a.schema.fields| - i
  {
    if i >= |a.schema.fields| then Ok(true)
    else
      var (ida, pa) := a.schema.fields[i];
      match Get(pa, a.store)
      case Err(f) => Err(f)
      case Ok(va) =>
        if i >= |b.schema.fields| then Ok(true)
        else
          var (idb, pb) := b.schema.fields[i];
          match Get(pb, b.store)
          case Err(f) => Err(f)
          case Ok(vb) => if SameTriple((ida, pa, va), (idb, pb, vb)) then EqFrom(a, b, i + 1) else Ok(false)
  }

  /** `a.__eq__(b)`: `b` must be an instance of `a`'s class, then the fields
      are compared pairwise. */
  function Equal(a: Instance, b: Instance): Result<bool> {
    if IsInstanceOf(b.ctype, a.ctype) then EqFrom(a, b, 0) else Ok(false)
  }

  /** `a.__ne__(b)`: the negation of `a.__eq__(b)`. */
  function NotEqual(a: Instance, b: Instance): (r: Result<bool>)
    ensures r.Ok? <==> Equal(a, b).Ok?
    ensures r.Ok? ==> r.value == !Equal(a, b).value
    ensures r.Err? ==> r.failure == Equal(a, b).failure
  {
    match Equal(a, b)
    case Err(f) => Err(f)
    case Ok(e) => Ok(!e)
  }

  /** Whether the operators `==` and `!=` on `a` and `b` call the right
      operand's method first: its class is a proper subclass of the left
      operand's. */
  predicate Reflected(a: Instance, b: Instance) {
    TypeName(b.ctype) != TypeName(a.ctype) && IsInstanceOf(b.ctype, a.ctype)
  }

  /** The operator `a == b`. When `Reflected(a, b)`, Python calls
      `b.__eq__(a)` first, and since `LazyContract.__eq__` never returns
      `NotImplemented` its answer is final; otherwise it is `a.__eq__(b)`. */
  function EqOperator(a: Instance, b: Instance): Result<bool> {
    if Reflected(a, b) then Equal(b, a) else Equal(a, b)
  }

  /** The operator `a != b`, dispatched like `==`: the negation of `a == b`. */
  function NeOperator(a: Instance, b: Instance): (r: Result<bool>)
    ensures r.Ok? <==> EqOperator(a, b).Ok?
    ensures r.Ok? ==> r.value == !EqOperator(a, b).value
    ensures r.Err? ==> r.failure == EqOperator(a, b).failure
  {
    if Reflected(a, b) then NotEqual(b, a) else NotEqual(a, b)
  }
}
