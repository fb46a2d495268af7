/** Population: how a contract fills its fields from the input mapping once
    discovery has succeeded, under each of the three policies, and the whole
    construction of an instance (`LazyContract.__init__`). */
module Population {
  import opened Values
  import opened Errors
  import opened Property
  import opened Discovery

  /** A contract instance: its class, its tables, the values held in its
      `__dict__` under the properties' names, and the undeclared attributes a
      `DynamicContract` attaches. */
  datatype Instance = Instance(ctype: ContractType, schema: Schema, store: map<string, Value>,
                               extras: seq<(string, Value)>)

  /** An input key, replaced by the field id it is the external name of. */
  function RemapKey(s: Schema, key: string): string {
    if key in s.mappings then s.mappings[key] else key
  }

  /** The value a field takes from an input value: None is kept as it is, any
      other value goes through the property's `deserialize`, and a failure
      there is re-raised by the contract under path `"." + k`. */
  function Incoming(owner: string, k: string, p: Prop, value: Value, coerce: Coerce): Result<Value> {
    if value.VNone? then Ok(VNone)
    else match Deserialize(p, value, coerce)
      case Err(f) => Err(Rewrap(owner, k, f))
      case Ok(v) => Ok(v)
  }

  /** One input pair: remap the key; skip (`ignore`) or reject a key that names
      no field; otherwise deserialize the value and assign it through the
      validating setter, whose failure is not re-wrapped. */
  function PopulateEntry(owner: string, ignore: bool, s: Schema, store: map<string, Value>,
                         key: string, value: Value, coerce: Coerce): Result<map<string, Value>>
  {
    var k := RemapKey(s, key);
    match Lookup(s.fields, k)
    case None => if ignore then Ok(store) else Err(ValidationError(owner, "." + k, InvalidAttr(k)))
    case Some(p) =>
      match Incoming(owner, k, p, value, coerce)
      case Err(f) => Err(f)
      case Ok(v) => Assign(p, store, v)
  }

  /** The input pairs in order, stopping at the first failure. */
  function PopulateFrom(owner: string, ignore: bool, s: Schema, store: map<string, Value>,
                        entries: seq<(string, Value)>, coerce: Coerce): Result<map<string, Value>>
    decreases |entries|
  {
    if entries == [] then Ok(store)
    else match PopulateEntry(owner, ignore, s, store, entries[0].0, entries[0].1, coerce)
      case Err(f) => Err(f)
      case Ok(store') => PopulateFrom(owner, ignore, s, store', entries[1..], coerce)
  }

  /** Population of a non-empty input, given the outcome `r` of its first
      pair and the store `store'` that pair leaves: a failure there is the
      failure of the whole, and otherwise the rest is populated from `store'`. */
  lemma PopulateFromStep(owner: string, ignore: bool, s: Schema, store: map<string, Value>,
                         entries: seq<(string, Value)>, coerce: Coerce, r: Result<()>, store': map<string, Value>)
    requires entries != []
    requires var e := PopulateEntry(owner, ignore, s, store, entries[0].0, entries[0].1, coerce);
             && (r.Ok? <==> e.Ok?) && (r.Err? ==> r.failure == e.failure) && (r.Ok? ==> store' == e.value)
    ensures r.Err? ==> PopulateFrom(owner, ignore, s, store, entries, coerce) == Err(r.failure)
    ensures r.Ok? ==>
              PopulateFrom(owner, ignore, s, store, entries, coerce) == PopulateFrom(owner, ignore, s, store', entries[1..], coerce)
  {
  }

  /** A key that is a field id or a recorded external name. */
  predicate Declared(s: Schema, key: string) {
    key in KeysOf(s.fields) || key in s.mappings
  }

  /** The pairs of the input whose key is declared, in order. */
  function Contained(s: Schema, entries: seq<(string, Value)>): (r: seq<(string, Value)>)
    ensures forall i :: 0 <= i < |r| ==> Declared(s, r[i].0) && r[i] in entries
    ensures forall i :: 0 <= i < |entries| && Declared(s, entries[i].0) ==> entries[i] in r
  {
    if entries == [] then []
    else (if Declared(s, entries[0].0) then [entries[0]] else []) + Contained(s, entries[1..])
  }

  /** `setattr` of every undeclared input pair onto the instance, in order,
      starting from the attributes `extras`. */
  function AttachUndeclared(s: Schema, extras: seq<(string, Value)>,
                            entries: seq<(string, Value)>): seq<(string, Value)>
    decreases |entries|
  {
    if entries == [] then extras
    else
      var extras' := if Declared(s, entries[0].0) then extras else Put(extras, entries[0].0, entries[0].1);
      AttachUndeclared(s, extras', entries[1..])
  }

  /** Attachment from a non-empty input: its first pair, then the rest. */
  lemma AttachUndeclaredStep(s: Schema, extras: seq<(string, Value)>, entries: seq<(string, Value)>)
    requires entries != []
    ensures AttachUndeclared(s, extras, entries)
         == AttachUndeclared(s, if Declared(s, entries[0].0) then extras else Put(extras, entries[0].0, entries[0].1),
                             entries[1..])
  {
  }

  /** `_populate_properties` of contract class `ct` with schema `s`. A
      `DynamicContract` populates from its declared pairs only, then attaches
      the others. */
  function Populate(ct: ContractType, s: Schema, src: Value, coerce: Coerce): Result<Instance> {
    var owner := TypeName(ct);
    if !IsMapping(src) then Err(ValidationError(owner, "", NotADict))
    else if ct.policy == Dynamic then
      match PopulateFrom(owner, true, s, map[], Contained(s, src.entries), coerce)
      case Err(f) => Err(f)
      case Ok(store) => Ok(Instance(ct, s, store, AttachUndeclared(s, [], src.entries)))
    else
      match PopulateFrom(owner, ct.policy == Lenient, s, map[], src.entries, coerce)
      case Err(f) => Err(f)
      case Ok(store) => Ok(Instance(ct, s, store, []))
  }

  /** The mapping construction reads: `_obj or kwargs`. */
  function Source(obj: Value, kwargs: seq<(string, Value)>): Value {
    if Truthy(obj) then obj else VDict(kwargs)
  }

  /** `LazyContract.__init__(_obj, **kwargs)` of contract class `ct`. `obj` is
      `VNone` when `_obj` is not given. */
  function Build(ct: ContractType, obj: Value, kwargs: seq<(string, Value)>, coerce: Coerce): (r: Result<Instance>)
    ensures !obj.VNone? && kwargs != [] ==> r == Err(ConfigError(BothObjAndKwargs))
    ensures r.Ok? ==> r.value.ctype == ct && IsMapping(Source(obj, kwargs))
  {
    if !obj.VNone? && kwargs != [] then Err(ConfigError(BothObjAndKwargs))
    else
      var src := Source(obj, kwargs);
      match Discover(ct, src)
      case Err(f) => Err(f)
      case Ok(s) => Populate(ct, s, src, coerce)
  }
}
