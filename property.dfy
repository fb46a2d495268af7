/** `LazyProperty`: a typed slot declared on a contract class. It checks its
    configuration once, validates nullability and type on every read and every
    write, and offers the `serialize`/`deserialize` hooks. */
module Property {
  import opened Values
  import opened Errors

  /** The name a property carries until discovery gives it its field's name. */
  const AnonName: string := "(anonymous)"

  /** A property descriptor. `cls` is the name of its property class (the type
      named by its validation errors), `tag` its `_type`, `name` its external
      name, and `owner` the contract class whose body declares it ("" while it
      is not yet attached to a class); `owner` stands for the identity of the
      descriptor object. */
  datatype Prop = Prop(
    cls: string,
    tag: Tag,
    name: string,
    default: Value,
    required: bool,
    notNone: bool,
    excludeIfNone: bool,
    owner: string)

  /** `LazyProperty.__init__`: a required property must not have a default
      other than None, whatever its other flags are. A missing or empty name
      leaves the property anonymous. */
  function NewProp(cls: string, tag: Tag, name: Option<string>, default: Value,
                   required: bool, notNone: bool, excludeIfNone: bool): (r: Result<Prop>)
    ensures r.Err? <==> required && default != VNone
    ensures r.Err? ==> r.failure == ConfigError(DefaultForRequired)
    ensures r.Ok? ==> r.value.name == (if name.None? || name.value == "" then AnonName else name.value)
    ensures r.Ok? ==> r.value.cls == cls && r.value.tag == tag && r.value.default == default
    ensures r.Ok? ==> r.value.required == required && r.value.notNone == notNone
    ensures r.Ok? ==> r.value.excludeIfNone == excludeIfNone && r.value.owner == ""
  {
    if required && default != VNone then Err(ConfigError(DefaultForRequired))
    else
      var n := if name.None? || name.value == "" then AnonName else name.value;
      Ok(Prop(cls, tag, n, default, required, notNone, excludeIfNone, ""))
  }

  /** The descriptor as discovery leaves it once it is bound to field `id` of
      class `cls`: an anonymous property takes the field's name. */
  function Bind(p: Prop, id: string, cls: string): (q: Prop)
    ensures q.name == (if p.name == AnonName then id else p.name)
    ensures q == p.(name := q.name, owner := cls)
  {
    p.(name := if p.name == AnonName then id else p.name, owner := cls)
  }

  /** What every value stored in or read from the slot satisfies: None only if
      the property allows None, and otherwise an instance of its type. */
  predicate Conforms(p: Prop, v: Value) {
    (v.VNone? ==> !p.notNone) && (!v.VNone? ==> HasType(v, p.tag))
  }

  /** `validate`: a None on a not-none property fails with an empty path; any
      other value not of the property's type fails with path `"." + name`. */
  function Validate(p: Prop, v: Value): (r: Result<()>)
    ensures r.Ok? <==> Conforms(p, v)
    ensures r.Err? ==> r.failure.ValidationError? && r.failure.owner == p.cls
    ensures r.Err? && v.VNone? ==> r.failure.path == "" && r.failure.reason == NotNone(p.name)
    ensures r.Err? && !v.VNone? ==> r.failure.path == "." + p.name && r.failure.reason == AttrType
  {
    if v.VNone? && p.notNone then Err(ValidationError(p.cls, "", NotNone(p.name)))
    else if !HasType(v, p.tag) && !v.VNone? then Err(ValidationError(p.cls, "." + p.name, AttrType))
    else Ok(())
  }

  /** The value `__get__` looks up: the stored one, else the default. */
  function Stored(p: Prop, store: map<string, Value>): Value {
    if p.name in store then store[p.name] else p.default
  }

  /** `__get__`: the stored value or the default, validated again on the way out. */
  function Get(p: Prop, store: map<string, Value>): (r: Result<Value>)
    ensures r.Ok? <==> Conforms(p, Stored(p, store))
    ensures r.Ok? ==> r.value == Stored(p, store)
    ensures r.Err? ==> r == Err(Validate(p, Stored(p, store)).failure)
  {
    var v := Stored(p, store);
    match Validate(p, v)
    case Err(f) => Err(f)
    case Ok(_) => Ok(v)
  }

  /** `__set__`: the value is stored under the property's name only if it
      validates; otherwise nothing is stored. */
  function Assign(p: Prop, store: map<string, Value>, v: Value): (r: Result<map<string, Value>>)
    ensures r.Ok? <==> Conforms(p, v)
    ensures r.Ok? ==> r.value == store[p.name := v]
    ensures r.Err? ==> r.failure == Validate(p, v).failure
  {
    match Validate(p, v)
    case Err(f) => Err(f)
    case Ok(_) => Ok(store[p.name := v])
  }

  /** `serialize`: the base property hands the value out unchanged. */
  function Serialize(p: Prop, v: Value): (r: Value)
    ensures r == v
    ensures Conforms(p, v) ==> Conforms(p, r)
  {
    v
  }

  /** A type's constructor `_type(obj)`, called by `deserialize` on a value
      that is not yet of the type. It is arbitrary code, so it is a parameter. */
  type Coerce = (Tag, Value) -> Result<Value>

  /** `deserialize`: a value already of the property's type is kept as it is;
      any other is handed to the type's constructor, whose failure propagates. */
  function Deserialize(p: Prop, v: Value, coerce: Coerce): (r: Result<Value>)
    ensures HasType(v, p.tag) ==> r == Ok(v)
    ensures !HasType(v, p.tag) ==> r == coerce(p.tag, v)
  {
    if HasType(v, p.tag) then Ok(v) else coerce(p.tag, v)
  }

  /** A successful write is what the next read returns. */
  lemma GetAfterAssign(p: Prop, store: map<string, Value>, v: Value)
    requires Assign(p, store, v).Ok?
    ensures Get(p, Assign(p, store, v).value) == Ok(v)
  {
  }

  /** `deserialize` undoes `serialize` for every value of the property's type. */
  lemma DeserializeSerialize(p: Prop, v: Value, coerce: Coerce)
    requires HasType(v, p.tag)
    ensures Deserialize(p, Serialize(p, v), coerce) == Ok(v)
  {
  }
}
