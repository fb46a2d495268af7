/** `LazyContract` as an object: the tables that `__init__` and discovery fill
    in, the values its properties store in the instance's `__dict__`, and the
    attributes a `DynamicContract` attaches. Each method is proved to leave the
    object in the state the functional model in `Population` describes. */
module Contracts {
  import opened Values
  import opened Errors
  import opened Property
  import opened Discovery
  import opened Population

  class Contract {
    /** The concrete contract class of this instance. */
    const ctype: ContractType
    /** `_properties`: field id to property, in insertion order. */
    var fields: seq<(string, Prop)>
    /** `_mappings`: external name to field id. */
    var mappings: map<string, string>
    /** The values the properties hold in `__dict__`, under their names. */
    var store: map<string, Value>
    /** Undeclared attributes set by `DynamicContract`, in insertion order. */
    var extras: seq<(string, Value)>

    function Tables(): Schema
      reads this`fields, this`mappings
    {
      Schema(fields, mappings)
    }

    /** The instance as a value. */
    function View(): Instance
      reads this
    {
      Instance(ctype, Tables(), store, extras)
    }

    /** A freshly allocated instance, before `__init__` runs. */
    constructor (ct: ContractType)
      ensures ctype == ct
      ensures View() == Instance(ct, Schema([], map[]), map[], [])
    {
      ctype := ct;
      fields, mappings := [], map[];
      store, extras := map[], [];
    }

    /** `LazyContract.__init__`: refuse both `_obj` and keyword arguments, run
        discovery class by class from the most-base one, then populate by the
        class's policy. */
    method Init(obj: Value, kwargs: seq<(string, Value)>, coerce: Coerce) returns (r: Result<()>)
      requires store == map[] && extras == []
      modifies this
      ensures r.Ok? <==> Build(ctype, obj, kwargs, coerce).Ok?
      ensures r.Err? ==> r.failure == Build(ctype, obj, kwargs, coerce).failure
      ensures r.Ok? ==> View() == Build(ctype, obj, kwargs, coerce).value
    {
      if !obj.VNone? && kwargs != [] {
        return Err(ConfigError(BothObjAndKwargs));
      }
      fields, mappings := [], map[];
      var src := Source(obj, kwargs);
      r := DiscoverChain(src);
      if r.Err? {
        return;
      }
      r := PopulateByPolicy(src, coerce);
    }

    /** The population step of `__init__`, by the class's policy: the
        `_populate_properties` of `DynamicContract` or that of `LazyContract`,
        which skips unknown keys unless the class is a `StrictContract`. */
    method PopulateByPolicy(src: Value, coerce: Coerce) returns (r: Result<()>)
      requires store == map[] && extras == []
      modifies this`store, this`extras
      ensures r.Ok? <==> Population.Populate(ctype, Tables(), src, coerce).Ok?
      ensures r.Err? ==> r.failure == Population.Populate(ctype, Tables(), src, coerce).failure
      ensures r.Ok? ==> View() == Population.Populate(ctype, Tables(), src, coerce).value
    {
      if ctype.policy == Dynamic {
        r := PopulateDynamic(src, coerce);
      } else {
        r := Populate(src, ctype.policy == Lenient, coerce);
      }
    }

    /** The discovery loop of `__init__`: every contract class of the chain,
        most-base first, stopping at the first failure. */
    method DiscoverChain(src: Value) returns (r: Result<()>)
      requires Tables() == Schema([], map[])
      modifies this`fields, this`mappings
      ensures r.Ok? <==> Discover(ctype, src).Ok?
      ensures r.Err? ==> r.failure == Discover(ctype, src).failure
      ensures r.Ok? ==> Tables() == Discover(ctype, src).value
    {
      ghost var owner, keys := TypeName(ctype), SourceKeys(src);
      ghost var expected := Discover(ctype, src);
      assert ctype.chain[0..] == ctype.chain;
      r := Ok(());
      var i := 0;
      while i < |ctype.chain|
        invariant 0 <= i <= |ctype.chain|
        invariant r.Ok?
        invariant !IsMapping(src) ==> i == 0 && Tables() == Schema([], map[])
        invariant IsMapping(src) ==> DiscoverFrom(owner, Tables(), AllDecls(ctype.chain[i..]), keys) == expected
      {
        ghost var before := Tables();
        r := DiscoverClass(src, ctype.chain[i]);
        if !IsMapping(src) {
          return;
        }
        DiscoverChainStep(owner, before, ctype.chain, i, keys, r, Tables());
        if r.Err? {
          return;
        }
        i := i + 1;
      }
      if IsMapping(src) {
        assert ctype.chain[i..] == [];
      }
    }

    /** `__discover_properties` for one class `c` of the chain: the input must
        be a mapping; each declared property is registered and then checked
        against the input's keys. */
    method DiscoverClass(src: Value, c: ClassDecl) returns (r: Result<()>)
      modifies this`fields, this`mappings
      ensures !IsMapping(src) ==> r == Err(ValidationError(TypeName(ctype), "", NotADict))
      ensures IsMapping(src) ==> var expected := DiscoverFrom(TypeName(ctype), old(Tables()),
                                                             Tagged(c.name, c.decls), SourceKeys(src));
                                 && (r.Ok? <==> expected.Ok?)
                                 && (r.Err? ==> r.failure == expected.failure)
                                 && (r.Ok? ==> Tables() == expected.value)
    {
      if !IsMapping(src) {
        return Err(ValidationError(TypeName(ctype), "", NotADict));
      }
      ghost var owner, keys := TypeName(ctype), SourceKeys(src);
      ghost var ds := Tagged(c.name, c.decls);
      ghost var expected := DiscoverFrom(owner, Tables(), ds, keys);
      r := Ok(());
      var j := 0;
      while j < |c.decls|
        invariant 0 <= j <= |c.decls|
        invariant r.Ok?
        invariant DiscoverFrom(owner, Tables(), ds[j..], keys) == expected
      {
        var (name, inst) := c.decls[j];
        assert ds[j..][0] == Decl(c.name, name, inst) && ds[j..][1..] == ds[j + 1..];
        ghost var before := Tables();
        r := DiscoverDecl(src, c.name, name, inst);
        DiscoverFromStep(owner, before, ds[j..], keys, r, Tables());
        if r.Err? {
          return;
        }
        j := j + 1;
      }
      assert ds[j..] == [];
    }

    /** One pass of the loop of `__discover_properties`: register the property
        under its field id, record an explicit external name, then fail if the
        input mentions the field under neither name and it is required, or
        not-none without a default. */
    method DiscoverDecl(src: Value, cls: string, name: string, inst: Prop) returns (r: Result<()>)
      requires IsMapping(src)
      modifies this`fields, this`mappings
      ensures Tables() == Register(old(Tables()), Decl(cls, name, inst))
      ensures r.Ok? <==> Presence(TypeName(ctype), Decl(cls, name, inst), SourceKeys(src)).Ok?
      ensures r.Err? ==> r.failure == Presence(TypeName(ctype), Decl(cls, name, inst), SourceKeys(src)).failure
    {
      fields := Put(fields, name, Bind(inst, name, cls));
      if inst.name != AnonName {
        mappings := mappings[inst.name := name];
      }
      var extName := if inst.name == AnonName then name else inst.name;
      if extName !in KeysOf(src.entries) && name !in KeysOf(src.entries) {
        if inst.required {
          return Err(ValidationError(TypeName(ctype), "", Required(extName)));
        }
        if inst.notNone && inst.default.VNone? {
          return Err(ValidationError(TypeName(ctype), "", NotNone(extName)));
        }
      }
      r := Ok(());
    }

    /** `LazyContract._populate_properties`: the input pairs in order,
        stopping at the first failure. */
    method Populate(src: Value, ignore: bool, coerce: Coerce) returns (r: Result<()>)
      modifies this`store
      ensures !IsMapping(src) ==> r == Err(ValidationError(TypeName(ctype), "", NotADict)) && store == old(store)
      ensures IsMapping(src) ==> var expected := PopulateFrom(TypeName(ctype), ignore, Tables(), old(store),
                                                             src.entries, coerce);
                                 && (r.Ok? <==> expected.Ok?)
                                 && (r.Err? ==> r.failure == expected.failure)
                                 && (r.Ok? ==> store == expected.value)
    {
      if !IsMapping(src) {
        return Err(ValidationError(TypeName(ctype), "", NotADict));
      }
      var entries := src.entries;
      ghost var owner, tables := TypeName(ctype), Tables();
      ghost var expected := PopulateFrom(owner, ignore, tables, store, entries, coerce);
      r := Ok(());
      var j := 0;
      while j < |entries|
        invariant 0 <= j <= |entries|
        invariant r.Ok? && Tables() == tables
        invariant PopulateFrom(owner, ignore, tables, store, entries[j..], coerce) == expected
      {
        var (key, value) := entries[j];
        assert entries[j..][0] == (key, value) && entries[j..][1..] == entries[j + 1..];
        ghost var before := store;
        r := PopulateOne(key, value, ignore, coerce);
        PopulateFromStep(owner, ignore, tables, before, entries[j..], coerce, r, store);
        if r.Err? {
          return;
        }
        j := j + 1;
      }
      assert entries[j..] == [];
    }

    /** One pass of the loop of `_populate_properties`: remap the key; skip
        (`ignore`) or reject a key that names no field; deserialize a value
        other than None, re-raising a failure there under the field's path;
        then assign through the validating setter. */
    method PopulateOne(key: string, value: Value, ignore: bool, coerce: Coerce) returns (r: Result<()>)
      modifies this`store
      ensures var expected := PopulateEntry(TypeName(ctype), ignore, Tables(), old(store), key, value, coerce);
              && (r.Ok? <==> expected.Ok?)
              && (r.Err? ==> r.failure == expected.failure)
              && (r.Ok? ==> store == expected.value)
              && (r.Err? ==> store == old(store))
    {
      var k := key;
      if k in mappings {
        k := mappings[k];
      }
      if k !in KeysOf(fields) {
        if ignore {
          return Ok(());
        }
        return Err(ValidationError(TypeName(ctype), "." + k, InvalidAttr(k)));
      }
      var v := Incoming(TypeName(ctype), k, Lookup(fields, k).value, value, coerce);
      if v.Err? {
        return Err(v.failure);
      }
      r := Set(k, v.value);
    }

    /** `DynamicContract._populate_properties`: populate leniently from the
        pairs whose key is a field id or an external name, then set every other
        pair on the instance as it is. */
    method PopulateDynamic(src: Value, coerce: Coerce) returns (r: Result<()>)
      modifies this`store, this`extras
      ensures !IsMapping(src) ==> r == Err(ValidationError(TypeName(ctype), "", NotADict))
      ensures IsMapping(src) ==> var expected := PopulateFrom(TypeName(ctype), true, Tables(), old(store),
                                                             Contained(Tables(), src.entries), coerce);
                                 && (r.Ok? <==> expected.Ok?)
                                 && (r.Err? ==> r.failure == expected.failure)
                                 && (r.Ok? ==> store == expected.value)
                                 && (r.Ok? ==> extras == AttachUndeclared(Tables(), old(extras), src.entries))
    {
      if !IsMapping(src) {
        return Err(ValidationError(TypeName(ctype), "", NotADict));
      }
      var contained := Contained(Tables(), src.entries);
      r := Populate(VDict(contained), true, coerce);
      if r.Err? {
        return;
      }
      AttachExtras(src.entries);
    }

    /** The second loop of `DynamicContract._populate_properties`: every pair
        whose key is neither a field id nor an external name is set on the
        instance unchanged. */
    method AttachExtras(entries: seq<(string, Value)>)
      modifies this`extras
      ensures extras == AttachUndeclared(Tables(), old(extras), entries)
    {
      ghost var tables := Tables();
      ghost var expected := AttachUndeclared(tables, extras, entries);
      var j := 0;
      while j < |entries|
        invariant 0 <= j <= |entries|
        invariant AttachUndeclared(tables, extras, entries[j..]) == expected
      {
        var (key, value) := entries[j];
        assert entries[j..][0] == (key, value) && entries[j..][1..] == entries[j + 1..];
        AttachUndeclaredStep(tables, extras, entries[j..]);
        if key !in KeysOf(fields) && key !in mappings {
          extras := Put(extras, key, value);
        }
        j := j + 1;
      }
      assert entries[j..] == [];
    }

    /** `LazyProperty.__set__` through `setattr(self, id, v)`: the value is
        stored only if the field's property validates it. */
    method Set(id: string, v: Value) returns (r: Result<()>)
      requires id in KeysOf(fields)
      modifies this`store
      ensures var p := Lookup(fields, id).value;
              && (r.Ok? <==> Conforms(p, v))
              && (r.Ok? ==> store == old(store)[p.name := v])
              && (r.Err? ==> store == old(store) && r.failure == Validate(p, v).failure)
    {
      var p := Lookup(fields, id).value;
      r := Validate(p, v);
      if r.Ok? {
        store := store[p.name := v];
      }
    }

    /** `LazyProperty.__get__` through `getattr(self, id)`: the stored value or
        the default, validated again. */
    method Get(id: string) returns (r: Result<Value>)
      requires id in KeysOf(fields)
      ensures var p := Lookup(fields, id).value;
              && (r.Ok? <==> Conforms(p, Stored(p, store)))
              && (r.Ok? ==> r.value == (if p.name in store then store[p.name] else p.default))
              && (r.Err? ==> r.failure == Validate(p, Stored(p, store)).failure)
    {
      var p := Lookup(fields, id).value;
      var value := if p.name in store then store[p.name] else p.default;
      var ok := Validate(p, value);
      if ok.Err? {
        return Err(ok.failure);
      }
      r := Ok(value);
    }
  }

  /** Calling a contract class: allocate an instance and run `__init__`; the
      instance exists only if construction succeeds. */
  method Construct(ct: ContractType, obj: Value, kwargs: seq<(string, Value)>, coerce: Coerce)
    returns (r: Result<Contract>)
    ensures r.Ok? <==> Build(ct, obj, kwargs, coerce).Ok?
    ensures r.Err? ==> r.failure == Build(ct, obj, kwargs, coerce).failure
    ensures r.Ok? ==> fresh(r.value) && r.value.View() == Build(ct, obj, kwargs, coerce).value
  {
    var c := new Contract(ct);
    var res := c.Init(obj, kwargs, coerce);
    if res.Err? {
      return Err(res.failure);
    }
    r := Ok(c);
  }
}
