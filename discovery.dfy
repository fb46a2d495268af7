/** Discovery: how a contract class assembles its field table (field id to
    property) and its external-name table (external name to field id) by walking
    its contract ancestry from the most-base class to itself, and how it fails
    fast on a required or not-none field that the input does not mention. */
module Discovery {
  import opened Values
  import opened Errors
  import opened Property

  /** What a contract does with an input key that names no field:
      `LazyContract` skips it, `StrictContract` rejects it and
      `DynamicContract` attaches it to the instance unvalidated. */
  datatype Policy = Lenient | Strict | Dynamic

  /** A contract class: its name and the properties declared directly in its
      body, in declaration order. */
  datatype ClassDecl = ClassDecl(name: string, decls: seq<(string, Prop)>)

  /** A concrete contract class: the contract classes of its ancestry below
      `LazyContract`, most-base first and itself last, and its policy. The
      policy stands for the base it derives from (`LazyContract`,
      `StrictContract` or `DynamicContract`); those declare no properties and
      are not in the chain. */
  datatype ContractType = ContractType(chain: seq<ClassDecl>, policy: Policy)

  /** `type(self).__name__`. A class is identified by this name. */
  function TypeName(ct: ContractType): string {
    if ct.chain == [] then "LazyContract" else ct.chain[|ct.chain| - 1].name
  }

  /** `isinstance(x, c)` for an instance `x` of contract class `sub`: the
      name of `c` occurs in the ancestry of `sub`. */
  predicate IsInstanceOf(sub: ContractType, c: ContractType) {
    c.chain == [] || exists i :: 0 <= i < |sub.chain| && sub.chain[i].name == TypeName(c)
  }

  /** The field table (`_properties`, in insertion order) and the external-name
      table (`_mappings`) of a contract instance. */
  datatype Schema = Schema(fields: seq<(string, Prop)>, mappings: map<string, string>)

  /** Every external name leads to a declared field, and no field id is
      declared twice. */
  ghost predicate WellFormed(s: Schema) {
    && UniqueKeys(s.fields)
    && forall m :: m in s.mappings ==> s.mappings[m] in KeysOf(s.fields)
  }

  /** One property declaration, with the class that declares it. */
  datatype Decl = Decl(cls: string, id: string, prop: Prop)

  /** The declarations of one class body, in order. */
  function Tagged(cls: string, decls: seq<(string, Prop)>): (r: seq<Decl>)
    ensures |r| == |decls|
    ensures forall i :: 0 <= i < |r| ==> r[i] == Decl(cls, decls[i].0, decls[i].1)
  {
    seq(|decls|, i requires 0 <= i < |decls| => Decl(cls, decls[i].0, decls[i].1))
  }

  /** Every declaration of the chain in the order discovery visits them:
      class by class from the most-base one, each body in order. */
  function AllDecls(chain: seq<ClassDecl>): seq<Decl> {
    if chain == [] then [] else Tagged(chain[0].name, chain[0].decls) + AllDecls(chain[1..])
  }

  /** Registering one declaration: the bound property goes into the field table
      (replacing an ancestor's entry for the same id in place), and an explicit
      external name is recorded as leading to the field id. */
  function Register(s: Schema, d: Decl): (r: Schema)
    ensures r.fields == Put(s.fields, d.id, Bind(d.prop, d.id, d.cls))
    ensures r.mappings == if d.prop.name != AnonName then s.mappings[d.prop.name := d.id] else s.mappings
    ensures WellFormed(s) ==> WellFormed(r)
  {
    Schema(Put(s.fields, d.id, Bind(d.prop, d.id, d.cls)),
           if d.prop.name != AnonName then s.mappings[d.prop.name := d.id] else s.mappings)
  }

  /** The presence check of one declaration against the input's keys: a field
      whose external name and id are both absent fails as REQUIRED if it is
      required, and otherwise as NOT_NONE if it is not-none without a default.
      Both failures are at the root path. */
  function Presence(owner: string, d: Decl, keys: set<string>): (r: Result<()>)
    ensures r.Err? <==> var q := Bind(d.prop, d.id, d.cls);
                        q.name !in keys && d.id !in keys && (q.required || (q.notNone && q.default.VNone?))
    ensures r.Err? ==> r.failure.ValidationError? && r.failure.owner == owner && r.failure.path == ""
    ensures r.Err? && d.prop.required ==> r.failure.reason == Required(Bind(d.prop, d.id, d.cls).name)
    ensures r.Err? && !d.prop.required ==> r.failure.reason == NotNone(Bind(d.prop, d.id, d.cls).name)
  {
    var q := Bind(d.prop, d.id, d.cls);
    if q.name !in keys && d.id !in keys then
      if q.required then Err(ValidationError(owner, "", Required(q.name)))
      else if q.notNone && q.default.VNone? then Err(ValidationError(owner, "", NotNone(q.name)))
      else Ok(())
    else Ok(())
  }

  /** Discovery from schema `s` over the declarations `ds`: register each one,
      then check its presence, stopping at the first failure. */
  function DiscoverFrom(owner: string, s: Schema, ds: seq<Decl>, keys: set<string>): Result<Schema>
    decreases |ds|
  {
    if ds == [] then Ok(s)
    else
      var s' := Register(s, ds[0]);
      match Presence(owner, ds[0], keys)
      case Err(f) => Err(f)
      case Ok(_) => DiscoverFrom(owner, s', ds[1..], keys)
  }

  /** Discovery over a non-empty run of declarations: the first one, then the
      rest from the tables it leaves. */
  lemma DiscoverFromCons(owner: string, s: Schema, ds: seq<Decl>, keys: set<string>)
    requires ds != []
    ensures DiscoverFrom(owner, s, ds, keys)
         == match Presence(owner, ds[0], keys)
            case Err(f) => Err(f)
            case Ok(_) => DiscoverFrom(owner, Register(s, ds[0]), ds[1..], keys)
  {
  }

  /** Discovery over a non-empty run of declarations, given the outcome `r`
      of the first one's presence check and the tables `s'` its registration
      leaves: a failure there is the failure of the whole, and otherwise the
      rest is discovered from `s'`. */
  lemma DiscoverFromStep(owner: string, s: Schema, ds: seq<Decl>, keys: set<string>, r: Result<()>, s': Schema)
    requires ds != [] && s' == Register(s, ds[0])
    requires var e := Presence(owner, ds[0], keys);
             && (r.Ok? <==> e.Ok?) && (r.Err? ==> r.failure == e.failure)
    ensures r.Err? ==> DiscoverFrom(owner, s, ds, keys) == Err(r.failure)
    ensures r.Ok? ==> DiscoverFrom(owner, s, ds, keys) == DiscoverFrom(owner, s', ds[1..], keys)
  {
  }

  /** The keys of the input, when it is a mapping. */
  function SourceKeys(src: Value): set<string> {
    if src.VDict? then KeysOf(src.entries) else {}
  }

  /** Discovery for contract class `ct` on input `src`: the input must be a
      mapping (checked once per class, so only when there is a class). */
  function Discover(ct: ContractType, src: Value): Result<Schema> {
    if ct.chain != [] && !IsMapping(src) then Err(ValidationError(TypeName(ct), "", NotADict))
    else DiscoverFrom(TypeName(ct), Schema([], map[]), AllDecls(ct.chain), SourceKeys(src))
  }

  /** The tables discovery builds when no check fails. */
  function RegisterAll(s: Schema, ds: seq<Decl>): (r: Schema)
    ensures WellFormed(s) ==> WellFormed(r)
    decreases |ds|
  {
    if ds == [] then s else RegisterAll(Register(s, ds[0]), ds[1..])
  }

  /** The schema of a contract class: what discovery yields on every input it
      accepts. */
  function SchemaOf(ct: ContractType): (r: Schema)
    ensures WellFormed(r)
  {
    RegisterAll(Schema([], map[]), AllDecls(ct.chain))
  }

  /** Discovery over two runs of declarations is discovery over the first run,
      continued over the second when the first succeeds. */
  lemma {:induction false} DiscoverFromAppend(owner: string, s: Schema, a: seq<Decl>, b: seq<Decl>, keys: set<string>)
    ensures DiscoverFrom(owner, s, a + b, keys) ==
            match DiscoverFrom(owner, s, a, keys)
            case Err(f) => Err(f)
            case Ok(s') => DiscoverFrom(owner, s', b, keys)
    decreases |a|
  {
    if a != [] {
      assert (a + b)[0] == a[0];
      assert (a + b)[1..] == a[1..] + b;
      DiscoverFromAppend(owner, Register(s, a[0]), a[1..], b, keys);
    } else {
      assert a + b == b;
    }
  }

  /** Discovery over the classes of the chain from class `i` on, given the
      outcome `r` of discovery over class `i` alone and the tables `s'` it
      leaves: a failure there is the failure of the whole, and otherwise the
      classes after `i` are discovered from `s'`. */
  lemma DiscoverChainStep(owner: string, s: Schema, chain: seq<ClassDecl>, i: nat, keys: set<string>,
                          r: Result<()>, s': Schema)
    requires i < |chain|
    requires var e := DiscoverFrom(owner, s, Tagged(chain[i].name, chain[i].decls), keys);
             && (r.Ok? <==> e.Ok?) && (r.Err? ==> r.failure == e.failure) && (r.Ok? ==> s' == e.value)
    ensures r.Err? ==> DiscoverFrom(owner, s, AllDecls(chain[i..]), keys) == Err(r.failure)
    ensures r.Ok? ==>
              DiscoverFrom(owner, s, AllDecls(chain[i..]), keys) == DiscoverFrom(owner, s', AllDecls(chain[i + 1..]), keys)
  {
    AllDeclsFrom(chain, i);
    DiscoverFromAppend(owner, s, Tagged(chain[i].name, chain[i].decls), AllDecls(chain[i + 1..]), keys);
  }

  /** The declarations of the chain from class `i` on: those of class `i`, then
      those of the classes after it. */
  lemma AllDeclsFrom(chain: seq<ClassDecl>, i: nat)
    requires i < |chain|
    ensures AllDecls(chain[i..]) == Tagged(chain[i].name, chain[i].decls) + AllDecls(chain[i + 1..])
  {
    assert chain[i..][0] == chain[i];
    assert chain[i..][1..] == chain[i + 1..];
  }
}
