/** What discovery guarantees: which inputs it accepts, which error it raises
    first, and what field and external-name tables it builds. */
module DiscoveryLaws {
  import opened Values
  import opened Errors
  import opened Property
  import opened Discovery

  /** Every declaration of a non-empty run passes its presence check exactly
      when the first one does and every later one does. */
  lemma AllPresentStep(owner: string, ds: seq<Decl>, keys: set<string>)
    requires ds != []
    ensures (forall i :: 0 <= i < |ds| ==> Presence(owner, ds[i], keys).Ok?) <==>
            Presence(owner, ds[0], keys).Ok? && forall i :: 0 <= i < |ds[1..]| ==> Presence(owner, ds[1..][i], keys).Ok?
  {
    assert forall i :: 0 <= i < |ds[1..]| ==> ds[1..][i] == ds[i + 1];
  }

  /** Discovery over `ds` succeeds exactly when every declaration passes its
      presence check, and then builds the tables registration alone builds. */
  lemma {:induction false} DiscoverFromOk(owner: string, s: Schema, ds: seq<Decl>, keys: set<string>)
    ensures DiscoverFrom(owner, s, ds, keys).Ok? <==>
            forall i :: 0 <= i < |ds| ==> Presence(owner, ds[i], keys).Ok?
    ensures DiscoverFrom(owner, s, ds, keys).Ok? ==> DiscoverFrom(owner, s, ds, keys).value == RegisterAll(s, ds)
    decreases |ds|
  {
    if ds != [] {
      var s' := Register(s, ds[0]);
      AllPresentStep(owner, ds, keys);
      assert RegisterAll(s, ds) == RegisterAll(s', ds[1..]);
      DiscoverFromOk(owner, s', ds[1..], keys);
      if Presence(owner, ds[0], keys).Ok? {
        assert DiscoverFrom(owner, s, ds, keys) == DiscoverFrom(owner, s', ds[1..], keys);
      } else {
        assert DiscoverFrom(owner, s, ds, keys).Err?;
      }
    }
  }

  /** Discovery fails with the failure of the first declaration whose presence
      check fails; later declarations are never looked at. */
  lemma {:induction false} DiscoverFromFirstFailure(owner: string, s: Schema, ds: seq<Decl>, keys: set<string>, k: nat)
    requires k < |ds|
    requires forall j :: 0 <= j < k ==> Presence(owner, ds[j], keys).Ok?
    requires Presence(owner, ds[k], keys).Err?
    ensures DiscoverFrom(owner, s, ds, keys) == Err(Presence(owner, ds[k], keys).failure)
    decreases k
  {
    var s' := Register(s, ds[0]);
    DiscoverFromStep(owner, s, ds, keys, Presence(owner, ds[0], keys), s');
    if k != 0 {
      assert Presence(owner, ds[0], keys).Ok?;
      assert ds[1..][k - 1] == ds[k];
      forall j | 0 <= j < k - 1 ensures Presence(owner, ds[1..][j], keys).Ok? {
        assert ds[1..][j] == ds[j + 1];
      }
      DiscoverFromFirstFailure(owner, s', ds[1..], keys, k - 1);
    }
  }

  /** A failure of discovery over declarations is the presence failure of one
      of them: a missing field, reported at the root path. */
  lemma {:induction false} DiscoverFromFailure(owner: string, s: Schema, ds: seq<Decl>, keys: set<string>)
    requires DiscoverFrom(owner, s, ds, keys).Err?
    ensures var f := DiscoverFrom(owner, s, ds, keys).failure;
            && f.ValidationError? && f.owner == owner && f.path == ""
            && (f.reason.Required? || f.reason.NotNone?)
    decreases |ds|
  {
    if Presence(owner, ds[0], keys).Ok? {
      DiscoverFromFailure(owner, Register(s, ds[0]), ds[1..], keys);
    }
  }

  /** Every failure of discovery is a validation error of the contract at the
      root path: the input is not a mapping, or a field is missing. */
  lemma DiscoverFailsAtRoot(ct: ContractType, src: Value)
    requires Discover(ct, src).Err?
    ensures var f := Discover(ct, src).failure;
            && f.ValidationError? && f.owner == TypeName(ct) && f.path == ""
            && (f.reason.NotADict? || f.reason.Required? || f.reason.NotNone?)
  {
    if ct.chain == [] || IsMapping(src) {
      DiscoverFromFailure(TypeName(ct), Schema([], map[]), AllDecls(ct.chain), SourceKeys(src));
    }
  }

  /** Discovery accepts an input exactly when it is a mapping (or there is no
      class to discover) and no declaration of the chain misses a required or
      not-none field; the tables it then builds do not depend on the input. */
  lemma DiscoverAccepts(ct: ContractType, src: Value)
    ensures Discover(ct, src).Ok? <==>
            && (ct.chain == [] || IsMapping(src))
            && forall d :: d in AllDecls(ct.chain) ==> Presence(TypeName(ct), d, SourceKeys(src)).Ok?
    ensures Discover(ct, src).Ok? ==> Discover(ct, src).value == SchemaOf(ct)
  {
    DiscoverFromOk(TypeName(ct), Schema([], map[]), AllDecls(ct.chain), SourceKeys(src));
  }

  /** A required field that the input mentions neither by external name nor
      by id makes construction fail at the root path, whatever else the class
      declares. */
  lemma MissingRequiredRejected(ct: ContractType, src: Value, d: Decl)
    requires d in AllDecls(ct.chain) && d.prop.required
    requires Bind(d.prop, d.id, d.cls).name !in SourceKeys(src) && d.id !in SourceKeys(src)
    ensures Discover(ct, src).Err?
    ensures Discover(ct, src).failure.ValidationError? && Discover(ct, src).failure.path == ""
  {
    DiscoverAccepts(ct, src);
    DiscoverFailsAtRoot(ct, src);
  }

  /** Registration leaves the entry of an id no declaration names alone. */
  lemma {:induction false} RegisterAllUntouched(s: Schema, ds: seq<Decl>, id: string)
    requires forall j :: 0 <= j < |ds| ==> ds[j].id != id
    ensures Lookup(RegisterAll(s, ds).fields, id) == Lookup(s.fields, id)
    decreases |ds|
  {
    if ds != [] {
      assert forall j :: 0 <= j < |ds| - 1 ==> ds[1..][j] == ds[j + 1];
      RegisterAllUntouched(Register(s, ds[0]), ds[1..], id);
    }
  }

  /** Derived wins: the field table holds, for each id, the property of the
      last declaration of that id, which is the most-derived class's. */
  lemma {:induction false} RegisterAllLastWins(s: Schema, ds: seq<Decl>, k: nat)
    requires k < |ds|
    requires forall j :: k < j < |ds| ==> ds[j].id != ds[k].id
    ensures Lookup(RegisterAll(s, ds).fields, ds[k].id) == Some(Bind(ds[k].prop, ds[k].id, ds[k].cls))
    decreases k
  {
    assert forall j :: 0 <= j < |ds| - 1 ==> ds[1..][j] == ds[j + 1];
    if k == 0 {
      RegisterAllUntouched(Register(s, ds[0]), ds[1..], ds[0].id);
    } else {
      RegisterAllLastWins(Register(s, ds[0]), ds[1..], k - 1);
    }
  }

  /** The ids the declarations name. */
  function Ids(ds: seq<Decl>): set<string> {
    if ds == [] then {} else {ds[0].id} + Ids(ds[1..])
  }

  /** The field ids are those declared anywhere in the chain. */
  lemma {:induction false} RegisterAllKeys(s: Schema, ds: seq<Decl>)
    ensures KeysOf(RegisterAll(s, ds).fields) == KeysOf(s.fields) + Ids(ds)
    decreases |ds|
  {
    if ds != [] {
      RegisterAllKeys(Register(s, ds[0]), ds[1..]);
    }
  }

  /** Registration leaves the entry of an external name no declaration gives
      explicitly alone. */
  lemma {:induction false} RegisterAllMappingUntouched(s: Schema, ds: seq<Decl>, m: string)
    requires forall j :: 0 <= j < |ds| ==> ds[j].prop.name == AnonName || ds[j].prop.name != m
    ensures m in RegisterAll(s, ds).mappings <==> m in s.mappings
    ensures m in s.mappings ==> RegisterAll(s, ds).mappings[m] == s.mappings[m]
    decreases |ds|
  {
    if ds != [] {
      var s' := Register(s, ds[0]);
      assert RegisterAll(s, ds) == RegisterAll(s', ds[1..]);
      assert s'.mappings == if ds[0].prop.name != AnonName then s.mappings[ds[0].prop.name := ds[0].id] else s.mappings;
      assert forall j :: 0 <= j < |ds| - 1 ==> ds[1..][j] == ds[j + 1];
      RegisterAllMappingUntouched(s', ds[1..], m);
    }
  }

  /** An explicit external name is recorded as leading to the id of the last
      declaration that gives it. */
  lemma {:induction false} RegisterAllMapping(s: Schema, ds: seq<Decl>, k: nat)
    requires k < |ds| && ds[k].prop.name != AnonName
    requires forall j :: k < j < |ds| ==> ds[j].prop.name == AnonName || ds[j].prop.name != ds[k].prop.name
    ensures ds[k].prop.name in RegisterAll(s, ds).mappings
    ensures RegisterAll(s, ds).mappings[ds[k].prop.name] == ds[k].id
    decreases k
  {
    assert forall j :: 0 <= j < |ds| - 1 ==> ds[1..][j] == ds[j + 1];
    if k == 0 {
      RegisterAllMappingUntouched(Register(s, ds[0]), ds[1..], ds[0].prop.name);
    } else {
      RegisterAllMapping(Register(s, ds[0]), ds[1..], k - 1);
    }
  }

  /** A field redeclared in a subclass is checked once for each class that
      declares it: a base class's required `x` rejects an input without `x`
      even though the subclass makes `x` optional and the field table holds
      only the subclass's property. */
  lemma RedeclaredFieldCheckedPerClass()
    ensures var required := Prop("LazyProperty", TNone, AnonName, VNone, true, false, true, "");
            var optional := Prop("LazyProperty", TNone, AnonName, VNone, false, false, true, "");
            var ct := ContractType([ClassDecl("Base", [("x", required)]), ClassDecl("Derived", [("x", optional)])], Lenient);
            && Lookup(SchemaOf(ct).fields, "x") == Some(Bind(optional, "x", "Derived"))
            && Discover(ct, VDict([])) == Err(ValidationError("Derived", "", Required("x")))
  {
    var required := Prop("LazyProperty", TNone, AnonName, VNone, true, false, true, "");
    var optional := Prop("LazyProperty", TNone, AnonName, VNone, false, false, true, "");
    var ct := ContractType([ClassDecl("Base", [("x", required)]), ClassDecl("Derived", [("x", optional)])], Lenient);
    var ds := AllDecls(ct.chain);
    assert ct.chain[1..][1..] == [];
    assert Tagged("Derived", [("x", optional)]) == [Decl("Derived", "x", optional)];
    assert AllDecls(ct.chain[1..]) == [Decl("Derived", "x", optional)];
    assert Tagged("Base", [("x", required)]) == [Decl("Base", "x", required)];
    assert ds == [Decl("Base", "x", required), Decl("Derived", "x", optional)];
    RegisterAllLastWins(Schema([], map[]), ds, 1);
    DiscoverFromFirstFailure("Derived", Schema([], map[]), ds, {}, 0);
  }
}
