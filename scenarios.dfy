/** Small concrete contracts and what constructing them yields: the three
    policies on one unknown key, path accumulation through a nested contract,
    and the `_obj or kwargs` fallback. */
module Scenarios {
  import opened Values
  import opened Errors
  import opened Property
  import opened Discovery
  import opened Population
  import opened Output
  import opened RoundTrip

  /** A coercion that accepts nothing, as `int("s")` would fail. */
  function NoCoerce(t: Tag, v: Value): Result<Value> {
    Err(OtherError("invalid literal"))
  }

  /** Discovery of a class with a single anonymous field. */
  lemma DiscoverSingle(n: string, id: string, p: Prop, policy: Policy, src: Value)
    requires p.name == AnonName && IsMapping(src)
    ensures var ct := ContractType([ClassDecl(n, [(id, p)])], policy);
            var check := Presence(n, Decl(n, id, p), SourceKeys(src));
            Discover(ct, src) == if check.Ok? then Ok(Schema([(id, Bind(p, id, n))], map[])) else Err(check.failure)
  {
    var ct := ContractType([ClassDecl(n, [(id, p)])], policy);
    var d := Decl(n, id, p);
    assert ct.chain[1..] == [];
    assert Tagged(n, [(id, p)]) == [d];
    assert AllDecls(ct.chain) == [d];
    assert [d][1..] == [];
    var s0 := Schema([], map[]);
    assert KeysOf(s0.fields) == {};
    assert Register(s0, d) == Schema([(id, Bind(p, id, n))], map[]);
    assert TypeName(ct) == n;
    assert Discover(ct, src) == DiscoverFrom(n, s0, [d], SourceKeys(src));
    assert DiscoverFrom(n, Register(s0, d), [], SourceKeys(src)) == Ok(Register(s0, d));
  }

  /** Population from a single input pair. */
  lemma PopulateSingle(owner: string, ignore: bool, s: Schema, store: map<string, Value>,
                       key: string, value: Value, coerce: Coerce)
    ensures PopulateFrom(owner, ignore, s, store, [(key, value)], coerce)
         == PopulateEntry(owner, ignore, s, store, key, value, coerce)
  {
    assert [(key, value)][1..] == [];
  }

  /** A dictionary with a single key finds that key and no other. */
  lemma LookupSingle<V>(id: string, v: V, k: string)
    ensures Lookup([(id, v)], k) == if k == id then Some(v) else None
  {
    assert [(id, v)][1..] == [];
    assert KeysOf([(id, v)]) == {id};
  }

  /** A mapping given as `_obj` is what construction reads: discovery, then
      population. */
  lemma BuildFromMapping(ct: ContractType, src: Value, coerce: Coerce, s: Schema)
    requires src.VDict? && Discover(ct, src) == Ok(s)
    ensures Build(ct, src, [], coerce) == Populate(ct, s, src, coerce)
  {
  }

  /** Population of a single input pair under a policy that is not dynamic. */
  lemma PopulatePair(ct: ContractType, s: Schema, key: string, value: Value, coerce: Coerce)
    requires ct.policy != Dynamic
    ensures Populate(ct, s, VDict([(key, value)]), coerce)
         == match PopulateEntry(TypeName(ct), ct.policy == Lenient, s, map[], key, value, coerce)
            case Err(f) => Err(f)
            case Ok(store) => Ok(Instance(ct, s, store, []))
  {
    PopulateSingle(TypeName(ct), ct.policy == Lenient, s, map[], key, value, coerce);
  }

  /** An input pair whose key is the id of the only field, with no external
      names: its value goes in through that field. */
  lemma FieldEntry(owner: string, ignore: bool, id: string, p: Prop, store: map<string, Value>,
                   value: Value, coerce: Coerce)
    ensures PopulateEntry(owner, ignore, Schema([(id, p)], map[]), store, id, value, coerce)
         == match Incoming(owner, id, p, value, coerce)
            case Err(f) => Err(f)
            case Ok(v) => Assign(p, store, v)
  {
    LookupSingle(id, p, id);
  }

  /** An optional anonymous integer field. */
  function OptionalInt(): Prop {
    Prop("IntProp", TInt, AnonName, VNone, false, false, true, "")
  }

  /** Class `C` with the single field `a`, under policy `policy`. */
  function OneField(policy: Policy): ContractType {
    ContractType([ClassDecl("C", [("a", OptionalInt())])], policy)
  }

  /** The tables of `C`. */
  function OneFieldSchema(): Schema {
    Schema([("a", Bind(OptionalInt(), "a", "C"))], map[])
  }

  /** Discovery of `C` on the input holding only the unknown key `x`. */
  lemma OneFieldDiscovered(policy: Policy)
    ensures Discover(OneField(policy), VDict([("x", VInt(1))])) == Ok(OneFieldSchema())
  {
    var src := VDict([("x", VInt(1))]);
    assert Presence("C", Decl("C", "a", OptionalInt()), SourceKeys(src)).Ok?;
    DiscoverSingle("C", "a", OptionalInt(), policy, src);
  }

  /** The tables of `C` are the ones discovery builds on every input it accepts. */
  lemma OneFieldSchemaOf(policy: Policy)
    ensures SchemaOf(OneField(policy)) == OneFieldSchema()
  {
    OneFieldDiscovered(policy);
    DiscoveryLaws.DiscoverAccepts(OneField(policy), VDict([("x", VInt(1))]));
  }

  /** `C` survives `to_dict` and construction: its one field is public, is
      not rerouted, is not redeclared, and is omitted only when None, which
      is its default. */
  lemma OneFieldRoundTrips(policy: Policy)
    ensures RoundTrips(OneField(policy))
  {
    var ct := OneField(policy);
    OneFieldSchemaOf(policy);
    OneFieldTables();
    var d := Decl("C", "a", OptionalInt());
    assert ct.chain[1..] == [];
    assert Tagged("C", [("a", OptionalInt())]) == [d];
    assert AllDecls(ct.chain) == [d];
    LookupSingle("a", Bind(OptionalInt(), "a", "C"), "a");
  }

  /** The tables of `C` round-trip. */
  lemma OneFieldTables()
    ensures TablesRoundTrip(OneFieldSchema())
  {
    LookupSingle("a", Bind(OptionalInt(), "a", "C"), "a");
    assert RemapKey(OneFieldSchema(), "a") == "a";
  }

  /** The unknown key `x` is skipped when ignored and rejected otherwise. */
  lemma UnknownKeyEntry(ignore: bool)
    ensures PopulateEntry("C", ignore, OneFieldSchema(), map[], "x", VInt(1), NoCoerce)
         == if ignore then Ok(map[]) else Err(ValidationError("C", ".x", InvalidAttr("x")))
  {
    LookupSingle("a", Bind(OptionalInt(), "a", "C"), "x");
    assert RemapKey(OneFieldSchema(), "x") == "x";
    assert "." + "x" == ".x";
  }

  /** A `DynamicContract` populates from none of the input and attaches `x`. */
  lemma UnknownKeyDynamic()
    ensures Populate(OneField(Dynamic), OneFieldSchema(), VDict([("x", VInt(1))]), NoCoerce)
         == Ok(Instance(OneField(Dynamic), OneFieldSchema(), map[], [("x", VInt(1))]))
  {
    var s := OneFieldSchema();
    var entries := [("x", VInt(1))];
    LookupSingle("a", Bind(OptionalInt(), "a", "C"), "x");
    assert !Declared(s, "x");
    assert entries[1..] == [];
    assert Contained(s, entries) == [];
    assert Put([], "x", VInt(1)) == [("x", VInt(1))];
    assert AttachUndeclared(s, [], entries) == AttachUndeclared(s, [("x", VInt(1))], []);
  }

  /** The unknown key `x` with value 1: `StrictContract` rejects it at path
      `.x`, `LazyContract` drops it, and `DynamicContract` keeps it as an
      attribute with its value unchanged. */
  lemma UnknownKeyUnderEachPolicy()
    ensures Build(OneField(Strict), VDict([("x", VInt(1))]), [], NoCoerce)
         == Err(ValidationError("C", ".x", InvalidAttr("x")))
    ensures Build(OneField(Lenient), VDict([("x", VInt(1))]), [], NoCoerce)
         == Ok(Instance(OneField(Lenient), OneFieldSchema(), map[], []))
    ensures Build(OneField(Dynamic), VDict([("x", VInt(1))]), [], NoCoerce)
         == Ok(Instance(OneField(Dynamic), OneFieldSchema(), map[], [("x", VInt(1))]))
  {
    var src := VDict([("x", VInt(1))]);
    var s := OneFieldSchema();
    OneFieldDiscovered(Strict);
    OneFieldDiscovered(Lenient);
    OneFieldDiscovered(Dynamic);
    BuildFromMapping(OneField(Strict), src, NoCoerce, s);
    BuildFromMapping(OneField(Lenient), src, NoCoerce, s);
    BuildFromMapping(OneField(Dynamic), src, NoCoerce, s);
    UnknownKeyEntry(false);
    UnknownKeyEntry(true);
    PopulatePair(OneField(Strict), s, "x", VInt(1), NoCoerce);
    PopulatePair(OneField(Lenient), s, "x", VInt(1), NoCoerce);
    UnknownKeyDynamic();
  }

  /** The required integer field `z`. */
  function RequiredInt(): Prop {
    Prop("IntProp", TInt, AnonName, VNone, true, false, true, "")
  }

  /** A field holding a contract of class `B`. */
  function InnerProp(): Prop {
    Prop("ContractProp", TContract("B"), AnonName, VNone, false, false, true, "")
  }

  /** Class `B` with the required integer field `z`. */
  function Inner(): ContractType {
    ContractType([ClassDecl("B", [("z", RequiredInt())])], Lenient)
  }

  /** Class `A` with the field `bField` holding a `B`. */
  function Outer(): ContractType {
    ContractType([ClassDecl("A", [("bField", InnerProp())])], Lenient)
  }

  /** The tables of `B` and of `A`. */
  function InnerSchema(): Schema {
    Schema([("z", Bind(RequiredInt(), "z", "B"))], map[])
  }

  function OuterSchema(): Schema {
    Schema([("bField", Bind(InnerProp(), "bField", "A"))], map[])
  }

  /** The coercion of a nested contract property: a mapping becomes a `B` by
      constructing one from it. */
  function CoerceToInner(t: Tag, v: Value): Result<Value> {
    if t == TContract("B") then
      match Build(Inner(), v, [], NoCoerce)
      case Err(f) => Err(f)
      case Ok(_) => Ok(VObj(["B"], []))
    else NoCoerce(t, v)
  }

  /** Whatever `bField` holds, discovery of `A` succeeds: the field is optional. */
  lemma OuterDiscovered(inner: Value)
    ensures Discover(Outer(), VDict([("bField", inner)])) == Ok(OuterSchema())
  {
    var src := VDict([("bField", inner)]);
    assert Presence("A", Decl("A", "bField", InnerProp()), SourceKeys(src)).Ok?;
    DiscoverSingle("A", "bField", InnerProp(), Lenient, src);
  }

  /** When the nested mapping `inner` does not construct a `B`, `A` fails with
      that failure re-raised under its own key `bField`. */
  lemma OuterFails(inner: Value, f: Failure)
    requires inner.VDict? && Build(Inner(), inner, [], NoCoerce) == Err(f)
    ensures Build(Outer(), VDict([("bField", inner)]), [], CoerceToInner) == Err(Rewrap("A", "bField", f))
  {
    OuterDiscovered(inner);
    BuildFromMapping(Outer(), VDict([("bField", inner)]), CoerceToInner, OuterSchema());
    OuterEntryFails(inner, f);
    PopulatePair(Outer(), OuterSchema(), "bField", inner, CoerceToInner);
  }

  /** The one input pair of `A`: constructing the `B` fails, and the failure
      is re-raised under `bField`. */
  lemma OuterEntryFails(inner: Value, f: Failure)
    requires inner.VDict? && Build(Inner(), inner, [], NoCoerce) == Err(f)
    ensures PopulateEntry("A", true, OuterSchema(), map[], "bField", inner, CoerceToInner)
         == Err(Rewrap("A", "bField", f))
  {
    var pb := Bind(InnerProp(), "bField", "A");
    assert Deserialize(pb, inner, CoerceToInner) == Err(f);
    FieldEntry("A", true, "bField", pb, map[], inner, CoerceToInner);
  }

  /** An empty mapping does not construct a `B`: `z` is required. */
  lemma InnerMissing()
    ensures Build(Inner(), VDict([]), [], NoCoerce) == Err(ValidationError("B", "", Required("z")))
  {
    DiscoverSingle("B", "z", RequiredInt(), Lenient, VDict([]));
    assert Presence("B", Decl("B", "z", RequiredInt()), {}) == Err(ValidationError("B", "", Required("z")));
  }

  /** A nested `B` missing its required `z` fails the construction of `A` at
      path `.bField`: the inner failure is at the root of `B`, so only the
      outer key is prefixed. */
  lemma NestedMissingFieldPath()
    ensures Build(Outer(), VDict([("bField", VDict([]))]), [], CoerceToInner)
         == Err(ValidationError("A", ".bField", Required("z")))
  {
    InnerMissing();
    OuterFails(VDict([]), ValidationError("B", "", Required("z")));
    RewrapField(ValidationError("B", "", Required("z")));
  }

  /** The one input pair of `B`: coercion fails, re-raised at path `.z`. */
  lemma InnerBadEntry()
    ensures PopulateEntry("B", true, InnerSchema(), map[], "z", VStr("s"), NoCoerce)
         == Err(ValidationError("B", ".z", Foreign(Text(OtherError("invalid literal")))))
  {
    var pz := Bind(RequiredInt(), "z", "B");
    var bad := OtherError("invalid literal");
    assert Deserialize(pz, VStr("s"), NoCoerce) == Err(bad);
    FieldEntry("B", true, "z", pz, map[], VStr("s"), NoCoerce);
    assert "." + "z" == ".z";
  }

  /** The `B` part of the scenario below: `z` fails coercion at path `.z`. */
  lemma InnerBadValue()
    ensures Build(Inner(), VDict([("z", VStr("s"))]), [], NoCoerce)
         == Err(ValidationError("B", ".z", Foreign(Text(OtherError("invalid literal")))))
  {
    var inner := VDict([("z", VStr("s"))]);
    assert Presence("B", Decl("B", "z", RequiredInt()), SourceKeys(inner)).Ok?;
    DiscoverSingle("B", "z", RequiredInt(), Lenient, inner);
    BuildFromMapping(Inner(), inner, NoCoerce, InnerSchema());
    InnerBadEntry();
    PopulatePair(Inner(), InnerSchema(), "z", VStr("s"), NoCoerce);
  }

  /** A nested `B` whose `z` cannot be coerced fails the construction of `A`
      at path `.bField.z`: each enclosing contract prefixes its own key. */
  lemma NestedBadValuePath()
    ensures Build(Outer(), VDict([("bField", VDict([("z", VStr("s"))]))]), [], CoerceToInner)
         == Err(ValidationError("A", ".bField.z", Foreign(Text(OtherError("invalid literal")))))
  {
    var reason := Foreign(Text(OtherError("invalid literal")));
    InnerBadValue();
    OuterFails(VDict([("z", VStr("s"))]), ValidationError("B", ".z", reason));
    RewrapField(ValidationError("B", ".z", reason));
  }

  /** `A` re-raises a failure of `B` at its root as its own at `.bField`, and
      one at `.z` as its own at `.bField.z`. */
  lemma RewrapField(f: Failure)
    requires f.ValidationError?
    ensures f.path == "" ==> Rewrap("A", "bField", f) == ValidationError("A", ".bField", f.reason)
    ensures f.path == ".z" ==> Rewrap("A", "bField", f) == ValidationError("A", ".bField.z", f.reason)
  {
    assert "." + "bField" + "" == ".bField";
    assert "." + "bField" + ".z" == ".bField.z";
  }

  /** An optional integer field with default 5. */
  function DefaultFive(): Prop {
    Prop("IntProp", TInt, AnonName, VInt(5), false, false, true, "")
  }

  /** Class `D` with the single field `a` defaulting to 5. */
  function WithDefault(): ContractType {
    ContractType([ClassDecl("D", [("a", DefaultFive())])], Lenient)
  }

  /** The tables of `D`. */
  function DefaultSchema(): Schema {
    Schema([("a", Bind(DefaultFive(), "a", "D"))], map[])
  }

  /** `D(a=None)` stores None explicitly; `D()` stores nothing. */
  lemma DefaultBuilt()
    ensures Build(WithDefault(), VDict([("a", VNone)]), [], NoCoerce)
         == Ok(Instance(WithDefault(), DefaultSchema(), map["a" := VNone], []))
    ensures Build(WithDefault(), VDict([]), [], NoCoerce)
         == Ok(Instance(WithDefault(), DefaultSchema(), map[], []))
  {
    var pa := Bind(DefaultFive(), "a", "D");
    var src := VDict([("a", VNone)]);
    assert Presence("D", Decl("D", "a", DefaultFive()), SourceKeys(src)).Ok?;
    assert Presence("D", Decl("D", "a", DefaultFive()), SourceKeys(VDict([]))).Ok?;
    DiscoverSingle("D", "a", DefaultFive(), Lenient, src);
    DiscoverSingle("D", "a", DefaultFive(), Lenient, VDict([]));
    BuildFromMapping(WithDefault(), src, NoCoerce, DefaultSchema());
    BuildFromMapping(WithDefault(), VDict([]), NoCoerce, DefaultSchema());
    FieldEntry("D", true, "a", pa, map[], VNone, NoCoerce);
    PopulatePair(WithDefault(), DefaultSchema(), "a", VNone, NoCoerce);
  }

  /** Serializing and deserializing again does not give back an equal
      instance when a field with a default other than None was set to None:
      `to_dict` leaves the field out, so the rebuilt instance reads the
      default where the original read None. */
  lemma RoundTripLosesExplicitNone()
    ensures Build(WithDefault(), VDict([("a", VNone)]), [], NoCoerce).Ok?
    ensures var orig := Build(WithDefault(), VDict([("a", VNone)]), [], NoCoerce).value;
            && ToDict(orig) == Ok([])
            && Build(WithDefault(), VDict([]), [], NoCoerce).Ok?
            && Equal(orig, Build(WithDefault(), VDict([]), [], NoCoerce).value) == Ok(false)
  {
    DefaultBuilt();
    var pa := Bind(DefaultFive(), "a", "D");
    var orig := Instance(WithDefault(), DefaultSchema(), map["a" := VNone], []);
    var rebuilt := Instance(WithDefault(), DefaultSchema(), map[], []);
    DefaultTriples();
    assert [("a", pa, VNone)][1..] == [];
    assert DictFrom([], [("a", pa, VNone)]) == DictFrom([], []);
    assert orig.ctype.chain[0].name == TypeName(orig.ctype);
    assert EqFrom(orig, rebuilt, 0) == Ok(false);
  }

  /** The one field of `D(a=None)` reads None, and that of `D()` reads 5. */
  lemma DefaultTriples()
    ensures var pa := Bind(DefaultFive(), "a", "D");
            && Triples(Instance(WithDefault(), DefaultSchema(), map["a" := VNone], [])) == Ok([("a", pa, VNone)])
            && Triples(Instance(WithDefault(), DefaultSchema(), map[], [])) == Ok([("a", pa, VInt(5))])
  {
    var pa := Bind(DefaultFive(), "a", "D");
    assert [("a", pa)][1..] == [];
    assert Get(pa, map["a" := VNone]) == Ok(VNone);
    assert Get(pa, map[]) == Ok(VInt(5));
    assert TriplesOf([], map["a" := VNone]) == Ok([]) && TriplesOf([], map[]) == Ok([]);
    assert [("a", pa, VNone)] + [] == [("a", pa, VNone)];
    assert [("a", pa, VInt(5))] + [] == [("a", pa, VInt(5))];
  }

  /** `_obj or kwargs`: a falsy non-mapping `_obj` such as `0` is replaced by
      the empty keyword mapping instead of being rejected as not a dictionary,
      while a truthy one such as `1` is rejected. */
  lemma FalsyObjectIsEmptyMapping(ct: ContractType, coerce: Coerce)
    requires ct.chain != []
    ensures Build(ct, VInt(0), [], coerce) == Build(ct, VDict([]), [], coerce)
    ensures Build(ct, VInt(1), [], coerce) == Err(ValidationError(TypeName(ct), "", NotADict))
  {
  }

  /** Class `n` with the single optional field `a` of kind `p`. */
  function Single(n: string, p: Prop): ContractType {
    ContractType([ClassDecl(n, [("a", p)])], Lenient)
  }

  /** Constructing a single-field class from a value of the field's type
      stores that value. */
  lemma SingleBuilt(n: string, p: Prop, v: Value)
    requires p.name == AnonName && !p.required && !v.VNone? && HasType(v, p.tag)
    ensures Build(Single(n, p), VDict([("a", v)]), [], NoCoerce)
         == Ok(Instance(Single(n, p), Schema([("a", Bind(p, "a", n))], map[]), map["a" := v], []))
  {
    var pa := Bind(p, "a", n);
    var s := Schema([("a", pa)], map[]);
    var src := VDict([("a", v)]);
    assert Presence(n, Decl(n, "a", p), SourceKeys(src)).Ok?;
    DiscoverSingle(n, "a", p, Lenient, src);
    BuildFromMapping(Single(n, p), src, NoCoerce, s);
    assert Incoming(n, "a", pa, v, NoCoerce) == Ok(v);
    assert Assign(pa, map[], v) == Ok(map["a" := v]);
    FieldEntry(n, true, "a", pa, map[], v, NoCoerce);
    PopulatePair(Single(n, p), s, "a", v, NoCoerce);
  }

  /** Two instances of a single-field class whose field holds values that
      Python's `==` equates are equal. */
  lemma SingleEqual(n: string, p: Prop, v: Value, w: Value)
    requires p.name == AnonName && !v.VNone? && !w.VNone? && HasType(v, p.tag) && HasType(w, p.tag)
    requires PyEq(v, w)
    ensures var s := Schema([("a", Bind(p, "a", n))], map[]);
            Equal(Instance(Single(n, p), s, map["a" := v], []), Instance(Single(n, p), s, map["a" := w], [])) == Ok(true)
  {
    var s := Schema([("a", Bind(p, "a", n))], map[]);
    var x, y := Instance(Single(n, p), s, map["a" := v], []), Instance(Single(n, p), s, map["a" := w], []);
    assert x.ctype.chain[0].name == TypeName(x.ctype);
    assert Get(Bind(p, "a", n), x.store) == Ok(v) && Get(Bind(p, "a", n), y.store) == Ok(w);
    assert EqFrom(x, y, 1) == Ok(true);
  }

  /** `True == 1` in Python: an integer field given `True` makes an instance
      equal, both ways, to one given 1, though the two store different values. */
  lemma TrueEqualsOne()
    ensures var one := Build(OneField(Lenient), VDict([("a", VInt(1))]), [], NoCoerce);
            var yes := Build(OneField(Lenient), VDict([("a", VBool(true))]), [], NoCoerce);
            && one.Ok? && yes.Ok? && one.value.store != yes.value.store
            && Equal(one.value, yes.value) == Ok(true) && Equal(yes.value, one.value) == Ok(true)
            && EqOperator(one.value, yes.value) == Ok(true)
  {
    SingleBuilt("C", OptionalInt(), VInt(1));
    SingleBuilt("C", OptionalInt(), VBool(true));
    SingleEqual("C", OptionalInt(), VInt(1), VBool(true));
    SingleEqual("C", OptionalInt(), VBool(true), VInt(1));
    assert map["a" := VInt(1)]["a"] != map["a" := VBool(true)]["a"];
  }

  /** An optional anonymous dictionary field. */
  function OptionalDict(): Prop {
    Prop("DictProp", TDict, AnonName, VNone, false, false, true, "")
  }

  /** `{"p": 1, "q": 2}` and `{"q": 2, "p": 1}`: the same pairs, inserted in
      opposite orders. */
  function PQ(): Value {
    VDict([("p", VInt(1)), ("q", VInt(2))])
  }

  function QP(): Value {
    VDict([("q", VInt(2)), ("p", VInt(1))])
  }

  /** Python's `==` on dictionaries ignores insertion order. */
  lemma ReorderedDictsEqual()
    ensures PQ() != QP() && PyEq(PQ(), QP())
  {
    var m, n := PQ().entries, QP().entries;
    TwoKeys("p", VInt(1), "q", VInt(2));
    TwoKeys("q", VInt(2), "p", VInt(1));
    assert m[0] != n[0];
    forall k | k in KeysOf(m) ensures PyEq(m[IndexOf(m, k)].1, n[IndexOf(n, k)].1) {
      assert k == "p" || k == "q";
    }
  }

  /** A dictionary of two distinct keys holds each under its own position. */
  lemma TwoKeys(j: string, v: Value, k: string, w: Value)
    requires j != k
    ensures var m := [(j, v), (k, w)];
            && KeysOf(m) == {j, k}
            && IndexOf(m, j) == 0 && IndexOf(m, k) == 1
  {
    var m := [(j, v), (k, w)];
    assert m[1..][1..] == [];
    assert KeysOf(m[1..]) == {k};
  }

  /** A dictionary field given the same pairs in another order makes an
      equal instance, though the two store different sequences of pairs. */
  lemma DictOrderIgnored()
    ensures var ct := Single("E", OptionalDict());
            var pq := Build(ct, VDict([("a", PQ())]), [], NoCoerce);
            var qp := Build(ct, VDict([("a", QP())]), [], NoCoerce);
            && pq.Ok? && qp.Ok? && pq.value.store != qp.value.store
            && Equal(pq.value, qp.value) == Ok(true) && EqOperator(pq.value, qp.value) == Ok(true)
  {
    SingleBuilt("E", OptionalDict(), PQ());
    SingleBuilt("E", OptionalDict(), QP());
    ReorderedDictsEqual();
    SingleEqual("E", OptionalDict(), PQ(), QP());
    assert map["a" := PQ()]["a"] != map["a" := QP()]["a"];
  }

  /** `Base` declares `a`; `Derived(Base)` adds `b`. */
  function Base(): ClassDecl {
    ClassDecl("Base", [("a", OptionalInt())])
  }

  function Derived(): ContractType {
    ContractType([Base(), ClassDecl("Derived", [("b", OptionalInt())])], Lenient)
  }

  /** The tables of `Derived`: the inherited `a`, then `b`. */
  function DerivedSchema(): Schema {
    Schema([("a", Bind(OptionalInt(), "a", "Base")), ("b", Bind(OptionalInt(), "b", "Derived"))], map[])
  }

  /** The declarations of `Derived`, base first. */
  lemma DerivedDecls()
    ensures AllDecls(Derived().chain) == [Decl("Base", "a", OptionalInt()), Decl("Derived", "b", OptionalInt())]
  {
    var ct := Derived();
    var da, db := Decl("Base", "a", OptionalInt()), Decl("Derived", "b", OptionalInt());
    assert ct.chain[1..][1..] == [];
    assert Tagged("Base", Base().decls) == [da];
    assert Tagged("Derived", [("b", OptionalInt())]) == [db];
  }

  /** The tables discovery builds for `Derived`. */
  lemma DerivedSchemaOf()
    ensures SchemaOf(Derived()) == DerivedSchema()
  {
    var pa, pb := Bind(OptionalInt(), "a", "Base"), Bind(OptionalInt(), "b", "Derived");
    var da, db := Decl("Base", "a", OptionalInt()), Decl("Derived", "b", OptionalInt());
    DerivedDecls();
    var s0, s1 := Schema([], map[]), Schema([("a", pa)], map[]);
    assert KeysOf(s0.fields) == {};
    assert Register(s0, da) == s1;
    LookupSingle("a", pa, "b");
    assert Register(s1, db) == DerivedSchema();
    assert [da, db][1..] == [db] && [db][1..] == [];
    assert RegisterAll(s0, [da, db]) == RegisterAll(s1, [db]);
    assert RegisterAll(s1, [db]) == RegisterAll(DerivedSchema(), []);
  }

  /** Discovery of `Derived` accepts every mapping, as both fields are optional. */
  lemma DerivedDiscovered(src: Value)
    requires src.VDict?
    ensures Discover(Derived(), src) == Ok(DerivedSchema())
  {
    DerivedDecls();
    DerivedSchemaOf();
    DiscoveryLaws.DiscoverAccepts(Derived(), src);
  }

  /** `Derived(a=1)` stores 1 under `a` in the tables above. */
  lemma DerivedBuilt()
    ensures Build(Derived(), VDict([("a", VInt(1))]), [], NoCoerce)
         == Ok(Instance(Derived(), DerivedSchema(), map["a" := VInt(1)], []))
  {
    var src := VDict([("a", VInt(1))]);
    DerivedDiscovered(src);
    BuildFromMapping(Derived(), src, NoCoerce, DerivedSchema());
    DerivedPopulated();
  }

  /** Population of `Derived`'s tables from `{"a": 1}`. */
  lemma DerivedPopulated()
    ensures Populate(Derived(), DerivedSchema(), VDict([("a", VInt(1))]), NoCoerce)
         == Ok(Instance(Derived(), DerivedSchema(), map["a" := VInt(1)], []))
  {
    var pa := Bind(OptionalInt(), "a", "Base");
    assert Lookup(DerivedSchema().fields, "a") == Some(pa);
    assert Incoming("Derived", "a", pa, VInt(1), NoCoerce) == Ok(VInt(1));
    PopulatePair(Derived(), DerivedSchema(), "a", VInt(1), NoCoerce);
  }

  /** `Base(a=1)` and `Derived(a=1)` as construction leaves them: the first
      equals the second, and not the other way round. */
  lemma AsymmetricInstances()
    ensures var a := Instance(Single("Base", OptionalInt()), Schema([("a", Bind(OptionalInt(), "a", "Base"))], map[]),
                              map["a" := VInt(1)], []);
            var b := Instance(Derived(), DerivedSchema(), map["a" := VInt(1)], []);
            && Equal(a, b) == Ok(true) && Equal(b, a) == Ok(false)
            && EqOperator(a, b) == Ok(false) && EqOperator(b, a) == Ok(false)
  {
    var a := Instance(Single("Base", OptionalInt()), Schema([("a", Bind(OptionalInt(), "a", "Base"))], map[]),
                      map["a" := VInt(1)], []);
    var b := Instance(Derived(), DerivedSchema(), map["a" := VInt(1)], []);
    assert b.ctype.chain[0].name == TypeName(a.ctype);
    assert Get(Bind(OptionalInt(), "a", "Base"), a.store) == Ok(VInt(1));
    assert EqFrom(a, b, 1) == Ok(true);
    assert !IsInstanceOf(a.ctype, b.ctype);
    OutputLaws.EqOperatorSubclassUnequal(a, b);
  }

  /** `__eq__` is not symmetric: `Base(a=1).__eq__(Derived(a=1))` holds, as
      `b` lies past the end of the shorter field list, but
      `Derived(a=1).__eq__(Base(a=1))` does not, since the base instance is not
      an instance of the subclass. The operator `==` calls the subclass's
      method first, so it is false both ways round. */
  lemma EqualAsymmetric()
    ensures var a := Build(Single("Base", OptionalInt()), VDict([("a", VInt(1))]), [], NoCoerce);
            var b := Build(Derived(), VDict([("a", VInt(1))]), [], NoCoerce);
            && a.Ok? && b.Ok?
            && Equal(a.value, b.value) == Ok(true) && Equal(b.value, a.value) == Ok(false)
            && EqOperator(a.value, b.value) == Ok(false) && EqOperator(b.value, a.value) == Ok(false)
  {
    SingleBuilt("Base", OptionalInt(), VInt(1));
    DerivedBuilt();
    AsymmetricInstances();
  }
}
