/** What population guarantees under each policy, and the paths of the errors
    it raises. */
module PopulationLaws {
  import opened Values
  import opened Errors
  import opened Property
  import opened Discovery
  import opened Population
  import opened DiscoveryLaws

  /** With well-formed tables, a key names a field after remapping exactly when
      it is a field id or a recorded external name; a key that names no field
      is left as it is. */
  lemma RemapFindsField(s: Schema, key: string)
    requires WellFormed(s)
    ensures RemapKey(s, key) in KeysOf(s.fields) <==> Declared(s, key)
    ensures !Declared(s, key) ==> RemapKey(s, key) == key
  {
  }

  /** The lenient policy skips an undeclared pair without a trace. */
  lemma LenientSkipsUndeclared(owner: string, s: Schema, store: map<string, Value>,
                               key: string, value: Value, coerce: Coerce)
    requires WellFormed(s) && !Declared(s, key)
    ensures PopulateEntry(owner, true, s, store, key, value, coerce) == Ok(store)
  {
    RemapFindsField(s, key);
  }

  /** The strict policy rejects an undeclared pair, at path `"." + key` for the
      key as the input spells it. */
  lemma StrictRejectsUndeclared(owner: string, s: Schema, store: map<string, Value>,
                                key: string, value: Value, coerce: Coerce)
    requires WellFormed(s) && !Declared(s, key)
    ensures PopulateEntry(owner, false, s, store, key, value, coerce)
         == Err(ValidationError(owner, "." + key, InvalidAttr(key)))
  {
    RemapFindsField(s, key);
  }

  /** Lenient population gives the same outcome on the whole input as on its
      declared pairs alone. */
  lemma {:induction false} LenientIgnoresUndeclared(owner: string, s: Schema, store: map<string, Value>,
                                                    es: seq<(string, Value)>, coerce: Coerce)
    requires WellFormed(s)
    ensures PopulateFrom(owner, true, s, store, es, coerce)
         == PopulateFrom(owner, true, s, store, Contained(s, es), coerce)
    decreases |es|
  {
    if es != [] {
      var c := Contained(s, es);
      if Declared(s, es[0].0) {
        assert c == [es[0]] + Contained(s, es[1..]);
        assert c[0] == es[0] && c[1..] == Contained(s, es[1..]);
        match PopulateEntry(owner, true, s, store, es[0].0, es[0].1, coerce)
        case Err(_) =>
        case Ok(store') => LenientIgnoresUndeclared(owner, s, store', es[1..], coerce);
      } else {
        assert c == Contained(s, es[1..]);
        LenientSkipsUndeclared(owner, s, store, es[0].0, es[0].1, coerce);
        LenientIgnoresUndeclared(owner, s, store, es[1..], coerce);
      }
    }
  }

  /** Strict population succeeds only on inputs whose every key is declared,
      and then gives what lenient population gives. */
  lemma {:induction false} StrictOkIsLenient(owner: string, s: Schema, store: map<string, Value>,
                                             es: seq<(string, Value)>, coerce: Coerce)
    requires WellFormed(s)
    requires PopulateFrom(owner, false, s, store, es, coerce).Ok?
    ensures forall i :: 0 <= i < |es| ==> Declared(s, es[i].0)
    ensures PopulateFrom(owner, false, s, store, es, coerce) == PopulateFrom(owner, true, s, store, es, coerce)
    decreases |es|
  {
    if es != [] {
      RemapFindsField(s, es[0].0);
      var store' := PopulateEntry(owner, false, s, store, es[0].0, es[0].1, coerce).value;
      StrictOkIsLenient(owner, s, store', es[1..], coerce);
      assert forall i :: 1 <= i < |es| ==> es[i] == es[1..][i - 1];
    }
  }

  /** On an input whose every key is declared, strict and lenient population
      agree, failures included. */
  lemma {:induction false} StrictAgreesOnDeclared(owner: string, s: Schema, store: map<string, Value>,
                                                  es: seq<(string, Value)>, coerce: Coerce)
    requires WellFormed(s)
    requires forall i :: 0 <= i < |es| ==> Declared(s, es[i].0)
    ensures PopulateFrom(owner, false, s, store, es, coerce) == PopulateFrom(owner, true, s, store, es, coerce)
    decreases |es|
  {
    if es != [] {
      RemapFindsField(s, es[0].0);
      assert forall i :: 0 <= i < |es| - 1 ==> es[1..][i] == es[i + 1];
      match PopulateEntry(owner, false, s, store, es[0].0, es[0].1, coerce)
      case Err(_) =>
      case Ok(store') => StrictAgreesOnDeclared(owner, s, store', es[1..], coerce);
    }
  }

  /** A failure of `deserialize` on a non-None value is re-raised by the
      contract: its path is `"." + ` the field id the key was remapped to (not
      the external name the input used) followed by the inner path, and it
      keeps the inner message. */
  lemma NestedFailureWrapped(owner: string, ignore: bool, s: Schema, store: map<string, Value>,
                             key: string, value: Value, coerce: Coerce)
    requires Lookup(s.fields, RemapKey(s, key)).Some?
    requires !value.VNone?
    requires Deserialize(Lookup(s.fields, RemapKey(s, key)).value, value, coerce).Err?
    ensures var k := RemapKey(s, key);
            var f := Deserialize(Lookup(s.fields, k).value, value, coerce).failure;
            var r := PopulateEntry(owner, ignore, s, store, key, value, coerce);
            && r.Err? && r.failure.ValidationError? && r.failure.owner == owner
            && (f.ValidationError? ==> r.failure.path == "." + k + f.path && r.failure.reason == f.reason)
            && (!f.ValidationError? ==> r.failure.path == "." + k && r.failure.reason == Foreign(Text(f)))
            && (key in s.mappings ==> k == s.mappings[key])
  {
  }

  /** The assignment after deserialization is outside the re-raising: when the
      setter rejects the value, the error is the property's own, with path ""
      for a None and `"." + name` for a value of the wrong type. */
  lemma SetterFailureNotWrapped(owner: string, ignore: bool, s: Schema, store: map<string, Value>,
                                key: string, value: Value, coerce: Coerce)
    requires Lookup(s.fields, RemapKey(s, key)).Some?
    requires var k := RemapKey(s, key);
             var p := Lookup(s.fields, k).value;
             Incoming(owner, k, p, value, coerce).Ok? && !Conforms(p, Incoming(owner, k, p, value, coerce).value)
    ensures var k := RemapKey(s, key);
            var p := Lookup(s.fields, k).value;
            var v := Incoming(owner, k, p, value, coerce).value;
            var r := PopulateEntry(owner, ignore, s, store, key, value, coerce);
            && r.Err? && r.failure.ValidationError? && r.failure.owner == p.cls
            && r.failure.path == (if v.VNone? then "" else "." + p.name)
  {
  }

  /** A None skips `deserialize` (whatever the type's constructor would do)
      but is still validated by the assignment. */
  lemma NoneSkipsDeserialize(owner: string, ignore: bool, s: Schema, store: map<string, Value>,
                             key: string, coerce: Coerce, coerce': Coerce)
    requires Lookup(s.fields, RemapKey(s, key)).Some?
    ensures PopulateEntry(owner, ignore, s, store, key, VNone, coerce)
         == Assign(Lookup(s.fields, RemapKey(s, key)).value, store, VNone)
         == PopulateEntry(owner, ignore, s, store, key, VNone, coerce')
  {
  }

  /** The undeclared keys among `es`. */
  function UndeclaredKeys(s: Schema, es: seq<(string, Value)>): set<string> {
    if es == [] then {}
    else (if Declared(s, es[0].0) then {} else {es[0].0}) + UndeclaredKeys(s, es[1..])
  }

  /** The attributes a dynamic contract attaches are exactly the undeclared
      keys of the input. */
  lemma {:induction false} AttachUndeclaredKeys(s: Schema, acc: seq<(string, Value)>, es: seq<(string, Value)>)
    ensures KeysOf(AttachUndeclared(s, acc, es)) == KeysOf(acc) + UndeclaredKeys(s, es)
    decreases |es|
  {
    if es != [] {
      var acc' := if Declared(s, es[0].0) then acc else Put(acc, es[0].0, es[0].1);
      AttachUndeclaredKeys(s, acc', es[1..]);
    }
  }

  /** Later pairs leave an attribute alone when none of them has its key. */
  lemma {:induction false} AttachUndeclaredKeeps(s: Schema, acc: seq<(string, Value)>,
                                                 es: seq<(string, Value)>, k: string)
    requires forall j :: 0 <= j < |es| ==> es[j].0 != k
    ensures Lookup(AttachUndeclared(s, acc, es), k) == Lookup(acc, k)
    decreases |es|
  {
    if es != [] {
      var acc' := if Declared(s, es[0].0) then acc else Put(acc, es[0].0, es[0].1);
      assert forall j :: 0 <= j < |es| - 1 ==> es[1..][j] == es[j + 1];
      AttachUndeclaredKeeps(s, acc', es[1..], k);
    }
  }

  /** Each undeclared pair is attached with its value unchanged and
      unvalidated (the last one, should a key repeat). */
  lemma {:induction false} AttachUndeclaredValue(s: Schema, acc: seq<(string, Value)>,
                                                 es: seq<(string, Value)>, i: nat)
    requires i < |es| && !Declared(s, es[i].0)
    requires forall j :: i < j < |es| ==> es[j].0 != es[i].0
    ensures Lookup(AttachUndeclared(s, acc, es), es[i].0) == Some(es[i].1)
    decreases i
  {
    var acc' := if Declared(s, es[0].0) then acc else Put(acc, es[0].0, es[0].1);
    if i == 0 {
      forall j | 0 <= j < |es| - 1 ensures es[1..][j].0 != es[0].0 {
        assert es[1..][j] == es[j + 1];
      }
      AttachUndeclaredKeeps(s, acc', es[1..], es[0].0);
    } else {
      assert es[1..][i - 1] == es[i];
      forall j | i - 1 < j < |es| - 1 ensures es[1..][j].0 != es[i].0 {
        assert es[1..][j] == es[j + 1];
      }
      AttachUndeclaredValue(s, acc', es[1..], i - 1);
    }
  }

  /** A dynamic contract fills its fields exactly as the lenient contract of
      the same classes does, and fails exactly when it does; on success it
      also carries every undeclared input pair. */
  lemma DynamicIsLenientPlusExtras(chain: seq<ClassDecl>, obj: Value, kwargs: seq<(string, Value)>, coerce: Coerce)
    ensures var dyn := Build(ContractType(chain, Dynamic), obj, kwargs, coerce);
            var len := Build(ContractType(chain, Lenient), obj, kwargs, coerce);
            && (dyn.Ok? <==> len.Ok?)
            && (dyn.Err? ==> dyn.failure == len.failure)
            && (dyn.Ok? ==> && dyn.value.schema == len.value.schema
                            && dyn.value.store == len.value.store
                            && len.value.extras == []
                            && dyn.value.extras == AttachUndeclared(dyn.value.schema, [], Source(obj, kwargs).entries))
  {
    var ctd, ctl := ContractType(chain, Dynamic), ContractType(chain, Lenient);
    var src := Source(obj, kwargs);
    assert TypeName(ctd) == TypeName(ctl);
    assert Discover(ctd, src) == Discover(ctl, src);
    if !(!obj.VNone? && kwargs != []) && Discover(ctd, src).Ok? {
      var sc := Discover(ctd, src).value;
      assert Build(ctd, obj, kwargs, coerce) == Populate(ctd, sc, src, coerce);
      assert Build(ctl, obj, kwargs, coerce) == Populate(ctl, sc, src, coerce);
      if IsMapping(src) {
        DiscoverAccepts(ctd, src);
        var owner := TypeName(ctd);
        LenientIgnoresUndeclared(owner, sc, map[], src.entries, coerce);
        var stores := PopulateFrom(owner, true, sc, map[], src.entries, coerce);
        assert Populate(ctl, sc, src, coerce) ==
          match stores
          case Err(f) => Err(f)
          case Ok(store) => Ok(Instance(ctl, sc, store, []));
        assert Populate(ctd, sc, src, coerce) ==
          match stores
          case Err(f) => Err(f)
          case Ok(store) => Ok(Instance(ctd, sc, store, AttachUndeclared(sc, [], src.entries)));
      }
    }
  }

  /** A strict contract that accepts an input gives the instance the lenient
      contract of the same classes gives. */
  lemma StrictOkIsLenientBuild(chain: seq<ClassDecl>, obj: Value, kwargs: seq<(string, Value)>, coerce: Coerce)
    requires Build(ContractType(chain, Strict), obj, kwargs, coerce).Ok?
    ensures var len := Build(ContractType(chain, Lenient), obj, kwargs, coerce);
            && len.Ok?
            && len.value == Build(ContractType(chain, Strict), obj, kwargs, coerce).value.(ctype := len.value.ctype)
  {
    var cts, ctl := ContractType(chain, Strict), ContractType(chain, Lenient);
    var src := Source(obj, kwargs);
    assert TypeName(cts) == TypeName(ctl);
    assert Discover(cts, src) == Discover(ctl, src);
    var sc := Discover(cts, src).value;
    assert Build(cts, obj, kwargs, coerce) == Populate(cts, sc, src, coerce);
    assert Build(ctl, obj, kwargs, coerce) == Populate(ctl, sc, src, coerce);
    DiscoverAccepts(cts, src);
    StrictOkIsLenientPopulate(chain, sc, src, coerce);
  }

  /** The population half of the above, for tables that are well formed. */
  lemma StrictOkIsLenientPopulate(chain: seq<ClassDecl>, s: Schema, src: Value, coerce: Coerce)
    requires WellFormed(s)
    requires Populate(ContractType(chain, Strict), s, src, coerce).Ok?
    ensures var strict := Populate(ContractType(chain, Strict), s, src, coerce).value;
            Populate(ContractType(chain, Lenient), s, src, coerce) == Ok(strict.(ctype := ContractType(chain, Lenient)))
  {
    var owner := TypeName(ContractType(chain, Strict));
    assert owner == TypeName(ContractType(chain, Lenient));
    StrictOkIsLenient(owner, s, map[], src.entries, coerce);
  }

  /** Whether the input key `key` reaches a field whose value is kept under
      the store name `n`. */
  predicate Reaches(s: Schema, key: string, n: string) {
    var t := Lookup(s.fields, RemapKey(s, key));
    t.Some? && t.value.name == n
  }

  /** A pair that succeeds leaves every store name it does not reach as it was. */
  lemma EntryUntouched(owner: string, ignore: bool, s: Schema, store: map<string, Value>,
                       key: string, value: Value, coerce: Coerce, n: string)
    requires PopulateEntry(owner, ignore, s, store, key, value, coerce).Ok?
    requires !Reaches(s, key, n)
    ensures var st := PopulateEntry(owner, ignore, s, store, key, value, coerce).value;
            (n in st <==> n in store) && (n in store ==> st[n] == store[n])
  {
  }

  /** A pair that succeeds and reaches field `p` leaves `p` reading the
      incoming value: None as it came, any other value deserialized. */
  lemma EntryStores(owner: string, ignore: bool, s: Schema, store: map<string, Value>,
                    key: string, value: Value, coerce: Coerce)
    requires PopulateEntry(owner, ignore, s, store, key, value, coerce).Ok?
    requires Lookup(s.fields, RemapKey(s, key)).Some?
    ensures var p := Lookup(s.fields, RemapKey(s, key)).value;
            && (!value.VNone? ==> Deserialize(p, value, coerce).Ok?)
            && Get(p, PopulateEntry(owner, ignore, s, store, key, value, coerce).value)
               == Ok(if value.VNone? then VNone else Deserialize(p, value, coerce).value)
  {
  }

  /** Population that succeeds leaves every store name that no pair reaches
      as it was. */
  lemma {:induction false} PopulateFromUntouched(owner: string, ignore: bool, s: Schema, store: map<string, Value>,
                                                 es: seq<(string, Value)>, coerce: Coerce, n: string)
    requires PopulateFrom(owner, ignore, s, store, es, coerce).Ok?
    requires forall j :: 0 <= j < |es| ==> !Reaches(s, es[j].0, n)
    ensures var st := PopulateFrom(owner, ignore, s, store, es, coerce).value;
            (n in st <==> n in store) && (n in store ==> st[n] == store[n])
    decreases |es|
  {
    if es != [] {
      var e := PopulateEntry(owner, ignore, s, store, es[0].0, es[0].1, coerce);
      var store' := e.value;
      PopulateFromStep(owner, ignore, s, store, es, coerce, Ok(()), store');
      EntryUntouched(owner, ignore, s, store, es[0].0, es[0].1, coerce, n);
      forall j | 0 <= j < |es| - 1 ensures !Reaches(s, es[1..][j].0, n) {
        assert es[1..][j] == es[j + 1];
      }
      PopulateFromUntouched(owner, ignore, s, store', es[1..], coerce, n);
    }
  }

  /** Population that succeeds leaves the field `p` reached by pair `i`
      reading that pair's incoming value, unless a later pair reaches a field
      kept under the same store name. */
  lemma {:induction false} PopulateFromStores(owner: string, ignore: bool, s: Schema, store: map<string, Value>,
                                              es: seq<(string, Value)>, coerce: Coerce, i: nat)
    requires PopulateFrom(owner, ignore, s, store, es, coerce).Ok?
    requires i < |es| && Lookup(s.fields, RemapKey(s, es[i].0)).Some?
    requires forall j :: i < j < |es| ==> !Reaches(s, es[j].0, Lookup(s.fields, RemapKey(s, es[i].0)).value.name)
    ensures var p, v := Lookup(s.fields, RemapKey(s, es[i].0)).value, es[i].1;
            && (!v.VNone? ==> Deserialize(p, v, coerce).Ok?)
            && Get(p, PopulateFrom(owner, ignore, s, store, es, coerce).value)
               == Ok(if v.VNone? then VNone else Deserialize(p, v, coerce).value)
    decreases i
  {
    var e := PopulateEntry(owner, ignore, s, store, es[0].0, es[0].1, coerce);
    var store' := e.value;
    PopulateFromStep(owner, ignore, s, store, es, coerce, Ok(()), store');
    var p := Lookup(s.fields, RemapKey(s, es[i].0)).value;
    if i == 0 {
      EntryStores(owner, ignore, s, store, es[0].0, es[0].1, coerce);
      forall j | 0 <= j < |es| - 1 ensures !Reaches(s, es[1..][j].0, p.name) {
        assert es[1..][j] == es[j + 1];
      }
      PopulateFromUntouched(owner, ignore, s, store', es[1..], coerce, p.name);
      assert Stored(p, PopulateFrom(owner, ignore, s, store', es[1..], coerce).value) == Stored(p, store');
    } else {
      assert es[1..][i - 1] == es[i];
      forall j | i - 1 < j < |es| - 1 ensures !Reaches(s, es[1..][j].0, p.name) {
        assert es[1..][j] == es[j + 1];
      }
      PopulateFromStores(owner, ignore, s, store', es[1..], coerce, i - 1);
    }
  }

  /** A construction that succeeds discovered the class's tables and then
      populated every input pair from the empty store; for a dynamic contract
      the pairs it leaves out of population are exactly the ones no field
      takes, so the policy only decides whether an undeclared key is an
      error. */
  lemma BuildPopulates(ct: ContractType, obj: Value, kwargs: seq<(string, Value)>, coerce: Coerce)
    requires Build(ct, obj, kwargs, coerce).Ok?
    ensures var inst, src := Build(ct, obj, kwargs, coerce).value, Source(obj, kwargs);
            var st := PopulateFrom(TypeName(ct), ct.policy != Strict, SchemaOf(ct), map[], src.entries, coerce);
            && inst.schema == SchemaOf(ct)
            && st.Ok? && inst.store == st.value
  {
    var src := Source(obj, kwargs);
    DiscoverAccepts(ct, src);
    var s := SchemaOf(ct);
    assert Build(ct, obj, kwargs, coerce) == Populate(ct, s, src, coerce);
    if ct.policy == Dynamic {
      LenientIgnoresUndeclared(TypeName(ct), s, map[], src.entries, coerce);
    }
  }

  /** What a construction that succeeds stores: the field `p` that input pair
      `i` reaches reads that pair's value (deserialized unless it is None),
      unless a later pair reaches a field kept under the same store name. */
  lemma BuildStores(ct: ContractType, obj: Value, kwargs: seq<(string, Value)>, coerce: Coerce, i: nat)
    requires Build(ct, obj, kwargs, coerce).Ok?
    requires var src := Source(obj, kwargs); src.VDict? && i < |src.entries|
    requires var es, s := Source(obj, kwargs).entries, SchemaOf(ct);
             Lookup(s.fields, RemapKey(s, es[i].0)).Some?
    requires var es, s := Source(obj, kwargs).entries, SchemaOf(ct);
             forall j :: i < j < |es| ==> !Reaches(s, es[j].0, Lookup(s.fields, RemapKey(s, es[i].0)).value.name)
    ensures var es, s := Source(obj, kwargs).entries, SchemaOf(ct);
            var p, v := Lookup(s.fields, RemapKey(s, es[i].0)).value, es[i].1;
            && (!v.VNone? ==> Deserialize(p, v, coerce).Ok?)
            && Get(p, Build(ct, obj, kwargs, coerce).value.store)
               == Ok(if v.VNone? then VNone else Deserialize(p, v, coerce).value)
  {
    BuildPopulates(ct, obj, kwargs, coerce);
    PopulateFromStores(TypeName(ct), ct.policy != Strict, SchemaOf(ct), map[], Source(obj, kwargs).entries, coerce, i);
  }

  /** A construction that succeeds stores nothing under a name no input pair
      reaches: the fields kept under it read their default. */
  lemma BuildUntouched(ct: ContractType, obj: Value, kwargs: seq<(string, Value)>, coerce: Coerce, n: string)
    requires Build(ct, obj, kwargs, coerce).Ok?
    requires var src := Source(obj, kwargs);
             src.VDict? && forall j :: 0 <= j < |src.entries| ==> !Reaches(SchemaOf(ct), src.entries[j].0, n)
    ensures n !in Build(ct, obj, kwargs, coerce).value.store
  {
    BuildPopulates(ct, obj, kwargs, coerce);
    PopulateFromUntouched(TypeName(ct), ct.policy != Strict, SchemaOf(ct), map[], Source(obj, kwargs).entries, coerce, n);
  }

  /** The pair `(key, value)` reaches a field that takes its value: the value
      deserializes (unless it is None) to one the field's setter accepts. */
  predicate FieldAccepts(s: Schema, key: string, value: Value, coerce: Coerce) {
    var t := Lookup(s.fields, RemapKey(s, key));
    && t.Some?
    && (!value.VNone? ==> Deserialize(t.value, value, coerce).Ok?)
    && Conforms(t.value, if value.VNone? then VNone else Deserialize(t.value, value, coerce).value)
  }

  /** Population succeeds, under either policy and from any store, on an input
      whose every pair reaches a field that takes its value. */
  lemma {:induction false} PopulateFromOk(owner: string, ignore: bool, s: Schema, store: map<string, Value>,
                                          es: seq<(string, Value)>, coerce: Coerce)
    requires forall j :: 0 <= j < |es| ==> FieldAccepts(s, es[j].0, es[j].1, coerce)
    ensures PopulateFrom(owner, ignore, s, store, es, coerce).Ok?
    decreases |es|
  {
    if es != [] {
      assert FieldAccepts(s, es[0].0, es[0].1, coerce);
      var e := PopulateEntry(owner, ignore, s, store, es[0].0, es[0].1, coerce);
      assert e.Ok?;
      PopulateFromStep(owner, ignore, s, store, es, coerce, Ok(()), e.value);
      forall j | 0 <= j < |es| - 1 ensures FieldAccepts(s, es[1..][j].0, es[1..][j].1, coerce) {
        assert es[1..][j] == es[j + 1];
      }
      PopulateFromOk(owner, ignore, s, e.value, es[1..], coerce);
    }
  }

  /** `_populate_properties` succeeds, under every policy, on a mapping whose
      every pair reaches a field that takes its value. */
  lemma PopulateAccepted(ct: ContractType, s: Schema, src: Value, coerce: Coerce)
    requires WellFormed(s) && src.VDict?
    requires forall j :: 0 <= j < |src.entries| ==> FieldAccepts(s, src.entries[j].0, src.entries[j].1, coerce)
    ensures Populate(ct, s, src, coerce).Ok?
  {
    var owner := TypeName(ct);
    PopulateFromOk(owner, ct.policy == Lenient, s, map[], src.entries, coerce);
    if ct.policy == Dynamic {
      PopulateFromOk(owner, true, s, map[], src.entries, coerce);
      LenientIgnoresUndeclared(owner, s, map[], src.entries, coerce);
    }
  }

  /** Construction from a mapping that discovery accepts succeeds when every
      pair reaches a field that takes its value. */
  lemma BuildAccepted(ct: ContractType, src: Value, coerce: Coerce)
    requires src.VDict? && Discover(ct, src).Ok?
    requires forall j :: 0 <= j < |src.entries| ==>
               FieldAccepts(Discover(ct, src).value, src.entries[j].0, src.entries[j].1, coerce)
    ensures Build(ct, src, [], coerce).Ok?
  {
    DiscoverAccepts(ct, src);
    assert Source(src, []) == src;
    PopulateAccepted(ct, Discover(ct, src).value, src, coerce);
  }

  /** The declared pairs of a single pair: the pair itself when its key is
      declared, and nothing otherwise. */
  lemma ContainedOne(s: Schema, e: (string, Value))
    ensures Contained(s, [e]) == if Declared(s, e.0) then [e] else []
  {
    assert [e][1..] == [];
  }

  /** Filtering keeps the input order and every repetition: the declared
      pairs of two runs of input are those of the first run followed by
      those of the second. */
  lemma {:induction false} ContainedAppend(s: Schema, a: seq<(string, Value)>, b: seq<(string, Value)>)
    ensures Contained(s, a + b) == Contained(s, a) + Contained(s, b)
    decreases |a|
  {
    if a == [] {
      assert a + b == b;
    } else {
      assert (a + b)[0] == a[0];
      assert (a + b)[1..] == a[1..] + b;
      ContainedAppend(s, a[1..], b);
    }
  }
}
