# lazycontract in Dafny

A model of `lazycontract`, a small Python library for declaring data contracts.

A contract class declares typed properties (`LazyProperty` descriptors). Constructing the class from a mapping happens in two steps:

1. **Discovery** walks the contract classes of the ancestry from base to derived. It builds the field table (field id to property) and the external-name table (external name to field id). It rejects an input that is not a mapping, or that misses a required or not-none field.
2. **Population** feeds each input pair through the field's `deserialize` and its validating setter. Under each policy:
   - `LazyContract` skips undeclared keys.
   - `StrictContract` rejects undeclared keys.
   - `DynamicContract` attaches undeclared keys as unvalidated attributes.

Failures inside a nested contract are re-raised with the field id in front of their path. A built contract can be turned back into a dictionary (`to_dict`) and compared (`==`, `!=`).

Modules, one per file:

- `Values` (`values.dfy`): Python values, `isinstance`, truthiness, and insertion-ordered dictionaries as `seq<(string, V)>` with `Lookup` and `Put`.
- `Errors` (`errors.dfy`): `LazyContractError`, `LazyContractValidationError` as owner class, path and reason, and the re-wrapping of nested failures.
- `Property` (`property.dfy`): `LazyProperty` as a value. It covers:
  - construction;
  - `validate`;
  - `__get__` and `__set__` over a per-instance store keyed by the property's name;
  - `serialize` and `deserialize`.
- `Discovery` (`discovery.dfy`): the class chain, the field and external-name tables, registration, the presence checks and `Discover`.
- `Population` (`population.dfy`): remapping, per-pair population, the three policies, and `Build`, which is the whole of `LazyContract.__init__`.
- `Contracts` (`contract.dfy`): the contract instance as a `class` whose fields are the tables, the store and the dynamic attributes. Its methods mirror the source's loops, and each is proved to end in the state the functions of `Discovery` and `Population` describe.
- `Output` (`output.dfy`): `__iter_properties`, `to_dict`, `__eq__` and `__ne__`, and the operators `==` and `!=` that dispatch to them.
- `DiscoveryLaws`, `PopulationLaws`, `OutputLaws`: properties of the functional model.
- `Rediscovery` (`rediscovery.dfy`): how a later construction of the same class sees the descriptors, which an earlier construction that got past discovery has renamed (see Findings).
- `RoundTrip` (`roundtrip.dfy`): the conditions under which building a class again from an instance's `to_dict()` gives an equal instance, and the proof that it then does.
- `Scenarios` (`scenarios.dfy`): small concrete contracts and what constructing them yields.

Modelling decisions:

- **Class chain.** A contract class is a chain of its own contract class declarations, most-base first, together with a policy. The policy stands for the base it derives from: `LazyContract`, `StrictContract` or `DynamicContract`. Those bases declare no properties, so the chain leaves them out; only `LazyContract` itself has the empty chain. Each declaration is a field id and a property, in body order.
- **Value equality.** `__eq__` compares `(id, property, value)` triples with Python's `==` (line 218). On values this is `Values.PyEq`: `True == 1` and `False == 0`, lists compare element by element, and dictionaries compare as mappings whatever their insertion order.
- **Operator dispatch.** The operator `a == b` is not always `a.__eq__(b)`. When the class of `b` is a proper subclass of the class of `a`, Python calls `b.__eq__(a)` first. `LazyContract.__eq__` never returns `NotImplemented`, so that answer is final. `Output.EqOperator` and `Output.NeOperator` model this dispatch, and `Output.Equal` and `Output.NotEqual` are the direct method calls.
- **Descriptor identity.** Python compares descriptors by identity. The model compares them as values that carry the class that declares them (`owner`).
- **Name resolution.** Following the first construction, an anonymous property takes its field id as its name and records no external name. A property named explicitly records `name -> id`.
- **Type coercion.** The coercion `_type(obj)` is a parameter `coerce: (Tag, Value) -> Result<Value>`.
- **Nested path of a missing required field.** A nested contract `B` missing its required field `z` fails the outer construction at the outer key only, `.bField`. The reason is that REQUIRED is raised at the root path `""` of `B` (lines 157-164), and the enclosing contract then prefixes only its own key (lines 197-207) (`Scenarios.NestedMissingFieldPath`). A nested failure that carries a path of its own, such as a failed coercion of `z`, does accumulate to `.bField.z` (`Scenarios.NestedBadValuePath`).

## Model

| member | source | states |
|---|---|---|
| Errors.Rewrap | lazycontract/contract.py:193-207 | A failure of `deserialize` becomes a validation error of the enclosing contract. A validation error keeps its reason and gets path `"." + key + inner path`; any other exception gets path `"." + key` and its text as the reason. |
| Property.NewProp | lazycontract/contract.py:43-66 | Fails with the configuration error exactly when `required` holds and the default is not None, whatever the other flags; otherwise copies the flags and uses `"(anonymous)"` for a missing or empty name. |
| Property.Bind | lazycontract/contract.py:152-153 | Discovery's binding of a property to field `id`: an anonymous property takes the id as its name, a named one keeps its name. |
| Property.Validate | lazycontract/contract.py:77-93 | Accepts exactly the conforming values. None on a not-none property fails with empty path and NOT_NONE; a non-None value of the wrong type fails with path `"." + name`. |
| Property.Get | lazycontract/contract.py:68-71 | Reads the stored value, or the default when nothing is stored, and succeeds exactly when that value validates. |
| Property.Assign | lazycontract/contract.py:73-75 | Stores the value under the property's name exactly when it validates; the failure is `validate`'s. |
| Property.Serialize | lazycontract/contract.py:95-100 | The base `serialize` returns its argument unchanged, so a conforming value still conforms. |
| Property.Deserialize | lazycontract/contract.py:102-107 | A value already of the property's type is returned unchanged; any other goes to the type's constructor. |
| Property.GetAfterAssign | lazycontract/contract.py:68-75 | A successful write is what the next read returns. |
| Property.DeserializeSerialize | lazycontract/contract.py:95-107 | `deserialize` undoes `serialize` for every value of the property's type. |
| Values.Lookup | lazycontract/contract.py:184-195 | A key is found exactly when it is a key of the dictionary, and then with a value stored under it. |
| Values.Put | lazycontract/contract.py:150-155 | Dictionary assignment: the key is added, reads back the new value, other keys read as before, keys stay unique, an existing key keeps its position and a new one goes last. |
| Discovery.RegisterAll | lazycontract/contract.py:148-155 | Registering the declarations one after another keeps well-formed tables well formed. |
| Discovery.Register | lazycontract/contract.py:148-155 | Registration replaces an earlier entry for the same id in place or appends it, records an explicit external name, and keeps the tables well formed. |
| Discovery.Presence | lazycontract/contract.py:157-172 | Fails exactly when neither the external name nor the id is an input key and the property is required, or not-none without default. REQUIRED is reported before NOT_NONE, at the root path. |
| Discovery.SchemaOf | lazycontract/contract.py:124-129 | The tables of a contract class are well formed: ids are unique and every external name leads to a declared id. |
| Discovery.DiscoverFromAppend | lazycontract/contract.py:127-129 | Discovery class by class is discovery over the concatenated declarations. |
| DiscoveryLaws.DiscoverFromOk | lazycontract/contract.py:148-172 | Discovery succeeds exactly when every declaration passes its presence check, and then builds the tables registration alone builds. |
| DiscoveryLaws.DiscoverFromFirstFailure | lazycontract/contract.py:148-172 | Discovery fails with the failure of the first declaration whose check fails. |
| DiscoveryLaws.DiscoverFromFailure | lazycontract/contract.py:157-172 | Every discovery failure over declarations is REQUIRED or NOT_NONE of the contract at path `""`. |
| DiscoveryLaws.DiscoverFailsAtRoot | lazycontract/contract.py:142-172 | Every discovery failure is at the root path and is not-a-dictionary, REQUIRED or NOT_NONE. |
| DiscoveryLaws.DiscoverAccepts | lazycontract/contract.py:124-172 | Discovery accepts an input exactly when it is a mapping and no declaration of the chain misses a required or not-none field; the tables then do not depend on the input. |
| DiscoveryLaws.MissingRequiredRejected | lazycontract/contract.py:157-164 | A required field absent from the input under both its names makes construction fail at the root path. |
| DiscoveryLaws.RegisterAllUntouched | lazycontract/contract.py:148-150 | The field entry of an id no declaration names is left alone. |
| DiscoveryLaws.RegisterAllLastWins | lazycontract/contract.py:127-150 | The field table holds, for each id, the property of its last declaration: the derived class wins. |
| DiscoveryLaws.RegisterAllKeys | lazycontract/contract.py:148-150 | The field ids are exactly the ids declared anywhere in the chain. |
| DiscoveryLaws.RegisterAllMappingUntouched | lazycontract/contract.py:152-155 | An external name no declaration gives explicitly is left alone in the name table. |
| DiscoveryLaws.RegisterAllMapping | lazycontract/contract.py:152-155 | An explicit external name leads to the id of the last declaration that gives it. |
| DiscoveryLaws.RedeclaredFieldCheckedPerClass | lazycontract/contract.py:127-164 | A base class's required `x` rejects an input without `x` although the subclass makes `x` optional and the table holds only the subclass's property. |
| Population.Contained | lazycontract/contract.py:254-256 | The pairs passed to normal population are exactly the input pairs whose key is a field id or an external name. |
| PopulationLaws.ContainedOne | lazycontract/contract.py:254-256 | A single pair is kept exactly when its key is declared. |
| PopulationLaws.ContainedAppend | lazycontract/contract.py:254-256 | The kept pairs of two runs of input are those of the first run followed by those of the second, so the filter keeps input order and repetitions. |
| PopulationLaws.RemapFindsField | lazycontract/contract.py:181-184 | After remapping, a key names a field exactly when it is a field id or an external name; an undeclared key is left as it is. |
| PopulationLaws.LenientSkipsUndeclared | lazycontract/contract.py:184-186 | The lenient policy skips an undeclared pair and leaves the store unchanged. |
| PopulationLaws.StrictRejectsUndeclared | lazycontract/contract.py:184-191 | The strict policy rejects an undeclared pair with INVALID_ATTR at path `"." + key`. |
| PopulationLaws.LenientIgnoresUndeclared | lazycontract/contract.py:180-209 | Lenient population of the whole input equals population of its declared pairs alone. |
| PopulationLaws.StrictOkIsLenient | lazycontract/contract.py:184-191 | A strict population that succeeds saw only declared keys and gives the lenient result. (`StrictContract` sets the flag at line 247.) |
| PopulationLaws.StrictAgreesOnDeclared | lazycontract/contract.py:184-191 | On inputs with only declared keys, strict and lenient population agree. |
| PopulationLaws.NestedFailureWrapped | lazycontract/contract.py:193-207 | A `deserialize` failure is re-raised under the remapped field id as path prefix. |
| PopulationLaws.SetterFailureNotWrapped | lazycontract/contract.py:209 | A failure of the setter after deserialization is raised as `validate` produced it, not re-wrapped. |
| PopulationLaws.NoneSkipsDeserialize | lazycontract/contract.py:193-209 | None skips `deserialize` but still goes through the validating setter. |
| PopulationLaws.AttachUndeclaredKeys | lazycontract/contract.py:259-261 | The attributes a dynamic contract attaches are exactly the undeclared input keys. |
| PopulationLaws.AttachUndeclaredKeeps | lazycontract/contract.py:259-261 | An attribute is left alone by later pairs with other keys. |
| PopulationLaws.AttachUndeclaredValue | lazycontract/contract.py:259-261 | Each undeclared pair is attached with its value unchanged (the last pair with a key wins). |
| PopulationLaws.DynamicIsLenientPlusExtras | lazycontract/contract.py:253-261 | A dynamic contract succeeds or fails as the lenient contract with the same chain, has the same tables and store, and in addition carries the undeclared pairs. |
| PopulationLaws.StrictOkIsLenientPopulate | lazycontract/contract.py:184-191 | On the same tables, a strict `_populate_properties` that succeeds gives the store the lenient one gives. |
| PopulationLaws.StrictOkIsLenientBuild | lazycontract/contract.py:243-247 | A strict contract that accepts an input builds the instance the lenient contract builds, and the input has only declared keys. |
| PopulationLaws.EntryUntouched | lazycontract/contract.py:180-209 | A pair that succeeds leaves every store name it does not reach as it was. |
| PopulationLaws.EntryStores | lazycontract/contract.py:193-209 | A pair that succeeds and reaches field `p` leaves `p` reading the pair's value: None as it came, any other value as `deserialize` returned it. |
| PopulationLaws.PopulateFromUntouched | lazycontract/contract.py:180-209 | Population that succeeds leaves every store name that no input pair reaches as it was. |
| PopulationLaws.PopulateFromStores | lazycontract/contract.py:180-209 | Population that succeeds leaves the field reached by pair `i` reading that pair's value (deserialized unless None), unless a later pair reaches a field kept under the same store name. |
| PopulationLaws.PopulateFromOk | lazycontract/contract.py:180-209 | Population succeeds, under either policy and from any store, when every pair reaches a field whose setter accepts the deserialized value. |
| PopulationLaws.BuildPopulates | lazycontract/contract.py:124-131 | A construction that succeeds has the class's discovered tables, and its store is population of every input pair from the empty store; a dynamic contract's restriction to declared pairs changes nothing there. |
| PopulationLaws.BuildStores | lazycontract/contract.py:180-209 | After a successful construction, the field reached by input pair `i` reads that pair's value (deserialized unless None), unless a later pair reaches a field under the same store name. |
| PopulationLaws.BuildUntouched | lazycontract/contract.py:180-209 | After a successful construction, nothing is stored under a name no input pair reaches, so its fields read their default. |
| PopulationLaws.PopulateAccepted | lazycontract/contract.py:174-209 | `_populate_properties` succeeds under every policy on a mapping whose every pair reaches a field that takes its value. (The dynamic variant is at lines 253-261.) |
| PopulationLaws.BuildAccepted | lazycontract/contract.py:115-131 | Construction from a mapping that discovery accepts succeeds when every pair reaches a field that takes its value. |
| Population.Build | lazycontract/contract.py:115-131 | Passing both `_obj` and keyword arguments is the configuration error, for every class, policy and argument; a successful construction has the class it was called on and read a mapping. |
| RoundTrip.KeyReaches | lazycontract/contract.py:181-184 | For a class without private, shared or rerouted external names, a key of `to_dict` reaches exactly the field whose external name it is. |
| RoundTrip.AgainDiscovers | lazycontract/contract.py:157-172 | Discovery accepts an instance's `to_dict` for such a class and rebuilds the class's tables. |
| RoundTrip.AgainBuilds | lazycontract/contract.py:115-131 | Construction accepts an instance's `to_dict()` for a class meeting the round-trip conditions. |
| RoundTrip.AgainReads | lazycontract/contract.py:180-234 | Each field of the instance rebuilt from `to_dict` reads what it read in the original. |
| RoundTrip.ToDictRoundTrip | lazycontract/contract.py:226-234 | Building such a class again from an instance's `to_dict()` succeeds and gives an instance equal to it, under both `__eq__` and `==`. (Construction is lines 115-131.) |
| RoundTrip.BuildRoundTrip | lazycontract/contract.py:115-131 | The same for an instance as construction leaves it. |
| Contracts.Contract.constructor | lazycontract/contract.py:124-125 | A new instance has empty tables, store and attributes. |
| Contracts.Contract.Init | lazycontract/contract.py:115-131 | `__init__` succeeds or fails exactly as `Build`, with the same failure, and leaves the instance in the state `Build` describes. |
| Contracts.Contract.DiscoverChain | lazycontract/contract.py:124-129 | The loop over the ancestry, base first, succeeds or fails exactly as `Discover`, with the same failure, and on success leaves the tables `Discover` builds. |
| Contracts.Contract.DiscoverClass | lazycontract/contract.py:142-172 | One class's discovery loop rejects a non-mapping at the root path, and otherwise ends with the outcome and tables of discovery over that class's declarations. |
| Contracts.Contract.DiscoverDecl | lazycontract/contract.py:148-172 | One declaration registers its property (and an explicit external name) before its presence check, and fails exactly when that check fails, with its failure. |
| Contracts.Contract.Populate | lazycontract/contract.py:174-209 | The population loop rejects a non-mapping without touching the store, and otherwise ends with the outcome and store of functional population. |
| Contracts.Contract.PopulateOne | lazycontract/contract.py:180-209 | One input pair succeeds or fails exactly as `PopulateEntry`, with the same failure; on success the store is the one `PopulateEntry` gives, and on failure it is unchanged. |
| Contracts.Contract.PopulateByPolicy | lazycontract/contract.py:174-209 | The policy's `_populate_properties` succeeds or fails exactly as functional `Populate` for the contract's policy, and on success leaves the store and attributes it describes. (The dynamic variant is at lines 253-261.) |
| Contracts.Contract.AttachExtras | lazycontract/contract.py:259-261 | The attribute loop leaves exactly the attributes `AttachUndeclared` computes from the earlier ones and the input pairs. |
| Contracts.Contract.PopulateDynamic | lazycontract/contract.py:253-261 | Populates leniently from the declared pairs, then attaches exactly the undeclared pairs to the instance. |
| Contracts.Contract.Set | lazycontract/contract.py:73-75 | `setattr` on a field stores the value under the property's name exactly when it validates, and leaves the store unchanged otherwise. (Called from population at line 209.) |
| Contracts.Contract.Get | lazycontract/contract.py:68-71 | `getattr` on a field returns the stored value or the default, and fails exactly when that value does not validate. |
| Contracts.Construct | lazycontract/contract.py:115-131 | Calling a contract class yields a fresh instance exactly when `Build` succeeds, in the state `Build` describes, and otherwise `Build`'s failure. |
| Output.TriplesOf | lazycontract/contract.py:211-213 | Iteration yields each field id with its property and the value `getattr` reads. It fails exactly when some field's value does not validate, and then with the failure of the first such field in table order. |
| Output.ToDict | lazycontract/contract.py:226-234 | `to_dict` fails exactly when a read fails, with that read's failure. |
| Output.NotEqual | lazycontract/contract.py:223-224 | `a.__ne__(b)` is the negation of `a.__eq__(b)`, and fails exactly when it fails. |
| Output.NeOperator | lazycontract/contract.py:223-224 | The operator `a != b`, dispatched like `==`, is the negation of `a == b`, and fails exactly when `a == b` fails. |
| Values.PyEqReflexive | lazycontract/contract.py:217-219 | Python's `==` on values holds between a value and itself, so a field always agrees with itself. |
| Values.PyEqSymmetric | lazycontract/contract.py:217-219 | Python's `==` on values is symmetric. |
| OutputLaws.IncludedNamesIff | lazycontract/contract.py:229-234 | A name is emitted exactly when some included triple carries it. |
| OutputLaws.DictFromKeys | lazycontract/contract.py:229-234 | The dictionary's keys are the included names, each once. |
| OutputLaws.DictFromUntouched | lazycontract/contract.py:229-234 | A name no included triple carries keeps its entry. |
| OutputLaws.DictFromValue | lazycontract/contract.py:229-234 | An included triple's serialized value is what the dictionary holds under its name, unless a later one has the same name. |
| OutputLaws.ToDictKeys | lazycontract/contract.py:226-234 | `to_dict`'s keys are exactly the external names of fields that are not private and do not hold None with `exclude_if_none`; no key starts with `_` and none repeats. |
| OutputLaws.ToDictValue | lazycontract/contract.py:229-230 | The value under a field's external name is `serialize` of the value the field reads. |
| OutputLaws.ToDictOmitsExcludedNone | lazycontract/contract.py:233 | An unset or None field with `exclude_if_none` is absent from `to_dict`. |
| OutputLaws.ToDictKeepsNone | lazycontract/contract.py:233 | A public None field without `exclude_if_none` is present with None. |
| OutputLaws.EqFromZip | lazycontract/contract.py:217-219 | The lazy pairwise walk yields whether the triples agree up to the shorter list. |
| OutputLaws.EqualZip | lazycontract/contract.py:215-221 | `a.__eq__(b)` holds exactly when the other object is an instance of this class and every zipped `(id, property, value)` triple is equal under Python's `==`: the same id and property, and values `PyEq` equates. |
| OutputLaws.EqualReflexive | lazycontract/contract.py:215-221 | An instance whose fields read back is equal to itself. |
| OutputLaws.EqualSameSchema | lazycontract/contract.py:215-221 | Two instances of one class with the same tables are equal exactly when every field reads, in both, values that Python's `==` equates. |
| OutputLaws.EqualSameReads | lazycontract/contract.py:215-221 | Two instances of one class with the same tables whose fields read the same values are equal. |
| OutputLaws.ChangedFieldUnequal | lazycontract/contract.py:215-221 | Changing one field to a value that Python's `==` tells apart from the old one makes the instance unequal to the original. |
| OutputLaws.EqFromIgnoresExtras | lazycontract/contract.py:211-219 | Attributes a dynamic contract attached play no part in equality. |
| OutputLaws.EqOperatorSameClass | lazycontract/contract.py:215-221 | In a class hierarchy without cycles, `a == b` holds only between instances of one class. |
| OutputLaws.EqOperatorSubclassUnequal | lazycontract/contract.py:215-221 | Between an instance of a class and one of a proper subclass, `==` is false both ways round. |
| OutputLaws.EqOperatorSymmetric | lazycontract/contract.py:215-221 | Between instances of one class whose fields all read, `a == b` and `b == a` agree. |
| Rediscovery.Renamed | lazycontract/contract.py:152-153 | On a later construction a descriptor carries the name the first construction gave it. |
| Rediscovery.RenamedAll | lazycontract/contract.py:148-153 | After a construction whose discovery reached every declaration, every declaration of the chain is seen renamed. |
| Rediscovery.LaterSchemaOf | lazycontract/contract.py:148-155 | The tables a later construction builds are well formed. |
| Rediscovery.LaterConstructionReroutes | lazycontract/contract.py:152-155 | As written: with `a = IntProp(name="b")` before `b = StrProp()`, the first construction routes input key `b` to field `a` and every later one to field `b`. (The routing is at lines 181-182.) |
| Rediscovery.ExternalNamesExplicit | lazycontract/contract.py:152-155 | Corrected: a key leads elsewhere only if some declaration gives it as explicit name, and then to that declaration's field. |
| Rediscovery.AnonymousIdNotRerouted | lazycontract/contract.py:152-155 | Corrected: a key that no declaration gives as explicit name is never rerouted. |
| Scenarios.UnknownKeyUnderEachPolicy | lazycontract/contract.py:180-191 | For input `{"x": 1}`: the strict contract fails at `.x` with INVALID_ATTR; the lenient one keeps no trace of `x`; the dynamic one attaches `x` with value 1. (The dynamic policy is at lines 253-261.) |
| Scenarios.NestedMissingFieldPath | lazycontract/contract.py:157-164 | A nested contract missing its required `z` fails the outer construction at path `.bField`, with reason REQUIRED `z`. (The wrapping is at lines 193-207.) |
| Scenarios.NestedBadValuePath | lazycontract/contract.py:193-207 | A nested field whose coercion fails surfaces at path `.bField.z`, with the coercion's message. |
| Scenarios.OneFieldRoundTrips | lazycontract/contract.py:226-234 | A class with one optional anonymous field omitted when None meets every round-trip condition, so its instances survive `to_dict` and construction. |
| Scenarios.RoundTripLosesExplicitNone | lazycontract/contract.py:226-234 | A field with default 5 set to None is left out of `to_dict`, so building again from `to_dict` gives an unequal instance. (The default read is at line 69.) |
| Scenarios.FalsyObjectIsEmptyMapping | lazycontract/contract.py:129-131 | `_obj or kwargs`: a falsy non-mapping `_obj` such as 0 is treated as the empty mapping, while a truthy one is rejected as not a dictionary. |
| Scenarios.TrueEqualsOne | lazycontract/contract.py:215-221 | An integer field given `True` makes an instance equal to one given 1, through `__eq__` both ways and through `==`, though the stores differ. |
| Scenarios.ReorderedDictsEqual | lazycontract/contract.py:217-219 | `{"p": 1, "q": 2} == {"q": 2, "p": 1}` although the insertion orders differ. |
| Scenarios.DictOrderIgnored | lazycontract/contract.py:215-221 | A dictionary field given the same pairs in another order makes an instance equal under `__eq__` and `==`. |
| Scenarios.EqualAsymmetric | lazycontract/contract.py:216-221 | For `Base(a=1)` and `Derived(a=1)` as construction builds them, `Base(a=1).__eq__(Derived(a=1))` holds and `Derived(a=1).__eq__(Base(a=1))` does not, since the base instance is not an instance of the subclass. The operator `==` is false both ways round. |

## Left out

- Python's descriptor protocol, `__mro__`, `cls.__dict__` and `hasattr(obj, "items")`. They become the explicit class chain, the field table and the `IsMapping` test on values.
- Multiple inheritance. The ancestry is one linear chain, the order `reversed(__mro__)` visits.
- `_type(obj)`, the constructor that `deserialize` calls. It is the `coerce` parameter; only "a value already of the type is unchanged" is checked.
- Subclasses of `LazyProperty` that override `validate`, `serialize` or `deserialize`. The model uses the base behaviour, with the type tag as `_type`.
- Message text. `__str__`, the `*_FMT` strings, `repr(obj)` and exception chaining (`from context`) are left out. Errors keep owner class, path and reason.
- `__repr__` and `contract_properties`, which are reflection and formatting helpers.
- `IDENTIFIER_RE`, which is never used.
- The store and the attributes a dynamic contract attaches are kept apart. In Python both live in the instance's `__dict__`, so an undeclared key equal to a property name, or to an attribute such as `_properties`, would overwrite it. The model does not capture that aliasing.
- `setattr` of an undeclared key onto a class attribute such as a method. The model only records the pair.
- `DynamicContract._populate_properties` on a non-mapping raises `AttributeError`. This cannot happen, because `DynamicContract` is in the chain and discovery rejects a non-mapping first. The model returns not-a-dictionary.
- Keys that are not strings, and floating-point values: the model's values have neither.
- Discovery.IsInstanceOf: classes are identified by `__name__`. Two distinct classes of the same name in different modules count as one class. A `StrictContract` or `DynamicContract` instantiated directly has the empty chain, is named `LazyContract`, and counts as a base of every contract.
- Values.PyEq: a nested contract instance is compared only with an identical snapshot of itself, not through its own `__eq__`. Two nested instances that `__eq__` equates but whose snapshots differ count as unequal.
- Contracts.Contract.Init: requires an empty store and no attributes, as a freshly allocated instance has. Running `__init__` again on a built instance is not modelled.
- Descriptors shared between declarations. In Python one descriptor object can be bound under two ids (`a = b = IntProp()`) or reused in two classes. Its first binding renames it, so the next binding records an external name `a -> b` and both fields share one store slot. The model gives each declaration its own property value and does not capture this aliasing.
- Rediscovery.RenamedAll: models the renaming left by a construction that got past discovery. A construction that fails during discovery renames only the declarations before the failing one and that one itself; later constructions after such a partial rename are not modelled.
- Output.ToDict: the round trip back to an equal instance is proved only for classes without private external names, without shared or rerouted external names, without redeclared fields, and whose fields omitted when None have default None (`RoundTrip.RoundTrips`). `Scenarios.RoundTripLosesExplicitNone` shows one way it fails otherwise.
- Thread safety of the shared descriptors. There is no concurrency in the model.

## Findings

| source | as written | input that shows it | evidently intended | confidence | as-written member | corrected member |
|---|---|---|---|---|---|---|
| lazycontract/contract.py:152-155 | The first construction writes the field id into an anonymous shared descriptor's name. Every later construction then records an identity entry `id -> id`, which overwrites an earlier explicit external name equal to that id. | A class declaring `a = IntProp(name="b")` then `b = StrProp()`, constructed twice from `{"b": 1}`: the first time `b` goes to field `a`, afterwards to field `b` | Routing of input keys does not depend on earlier constructions. A key is rerouted only by an explicit external name. | not executed; needs colliding names | Rediscovery.LaterConstructionReroutes | Rediscovery.ExternalNamesExplicit |
