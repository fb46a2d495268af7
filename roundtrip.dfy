/** Building a contract again from its own `to_dict()`. The round trip does
    not hold in general: a private external name, a field that holds None
    under `exclude_if_none` with another default, two fields sharing an
    external name, an external name rerouted to another field, or a subclass
    that redeclares a field each break it. Without these, the rebuilt
    instance is equal to the original. */
module RoundTrip {
  import opened Values
  import opened Errors
  import opened Property
  import opened Discovery
  import opened Population
  import opened Output
  import opened DiscoveryLaws
  import opened PopulationLaws
  import opened OutputLaws

  /** Tables whose `to_dict` leads back to them: they are well formed, no
      external name is private or shared, each external name leads back to
      its own field, and a field omitted when None has default None and is
      not required. */
  ghost predicate TablesRoundTrip(s: Schema) {
    var fs := s.fields;
    && WellFormed(s)
    && (forall i :: 0 <= i < |fs| ==> !Private(fs[i].1.name))
    && (forall i, j :: 0 <= i < j < |fs| ==> fs[i].1.name != fs[j].1.name)
    && (forall i :: 0 <= i < |fs| ==> RemapKey(s, fs[i].1.name) == fs[i].0)
    && (forall i :: 0 <= i < |fs| && fs[i].1.excludeIfNone ==> fs[i].1.default.VNone? && !fs[i].1.required)
  }

  /** The contract classes whose instances survive `to_dict` and construction:
      their tables round-trip, and no subclass redeclares a field, so every
      declaration is the property the table keeps for its id. */
  ghost predicate RoundTrips(ct: ContractType) {
    && TablesRoundTrip(SchemaOf(ct))
    && forall d :: d in AllDecls(ct.chain) ==> Lookup(SchemaOf(ct).fields, d.id) == Some(Bind(d.prop, d.id, d.cls))
  }

  /** In a dictionary, the key at position `i` holds the value at `i`. */
  lemma LookupAt<V>(m: seq<(string, V)>, i: nat)
    requires UniqueKeys(m) && i < |m|
    ensures Lookup(m, m[i].0) == Some(m[i].1)
  {
    var j :| 0 <= j < |m| && m[j] == (m[i].0, Lookup(m, m[i].0).value);
  }

  /** A key of `to_dict` is the external name of an emitted field. */
  lemma KeyField(a: Instance, k: string) returns (i: nat)
    requires ToDict(a).Ok? && k in KeysOf(ToDict(a).value)
    ensures var fs := a.schema.fields;
            i < |fs| && fs[i].1.name == k && Included(fs[i].1, Stored(fs[i].1, a.store))
  {
    ToDictKeys(a, k);
    var fs := a.schema.fields;
    i :| 0 <= i < |fs| && fs[i].1.name == k && Included(fs[i].1, Stored(fs[i].1, a.store));
  }

  /** With round-tripping tables, a key of `to_dict` reaches exactly the
      field whose external name it is. */
  lemma KeyReaches(a: Instance, k: string, n: string)
    requires TablesRoundTrip(a.schema)
    requires ToDict(a).Ok? && k in KeysOf(ToDict(a).value)
    ensures Reaches(a.schema, k, n) <==> k == n
  {
    var i := KeyField(a, k);
    LookupAt(a.schema.fields, i);
  }

  /** Each pair of `to_dict` is an emitted field's external name with its value. */
  lemma PairField(a: Instance, j: nat) returns (i: nat)
    requires TablesRoundTrip(a.schema)
    requires ToDict(a).Ok? && j < |ToDict(a).value|
    ensures var fs, d := a.schema.fields, ToDict(a).value;
            && i < |fs| && fs[i].1.name == d[j].0 && Included(fs[i].1, Stored(fs[i].1, a.store))
            && d[j].1 == Stored(fs[i].1, a.store)
  {
    var d := ToDict(a).value;
    i := KeyField(a, d[j].0);
    ToDictValue(a, i);
    ToDictKeys(a, d[j].0);
    LookupAt(d, j);
  }

  /** Every declaration of a round-tripping class passes its presence check
      against the keys of `to_dict`, so discovery accepts the dictionary. */
  lemma AgainDiscovers(a: Instance)
    requires RoundTrips(a.ctype) && a.schema == SchemaOf(a.ctype)
    requires ToDict(a).Ok?
    ensures Discover(a.ctype, VDict(ToDict(a).value)) == Ok(SchemaOf(a.ctype))
  {
    var ct, d, fs := a.ctype, ToDict(a).value, a.schema.fields;
    forall decl | decl in AllDecls(ct.chain)
      ensures Presence(TypeName(ct), decl, SourceKeys(VDict(d))).Ok?
    {
      var q := Bind(decl.prop, decl.id, decl.cls);
      assert (decl.id, q) in fs;
      var i :| 0 <= i < |fs| && fs[i] == (decl.id, q);
      ToDictKeys(a, q.name);
      if !Included(q, Stored(q, a.store)) {
        assert !Private(fs[i].1.name);
      }
    }
    DiscoverAccepts(ct, VDict(d));
  }

  /** Every pair of `to_dict` reaches a field that takes its value. */
  lemma AgainAccepts(a: Instance, coerce: Coerce)
    requires TablesRoundTrip(a.schema)
    requires ToDict(a).Ok?
    ensures var d := ToDict(a).value;
            forall j :: 0 <= j < |d| ==> FieldAccepts(a.schema, d[j].0, d[j].1, coerce)
  {
    var d, fs := ToDict(a).value, a.schema.fields;
    forall j | 0 <= j < |d| ensures FieldAccepts(a.schema, d[j].0, d[j].1, coerce) {
      var i := PairField(a, j);
      LookupAt(fs, i);
    }
  }

  /** The store population of `to_dict` leaves, under the class's policy. */
  function AgainStore(a: Instance, coerce: Coerce): Result<map<string, Value>>
    requires ToDict(a).Ok?
  {
    PopulateFrom(TypeName(a.ctype), a.ctype.policy != Strict, a.schema, map[], ToDict(a).value, coerce)
  }

  /** Construction from `to_dict` succeeds. */
  lemma AgainBuilds(a: Instance, coerce: Coerce)
    requires RoundTrips(a.ctype) && a.schema == SchemaOf(a.ctype)
    requires ToDict(a).Ok?
    ensures Build(a.ctype, VDict(ToDict(a).value), [], coerce).Ok?
  {
    AgainDiscovers(a);
    AgainAccepts(a, coerce);
    BuildAccepted(a.ctype, VDict(ToDict(a).value), coerce);
  }

  /** Construction from `to_dict`, when it succeeds, has the class and tables
      of the original and the store population of `to_dict` leaves. */
  lemma AgainBuildsState(a: Instance, coerce: Coerce)
    requires a.schema == SchemaOf(a.ctype)
    requires ToDict(a).Ok? && Build(a.ctype, VDict(ToDict(a).value), [], coerce).Ok?
    ensures var b := Build(a.ctype, VDict(ToDict(a).value), [], coerce).value;
            && b.ctype == a.ctype && b.schema == a.schema
            && AgainStore(a, coerce).Ok? && b.store == AgainStore(a, coerce).value
  {
    var d := ToDict(a).value;
    BuildPopulates(a.ctype, VDict(d), [], coerce);
    assert Source(VDict(d), []) == VDict(d);
  }

  /** An emitted field reads, after population of `to_dict`, the value it
      read in the original. */
  lemma AgainReadsEmitted(a: Instance, coerce: Coerce, i: nat)
    requires TablesRoundTrip(a.schema)
    requires ToDict(a).Ok? && AgainStore(a, coerce).Ok? && i < |a.schema.fields|
    requires Included(a.schema.fields[i].1, Stored(a.schema.fields[i].1, a.store))
    ensures var p := a.schema.fields[i].1;
            Stored(p, AgainStore(a, coerce).value) == Stored(p, a.store)
  {
    var d, fs := ToDict(a).value, a.schema.fields;
    var p := fs[i].1;
    ToDictKeys(a, p.name);
    var j := IndexOf(d, p.name);
    var i' := PairField(a, j);
    forall j' | j < j' < |d| ensures !Reaches(a.schema, d[j'].0, p.name) {
      KeyReaches(a, d[j'].0, p.name);
    }
    LookupAt(fs, i);
    PopulateFromStores(TypeName(a.ctype), a.ctype.policy != Strict, a.schema, map[], d, coerce, j);
  }

  /** A field `to_dict` omits reads, after population of `to_dict`, its
      default, which is the None it read in the original. */
  lemma AgainReadsOmitted(a: Instance, coerce: Coerce, i: nat)
    requires TablesRoundTrip(a.schema)
    requires ToDict(a).Ok? && AgainStore(a, coerce).Ok? && i < |a.schema.fields|
    requires !Included(a.schema.fields[i].1, Stored(a.schema.fields[i].1, a.store))
    ensures var p := a.schema.fields[i].1;
            Stored(p, AgainStore(a, coerce).value) == Stored(p, a.store)
  {
    var d, fs := ToDict(a).value, a.schema.fields;
    var p := fs[i].1;
    assert !Private(p.name);
    assert p.name !in KeysOf(d) by {
      ToDictKeys(a, p.name);
    }
    forall j | 0 <= j < |d| ensures !Reaches(a.schema, d[j].0, p.name) {
      KeyReaches(a, d[j].0, p.name);
    }
    PopulateFromUntouched(TypeName(a.ctype), a.ctype.policy != Strict, a.schema, map[], d, coerce, p.name);
  }

  /** Every field reads, after population of `to_dict`, what it read in the
      original. */
  lemma AgainReads(a: Instance, coerce: Coerce)
    requires TablesRoundTrip(a.schema)
    requires ToDict(a).Ok? && AgainStore(a, coerce).Ok?
    ensures var fs := a.schema.fields;
            forall i :: 0 <= i < |fs| ==> Stored(fs[i].1, AgainStore(a, coerce).value) == Stored(fs[i].1, a.store)
  {
    var fs := a.schema.fields;
    forall i | 0 <= i < |fs| ensures Stored(fs[i].1, AgainStore(a, coerce).value) == Stored(fs[i].1, a.store) {
      if Included(fs[i].1, Stored(fs[i].1, a.store)) {
        AgainReadsEmitted(a, coerce, i);
      } else {
        AgainReadsOmitted(a, coerce, i);
      }
    }
  }

  /** The round trip: building a round-tripping class again from the
      `to_dict()` of one of its instances succeeds and gives an equal
      instance. */
  lemma ToDictRoundTrip(a: Instance, coerce: Coerce)
    requires RoundTrips(a.ctype) && a.schema == SchemaOf(a.ctype)
    requires ToDict(a).Ok?
    ensures var again := Build(a.ctype, VDict(ToDict(a).value), [], coerce);
            again.Ok? && Equal(a, again.value) == Ok(true) && EqOperator(a, again.value) == Ok(true)
  {
    AgainBuilds(a, coerce);
    AgainBuildsState(a, coerce);
    var b := Build(a.ctype, VDict(ToDict(a).value), [], coerce).value;
    AgainReads(a, coerce);
    var fs := a.schema.fields;
    assert Triples(b).Ok? by {
      forall i | 0 <= i < |fs| ensures Conforms(fs[i].1, Stored(fs[i].1, b.store)) {
        assert Stored(fs[i].1, b.store) == Stored(fs[i].1, a.store);
      }
    }
    EqualSameReads(a, b);
  }

  /** The round trip for an instance as construction leaves it. */
  lemma BuildRoundTrip(ct: ContractType, obj: Value, kwargs: seq<(string, Value)>, coerce: Coerce)
    requires RoundTrips(ct)
    requires Build(ct, obj, kwargs, coerce).Ok?
    requires ToDict(Build(ct, obj, kwargs, coerce).value).Ok?
    ensures var a := Build(ct, obj, kwargs, coerce).value;
            var again := Build(ct, VDict(ToDict(a).value), [], coerce);
            again.Ok? && Equal(a, again.value) == Ok(true) && EqOperator(a, again.value) == Ok(true)
  {
    BuildPopulates(ct, obj, kwargs, coerce);
    ToDictRoundTrip(Build(ct, obj, kwargs, coerce).value, coerce);
  }
}
