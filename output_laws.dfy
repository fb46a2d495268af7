/** What `to_dict` and equality guarantee about a built contract. */
module OutputLaws {
  import opened Values
  import opened Errors
  import opened Property
  import opened Discovery
  import opened Population
  import opened Output

  /** The external names of the triples that `to_dict` emits. */
  function IncludedNames(ts: seq<(string, Prop, Value)>): set<string> {
    if ts == [] then {}
    else (if Included(ts[0].1, ts[0].2) then {ts[0].1.name} else {}) + IncludedNames(ts[1..])
  }

  /** A name is emitted exactly when some triple under it is included. */
  lemma {:induction false} IncludedNamesIff(ts: seq<(string, Prop, Value)>, k: string)
    ensures k in IncludedNames(ts) <==>
            exists i :: 0 <= i < |ts| && Included(ts[i].1, ts[i].2) && ts[i].1.name == k
    decreases |ts|
  {
    if ts != [] {
      IncludedNamesIff(ts[1..], k);
      if k in IncludedNames(ts[1..]) {
        var i :| 0 <= i < |ts[1..]| && Included(ts[1..][i].1, ts[1..][i].2) && ts[1..][i].1.name == k;
        assert ts[i + 1] == ts[1..][i];
      }
      if exists i :: 0 <= i < |ts| && Included(ts[i].1, ts[i].2) && ts[i].1.name == k {
        var i :| 0 <= i < |ts| && Included(ts[i].1, ts[i].2) && ts[i].1.name == k;
        if i > 0 {
          assert ts[1..][i - 1] == ts[i];
        }
      }
    }
  }

  /** The dictionary built from `acc` on has the keys of `acc` plus the
      included names, each once. */
  lemma {:induction false} DictFromKeys(acc: seq<(string, Value)>, ts: seq<(string, Prop, Value)>)
    requires UniqueKeys(acc)
    ensures KeysOf(DictFrom(acc, ts)) == KeysOf(acc) + IncludedNames(ts)
    ensures UniqueKeys(DictFrom(acc, ts))
    decreases |ts|
  {
    if ts != [] {
      var acc' := if Included(ts[0].1, ts[0].2) then Put(acc, ts[0].1.name, Serialize(ts[0].1, ts[0].2)) else acc;
      DictFromKeys(acc', ts[1..]);
    }
  }

  /** A name no included triple carries keeps its entry in the dictionary. */
  lemma {:induction false} DictFromUntouched(acc: seq<(string, Value)>, ts: seq<(string, Prop, Value)>, k: string)
    requires forall j :: 0 <= j < |ts| ==> !(Included(ts[j].1, ts[j].2) && ts[j].1.name == k)
    ensures Lookup(DictFrom(acc, ts), k) == Lookup(acc, k)
    decreases |ts|
  {
    if ts != [] {
      assert forall j :: 0 <= j < |ts| - 1 ==> ts[1..][j] == ts[j + 1];
      var acc' := if Included(ts[0].1, ts[0].2) then Put(acc, ts[0].1.name, Serialize(ts[0].1, ts[0].2)) else acc;
      assert DictFrom(acc, ts) == DictFrom(acc', ts[1..]);
      DictFromUntouched(acc', ts[1..], k);
    }
  }

  /** The dictionary built from a non-empty run of triples: the first one,
      then the rest. */
  lemma DictFromStep(acc: seq<(string, Value)>, ts: seq<(string, Prop, Value)>)
    requires ts != []
    ensures DictFrom(acc, ts)
         == DictFrom(if Included(ts[0].1, ts[0].2) then Put(acc, ts[0].1.name, Serialize(ts[0].1, ts[0].2)) else acc,
                     ts[1..])
  {
  }

  /** The first triple, when included and no later included triple carries
      its name, is what the dictionary holds under that name. */
  lemma DictFromValueHead(acc: seq<(string, Value)>, ts: seq<(string, Prop, Value)>)
    requires ts != [] && Included(ts[0].1, ts[0].2)
    requires forall j :: 0 < j < |ts| ==> !(Included(ts[j].1, ts[j].2) && ts[j].1.name == ts[0].1.name)
    ensures Lookup(DictFrom(acc, ts), ts[0].1.name) == Some(Serialize(ts[0].1, ts[0].2))
  {
    var acc' := Put(acc, ts[0].1.name, Serialize(ts[0].1, ts[0].2));
    forall j | 0 <= j < |ts| - 1
      ensures !(Included(ts[1..][j].1, ts[1..][j].2) && ts[1..][j].1.name == ts[0].1.name)
    {
      assert ts[1..][j] == ts[j + 1];
    }
    DictFromUntouched(acc', ts[1..], ts[0].1.name);
  }

  /** No included triple after position `i` carries `name`: the same holds
      after position `i - 1` of the run without its first triple. */
  lemma LaterShift(ts: seq<(string, Prop, Value)>, i: nat, name: string)
    requires 0 < i < |ts|
    requires forall j :: i < j < |ts| ==> !(Included(ts[j].1, ts[j].2) && ts[j].1.name == name)
    ensures forall j :: i - 1 < j < |ts| - 1 ==> !(Included(ts[1..][j].1, ts[1..][j].2) && ts[1..][j].1.name == name)
  {
    forall j | i - 1 < j < |ts| - 1
      ensures !(Included(ts[1..][j].1, ts[1..][j].2) && ts[1..][j].1.name == name)
    {
      assert ts[1..][j] == ts[j + 1];
    }
  }

  /** An included triple's serialized value is what the dictionary holds under
      its name, unless a later included triple carries the same name. */
  lemma {:induction false} DictFromValue(acc: seq<(string, Value)>, ts: seq<(string, Prop, Value)>, i: nat)
    requires i < |ts| && Included(ts[i].1, ts[i].2)
    requires forall j :: i < j < |ts| ==> !(Included(ts[j].1, ts[j].2) && ts[j].1.name == ts[i].1.name)
    ensures Lookup(DictFrom(acc, ts), ts[i].1.name) == Some(Serialize(ts[i].1, ts[i].2))
    decreases i
  {
    if i == 0 {
      DictFromValueHead(acc, ts);
    } else {
      var acc' := if Included(ts[0].1, ts[0].2) then Put(acc, ts[0].1.name, Serialize(ts[0].1, ts[0].2)) else acc;
      DictFromStep(acc, ts);
      assert ts[1..][i - 1] == ts[i];
      LaterShift(ts, i, ts[i].1.name);
      DictFromValue(acc', ts[1..], i - 1);
    }
  }

  /** `to_dict` has one key per external name of a field it emits: a field is
      emitted when its name is not private and it does not hold None with
      `exclude_if_none` set. No emitted key is private and no key repeats. */
  lemma ToDictKeys(inst: Instance, k: string)
    requires ToDict(inst).Ok?
    ensures var fs := inst.schema.fields;
            k in KeysOf(ToDict(inst).value) <==>
            exists i :: 0 <= i < |fs| && fs[i].1.name == k && Included(fs[i].1, Stored(fs[i].1, inst.store))
    ensures k in KeysOf(ToDict(inst).value) ==> !Private(k)
    ensures UniqueKeys(ToDict(inst).value)
  {
    var ts := Triples(inst).value;
    DictFromKeys([], ts);
    IncludedNamesIff(ts, k);
  }

  /** The value `to_dict` gives a field's external name is the field's value,
      serialized, unless a later emitted field has the same external name. */
  lemma ToDictValue(inst: Instance, i: nat)
    requires ToDict(inst).Ok?
    requires var fs := inst.schema.fields;
             i < |fs| && Included(fs[i].1, Stored(fs[i].1, inst.store))
    requires var fs := inst.schema.fields;
             forall j :: i < j < |fs| ==> fs[j].1.name != fs[i].1.name
    ensures var p := inst.schema.fields[i].1;
            Lookup(ToDict(inst).value, p.name) == Some(Serialize(p, Stored(p, inst.store)))
  {
    DictFromValue([], Triples(inst).value, i);
  }

  /** A field left unset (or set to None) with `exclude_if_none` is absent from
      `to_dict`, provided no other field shares its external name. */
  lemma ToDictOmitsExcludedNone(inst: Instance, i: nat)
    requires ToDict(inst).Ok?
    requires var fs := inst.schema.fields;
             i < |fs| && fs[i].1.excludeIfNone && Stored(fs[i].1, inst.store).VNone?
    requires var fs := inst.schema.fields;
             forall j :: 0 <= j < |fs| && j != i ==> fs[j].1.name != fs[i].1.name
    ensures inst.schema.fields[i].1.name !in KeysOf(ToDict(inst).value)
  {
    ToDictKeys(inst, inst.schema.fields[i].1.name);
  }

  /** A public field holding None without `exclude_if_none` is emitted with
      None, provided no later field shares its external name. */
  lemma ToDictKeepsNone(inst: Instance, i: nat)
    requires ToDict(inst).Ok?
    requires var fs := inst.schema.fields;
             i < |fs| && !fs[i].1.excludeIfNone && !Private(fs[i].1.name) && Stored(fs[i].1, inst.store).VNone?
    requires var fs := inst.schema.fields;
             forall j :: i < j < |fs| ==> fs[j].1.name != fs[i].1.name
    ensures Lookup(ToDict(inst).value, inst.schema.fields[i].1.name) == Some(VNone)
  {
    ToDictValue(inst, i);
  }

  /** The triple of field `i` holds the value a read of that field returns. */
  lemma TripleRead(inst: Instance, i: nat)
    requires Triples(inst).Ok? && i < |inst.schema.fields|
    ensures |Triples(inst).value| == |inst.schema.fields|
    ensures var (id, p) := inst.schema.fields[i];
            && Triples(inst).value[i] == (id, p, Stored(p, inst.store))
            && Get(p, inst.store) == Ok(Stored(p, inst.store))
  {
    var p := inst.schema.fields[i].1;
    assert Conforms(p, Stored(p, inst.store));
  }

  /** Two triple sequences agree from position `i` on exactly when they have
      run out there, or agree at `i` and from `i + 1` on. */
  lemma AgreeFrom(ta: seq<(string, Prop, Value)>, tb: seq<(string, Prop, Value)>, i: nat)
    ensures (forall j :: i <= j < |ta| && j < |tb| ==> SameTriple(ta[j], tb[j])) <==>
            (i >= |ta| || i >= |tb| ||
             (SameTriple(ta[i], tb[i]) && forall j :: i + 1 <= j < |ta| && j < |tb| ==> SameTriple(ta[j], tb[j])))
  {
  }

  /** `ts` lists the fields of `inst` in order, each with the value a read of
      it returns. */
  predicate ReadsAs(inst: Instance, ts: seq<(string, Prop, Value)>) {
    && |ts| == |inst.schema.fields|
    && forall j :: 0 <= j < |ts| ==>
         && ts[j].0 == inst.schema.fields[j].0 && ts[j].1 == inst.schema.fields[j].1
         && Get(ts[j].1, inst.store) == Ok(ts[j].2)
  }

  /** The triples of an instance whose reads all succeed are what its reads return. */
  lemma TriplesReadAs(inst: Instance)
    requires Triples(inst).Ok?
    ensures ReadsAs(inst, Triples(inst).value)
  {
    forall j | 0 <= j < |inst.schema.fields|
      ensures var t := Triples(inst).value[j];
              t.0 == inst.schema.fields[j].0 && t.1 == inst.schema.fields[j].1 && Get(t.1, inst.store) == Ok(t.2)
    {
      TripleRead(inst, j);
    }
    assert |Triples(inst).value| == |inst.schema.fields|;
  }

  /** Equality from field `i` on, given what every read returns, is the
      pairwise comparison of the reads up to the shorter field list. */
  lemma {:induction false} EqFromAgree(a: Instance, b: Instance, ta: seq<(string, Prop, Value)>,
                                       tb: seq<(string, Prop, Value)>, i: nat)
    requires ReadsAs(a, ta) && ReadsAs(b, tb) && i <= |ta|
    ensures EqFrom(a, b, i) == Ok(forall j :: i <= j < |ta| && j < |tb| ==> SameTriple(ta[j], tb[j]))
    decreases |ta| - i
  {
    AgreeFrom(ta, tb, i);
    if i < |ta| {
      if i < |tb| {
        if SameTriple(ta[i], tb[i]) {
          assert EqFrom(a, b, i) == EqFrom(a, b, i + 1);
          EqFromAgree(a, b, ta, tb, i + 1);
        } else {
          assert EqFrom(a, b, i) == Ok(false);
        }
      } else {
        assert EqFrom(a, b, i) == Ok(true);
      }
    }
  }

  /** Equality from field `i` on, when every read succeeds, is the pairwise
      comparison of the two triple sequences up to the shorter one. */
  lemma EqFromZip(a: Instance, b: Instance, i: nat)
    requires Triples(a).Ok? && Triples(b).Ok?
    requires i <= |a.schema.fields|
    ensures var ta, tb := Triples(a).value, Triples(b).value;
            EqFrom(a, b, i) == Ok(forall j :: i <= j < |ta| && j < |tb| ==> SameTriple(ta[j], tb[j]))
  {
    TriplesReadAs(a);
    TriplesReadAs(b);
    EqFromAgree(a, b, Triples(a).value, Triples(b).value, i);
  }

  /** `a == b`, when every read succeeds, holds exactly when `b` is an instance
      of `a`'s class and the fields agree pairwise (the same id and property,
      and values equal under Python's `==`) as far as the shorter field list
      goes. */
  lemma EqualZip(a: Instance, b: Instance)
    requires Triples(a).Ok? && Triples(b).Ok?
    ensures var ta, tb := Triples(a).value, Triples(b).value;
            Equal(a, b) == Ok(IsInstanceOf(b.ctype, a.ctype) &&
                              forall j :: 0 <= j < |ta| && j < |tb| ==> SameTriple(ta[j], tb[j]))
  {
    if IsInstanceOf(b.ctype, a.ctype) {
      EqFromZip(a, b, 0);
    }
  }

  /** A contract whose fields all read back is equal to itself. */
  lemma EqualReflexive(a: Instance)
    requires Triples(a).Ok?
    ensures Equal(a, a) == Ok(true)
  {
    if a.ctype.chain != [] {
      assert a.ctype.chain[|a.ctype.chain| - 1].name == TypeName(a.ctype);
    }
    EqualZip(a, a);
    var ta := Triples(a).value;
    forall j | 0 <= j < |ta| ensures SameTriple(ta[j], ta[j]) {
      PyEqReflexive(ta[j].2);
    }
  }

  /** Two instances of one class with the same tables are equal exactly when
      every field reads, in both, values that Python's `==` equates. */
  lemma EqualSameSchema(a: Instance, b: Instance)
    requires Triples(a).Ok? && Triples(b).Ok?
    requires a.ctype == b.ctype && a.schema == b.schema
    ensures var fs := a.schema.fields;
            Equal(a, b) == Ok(forall i :: 0 <= i < |fs| ==> PyEq(Stored(fs[i].1, a.store), Stored(fs[i].1, b.store)))
  {
    EqualReflexive(a);
    EqualZip(a, b);
    var fs := a.schema.fields;
    var ta, tb := Triples(a).value, Triples(b).value;
    forall i | 0 <= i < |fs|
      ensures SameTriple(ta[i], tb[i]) <==> PyEq(Stored(fs[i].1, a.store), Stored(fs[i].1, b.store))
    {
      TripleRead(a, i);
      TripleRead(b, i);
    }
  }

  /** Two instances of one class with the same tables whose fields all read
      the same values are equal. */
  lemma EqualSameReads(a: Instance, b: Instance)
    requires Triples(a).Ok? && Triples(b).Ok?
    requires a.ctype == b.ctype && a.schema == b.schema
    requires var fs := a.schema.fields;
             forall i :: 0 <= i < |fs| ==> Stored(fs[i].1, a.store) == Stored(fs[i].1, b.store)
    ensures Equal(a, b) == Ok(true)
  {
    var fs := a.schema.fields;
    forall i | 0 <= i < |fs| ensures PyEq(Stored(fs[i].1, a.store), Stored(fs[i].1, b.store)) {
      PyEqReflexive(Stored(fs[i].1, a.store));
    }
    EqualSameSchema(a, b);
  }

  /** Setting one field of an instance to a value that Python's `==` tells
      apart from the one it read makes the instance unequal to the original. */
  lemma ChangedFieldUnequal(a: Instance, i: nat, v: Value)
    requires Triples(a).Ok? && i < |a.schema.fields|
    requires !PyEq(Stored(a.schema.fields[i].1, a.store), v)
    requires Triples(a.(store := a.store[a.schema.fields[i].1.name := v])).Ok?
    ensures Equal(a, a.(store := a.store[a.schema.fields[i].1.name := v])) == Ok(false)
  {
    var b := a.(store := a.store[a.schema.fields[i].1.name := v]);
    EqualSameSchema(a, b);
    assert Stored(a.schema.fields[i].1, b.store) == v;
  }

  /** Undeclared attributes that a `DynamicContract` attached play no part in
      equality, on either side. */
  lemma {:induction false} EqFromIgnoresExtras(a: Instance, b: Instance, ea: seq<(string, Value)>,
                                               eb: seq<(string, Value)>, i: nat)
    ensures EqFrom(a.(extras := ea), b.(extras := eb), i) == EqFrom(a, b, i)
    decreases |a.schema.fields| - i
  {
    if i < |a.schema.fields| {
      EqFromIgnoresExtras(a, b, ea, eb, i + 1);
    }
  }

  /** Python's class hierarchy has no cycles: two classes with different
      names are never each a subclass of the other. */
  predicate Acyclic(x: ContractType, y: ContractType) {
    IsInstanceOf(x, y) && IsInstanceOf(y, x) ==> TypeName(x) == TypeName(y)
  }

  /** `a == b` holds only between instances of one class. */
  lemma EqOperatorSameClass(a: Instance, b: Instance)
    requires Acyclic(a.ctype, b.ctype)
    requires EqOperator(a, b) == Ok(true)
    ensures TypeName(a.ctype) == TypeName(b.ctype)
  {
  }

  /** Between an instance of a class and one of a proper subclass, `==` is
      false both ways round, though `a.__eq__(b)` may hold. */
  lemma EqOperatorSubclassUnequal(a: Instance, b: Instance)
    requires Acyclic(a.ctype, b.ctype)
    requires TypeName(b.ctype) != TypeName(a.ctype) && IsInstanceOf(b.ctype, a.ctype)
    ensures EqOperator(a, b) == Ok(false) && EqOperator(b, a) == Ok(false)
  {
    assert !IsInstanceOf(a.ctype, b.ctype);
    assert !Reflected(b, a);
  }

  /** Between instances of one class with the same tables whose fields all
      read, `==` gives the same answer both ways round. */
  lemma EqOperatorSymmetric(a: Instance, b: Instance)
    requires Triples(a).Ok? && Triples(b).Ok?
    requires a.ctype == b.ctype && a.schema == b.schema
    ensures EqOperator(a, b) == EqOperator(b, a)
  {
    EqualSameSchema(a, b);
    EqualSameSchema(b, a);
    var fs := a.schema.fields;
    forall i | 0 <= i < |fs|
      ensures PyEq(Stored(fs[i].1, a.store), Stored(fs[i].1, b.store)) <==> PyEq(Stored(fs[i].1, b.store), Stored(fs[i].1, a.store))
    {
      if PyEq(Stored(fs[i].1, a.store), Stored(fs[i].1, b.store)) {
        PyEqSymmetric(Stored(fs[i].1, a.store), Stored(fs[i].1, b.store));
      }
      if PyEq(Stored(fs[i].1, b.store), Stored(fs[i].1, a.store)) {
        PyEqSymmetric(Stored(fs[i].1, b.store), Stored(fs[i].1, a.store));
      }
    }
  }
}
