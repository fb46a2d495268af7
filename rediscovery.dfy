/** Discovery on a second construction of a contract class. Properties are
    class attributes shared by all instances, and the first construction
    writes the field id into the name of every anonymous property it reaches.
    After a construction whose discovery reached every declaration (one that
    got past discovery), later constructions therefore see every property as
    explicitly named and record an identity entry `id -> id` in the
    external-name table. A construction that fails during discovery has
    renamed only the declarations up to the failing one, since the rename
    comes before the presence checks; the model does not follow that
    partial state. When a field id
    coincides with another field's explicit external name, that entry
    reroutes the input key, so construction depends on what was constructed
    before. The rest of the model uses first-construction discovery
    (`Discovery.Register`), for which external names come only from explicit
    names. */
module Rediscovery {
  import opened Values
  import opened Errors
  import opened Property
  import opened Discovery
  import opened Population

  /** A declaration as a construction after a first one that reached it sees
      it: the property carries the name the first construction resolved. */
  function Renamed(d: Decl): (r: Decl)
    ensures r.cls == d.cls && r.id == d.id
    ensures r.prop.name == Bind(d.prop, d.id, d.cls).name
    ensures Bind(r.prop, r.id, r.cls) == Bind(d.prop, d.id, d.cls)
  {
    d.(prop := d.prop.(name := Bind(d.prop, d.id, d.cls).name))
  }

  /** The declarations as seen after a construction whose discovery reached
      all of them. */
  function RenamedAll(ds: seq<Decl>): (r: seq<Decl>)
    ensures |r| == |ds|
    ensures forall i :: 0 <= i < |ds| ==> r[i] == Renamed(ds[i])
  {
    if ds == [] then [] else [Renamed(ds[0])] + RenamedAll(ds[1..])
  }

  /** The tables a construction of `ct` builds, as the source is written,
      after an earlier construction got past discovery. */
  function LaterSchemaOf(ct: ContractType): (r: Schema)
    ensures WellFormed(r)
  {
    RegisterAll(Schema([], map[]), RenamedAll(AllDecls(ct.chain)))
  }

  /** `a = IntProp(name="b")`, an integer field whose external name is `b`. */
  function PairA(): Prop {
    Prop("IntProp", TInt, "b", VNone, false, false, true, "")
  }

  /** `b = StrProp()`, an anonymous string field. */
  function PairB(): Prop {
    Prop("StrProp", TStr, AnonName, VNone, false, false, true, "")
  }

  /** The class `Pair` declaring `a` and then `b`. */
  function Pair(): ContractType {
    ContractType([ClassDecl("Pair", [("a", PairA()), ("b", PairB())])], Lenient)
  }

  /** The declarations of `Pair`, in order. */
  lemma PairDecls()
    ensures AllDecls(Pair().chain) == [Decl("Pair", "a", PairA()), Decl("Pair", "b", PairB())]
  {
    assert Pair().chain[1..] == [];
  }

  /** The first construction of `Pair` routes the input key `b` to field `a`. */
  lemma FirstConstructionRoute()
    ensures RemapKey(SchemaOf(Pair()), "b") == "a"
  {
    var ds := [Decl("Pair", "a", PairA()), Decl("Pair", "b", PairB())];
    PairDecls();
    var s0 := Schema([], map[]);
    assert ds[1..] == [ds[1]] && [ds[1]][1..] == [];
    var s1 := Register(s0, ds[0]);
    assert SchemaOf(Pair()) == RegisterAll(s1, [ds[1]]);
    assert RegisterAll(s1, [ds[1]]) == RegisterAll(Register(s1, ds[1]), []);
  }

  /** Every later construction of `Pair` routes the input key `b` to field `b`. */
  lemma LaterConstructionRoute()
    ensures RemapKey(LaterSchemaOf(Pair()), "b") == "b"
  {
    var ds := [Decl("Pair", "a", PairA()), Decl("Pair", "b", PairB())];
    PairDecls();
    var s0 := Schema([], map[]);
    var rs := RenamedAll(ds);
    assert rs[1].prop.name == "b";
    assert rs[1..] == [rs[1]] && [rs[1]][1..] == [];
    var r1 := Register(s0, rs[0]);
    assert LaterSchemaOf(Pair()) == RegisterAll(r1, [rs[1]]);
    assert RegisterAll(r1, [rs[1]]) == RegisterAll(Register(r1, rs[1]), []);
  }

  /** As written: in the class `Pair`, the first construction routes the
      input key `b` to field `a`, and every later construction routes it to
      field `b`. */
  lemma LaterConstructionReroutes()
    ensures RemapKey(SchemaOf(Pair()), "b") == "a"
    ensures RemapKey(LaterSchemaOf(Pair()), "b") == "b"
  {
    FirstConstructionRoute();
    LaterConstructionRoute();
  }

  /** Corrected, first-construction discovery: an input key is rerouted only
      when it is the external name some declaration gives explicitly, and it
      then leads to that declaration's field. */
  lemma {:induction false} ExternalNamesExplicit(s: Schema, ds: seq<Decl>, m: string)
    requires m in RegisterAll(s, ds).mappings
    ensures || (m in s.mappings && RegisterAll(s, ds).mappings[m] == s.mappings[m])
            || exists j :: 0 <= j < |ds| && ds[j].prop.name == m && m != AnonName
                           && RegisterAll(s, ds).mappings[m] == ds[j].id
    decreases |ds|
  {
    if ds != [] {
      var s' := Register(s, ds[0]);
      var t := RegisterAll(s, ds);
      assert t == RegisterAll(s', ds[1..]);
      ExternalNamesExplicit(s', ds[1..], m);
      if m in s'.mappings && t.mappings[m] == s'.mappings[m] {
        RegisterMapping(s, ds[0], m);
      } else {
        var j :| 0 <= j < |ds[1..]| && ds[1..][j].prop.name == m && m != AnonName
                 && t.mappings[m] == ds[1..][j].id;
        assert ds[j + 1] == ds[1..][j];
      }
    }
  }

  /** An external name after one registration is the declaration's own
      explicit name, leading to its id, or an entry that was there before. */
  lemma RegisterMapping(s: Schema, d: Decl, m: string)
    requires m in Register(s, d).mappings
    ensures || (d.prop.name == m && m != AnonName && Register(s, d).mappings[m] == d.id)
            || (m in s.mappings && Register(s, d).mappings[m] == s.mappings[m])
  {
  }

  /** With corrected discovery, a key that no declaration gives as its
      explicit external name is never rerouted, however many instances were
      built before. */
  lemma AnonymousIdNotRerouted(ct: ContractType, key: string)
    requires forall d :: d in AllDecls(ct.chain) ==> d.prop.name != key
    ensures RemapKey(SchemaOf(ct), key) == key
  {
    if key in SchemaOf(ct).mappings {
      ExternalNamesExplicit(Schema([], map[]), AllDecls(ct.chain), key);
      assert false;
    }
  }
}
