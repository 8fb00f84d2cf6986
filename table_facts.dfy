/**
  Facts about the generator's own tables, read off their literal entries: no
  code contains a dash; in the route and routing tables entry 8's key extends
  entry 0's up to case, and no other entry carries entry 8's code.
 */
module TableFacts {
  import opened PyStr
  import opened Mappings
  import opened Lookup

  /** The tables the generator is built with. */
  function GeneratorTables(): (t: Tables)
    ensures t.routes == RouteMapping && t.routings == RoutingMapping && t.types == TypeMapping
  {
    Tables(RouteMapping, RoutingMapping, TypeMapping)
  }

  /** No code of the generator's tables contains a dash, the SKU's separator. */
  lemma GeneratorCodesDashFree()
    ensures AllCodesAvoid(GeneratorTables(), '-')
  {
    RouteCodesDashFree();
    RoutingCodesDashFree();
    TypeCodesDashFree();
  }

  lemma RouteCodesDashFree()
    ensures CodesAvoid(RouteMapping, '-')
  {
    forall i | 0 <= i < |RouteMapping| ensures '-' !in RouteMapping[i].1 {
    }
  }

  lemma RoutingCodesDashFree()
    ensures CodesAvoid(RoutingMapping, '-')
  {
    forall i | 0 <= i < |RoutingMapping| ensures '-' !in RoutingMapping[i].1 {
    }
  }

  lemma TypeCodesDashFree()
    ensures CodesAvoid(TypeMapping, '-')
  {
    forall i | 0 <= i < 20 ensures '-' !in TypeMapping[i].1 {
    }
    forall i | 20 <= i < |TypeMapping| ensures '-' !in TypeMapping[i].1 {
    }
  }

  /** Entry 8's key starts with entry 0's key, up to case. */
  lemma RouteKeys()
    ensures |RouteMapping[0].0| == 10 && |RouteMapping[8].0| == 16
    ensures forall i :: 0 <= i < 10 ==> UpperChar(RouteMapping[0].0[i]) == UpperChar(RouteMapping[8].0[i])
  {
    var e, l := RouteMapping[0].0, RouteMapping[8].0;
    assert e == "Assemblage" && l == "ASSEMBLAGE SOUDÉ";
  }

  lemma RoutingKeys()
    ensures |RoutingMapping[0].0| == 10 && |RoutingMapping[8].0| == 20
    ensures forall i :: 0 <= i < 10 ==> UpperChar(RoutingMapping[0].0[i]) == UpperChar(RoutingMapping[8].0[i])
  {
    var e, l := RoutingMapping[0].0, RoutingMapping[8].0;
    assert e == "Assemblage" && l == "ASSEMBLAGE MÉCANIQUE";
  }

  lemma WeldCodeUnique()
    ensures RouteMapping[8].1 == "WELD"
    ensures forall k :: 0 <= k < |RouteMapping| && RouteMapping[k].1 == RouteMapping[8].1 ==> k == 8
  {
  }

  lemma MechCodeUnique()
    ensures RoutingMapping[8].1 == "MECH"
    ensures forall k :: 0 <= k < |RoutingMapping| && RoutingMapping[k].1 == RoutingMapping[8].1 ==> k == 8
  {
  }
}
