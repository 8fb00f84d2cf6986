/**
  The route and routing codes of the SKU generator (`get_route_code`,
  `get_routing_code`): the code of the first table entry whose key occurs in
  the component type, both upper-cased, or a fallback. The operations take
  the table as a parameter, as the source reads it from the generator
  instance; the lemmas at the end are about the generator's own tables.
 */
module Classifier {
  import opened Wrappers
  import opened PyStr
  import opened Mappings
  import opened TableFacts
  import opened Lookup

  /** A route or routing key applies: `key.upper() in component_type.upper()`. */
  predicate LabelIn(key: string, componentType: string) {
    Contains(Upper(componentType), Upper(key))
  }

  /** The code of the first entry whose key applies to `componentType`. */
  function FirstMatch(table: seq<(string, string)>, componentType: string): Option<string> {
    if table == [] then None
    else if LabelIn(table[0].0, componentType) then Some(table[0].1)
    else FirstMatch(table[1..], componentType)
  }

  /** The route code `get_route_code` returns. */
  function RouteCodeOf(routes: seq<(string, string)>, componentType: string, domain: string): string {
    FirstMatch(routes, componentType).GetOr(if domain == "ELEC" then "ELEC" else "MECA")
  }

  /** The routing code `get_routing_code` returns. */
  function RoutingCodeOf(routings: seq<(string, string)>, componentType: string): string {
    FirstMatch(routings, componentType).GetOr("STD")
  }

  lemma FirstMatchStep(table: seq<(string, string)>, componentType: string, i: nat)
    requires i < |table|
    requires !LabelIn(table[i].0, componentType)
    ensures FirstMatch(table[i..], componentType) == FirstMatch(table[i + 1..], componentType)
  {
    assert table[i..][0] == table[i] && table[i..][1..] == table[i + 1..];
  }

  /** `get_route_code`: the first applicable `self.route_mapping` entry, else the domain's default. */
  method GetRouteCode(routes: seq<(string, string)>, componentType: string, domain: string) returns (code: string)
    ensures code == RouteCodeOf(routes, componentType, domain)
  {
    var typeUpper := Upper(componentType);
    var i := 0;
    while i < |routes|
      invariant 0 <= i <= |routes|
      invariant FirstMatch(routes, componentType) == FirstMatch(routes[i..], componentType)
    {
      var (key, c) := routes[i];
      if Contains(typeUpper, Upper(key)) {
        assert routes[i..][0] == routes[i];
        return c;
      }
      FirstMatchStep(routes, componentType, i);
      i := i + 1;
    }
    return if domain == "ELEC" then "ELEC" else "MECA";
  }

  /** `get_routing_code`: the first applicable `self.routing_mapping` entry, else "STD". */
  method GetRoutingCode(routings: seq<(string, string)>, componentType: string) returns (code: string)
    ensures code == RoutingCodeOf(routings, componentType)
  {
    var typeUpper := Upper(componentType);
    var i := 0;
    while i < |routings|
      invariant 0 <= i <= |routings|
      invariant FirstMatch(routings, componentType) == FirstMatch(routings[i..], componentType)
    {
      var (key, c) := routings[i];
      if Contains(typeUpper, Upper(key)) {
        assert routings[i..][0] == routings[i];
        return c;
      }
      FirstMatchStep(routings, componentType, i);
      i := i + 1;
    }
    return "STD";
  }

  /** The k-th entry wins when it applies and no earlier entry does. */
  lemma {:induction false} FirstMatchAt(table: seq<(string, string)>, componentType: string, k: nat)
    requires k < |table| && LabelIn(table[k].0, componentType)
    requires forall j :: 0 <= j < k ==> !LabelIn(table[j].0, componentType)
    ensures FirstMatch(table, componentType) == Some(table[k].1)
  {
    if k > 0 {
      FirstMatchAt(table[1..], componentType, k - 1);
    }
  }

  /** No entry applies exactly when there is no match. */
  lemma {:induction false} FirstMatchNone(table: seq<(string, string)>, componentType: string)
    ensures FirstMatch(table, componentType) == None
            <==> forall j :: 0 <= j < |table| ==> !LabelIn(table[j].0, componentType)
  {
    if table != [] {
      FirstMatchNone(table[1..], componentType);
      if !LabelIn(table[0].0, componentType) {
        forall j | 0 < j < |table|
          ensures LabelIn(table[j].0, componentType) == LabelIn(table[1..][j - 1].0, componentType)
        {
        }
      }
    }
  }

  /** A match comes from an applicable entry with no applicable entry before it. */
  lemma {:induction false} FirstMatchSome(table: seq<(string, string)>, componentType: string)
    requires FirstMatch(table, componentType).Some?
    ensures exists k :: 0 <= k < |table| && LabelIn(table[k].0, componentType)
                        && table[k].1 == FirstMatch(table, componentType).value
                        && forall j :: 0 <= j < k ==> !LabelIn(table[j].0, componentType)
  {
    if !LabelIn(table[0].0, componentType) {
      FirstMatchSome(table[1..], componentType);
      var k :| 0 <= k < |table[1..]| && LabelIn(table[1..][k].0, componentType)
               && table[1..][k].1 == FirstMatch(table[1..], componentType).value
               && forall j :: 0 <= j < k ==> !LabelIn(table[1..][j].0, componentType);
      assert table[k + 1] == table[1..][k];
      forall j | 0 <= j < k + 1 ensures !LabelIn(table[j].0, componentType) {
        if j > 0 {
          assert table[j] == table[1..][j - 1];
        }
      }
    } else {
      assert LabelIn(table[0].0, componentType);
    }
  }

  /** The route is the first applicable entry's code. */
  lemma RouteCodeAt(routes: seq<(string, string)>, componentType: string, domain: string, k: nat)
    requires k < |routes| && LabelIn(routes[k].0, componentType)
    requires forall j :: 0 <= j < k ==> !LabelIn(routes[j].0, componentType)
    ensures RouteCodeOf(routes, componentType, domain) == routes[k].1
  {
    FirstMatchAt(routes, componentType, k);
  }

  /** When no entry applies the route is "ELEC" for the ELEC domain and "MECA" for any other. */
  lemma RouteCodeDefault(routes: seq<(string, string)>, componentType: string, domain: string)
    requires forall j :: 0 <= j < |routes| ==> !LabelIn(routes[j].0, componentType)
    ensures RouteCodeOf(routes, componentType, domain) == if domain == "ELEC" then "ELEC" else "MECA"
  {
    FirstMatchNone(routes, componentType);
  }

  /** The routing is the first applicable entry's code. */
  lemma RoutingCodeAt(routings: seq<(string, string)>, componentType: string, k: nat)
    requires k < |routings| && LabelIn(routings[k].0, componentType)
    requires forall j :: 0 <= j < k ==> !LabelIn(routings[j].0, componentType)
    ensures RoutingCodeOf(routings, componentType) == routings[k].1
  {
    FirstMatchAt(routings, componentType, k);
  }

  /** When no entry applies the routing is "STD". */
  lemma RoutingCodeDefault(routings: seq<(string, string)>, componentType: string)
    requires forall j :: 0 <= j < |routings| ==> !LabelIn(routings[j].0, componentType)
    ensures RoutingCodeOf(routings, componentType) == "STD"
  {
    FirstMatchNone(routings, componentType);
  }

  /**
    Entry `late` of `table` is shadowed by entry `early`: it comes later, its
    key starts with the earlier one's up to case, and no other entry has its code.
   */
  predicate Shadows(table: seq<(string, string)>, early: nat, late: nat) {
    && early < late < |table|
    && |table[early].0| <= |table[late].0|
    && (forall i :: 0 <= i < |table[early].0| ==> UpperChar(table[early].0[i]) == UpperChar(table[late].0[i]))
    && forall k :: 0 <= k < |table| && table[k].1 == table[late].1 ==> k == late
  }

  /** A shadowed entry's code is never the first match. */
  lemma ShadowedEntry(table: seq<(string, string)>, componentType: string, early: nat, late: nat)
    requires Shadows(table, early, late)
    requires FirstMatch(table, componentType).Some?
    ensures FirstMatch(table, componentType).value != table[late].1
  {
    FirstMatchSome(table, componentType);
    var k :| 0 <= k < |table| && LabelIn(table[k].0, componentType)
             && table[k].1 == FirstMatch(table, componentType).value
             && forall j :: 0 <= j < k ==> !LabelIn(table[j].0, componentType);
    if k == late {
      var e, l := table[early].0, table[late].0;
      UpperAgree(e, l[..|e|]);
      UpperConcat(l[..|e|], l[|e|..]);
      assert l[..|e|] + l[|e|..] == l;
      ContainsPrefix(Upper(componentType), Upper(l), |Upper(e)|);
      assert false;
    }
  }

  lemma WeldShadowed()
    ensures Shadows(RouteMapping, 0, 8) && RouteMapping[8].1 == "WELD"
  {
    RouteKeys();
    WeldCodeUnique();
  }

  lemma MechShadowed()
    ensures Shadows(RoutingMapping, 0, 8) && RoutingMapping[8].1 == "MECH"
  {
    RoutingKeys();
    MechCodeUnique();
  }

  /** "ASSEMBLAGE SOUDÉ" → WELD never fires: "Assemblage" comes first and matches. */
  lemma WeldRouteUnreachable(componentType: string, domain: string)
    ensures RouteCodeOf(RouteMapping, componentType, domain) != "WELD"
  {
    WeldShadowed();
    if FirstMatch(RouteMapping, componentType).Some? {
      ShadowedEntry(RouteMapping, componentType, 0, 8);
    }
  }

  /** "ASSEMBLAGE MÉCANIQUE" → MECH never fires: "Assemblage" comes first and matches. */
  lemma MechRoutingUnreachable(componentType: string)
    ensures RoutingCodeOf(RoutingMapping, componentType) != "MECH"
  {
    MechShadowed();
    if FirstMatch(RoutingMapping, componentType).Some? {
      ShadowedEntry(RoutingMapping, componentType, 0, 8);
    }
  }

  /** A route code is a table code or a domain default, so it avoids what they all avoid. */
  lemma RouteCodeAvoids(routes: seq<(string, string)>, componentType: string, domain: string, c: char)
    requires CodesAvoid(routes, c) && c !in "ELEC" && c !in "MECA"
    ensures c !in RouteCodeOf(routes, componentType, domain)
  {
    if FirstMatch(routes, componentType).Some? {
      FirstMatchSome(routes, componentType);
    }
  }

  /** A routing code is a table code or "STD", so it avoids what they all avoid. */
  lemma RoutingCodeAvoids(routings: seq<(string, string)>, componentType: string, c: char)
    requires CodesAvoid(routings, c) && c !in "STD"
    ensures c !in RoutingCodeOf(routings, componentType)
  {
    if FirstMatch(routings, componentType).Some? {
      FirstMatchSome(routings, componentType);
    }
  }
}
