/**
  The redundancy optimizer of the SKU generator (`optimize_sku_format`): four
  rules tried in order, the first that applies decides the route and routing
  codes; the type code always passes through.
 */
module Optimizer {
  import opened PyStr

  /** `redundant_pairs`: (route, routing) ↦ (route', routing'). */
  const RedundantPairs: map<(string, string), (string, string)> := map[
    ("BOLT", "BOLT") := ("MECH", "BOLT"),
    ("BEND", "BEND") := ("MECH", "BEND"),
    ("LASER", "CUT") := ("LASER", "STD"),
    ("CUT", "LASER") := ("LASER", "STD"),
    ("ASS", "ASM") := ("ASS", "STD"),
    ("ASM", "ASS") := ("ASM", "STD")
  ]

  /**
    What `optimize_sku_format(domain, route_code, routing_code, type_code)`
    returns. The domain is accepted and never read. The `len` comparison of
    the first rule is kept, although with equal codes it always holds.
   */
  function OptimizeSkuFormat(domain: string, routeCode: string, routingCode: string, typeCode: string)
    : (r: (string, string, string))
    ensures r.2 == typeCode
    ensures r.0 == routeCode || r.0 == routingCode || r.0 == "STD"
    ensures r.1 == routeCode || r.1 == routingCode || r.1 == "STD"
  {
    if routeCode == routingCode then
      if |routingCode| >= |routeCode| then ("STD", routingCode, typeCode)
      else (routeCode, "STD", typeCode)
    else if Contains(routeCode, typeCode) || Contains(typeCode, routeCode) then
      ("STD", routingCode, typeCode)
    else if Contains(routingCode, typeCode) || Contains(typeCode, routingCode) then
      (routeCode, "STD", typeCode)
    else if (routeCode, routingCode) in RedundantPairs then
      var p := RedundantPairs[(routeCode, routingCode)];
      (p.0, p.1, typeCode)
    else
      (routeCode, routingCode, typeCode)
  }

  /** Some rule applies: equal codes, a type contained in a code or containing it, or a listed pair. */
  predicate Redundant(routeCode: string, routingCode: string, typeCode: string) {
    || routeCode == routingCode
    || Contains(routeCode, typeCode) || Contains(typeCode, routeCode)
    || Contains(routingCode, typeCode) || Contains(typeCode, routingCode)
    || (routeCode, routingCode) in RedundantPairs
  }

  /**
    The two outcomes: when a rule applies, route or routing becomes "STD";
    when none applies, both codes come back unchanged.
   */
  lemma OptimizeOutcome(domain: string, routeCode: string, routingCode: string, typeCode: string)
    ensures var r := OptimizeSkuFormat(domain, routeCode, routingCode, typeCode);
            if Redundant(routeCode, routingCode, typeCode) then r.0 == "STD" || r.1 == "STD"
            else r == (routeCode, routingCode, typeCode)
  {
  }

  /** Equal codes: the route goes and the routing stays. */
  lemma OptimizeEqualCodes(domain: string, code: string, typeCode: string)
    ensures OptimizeSkuFormat(domain, code, code, typeCode) == ("STD", code, typeCode)
  {
  }

  /** (ASS, ASM) becomes (ASS, STD) when the type is unrelated to either code. */
  lemma OptimizeAssAsm(domain: string, typeCode: string)
    requires !Contains("ASS", typeCode) && !Contains(typeCode, "ASS")
    requires !Contains("ASM", typeCode) && !Contains(typeCode, "ASM")
    ensures OptimizeSkuFormat(domain, "ASS", "ASM", typeCode) == ("ASS", "STD", typeCode)
  {
  }

  /**
    The pairs (BOLT, BOLT) → (MECH, BOLT) and (BEND, BEND) → (MECH, BEND)
    never fire: equal codes are caught by the first rule.
   */
  lemma MechPairsUnreachable(domain: string, routeCode: string, routingCode: string, typeCode: string)
    ensures OptimizeSkuFormat(domain, routeCode, routingCode, typeCode).0 != "MECH"
            || routeCode == "MECH" || routingCode == "MECH"
  {
  }

  /** Optimizing twice can change the result again: the optimizer is not idempotent. */
  lemma OptimizeNotIdempotent()
    ensures var once := OptimizeSkuFormat("MECA", "BOLT", "BOLT", "BOLTXX");
            var twice := OptimizeSkuFormat("MECA", once.0, once.1, once.2);
            once == ("STD", "BOLT", "BOLTXX") && twice == ("STD", "STD", "BOLTXX") && once != twice
  {
    assert !Contains("STD", "BOLTXX");
    if Contains("BOLTXX", "STD") {
      ContainsHead("BOLTXX", "STD");
    }
    assert "BOLTXX"[..4] == "BOLT";
    assert Contains("BOLTXX", "BOLT");
  }
}
