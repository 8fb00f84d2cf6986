/**
  `decode_sku_parts`: a SKU split back into its five fields, each code named
  through the generator's tables read backwards.
 */
module Decoder {
  import opened Wrappers
  import opened PyStr
  import opened SequenceCodec
  import opened Lookup
  import opened Mappings
  import opened SkuEngine

  /**
    The dictionary `decode_sku_parts` returns for a five-field SKU, under its
    keys domaine_code, domaine_nom, route_code, route_nom, routing_code,
    routing_nom, type_code, type_nom and sequence.
   */
  datatype SkuParts = SkuParts(
    domainCode: string, domainName: string,
    routeCode: string, routeName: string,
    routingCode: string, routingName: string,
    typeCode: string, typeName: string,
    sequence: string)

  /**
    The dict built by `for full_name, code in mapping.items(): meaning[code] =
    full_name`, one entry at a time (see `InvertMeaning`).
   */
  function Invert(table: seq<(string, string)>): map<string, string> {
    if table == [] then map[] else Invert(table[..|table| - 1])[table[|table| - 1].1 := table[|table| - 1].0]
  }

  /** `meaning.get(code, code)`: the name of a code, or the code itself when no label carries it. */
  function NameOf(table: seq<(string, string)>, code: string): string {
    var m := Invert(table);
    if code in m then m[code] else code
  }

  /** The inverted table holds exactly the table's codes, each named by the last label that carries it. */
  lemma {:induction false} InvertMeaning(table: seq<(string, string)>, code: string)
    ensures code in Invert(table) <==> exists i :: 0 <= i < |table| && table[i].1 == code
    ensures forall i :: 0 <= i < |table| && table[i].1 == code && (forall j :: i < j < |table| ==> table[j].1 != code)
                        ==> Invert(table)[code] == table[i].0
  {
    if table != [] {
      var init := table[..|table| - 1];
      InvertMeaning(init, code);
      assert forall i :: 0 <= i < |init| ==> init[i] == table[i];
    }
  }

  /** A code no label carries names itself; otherwise the last label carrying it is its name. */
  lemma NameOfMeaning(table: seq<(string, string)>, code: string)
    ensures (forall i :: 0 <= i < |table| ==> table[i].1 != code) ==> NameOf(table, code) == code
    ensures forall i :: 0 <= i < |table| && table[i].1 == code && (forall j :: i < j < |table| ==> table[j].1 != code)
                        ==> NameOf(table, code) == table[i].0
  {
    InvertMeaning(table, code);
  }

  /** The domain names, with the code itself for any other domain. */
  function DomainName(code: string): string {
    if code == "ELEC" then "Électrique" else if code == "MECA" then "Mécanique" else code
  }

  /** `decode_sku_parts(sku)`: None for the empty dict returned unless the SKU has exactly five fields. */
  function DecodeSkuParts(tables: Tables, sku: string): (r: Option<SkuParts>)
    ensures r.Some? <==> |Split(sku, '-')| == 5
    ensures r.Some? ==> var p := Split(sku, '-');
                        && [r.value.domainCode, r.value.routeCode, r.value.routingCode, r.value.typeCode, r.value.sequence] == p
                        && r.value.domainName == DomainName(p[0])
                        && r.value.routeName == NameOf(tables.routes, p[1])
                        && r.value.routingName == NameOf(tables.routings, p[2])
                        && r.value.typeName == NameOf(tables.types, p[3])
  {
    var parts := Split(sku, '-');
    if |parts| != 5 then None
    else
      Some(SkuParts(
        parts[0], DomainName(parts[0]),
        parts[1], NameOf(tables.routes, parts[1]),
        parts[2], NameOf(tables.routings, parts[2]),
        parts[3], NameOf(tables.types, parts[3]),
        parts[4]))
  }

  // Lemmas

  /** Decoding a SKU built from a dash-free key gives back the key's codes and the sequence code. */
  lemma DecodeSkuOf(tables: Tables, key: CounterKey, n: int)
    requires KeyDashFree(key)
    ensures var r := DecodeSkuParts(tables, SkuOf(key, n));
            && r.Some?
            && r.value.domainCode == key.domain && r.value.routeCode == key.route
            && r.value.routingCode == key.routing && r.value.typeCode == key.typeCode
            && r.value.sequence == SequenceCode(n)
  {
    SkuSplits(key, n);
  }

  /** Every SKU `generate_sku` returns decodes. */
  lemma DecodeGenerated(digest: string -> string, tables: Tables, s: Store, c: Components.Component)
    requires Inv(s) && AllCodesAvoid(tables, '-')
    requires Generate(digest, tables, s, c).0.Ok?
    ensures DecodeSkuParts(tables, Generate(digest, tables, s, c).0.sku).Some?
  {
    GeneratedSkuShape(digest, tables, s, c);
  }

  /** A text with three dash-separated fields, the shorter layout, does not decode. */
  lemma ThreeFieldsRejected(tables: Tables, a: string, b: string, d: string)
    requires '-' !in a && '-' !in b && '-' !in d
    ensures DecodeSkuParts(tables, a + "-" + b + "-" + d) == None
  {
    SplitNoSep(d, '-');
    SplitField(b, '-', d);
    assert a + "-" + b + "-" + d == a + ['-'] + (b + ['-'] + d);
    SplitField(a, '-', b + ['-'] + d);
  }

  /**
    `ASS` is shared by "Assemblage" and "ASSEMBLAGE MÉCANIQUE"; the later
    entry wins, so its name is "ASSEMBLAGE MÉCANIQUE".
   */
  lemma AssRouteName()
    ensures NameOf(RouteMapping, "ASS") == "ASSEMBLAGE MÉCANIQUE"
  {
    NameOfMeaning(RouteMapping, "ASS");
    assert RouteMapping[7] == ("ASSEMBLAGE MÉCANIQUE", "ASS");
    forall j | 7 < j < |RouteMapping|
      ensures RouteMapping[j].1 != "ASS"
    {
    }
  }
}
