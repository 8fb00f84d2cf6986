/**
  `odoo_export_config`: the export's constant tables, `_normalize_domain` and
  `prepare_odoo_export`, which turns SKU result rows into ODOO products.
 */
module OdooExport {
  import opened Wrappers
  import opened PyStr
  import opened Cells

  /** `ODOO_COLUMNS`: ODOO field to result column. */
  const OdooColumns: seq<(string, string)> := [
    ("default_code", "SKU"), ("name", "Name"), ("description", "Description"),
    ("categ_id", "Domain"), ("standard_price", "Cost"), ("list_price", "Price"),
    ("uom_id", "Unit"), ("type", "Type"),
    ("manufacturer_name", "Manufacturer"), ("manufacturer_pname", "Manufacturer_PN"),
    ("route_ids", "Route"), ("tracking", "Tracking"), ("active", "Active"),
    ("x_domain", "Domain"), ("x_component_type", "ComponentType"),
    ("x_designator", "Designator"), ("x_quantity_bom", "Quantity")
  ]

  /** `ODOO_DEFAULTS`, merged into every product. */
  const OdooDefaults: map<string, Value> := map[
    "type" := Str("product"), "uom_id" := Int(1), "uom_po_id" := Int(1),
    "tracking" := Str("none"), "active" := Bool(true), "sale_ok" := Bool(true),
    "purchase_ok" := Bool(true), "standard_price" := Real(0.0), "list_price" := Real(0.0)
  ]

  /** `DOMAIN_CATEGORIES`: the ODOO category of each domain key. */
  const DomainCategories: map<string, string> := map[
    "ELEC" := "Composants Électroniques", "MECA" := "Composants Mécaniques",
    "SOFT" := "Logiciels", "DOC" := "Documentation"
  ]

  const ElecVariants: seq<string> := ["ELEC", "ELECTRIQUE", "ÉLECTRIQUE", "ELECTRICAL"]
  const MecaVariants: seq<string> := ["MECA", "MECANIQUE", "MÉCANIQUE", "MECHANICAL"]

  /** `_normalize_domain(domain_value)` */
  function NormalizeDomain(v: Value): (d: string)
    ensures d == "ELEC" || d == "MECA" || d == "DOC"
  {
    if !v.Str? then "DOC"
    else
      var val := Upper(Strip(v.s));
      if val in ElecVariants then "ELEC"
      else if val in MecaVariants then "MECA"
      else "DOC"
  }

  /** `DOMAIN_CATEGORIES.get(domain_norm, 'Autres')` */
  function CategoryOf(domain: string): string {
    if domain in DomainCategories then DomainCategories[domain] else "Autres"
  }

  /** The keys a product takes from its row, before the defaults are merged in. */
  const RowKeys: set<string> := {
    "default_code", "name", "description", "categ_id", "manufacturer_name", "manufacturer_pname",
    "x_domain", "x_component_type", "x_designator", "x_quantity_bom"
  }

  /**
    A product dict: the ten fields taken from the row, under the keys of
    `RowKeys` in this order, followed by every entry of `OdooDefaults`
    (see `AsDict`).
   */
  datatype Product = Product(
    defaultCode: Value, name: Value, description: Value, categId: Value,
    manufacturerName: Value, manufacturerPname: Value,
    xDomain: Value, xComponentType: Value, xDesignator: Value, xQuantityBom: Value)

  /** The product as the dict `prepare_odoo_export` appends. */
  function AsDict(p: Product): Row {
    map[
      "default_code" := p.defaultCode, "name" := p.name, "description" := p.description,
      "categ_id" := p.categId, "manufacturer_name" := p.manufacturerName,
      "manufacturer_pname" := p.manufacturerPname, "x_domain" := p.xDomain,
      "x_component_type" := p.xComponentType, "x_designator" := p.xDesignator,
      "x_quantity_bom" := p.xQuantityBom
    ] + OdooDefaults
  }

  /**
    The product of one result row, or None for the KeyError of a row
    without an SKU, Name or Description column.
   */
  function ProductFor(row: Row): (p: Option<Product>)
    ensures p.Some? <==> "SKU" in row && "Name" in row && "Description" in row
  {
    if "SKU" !in row || "Name" !in row || "Description" !in row then None
    else
      var domain := NormalizeDomain(Get(row, "Domain", Str("")));
      Some(Product(
        row["SKU"], row["Name"],
        if Truthy(row["Description"]) then row["Description"] else row["Name"],
        Str(CategoryOf(domain)),
        Get(row, "Manufacturer", Str("")), Get(row, "Manufacturer_PN", Str("")),
        Str(domain), Get(row, "ComponentType", Str("")), Get(row, "Designator", Str("")),
        Get(row, "Quantity", Int(1))))
  }

  /** Applies `f` to every element in order; None as soon as one element gives None. */
  function CollectAll<T, U>(f: T -> Option<U>, xs: seq<T>): Option<seq<U>>
    decreases |xs|
  {
    if xs == [] then Some([])
    else
      var prev := CollectAll(f, xs[..|xs| - 1]);
      var y := f(xs[|xs| - 1]);
      if prev.Some? && y.Some? then Some(prev.value + [y.value]) else None
  }

  /** `CollectAll` succeeds exactly when every element does, and then keeps each result in place. */
  lemma {:induction false} CollectAllMeaning<T, U>(f: T -> Option<U>, xs: seq<T>)
    ensures CollectAll(f, xs).Some? <==> forall i :: 0 <= i < |xs| ==> f(xs[i]).Some?
    ensures CollectAll(f, xs).Some? ==>
              (|CollectAll(f, xs).value| == |xs| &&
               forall i :: 0 <= i < |xs| ==> CollectAll(f, xs).value[i] == f(xs[i]).value)
    decreases |xs|
  {
    if xs != [] {
      var init := xs[..|xs| - 1];
      CollectAllMeaning(f, init);
      assert forall i :: 0 <= i < |init| ==> init[i] == xs[i];
    }
  }

  /** `prepare_odoo_export(df_results)`: one product per row, or None when some row raises. */
  function PrepareAll(rows: seq<Row>): Option<seq<Product>>
  {
    CollectAll(ProductFor, rows)
  }

  /** The export succeeds exactly when every row gives a product, and then holds one product per row, in order. */
  lemma PrepareAllMeaning(rows: seq<Row>)
    ensures PrepareAll(rows).Some? <==> forall i :: 0 <= i < |rows| ==> ProductFor(rows[i]).Some?
    ensures PrepareAll(rows).Some? ==>
              (|PrepareAll(rows).value| == |rows| &&
               forall i :: 0 <= i < |rows| ==> PrepareAll(rows).value[i] == ProductFor(rows[i]).value)
  {
    CollectAllMeaning(ProductFor, rows);
  }

  /** The loop of `prepare_odoo_export`, proved against `PrepareAll`. */
  method PrepareOdooExport(rows: seq<Row>) returns (r: Option<seq<Product>>)
    ensures r == PrepareAll(rows)
  {
    var products: seq<Product> := [];
    var i := 0;
    while i < |rows|
      invariant 0 <= i <= |rows|
      invariant PrepareAll(rows[..i]) == Some(products)
    {
      PrepareStep(rows, i);
      var p := ProductFor(rows[i]);
      if p.None? {
        PrepareAbsorbs(rows, i + 1);
        return None;
      }
      products := products + [p.value];
      i := i + 1;
    }
    assert rows[..i] == rows;
    return Some(products);
  }

  /** One more row: `PrepareAll` of a prefix, extended by the next row's product. */
  lemma PrepareStep(rows: seq<Row>, i: nat)
    requires i < |rows|
    ensures var prev := PrepareAll(rows[..i]);
            var p := ProductFor(rows[i]);
            PrepareAll(rows[..i + 1]) == if prev.Some? && p.Some? then Some(prev.value + [p.value]) else None
  {
    assert rows[..i + 1][..i] == rows[..i] && rows[..i + 1][i] == rows[i];
  }

  /** Once a prefix raises, so does every longer prefix. */
  lemma {:induction false} PrepareAbsorbs(rows: seq<Row>, j: nat)
    requires j <= |rows| && PrepareAll(rows[..j]).None?
    ensures PrepareAll(rows).None?
    decreases |rows| - j
  {
    if j < |rows| {
      assert rows[..j + 1][..j] == rows[..j];
      PrepareAbsorbs(rows, j + 1);
    } else {
      assert rows[..j] == rows;
    }
  }

  // Lemmas

  /** The row's keys and the defaults are disjoint, so merging the defaults overwrites nothing. */
  lemma DefaultsDisjoint()
    ensures RowKeys * OdooDefaults.Keys == {}
  {
    forall k | k in OdooDefaults.Keys
      ensures k !in RowKeys
    {
    }
  }

  /** The dict of a product has the row's keys and the defaults' keys, each default with its value. */
  lemma DictKeys(p: Product)
    ensures AsDict(p).Keys == RowKeys + OdooDefaults.Keys
    ensures forall k :: k in OdooDefaults ==> AsDict(p)[k] == OdooDefaults[k]
  {
  }

  /**
    The SKU is the product's `default_code`, the normalized domain its
    `x_domain`, and the description is the row's, or its name when that is falsy.
   */
  lemma ProductFields(row: Row)
    requires ProductFor(row).Some?
    ensures var p := ProductFor(row).value;
            && p.defaultCode == row["SKU"] && p.name == row["Name"]
            && p.xDomain == Str(NormalizeDomain(Get(row, "Domain", Str(""))))
            && p.description == (if Truthy(row["Description"]) then row["Description"] else row["Name"])
  {
  }

  /** The 'Autres' fallback never applies: the category is always that of ELEC, MECA or DOC. */
  lemma CategoryNeverAutres(row: Row)
    requires ProductFor(row).Some?
    ensures var c := ProductFor(row).value.categId;
            && c == Str(DomainCategories[NormalizeDomain(Get(row, "Domain", Str("")))])
            && c != Str("Autres")
  {
  }

  lemma NormalizeElec()
    ensures NormalizeDomain(Str("ELEC")) == "ELEC"
  {
    assert Strip("ELEC") == "ELEC" && Upper("ELEC") == "ELEC";
  }

  lemma NormalizeMeca()
    ensures NormalizeDomain(Str("MECA")) == "MECA"
  {
    assert Strip("MECA") == "MECA" && Upper("MECA") == "MECA";
    assert "MECA" !in ElecVariants;
  }

  lemma NormalizeDoc()
    ensures NormalizeDomain(Str("DOC")) == "DOC"
  {
    assert Strip("DOC") == "DOC" && Upper("DOC") == "DOC";
    assert "DOC" !in ElecVariants && "DOC" !in MecaVariants;
  }

  /** Normalizing a normalized domain changes nothing. */
  lemma NormalizeIdempotent(v: Value)
    ensures NormalizeDomain(Str(NormalizeDomain(v))) == NormalizeDomain(v)
  {
    NormalizeElec();
    NormalizeMeca();
    NormalizeDoc();
  }

  /** The 'Domain' value the electrical BOM routine writes normalizes to ELEC. */
  lemma ElecLabelNormalizes()
    ensures NormalizeDomain(Str("ÉLECTRIQUE")) == "ELEC"
  {
    StripNoSpace("ÉLECTRIQUE");
    UpperFixed("ÉLECTRIQUE");
  }

  /** A label already stripped and upper-case normalizes to MECA when it is a MECA variant and not an ELEC one. */
  lemma NormalizesToMeca(s: string)
    requires Upper(Strip(s)) == s && s !in ElecVariants && s in MecaVariants
    ensures NormalizeDomain(Str(s)) == "MECA"
  {
  }

  /** The mechanical label is already stripped and upper-case. */
  lemma MecaLabelFixed()
    ensures Upper(Strip("MÉCANIQUE")) == "MÉCANIQUE"
  {
    StripNoSpace("MÉCANIQUE");
    UpperFixed("MÉCANIQUE");
  }

  /** The mechanical label is not one of the ELEC variants. */
  lemma MecaLabelNotElec()
    ensures "MÉCANIQUE" !in ElecVariants
  {
  }

  /** The 'Domain' value the mechanical BOM routine writes normalizes to MECA. */
  lemma MecaLabelNormalizes()
    ensures NormalizeDomain(Str("MÉCANIQUE")) == "MECA"
  {
    MecaLabelFixed();
    MecaLabelNotElec();
    assert MecaVariants[2] == "MÉCANIQUE";
    NormalizesToMeca("MÉCANIQUE");
  }
}
