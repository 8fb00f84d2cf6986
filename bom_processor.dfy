/**
  `BOMProcessor`: the batch loops that turn BOM rows, or components picked
  by the user, into SKU lines with one generator.

  A BOM row is taken with its cells already rendered as text (the source's
  `str(row.get(...))`); a line is the dictionary appended to `results`,
  holding the SKU and the component as `generate_sku` left it.
 */
module BomProcessor {
  import opened Wrappers
  import opened PyStr
  import opened Lookup
  import opened Components
  import opened SkuEngine
  import opened Generator

  /** A row of the 'BOM Électrique' sheet. */
  datatype ElecRow = ElecRow(
    name: string, description: string, componentType: string,
    manufacturer: string, manufacturerPart: string,
    quantity: Option<real>, designator: string)

  /** A row of the 'BOM Mécanique' sheet. */
  datatype MecaRow = MecaRow(
    partNumber: string, description: string, componentType: string,
    manufacturer: string, quantity: Option<real>)

  /** One result line: the SKU, the component's fields and the 'Domain' column. */
  datatype BomLine = BomLine(sku: string, part: Component, domainLabel: string)

  /** The 'Domain' column of the two kinds of line. */
  const ElecLabel: string := "ÉLECTRIQUE"
  const MecaLabel: string := "MÉCANIQUE"

  /** The keys of `generate_skus_for_selected_components`'s result. */
  const ElecName: string := "Électrique"
  const MecaName: string := "Mécanique"

  /** The component built from an electrical row: domain ELEC, route and routing left empty. */
  function ElecComponent(row: ElecRow): Component {
    Component(row.name, row.description, "ELEC", row.componentType, "", "",
              Some(row.manufacturer), Some(row.manufacturerPart), row.quantity, Some(row.designator))
  }

  /** The component built from a mechanical row: the part number is both name and manufacturer part. */
  function MecaComponent(row: MecaRow): Component {
    Component(row.partNumber, row.description, "MECA", row.componentType, "", "",
              Some(row.manufacturer), Some(row.partNumber), row.quantity, None)
  }

  function ElecComponents(rows: seq<ElecRow>): (cs: seq<Component>)
    ensures |cs| == |rows| && forall i :: 0 <= i < |rows| ==> cs[i] == ElecComponent(rows[i])
  {
    seq(|rows|, i requires 0 <= i < |rows| => ElecComponent(rows[i]))
  }

  function MecaComponents(rows: seq<MecaRow>): (cs: seq<Component>)
    ensures |cs| == |rows| && forall i :: 0 <= i < |rows| ==> cs[i] == MecaComponent(rows[i])
  {
    seq(|rows|, i requires 0 <= i < |rows| => MecaComponent(rows[i]))
  }

  /** What one call of `generate_sku` does: the outcome, the updated component and the store after it. */
  type Call = (Store, Component) -> (Outcome, Component, Store)

  /** `generate_sku` of a generator with fingerprint function `digest` and tables `tables`. */
  function GenerateCall(digest: string -> string, tables: Tables): (call: Call)
    ensures forall st, c :: call(st, c) == Generate(digest, tables, st, c)
  {
    (st: Store, c: Component) => Generate(digest, tables, st, c)
  }

  /**
    The per-row loop shared by the four processing routines, for any call:
    each component goes through the call; a SKU adds a line, an exception
    (ValueError or IntegrityError) counts the row as skipped. The store is
    threaded through, so a failed call still keeps its counter step.
   */
  function Run(call: Call, s: Store, comps: seq<Component>, kind: string): (r: (seq<BomLine>, nat, Store))
    ensures |r.0| + r.1 == |comps|
    decreases |comps|
  {
    if comps == [] then ([], 0, s)
    else
      var prev := Run(call, s, comps[..|comps| - 1], kind);
      var g := call(prev.2, comps[|comps| - 1]);
      if g.0.Ok? then (prev.0 + [BomLine(g.0.sku, g.1, kind)], prev.1, g.2)
      else (prev.0, prev.1 + 1, g.2)
  }

  /** The loop with `generate_sku` as its call: the lines, the rows skipped and the store left. */
  function Process(digest: string -> string, tables: Tables, s: Store, comps: seq<Component>, kind: string)
    : (r: (seq<BomLine>, nat, Store))
    ensures |r.0| + r.1 == |comps|
  {
    Run(GenerateCall(digest, tables), s, comps, kind)
  }

  /** The store the call on `comps[j]` sees: the one the first `j` calls left. */
  function StoreBefore(call: Call, s: Store, comps: seq<Component>, kind: string, j: nat): Store
    requires j <= |comps|
  {
    Run(call, s, comps[..j], kind).2
  }

  /**
    `idx` lists, in increasing order, the positions of the components whose
    call returned a SKU: line `k` is the SKU and updated component of the
    call on `comps[idx[k]]`, made on the store the earlier calls left;
    every position not listed raised.
   */
  ghost predicate Trace(call: Call, s: Store, comps: seq<Component>, kind: string, lines: seq<BomLine>, idx: seq<nat>) {
    && |idx| == |lines|
    && (forall k :: 0 <= k < |idx| ==> idx[k] < |comps|)
    && (forall k, k' :: 0 <= k < k' < |idx| ==> idx[k] < idx[k'])
    && (forall k :: 0 <= k < |idx| ==>
          var g := call(StoreBefore(call, s, comps, kind, idx[k]), comps[idx[k]]);
          g.0.Ok? && lines[k] == BomLine(g.0.sku, g.1, kind))
    && (forall j :: 0 <= j < |comps| && j !in idx ==> !call(StoreBefore(call, s, comps, kind, j), comps[j]).0.Ok?)
  }

  /** The store before a call does not depend on the components after it. */
  lemma StoreBeforePrefix(call: Call, s: Store, comps: seq<Component>, kind: string, m: nat, j: nat)
    requires j < m <= |comps|
    ensures StoreBefore(call, s, comps[..m], kind, j) == StoreBefore(call, s, comps, kind, j)
    ensures comps[..m][j] == comps[j]
  {
    assert comps[..m][..j] == comps[..j];
  }

  /** The positions, in order, of the components whose call returned a SKU. */
  ghost function Kept(call: Call, s: Store, comps: seq<Component>, kind: string): seq<nat>
    decreases |comps|
  {
    if comps == [] then []
    else
      var n := |comps| - 1;
      var prev := Kept(call, s, comps[..n], kind);
      if call(StoreBefore(call, s, comps, kind, n), comps[n]).0.Ok? then prev + [n] else prev
  }

  /** One line per listed position. */
  lemma {:induction false} KeptLength(call: Call, s: Store, comps: seq<Component>, kind: string)
    ensures |Kept(call, s, comps, kind)| == |Run(call, s, comps, kind).0|
    decreases |comps|
  {
    if comps != [] {
      KeptLength(call, s, comps[..|comps| - 1], kind);
    }
  }

  /** The positions are in range and strictly increasing. */
  lemma {:induction false} KeptIncreasing(call: Call, s: Store, comps: seq<Component>, kind: string)
    ensures forall k :: 0 <= k < |Kept(call, s, comps, kind)| ==> Kept(call, s, comps, kind)[k] < |comps|
    ensures forall k, k' :: 0 <= k < k' < |Kept(call, s, comps, kind)| ==>
              Kept(call, s, comps, kind)[k] < Kept(call, s, comps, kind)[k']
    decreases |comps|
  {
    if comps != [] {
      KeptIncreasing(call, s, comps[..|comps| - 1], kind);
    }
  }

  /** Line `k` is the SKU and updated component of the call on the `k`-th listed position. */
  lemma {:induction false} KeptLines(call: Call, s: Store, comps: seq<Component>, kind: string)
    ensures var idx, lines := Kept(call, s, comps, kind), Run(call, s, comps, kind).0;
            forall k :: 0 <= k < |idx| && k < |lines| && idx[k] < |comps| ==>
              var g := call(StoreBefore(call, s, comps, kind, idx[k]), comps[idx[k]]);
              g.0.Ok? && lines[k] == BomLine(g.0.sku, g.1, kind)
    decreases |comps|
  {
    if comps != [] {
      var n := |comps| - 1;
      var idx0, prev := Kept(call, s, comps[..n], kind), Run(call, s, comps[..n], kind);
      KeptLines(call, s, comps[..n], kind);
      KeptLength(call, s, comps[..n], kind);
      KeptIncreasing(call, s, comps[..n], kind);
      var idx, lines := Kept(call, s, comps, kind), Run(call, s, comps, kind).0;
      forall k | 0 <= k < |idx| && k < |lines| && idx[k] < |comps|
        ensures var g := call(StoreBefore(call, s, comps, kind, idx[k]), comps[idx[k]]);
                g.0.Ok? && lines[k] == BomLine(g.0.sku, g.1, kind)
      {
        if k < |idx0| {
          assert idx[k] == idx0[k] && lines[k] == prev.0[k];
          StoreBeforePrefix(call, s, comps, kind, n, idx0[k]);
        }
      }
    }
  }

  /** Every position not listed raised. */
  lemma {:induction false} KeptComplete(call: Call, s: Store, comps: seq<Component>, kind: string)
    ensures forall j :: 0 <= j < |comps| && j !in Kept(call, s, comps, kind) ==>
              !call(StoreBefore(call, s, comps, kind, j), comps[j]).0.Ok?
    decreases |comps|
  {
    if comps != [] {
      var n := |comps| - 1;
      var idx0 := Kept(call, s, comps[..n], kind);
      KeptComplete(call, s, comps[..n], kind);
      var idx := Kept(call, s, comps, kind);
      forall j | 0 <= j < |comps| && j !in idx
        ensures !call(StoreBefore(call, s, comps, kind, j), comps[j]).0.Ok?
      {
        if j < n {
          assert idx0 <= idx;
          assert j !in idx0;
          StoreBeforePrefix(call, s, comps, kind, n, j);
        }
      }
    }
  }

  /** The loop's lines are exactly the calls that returned a SKU, in input order. */
  lemma RunTrace(call: Call, s: Store, comps: seq<Component>, kind: string)
    ensures Trace(call, s, comps, kind, Run(call, s, comps, kind).0, Kept(call, s, comps, kind))
  {
    KeptLength(call, s, comps, kind);
    KeptIncreasing(call, s, comps, kind);
    KeptLines(call, s, comps, kind);
    KeptComplete(call, s, comps, kind);
  }

  /** One more component: `Process` of a prefix, extended by the next call to `generate_sku`. */
  lemma ProcessStep(digest: string -> string, tables: Tables, s: Store, comps: seq<Component>, kind: string, i: nat)
    requires i < |comps|
    ensures var prev := Process(digest, tables, s, comps[..i], kind);
            var g := Generate(digest, tables, prev.2, comps[i]);
            Process(digest, tables, s, comps[..i + 1], kind)
            == if g.0.Ok? then (prev.0 + [BomLine(g.0.sku, g.1, kind)], prev.1, g.2) else (prev.0, prev.1 + 1, g.2)
  {
    assert comps[..i + 1][..i] == comps[..i] && comps[..i + 1][i] == comps[i];
  }

  /**
    `generate_skus_for_selected_components` over the dict's items in order:
    the ELEC list becomes the "Électrique" entry, the MECA list the
    "Mécanique" entry, any other key is passed over.
   */
  function Selected(digest: string -> string, tables: Tables, s: Store, groups: seq<(string, seq<Component>)>)
    : (r: (map<string, seq<BomLine>>, Store))
    decreases |groups|
  {
    if groups == [] then (map[], s)
    else
      var prev := Selected(digest, tables, s, groups[..|groups| - 1]);
      var g := groups[|groups| - 1];
      if g.0 == "ELEC" then
        var p := Process(digest, tables, prev.1, g.1, ElecLabel);
        (prev.0[ElecName := p.0], p.2)
      else if g.0 == "MECA" then
        var p := Process(digest, tables, prev.1, g.1, MecaLabel);
        (prev.0[MecaName := p.0], p.2)
      else prev
  }

  /** One more item: `Selected` of a prefix, extended by the next domain's list. */
  lemma SelectedStep(digest: string -> string, tables: Tables, s: Store, groups: seq<(string, seq<Component>)>, i: nat)
    requires i < |groups|
    ensures var prev := Selected(digest, tables, s, groups[..i]);
            var g := groups[i];
            Selected(digest, tables, s, groups[..i + 1])
            == if g.0 == "ELEC" then
                 var p := Process(digest, tables, prev.1, g.1, ElecLabel); (prev.0[ElecName := p.0], p.2)
               else if g.0 == "MECA" then
                 var p := Process(digest, tables, prev.1, g.1, MecaLabel); (prev.0[MecaName := p.0], p.2)
               else prev
  {
    assert groups[..i + 1][..i] == groups[..i] && groups[..i + 1][i] == groups[i];
  }

  /**
    `extract_*_components` as they are meant to run: a component that passes
    `_validate_component` is kept as validation left it, any other is skipped.
   */
  function Extract(comps: seq<Component>): (r: (seq<Component>, nat))
    ensures |r.0| + r.1 == |comps|
    decreases |comps|
  {
    if comps == [] then ([], 0)
    else
      var prev := Extract(comps[..|comps| - 1]);
      var v := Validate(comps[|comps| - 1]);
      if v.0 then (prev.0 + [v.1], prev.1) else (prev.0, prev.1 + 1)
  }

  /**
    `extract_*_components` as written: the call to `validate_component`, a
    method the generator does not have, raises AttributeError on every row,
    which the loop counts as skipped.
   */
  function ExtractAsWritten(comps: seq<Component>): (seq<Component>, nat)
    decreases |comps|
  {
    if comps == [] then ([], 0)
    else
      var prev := ExtractAsWritten(comps[..|comps| - 1]);
      (prev.0, prev.1 + 1)
  }

  // Lemmas about the batch loops

  /** Line `k` carries `kind` and the fields of component `idx[k]` of `comps` as validation left it. */
  predicate LinesFrom(lines: seq<BomLine>, comps: seq<Component>, kind: string, idx: seq<nat>) {
    && |idx| == |lines|
    && forall k :: 0 <= k < |lines| ==>
         lines[k].domainLabel == kind && idx[k] < |comps| && lines[k].part == Validate(comps[idx[k]]).1
  }

  /** Each line's SKU is the SKU of one of `records`. */
  predicate AllStored(lines: seq<BomLine>, records: seq<Record>) {
    forall k :: 0 <= k < |lines| ==> FindSku(records, lines[k].sku).Some?
  }

  /**
    The lines keep the input order: they are exactly the components whose
    `generate_sku` call returned a SKU, in order, each with that SKU, its
    fields as validation left them and the routine's 'Domain' value; every
    component left out raised.
   */
  lemma ProcessLines(digest: string -> string, tables: Tables, s: Store, comps: seq<Component>, kind: string)
    ensures Trace(GenerateCall(digest, tables), s, comps, kind, Process(digest, tables, s, comps, kind).0,
                  Kept(GenerateCall(digest, tables), s, comps, kind))
    ensures LinesFrom(Process(digest, tables, s, comps, kind).0, comps, kind, Kept(GenerateCall(digest, tables), s, comps, kind))
  {
    var call := GenerateCall(digest, tables);
    var lines := Process(digest, tables, s, comps, kind).0;
    RunTrace(call, s, comps, kind);
    var idx := Kept(call, s, comps, kind);
    forall k | 0 <= k < |lines|
      ensures lines[k].domainLabel == kind && idx[k] < |comps| && lines[k].part == Validate(comps[idx[k]]).1
    {
      var g := call(StoreBefore(call, s, comps, kind, idx[k]), comps[idx[k]]);
    }
  }

  /**
    The result has an "Électrique" entry exactly when the dict has an ELEC
    key, a "Mécanique" entry exactly when it has a MECA key, and no other entry.
   */
  lemma {:induction false} SelectedKeys(digest: string -> string, tables: Tables, s: Store, groups: seq<(string, seq<Component>)>)
    ensures forall k :: k in Selected(digest, tables, s, groups).0 ==> k == ElecName || k == MecaName
    ensures ElecName in Selected(digest, tables, s, groups).0 <==> exists i :: 0 <= i < |groups| && groups[i].0 == "ELEC"
    ensures MecaName in Selected(digest, tables, s, groups).0 <==> exists i :: 0 <= i < |groups| && groups[i].0 == "MECA"
    decreases |groups|
  {
    if groups != [] {
      var init := groups[..|groups| - 1];
      SelectedKeys(digest, tables, s, init);
      assert forall i :: 0 <= i < |init| ==> init[i] == groups[i];
    }
  }

  /** A batch keeps the store invariant. */
  lemma {:induction false} ProcessPreservesInv(digest: string -> string, tables: Tables, s: Store, comps: seq<Component>, kind: string)
    requires Inv(s) && AllCodesAvoid(tables, '-')
    ensures Inv(Process(digest, tables, s, comps, kind).2)
    decreases |comps|
  {
    if comps != [] {
      var prev := Process(digest, tables, s, comps[..|comps| - 1], kind);
      ProcessPreservesInv(digest, tables, s, comps[..|comps| - 1], kind);
      GeneratePreservesInv(digest, tables, prev.2, comps[|comps| - 1]);
    }
  }

  /** A found SKU stays found when rows are appended. */
  lemma FindSkuAppended(records: seq<Record>, records': seq<Record>, sku: string)
    requires FindSku(records, sku).Some?
    requires |records| <= |records'| && records'[..|records|] == records
    ensures FindSku(records', sku).Some?
  {
    var i :| 0 <= i < |records| && records[i] == FindSku(records, sku).value;
    assert records'[i] == records[i];
  }

  /** Every SKU in the result is the SKU of a row of the database the batch leaves. */
  lemma {:induction false} ProcessLinesStored(digest: string -> string, tables: Tables, s: Store, comps: seq<Component>, kind: string)
    ensures AllStored(Process(digest, tables, s, comps, kind).0, Process(digest, tables, s, comps, kind).2.records)
    decreases |comps|
  {
    if comps != [] {
      var init := comps[..|comps| - 1];
      var prev := Process(digest, tables, s, init, kind);
      var c := comps[|comps| - 1];
      var g := Generate(digest, tables, prev.2, c);
      var r := Process(digest, tables, s, comps, kind);
      ProcessLinesStored(digest, tables, s, init, kind);
      assert r.0 == (if g.0.Ok? then prev.0 + [BomLine(g.0.sku, g.1, kind)] else prev.0) && r.2 == g.2;
      GenerateMonotonic(digest, tables, prev.2, c);
      if g.0.Ok? {
        GenerateFindable(digest, tables, prev.2, c);
      }
      forall k | 0 <= k < |r.0|
        ensures FindSku(r.2.records, r.0[k].sku).Some?
      {
        if k < |prev.0| {
          FindSkuAppended(prev.2.records, g.2.records, prev.0[k].sku);
        }
      }
    }
  }

  /** When no row passes validation there are no lines, every row is skipped and the store is unchanged. */
  lemma {:induction false} ProcessAllInvalid(digest: string -> string, tables: Tables, s: Store, comps: seq<Component>, kind: string)
    requires forall j :: 0 <= j < |comps| ==> !Validate(comps[j]).0
    ensures Process(digest, tables, s, comps, kind) == ([], |comps|, s)
    decreases |comps|
  {
    if comps != [] {
      ProcessAllInvalid(digest, tables, s, comps[..|comps| - 1], kind);
    }
  }

  /** Every line of the electrical routine is an ELEC component. */
  lemma ElectricalLines(digest: string -> string, tables: Tables, s: Store, rows: seq<ElecRow>)
    ensures var lines := Process(digest, tables, s, ElecComponents(rows), ElecLabel).0;
            forall k :: 0 <= k < |lines| ==> lines[k].part.domain == "ELEC" && lines[k].domainLabel == ElecLabel
  {
    ProcessLines(digest, tables, s, ElecComponents(rows), ElecLabel);
  }

  /** Every line of the mechanical routine is a MECA component whose name is its manufacturer part number. */
  lemma MechanicalLines(digest: string -> string, tables: Tables, s: Store, rows: seq<MecaRow>)
    ensures var lines := Process(digest, tables, s, MecaComponents(rows), MecaLabel).0;
            forall k :: 0 <= k < |lines| ==>
              && lines[k].part.domain == "MECA" && lines[k].part.manufacturerPart == Some(lines[k].part.name)
              && lines[k].part.designator == None && lines[k].domainLabel == MecaLabel
  {
    ProcessLines(digest, tables, s, MecaComponents(rows), MecaLabel);
  }

  /** The components kept by the intended extraction are valid and validating them again changes nothing. */
  lemma {:induction false} ExtractValidated(comps: seq<Component>)
    ensures forall k :: 0 <= k < |Extract(comps).0| ==> Validate(Extract(comps).0[k]) == (true, Extract(comps).0[k])
    decreases |comps|
  {
    if comps != [] {
      ExtractValidated(comps[..|comps| - 1]);
      ValidateIdempotent(comps[|comps| - 1]);
    }
  }

  /** As written, extraction returns no component and counts every row as skipped. */
  lemma {:induction false} ExtractAsWrittenEmpty(comps: seq<Component>)
    ensures ExtractAsWritten(comps) == ([], |comps|)
    decreases |comps|
  {
    if comps != [] {
      ExtractAsWrittenEmpty(comps[..|comps| - 1]);
    }
  }

  /** A component that passes validation is kept by the intended extraction and dropped as written. */
  lemma ExtractDropsValid(c: Component)
    requires Validate(c).0
    ensures Extract([c]).0 == [Validate(c).1]
    ensures ExtractAsWritten([c]).0 == []
  {
    assert [c][..0] == [];
  }

  class BomProcessor {
    const generator: SkuGenerator

    constructor (generator: SkuGenerator)
      ensures this.generator == generator
    {
      this.generator := generator;
    }

    /** The loop of the four processing routines, proved against `Process`. */
    method GenerateLines(comps: seq<Component>, kind: string) returns (lines: seq<BomLine>, skipped: nat)
      requires generator.Valid()
      modifies generator
      ensures generator.Valid()
      ensures (lines, skipped, generator.State())
              == Process(generator.digest, generator.tables, old(generator.State()), comps, kind)
    {
      ghost var s := generator.State();
      lines, skipped := [], 0;
      var i := 0;
      while i < |comps|
        invariant 0 <= i <= |comps| && generator.Valid()
        invariant (lines, skipped, generator.State()) == Process(generator.digest, generator.tables, s, comps[..i], kind)
      {
        ghost var prev := Process(generator.digest, generator.tables, s, comps[..i], kind);
        ProcessStep(generator.digest, generator.tables, s, comps, kind, i);
        var outcome, updated := generator.GenerateSku(comps[i]);
        ghost var g := Generate(generator.digest, generator.tables, prev.2, comps[i]);
        assert outcome == g.0 && updated == g.1 && generator.State() == g.2;
        if outcome.Ok? {
          lines := lines + [BomLine(outcome.sku, updated, kind)];
        } else {
          skipped := skipped + 1;
        }
        assert (lines, skipped, generator.State()) == Process(generator.digest, generator.tables, s, comps[..i + 1], kind);
        i := i + 1;
      }
      assert comps[..i] == comps;
    }

    /** `process_electrical_bom(df)`: the lines and the number of rows skipped. */
    method ProcessElectricalBom(rows: seq<ElecRow>) returns (lines: seq<BomLine>, skipped: nat)
      requires generator.Valid()
      modifies generator
      ensures generator.Valid()
      ensures (lines, skipped, generator.State())
              == Process(generator.digest, generator.tables, old(generator.State()), ElecComponents(rows), ElecLabel)
    {
      lines, skipped := GenerateLines(ElecComponents(rows), ElecLabel);
    }

    /** `process_mechanical_bom(df)`: the lines and the number of rows skipped. */
    method ProcessMechanicalBom(rows: seq<MecaRow>) returns (lines: seq<BomLine>, skipped: nat)
      requires generator.Valid()
      modifies generator
      ensures generator.Valid()
      ensures (lines, skipped, generator.State())
              == Process(generator.digest, generator.tables, old(generator.State()), MecaComponents(rows), MecaLabel)
    {
      lines, skipped := GenerateLines(MecaComponents(rows), MecaLabel);
    }

    /** `_process_selected_electrical_components(components)`: failures are dropped without a count. */
    method ProcessSelectedElectrical(comps: seq<Component>) returns (lines: seq<BomLine>)
      requires generator.Valid()
      modifies generator
      ensures generator.Valid()
      ensures var r := Process(generator.digest, generator.tables, old(generator.State()), comps, ElecLabel);
              lines == r.0 && generator.State() == r.2
    {
      var skipped;
      lines, skipped := GenerateLines(comps, ElecLabel);
    }

    /** `_process_selected_mechanical_components(components)`: failures are dropped without a count. */
    method ProcessSelectedMechanical(comps: seq<Component>) returns (lines: seq<BomLine>)
      requires generator.Valid()
      modifies generator
      ensures generator.Valid()
      ensures var r := Process(generator.digest, generator.tables, old(generator.State()), comps, MecaLabel);
              lines == r.0 && generator.State() == r.2
    {
      var skipped;
      lines, skipped := GenerateLines(comps, MecaLabel);
    }

    /** `generate_skus_for_selected_components(components_by_domain)`, the dict given as its items in order. */
    method GenerateSkusForSelected(groups: seq<(string, seq<Component>)>) returns (results: map<string, seq<BomLine>>)
      requires generator.Valid()
      modifies generator
      ensures generator.Valid()
      ensures (results, generator.State()) == Selected(generator.digest, generator.tables, old(generator.State()), groups)
    {
      ghost var s := generator.State();
      results := map[];
      var i := 0;
      while i < |groups|
        invariant 0 <= i <= |groups| && generator.Valid()
        invariant (results, generator.State()) == Selected(generator.digest, generator.tables, s, groups[..i])
      {
        SelectedStep(generator.digest, generator.tables, s, groups, i);
        var domain := groups[i].0;
        if domain == "ELEC" {
          var lines := ProcessSelectedElectrical(groups[i].1);
          results := results[ElecName := lines];
        } else if domain == "MECA" {
          var lines := ProcessSelectedMechanical(groups[i].1);
          results := results[MecaName := lines];
        }
        i := i + 1;
      }
      assert groups[..i] == groups;
    }

    /** `extract_electrical_components(df)`, with the validation call it evidently intends. */
    method ExtractElectricalComponents(rows: seq<ElecRow>) returns (components: seq<Component>)
      ensures components == Extract(ElecComponents(rows)).0
    {
      components := ExtractValid(ElecComponents(rows));
    }

    /** `extract_mechanical_components(df)`, with the validation call it evidently intends. */
    method ExtractMechanicalComponents(rows: seq<MecaRow>) returns (components: seq<Component>)
      ensures components == Extract(MecaComponents(rows)).0
    {
      components := ExtractValid(MecaComponents(rows));
    }

    /** The loop of the two extraction routines, proved against `Extract`. */
    method ExtractValid(comps: seq<Component>) returns (components: seq<Component>)
      ensures components == Extract(comps).0
    {
      components := [];
      ghost var skipped := 0;
      var i := 0;
      while i < |comps|
        invariant 0 <= i <= |comps|
        invariant (components, skipped) == Extract(comps[..i])
      {
        assert comps[..i + 1][..i] == comps[..i] && comps[..i + 1][i] == comps[i];
        var v := Validate(comps[i]);
        if v.0 {
          components := components + [v.1];
        } else {
          skipped := skipped + 1;
        }
        i := i + 1;
      }
      assert comps[..i] == comps;
    }
  }
}
