/**
  `BOMComparator`: a new BOM compared against the database, row by row,
  through the fingerprint lookup alone, and the database's counts.
 */
module BomAnalyzer {
  import opened Wrappers
  import opened PyStr
  import opened Lookup
  import opened Components
  import opened SkuEngine
  import opened Generator
  import opened BomProcessor

  /** An entry of `composants_nouveaux`. */
  datatype NewEntry = NewEntry(name: string, componentType: string, description: string)

  /** An entry of `composants_existants`. */
  datatype ExistingEntry = ExistingEntry(name: string, sku: string, componentType: string)

  /** What `_analyze_sheet` and `_analyze_sheet_meca` return. */
  datatype SheetAnalysis = SheetAnalysis(
    nouveau: nat, existant: nat,
    newComponents: seq<NewEntry>, existingComponents: seq<ExistingEntry>)

  /**
    What `analyze_new_bom` returns: the two totals and the details of each
    sheet, None for the `{}` left by a sheet the workbook does not have.
   */
  datatype BomAnalysis = BomAnalysis(
    nouveau: nat, existant: nat,
    electrical: Option<SheetAnalysis>, mechanical: Option<SheetAnalysis>)

  /** What `get_database_stats` returns. */
  datatype Stats = Stats(
    total: nat,
    byDomain: map<string, nat>, byRoute: map<string, nat>, byRouting: map<string, nat>)

  /** The component `_analyze_sheet` builds from an electrical row: no quantity, no designator. */
  function ElecProbe(row: ElecRow, domain: string): Component {
    Component(row.name, row.description, domain, row.componentType, "", "",
              Some(row.manufacturer), Some(row.manufacturerPart), None, None)
  }

  /** The component `_analyze_sheet_meca` builds from a mechanical row. */
  function MecaProbe(row: MecaRow, domain: string): Component {
    Component(row.partNumber, row.description, domain, row.componentType, "", "",
              Some(row.manufacturer), Some(row.partNumber), None, None)
  }

  function ElecProbes(rows: seq<ElecRow>, domain: string): (cs: seq<Component>)
    ensures |cs| == |rows| && forall i :: 0 <= i < |rows| ==> cs[i] == ElecProbe(rows[i], domain)
  {
    seq(|rows|, i requires 0 <= i < |rows| => ElecProbe(rows[i], domain))
  }

  function MecaProbes(rows: seq<MecaRow>, domain: string): (cs: seq<Component>)
    ensures |cs| == |rows| && forall i :: 0 <= i < |rows| ==> cs[i] == MecaProbe(rows[i], domain)
  {
    seq(|rows|, i requires 0 <= i < |rows| => MecaProbe(rows[i], domain))
  }

  /** `if existing_sku:` — a stored, non-empty SKU. */
  predicate Known(existing: Option<string>) {
    existing.Some? && existing.value != ""
  }

  /**
    The loop of the two sheet analyses: a row whose fingerprint has a stored
    SKU counts as existing, any other as new.
   */
  function Analyze(digest: string -> string, records: seq<Record>, comps: seq<Component>): (r: SheetAnalysis)
    ensures r.nouveau + r.existant == |comps|
    ensures |r.newComponents| == r.nouveau && |r.existingComponents| == r.existant
    decreases |comps|
  {
    if comps == [] then SheetAnalysis(0, 0, [], [])
    else
      var prev := Analyze(digest, records, comps[..|comps| - 1]);
      var c := comps[|comps| - 1];
      var existing := ExistingSku(records, Fingerprint(digest, c));
      if Known(existing) then
        prev.(existant := prev.existant + 1,
              existingComponents := prev.existingComponents + [ExistingEntry(c.name, existing.value, c.componentType)])
      else
        prev.(nouveau := prev.nouveau + 1,
              newComponents := prev.newComponents + [NewEntry(c.name, c.componentType, c.description)])
  }

  /** The `nouveau` and `existant` a sheet adds to the totals: none for a missing sheet. */
  function NewCount(a: Option<SheetAnalysis>): nat {
    if a.Some? then a.value.nouveau else 0
  }

  function ExistingCount(a: Option<SheetAnalysis>): nat {
    if a.Some? then a.value.existant else 0
  }

  /** `analyze_new_bom`, the workbook given as its two optional sheets. */
  function AnalyzeBom(digest: string -> string, records: seq<Record>,
                      electrical: Option<seq<ElecRow>>, mechanical: Option<seq<MecaRow>>): (r: BomAnalysis)
    ensures r.electrical.Some? <==> electrical.Some?
    ensures r.mechanical.Some? <==> mechanical.Some?
    ensures r.nouveau == NewCount(r.electrical) + NewCount(r.mechanical)
    ensures r.existant == ExistingCount(r.electrical) + ExistingCount(r.mechanical)
  {
    var e := if electrical.Some? then Some(Analyze(digest, records, ElecProbes(electrical.value, "ELEC"))) else None;
    var m := if mechanical.Some? then Some(Analyze(digest, records, MecaProbes(mechanical.value, "MECA"))) else None;
    BomAnalysis(NewCount(e) + NewCount(m), ExistingCount(e) + ExistingCount(m), e, m)
  }

  /** The number of rows of an optional sheet. */
  function RowCount<T>(sheet: Option<seq<T>>): nat {
    if sheet.Some? then |sheet.value| else 0
  }

  // Counting by a column

  /** `GROUP BY` with `COUNT(*)`: each value of the column and the number of rows holding it. */
  function Tally(values: seq<string>): (t: map<string, nat>)
    ensures forall v :: v in t <==> v in values
    decreases |values|
  {
    if values == [] then map[]
    else
      var prev := Tally(values[..|values| - 1]);
      var v := values[|values| - 1];
      assert forall u :: u in values <==> u in values[..|values| - 1] || u == v by {
        assert values == values[..|values| - 1] + [v];
      }
      prev[v := (if v in prev then prev[v] else 0) + 1]
  }

  /** The sum of a map's counts. */
  ghost function MapSum(m: map<string, nat>): nat
    decreases |m.Keys|
  {
    if m == map[] then 0
    else
      var k :| k in m;
      assert |(m - {k}).Keys| < |m.Keys| by { assert (m - {k}).Keys == m.Keys - {k}; }
      m[k] + MapSum(m - {k})
  }

  /** The sum may start from any key. */
  lemma {:induction false} MapSumRemove(m: map<string, nat>, k: string)
    requires k in m
    ensures MapSum(m) == m[k] + MapSum(m - {k})
    decreases |m.Keys|
  {
    var j :| j in m && MapSum(m) == m[j] + MapSum(m - {j});
    if j != k {
      assert (m - {j}).Keys == m.Keys - {j};
      assert (m - {k}).Keys == m.Keys - {k};
      MapSumRemove(m - {j}, k);
      MapSumRemove(m - {k}, j);
      assert m - {j} - {k} == m - {k} - {j};
    }
  }

  /** The counts of a column add up to the number of rows. */
  lemma {:induction false} TallySum(values: seq<string>)
    ensures MapSum(Tally(values)) == |values|
    decreases |values|
  {
    if values != [] {
      var prev := Tally(values[..|values| - 1]);
      var v := values[|values| - 1];
      var t := Tally(values);
      TallySum(values[..|values| - 1]);
      MapSumRemove(t, v);
      assert t - {v} == prev - {v};
      if v in prev {
        MapSumRemove(prev, v);
      } else {
        assert prev - {v} == prev;
      }
    }
  }

  /** Each value's count is the number of rows holding it. */
  lemma {:induction false} TallyCount(values: seq<string>, v: string)
    requires v in values
    ensures Tally(values)[v] == multiset(values)[v]
    decreases |values|
  {
    var init := values[..|values| - 1];
    var last := values[|values| - 1];
    assert values == init + [last];
    assert multiset(values) == multiset(init) + multiset{last};
    if v in init {
      TallyCount(init, v);
    } else {
      assert multiset(init)[v] == 0;
    }
  }

  function DomainColumn(records: seq<Record>): (vs: seq<string>)
    ensures |vs| == |records| && forall i :: 0 <= i < |records| ==> vs[i] == records[i].domain
  {
    seq(|records|, i requires 0 <= i < |records| => records[i].domain)
  }

  function RouteColumn(records: seq<Record>): (vs: seq<string>)
    ensures |vs| == |records| && forall i :: 0 <= i < |records| ==> vs[i] == records[i].route
  {
    seq(|records|, i requires 0 <= i < |records| => records[i].route)
  }

  function RoutingColumn(records: seq<Record>): (vs: seq<string>)
    ensures |vs| == |records| && forall i :: 0 <= i < |records| ==> vs[i] == records[i].routing
  {
    seq(|records|, i requires 0 <= i < |records| => records[i].routing)
  }

  /** `get_database_stats` over the rows of `components`. */
  function DatabaseStats(records: seq<Record>): Stats {
    Stats(|records|, Tally(DomainColumn(records)), Tally(RouteColumn(records)), Tally(RoutingColumn(records)))
  }

  // Lemmas

  /** `e` is the new entry of row `c`, whose fingerprint has no stored SKU. */
  predicate NewAt(digest: string -> string, records: seq<Record>, e: NewEntry, c: Component) {
    !Known(ExistingSku(records, Fingerprint(digest, c))) && e == NewEntry(c.name, c.componentType, c.description)
  }

  /** `e` is the existing entry of row `c`, carrying the SKU stored for its fingerprint. */
  predicate ExistingAt(digest: string -> string, records: seq<Record>, e: ExistingEntry, c: Component) {
    var existing := ExistingSku(records, Fingerprint(digest, c));
    Known(existing) && e == ExistingEntry(c.name, existing.value, c.componentType)
  }

  /** Each new entry is one of the rows, whose fingerprint has no stored SKU. */
  predicate NewFrom(digest: string -> string, records: seq<Record>, entries: seq<NewEntry>, comps: seq<Component>) {
    forall k :: 0 <= k < |entries| ==> exists j :: 0 <= j < |comps| && NewAt(digest, records, entries[k], comps[j])
  }

  /** Each existing entry is one of the rows, with the SKU stored for its fingerprint. */
  predicate ExistingFrom(digest: string -> string, records: seq<Record>, entries: seq<ExistingEntry>, comps: seq<Component>) {
    forall k :: 0 <= k < |entries| ==> exists j :: 0 <= j < |comps| && ExistingAt(digest, records, entries[k], comps[j])
  }

  /** Each new entry of a sheet analysis is one of its rows the lookup did not find. */
  lemma {:induction false} AnalyzeNewEntries(digest: string -> string, records: seq<Record>, comps: seq<Component>)
    ensures NewFrom(digest, records, Analyze(digest, records, comps).newComponents, comps)
    decreases |comps|
  {
    if comps != [] {
      var init := comps[..|comps| - 1];
      var prev := Analyze(digest, records, init);
      var c := comps[|comps| - 1];
      var existing := ExistingSku(records, Fingerprint(digest, c));
      var entries := Analyze(digest, records, comps).newComponents;
      AnalyzeNewEntries(digest, records, init);
      assert NewFrom(digest, records, prev.newComponents, init);
      assert entries == if Known(existing)
                        then prev.newComponents
                        else prev.newComponents + [NewEntry(c.name, c.componentType, c.description)];
      forall k | 0 <= k < |entries|
        ensures exists j :: 0 <= j < |comps| && NewAt(digest, records, entries[k], comps[j])
      {
        if k < |prev.newComponents| {
          assert entries[k] == prev.newComponents[k];
          var j :| 0 <= j < |init| && NewAt(digest, records, prev.newComponents[k], init[j]);
          assert init[j] == comps[j];
          assert NewAt(digest, records, entries[k], comps[j]);
        } else {
          assert NewAt(digest, records, entries[k], comps[|comps| - 1]);
        }
      }
    }
  }

  /** Each existing entry of a sheet analysis is one of its rows, with the SKU the lookup found. */
  lemma {:induction false} AnalyzeExistingEntries(digest: string -> string, records: seq<Record>, comps: seq<Component>)
    ensures ExistingFrom(digest, records, Analyze(digest, records, comps).existingComponents, comps)
    decreases |comps|
  {
    if comps != [] {
      var init := comps[..|comps| - 1];
      var prev := Analyze(digest, records, init);
      var c := comps[|comps| - 1];
      var existing := ExistingSku(records, Fingerprint(digest, c));
      var entries := Analyze(digest, records, comps).existingComponents;
      AnalyzeExistingEntries(digest, records, init);
      assert ExistingFrom(digest, records, prev.existingComponents, init);
      assert entries == if Known(existing)
                        then prev.existingComponents + [ExistingEntry(c.name, existing.value, c.componentType)]
                        else prev.existingComponents;
      forall k | 0 <= k < |entries|
        ensures exists j :: 0 <= j < |comps| && ExistingAt(digest, records, entries[k], comps[j])
      {
        if k < |prev.existingComponents| {
          assert entries[k] == prev.existingComponents[k];
          var j :| 0 <= j < |init| && ExistingAt(digest, records, prev.existingComponents[k], init[j]);
          assert init[j] == comps[j];
          assert ExistingAt(digest, records, entries[k], comps[j]);
        } else {
          assert ExistingAt(digest, records, entries[k], comps[|comps| - 1]);
        }
      }
    }
  }

  /** The lookup of row `c` finds a stored SKU, so the row counts as existing. */
  predicate Found(digest: string -> string, records: seq<Record>, c: Component) {
    Known(ExistingSku(records, Fingerprint(digest, c)))
  }

  /** The positions, in order, of the rows the lookup finds. */
  ghost function FoundAt(digest: string -> string, records: seq<Record>, comps: seq<Component>): seq<nat>
    decreases |comps|
  {
    if comps == [] then []
    else
      var n := |comps| - 1;
      var prev := FoundAt(digest, records, comps[..n]);
      if Found(digest, records, comps[n]) then prev + [n] else prev
  }

  /** The positions, in order, of the rows the lookup misses. */
  ghost function MissedAt(digest: string -> string, records: seq<Record>, comps: seq<Component>): seq<nat>
    decreases |comps|
  {
    if comps == [] then []
    else
      var n := |comps| - 1;
      var prev := MissedAt(digest, records, comps[..n]);
      if Found(digest, records, comps[n]) then prev else prev + [n]
  }

  /** One existing entry per found row, one new entry per missed row. */
  lemma {:induction false} AnalyzeIndexLength(digest: string -> string, records: seq<Record>, comps: seq<Component>)
    ensures |FoundAt(digest, records, comps)| == Analyze(digest, records, comps).existant
    ensures |MissedAt(digest, records, comps)| == Analyze(digest, records, comps).nouveau
    decreases |comps|
  {
    if comps != [] {
      AnalyzeIndexLength(digest, records, comps[..|comps| - 1]);
    }
  }

  /** Positions below `bound`, strictly increasing. */
  predicate IncreasingBelow(xs: seq<nat>, bound: nat) {
    (forall k :: 0 <= k < |xs| ==> xs[k] < bound) && (forall k, k' :: 0 <= k < k' < |xs| ==> xs[k] < xs[k'])
  }

  /** Both position lists are in range and strictly increasing. */
  lemma {:induction false} AnalyzeIndexIncreasing(digest: string -> string, records: seq<Record>, comps: seq<Component>)
    ensures IncreasingBelow(FoundAt(digest, records, comps), |comps|)
    ensures IncreasingBelow(MissedAt(digest, records, comps), |comps|)
    decreases |comps|
  {
    if comps != [] {
      AnalyzeIndexIncreasing(digest, records, comps[..|comps| - 1]);
    }
  }

  /** A position is listed as found exactly when the lookup finds its row, and as missed exactly when it does not. */
  lemma {:induction false} AnalyzeIndexComplete(digest: string -> string, records: seq<Record>, comps: seq<Component>)
    ensures forall j :: 0 <= j < |comps| ==>
              && (j in FoundAt(digest, records, comps) <==> Found(digest, records, comps[j]))
              && (j in MissedAt(digest, records, comps) <==> !Found(digest, records, comps[j]))
    decreases |comps|
  {
    if comps != [] {
      var n := |comps| - 1;
      var init := comps[..n];
      AnalyzeIndexComplete(digest, records, init);
      AnalyzeIndexIncreasing(digest, records, init);
      var f0, m0 := FoundAt(digest, records, init), MissedAt(digest, records, init);
      var f, m := FoundAt(digest, records, comps), MissedAt(digest, records, comps);
      assert forall k :: 0 <= k < |f0| ==> f0[k] != n;
      assert forall k :: 0 <= k < |m0| ==> m0[k] != n;
      assert n !in f0 && n !in m0;
      forall j | 0 <= j < |comps|
        ensures (j in f <==> Found(digest, records, comps[j])) && (j in m <==> !Found(digest, records, comps[j]))
      {
        if j < n {
          assert init[j] == comps[j];
          assert j in f <==> j in f0;
          assert j in m <==> j in m0;
        }
      }
    }
  }

  /**
    Existing entry `k` is the row at the `k`-th found position, with the SKU
    stored for it; new entry `k` is the row at the `k`-th missed position.
   */
  lemma {:induction false} AnalyzeIndexEntries(digest: string -> string, records: seq<Record>, comps: seq<Component>)
    ensures var a, f := Analyze(digest, records, comps), FoundAt(digest, records, comps);
            forall k :: 0 <= k < |f| && k < |a.existingComponents| && f[k] < |comps| ==>
              ExistingAt(digest, records, a.existingComponents[k], comps[f[k]])
    ensures var a, m := Analyze(digest, records, comps), MissedAt(digest, records, comps);
            forall k :: 0 <= k < |m| && k < |a.newComponents| && m[k] < |comps| ==>
              NewAt(digest, records, a.newComponents[k], comps[m[k]])
    decreases |comps|
  {
    if comps != [] {
      var n := |comps| - 1;
      var init := comps[..n];
      AnalyzeIndexEntries(digest, records, init);
      AnalyzeIndexLength(digest, records, init);
      AnalyzeIndexIncreasing(digest, records, init);
      var prev, f0, m0 := Analyze(digest, records, init), FoundAt(digest, records, init), MissedAt(digest, records, init);
      var a, f, m := Analyze(digest, records, comps), FoundAt(digest, records, comps), MissedAt(digest, records, comps);
      forall k | 0 <= k < |f| && k < |a.existingComponents| && f[k] < |comps|
        ensures ExistingAt(digest, records, a.existingComponents[k], comps[f[k]])
      {
        if k < |f0| {
          assert f[k] == f0[k] && a.existingComponents[k] == prev.existingComponents[k];
          assert init[f0[k]] == comps[f0[k]];
        }
      }
      forall k | 0 <= k < |m| && k < |a.newComponents| && m[k] < |comps|
        ensures NewAt(digest, records, a.newComponents[k], comps[m[k]])
      {
        if k < |m0| {
          assert m[k] == m0[k] && a.newComponents[k] == prev.newComponents[k];
          assert init[m0[k]] == comps[m0[k]];
        }
      }
    }
  }

  /** The positions of the rows the lookup finds. */
  ghost function FoundSet(digest: string -> string, records: seq<Record>, comps: seq<Component>): set<nat> {
    set j: nat | j < |comps| && Found(digest, records, comps[j])
  }

  /** The positions of the rows the lookup misses. */
  ghost function MissedSet(digest: string -> string, records: seq<Record>, comps: seq<Component>): set<nat> {
    set j: nat | j < |comps| && !Found(digest, records, comps[j])
  }

  /** One more row adds its position to the found or to the missed positions. */
  lemma PositionSetsStep(digest: string -> string, records: seq<Record>, comps: seq<Component>)
    requires comps != []
    ensures var n := |comps| - 1;
            && n !in FoundSet(digest, records, comps[..n]) && n !in MissedSet(digest, records, comps[..n])
            && FoundSet(digest, records, comps)
               == FoundSet(digest, records, comps[..n]) + (if Found(digest, records, comps[n]) then {n} else {})
            && MissedSet(digest, records, comps)
               == MissedSet(digest, records, comps[..n]) + (if Found(digest, records, comps[n]) then {} else {n})
  {
    var n := |comps| - 1;
    assert forall j :: 0 <= j < n ==> comps[..n][j] == comps[j];
  }

  /** One more row adds one to `existant` when the lookup finds it, and one to `nouveau` otherwise. */
  lemma AnalyzeStep(digest: string -> string, records: seq<Record>, comps: seq<Component>)
    requires comps != []
    ensures var n := |comps| - 1;
            var prev, a := Analyze(digest, records, comps[..n]), Analyze(digest, records, comps);
            if Found(digest, records, comps[n]) then a.existant == prev.existant + 1 && a.nouveau == prev.nouveau
            else a.existant == prev.existant && a.nouveau == prev.nouveau + 1
  {
  }

  /** Adding a new element to a finite set adds one to its size. */
  lemma AddFresh(xs: set<nat>, x: nat)
    requires x !in xs
    ensures |xs + {x}| == |xs| + 1
  {
  }

  /** `existant` is the number of rows the lookup finds, `nouveau` the number it misses. */
  lemma {:induction false} AnalyzeCounts(digest: string -> string, records: seq<Record>, comps: seq<Component>)
    ensures Analyze(digest, records, comps).existant == |FoundSet(digest, records, comps)|
    ensures Analyze(digest, records, comps).nouveau == |MissedSet(digest, records, comps)|
    decreases |comps|
  {
    if comps != [] {
      var n := |comps| - 1;
      AnalyzeCounts(digest, records, comps[..n]);
      AnalyzeStep(digest, records, comps);
      PositionSetsStep(digest, records, comps);
      if Found(digest, records, comps[n]) {
        AddFresh(FoundSet(digest, records, comps[..n]), n);
      } else {
        AddFresh(MissedSet(digest, records, comps[..n]), n);
      }
    }
  }

  /**
    The sheet analysis in full: the existing entries are the found rows and
    the new entries the missed rows, each in input order, and the two counts
    are their numbers.
   */
  lemma AnalyzeTrace(digest: string -> string, records: seq<Record>, comps: seq<Component>)
    ensures var a, f, m := Analyze(digest, records, comps), FoundAt(digest, records, comps), MissedAt(digest, records, comps);
            && |f| == a.existant && |m| == a.nouveau
            && (forall k :: 0 <= k < |f| ==> f[k] < |comps| && ExistingAt(digest, records, a.existingComponents[k], comps[f[k]]))
            && (forall k :: 0 <= k < |m| ==> m[k] < |comps| && NewAt(digest, records, a.newComponents[k], comps[m[k]]))
            && IncreasingBelow(f, |comps|) && IncreasingBelow(m, |comps|)
            && (forall j :: 0 <= j < |comps| ==> (j in f <==> Found(digest, records, comps[j])))
            && (forall j :: 0 <= j < |comps| ==> (j in m <==> !Found(digest, records, comps[j])))
  {
    AnalyzeIndexLength(digest, records, comps);
    AnalyzeIndexIncreasing(digest, records, comps);
    AnalyzeIndexComplete(digest, records, comps);
    AnalyzeIndexEntries(digest, records, comps);
  }

  /** The totals count every row of the sheets the workbook has, once. */
  lemma BomTotals(digest: string -> string, records: seq<Record>,
                  electrical: Option<seq<ElecRow>>, mechanical: Option<seq<MecaRow>>)
    ensures var r := AnalyzeBom(digest, records, electrical, mechanical);
            r.nouveau + r.existant == RowCount(electrical) + RowCount(mechanical)
  {
  }

  /**
    A row the analysis reports as existing gets that very SKU from
    `generate_sku`, with the store unchanged, when it is valid and its
    description is not blank.
   */
  lemma AnalysisAgreesWithGenerate(digest: string -> string, tables: Tables, s: Store, c: Component)
    requires Validate(c).0 && !IsBlank(c.description)
    requires Known(ExistingSku(s.records, Fingerprint(digest, c)))
    ensures Generate(digest, tables, s, c) == (Ok(ExistingSku(s.records, Fingerprint(digest, c)).value), c, s)
  {
    GenerateHit(digest, tables, s, c);
  }

  /**
    The analysis does not validate, so a row with a blank description is
    looked up under a different fingerprint text from the one `generate_sku`
    stored for it (with the default description).
   */
  lemma BlankDescriptionProbe(c: Component)
    requires Meaningful(c.name) && IsBlank(c.description)
    ensures HashString(c) != HashString(Validate(c).1)
  {
    var d := Validate(c).1;
    assert d.description == DefaultDescription;
    var p := c.name + "_";
    assert HashString(c) == p + (c.description + "_" + c.componentType + "_" + Render(c.manufacturer) + "_" + Render(c.manufacturerPart));
    assert HashString(d) == p + (DefaultDescription + "_" + c.componentType + "_" + Render(c.manufacturer) + "_" + Render(c.manufacturerPart));
    if |c.description| == |DefaultDescription| {
      assert HashString(d)[|p|] == 'D';
      BlankAllSpace(c.description);
      assert HashString(c)[|p|] == c.description[0];
    }
  }

  /** A blank text is empty or all whitespace. */
  lemma {:induction false} BlankAllSpace(s: string)
    requires IsBlank(s) && s != []
    ensures IsSpace(s[0])
  {
    if !IsSpace(s[0]) {
      assert TrimLeft(s) == s;
      TrimRightKeepsHead(s);
    }
  }

  lemma {:induction false} TrimRightKeepsHead(s: string)
    requires s != [] && !IsSpace(s[0])
    ensures TrimRight(s) != []
    decreases |s|
  {
    if IsSpace(s[|s| - 1]) {
      TrimRightKeepsHead(s[..|s| - 1]);
    }
  }

  /** The database total is the number of rows and the sum of each breakdown's counts. */
  lemma StatsTotals(records: seq<Record>)
    ensures var st := DatabaseStats(records);
            && st.total == |records|
            && MapSum(st.byDomain) == st.total
            && MapSum(st.byRoute) == st.total
            && MapSum(st.byRouting) == st.total
  {
    TallySum(DomainColumn(records));
    TallySum(RouteColumn(records));
    TallySum(RoutingColumn(records));
  }

  /**
    Each breakdown of the database statistics lists exactly the values of its
    column, each with the number of rows holding it.
   */
  lemma StatsCounts(records: seq<Record>, v: string)
    ensures var st := DatabaseStats(records);
            && (v in st.byDomain <==> exists i :: 0 <= i < |records| && records[i].domain == v)
            && (v in st.byRoute <==> exists i :: 0 <= i < |records| && records[i].route == v)
            && (v in st.byRouting <==> exists i :: 0 <= i < |records| && records[i].routing == v)
            && (v in st.byDomain ==> st.byDomain[v] == multiset(DomainColumn(records))[v])
            && (v in st.byRoute ==> st.byRoute[v] == multiset(RouteColumn(records))[v])
            && (v in st.byRouting ==> st.byRouting[v] == multiset(RoutingColumn(records))[v])
  {
    var ds, rs, gs := DomainColumn(records), RouteColumn(records), RoutingColumn(records);
    if v in ds {
      TallyCount(ds, v);
    }
    if v in rs {
      TallyCount(rs, v);
    }
    if v in gs {
      TallyCount(gs, v);
    }
  }

  /** The fingerprint of an analysed row is the fingerprint `generate_sku` computes for the processed row. */
  lemma ProbeFingerprint(digest: string -> string, row: ElecRow, domain: string)
    ensures Fingerprint(digest, ElecProbe(row, domain)) == Fingerprint(digest, ElecComponent(row))
  {
  }

  class BomComparator {
    const generator: SkuGenerator

    constructor (generator: SkuGenerator)
      ensures this.generator == generator
    {
      this.generator := generator;
    }

    /** The loop of the two sheet analyses; it only reads the database. */
    method AnalyzeComponents(comps: seq<Component>) returns (a: SheetAnalysis)
      ensures a == Analyze(generator.digest, generator.records, comps)
    {
      a := SheetAnalysis(0, 0, [], []);
      var i := 0;
      while i < |comps|
        invariant 0 <= i <= |comps|
        invariant a == Analyze(generator.digest, generator.records, comps[..i])
      {
        assert comps[..i + 1][..i] == comps[..i] && comps[..i + 1][i] == comps[i];
        var c := comps[i];
        var existing := generator.GetExistingSku(c);
        if existing.Some? && existing.value != "" {
          a := a.(existant := a.existant + 1,
                  existingComponents := a.existingComponents + [ExistingEntry(c.name, existing.value, c.componentType)]);
        } else {
          a := a.(nouveau := a.nouveau + 1,
                  newComponents := a.newComponents + [NewEntry(c.name, c.componentType, c.description)]);
        }
        i := i + 1;
      }
      assert comps[..i] == comps;
    }

    /** `_analyze_sheet(df, domain)` */
    method AnalyzeSheet(rows: seq<ElecRow>, domain: string) returns (a: SheetAnalysis)
      ensures a == Analyze(generator.digest, generator.records, ElecProbes(rows, domain))
    {
      a := AnalyzeComponents(ElecProbes(rows, domain));
    }

    /** `_analyze_sheet_meca(df, domain)` */
    method AnalyzeSheetMeca(rows: seq<MecaRow>, domain: string) returns (a: SheetAnalysis)
      ensures a == Analyze(generator.digest, generator.records, MecaProbes(rows, domain))
    {
      a := AnalyzeComponents(MecaProbes(rows, domain));
    }

    /** `analyze_new_bom(file_path)`, the two sheets given as read. */
    method AnalyzeNewBom(electrical: Option<seq<ElecRow>>, mechanical: Option<seq<MecaRow>>) returns (r: BomAnalysis)
      ensures r == AnalyzeBom(generator.digest, generator.records, electrical, mechanical)
    {
      r := BomAnalysis(0, 0, None, None);
      if electrical.Some? {
        var e := AnalyzeSheet(electrical.value, "ELEC");
        r := r.(electrical := Some(e), nouveau := r.nouveau + e.nouveau, existant := r.existant + e.existant);
      }
      if mechanical.Some? {
        var m := AnalyzeSheetMeca(mechanical.value, "MECA");
        r := r.(mechanical := Some(m), nouveau := r.nouveau + m.nouveau, existant := r.existant + m.existant);
      }
    }

    /** `get_database_stats()`: the three GROUP BY counts over the rows of `components`. */
    method GetDatabaseStats() returns (stats: Stats)
      ensures stats == DatabaseStats(generator.records)
      ensures stats.total == |generator.records|
      ensures forall v :: v in stats.byDomain ==> stats.byDomain[v] == multiset(DomainColumn(generator.records))[v]
      ensures forall v :: v in stats.byRoute ==> stats.byRoute[v] == multiset(RouteColumn(generator.records))[v]
      ensures forall v :: v in stats.byRouting ==> stats.byRouting[v] == multiset(RoutingColumn(generator.records))[v]
    {
      stats := DatabaseStats(generator.records);
      forall v | v in stats.byDomain || v in stats.byRoute || v in stats.byRouting
        ensures v in stats.byDomain ==> stats.byDomain[v] == multiset(DomainColumn(generator.records))[v]
        ensures v in stats.byRoute ==> stats.byRoute[v] == multiset(RouteColumn(generator.records))[v]
        ensures v in stats.byRouting ==> stats.byRouting[v] == multiset(RoutingColumn(generator.records))[v]
      {
        StatsCounts(generator.records, v);
      }
    }
  }
}
