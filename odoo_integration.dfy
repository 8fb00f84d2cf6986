/**
  `ODOOIntegration.validate_odoo_data`: the checks an ODOO product table
  must pass before import, as a list of errors in a fixed order.
 */
module OdooIntegration {
  import opened PyStr
  import opened Cells
  import opened SkuEngine
  import opened Decoder
  import Lookup

  /** A pandas frame: its column names and its rows; a cell a row lacks reads as NaN. */
  datatype Frame = Frame(columns: seq<string>, rows: seq<Row>)

  /** One line of the returned list; the message text itself is not modelled. */
  datatype OdooError =
    | MissingColumn(col: string)
    | EmptyValues(col: string)
    | DuplicateSkus(skus: seq<Value>)
    | InvalidFormat(skus: seq<Value>)

  /** `required_cols` */
  const Required: seq<string> := ["default_code", "name", "categ_id", "type", "uom_id"]

  /** `df[col]`: the column's values, row by row. */
  function Column(f: Frame, col: string): (vs: seq<Value>)
    ensures |vs| == |f.rows|
  {
    seq(|f.rows|, i requires 0 <= i < |f.rows| => Get(f.rows[i], col, NaN))
  }

  /** `df[col].isnull().any()` */
  predicate HasNull(f: Frame, col: string) {
    exists i :: 0 <= i < |f.rows| && IsNull(Get(f.rows[i], col, NaN))
  }

  /** The error, if any, for one required column: missing, else holding a null. */
  function ColumnErrors(f: Frame, col: string): seq<OdooError> {
    if col !in f.columns then [MissingColumn(col)]
    else if HasNull(f, col) then [EmptyValues(col)]
    else []
  }

  /** The required-column loop over `cols`, in order. */
  function RequiredErrors(f: Frame, cols: seq<string>): seq<OdooError>
    decreases |cols|
  {
    if cols == [] then []
    else RequiredErrors(f, cols[..|cols| - 1]) + ColumnErrors(f, cols[|cols| - 1])
  }

  /** `df[col][df[col].duplicated()].tolist()`: every value equal to an earlier one, in order. */
  function Duplicates(vs: seq<Value>): seq<Value>
    decreases |vs|
  {
    if vs == [] then []
    else
      var init := vs[..|vs| - 1];
      Duplicates(init) + (if vs[|vs| - 1] in init then [vs[|vs| - 1]] else [])
  }

  /** `isinstance(sku, str) and len(sku.split('-')) == 5` */
  predicate SkuFormatOk(v: Value) {
    v.Str? && |Split(v.s, '-')| == 5
  }

  /** `invalid_skus`: the values failing the format check, in order. */
  function InvalidSkus(vs: seq<Value>): seq<Value>
    decreases |vs|
  {
    if vs == [] then []
    else
      var last := vs[|vs| - 1];
      InvalidSkus(vs[..|vs| - 1]) + (if SkuFormatOk(last) then [] else [last])
  }

  /** The duplicate and format errors, reported only when 'default_code' is a column. */
  function CodeErrors(f: Frame): seq<OdooError> {
    if "default_code" !in f.columns then []
    else
      var codes := Column(f, "default_code");
      var dups := Duplicates(codes);
      var invalid := InvalidSkus(codes);
      (if dups == [] then [] else [DuplicateSkus(dups)])
      + (if invalid == [] then [] else [InvalidFormat(invalid)])
  }

  /** `validate_odoo_data(df)` */
  function ValidationErrors(f: Frame): seq<OdooError> {
    RequiredErrors(f, Required) + CodeErrors(f)
  }

  /** The format loop of `validate_odoo_data`: the SKUs failing the check, in order. */
  method CollectInvalidSkus(codes: seq<Value>) returns (invalid: seq<Value>)
    ensures invalid == InvalidSkus(codes)
  {
    invalid := [];
    for i := 0 to |codes|
      invariant invalid == InvalidSkus(codes[..i])
    {
      assert codes[..i + 1][..i] == codes[..i];
      if !SkuFormatOk(codes[i]) {
        invalid := invalid + [codes[i]];
      }
    }
    assert codes[..|codes|] == codes;
  }

  /** `validate_odoo_data(df)`: the two loops of the routine, proved against `ValidationErrors`. */
  method ValidateOdooData(f: Frame) returns (errors: seq<OdooError>)
    ensures errors == ValidationErrors(f)
  {
    errors := [];
    for k := 0 to |Required|
      invariant errors == RequiredErrors(f, Required[..k])
    {
      assert Required[..k + 1][..k] == Required[..k];
      var col := Required[k];
      if col !in f.columns {
        errors := errors + [MissingColumn(col)];
      } else if HasNull(f, col) {
        errors := errors + [EmptyValues(col)];
      }
    }
    assert Required[..|Required|] == Required;
    ghost var required := errors;
    if "default_code" in f.columns {
      var codes := Column(f, "default_code");
      var dups := Duplicates(codes);
      if dups != [] {
        errors := errors + [DuplicateSkus(dups)];
      }
      var invalid := CollectInvalidSkus(codes);
      if invalid != [] {
        errors := errors + [InvalidFormat(invalid)];
      }
      assert errors == required + (if dups == [] then [] else [DuplicateSkus(dups)])
                                + (if invalid == [] then [] else [InvalidFormat(invalid)]);
    }
  }

  // What each error means

  /** A column's error is the missing-column one exactly when it is absent, the null one exactly when it holds a null. */
  lemma {:induction false} RequiredErrorsMeaning(f: Frame, cols: seq<string>, col: string)
    ensures MissingColumn(col) in RequiredErrors(f, cols) <==> col in cols && col !in f.columns
    ensures EmptyValues(col) in RequiredErrors(f, cols) <==> col in cols && col in f.columns && HasNull(f, col)
    decreases |cols|
  {
    if cols != [] {
      var init := cols[..|cols| - 1];
      RequiredErrorsMeaning(f, init, col);
      assert cols == init + [cols[|cols| - 1]];
    }
  }

  /**
    The missing-column error is reported for exactly the required columns the
    frame lacks, the empty-values error for exactly the present ones holding a
    null, and never both for one column.
   */
  lemma ColumnErrorsMeaning(f: Frame, col: string)
    ensures MissingColumn(col) in ValidationErrors(f) <==> col in Required && col !in f.columns
    ensures EmptyValues(col) in ValidationErrors(f) <==> col in Required && col in f.columns && HasNull(f, col)
    ensures !(MissingColumn(col) in ValidationErrors(f) && EmptyValues(col) in ValidationErrors(f))
  {
    RequiredErrorsMeaning(f, Required, col);
  }

  /** No error from the required-column loop exactly when every column is there without a null. */
  lemma {:induction false} RequiredErrorsEmpty(f: Frame, cols: seq<string>)
    ensures RequiredErrors(f, cols) == [] <==> forall k :: 0 <= k < |cols| ==> cols[k] in f.columns && !HasNull(f, cols[k])
    decreases |cols|
  {
    if cols != [] {
      var init := cols[..|cols| - 1];
      RequiredErrorsEmpty(f, init);
      assert forall k :: 0 <= k < |init| ==> init[k] == cols[k];
    }
  }

  /** Pairwise different values. */
  predicate Distinct(vs: seq<Value>) {
    forall i, j :: 0 <= i < j < |vs| ==> vs[i] != vs[j]
  }

  /** Each value is listed once for every occurrence after its first. */
  lemma {:induction false} DuplicatesCount(vs: seq<Value>, v: Value)
    ensures multiset(Duplicates(vs))[v] == if v in vs then multiset(vs)[v] - 1 else 0
    decreases |vs|
  {
    if vs != [] {
      var init := vs[..|vs| - 1];
      var last := vs[|vs| - 1];
      DuplicatesCount(init, v);
      assert vs == init + [last];
      assert multiset(vs) == multiset(init) + multiset{last};
      if v == last && v !in init {
        assert multiset(init)[v] == 0;
      }
    }
  }

  /** There is nothing to report as duplicated exactly when the values are pairwise different. */
  lemma {:induction false} DuplicatesEmpty(vs: seq<Value>)
    ensures Duplicates(vs) == [] <==> Distinct(vs)
    decreases |vs|
  {
    if vs != [] {
      var init := vs[..|vs| - 1];
      var last := vs[|vs| - 1];
      DuplicatesEmpty(init);
      assert vs == init + [last];
      if last in init {
        var i :| 0 <= i < |init| && init[i] == last;
        assert vs[i] == vs[|vs| - 1];
      } else if Distinct(init) {
        forall i, j | 0 <= i < j < |vs|
          ensures vs[i] != vs[j]
        {
          if j < |vs| - 1 {
            assert vs[i] == init[i] && vs[j] == init[j];
          } else {
            assert vs[i] == init[i];
          }
        }
      } else {
        var i, j :| 0 <= i < j < |init| && init[i] == init[j];
        assert vs[i] == vs[j];
      }
    }
  }

  /** Every failing value is listed once per occurrence, and no passing value is. */
  lemma {:induction false} InvalidSkusCount(vs: seq<Value>, v: Value)
    ensures multiset(InvalidSkus(vs))[v] == if SkuFormatOk(v) then 0 else multiset(vs)[v]
    decreases |vs|
  {
    if vs != [] {
      var init := vs[..|vs| - 1];
      var last := vs[|vs| - 1];
      InvalidSkusCount(init, v);
      assert vs == init + [last];
      assert multiset(vs)[v] == multiset(init)[v] + multiset([last])[v];
      if SkuFormatOk(last) {
        assert InvalidSkus(vs) == InvalidSkus(init);
      } else {
        assert multiset(InvalidSkus(vs))[v] == multiset(InvalidSkus(init))[v] + multiset([last])[v];
      }
    }
  }

  /** Nothing fails the format check exactly when every value passes it. */
  lemma {:induction false} InvalidSkusEmpty(vs: seq<Value>)
    ensures InvalidSkus(vs) == [] <==> forall i :: 0 <= i < |vs| ==> SkuFormatOk(vs[i])
    decreases |vs|
  {
    if vs != [] {
      var init := vs[..|vs| - 1];
      InvalidSkusEmpty(init);
      assert forall i :: 0 <= i < |init| ==> init[i] == vs[i];
    }
  }

  /** Every required column present and null-free, the SKUs pairwise different, each of five fields. */
  predicate AllChecksPass(f: Frame) {
    && (forall k :: 0 <= k < |Required| ==> Required[k] in f.columns && !HasNull(f, Required[k]))
    && Distinct(Column(f, "default_code"))
    && (forall i :: 0 <= i < |f.rows| ==> SkuFormatOk(Column(f, "default_code")[i]))
  }

  /** The list is empty exactly when every check passes. */
  lemma ValidationEmptyIff(f: Frame)
    ensures ValidationErrors(f) == [] <==> AllChecksPass(f)
  {
    RequiredErrorsEmpty(f, Required);
    DuplicatesEmpty(Column(f, "default_code"));
    InvalidSkusEmpty(Column(f, "default_code"));
    if RequiredErrors(f, Required) == [] {
      assert Required[0] in f.columns;
    }
  }

  // The order of the list

  /** The position of an error kind in the list: the columns in `Required` order, then duplicates, then format. */
  function Rank(e: OdooError): nat {
    match e
    case MissingColumn(col) => ColumnRank(col)
    case EmptyValues(col) => ColumnRank(col)
    case DuplicateSkus(_) => 5
    case InvalidFormat(_) => 6
  }

  /** The index of a required column. */
  function ColumnRank(col: string): nat {
    if col == "default_code" then 0
    else if col == "name" then 1
    else if col == "categ_id" then 2
    else if col == "type" then 3
    else if col == "uom_id" then 4
    else 5
  }

  /** Ranks strictly increasing along a list. */
  predicate RankIncreasing(errs: seq<OdooError>) {
    forall i, j :: 0 <= i < j < |errs| ==> Rank(errs[i]) < Rank(errs[j])
  }

  /** The first `k` required columns give at most one error each, in column order. */
  lemma {:induction false} RequiredErrorsRanked(f: Frame, k: nat)
    requires k <= |Required|
    ensures RankIncreasing(RequiredErrors(f, Required[..k]))
    ensures forall i :: 0 <= i < |RequiredErrors(f, Required[..k])| ==> Rank(RequiredErrors(f, Required[..k])[i]) < k
  {
    if k > 0 {
      RequiredErrorsRanked(f, k - 1);
      assert Required[..k][..k - 1] == Required[..k - 1];
      assert ColumnRank(Required[k - 1]) == k - 1;
    }
  }

  /**
    Errors come in the order required columns (in the order of `Required`),
    duplicates, format, and no kind appears twice for one column.
   */
  lemma ErrorsOrdered(f: Frame)
    ensures RankIncreasing(ValidationErrors(f))
  {
    RequiredErrorsRanked(f, |Required|);
    assert Required[..|Required|] == Required;
    CodeErrorsRanked(f);
    RankedConcat(RequiredErrors(f, Required), CodeErrors(f));
  }

  /** The SKU checks give at most a duplicate error and then a format error. */
  lemma CodeErrorsRanked(f: Frame)
    ensures RankIncreasing(CodeErrors(f))
    ensures forall i :: 0 <= i < |CodeErrors(f)| ==> Rank(CodeErrors(f)[i]) >= 5
  {
  }

  lemma RankedConcat(a: seq<OdooError>, b: seq<OdooError>)
    requires RankIncreasing(a) && RankIncreasing(b)
    requires forall i :: 0 <= i < |a| ==> Rank(a[i]) < 5
    requires forall i :: 0 <= i < |b| ==> Rank(b[i]) >= 5
    ensures RankIncreasing(a + b)
  {
    var c := a + b;
    forall i, j | 0 <= i < j < |c|
      ensures Rank(c[i]) < Rank(c[j])
    {
      if j < |a| {
        assert c[i] == a[i] && c[j] == a[j];
      } else if i >= |a| {
        assert c[i] == b[i - |a|] && c[j] == b[j - |a|];
      } else {
        assert c[i] == a[i] && c[j] == b[j - |a|];
      }
    }
  }

  // The checks and the generator

  /** A SKU in the three-field layout is listed in the format error. */
  lemma ThreeFieldSkuFlagged(f: Frame, i: int, a: string, b: string, d: string)
    requires "default_code" in f.columns
    requires 0 <= i < |f.rows| && Get(f.rows[i], "default_code", NaN) == Str(a + "-" + b + "-" + d)
    requires '-' !in a && '-' !in b && '-' !in d
    ensures Str(a + "-" + b + "-" + d) in InvalidSkus(Column(f, "default_code"))
    ensures InvalidFormat(InvalidSkus(Column(f, "default_code"))) in ValidationErrors(f)
  {
    var tables := Lookup.Tables([], [], []);
    ThreeFieldsRejected(tables, a, b, d);
    var v := Str(a + "-" + b + "-" + d);
    var codes := Column(f, "default_code");
    assert codes[i] == v;
    InvalidSkusCount(codes, v);
    assert multiset(codes)[v] > 0;
  }

  /** A SKU built from a dash-free key passes the format check. */
  lemma GeneratedSkuFormatOk(key: CounterKey, n: int)
    requires KeyDashFree(key)
    ensures SkuFormatOk(Str(SkuOf(key, n)))
  {
    SkuSplits(key, n);
  }

  /**
    A frame whose SKU column lists the database's SKUs row by row draws no
    duplicate and no format error: only the required-column checks can fail.
   */
  lemma StoreSkusPass(s: Store, f: Frame)
    requires Inv(s)
    requires |f.rows| == |s.records|
    requires forall i :: 0 <= i < |f.rows| ==> Get(f.rows[i], "default_code", NaN) == Str(s.records[i].sku)
    ensures ValidationErrors(f) == RequiredErrors(f, Required)
  {
    var codes := Column(f, "default_code");
    forall i | 0 <= i < |codes|
      ensures SkuFormatOk(codes[i])
    {
      assert Issued(s.counters, s.records[i].sku);
      var key, m :| KeyDashFree(key) && key in s.counters && 1 <= m <= s.counters[key] && s.records[i].sku == SkuOf(key, m);
      GeneratedSkuFormatOk(key, m);
    }
    InvalidSkusEmpty(codes);
    DuplicatesEmpty(codes);
    assert Distinct(codes) by {
      forall i, j | 0 <= i < j < |codes|
        ensures codes[i] != codes[j]
      {
        assert s.records[i].sku != s.records[j].sku;
      }
    }
  }
}
