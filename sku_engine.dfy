/**
  The SKU generation of the generator (`generate_sku` with `get_existing_sku`,
  `get_next_sequence` and `save_component`) as functions over a store.

  The store stands for the two SQLite tables: `components`, whose rows are
  kept in insertion order and whose `sku` and `component_hash` columns are
  UNIQUE, and `sku_counters`, one counter per (domain, route, routing,
  type_code). An insertion that would break a UNIQUE column is refused, as
  SQLite refuses it with an IntegrityError.
 */
module SkuEngine {
  import opened Wrappers
  import opened PyStr
  import opened SequenceCodec
  import opened Lookup
  import opened Classifier
  import opened TypeToken
  import opened Optimizer
  import opened Components

  /** The primary key of `sku_counters`. */
  datatype CounterKey = CounterKey(domain: string, route: string, routing: string, typeCode: string)

  /** A row of `components`: the columns `save_component` writes. */
  datatype Record = Record(
    sku: string,
    name: string,
    description: string,
    domain: string,
    componentType: string,
    route: string,
    routing: string,
    manufacturer: Option<string>,
    manufacturerPart: Option<string>,
    hash: string)

  datatype Store = Store(records: seq<Record>, counters: map<CounterKey, nat>)

  /** An empty database. */
  const EmptyStore: Store := Store([], map[])

  /** What a `generate_sku` call ends in: a SKU, the ValueError for an invalid component, or the IntegrityError of a taken SKU. */
  datatype Outcome = Ok(sku: string) | InvalidComponent | DuplicateSku(sku: string)

  /** The type token's length, `normalize_text(component_type, 6)`. */
  const TypeLength: nat := 6

  // The store operations

  /** `SELECT sku FROM components WHERE component_hash = ?`, first row. */
  function ExistingSku(records: seq<Record>, hash: string): (r: Option<string>)
    ensures r.None? <==> forall i :: 0 <= i < |records| ==> records[i].hash != hash
    ensures r.Some? ==> exists i :: 0 <= i < |records| && records[i].hash == hash && records[i].sku == r.value
  {
    if records == [] then None
    else if records[0].hash == hash then Some(records[0].sku)
    else
      var r := ExistingSku(records[1..], hash);
      assert forall i :: 0 < i < |records| ==> records[i] == records[1..][i - 1];
      r
  }

  /** `SELECT ... FROM components WHERE sku = ?`, first row. */
  function FindSku(records: seq<Record>, sku: string): (r: Option<Record>)
    ensures r.None? <==> forall i :: 0 <= i < |records| ==> records[i].sku != sku
    ensures r.Some? ==> r.value.sku == sku && exists i :: 0 <= i < |records| && records[i] == r.value
  {
    if records == [] then None
    else if records[0].sku == sku then Some(records[0])
    else
      var r := FindSku(records[1..], sku);
      assert forall i :: 0 < i < |records| ==> records[i] == records[1..][i - 1];
      r
  }

  /** The stored counter of `key`, 0 when it has no row. */
  function CounterOf(counters: map<CounterKey, nat>, key: CounterKey): nat {
    if key in counters then counters[key] else 0
  }

  /** `get_next_sequence`: the counter after the call, and the table with it written back. */
  function NextSequence(counters: map<CounterKey, nat>, key: CounterKey): (r: (nat, map<CounterKey, nat>))
    ensures r.0 == CounterOf(counters, key) + 1 && r.0 >= 1
    ensures r.1 == counters[key := r.0]
  {
    if key in counters then
      var n := counters[key] + 1;
      (n, counters[key := n])
    else (1, counters[key := 1])
  }

  /** The row `save_component` inserts. */
  function RecordOf(c: Component, sku: string, hash: string): Record {
    Record(sku, c.name, c.description, c.domain, c.componentType, c.route, c.routing,
           c.manufacturer, c.manufacturerPart, hash)
  }

  /** A row already holds this SKU or this fingerprint. */
  predicate Taken(records: seq<Record>, sku: string, hash: string) {
    exists i :: 0 <= i < |records| && (records[i].sku == sku || records[i].hash == hash)
  }

  /** `save_component`: the rows after the INSERT, or None for the IntegrityError of a UNIQUE column. */
  function Save(records: seq<Record>, c: Component, sku: string, hash: string): (r: Option<seq<Record>>)
    ensures r.None? <==> Taken(records, sku, hash)
    ensures r.Some? ==> r.value == records + [RecordOf(c, sku, hash)]
  {
    if Taken(records, sku, hash) then None else Some(records + [RecordOf(c, sku, hash)])
  }

  // `generate_sku`

  /** The counter key of a validated component: its domain and the optimized codes. */
  function KeyFor(tables: Tables, c: Component): CounterKey {
    var routeCode := RouteCodeOf(tables.routes, c.componentType, c.domain);
    var routingCode := RoutingCodeOf(tables.routings, c.componentType);
    var typeCode := NormalizedText(tables.types, c.componentType, TypeLength);
    var opt := OptimizeSkuFormat(c.domain, routeCode, routingCode, typeCode);
    CounterKey(c.domain, opt.0, opt.1, opt.2)
  }

  /** The five fields of a SKU, in order. */
  function SkuFields(key: CounterKey, n: int): seq<string> {
    [key.domain, key.route, key.routing, key.typeCode, SequenceCode(n)]
  }

  /** The SKU of counter value `n` under `key`: its five fields joined by '-' (see `SkuText`). */
  function SkuOf(key: CounterKey, n: int): string {
    Join(SkuFields(key, n), '-')
  }

  /**
    `generate_sku(component)` against store `s`: the outcome, the component
    as validation left it, and the store after the call.
   */
  function Generate(digest: string -> string, tables: Tables, s: Store, c: Component): (r: (Outcome, Component, Store))
    ensures r.1 == Validate(c).1
  {
    var c1 := Validate(c).1;
    if !Validate(c).0 then (InvalidComponent, c1, s)
    else
      var r := Issue(s, c1, Fingerprint(digest, c1), KeyFor(tables, c1));
      (r.0, c1, r.1)
  }

  /**
    The part of `generate_sku` after validation, for a component with
    fingerprint `hash` whose codes give the counter key `key`.
   */
  function Issue(s: Store, c: Component, hash: string, key: CounterKey): (Outcome, Store) {
    var existing := ExistingSku(s.records, hash);
    if existing.Some? && existing.value != "" then (Ok(existing.value), s)
    else
      var n := CounterOf(s.counters, key) + 1;
      var sku := SkuOf(key, n);
      var counters := s.counters[key := n];
      match Save(s.records, c, sku, hash)
      case Some(records) => (Ok(sku), Store(records, counters))
      case None => (DuplicateSku(sku), Store(s.records, counters))
  }

  // The shape of a SKU

  predicate KeyDashFree(key: CounterKey) {
    '-' !in key.domain && '-' !in key.route && '-' !in key.routing && '-' !in key.typeCode
  }

  /** The SKU is the text `f"{domain}-{route_opt}-{routing_opt}-{type_opt}-{sequence_code}"`. */
  lemma SkuText(key: CounterKey, n: int)
    ensures SkuOf(key, n) == key.domain + "-" + key.route + "-" + key.routing + "-" + key.typeCode + "-" + SequenceCode(n)
  {
    var f := SkuFields(key, n);
    var code := SequenceCode(n);
    assert f[4..] == [code];
    assert Join(f[3..], '-') == key.typeCode + "-" + code by { assert f[3..][1..] == f[4..]; }
    assert Join(f[2..], '-') == key.routing + "-" + key.typeCode + "-" + code by { assert f[2..][1..] == f[3..]; }
    assert Join(f[1..], '-') == key.route + "-" + key.routing + "-" + key.typeCode + "-" + code by { assert f[1..][1..] == f[2..]; }
  }

  lemma SequenceCodeNoDash(n: int)
    ensures '-' !in SequenceCode(n)
  {
    SequenceCodeShape(n);
    assert '-' !in Alphabet;
  }

  /** A SKU splits on '-' into exactly its five fields. */
  lemma SkuSplits(key: CounterKey, n: int)
    requires KeyDashFree(key)
    ensures Split(SkuOf(key, n), '-') == SkuFields(key, n)
    ensures |Split(SkuOf(key, n), '-')| == 5
  {
    SequenceCodeNoDash(n);
    SplitJoin(SkuFields(key, n), '-');
  }

  /** SKUs of different keys differ, and so do SKUs of one key with different counters up to Capacity. */
  lemma SkuInjective(key: CounterKey, n: int, key': CounterKey, n': int)
    requires KeyDashFree(key) && KeyDashFree(key')
    requires key != key' || (1 <= n <= Capacity && 1 <= n' <= Capacity && n != n')
    ensures SkuOf(key, n) != SkuOf(key', n')
  {
    if SkuOf(key, n) == SkuOf(key', n') {
      SkuSplits(key, n);
      SkuSplits(key', n');
      var f, f' := SkuFields(key, n), SkuFields(key', n');
      assert f == f';
      assert f[0] == f'[0] && f[1] == f'[1] && f[2] == f'[2] && f[3] == f'[3] && f[4] == f'[4];
      assert key == key';
      SequenceCodeInjective(n, n');
      assert false;
    }
  }

  /** With dash-free table codes, every counter key `generate_sku` builds is dash-free. */
  lemma KeyForDashFree(tables: Tables, c: Component)
    requires AllCodesAvoid(tables, '-')
    requires c.domain in Domains
    ensures KeyDashFree(KeyFor(tables, c))
    ensures KeyFor(tables, c).domain == c.domain
  {
    RouteCodeAvoids(tables.routes, c.componentType, c.domain, '-');
    RoutingCodeAvoids(tables.routings, c.componentType, '-');
    NormalizedNoDash(tables.types, c.componentType, TypeLength);
    assert '-' !in "STD" && '-' !in "ELEC" && '-' !in "MECA";
  }

  // The store invariant

  /** A SKU the counters account for: issued under a dash-free key at a counter value already handed out. */
  ghost predicate Issued(counters: map<CounterKey, nat>, sku: string) {
    exists key, m :: KeyDashFree(key) && key in counters && 1 <= m <= counters[key] && sku == SkuOf(key, m)
  }

  /** UNIQUE `sku`, UNIQUE `component_hash`, and every SKU accounted for by the counters. */
  ghost predicate Inv(s: Store) {
    && (forall i, j :: 0 <= i < j < |s.records| ==> s.records[i].sku != s.records[j].sku)
    && (forall i, j :: 0 <= i < j < |s.records| ==> s.records[i].hash != s.records[j].hash)
    && (forall i :: 0 <= i < |s.records| ==> Issued(s.counters, s.records[i].sku))
  }

  lemma EmptyStoreInv()
    ensures Inv(EmptyStore)
  {
  }

  lemma IssuedGrows(counters: map<CounterKey, nat>, counters': map<CounterKey, nat>, sku: string)
    requires Issued(counters, sku)
    requires forall k :: k in counters ==> k in counters' && counters'[k] >= counters[k]
    ensures Issued(counters', sku)
  {
    var key, m :| KeyDashFree(key) && key in counters && 1 <= m <= counters[key] && sku == SkuOf(key, m);
    assert key in counters' && m <= counters'[key];
  }

  /** `get_next_sequence` only raises the counter of its key. */
  lemma NextSequenceGrows(counters: map<CounterKey, nat>, key: CounterKey)
    ensures forall k :: k in counters ==> k in NextSequence(counters, key).1
                                          && NextSequence(counters, key).1[k] >= counters[k]
  {
  }

  // What one call does, after validation

  /** A fingerprint already stored gives back its SKU and leaves the store as it was. */
  lemma IssueHit(s: Store, c: Component, hash: string, key: CounterKey)
    requires ExistingSku(s.records, hash).Some? && ExistingSku(s.records, hash).value != ""
    ensures Issue(s, c, hash, key) == (Ok(ExistingSku(s.records, hash).value), s)
  {
  }

  /**
    On a fingerprint miss (no stored SKU, or an empty one) only the counter of `key` moves (from absent to 1,
    or up by one) and the new SKU is `key` with the new counter; the row is
    appended unless its SKU or fingerprint is taken.
   */
  lemma IssueMiss(s: Store, c: Component, hash: string, key: CounterKey)
    requires ExistingSku(s.records, hash).None? || ExistingSku(s.records, hash).value == ""
    ensures var n := CounterOf(s.counters, key) + 1;
            var r := Issue(s, c, hash, key);
            && r.1.counters == s.counters[key := n]
            && (if Taken(s.records, SkuOf(key, n), hash)
                then r.0 == DuplicateSku(SkuOf(key, n)) && r.1.records == s.records
                else r.0 == Ok(SkuOf(key, n)) && r.1.records == s.records + [RecordOf(c, SkuOf(key, n), hash)])
  {
  }

  lemma IssueCountersGrow(s: Store, c: Component, hash: string, key: CounterKey)
    ensures var s' := Issue(s, c, hash, key).1;
            forall k :: k in s.counters ==> k in s'.counters && s'.counters[k] >= s.counters[k]
  {
    NextSequenceGrows(s.counters, key);
  }

  lemma IssueAppendsOnly(s: Store, c: Component, hash: string, key: CounterKey)
    ensures var s' := Issue(s, c, hash, key).1;
            |s'.records| >= |s.records| && s'.records[..|s.records|] == s.records
  {
    var n := CounterOf(s.counters, key) + 1;
    var records := s.records + [RecordOf(c, SkuOf(key, n), hash)];
    assert records[..|s.records|] == s.records;
  }

  lemma SkuOfNotEmpty(key: CounterKey, n: int)
    ensures SkuOf(key, n) != ""
  {
    SkuText(key, n);
    assert |SkuOf(key, n)| >= 4;
  }

  lemma IssuedSplits(counters: map<CounterKey, nat>, sku: string)
    requires Issued(counters, sku)
    ensures |Split(sku, '-')| == 5 && sku != ""
  {
    var key, m :| KeyDashFree(key) && key in counters && 1 <= m <= counters[key] && sku == SkuOf(key, m);
    SkuSplits(key, m);
    SkuOfNotEmpty(key, m);
  }

  /** Every SKU handed out, new or stored, has five dash-separated fields. */
  lemma IssueSkuShape(s: Store, c: Component, hash: string, key: CounterKey)
    requires Inv(s) && KeyDashFree(key)
    requires Issue(s, c, hash, key).0.Ok?
    ensures |Split(Issue(s, c, hash, key).0.sku, '-')| == 5
  {
    var existing := ExistingSku(s.records, hash);
    if existing.Some? && existing.value != "" {
      var i :| 0 <= i < |s.records| && s.records[i].hash == hash && s.records[i].sku == existing.value;
      IssuedSplits(s.counters, s.records[i].sku);
    } else {
      SkuSplits(key, CounterOf(s.counters, key) + 1);
    }
  }

  /** Under the invariant a stored fingerprint always has a non-empty SKU, so it always counts as a hit. */
  lemma InvHitTruthy(s: Store, hash: string)
    requires Inv(s) && ExistingSku(s.records, hash).Some?
    ensures ExistingSku(s.records, hash).value != ""
  {
    var i :| 0 <= i < |s.records| && s.records[i].hash == hash && s.records[i].sku == ExistingSku(s.records, hash).value;
    IssuedSplits(s.counters, s.records[i].sku);
  }

  /** The next counter value of `key` gives a SKU the counters have not accounted for yet. */
  lemma NextSkuNotIssued(counters: map<CounterKey, nat>, key: CounterKey, sku: string)
    requires KeyDashFree(key) && CounterOf(counters, key) < Capacity
    requires Issued(counters, sku)
    ensures sku != SkuOf(key, CounterOf(counters, key) + 1)
  {
    var n := CounterOf(counters, key) + 1;
    var key', m :| KeyDashFree(key') && key' in counters && 1 <= m <= counters[key'] && sku == SkuOf(key', m);
    assert key' == key ==> m < n <= Capacity;
    SkuInjective(key, n, key', m);
  }

  lemma NextSkuFree(s: Store, hash: string, key: CounterKey)
    requires Inv(s) && KeyDashFree(key) && CounterOf(s.counters, key) < Capacity
    requires ExistingSku(s.records, hash).None?
    ensures !Taken(s.records, SkuOf(key, CounterOf(s.counters, key) + 1), hash)
  {
    var sku := SkuOf(key, CounterOf(s.counters, key) + 1);
    forall i | 0 <= i < |s.records| ensures s.records[i].sku != sku && s.records[i].hash != hash {
      NextSkuNotIssued(s.counters, key, s.records[i].sku);
    }
  }

  /**
    The collision-freedom of the counters: while the counter of `key` is
    below Capacity, a new fingerprint always gets its SKU, never an
    IntegrityError.
   */
  lemma IssueNoConflict(s: Store, c: Component, hash: string, key: CounterKey)
    requires Inv(s) && KeyDashFree(key)
    requires CounterOf(s.counters, key) < Capacity
    ensures Issue(s, c, hash, key).0.Ok?
  {
    if ExistingSku(s.records, hash).Some? {
      InvHitTruthy(s, hash);
    } else {
      NextSkuFree(s, hash, key);
    }
  }

  /** Every call keeps the invariant, whatever its outcome. */
  lemma IssuePreservesInv(s: Store, c: Component, hash: string, key: CounterKey)
    requires Inv(s) && KeyDashFree(key)
    ensures Inv(Issue(s, c, hash, key).1)
  {
    var existing := ExistingSku(s.records, hash);
    if !(existing.Some? && existing.value != "") {
      var n := CounterOf(s.counters, key) + 1;
      var sku := SkuOf(key, n);
      var counters := s.counters[key := n];
      NextSequenceGrows(s.counters, key);
      forall i | 0 <= i < |s.records| ensures Issued(counters, s.records[i].sku) {
        IssuedGrows(s.counters, counters, s.records[i].sku);
      }
      if !Taken(s.records, sku, hash) {
        var records := s.records + [RecordOf(c, sku, hash)];
        assert Issued(counters, sku) by {
          assert KeyDashFree(key) && key in counters && 1 <= n <= counters[key] && sku == SkuOf(key, n);
        }
        forall i | 0 <= i < |records| ensures Issued(counters, records[i].sku) {
          if i < |s.records| {
            assert records[i] == s.records[i];
          }
        }
        forall i, j | 0 <= i < j < |records|
          ensures records[i].sku != records[j].sku && records[i].hash != records[j].hash
        {
          if j == |s.records| {
            assert records[i] == s.records[i];
          } else {
            assert records[i] == s.records[i] && records[j] == s.records[j];
          }
        }
      }
    }
  }

  lemma {:induction false} ExistingAfterAppend(records: seq<Record>, r: Record)
    requires forall i :: 0 <= i < |records| ==> records[i].hash != r.hash
    ensures ExistingSku(records + [r], r.hash) == Some(r.sku)
  {
    if records != [] {
      assert (records + [r])[1..] == records[1..] + [r];
      ExistingAfterAppend(records[1..], r);
    }
  }

  /** Issuing again for a fingerprint that just got a SKU returns that SKU and changes nothing. */
  lemma IssueRepeat(s: Store, c: Component, hash: string, key: CounterKey)
    requires Issue(s, c, hash, key).0.Ok?
    ensures var (out, s') := Issue(s, c, hash, key);
            Issue(s', c, hash, key) == (out, s')
  {
    var existing := ExistingSku(s.records, hash);
    if !(existing.Some? && existing.value != "") {
      var n := CounterOf(s.counters, key) + 1;
      var r := RecordOf(c, SkuOf(key, n), hash);
      assert !Taken(s.records, SkuOf(key, n), hash);
      assert Issue(s, c, hash, key).1.records == s.records + [r];
      ExistingAfterAppend(s.records, r);
      SkuOfNotEmpty(key, n);
    }
  }

  /** A SKU handed out, stored or new, is the SKU of some row afterwards, so a search finds it. */
  lemma IssueFindable(s: Store, c: Component, hash: string, key: CounterKey)
    requires Issue(s, c, hash, key).0.Ok?
    ensures FindSku(Issue(s, c, hash, key).1.records, Issue(s, c, hash, key).0.sku).Some?
  {
    var existing := ExistingSku(s.records, hash);
    if !(existing.Some? && existing.value != "") {
      var n := CounterOf(s.counters, key) + 1;
      var records := Issue(s, c, hash, key).1.records;
      assert records[|records| - 1].sku == SkuOf(key, n);
    }
  }

  // What one call does

  /** An invalid component raises ValueError and leaves the store as it was. */
  lemma GenerateInvalid(digest: string -> string, tables: Tables, s: Store, c: Component)
    requires !Validate(c).0
    ensures Generate(digest, tables, s, c).0 == InvalidComponent
    ensures Generate(digest, tables, s, c).2 == s
  {
  }

  /** A valid component whose fingerprint is stored gets the stored SKU, and the store stays as it was. */
  lemma GenerateHit(digest: string -> string, tables: Tables, s: Store, c: Component)
    requires Validate(c).0
    requires ExistingSku(s.records, Fingerprint(digest, Validate(c).1)).Some?
    requires ExistingSku(s.records, Fingerprint(digest, Validate(c).1)).value != ""
    ensures Generate(digest, tables, s, c).0 == Ok(ExistingSku(s.records, Fingerprint(digest, Validate(c).1)).value)
    ensures Generate(digest, tables, s, c).2 == s
  {
    var c1 := Validate(c).1;
    IssueHit(s, c1, Fingerprint(digest, c1), KeyFor(tables, c1));
  }

  /**
    A valid component with a new fingerprint moves only the counter of its
    key and gets that key with the new counter as its SKU; its row is
    appended unless the SKU is taken.
   */
  lemma GenerateMiss(digest: string -> string, tables: Tables, s: Store, c: Component, key: CounterKey)
    requires Validate(c).0 && key == KeyFor(tables, Validate(c).1)
    requires ExistingSku(s.records, Fingerprint(digest, Validate(c).1)).None?
    ensures var c1 := Validate(c).1;
            var hash := Fingerprint(digest, c1);
            var n := CounterOf(s.counters, key) + 1;
            var r := Generate(digest, tables, s, c);
            && r.2.counters == s.counters[key := n]
            && (if Taken(s.records, SkuOf(key, n), hash)
                then r.0 == DuplicateSku(SkuOf(key, n)) && r.2.records == s.records
                else r.0 == Ok(SkuOf(key, n)) && r.2.records == s.records + [RecordOf(c1, SkuOf(key, n), hash)])
  {
    var c1 := Validate(c).1;
    GenerateValid(digest, tables, s, c);
    IssueMiss(s, c1, Fingerprint(digest, c1), key);
  }

  /** A valid component goes on to the lookup-or-issue step with its fingerprint and key. */
  lemma GenerateValid(digest: string -> string, tables: Tables, s: Store, c: Component)
    requires Validate(c).0
    ensures var c1 := Validate(c).1;
            var r := Issue(s, c1, Fingerprint(digest, c1), KeyFor(tables, c1));
            Generate(digest, tables, s, c) == (r.0, c1, r.1)
  {
  }

  /** The counters never go down and never lose a key, and rows are only ever appended. */
  lemma GenerateMonotonic(digest: string -> string, tables: Tables, s: Store, c: Component)
    ensures var s' := Generate(digest, tables, s, c).2;
            && (forall k :: k in s.counters ==> k in s'.counters && s'.counters[k] >= s.counters[k])
            && |s'.records| >= |s.records| && s'.records[..|s.records|] == s.records
  {
    var c1 := Validate(c).1;
    if Validate(c).0 {
      IssueCountersGrow(s, c1, Fingerprint(digest, c1), KeyFor(tables, c1));
      IssueAppendsOnly(s, c1, Fingerprint(digest, c1), KeyFor(tables, c1));
    }
  }

  /** Every SKU `generate_sku` returns, new or stored, has five dash-separated fields. */
  lemma GeneratedSkuShape(digest: string -> string, tables: Tables, s: Store, c: Component)
    requires Inv(s) && AllCodesAvoid(tables, '-')
    requires Generate(digest, tables, s, c).0.Ok?
    ensures |Split(Generate(digest, tables, s, c).0.sku, '-')| == 5
  {
    var c1 := Validate(c).1;
    KeyForDashFree(tables, c1);
    IssueSkuShape(s, c1, Fingerprint(digest, c1), KeyFor(tables, c1));
  }

  /**
    While the counter of the component's key is below Capacity, a valid
    component always gets a SKU: the IntegrityError cannot happen.
   */
  lemma GenerateNoConflict(digest: string -> string, tables: Tables, s: Store, c: Component)
    requires Inv(s) && AllCodesAvoid(tables, '-')
    requires Validate(c).0
    requires CounterOf(s.counters, KeyFor(tables, Validate(c).1)) < Capacity
    ensures Generate(digest, tables, s, c).0.Ok?
  {
    var c1 := Validate(c).1;
    KeyForDashFree(tables, c1);
    IssueNoConflict(s, c1, Fingerprint(digest, c1), KeyFor(tables, c1));
  }

  /** Every call keeps the invariant, whatever its outcome. */
  lemma GeneratePreservesInv(digest: string -> string, tables: Tables, s: Store, c: Component)
    requires Inv(s) && AllCodesAvoid(tables, '-')
    ensures Inv(Generate(digest, tables, s, c).2)
  {
    var c1 := Validate(c).1;
    if Validate(c).0 {
      KeyForDashFree(tables, c1);
      IssuePreservesInv(s, c1, Fingerprint(digest, c1), KeyFor(tables, c1));
    }
  }

  /**
    Repeating a call that returned a SKU returns the same SKU and changes
    nothing, both for the original component and for the component as the
    first call left it (the source's caller holds the updated object).
   */
  lemma GenerateRepeat(digest: string -> string, tables: Tables, s: Store, c: Component)
    requires Generate(digest, tables, s, c).0.Ok?
    ensures var (out, c1, s') := Generate(digest, tables, s, c);
            && Generate(digest, tables, s', c) == (out, c1, s')
            && Generate(digest, tables, s', c1) == (out, c1, s')
  {
    var c1 := Validate(c).1;
    ValidateIdempotent(c);
    IssueRepeat(s, c1, Fingerprint(digest, c1), KeyFor(tables, c1));
  }

  /** A SKU `generate_sku` returns is, by its exact text, the SKU of a row of the store it leaves. */
  lemma GenerateFindable(digest: string -> string, tables: Tables, s: Store, c: Component)
    requires Generate(digest, tables, s, c).0.Ok?
    ensures FindSku(Generate(digest, tables, s, c).2.records, Generate(digest, tables, s, c).0.sku).Some?
  {
    var c1 := Validate(c).1;
    IssueFindable(s, c1, Fingerprint(digest, c1), KeyFor(tables, c1));
  }
}
