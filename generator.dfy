/**
  The `SKUGenerator` object: its tables, its database (held as the two
  fields the store functions describe) and the methods that read and write
  it. Each method is proved against a store function: `GetExistingSku`
  against `ExistingSku`, `GetNextSequence` against `NextSequence`,
  `SaveComponent` against `Save`, `ComputeKey` against `KeyFor`, `IssueSku`
  against `Issue`, `GenerateSku` against `Generate`, and
  `SearchComponentBySku` against `FindSku` of the upper-cased query.
 */
module Generator {
  import opened Wrappers
  import opened PyStr
  import opened SequenceCodec
  import opened Lookup
  import opened TableFacts
  import opened Classifier
  import opened TypeToken
  import opened Optimizer
  import opened Components
  import opened SkuEngine

  class SkuGenerator {
    /** The md5-and-truncate fingerprint, a parameter of the model. */
    const digest: string -> string
    /** `route_mapping`, `routing_mapping`, `type_mapping` */
    const tables: Tables
    /** The rows of `components`, in insertion order. */
    var records: seq<Record>
    /** The rows of `sku_counters`. */
    var counters: map<CounterKey, nat>

    /** The database as a store value. */
    function State(): Store
      reads this
    {
      Store(records, counters)
    }

    /** The store invariant, and tables whose codes cannot split a SKU field. */
    ghost predicate Valid()
      reads this
    {
      Inv(State()) && AllCodesAvoid(tables, '-')
    }

    /** `SKUGenerator(db_path)` over a new, empty database. */
    constructor (digest: string -> string)
      ensures this.digest == digest && tables == GeneratorTables()
      ensures records == [] && counters == map[]
      ensures Valid()
    {
      this.digest := digest;
      tables := GeneratorTables();
      records := [];
      counters := map[];
      new;
      GeneratorCodesDashFree();
    }

    /** `get_existing_sku(component)`: the SKU stored under the component's fingerprint. */
    method GetExistingSku(c: Component) returns (sku: Option<string>)
      ensures sku == ExistingSku(records, Fingerprint(digest, c))
    {
      var hash := Fingerprint(digest, c);
      var i := 0;
      while i < |records|
        invariant 0 <= i <= |records|
        invariant ExistingSku(records, hash) == ExistingSku(records[i..], hash)
      {
        assert records[i..][0] == records[i] && records[i..][1..] == records[i + 1..];
        if records[i].hash == hash {
          return Some(records[i].sku);
        }
        i := i + 1;
      }
      return None;
    }

    /** `get_next_sequence(...)`: the counter of `key` goes from absent to 1, or up by one. */
    method GetNextSequence(key: CounterKey) returns (n: nat)
      modifies this
      ensures (n, counters) == NextSequence(old(counters), key)
      ensures records == old(records)
    {
      if key in counters {
        n := counters[key] + 1;
      } else {
        n := 1;
      }
      counters := counters[key := n];
    }

    /** `save_component(component, sku)`: the INSERT, refused when the SKU or the fingerprint is taken. */
    method SaveComponent(c: Component, sku: string) returns (saved: bool)
      modifies this
      ensures saved == Save(old(records), c, sku, Fingerprint(digest, c)).Some?
      ensures records == Save(old(records), c, sku, Fingerprint(digest, c)).GetOr(old(records))
      ensures counters == old(counters)
    {
      var hash := Fingerprint(digest, c);
      var i := 0;
      while i < |records|
        invariant 0 <= i <= |records|
        invariant forall j :: 0 <= j < i ==> records[j].sku != sku && records[j].hash != hash
      {
        if records[i].sku == sku || records[i].hash == hash {
          return false;
        }
        i := i + 1;
      }
      records := records + [RecordOf(c, sku, hash)];
      return true;
    }

    /** The code lookups of `generate_sku` and the optimizer: the counter key of `c`. */
    method ComputeKey(c: Component) returns (key: CounterKey)
      ensures key == KeyFor(tables, c)
    {
      var routeCode := GetRouteCode(tables.routes, c.componentType, c.domain);
      var routingCode := GetRoutingCode(tables.routings, c.componentType);
      var typeCode := NormalizeText(tables.types, c.componentType, TypeLength);
      var opt := OptimizeSkuFormat(c.domain, routeCode, routingCode, typeCode);
      key := CounterKey(c.domain, opt.0, opt.1, opt.2);
    }

    /**
      The rest of `generate_sku` for a validated component with fingerprint
      `hash` and counter key `key`: the stored SKU, or a new one from the
      next counter value, saved when neither it nor the fingerprint is taken.
     */
    method IssueSku(c: Component, hash: string, key: CounterKey) returns (outcome: Outcome)
      requires hash == Fingerprint(digest, c)
      modifies this
      ensures (outcome, State()) == Issue(old(State()), c, hash, key)
    {
      ghost var s := State();
      var existing := GetExistingSku(c);
      if existing.Some? && existing.value != "" {
        return Ok(existing.value);
      }
      var sequence := GetNextSequence(key);
      var sequenceCode := FormatSequence(sequence);
      var sku := key.domain + "-" + key.route + "-" + key.routing + "-" + key.typeCode + "-" + sequenceCode;
      SkuText(key, sequence);
      IssueMiss(s, c, hash, key);
      var saved := SaveComponent(c, sku);
      if !saved {
        return DuplicateSku(sku);
      }
      return Ok(sku);
    }

    /**
      `generate_sku(component)`: the outcome and the component as validation
      left it, with the database changed as `Generate` says; the invariant is kept.
     */
    method GenerateSku(c: Component) returns (outcome: Outcome, updated: Component)
      requires Valid()
      modifies this
      ensures (outcome, updated, State()) == Generate(digest, tables, old(State()), c)
      ensures Valid()
    {
      GeneratePreservesInv(digest, tables, State(), c);
      var v := Validate(c);
      updated := v.1;
      if !v.0 {
        return InvalidComponent, updated;
      }
      GenerateValid(digest, tables, State(), c);
      var key := ComputeKey(updated);
      outcome := IssueSku(updated, Fingerprint(digest, updated), key);
    }

    /** `search_component_by_sku(sku)`: the row whose SKU is the upper-cased query. */
    method SearchComponentBySku(sku: string) returns (r: Option<Record>)
      ensures r == FindSku(records, Upper(sku))
    {
      var key := Upper(sku);
      var i := 0;
      while i < |records|
        invariant 0 <= i <= |records|
        invariant FindSku(records, key) == FindSku(records[i..], key)
      {
        assert records[i..][0] == records[i] && records[i..][1..] == records[i + 1..];
        if records[i].sku == key {
          return Some(records[i]);
        }
        i := i + 1;
      }
      return None;
    }
  }
}
