/**
  The `Component` record of the SKU generator, its validation
  (`_validate_component`) and its fingerprint text (`create_component_hash`).

  The source validates by mutating the caller's object: an empty description
  is overwritten before the remaining checks run. Here the record is a value,
  so validation returns the verdict together with the record as it is after
  the call.
 */
module Components {
  import opened Wrappers
  import opened PyStr

  datatype Component = Component(
    name: string,
    description: string,
    domain: string,
    componentType: string,
    route: string,
    routing: string,
    manufacturer: Option<string>,
    manufacturerPart: Option<string>,
    quantity: Option<real>,
    designator: Option<string>)

  /** `invalid_names`: names and types that stand for a missing value. */
  const Placeholders: seq<string> := ["nan", "none", "null", "", "(vide)", "empty", "unnamed"]

  /** The text written into an empty description. */
  const DefaultDescription: string := "Description non fournie"

  /** The two domains a component may belong to. */
  const Domains: seq<string> := ["ELEC", "MECA"]

  /** `s.lower().strip() in invalid_names` */
  predicate IsPlaceholder(s: string) {
    Strip(Lower(s)) in Placeholders
  }

  /** A name or a type that passes the two checks the source applies to both. */
  predicate Meaningful(s: string) {
    !IsBlank(s) && !IsPlaceholder(s)
  }

  /**
    `_validate_component(component)`: the verdict, and the component with its
    description filled in when the name checks passed and the description was
    blank, even when a later check rejects it.
   */
  function Validate(c: Component): (res: (bool, Component))
    ensures res.0 <==> Meaningful(c.name) && c.domain in Domains && Meaningful(c.componentType)
    ensures res.1 == if Meaningful(c.name) && IsBlank(c.description)
                     then c.(description := DefaultDescription) else c
  {
    if IsBlank(c.name) then (false, c)
    else if IsPlaceholder(c.name) then (false, c)
    else
      var c1 := if IsBlank(c.description) then c.(description := DefaultDescription) else c;
      if c1.domain == "" || c1.domain !in ["ELEC", "MECA"] then (false, c1)
      else if IsBlank(c1.componentType) then (false, c1)
      else if IsPlaceholder(c1.componentType) then (false, c1)
      else (true, c1)
  }

  /** How `str()` renders an optional text in an f-string: `None` for a missing value. */
  function Render(v: Option<string>): string {
    match v
    case Some(s) => s
    case None => "None"
  }

  /** The text `create_component_hash` digests: name, description, type, manufacturer, part, joined by `_`. */
  function HashString(c: Component): string {
    c.name + "_" + c.description + "_" + c.componentType + "_" + Render(c.manufacturer) + "_" + Render(c.manufacturerPart)
  }

  /**
    `create_component_hash(component)`. The digest (md5, cut to eight hex
    digits) is the parameter `digest`, so nothing here depends on its values.
   */
  function Fingerprint(digest: string -> string, c: Component): string {
    digest(HashString(c))
  }

  // Lemmas about validation

  /** `DefaultDescription` is not blank, so a filled-in description stays as it is. */
  lemma DefaultDescriptionNotBlank()
    ensures !IsBlank(DefaultDescription)
  {
    assert DefaultDescription[0] == 'D' && !IsSpace('D');
    assert TrimLeft(DefaultDescription) == DefaultDescription;
    assert DefaultDescription[|DefaultDescription| - 1] == 'e' && !IsSpace('e');
  }

  /** Validating the validated record again gives the same verdict and changes nothing more. */
  lemma ValidateIdempotent(c: Component)
    ensures Validate(Validate(c).1) == Validate(c)
  {
    DefaultDescriptionNotBlank();
  }

  /** An accepted component leaves validation with a non-blank description. */
  lemma AcceptedHasDescription(c: Component)
    requires Validate(c).0
    ensures !IsBlank(Validate(c).1.description)
  {
    DefaultDescriptionNotBlank();
  }

  /**
    The description is filled in before the domain check: a component with a
    proper name and a blank description is updated even when its domain is
    rejected.
   */
  lemma FilledEvenWhenRejected(c: Component)
    requires Meaningful(c.name) && IsBlank(c.description) && c.domain !in Domains
    ensures Validate(c) == (false, c.(description := DefaultDescription))
  {
  }

  /** Validation changes nothing but the description. */
  lemma ValidateKeepsOtherFields(c: Component)
    ensures Validate(c).1 == c.(description := Validate(c).1.description)
  {
  }

  /** The fingerprint reads only name, description, type, manufacturer and part. */
  lemma FingerprintFields(digest: string -> string, c: Component, d: Component)
    requires c.name == d.name && c.description == d.description && c.componentType == d.componentType
    requires c.manufacturer == d.manufacturer && c.manufacturerPart == d.manufacturerPart
    ensures Fingerprint(digest, c) == Fingerprint(digest, d)
  {
  }

  /** A name that lower-cases and strips to a placeholder is rejected, e.g. " NaN ". */
  lemma PlaceholderNameRejected(c: Component)
    requires c.name == " NaN "
    ensures !Validate(c).0 && Validate(c).1 == c
  {
    assert Lower(c.name) == " nan ";
    assert TrimLeft(" nan ") == "nan ";
    assert TrimRight("nan ") == "nan";
    assert !IsBlank(c.name) by {
      assert TrimLeft(c.name) == "NaN ";
      assert TrimRight("NaN ") == "NaN";
    }
  }
}
