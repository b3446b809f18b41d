/**
 * The SCAI summary attestation types: the attribute enumeration with its string
 * conversions, the records of the summary statement, and the builders that
 * assemble those records field by field.
 */
module SummaryScai {
  import opened Wrappers
  import Json

  /** `error::ConversionError`: the message of a failed `TryFrom` or `FromStr`. */
  datatype ConversionError = ConversionError(message: string)

  // ---- the attribute enumeration ----

  datatype Attribute =
    | PassedDevelopmentEnvironment
    | PassedSource
    | PassedBuild
    | PassedPackage
    | PassedDeploy

  /** `to_string`: the wire name of each attribute, always `PASSED_` and the stage. */
  function ToString(a: Attribute): (s: string)
    ensures |s| > 7 && s[..7] == "PASSED_"
  {
    match a
    case PassedDevelopmentEnvironment => "PASSED_DEVELOPMENT_ENVIRONMENT"
    case PassedSource => "PASSED_SOURCE"
    case PassedBuild => "PASSED_BUILD"
    case PassedPackage => "PASSED_PACKAGE"
    case PassedDeploy => "PASSED_DEPLOY"
  }

  /**
   * `from_str`, and also each of the three `TryFrom` impls for `&str`, `&String`
   * and `String`, which all delegate to it: Dafny has a single string type.
   */
  function FromStr(s: string): (r: Result<Attribute, ConversionError>)
    ensures r.Err? ==> r.error == ConversionError("invalid value")
  {
    if s == "PASSED_DEVELOPMENT_ENVIRONMENT" then Ok(PassedDevelopmentEnvironment)
    else if s == "PASSED_SOURCE" then Ok(PassedSource)
    else if s == "PASSED_BUILD" then Ok(PassedBuild)
    else if s == "PASSED_PACKAGE" then Ok(PassedPackage)
    else if s == "PASSED_DEPLOY" then Ok(PassedDeploy)
    else Err(ConversionError("invalid value"))
  }

  /** Printing an attribute and parsing the text gives the attribute back. */
  lemma FromStrToString(a: Attribute)
    ensures FromStr(ToString(a)) == Ok(a)
  {
  }

  /** Parsing accepts nothing but the five wire names: a parsed string is the name of its result. */
  lemma ToStringFromStr(s: string)
    requires FromStr(s).Ok?
    ensures ToString(FromStr(s).value) == s
  {
  }

  /** Distinct attributes have distinct names. */
  lemma ToStringInjective(a: Attribute, b: Attribute)
    requires ToString(a) == ToString(b)
    ensures a == b
  {
    FromStrToString(a);
    FromStrToString(b);
  }

  // ---- the records ----

  /** `ResourceDescriptorVariant1Digest`. */
  datatype Digest = Digest(sha256: string)

  /**
   * `ResourceDescriptor`: three shapes that differ in which of `uri`, `digest` and
   * `content` is required. The required field of each is named `required…`.
   */
  datatype ResourceDescriptor =
    | Variant0(annotations: map<string, Json.Value>, content: Option<string>, digest: Option<Digest>,
               downloadLocation: Option<string>, mediaType: Option<string>, name: Option<string>,
               requiredUri: string)
    | Variant1(annotations: map<string, Json.Value>, content: Option<string>, requiredDigest: Digest,
               downloadLocation: Option<string>, mediaType: Option<string>, name: Option<string>,
               uri: Option<string>)
    | Variant2(annotations: map<string, Json.Value>, requiredContent: string, digest: Option<Digest>,
               downloadLocation: Option<string>, mediaType: Option<string>, name: Option<string>,
               uri: Option<string>)

  /** `SummaryScaiPredicateAttributesItemConditions`. */
  datatype Conditions = Conditions(policy: Option<string>)

  /** `SummaryScaiPredicateAttributesItem`. */
  datatype AttributesItem = AttributesItem(attribute: Attribute, conditions: Option<Conditions>, evidence: ResourceDescriptor)

  /** `SummaryScaiPredicate`. */
  datatype Predicate = Predicate(attributes: seq<AttributesItem>, producer: ResourceDescriptor)

  /** `SummaryScai`; `statementType` is the `_type` field. */
  datatype Summary = Summary(scaiPredicate: Predicate, predicateType: string, subject: seq<ResourceDescriptor>, statementType: string)

  // ---- builders ----

  /** The value a builder field starts with when nothing was supplied. */
  function Missing<T>(field: string): Result<T, string> {
    Err("no value supplied for " + field)
  }

  /**
   * What a setter stores: the outcome of `value.try_into()`, its error message
   * prefixed as `map_err` does.
   */
  function Supplied<T>(field: string, value: Result<T, string>): (r: Result<T, string>)
    ensures r.Ok? <==> value.Ok?
    ensures value.Ok? ==> r.value == value.value
  {
    match value
    case Ok(v) => Ok(v)
    case Err(e) => Err("error converting supplied value for " + field + ": " + e)
  }

  /** `builder::ResourceDescriptorVariant1Digest`. */
  datatype DigestBuilder = DigestBuilder(sha256: Result<string, string>) {
    /** The `sha256` setter. */
    function SetSha256(value: Result<string, string>): (b: DigestBuilder)
      ensures b.sha256 == Supplied("sha256", value)
    {
      this.(sha256 := Supplied("sha256", value))
    }
  }

  /** `Default`: the required field starts unset. */
  function DefaultDigestBuilder(): (b: DigestBuilder)
    ensures b.sha256.Err?
  {
    DigestBuilder(Missing("sha256"))
  }

  /** `TryFrom<builder::ResourceDescriptorVariant1Digest>`: succeeds when the one field is set. */
  function BuildDigest(b: DigestBuilder): (r: Result<Digest, ConversionError>)
    ensures r.Ok? <==> b.sha256.Ok?
    ensures r.Ok? ==> r.value == Digest(b.sha256.value)
    ensures r.Err? ==> r.error == ConversionError(b.sha256.error)
  {
    var sha256 :- b.sha256.MapError(ToConversionError);
    Ok(Digest(sha256))
  }

  /** `From<ResourceDescriptorVariant1Digest>`: a builder with every field set. */
  function DigestToBuilder(d: Digest): (b: DigestBuilder)
    ensures BuildDigest(b) == Ok(d)
  {
    DigestBuilder(Ok(d.sha256))
  }

  /** The `From<String>` conversion `?` applies to a builder field's error. */
  function ToConversionError(message: string): ConversionError {
    ConversionError(message)
  }

  /** `builder::SummaryScai`. */
  datatype SummaryBuilder = SummaryBuilder(
    scaiPredicate: Result<Predicate, string>,
    predicateType: Result<string, string>,
    subject: Result<seq<ResourceDescriptor>, string>,
    statementType: Result<string, string>)
  {
    function SetPredicate(value: Result<Predicate, string>): (b: SummaryBuilder)
      ensures b.scaiPredicate == Supplied("predicate", value)
      ensures b.predicateType == predicateType && b.subject == subject && b.statementType == statementType
    {
      this.(scaiPredicate := Supplied("predicate", value))
    }

    function SetPredicateType(value: Result<string, string>): (b: SummaryBuilder)
      ensures b.predicateType == Supplied("predicate_type", value)
      ensures b.scaiPredicate == scaiPredicate && b.subject == subject && b.statementType == statementType
    {
      this.(predicateType := Supplied("predicate_type", value))
    }

    function SetSubject(value: Result<seq<ResourceDescriptor>, string>): (b: SummaryBuilder)
      ensures b.subject == Supplied("subject", value)
      ensures b.scaiPredicate == scaiPredicate && b.predicateType == predicateType && b.statementType == statementType
    {
      this.(subject := Supplied("subject", value))
    }

    function SetStatementType(value: Result<string, string>): (b: SummaryBuilder)
      ensures b.statementType == Supplied("type_", value)
      ensures b.scaiPredicate == scaiPredicate && b.predicateType == predicateType && b.subject == subject
    {
      this.(statementType := Supplied("type_", value))
    }
  }

  /** `Default`: every field is required and starts unset. */
  function DefaultSummaryBuilder(): (b: SummaryBuilder)
    ensures b.scaiPredicate.Err? && b.predicateType.Err? && b.subject.Err? && b.statementType.Err?
  {
    SummaryBuilder(Missing("predicate"), Missing("predicate_type"), Missing("subject"), Missing("type_"))
  }

  /**
   * `TryFrom<builder::SummaryScai>`: succeeds exactly when every field is set, and
   * otherwise reports the first unset field in declaration order.
   */
  function BuildSummary(b: SummaryBuilder): (r: Result<Summary, ConversionError>)
    ensures r.Ok? <==> b.scaiPredicate.Ok? && b.predicateType.Ok? && b.subject.Ok? && b.statementType.Ok?
    ensures r.Ok? ==> r.value == Summary(b.scaiPredicate.value, b.predicateType.value, b.subject.value, b.statementType.value)
    ensures b.scaiPredicate.Err? ==> r == Err(ConversionError(b.scaiPredicate.error))
    ensures b.scaiPredicate.Ok? && b.predicateType.Err? ==> r == Err(ConversionError(b.predicateType.error))
    ensures b.scaiPredicate.Ok? && b.predicateType.Ok? && b.subject.Err? ==> r == Err(ConversionError(b.subject.error))
    ensures b.scaiPredicate.Ok? && b.predicateType.Ok? && b.subject.Ok? && b.statementType.Err? ==>
      r == Err(ConversionError(b.statementType.error))
  {
    var scaiPredicate :- b.scaiPredicate.MapError(ToConversionError);
    var predicateType :- b.predicateType.MapError(ToConversionError);
    var subject :- b.subject.MapError(ToConversionError);
    var statementType :- b.statementType.MapError(ToConversionError);
    Ok(Summary(scaiPredicate, predicateType, subject, statementType))
  }

  /** `From<SummaryScai>`: a builder with every field set, which builds the record back. */
  function SummaryToBuilder(s: Summary): (b: SummaryBuilder)
    ensures BuildSummary(b) == Ok(s)
  {
    SummaryBuilder(Ok(s.scaiPredicate), Ok(s.predicateType), Ok(s.subject), Ok(s.statementType))
  }

  /** `builder::SummaryScaiPredicate`. */
  datatype PredicateBuilder = PredicateBuilder(
    attributes: Result<seq<AttributesItem>, string>,
    producer: Result<ResourceDescriptor, string>)
  {
    function SetAttributes(value: Result<seq<AttributesItem>, string>): (b: PredicateBuilder)
      ensures b.attributes == Supplied("attributes", value) && b.producer == producer
    {
      this.(attributes := Supplied("attributes", value))
    }

    function SetProducer(value: Result<ResourceDescriptor, string>): (b: PredicateBuilder)
      ensures b.producer == Supplied("producer", value) && b.attributes == attributes
    {
      this.(producer := Supplied("producer", value))
    }
  }

  /** `Default`: both fields are required and start unset. */
  function DefaultPredicateBuilder(): (b: PredicateBuilder)
    ensures b.attributes.Err? && b.producer.Err?
  {
    PredicateBuilder(Missing("attributes"), Missing("producer"))
  }

  /** `TryFrom<builder::SummaryScaiPredicate>`. */
  function BuildPredicate(b: PredicateBuilder): (r: Result<Predicate, ConversionError>)
    ensures r.Ok? <==> b.attributes.Ok? && b.producer.Ok?
    ensures r.Ok? ==> r.value == Predicate(b.attributes.value, b.producer.value)
    ensures b.attributes.Err? ==> r == Err(ConversionError(b.attributes.error))
    ensures b.attributes.Ok? && b.producer.Err? ==> r == Err(ConversionError(b.producer.error))
  {
    var attributes :- b.attributes.MapError(ToConversionError);
    var producer :- b.producer.MapError(ToConversionError);
    Ok(Predicate(attributes, producer))
  }

  /** `From<SummaryScaiPredicate>`: building the builder gives the record back. */
  function PredicateToBuilder(p: Predicate): (b: PredicateBuilder)
    ensures BuildPredicate(b) == Ok(p)
  {
    PredicateBuilder(Ok(p.attributes), Ok(p.producer))
  }

  /** `builder::SummaryScaiPredicateAttributesItem`; `conditions` is optional and starts as `Ok(None)`. */
  datatype AttributesItemBuilder = AttributesItemBuilder(
    attribute: Result<Attribute, string>,
    conditions: Result<Option<Conditions>, string>,
    evidence: Result<ResourceDescriptor, string>)
  {
    function SetAttribute(value: Result<Attribute, string>): (b: AttributesItemBuilder)
      ensures b.attribute == Supplied("attribute", value) && b.conditions == conditions && b.evidence == evidence
    {
      this.(attribute := Supplied("attribute", value))
    }

    function SetConditions(value: Result<Option<Conditions>, string>): (b: AttributesItemBuilder)
      ensures b.conditions == Supplied("conditions", value) && b.attribute == attribute && b.evidence == evidence
    {
      this.(conditions := Supplied("conditions", value))
    }

    function SetEvidence(value: Result<ResourceDescriptor, string>): (b: AttributesItemBuilder)
      ensures b.evidence == Supplied("evidence", value) && b.attribute == attribute && b.conditions == conditions
    {
      this.(evidence := Supplied("evidence", value))
    }
  }

  /** `Default`: `attribute` and `evidence` start unset, the optional `conditions` as `Ok(None)`. */
  function DefaultAttributesItemBuilder(): (b: AttributesItemBuilder)
    ensures b.attribute.Err? && b.evidence.Err? && b.conditions == Ok(None)
  {
    AttributesItemBuilder(Missing("attribute"), Ok(None), Missing("evidence"))
  }

  /** `TryFrom<builder::SummaryScaiPredicateAttributesItem>`. */
  function BuildAttributesItem(b: AttributesItemBuilder): (r: Result<AttributesItem, ConversionError>)
    ensures r.Ok? <==> b.attribute.Ok? && b.conditions.Ok? && b.evidence.Ok?
    ensures r.Ok? ==> r.value == AttributesItem(b.attribute.value, b.conditions.value, b.evidence.value)
    ensures b.attribute.Err? ==> r == Err(ConversionError(b.attribute.error))
    ensures b.attribute.Ok? && b.conditions.Err? ==> r == Err(ConversionError(b.conditions.error))
    ensures b.attribute.Ok? && b.conditions.Ok? && b.evidence.Err? ==> r == Err(ConversionError(b.evidence.error))
  {
    var attribute :- b.attribute.MapError(ToConversionError);
    var conditions :- b.conditions.MapError(ToConversionError);
    var evidence :- b.evidence.MapError(ToConversionError);
    Ok(AttributesItem(attribute, conditions, evidence))
  }

  /** `From<SummaryScaiPredicateAttributesItem>`: building the builder gives the record back. */
  function AttributesItemToBuilder(item: AttributesItem): (b: AttributesItemBuilder)
    ensures BuildAttributesItem(b) == Ok(item)
  {
    AttributesItemBuilder(Ok(item.attribute), Ok(item.conditions), Ok(item.evidence))
  }

  /** `builder::SummaryScaiPredicateAttributesItemConditions`; `policy` starts as `Ok(None)`. */
  datatype ConditionsBuilder = ConditionsBuilder(policy: Result<Option<string>, string>) {
    function SetPolicy(value: Result<Option<string>, string>): (b: ConditionsBuilder)
      ensures b.policy == Supplied("policy", value)
    {
      this.(policy := Supplied("policy", value))
    }
  }

  /** `Default`: the optional `policy` starts as `Ok(None)`, so the builder already builds. */
  function DefaultConditionsBuilder(): (b: ConditionsBuilder)
    ensures b.policy == Ok(None)
    ensures BuildConditions(b) == Ok(Conditions(None))
  {
    ConditionsBuilder(Ok(None))
  }

  /** `TryFrom<builder::SummaryScaiPredicateAttributesItemConditions>`. */
  function BuildConditions(b: ConditionsBuilder): (r: Result<Conditions, ConversionError>)
    ensures r.Ok? <==> b.policy.Ok?
    ensures r.Ok? ==> r.value == Conditions(b.policy.value)
    ensures r.Err? ==> r.error == ConversionError(b.policy.error)
  {
    var policy :- b.policy.MapError(ToConversionError);
    Ok(Conditions(policy))
  }

  /** `From<SummaryScaiPredicateAttributesItemConditions>`: building the builder gives the record back. */
  function ConditionsToBuilder(c: Conditions): (b: ConditionsBuilder)
    ensures BuildConditions(b) == Ok(c)
  {
    ConditionsBuilder(Ok(c.policy))
  }

  // ---- builder laws ----

  /**
   * A default builder fails on its first required field; the conditions builder,
   * whose only field is optional, builds `Conditions(None)` at once.
   */
  lemma DefaultBuildersFail()
    ensures BuildDigest(DefaultDigestBuilder()) == Err(ConversionError("no value supplied for sha256"))
    ensures BuildSummary(DefaultSummaryBuilder()) == Err(ConversionError("no value supplied for predicate"))
    ensures BuildPredicate(DefaultPredicateBuilder()) == Err(ConversionError("no value supplied for attributes"))
    ensures BuildAttributesItem(DefaultAttributesItemBuilder()) == Err(ConversionError("no value supplied for attribute"))
    ensures BuildConditions(DefaultConditionsBuilder()) == Ok(Conditions(None))
  {
    assert "no value supplied for " + "sha256" == "no value supplied for sha256";
    assert "no value supplied for " + "predicate" == "no value supplied for predicate";
    assert "no value supplied for " + "attributes" == "no value supplied for attributes";
    assert "no value supplied for " + "attribute" == "no value supplied for attribute";
  }

  /** Setting every required field of a default builder with converted values builds the record of those values. */
  lemma SettersBuildRecord(scaiPredicate: Predicate, predicateType: string, subject: seq<ResourceDescriptor>,
                           statementType: string, attribute: Attribute, evidence: ResourceDescriptor,
                           attributes: seq<AttributesItem>, producer: ResourceDescriptor, sha256: string)
    ensures BuildSummary(DefaultSummaryBuilder().SetPredicate(Ok(scaiPredicate)).SetPredicateType(Ok(predicateType))
                           .SetSubject(Ok(subject)).SetStatementType(Ok(statementType)))
            == Ok(Summary(scaiPredicate, predicateType, subject, statementType))
    ensures BuildAttributesItem(DefaultAttributesItemBuilder().SetAttribute(Ok(attribute)).SetEvidence(Ok(evidence)))
            == Ok(AttributesItem(attribute, None, evidence))
    ensures BuildPredicate(DefaultPredicateBuilder().SetAttributes(Ok(attributes)).SetProducer(Ok(producer)))
            == Ok(Predicate(attributes, producer))
    ensures BuildDigest(DefaultDigestBuilder().SetSha256(Ok(sha256))) == Ok(Digest(sha256))
  {
  }

  /** A conversion that failed in a setter is what building reports, with the setter's prefix. */
  lemma FailedConversionIsReported(b: SummaryBuilder, e: string)
    ensures BuildSummary(b.SetPredicate(Err(e))) == Err(ConversionError("error converting supplied value for predicate: " + e))
  {
    var prefix := "error converting supplied value for ";
    assert prefix + "predicate" + ": " + e == "error converting supplied value for predicate: " + e;
  }

  /** Setting a field twice keeps the second value; setters of different fields commute. */
  lemma SetterLaws(b: SummaryBuilder, p: Result<Predicate, string>, q: Result<Predicate, string>, t: Result<string, string>)
    ensures b.SetPredicate(p).SetPredicate(q) == b.SetPredicate(q)
    ensures b.SetPredicate(p).SetPredicateType(t) == b.SetPredicateType(t).SetPredicate(p)
  {
  }
}
