/**
 * The registry of UNTP credential types and the download plan built from it.
 * Each registry entry gives a display name, a versioned base URL, the
 * descriptors of the artefacts published for the type, a versioned legacy
 * context URL and the local file that replaces that URL in samples.
 */
module ArtefactConfig {
  import opened Wrappers
  import opened JsStrings

  /** A string built from a version by a template literal: `head + version + tail`. */
  datatype VersionTemplate = VersionTemplate(head: string, tail: string) {
    function Apply(version: string): string {
      head + version + tail
    }
  }

  /** Where an artefact is published (relative to the base URL) and the file it is saved as. */
  datatype Descriptor = Descriptor(urlPath: string, filename: string)

  /** The `artefacts` object of an entry; an absent property is `None`. */
  datatype Artefacts = Artefacts(
    context: Option<Descriptor>,
    vocabulary: Option<Descriptor>,
    schema: Option<Descriptor>,
    sample: Option<Descriptor>)

  datatype ArtefactTypeConfig = ArtefactTypeConfig(
    name: string,
    baseUrl: VersionTemplate,
    artefacts: Artefacts,
    contextPattern: VersionTemplate,
    localContextFile: string)

  /** One planned download: its label, its full URL and the file it is saved as. */
  datatype DownloadItem = DownloadItem(name: string, url: string, filename: string)

  /** The object returned by `generateDownloadConfig`. */
  datatype DownloadPlan = DownloadPlan(
    untpType: string,
    version: string,
    name: string,
    downloads: seq<DownloadItem>,
    contextPattern: string,
    localContextFile: string)

  /** The keys of `UNTP_ARTEFACT_CONFIGS`, one constructor per registered credential type. */
  datatype UntpType = Dpp | Dcc | Dfr | Dia | Dte | Core | Dlp

  /** The registry's insertion order. */
  const RegisteredTypes: seq<UntpType> := [Dpp, Dcc, Dfr, Dia, Dte, Core, Dlp]

  /** The property name under which a type is registered. */
  function Id(t: UntpType): string {
    match t
    case Dpp => "dpp"
    case Dcc => "dcc"
    case Dfr => "dfr"
    case Dia => "dia"
    case Dte => "dte"
    case Core => "core"
    case Dlp => "dlp"
  }

  // The registry's URLs follow a few fixed shapes. Each shape is a function of
  // the model names it varies in, so the entries share the common text and a
  // proof about one entry does not unfold seven copies of it.

  const Https := "https://"

  /** An `https://` URL with the given remainder. */
  function HttpsUrl(rest: string): (url: string)
    ensures StartsWith(url, Https)
  {
    StartsWithAppend(Https, Https, rest);
    Https + rest
  }

  /** `https://jargon.sh/user/<owner>/<model>/v/${version}/artefacts`: where a model's artefacts are published. */
  function JargonArtefacts(owner: string, model: string): VersionTemplate {
    VersionTemplate(HttpsUrl("jargon.sh/user/" + owner + "/" + model + "/v/"), "/artefacts")
  }

  /** `https://test.uncefact.org/vocabulary/untp/<id>/${version}/`: the legacy UNTP context URL. */
  function UntpVocabulary(id: string): VersionTemplate {
    VersionTemplate(HttpsUrl("test.uncefact.org/vocabulary/untp/" + id + "/"), "/")
  }

  /** `jsonldContexts/<model>.jsonld?class=<model>` */
  function ContextUrlPath(model: string): string {
    "jsonldContexts/" + model + ".jsonld?class=" + model
  }

  /** `jsonSchemas/<class>.json?class=<class>` */
  function SchemaUrlPath(schemaClass: string): string {
    "jsonSchemas/" + schemaClass + ".json?class=" + schemaClass
  }

  /** `jsonSchemas/<class>_instance.json?class=<class>_instance` */
  function SampleUrlPath(schemaClass: string): string {
    SchemaUrlPath(schemaClass + "_instance")
  }

  const VocabularyUrlPath := "jsonld/render.jsonld"

  /** The artefacts of an entry that publishes all four, saved as `<prefix>.<kind>.<extension>`. */
  function FullArtefacts(contextModel: string, schemaClass: string, prefix: string): Artefacts {
    Artefacts(
      Some(Descriptor(ContextUrlPath(contextModel), prefix + ".context.jsonld")),
      Some(Descriptor(VocabularyUrlPath, prefix + ".vocabulary.jsonld")),
      Some(Descriptor(SchemaUrlPath(schemaClass), prefix + ".schema.json")),
      Some(Descriptor(SampleUrlPath(schemaClass), prefix + ".sample.json")))
  }

  /** The artefacts of an entry that publishes only a context and a vocabulary. */
  function ContextAndVocabulary(contextModel: string, prefix: string): Artefacts {
    Artefacts(
      Some(Descriptor(ContextUrlPath(contextModel), prefix + ".context.jsonld")),
      Some(Descriptor(VocabularyUrlPath, prefix + ".vocabulary.jsonld")),
      None,
      None)
  }

  function DppConfig(): ArtefactTypeConfig {
    ArtefactTypeConfig(
      "Digital Product Passport",
      JargonArtefacts("unece", "DigitalProductPassport"),
      FullArtefacts("DigitalProductPassport", "DigitalProductPassport", "dpp"),
      UntpVocabulary("dpp"),
      "./dpp.context.jsonld")
  }

  function DccConfig(): ArtefactTypeConfig {
    ArtefactTypeConfig(
      "Digital Conformity Credential",
      JargonArtefacts("unece", "ConformityCredential"),
      FullArtefacts("ConformityCredential", "DigitalConformityCredential", "dcc"),
      UntpVocabulary("dcc"),
      "./dcc.context.jsonld")
  }

  function DfrConfig(): ArtefactTypeConfig {
    ArtefactTypeConfig(
      "Digital Facility Record",
      JargonArtefacts("unece", "DigitalFacilityRecord"),
      FullArtefacts("DigitalFacilityRecord", "DigitalFacilityRecord", "dfr"),
      UntpVocabulary("dfr"),
      "./dfr.context.jsonld")
  }

  function DiaConfig(): ArtefactTypeConfig {
    ArtefactTypeConfig(
      "Digital Identity Anchor",
      JargonArtefacts("unece", "DigitalIdentityAnchor"),
      FullArtefacts("DigitalIdentityAnchor", "DigitalIdentityAnchor", "dia"),
      UntpVocabulary("dia"),
      "./dia.context.jsonld")
  }

  function DteConfig(): ArtefactTypeConfig {
    ArtefactTypeConfig(
      "Digital Traceability Event",
      JargonArtefacts("unece", "traceabilityEvents"),
      FullArtefacts("traceabilityEvents", "DigitalTraceabilityEvent", "dte"),
      UntpVocabulary("dte"),
      "./dte.context.jsonld")
  }

  function CoreConfig(): ArtefactTypeConfig {
    ArtefactTypeConfig(
      "UNTP Core",
      JargonArtefacts("unece", "untp-core"),
      ContextAndVocabulary("untp-core", "core"),
      UntpVocabulary("core"),
      "./core.context.jsonld")
  }

  function DlpConfig(): ArtefactTypeConfig {
    ArtefactTypeConfig(
      "Digital Livestock Product",
      JargonArtefacts("aatp", "DigitalLivestockPassport"),
      FullArtefacts("DigitalLivestockPassport", "DigitalLivestockPassport", "dlp"),
      VersionTemplate(HttpsUrl("aatp.foodagility.com/context/aatp-dlp-context-"), ".jsonld"),
      "./dlp.context.jsonld")
  }

  /** The entries of `UNTP_ARTEFACT_CONFIGS`, one function per entry. */
  function ConfigOf(t: UntpType): ArtefactTypeConfig {
    match t
    case Dpp => DppConfig()
    case Dcc => DccConfig()
    case Dfr => DfrConfig()
    case Dia => DiaConfig()
    case Dte => DteConfig()
    case Core => CoreConfig()
    case Dlp => DlpConfig()
  }

  /** `getAvailableTypes()`: `Object.keys(UNTP_ARTEFACT_CONFIGS)`, in insertion order. */
  function AvailableTypes(): (types: seq<string>)
    ensures types == ["dpp", "dcc", "dfr", "dia", "dte", "core", "dlp"]
  {
    seq(|RegisteredTypes|, i requires 0 <= i < |RegisteredTypes| => Id(RegisteredTypes[i]))
  }

  /** The registered type whose key is `key`, if any. */
  function FromId(key: string): (r: Option<UntpType>)
    ensures r.Some? <==> key in AvailableTypes()
    ensures r.Some? ==> Id(r.value) == key
  {
    if key == "dpp" then Some(Dpp)
    else if key == "dcc" then Some(Dcc)
    else if key == "dfr" then Some(Dfr)
    else if key == "dia" then Some(Dia)
    else if key == "dte" then Some(Dte)
    else if key == "core" then Some(Core)
    else if key == "dlp" then Some(Dlp)
    else None
  }

  /** The message of the error `getArtefactConfig` throws for an unknown type. */
  function UnknownTypeMessage(untpType: string): string {
    "Unknown UNTP artefact type: " + untpType + ". Available types: " + JoinWith(AvailableTypes(), ", ")
  }

  /**
   * `getArtefactConfig(type)`: the registered configuration, or the
   * unknown-type error. Only the registry's own keys are known here; the
   * source's plain property lookup also finds inherited names (see
   * `GetArtefactConfigAsWritten`).
   */
  function GetArtefactConfig(untpType: string): (r: Result<ArtefactTypeConfig, string>)
    ensures r.Success? <==> untpType in AvailableTypes()
    ensures r.Success? ==> exists t :: Id(t) == untpType && r.value == ConfigOf(t)
    ensures r.Failure? ==> r.error == UnknownTypeMessage(untpType)
  {
    match FromId(untpType)
    case Some(t) => Success(ConfigOf(t))
    case None => Failure(UnknownTypeMessage(untpType))
  }

  /** The unknown-type message quotes the rejected type. */
  lemma UnknownTypeMessageNamesType(untpType: string)
    ensures Includes(UnknownTypeMessage(untpType), untpType)
  {
    var head := "Unknown UNTP artefact type: ";
    var msg := UnknownTypeMessage(untpType);
    assert msg == head + untpType + (". Available types: " + JoinWith(AvailableTypes(), ", "));
    assert msg[|head|..|head| + |untpType|] == untpType;
    assert OccursAt(msg, untpType, |head|);
  }

  /** The unknown-type message lists the `k`-th available type. */
  lemma UnknownTypeMessageListsType(untpType: string, k: nat)
    requires k < |AvailableTypes()|
    ensures Includes(UnknownTypeMessage(untpType), AvailableTypes()[k])
  {
    var listed := JoinWith(AvailableTypes(), ", ");
    var front := "Unknown UNTP artefact type: " + untpType + ". Available types: ";
    JoinIncludesEach(AvailableTypes(), ", ", k);
    IncludesInMiddle(front, listed, "", AvailableTypes()[k]);
    assert UnknownTypeMessage(untpType) == front + listed + "";
  }

  /** The unknown-type error names the rejected type and lists every available type. */
  lemma UnknownTypeErrorListsEveryType(untpType: string)
    requires untpType !in AvailableTypes()
    ensures GetArtefactConfig(untpType).Failure?
    ensures Includes(GetArtefactConfig(untpType).error, untpType)
    ensures forall t :: t in AvailableTypes() ==> Includes(GetArtefactConfig(untpType).error, t)
  {
    UnknownTypeMessageNamesType(untpType);
    forall t | t in AvailableTypes()
      ensures Includes(UnknownTypeMessage(untpType), t)
    {
      var k :| 0 <= k < |AvailableTypes()| && AvailableTypes()[k] == t;
      UnknownTypeMessageListsType(untpType, k);
    }
  }

  /** The four kinds of artefact, in the order the plan lists them. */
  datatype ArtefactKind = Context | Schema | Vocabulary | Sample

  const PlanOrder: seq<ArtefactKind> := [Context, Schema, Vocabulary, Sample]

  function Rank(k: ArtefactKind): nat {
    match k
    case Context => 0
    case Schema => 1
    case Vocabulary => 2
    case Sample => 3
  }

  /** The word that follows the display name in a download's label. */
  function Label(k: ArtefactKind): string {
    match k
    case Context => "context"
    case Schema => "schema"
    case Vocabulary => "vocabulary"
    case Sample => "sample"
  }

  function DescriptorOf(a: Artefacts, k: ArtefactKind): Option<Descriptor> {
    match k
    case Context => a.context
    case Schema => a.schema
    case Vocabulary => a.vocabulary
    case Sample => a.sample
  }

  predicate StrictlyRanked(ks: seq<ArtefactKind>) {
    forall i, j :: 0 <= i < j < |ks| ==> Rank(ks[i]) < Rank(ks[j])
  }

  /** The kinds among `ks` whose descriptor is present, in the order of `ks`. */
  function Present(a: Artefacts, ks: seq<ArtefactKind>): (r: seq<ArtefactKind>)
    ensures forall i :: 0 <= i < |r| ==> DescriptorOf(a, r[i]).Some?
  {
    if ks == [] then []
    else (if DescriptorOf(a, ks[0]).Some? then [ks[0]] else []) + Present(a, ks[1..])
  }

  /** Filtering keeps every kind above a rank that all of the list's kinds exceed. */
  lemma {:induction false} PresentAbove(a: Artefacts, ks: seq<ArtefactKind>, lo: int)
    requires forall i :: 0 <= i < |ks| ==> lo < Rank(ks[i])
    ensures forall i :: 0 <= i < |Present(a, ks)| ==> lo < Rank(Present(a, ks)[i])
    decreases |ks|
  {
    if ks != [] {
      PresentAbove(a, ks[1..], lo);
    }
  }

  /** Filtering a strictly ranked list keeps it strictly ranked. */
  lemma {:induction false} PresentKeepsOrder(a: Artefacts, ks: seq<ArtefactKind>)
    requires StrictlyRanked(ks)
    ensures StrictlyRanked(Present(a, ks))
    decreases |ks|
  {
    if ks != [] {
      var rest := Present(a, ks[1..]);
      PresentKeepsOrder(a, ks[1..]);
      PresentAbove(a, ks[1..], Rank(ks[0]));
      var head := if DescriptorOf(a, ks[0]).Some? then [ks[0]] else [];
      assert Present(a, ks) == head + rest;
    }
  }

  /** The download item for a present descriptor. */
  function ItemFor(config: ArtefactTypeConfig, k: ArtefactKind, version: string): DownloadItem
    requires DescriptorOf(config.artefacts, k).Some?
  {
    var d := DescriptorOf(config.artefacts, k).value;
    DownloadItem(config.name + " " + Label(k), config.baseUrl.Apply(version) + "/" + d.urlPath, d.filename)
  }

  /** One download item per kind, in the order of `ks`. */
  function ItemsOf(config: ArtefactTypeConfig, ks: seq<ArtefactKind>, version: string): seq<DownloadItem>
    requires forall i :: 0 <= i < |ks| ==> DescriptorOf(config.artefacts, ks[i]).Some?
  {
    seq(|ks|, i requires 0 <= i < |ks| => ItemFor(config, ks[i], version))
  }

  /** The kinds a plan covers: every present descriptor, in plan order. */
  function PlannedKinds(config: ArtefactTypeConfig): seq<ArtefactKind> {
    Present(config.artefacts, PlanOrder)
  }

  /** Reference definition of the plan's downloads: one item per planned kind. */
  function PlannedDownloads(config: ArtefactTypeConfig, version: string): seq<DownloadItem> {
    ItemsOf(config, PlannedKinds(config), version)
  }

  function ExpectedPlan(untpType: string, version: string, config: ArtefactTypeConfig): DownloadPlan {
    DownloadPlan(untpType, version, config.name, PlannedDownloads(config, version),
                 config.contextPattern.Apply(version), config.localContextFile)
  }

  /**
   * `generateDownloadConfig(type, version)`: looks the type up, then collects
   * the downloads of its present descriptors.
   */
  method GenerateDownloadConfig(untpType: string, version: string) returns (r: Result<DownloadPlan, string>)
    ensures r.Failure? <==> untpType !in AvailableTypes()
    ensures r.Failure? ==> r.error == UnknownTypeMessage(untpType)
    ensures r.Success? ==> r.value == ExpectedPlan(untpType, version, GetArtefactConfig(untpType).value)
  {
    var lookup := GetArtefactConfig(untpType);
    if lookup.Failure? {
      return Failure(lookup.error);
    }
    var config := lookup.value;
    var downloads := CollectDownloads(config, version);
    r := Success(DownloadPlan(untpType, version, config.name, downloads, config.contextPattern.Apply(version), config.localContextFile));
  }

  /**
   * The body of `generateDownloadConfig` after the lookup: appends one item per
   * present descriptor, context, schema, vocabulary and sample in that order.
   */
  method CollectDownloads(config: ArtefactTypeConfig, version: string) returns (downloads: seq<DownloadItem>)
    ensures downloads == PlannedDownloads(config, version)
  {
    var baseUrl := config.baseUrl.Apply(version);
    var a := config.artefacts;
    downloads := [];
    if a.context.Some? {
      downloads := downloads + [DownloadItem(config.name + " context", baseUrl + "/" + a.context.value.urlPath, a.context.value.filename)];
    }
    assert downloads == OptionalItem(config, Context, version) by {
      if a.context.Some? {
        assert config.name + " context" == config.name + " " + Label(Context);
      }
    }
    if a.schema.Some? {
      downloads := downloads + [DownloadItem(config.name + " schema", baseUrl + "/" + a.schema.value.urlPath, a.schema.value.filename)];
    }
    assert downloads == OptionalItem(config, Context, version) + OptionalItem(config, Schema, version) by {
      if a.schema.Some? {
        assert config.name + " schema" == config.name + " " + Label(Schema);
      }
    }
    if a.vocabulary.Some? {
      downloads := downloads + [DownloadItem(config.name + " vocabulary", baseUrl + "/" + a.vocabulary.value.urlPath, a.vocabulary.value.filename)];
    }
    assert downloads == OptionalItem(config, Context, version) + OptionalItem(config, Schema, version) + OptionalItem(config, Vocabulary, version) by {
      if a.vocabulary.Some? {
        assert config.name + " vocabulary" == config.name + " " + Label(Vocabulary);
      }
    }
    if a.sample.Some? {
      downloads := downloads + [DownloadItem(config.name + " sample", baseUrl + "/" + a.sample.value.urlPath, a.sample.value.filename)];
    }
    assert downloads == OptionalItem(config, Context, version) + OptionalItem(config, Schema, version) + OptionalItem(config, Vocabulary, version) + OptionalItem(config, Sample, version) by {
      if a.sample.Some? {
        assert config.name + " sample" == config.name + " " + Label(Sample);
      }
    }
    PlannedDownloadsUnfold(config, version);
  }

  function OptionalItem(config: ArtefactTypeConfig, k: ArtefactKind, version: string): seq<DownloadItem> {
    if DescriptorOf(config.artefacts, k).Some? then [ItemFor(config, k, version)] else []
  }

  /** Filtering then mapping the first kind off a list gives that kind's optional item. */
  lemma ItemsOfPresentStep(config: ArtefactTypeConfig, ks: seq<ArtefactKind>, version: string)
    requires ks != []
    ensures ItemsOf(config, Present(config.artefacts, ks), version)
         == OptionalItem(config, ks[0], version) + ItemsOf(config, Present(config.artefacts, ks[1..]), version)
  {
    var a := config.artefacts;
    var head := if DescriptorOf(a, ks[0]).Some? then [ks[0]] else [];
    var rest := Present(a, ks[1..]);
    assert Present(a, ks) == head + rest;
    var lhs := ItemsOf(config, head + rest, version);
    var rhs := OptionalItem(config, ks[0], version) + ItemsOf(config, rest, version);
    assert |lhs| == |rhs|;
    forall i | 0 <= i < |lhs| ensures lhs[i] == rhs[i] {
      if i >= |head| {
        assert (head + rest)[i] == rest[i - |head|];
      }
    }
  }

  /** The plan is the concatenation of the optional items of the four kinds, in plan order. */
  lemma PlannedDownloadsUnfold(config: ArtefactTypeConfig, version: string)
    ensures PlannedDownloads(config, version)
         == OptionalItem(config, Context, version) + OptionalItem(config, Schema, version)
          + OptionalItem(config, Vocabulary, version) + OptionalItem(config, Sample, version)
  {
    var ks := PlanOrder;
    ItemsOfPresentStep(config, ks, version);
    ItemsOfPresentStep(config, ks[1..], version);
    ItemsOfPresentStep(config, ks[2..], version);
    ItemsOfPresentStep(config, ks[3..], version);
    assert ks[1..][1..] == ks[2..] && ks[2..][1..] == ks[3..] && ks[3..][1..] == [];
  }

  /**
   * The planned kinds follow the fixed order context, schema, vocabulary,
   * sample, and a kind is planned exactly when its descriptor is present.
   */
  lemma PlannedKindsExactlyPresent(config: ArtefactTypeConfig)
    ensures StrictlyRanked(PlannedKinds(config))
    ensures forall k :: k in PlannedKinds(config) <==> DescriptorOf(config.artefacts, k).Some?
  {
    PresentKeepsOrder(config.artefacts, PlanOrder);
    PlannedKindsUnfold(config.artefacts, config);
  }

  /**
   * Every download of a plan is labelled `<name> <kind>`, fetched from
   * `<baseUrl(version)>/<urlPath>` and saved under the descriptor's filename,
   * one download per planned kind.
   */
  lemma PlanItemsFollowDescriptors(config: ArtefactTypeConfig, version: string)
    ensures var ks := PlannedKinds(config);
      && |PlannedDownloads(config, version)| == |ks|
      && forall i :: 0 <= i < |ks| ==>
           var item := PlannedDownloads(config, version)[i];
           var d := DescriptorOf(config.artefacts, ks[i]).value;
           && item.name == config.name + " " + Label(ks[i])
           && item.url == config.baseUrl.Apply(version) + "/" + d.urlPath
           && item.filename == d.filename
  {
  }

  /** The kinds present among the artefacts, as the plan lists them. */
  lemma PlannedKindsUnfold(a: Artefacts, config: ArtefactTypeConfig)
    requires config.artefacts == a
    ensures PlannedKinds(config)
         == (if a.context.Some? then [Context] else []) + (if a.schema.Some? then [Schema] else [])
          + (if a.vocabulary.Some? then [Vocabulary] else []) + (if a.sample.Some? then [Sample] else [])
  {
    var ks := PlanOrder;
    assert ks[1..][1..] == ks[2..] && ks[2..][1..] == ks[3..] && ks[3..][1..] == [];
    assert Present(a, ks[3..]) == (if a.sample.Some? then [Sample] else []);
    assert Present(a, ks[2..]) == (if a.vocabulary.Some? then [Vocabulary] else []) + Present(a, ks[3..]);
    assert Present(a, ks[1..]) == (if a.schema.Some? then [Schema] else []) + Present(a, ks[2..]);
    assert Present(a, ks) == (if a.context.Some? then [Context] else []) + Present(a, ks[1..]);
  }

  /**
   * An entry with a context and a vocabulary plans all four artefacts when it
   * has a schema and a sample, and only the context and the vocabulary when it
   * has neither.
   */
  lemma PlannedKindsOfShape(c: ArtefactTypeConfig)
    requires c.artefacts.context.Some? && c.artefacts.vocabulary.Some?
    requires c.artefacts.schema.Some? <==> c.artefacts.sample.Some?
    ensures PlannedKinds(c) == if c.artefacts.schema.Some? then PlanOrder else [Context, Vocabulary]
  {
    PlannedKindsUnfold(c.artefacts, c);
  }

  /** `core` plans exactly its context and vocabulary; every other type plans all four artefacts. */
  lemma PlanKindsPerType(t: UntpType)
    ensures PlannedKinds(ConfigOf(t)) == if t == Core then [Context, Vocabulary] else PlanOrder
  {
    RegistryNaming(t);
    PlannedKindsOfShape(ConfigOf(t));
  }

  /** For `core` the plan has two downloads, for every other type four. */
  lemma PlanSizePerType(t: UntpType, version: string)
    ensures |PlannedDownloads(ConfigOf(t), version)| == if t == Core then 2 else 4
  {
    PlanKindsPerType(t);
  }

  /**
   * The naming convention of an entry registered under `id`: files are named
   * after the key, the local context file is `./` and the context file's name,
   * and the schema and the sample, where present, follow the same pattern.
   */
  predicate NamedAfter(c: ArtefactTypeConfig, id: string) {
    && c.artefacts.context.Some? && c.artefacts.context.value.filename == id + ".context.jsonld"
    && c.artefacts.vocabulary.Some? && c.artefacts.vocabulary.value.filename == id + ".vocabulary.jsonld"
    && (c.artefacts.schema.Some? ==> c.artefacts.schema.value.filename == id + ".schema.json")
    && (c.artefacts.sample.Some? ==> c.artefacts.sample.value.filename == id + ".sample.json")
    && c.localContextFile == "./" + id + ".context.jsonld"
  }

  /**
   * What every entry of the registry satisfies: its files are named after its
   * key, only `core` lacks a schema and a sample, and both URL templates start
   * with `https://`.
   */
  predicate WellRegistered(t: UntpType) {
    && NamedAfter(ConfigOf(t), Id(t))
    && (ConfigOf(t).artefacts.schema.None? <==> t == Core)
    && (ConfigOf(t).artefacts.sample.None? <==> t == Core)
    && StartsWith(ConfigOf(t).baseUrl.head, Https)
    && StartsWith(ConfigOf(t).contextPattern.head, Https)
  }

  // One lemma per entry, so that each proof unfolds a single entry; the
  // `Registered` lemmas restate an entry's facts in terms of the lookup.
  // The split keeps the solver cheap: the registry's string literals make a
  // proof that unfolds all seven entries at once too costly to check.

  lemma DppRegistered()
    ensures WellRegistered(Dpp)
  {
    DppEntry();
    assert ConfigOf(Dpp) == DppConfig();
  }

  lemma DppEntry()
    ensures NamedAfter(DppConfig(), "dpp")
    ensures StartsWith(DppConfig().baseUrl.head, Https) && StartsWith(DppConfig().contextPattern.head, Https)
    ensures DppConfig().artefacts.schema.Some? && DppConfig().artefacts.sample.Some?
  {
  }

  lemma DccRegistered()
    ensures WellRegistered(Dcc)
  {
    DccEntry();
    assert ConfigOf(Dcc) == DccConfig();
  }

  lemma DccEntry()
    ensures NamedAfter(DccConfig(), "dcc")
    ensures StartsWith(DccConfig().baseUrl.head, Https) && StartsWith(DccConfig().contextPattern.head, Https)
    ensures DccConfig().artefacts.schema.Some? && DccConfig().artefacts.sample.Some?
  {
  }

  lemma DfrRegistered()
    ensures WellRegistered(Dfr)
  {
    DfrEntry();
    assert ConfigOf(Dfr) == DfrConfig();
  }

  lemma DfrEntry()
    ensures NamedAfter(DfrConfig(), "dfr")
    ensures StartsWith(DfrConfig().baseUrl.head, Https) && StartsWith(DfrConfig().contextPattern.head, Https)
    ensures DfrConfig().artefacts.schema.Some? && DfrConfig().artefacts.sample.Some?
  {
  }

  lemma DiaRegistered()
    ensures WellRegistered(Dia)
  {
    DiaEntry();
    assert ConfigOf(Dia) == DiaConfig();
  }

  lemma DiaEntry()
    ensures NamedAfter(DiaConfig(), "dia")
    ensures StartsWith(DiaConfig().baseUrl.head, Https) && StartsWith(DiaConfig().contextPattern.head, Https)
    ensures DiaConfig().artefacts.schema.Some? && DiaConfig().artefacts.sample.Some?
  {
  }

  lemma DteRegistered()
    ensures WellRegistered(Dte)
  {
    DteEntry();
    assert ConfigOf(Dte) == DteConfig();
  }

  lemma DteEntry()
    ensures NamedAfter(DteConfig(), "dte")
    ensures StartsWith(DteConfig().baseUrl.head, Https) && StartsWith(DteConfig().contextPattern.head, Https)
    ensures DteConfig().artefacts.schema.Some? && DteConfig().artefacts.sample.Some?
  {
  }

  lemma DlpRegistered()
    ensures WellRegistered(Dlp)
  {
    DlpEntry();
    assert ConfigOf(Dlp) == DlpConfig();
  }

  lemma DlpEntry()
    ensures NamedAfter(DlpConfig(), "dlp")
    ensures StartsWith(DlpConfig().baseUrl.head, Https) && StartsWith(DlpConfig().contextPattern.head, Https)
    ensures DlpConfig().artefacts.schema.Some? && DlpConfig().artefacts.sample.Some?
  {
  }

  lemma CoreRegistered()
    ensures WellRegistered(Core)
  {
    CoreEntry();
    assert ConfigOf(Core) == CoreConfig();
  }

  lemma CoreEntry()
    ensures NamedAfter(CoreConfig(), "core")
    ensures StartsWith(CoreConfig().baseUrl.head, Https) && StartsWith(CoreConfig().contextPattern.head, Https)
    ensures CoreConfig().artefacts.schema.None? && CoreConfig().artefacts.sample.None?
  {
  }

  /**
   * Every registered entry follows the naming convention, only `core` lacks a
   * schema and a sample, and both URL templates start with `https://`.
   */
  lemma RegistryNaming(t: UntpType)
    ensures WellRegistered(t)
  {
    match t
    case Dpp => DppRegistered();
    case Dcc => DccRegistered();
    case Dfr => DfrRegistered();
    case Dia => DiaRegistered();
    case Dte => DteRegistered();
    case Core => CoreRegistered();
    case Dlp => DlpRegistered();
  }

  /** A template whose head is an `https://` URL gives one for every version. */
  lemma HttpsTemplate(v: VersionTemplate, version: string)
    requires StartsWith(v.head, Https)
    ensures StartsWith(v.Apply(version), Https)
  {
    StartsWithAppend(v.head, Https, version + v.tail);
    assert v.Apply(version) == v.head + (version + v.tail);
  }

  /** Every registered base URL and legacy context URL is an `https://` URL, whatever the version. */
  lemma RegisteredUrlsAreHttps(t: UntpType, version: string)
    ensures StartsWith(ConfigOf(t).baseUrl.Apply(version), Https)
    ensures StartsWith(ConfigOf(t).contextPattern.Apply(version), Https)
  {
    RegistryNaming(t);
    HttpsTemplate(ConfigOf(t).baseUrl, version);
    HttpsTemplate(ConfigOf(t).contextPattern, version);
  }

  // ---------------------------------------------------------------------------
  // The lookup as written: `UNTP_ARTEFACT_CONFIGS[type]` is a property read on a
  // plain object, which also finds the properties every object inherits.
  // ---------------------------------------------------------------------------

  /** The names of the properties of `Object.prototype`; reading any of them from an object literal gives a truthy value. */
  const InheritedKeys: set<string> := {
    "constructor", "hasOwnProperty", "isPrototypeOf", "propertyIsEnumerable",
    "toLocaleString", "toString", "valueOf", "__proto__",
    "__defineGetter__", "__defineSetter__", "__lookupGetter__", "__lookupSetter__"
  }

  /** What the property read finds: an own entry, an inherited member, or `undefined`. */
  datatype RawLookup = Own(config: ArtefactTypeConfig) | Inherited(key: string) | Undefined

  /** `getArtefactConfig` as written: it throws only when the property read gives `undefined`. */
  function GetArtefactConfigAsWritten(untpType: string): (r: RawLookup)
    ensures r.Undefined? <==> untpType !in AvailableTypes() && untpType !in InheritedKeys
    ensures r.Own? <==> GetArtefactConfig(untpType).Success?
    ensures r.Own? ==> r.config == GetArtefactConfig(untpType).value
  {
    match GetArtefactConfig(untpType)
    case Success(config) => Own(config)
    case Failure(_) => if untpType in InheritedKeys then Inherited(untpType) else Undefined
  }

  /** `"toString"` is not a credential type, yet the lookup as written does not raise the unknown-type error for it. */
  lemma InheritedKeyEscapesUnknownTypeError()
    ensures GetArtefactConfig("toString").Failure?
    ensures !GetArtefactConfigAsWritten("toString").Undefined?
  {
  }
}
