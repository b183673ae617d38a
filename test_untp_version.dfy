/**
 * `test-untp-version.js`: downloads the `dpp` context, schema and sample of a
 * version into `downloads/<version>`, points a freshly downloaded sample at
 * the local context, and expands it. The network, the file system and the
 * JSON-LD expansion are an `Environment` given as a parameter.
 */
module TestUntpVersion {
  import opened Wrappers
  import opened JsStrings
  import opened FileUtils
  import opened ArtefactConfig
  import opened JsonLdProcessor

  /** `https://test.uncefact.org/vocabulary/untp/dpp/${version}/` */
  function DppUrlPattern(version: string): string {
    DppUrlPrefix + version + "/"
  }

  /** The sample `updateSampleContext` writes back: only its `@context` array's first `dpp` URL of this version is replaced. */
  function UpdatedSample(doc: Document, version: string): Document {
    match ContextArray(doc)
    case None => doc
    case Some(entries) => doc[ContextKey := JArray(ReplaceFirstMatch(entries, DppUrlPattern(version), DppLocalContextFile))]
  }

  /**
   * `updateSampleContext(samplePath, version)`. `content` is the parsed
   * sample (`None` when reading or parsing fails) and `writable` whether
   * writing it back succeeds. On success the written document is returned.
   */
  method UpdateSampleContext(content: Option<Document>, writable: bool, version: string)
    returns (success: bool, written: Option<Document>)
    ensures success <==> content.Some? && writable
    ensures success ==> written == Some(UpdatedSample(content.value, version))
    ensures !success ==> written.None?
  {
    if content.None? {
      return false, None;
    }
    var doc := content.value;
    if ContextKey in doc && doc[ContextKey].JArray? {
      var items := doc[ContextKey].items;
      var contextArray := new JsonValue[|items|](i requires 0 <= i < |items| => items[i]);
      assert contextArray[..] == items;
      var dppUrlPattern := DppUrlPrefix + version + "/";
      ReplaceFirstInPlace(contextArray, dppUrlPattern, DppLocalContextFile);
      doc := doc[ContextKey := JArray(contextArray[..])];
    }
    if !writable {
      return false, None;
    }
    return true, Some(doc);
  }

  /**
   * The `dpp` rewrite here is the one-pass rewrite of `createLocalContextSample`
   * with the registry's `dpp` context pattern and local context file.
   */
  lemma UpdatedSampleIsDppLocalization(doc: Document, version: string)
    ensures UpdatedSample(doc, version)
         == LocalizedDocument(doc, ConfigOf(Dpp).contextPattern.Apply(version), ConfigOf(Dpp).localContextFile)
  {
    DppEntry();
    assert ConfigOf(Dpp).contextPattern.Apply(version) == DppUrlPattern(version);
    assert ConfigOf(Dpp).localContextFile == DppLocalContextFile;
    assert DppLocalContextFile[3] != DlpLocalContextFile[3];
  }

  /**
   * The rewrite swaps a URL with a scheme for a file the document loader
   * reads locally: the first entry holding this version's `dpp` URL contains
   * `://`, and what replaces it passes the loader's local test.
   */
  lemma RewrittenEntryIsLoadedLocally(entries: seq<JsonValue>, version: string, i: nat)
    requires i < |entries| && Matches(entries[i], DppUrlPattern(version))
    requires forall j :: 0 <= j < i ==> !Matches(entries[j], DppUrlPattern(version))
    ensures Includes(entries[i].s, "://")
    ensures var r := ReplaceFirstMatch(entries, DppUrlPattern(version), DppLocalContextFile);
      r[i].JStr? && IsLocalUrl(r[i].s)
  {
    var p := DppUrlPattern(version);
    StartsWithAppend(DppUrlPrefix, Https, version + "/");
    assert p[5..8] == p[..8][5..8];
    assert OccursAt(p, "://", 5);
    IncludesTransitive(entries[i].s, p, "://");
    assert DppLocalContextFile[..2] == "./";
  }

  /** One entry of the hard-coded download list; `wasDownloaded` is unset until the loop records it. */
  datatype Download = Download(name: string, url: string, output: string, wasDownloaded: Option<bool>)

  const DppModelName := "DigitalProductPassport"
  const SampleFile := "dpp.sample.json"

  /** `dppArtefactsBaseUrl`: `https://jargon.sh/user/unece/DigitalProductPassport/v/${version}/artefacts`. */
  function DppArtefactsBaseUrl(version: string): string {
    JargonArtefacts("unece", DppModelName).Apply(version)
  }

  /** The `downloads` list: context, schema and sample of `dpp`, saved in the version directory. */
  function DppDownloads(version: string): seq<Download> {
    var versionDir := Join(DownloadsDir, version);
    var base := DppArtefactsBaseUrl(version);
    [ Download(DppModelName + " context", base + "/" + ContextUrlPath(DppModelName), Join(versionDir, "dpp.context.jsonld"), None),
      Download(DppModelName + " schema", base + "/" + SchemaUrlPath(DppModelName), Join(versionDir, "dpp.schema.json"), None),
      Download(DppModelName + " sample", base + "/" + SampleUrlPath(DppModelName), Join(versionDir, SampleFile), None) ]
  }

  /** Where the sample is read from and rewritten. */
  function SamplePath(version: string): string {
    Join(Join(DownloadsDir, version), SampleFile)
  }

  /** The registry's `dpp` plan lists all four kinds, so its items are those of the full plan order. */
  lemma DppPlanIsFull(version: string)
    ensures PlannedKinds(DppConfig()) == PlanOrder
    ensures PlannedDownloads(DppConfig(), version) == ItemsOf(DppConfig(), PlanOrder, version)
    ensures DppArtefactsBaseUrl(version) == DppConfig().baseUrl.Apply(version)
  {
    PlannedKindsUnfold(DppConfig().artefacts, DppConfig());
  }

  /** The context item of the list matches the context item of the registry's `dpp` plan. */
  lemma DppContextDownloadIsPlanned(version: string)
    ensures |PlannedDownloads(DppConfig(), version)| == 4
    ensures DppDownloads(version)[0].url == PlannedDownloads(DppConfig(), version)[0].url
    ensures DppDownloads(version)[0].output == Join(GetVersionDirectory(version), PlannedDownloads(DppConfig(), version)[0].filename)
  {
    DppPlanIsFull(version);
    var d := Descriptor(ContextUrlPath(DppModelName), "dpp" + ".context.jsonld");
    assert DppConfig().artefacts.context == Some(d);
    var item := PlannedDownloads(DppConfig(), version)[0];
    calc {
      item;
      ItemFor(DppConfig(), Context, version);
      DownloadItem(DppConfig().name + " " + Label(Context), DppArtefactsBaseUrl(version) + "/" + d.urlPath, d.filename);
    }
  }

  /** The schema item of the list matches the schema item of the registry's `dpp` plan. */
  lemma DppSchemaDownloadIsPlanned(version: string)
    ensures |PlannedDownloads(DppConfig(), version)| == 4
    ensures DppDownloads(version)[1].url == PlannedDownloads(DppConfig(), version)[1].url
    ensures DppDownloads(version)[1].output == Join(GetVersionDirectory(version), PlannedDownloads(DppConfig(), version)[1].filename)
  {
    DppPlanIsFull(version);
    var d := Descriptor(SchemaUrlPath(DppModelName), "dpp" + ".schema.json");
    assert DppConfig().artefacts.schema == Some(d);
    var item := PlannedDownloads(DppConfig(), version)[1];
    calc {
      item;
      ItemFor(DppConfig(), Schema, version);
      DownloadItem(DppConfig().name + " " + Label(Schema), DppArtefactsBaseUrl(version) + "/" + d.urlPath, d.filename);
    }
  }

  /** The sample item of the list matches the sample item of the registry's `dpp` plan. */
  lemma DppSampleDownloadIsPlanned(version: string)
    ensures |PlannedDownloads(DppConfig(), version)| == 4
    ensures DppDownloads(version)[2].url == PlannedDownloads(DppConfig(), version)[3].url
    ensures DppDownloads(version)[2].output == Join(GetVersionDirectory(version), PlannedDownloads(DppConfig(), version)[3].filename)
  {
    DppPlanIsFull(version);
    var d := Descriptor(SampleUrlPath(DppModelName), "dpp" + ".sample.json");
    assert DppConfig().artefacts.sample == Some(d);
    var item := PlannedDownloads(DppConfig(), version)[3];
    calc {
      item;
      ItemFor(DppConfig(), Sample, version);
      DownloadItem(DppConfig().name + " " + Label(Sample), DppArtefactsBaseUrl(version) + "/" + d.urlPath, d.filename);
    }
  }

  /**
   * The hard-coded list fetches from the same URLs and saves under the same
   * names as the registry's `dpp` plan, except that it leaves out the
   * vocabulary: its items are the plan's context, schema and sample.
   */
  lemma DppDownloadsFollowRegistry(version: string)
    ensures var d := DppDownloads(version);
      var plan := PlannedDownloads(ConfigOf(Dpp), version);
      var dir := GetVersionDirectory(version);
      && |d| == 3 && |plan| == 4
      && d[0].url == plan[0].url && d[0].output == Join(dir, plan[0].filename)
      && d[1].url == plan[1].url && d[1].output == Join(dir, plan[1].filename)
      && d[2].url == plan[3].url && d[2].output == Join(dir, plan[3].filename)
  {
    DppContextDownloadIsPlanned(version);
    DppSchemaDownloadIsPlanned(version);
    DppSampleDownloadIsPlanned(version);
    assert ConfigOf(Dpp) == DppConfig();
  }

  /** No item of the hard-coded list is saved as the vocabulary. */
  lemma DppDownloadsSkipVocabulary(version: string)
    ensures forall i :: 0 <= i < 3 ==> BaseName(DppDownloads(version)[i].output) != "dpp.vocabulary.jsonld"
  {
    var dir := GetVersionDirectory(version);
    BaseNameOfJoin(dir, "dpp.context.jsonld");
    BaseNameOfJoin(dir, "dpp.schema.json");
    BaseNameOfJoin(dir, SampleFile);
    assert "dpp.context.jsonld"[4] != "dpp.vocabulary.jsonld"[4];
    assert "dpp.schema.json"[4] != "dpp.vocabulary.jsonld"[4];
    assert SampleFile[5] != "dpp.vocabulary.jsonld"[5];
  }

  /**
   * What the scripts' surroundings do: which files already exist, which URLs
   * can be fetched and saved, whether the version directory can be created,
   * the parsed sample (`None` when it cannot be read or parsed), whether it can
   * be written back, and whether `runJsonLdExpand` succeeds.
   */
  datatype Environment = Environment(
    existing: set<string>,
    fetchable: set<string>,
    mkdirSucceeds: bool,
    sample: Option<Document>,
    writable: bool,
    expandSucceeds: bool)

  /**
   * The outcome of `downloadFile(url, outputPath)`: `Some(false)` when the file
   * is already there, `Some(true)` when it is fetched and saved, `None` when
   * it throws.
   */
  function DownloadFile(env: Environment, url: string, output: string): (r: Option<bool>)
    ensures r == Some(false) <==> output in env.existing
    ensures r == Some(true) <==> output !in env.existing && url in env.fetchable
  {
    if output in env.existing then Some(false)
    else if url in env.fetchable then Some(true)
    else None
  }

  /** An item after the loop has recorded its download. */
  function Recorded(env: Environment, d: Download): Download {
    d.(wasDownloaded := DownloadFile(env, d.url, d.output))
  }

  /**
   * The loop `for (const download of downloads)`: downloads each item in order
   * and records `wasDownloaded` on it; `false` stands for the
   * `process.exit(1)` taken at the first download that throws.
   */
  method DownloadAll(downloads: array<Download>, env: Environment) returns (ok: bool)
    modifies downloads
    ensures ok <==> forall i :: 0 <= i < downloads.Length ==> DownloadFile(env, old(downloads[i]).url, old(downloads[i]).output).Some?
    ensures ok ==> forall i :: 0 <= i < downloads.Length ==> downloads[i] == Recorded(env, old(downloads[i]))
  {
    var i := 0;
    while i < downloads.Length
      invariant 0 <= i <= downloads.Length
      invariant forall j :: 0 <= j < i ==> DownloadFile(env, old(downloads[j]).url, old(downloads[j]).output).Some?
      invariant forall j :: 0 <= j < i ==> downloads[j] == Recorded(env, old(downloads[j]))
      invariant forall j :: i <= j < downloads.Length ==> downloads[j] == old(downloads[j])
    {
      var result := DownloadFile(env, downloads[i].url, downloads[i].output);
      if result.None? {
        return false;
      }
      downloads[i] := downloads[i].(wasDownloaded := result);
      i := i + 1;
    }
    return true;
  }

  /** `downloads.some((d) => path.basename(d.output) === "dpp.sample.json" && d.wasDownloaded)` */
  predicate ShouldRewriteSample(downloads: seq<Download>) {
    exists i :: 0 <= i < |downloads| && BaseName(downloads[i].output) == SampleFile && downloads[i].wasDownloaded == Some(true)
  }

  /** Every download of the list succeeds (is already there or can be fetched). */
  predicate AllDownloadsSucceed(env: Environment, version: string) {
    forall i :: 0 <= i < 3 ==> DownloadFile(env, DppDownloads(version)[i].url, DppDownloads(version)[i].output).Some?
  }

  /** The sample is fetched in this run rather than found on disk. */
  predicate SampleIsFresh(env: Environment, version: string) {
    SamplePath(version) !in env.existing
  }

  /** After the loop, the rewrite condition holds exactly when the sample was fetched in this run. */
  lemma RewriteOnlyFreshSample(env: Environment, version: string)
    requires AllDownloadsSucceed(env, version)
    ensures var recorded := seq(3, i requires 0 <= i < 3 => Recorded(env, DppDownloads(version)[i]));
      ShouldRewriteSample(recorded) <==> SampleIsFresh(env, version)
  {
    var d := DppDownloads(version);
    var recorded := seq(3, i requires 0 <= i < 3 => Recorded(env, d[i]));
    var dir := Join(DownloadsDir, version);
    BaseNameOfJoin(dir, "dpp.context.jsonld");
    BaseNameOfJoin(dir, "dpp.schema.json");
    BaseNameOfJoin(dir, SampleFile);
    assert "dpp.context.jsonld"[4] != SampleFile[4];
    assert "dpp.schema.json"[5] != SampleFile[5];
    assert d[2].output == SamplePath(version);
    if SampleIsFresh(env, version) {
      assert BaseName(recorded[2].output) == SampleFile && recorded[2].wasDownloaded == Some(true);
    }
  }

  /**
   * `downloadUntpVersion(version)`, ending in the exit code (0 when it returns
   * normally) and the sample written by the rewrite, if it ran. The check that
   * the sample exists after the loop is not modelled: in this file system a
   * successful loop leaves every listed file in place.
   */
  method DownloadUntpVersion(version: string, env: Environment) returns (exitCode: int, rewritten: Option<Document>)
    ensures exitCode == 0 || exitCode == 1
    ensures exitCode == 0 <==>
      && env.mkdirSucceeds && AllDownloadsSucceed(env, version)
      && (SampleIsFresh(env, version) ==> env.sample.Some? && env.writable)
      && env.expandSucceeds
    ensures rewritten.Some? ==> SampleIsFresh(env, version) && env.sample.Some?
    ensures rewritten.Some? ==> rewritten.value == UpdatedSample(env.sample.value, version)
    ensures rewritten.Some? <==>
      env.mkdirSucceeds && AllDownloadsSucceed(env, version) && SampleIsFresh(env, version) && env.sample.Some? && env.writable
  {
    rewritten := None;
    if !env.mkdirSucceeds {
      return 1, None;
    }
    var list := DppDownloads(version);
    var downloads := new Download[3](i requires 0 <= i < 3 => list[i]);
    assert downloads[..] == list;
    var ok := DownloadAll(downloads, env);
    if !ok {
      assert !AllDownloadsSucceed(env, version);
      return 1, None;
    }
    assert AllDownloadsSucceed(env, version);
    RewriteOnlyFreshSample(env, version);
    assert downloads[..] == seq(3, i requires 0 <= i < 3 => Recorded(env, list[i]));
    if ShouldRewriteSample(downloads[..]) {
      var success, written := UpdateSampleContext(env.sample, env.writable, version);
      if !success {
        return 1, None;
      }
      rewritten := written;
    }
    if !env.expandSucceeds {
      return 1, rewritten;
    }
    return 0, rewritten;
  }

  /** What the command line asks for: the usage text with the exit code that follows it, or a test of `argv[2]`. */
  datatype Invocation = ShowUsage(exitCode: int) | TestVersion(version: string)

  /** The check on `process.argv` before `downloadUntpVersion` runs. */
  function ParseArgv(argv: seq<string>): (r: Invocation)
    ensures r.ShowUsage? <==> |argv| < 3
    ensures r.ShowUsage? ==> r.exitCode == 1
    ensures r.TestVersion? ==> r.version == argv[2]
  {
    if |argv| < 3 then ShowUsage(1) else TestVersion(argv[2])
  }
}
