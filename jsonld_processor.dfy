/**
 * The `@context` rewrite of `createLocalContextSample`: the first string
 * entry of a sample's `@context` array that contains the legacy context URL is
 * replaced by the local context file, and for `dlp` samples a second pass
 * does the same for the `dpp` context. Also the document loader's test of
 * whether a URL names a local file.
 */
module JsonLdProcessor {
  import opened Wrappers
  import opened JsStrings
  import opened FileUtils
  import opened ArtefactConfig

  /**
   * A JSON value, as far as the rewrite can tell values apart: strings (which
   * it inspects), arrays (what `@context` must be for the rewrite to run), and
   * every other value (objects, numbers, booleans, `null`), which it never looks into.
   */
  datatype JsonValue = JStr(s: string) | JArray(items: seq<JsonValue>) | JOpaque

  /** A parsed sample: its top-level members by name. */
  type Document = map<string, JsonValue>

  const ContextKey := "@context"

  /** The `@context` array of a document, when it has one; a missing or non-array `@context` is left alone. */
  function ContextArray(doc: Document): (r: Option<seq<JsonValue>>)
    ensures r.Some? <==> ContextKey in doc && doc[ContextKey].JArray?
    ensures r.Some? ==> doc[ContextKey] == JArray(r.value)
  {
    if ContextKey in doc && doc[ContextKey].JArray? then Some(doc[ContextKey].items) else None
  }

  /** The entry test of the rewrite loops: a string that contains `pattern`. */
  predicate Matches(e: JsonValue, pattern: string) {
    e.JStr? && Includes(e.s, pattern)
  }

  /** The first index at or after `from` whose entry matches `pattern`. */
  function FirstMatchFrom(entries: seq<JsonValue>, pattern: string, from: nat): (r: Option<nat>)
    requires from <= |entries|
    ensures r.Some? ==> from <= r.value < |entries| && Matches(entries[r.value], pattern)
    ensures r.Some? ==> forall j :: from <= j < r.value ==> !Matches(entries[j], pattern)
    ensures r.None? ==> forall j :: from <= j < |entries| ==> !Matches(entries[j], pattern)
    decreases |entries| - from
  {
    if from == |entries| then None
    else if Matches(entries[from], pattern) then Some(from)
    else FirstMatchFrom(entries, pattern, from + 1)
  }

  /** The index the rewrite loop stops at, if any. */
  function FirstMatch(entries: seq<JsonValue>, pattern: string): (r: Option<nat>)
    ensures r.Some? ==> r.value < |entries| && Matches(entries[r.value], pattern)
    ensures r.Some? ==> forall j :: 0 <= j < r.value ==> !Matches(entries[j], pattern)
    ensures r.None? <==> forall j :: 0 <= j < |entries| ==> !Matches(entries[j], pattern)
  {
    FirstMatchFrom(entries, pattern, 0)
  }

  /**
   * One pass of the rewrite: the first entry matching `pattern` becomes the
   * string `rep`. The length is kept; an entry that does not match (every
   * non-string entry among them) is kept; the first match is replaced; every
   * entry after a match is kept, so later matches survive; and with no match
   * nothing changes.
   */
  function ReplaceFirstMatch(entries: seq<JsonValue>, pattern: string, rep: string): (r: seq<JsonValue>)
    ensures |r| == |entries|
    ensures forall j :: 0 <= j < |entries| && !Matches(entries[j], pattern) ==> r[j] == entries[j]
    ensures forall i ::
              (0 <= i < |entries| && Matches(entries[i], pattern) && forall j :: 0 <= j < i ==> !Matches(entries[j], pattern))
              ==> r[i] == JStr(rep)
    ensures forall i, j :: 0 <= i < j < |entries| && Matches(entries[i], pattern) ==> r[j] == entries[j]
    ensures (forall j :: 0 <= j < |entries| ==> !Matches(entries[j], pattern)) ==> r == entries
  {
    match FirstMatch(entries, pattern)
    case None => entries
    case Some(i) => entries[i := JStr(rep)]
  }

  /**
   * The loop `for (i = 0; i < a.length; i++) if (typeof a[i] === "string" &&
   * a[i].includes(pattern)) { a[i] = rep; break; }`, on the array itself.
   */
  method ReplaceFirstInPlace(a: array<JsonValue>, pattern: string, rep: string)
    modifies a
    ensures a[..] == ReplaceFirstMatch(old(a[..]), pattern, rep)
  {
    var i := 0;
    while i < a.Length
      invariant 0 <= i <= a.Length
      invariant a[..] == old(a[..])
      invariant forall j :: 0 <= j < i ==> !Matches(a[j], pattern)
    {
      if a[i].JStr? && Includes(a[i].s, pattern) {
        assert FirstMatch(a[..], pattern) == Some(i);
        a[i] := JStr(rep);
        return;
      }
      i := i + 1;
    }
  }

  /** The local context file whose samples get the second, `dpp` pass. */
  const DlpLocalContextFile := "./dlp.context.jsonld"
  /** `https://test.uncefact.org/vocabulary/untp/dpp/`: the prefix of every `dpp` legacy context URL, which the second pass looks for. */
  const DppUrlPrefix := UntpVocabulary("dpp").head
  /** What the second pass puts in place of the `dpp` context URL. */
  const DppLocalContextFile := "./dpp.context.jsonld"

  /** Both passes of the rewrite on the entries of an `@context` array. */
  function LocalizedEntries(entries: seq<JsonValue>, contextPattern: string, localContextFile: string): seq<JsonValue> {
    var once := ReplaceFirstMatch(entries, contextPattern, localContextFile);
    if localContextFile == DlpLocalContextFile then ReplaceFirstMatch(once, DppUrlPrefix, DppLocalContextFile) else once
  }

  /** The document `createLocalContextSample` writes: the sample with its `@context` array rewritten. */
  function LocalizedDocument(doc: Document, contextPattern: string, localContextFile: string): Document {
    match ContextArray(doc)
    case None => doc
    case Some(entries) => doc[ContextKey := JArray(LocalizedEntries(entries, contextPattern, localContextFile))]
  }

  const LocalContextSuffix := ".local-context.json"

  /** `samplePath.replace(".json", ".local-context.json")`: the first `.json` only. */
  function LocalContextPath(samplePath: string): string {
    ReplaceFirst(samplePath, ".json", LocalContextSuffix)
  }

  /**
   * `createLocalContextSample(samplePath, contextPattern, localContextFile)`.
   * The file system is a parameter: `content` is the parsed sample, `None`
   * when reading or parsing it fails, and `writable` says whether writing the
   * new file succeeds. The result is the written path and document, or `None`
   * for the `null` the source returns after catching an error.
   */
  method CreateLocalContextSample(samplePath: string, content: Option<Document>, writable: bool,
                                  contextPattern: string, localContextFile: string)
    returns (written: Option<(string, Document)>)
    ensures content.None? || !writable ==> written.None?
    ensures content.Some? && writable ==>
      written == Some((LocalContextPath(samplePath), LocalizedDocument(content.value, contextPattern, localContextFile)))
  {
    if content.None? {
      return None;
    }
    var doc := content.value;
    if ContextKey in doc && doc[ContextKey].JArray? {
      var items := doc[ContextKey].items;
      var contextArray := new JsonValue[|items|](i requires 0 <= i < |items| => items[i]);
      assert contextArray[..] == items;
      ReplaceFirstInPlace(contextArray, contextPattern, localContextFile);
      if localContextFile == DlpLocalContextFile {
        ReplaceFirstInPlace(contextArray, DppUrlPrefix, DppLocalContextFile);
      }
      doc := doc[ContextKey := JArray(contextArray[..])];
    }
    var localContextPath := LocalContextPath(samplePath);
    if !writable {
      return None;
    }
    written := Some((localContextPath, doc));
  }

  /** Nothing but `@context` changes, and a document without an `@context` array is unchanged. */
  lemma LocalizedDocumentKeepsOtherMembers(doc: Document, contextPattern: string, localContextFile: string)
    ensures var out := LocalizedDocument(doc, contextPattern, localContextFile);
      && out.Keys == doc.Keys
      && (forall k :: k in doc && k != ContextKey ==> out[k] == doc[k])
      && (ContextArray(doc).None? ==> out == doc)
      && (ContextArray(doc).Some? ==> |ContextArray(out).value| == |ContextArray(doc).value|)
  {
  }

  /** The rewrite's first pass stops at the first matching entry and replaces it alone. */
  lemma ReplaceAtFirstMatch(entries: seq<JsonValue>, pattern: string, rep: string, i: nat)
    requires i < |entries| && Matches(entries[i], pattern)
    requires forall k :: 0 <= k < i ==> !Matches(entries[k], pattern)
    ensures ReplaceFirstMatch(entries, pattern, rep) == entries[i := JStr(rep)]
  {
    var r := FirstMatch(entries, pattern);
    assert r.Some?;
    assert !(r.value < i) && !(i < r.value);
  }

  /**
   * For a `dlp` sample, the first entry matching the context pattern becomes
   * the `dlp` local file and, among the other entries, the first one holding a
   * `dpp` URL becomes the `dpp` local file; every other entry is unchanged.
   * The first replacement is never undone, because the `dlp` local file holds
   * no `dpp` URL.
   */
  lemma DlpPassesReplaceBoth(entries: seq<JsonValue>, contextPattern: string, i: nat, j: nat)
    requires i < |entries| && Matches(entries[i], contextPattern)
    requires forall k :: 0 <= k < i ==> !Matches(entries[k], contextPattern)
    requires j < |entries| && j != i && Matches(entries[j], DppUrlPrefix)
    requires forall k :: 0 <= k < j && k != i ==> !Matches(entries[k], DppUrlPrefix)
    ensures LocalizedEntries(entries, contextPattern, DlpLocalContextFile)
         == entries[i := JStr(DlpLocalContextFile)][j := JStr(DppLocalContextFile)]
  {
    ReplaceAtFirstMatch(entries, contextPattern, DlpLocalContextFile, i);
    var once := entries[i := JStr(DlpLocalContextFile)];
    MissingCharExcludes(DlpLocalContextFile, DppUrlPrefix, 'h');
    forall k | 0 <= k < j ensures !Matches(once[k], DppUrlPrefix) {
      if k != i {
        assert once[k] == entries[k];
      }
    }
    ReplaceAtFirstMatch(once, DppUrlPrefix, DppLocalContextFile, j);
  }

  /** The local context file of the key `id` is the `dlp` one exactly when `id` is `dlp`. */
  lemma LocalFileOfId(id: string)
    ensures "./" + id + ".context.jsonld" == DlpLocalContextFile <==> id == "dlp"
  {
    var f := "./" + id + ".context.jsonld";
    if f == DlpLocalContextFile {
      assert |id| == 3;
      assert f[2..5] == id;
      assert DlpLocalContextFile[2..5] == "dlp";
    }
  }

  /** Only the `dlp` entry of the registry triggers the second pass. */
  lemma SecondPassOnlyForDlp(t: UntpType)
    ensures ConfigOf(t).localContextFile == DlpLocalContextFile <==> t == Dlp
  {
    RegistryNaming(t);
    LocalFileOfId(Id(t));
    assert Id(t) == "dlp" <==> t == Dlp;
  }

  /** The registered `dpp` legacy context URL of any version is what the `dlp` second pass looks for. */
  lemma DppContextCarriesDppPrefix(version: string)
    ensures Matches(JStr(ConfigOf(Dpp).contextPattern.Apply(version)), DppUrlPrefix)
  {
    var u := ConfigOf(Dpp).contextPattern.Apply(version);
    assert u == DppUrlPrefix + version + "/";
    assert OccursAt(u, DppUrlPrefix, 0);
  }

  /** For a name whose only `j` is in its `.json` ending, the local-context path swaps that ending. */
  lemma LocalContextPathOfJsonName(head: string)
    requires 'j' !in head
    ensures LocalContextPath(head + ".json") == head + LocalContextSuffix
  {
    var s := head + ".json";
    forall k: nat | k < |head|
      ensures !OccursAt(s, ".json", k)
    {
      if k + 1 < |head| {
        assert s[k + 1] == head[k + 1];
        assert head[k + 1] in head;
      } else {
        assert s[k + 1] == '.';
      }
      assert s[k + 1] != 'j';
      assert k + 5 <= |s| ==> s[k..k + 5][1] == s[k + 1];
    }
    assert s[|head|..|head| + 5] == ".json";
    ReplaceFirstAt(s, ".json", LocalContextSuffix, |head|);
    assert s[..|head|] == head;
    assert s[|head| + 5..] == [];
  }

  /** A sample path ends in `.sample.json`, and its only `j` is in that ending when the version and prefix have none. */
  lemma SamplePathShape(version: string, prefix: string)
    requires 'j' !in version && 'j' !in prefix
    ensures var head := GetVersionDirectory(version) + "/" + (prefix + ".sample");
      && 'j' !in head
      && CreateArtefactPaths(version, prefix).samplePath == head + ".json"
  {
    assert 'j' !in DownloadsDir;
    assert SampleSuffix == ".sample" + ".json";
  }

  /**
   * With no `j` in the version or the prefix, the local-context copy of a
   * sample sits next to it, named `<prefix>.sample.local-context.json`.
   */
  lemma LocalContextPathOfSample(version: string, prefix: string)
    requires 'j' !in version && 'j' !in prefix
    ensures LocalContextPath(CreateArtefactPaths(version, prefix).samplePath)
         == Join(GetVersionDirectory(version), prefix + ".sample" + LocalContextSuffix)
  {
    var dir := GetVersionDirectory(version);
    var head := dir + "/" + (prefix + ".sample");
    SamplePathShape(version, prefix);
    calc {
      LocalContextPath(CreateArtefactPaths(version, prefix).samplePath);
      LocalContextPath(head + ".json");
      { LocalContextPathOfJsonName(head); }
      head + LocalContextSuffix;
      Join(dir, prefix + ".sample" + LocalContextSuffix);
    }
  }

  /** The document loader's test (`documentLoader` of `runJsonLdExpand`): a URL names a local file. */
  predicate IsLocalUrl(url: string) {
    StartsWith(url, "./") || !Includes(url, "://")
  }

  /** Any `https://` URL goes to the remote loader. */
  lemma HttpsUrlIsRemote(url: string)
    requires StartsWith(url, Https)
    ensures !IsLocalUrl(url)
  {
    assert url[..8] == Https;
    assert url[5..8] == url[..8][5..8];
    assert OccursAt(url, "://", 5);
    assert url[0] == 'h';
  }

  /**
   * For an entry named after its key whose URL templates are `https://`
   * URLs, the local context file is loaded locally, and the legacy context
   * URL, the base URL and every download URL of every version are fetched
   * remotely.
   */
  lemma EntryUrlsByLoader(c: ArtefactTypeConfig, id: string, version: string)
    requires NamedAfter(c, id)
    requires StartsWith(c.baseUrl.head, Https) && StartsWith(c.contextPattern.head, Https)
    ensures IsLocalUrl(c.localContextFile)
    ensures !IsLocalUrl(c.contextPattern.Apply(version))
    ensures !IsLocalUrl(c.baseUrl.Apply(version))
    ensures forall k :: DescriptorOf(c.artefacts, k).Some? ==> !IsLocalUrl(ItemFor(c, k, version).url)
  {
    HttpsTemplate(c.contextPattern, version);
    HttpsTemplate(c.baseUrl, version);
    HttpsUrlIsRemote(c.contextPattern.Apply(version));
    HttpsUrlIsRemote(c.baseUrl.Apply(version));
    assert c.localContextFile[..2] == "./";
    forall k | DescriptorOf(c.artefacts, k).Some?
      ensures !IsLocalUrl(ItemFor(c, k, version).url)
    {
      var base := c.baseUrl.Apply(version);
      var tail := "/" + DescriptorOf(c.artefacts, k).value.urlPath;
      StartsWithAppend(base, Https, tail);
      assert ItemFor(c, k, version).url == base + tail;
      HttpsUrlIsRemote(base + tail);
    }
  }

  /**
   * The files a rewrite puts in `@context` are loaded locally, and every
   * registered legacy context URL, base URL and download URL is fetched
   * remotely.
   */
  lemma RegistryUrlsByLoader(t: UntpType, version: string)
    ensures IsLocalUrl(ConfigOf(t).localContextFile)
    ensures IsLocalUrl(DppLocalContextFile)
    ensures !IsLocalUrl(ConfigOf(t).contextPattern.Apply(version))
    ensures !IsLocalUrl(ConfigOf(t).baseUrl.Apply(version))
    ensures forall k :: DescriptorOf(ConfigOf(t).artefacts, k).Some? ==> !IsLocalUrl(ItemFor(ConfigOf(t), k, version).url)
  {
    RegistryNaming(t);
    EntryUrlsByLoader(ConfigOf(t), Id(t), version);
    assert DppLocalContextFile[..2] == "./";
  }
}
