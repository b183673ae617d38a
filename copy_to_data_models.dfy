/**
 * `copy-to-data-models.js`: copies the downloaded artefacts of each chosen
 * type from `downloads/<version>` into `<data-models>/untp-<type>` under the
 * names the data-models repository uses, and parses the command line that
 * chooses the types. The file system is a `FileSystem` value given as a parameter.
 */
module CopyToDataModels {
  import opened Wrappers
  import opened JsStrings
  import opened FileUtils
  import opened ArtefactConfig

  /** The object `generateFileMappings` returns; `files` lists the entries of its `files` object in insertion order. */
  datatype FileMappings = FileMappings(targetDir: string, files: seq<(string, string)>)

  /** `generateFileMappings(type)`: downloaded file name to data-models path, per type. */
  function GenerateFileMappings(untpType: string): FileMappings {
    var both := [(untpType + ".vocabulary.jsonld", "vocabulary.jsonld"),
                 (untpType + ".context.jsonld", "artefacts/context.jsonld")];
    var files :=
      if untpType != "core" then
        both + [(untpType + ".schema.json", "artefacts/untp-" + untpType + "-schema.json"),
                (untpType + ".sample.json", "artefacts/untp-" + untpType + "-instance.json")]
      else both;
    FileMappings("untp-" + untpType, files)
  }

  /** The source names of a mapping table, as a set. */
  function Sources(files: seq<(string, string)>): set<string> {
    set i | 0 <= i < |files| :: files[i].0
  }

  /**
   * `core` maps only its vocabulary and context; every other type also its
   * schema and sample; the target directory is `untp-<type>`.
   */
  lemma MappingShape(untpType: string)
    ensures var m := GenerateFileMappings(untpType);
      && m.targetDir == "untp-" + untpType
      && |m.files| == (if untpType == "core" then 2 else 4)
      && m.files[0] == (untpType + ".vocabulary.jsonld", "vocabulary.jsonld")
      && m.files[1] == (untpType + ".context.jsonld", "artefacts/context.jsonld")
      && (untpType != "core" ==>
            && m.files[2] == (untpType + ".schema.json", "artefacts/untp-" + untpType + "-schema.json")
            && m.files[3] == (untpType + ".sample.json", "artefacts/untp-" + untpType + "-instance.json"))
  {
  }

  /** No two files are copied to the same place: the targets are pairwise distinct. */
  lemma MappingTargetsDistinct(untpType: string)
    ensures var files := GenerateFileMappings(untpType).files;
      forall i, j :: 0 <= i < j < |files| ==> files[i].1 != files[j].1
  {
    var files := GenerateFileMappings(untpType).files;
    var n := |"artefacts/untp-" + untpType + "-"|;
    assert files[0].1[0] == 'v' && files[1].1[0] == 'a';
    assert files[1].1[10] == 'c';
    if untpType != "core" {
      assert files[2].1[0] == 'a' && files[3].1[0] == 'a';
      assert files[2].1[10] == 'u' && files[3].1[10] == 'u';
      assert files[2].1[n] == 's' && files[3].1[n] == 'i';
    }
  }

  /** No two entries share a source name, so none of the object's properties overwrites another. */
  lemma MappingSourcesDistinct(untpType: string)
    ensures var files := GenerateFileMappings(untpType).files;
      forall i, j :: 0 <= i < j < |files| ==> files[i].0 != files[j].0
  {
    var files := GenerateFileMappings(untpType).files;
    var n := |untpType|;
    assert files[0].0[n + 1] == 'v' && files[1].0[n + 1] == 'c';
    if untpType != "core" {
      assert files[2].0[n + 1] == 's' && files[3].0[n + 1] == 's';
      assert files[2].0[n + 2] == 'c' && files[3].0[n + 2] == 'a';
    }
  }

  /** The file name a registry descriptor saves its artefact under, if the artefact is published. */
  function SavedAs(a: Artefacts, k: ArtefactKind): Option<string> {
    match DescriptorOf(a, k)
    case None => None
    case Some(d) => Some(d.filename)
  }

  /**
   * For an entry whose files are named after `id`, and which lacks a schema
   * and a sample exactly when `id` is `core`, the mapping of `id` copies
   * exactly the files the entry saves.
   */
  lemma MappingCoversNamedArtefacts(c: ArtefactTypeConfig, id: string)
    requires NamedAfter(c, id)
    requires c.artefacts.schema.None? <==> id == "core"
    requires c.artefacts.sample.None? <==> id == "core"
    ensures forall f :: f in Sources(GenerateFileMappings(id).files)
                    <==> exists k :: SavedAs(c.artefacts, k) == Some(f)
  {
    var a := c.artefacts;
    var files := GenerateFileMappings(id).files;
    assert SavedAs(a, Vocabulary) == Some(files[0].0);
    assert SavedAs(a, Context) == Some(files[1].0);
    if id != "core" {
      assert SavedAs(a, Schema) == Some(files[2].0);
      assert SavedAs(a, Sample) == Some(files[3].0);
    }
    forall f | f in Sources(files)
      ensures exists k :: SavedAs(a, k) == Some(f)
    {
      var i :| 0 <= i < |files| && files[i].0 == f;
      if i == 0 {
        assert SavedAs(a, Vocabulary) == Some(f);
      } else if i == 1 {
        assert SavedAs(a, Context) == Some(f);
      } else if i == 2 {
        assert SavedAs(a, Schema) == Some(f);
      } else {
        assert SavedAs(a, Sample) == Some(f);
      }
    }
    forall f, k | SavedAs(a, k) == Some(f)
      ensures f in Sources(files)
    {
      match k
      case Vocabulary => assert files[0].0 == f;
      case Context => assert files[1].0 == f;
      case Schema => assert files[2].0 == f;
      case Sample => assert files[3].0 == f;
    }
  }

  /**
   * For a registered type the mapping copies exactly the files the registry
   * saves for it: every source is a registered file name and every
   * registered file name is a source.
   */
  lemma MappingCoversRegisteredFiles(t: UntpType)
    ensures forall f :: f in Sources(GenerateFileMappings(Id(t)).files)
                    <==> exists k :: SavedAs(ConfigOf(t).artefacts, k) == Some(f)
  {
    RegistryNaming(t);
    assert Id(t) == "core" <==> t == Core;
    MappingCoversNamedArtefacts(ConfigOf(t), Id(t));
  }

  /**
   * What the copy loops see of the file system: the paths that exist (files
   * and directories), and the (source, target) pairs whose `copyFile` fails
   * in reading or writing.
   */
  datatype FileSystem = FileSystem(present: set<string>, failingCopies: set<(string, string)>)

  /** One entry is copied: its source exists and `copyFile` succeeds. */
  predicate Copies(fs: FileSystem, sourceDir: string, targetDir: string, entry: (string, string)) {
    && Join(sourceDir, entry.0) in fs.present
    && (Join(sourceDir, entry.0), Join(targetDir, entry.1)) !in fs.failingCopies
  }

  /** How many entries of a mapping table are copied. */
  function CopiedCount(fs: FileSystem, sourceDir: string, targetDir: string, files: seq<(string, string)>): (n: nat)
    ensures n <= |files|
    ensures n == |files| <==> forall i :: 0 <= i < |files| ==> Copies(fs, sourceDir, targetDir, files[i])
    ensures n == 0 <==> forall i :: 0 <= i < |files| ==> !Copies(fs, sourceDir, targetDir, files[i])
  {
    if files == [] then 0
    else
      var last := files[|files| - 1];
      var rest := files[..|files| - 1];
      assert forall i :: 0 <= i < |rest| ==> rest[i] == files[i];
      CopiedCount(fs, sourceDir, targetDir, rest) + (if Copies(fs, sourceDir, targetDir, last) then 1 else 0)
  }

  /** The directory a version's downloads are read from. */
  function SourceVersionDir(version: string): string {
    Join(DownloadsDir, version)
  }

  /** Whether `copyType` returns `true`: the downloads exist and at least one file is copied. */
  predicate TypeIsCopied(fs: FileSystem, untpType: string, version: string, dataModelsDir: string) {
    var mapping := GenerateFileMappings(untpType);
    && SourceVersionDir(version) in fs.present
    && CopiedCount(fs, SourceVersionDir(version), Join(dataModelsDir, mapping.targetDir), mapping.files) > 0
  }

  /**
   * `copyType(type, version, dataModelsDir)`, returning its result and the
   * `copiedCount` it reports. Without the version's download directory
   * nothing is copied; otherwise every mapping entry whose source exists is
   * copied, and the result says whether any was.
   */
  method CopyType(fs: FileSystem, untpType: string, version: string, dataModelsDir: string)
    returns (ok: bool, copiedCount: nat)
    ensures var mapping := GenerateFileMappings(untpType);
      copiedCount <= |mapping.files|
    ensures SourceVersionDir(version) !in fs.present ==> !ok && copiedCount == 0
    ensures SourceVersionDir(version) in fs.present ==>
      var mapping := GenerateFileMappings(untpType);
      copiedCount == CopiedCount(fs, SourceVersionDir(version), Join(dataModelsDir, mapping.targetDir), mapping.files)
    ensures ok <==> copiedCount > 0
    ensures ok <==> TypeIsCopied(fs, untpType, version, dataModelsDir)
  {
    var mapping := GenerateFileMappings(untpType);
    var sourceVersionDir := Join(DownloadsDir, version);
    var targetTypeDir := Join(dataModelsDir, mapping.targetDir);
    if sourceVersionDir !in fs.present {
      return false, 0;
    }
    copiedCount := 0;
    var totalCount := |mapping.files|;
    for i := 0 to totalCount
      invariant copiedCount == CopiedCount(fs, sourceVersionDir, targetTypeDir, mapping.files[..i])
    {
      var (sourceFile, targetFile) := mapping.files[i];
      var sourcePath := Join(sourceVersionDir, sourceFile);
      var targetPath := Join(targetTypeDir, targetFile);
      assert mapping.files[..i + 1][..i] == mapping.files[..i];
      if sourcePath !in fs.present {
        continue;
      }
      var success := (sourcePath, targetPath) !in fs.failingCopies;
      if success {
        copiedCount := copiedCount + 1;
      }
    }
    assert mapping.files[..totalCount] == mapping.files;
    ok := copiedCount > 0;
  }

  /** How many of `items` satisfy `p`, counted from the front as a loop counts them. */
  function CountWhere<T>(items: seq<T>, p: T -> bool): (n: nat)
    ensures n <= |items|
  {
    if items == [] then 0
    else CountWhere(items[..|items| - 1], p) + (if p(items[|items| - 1]) then 1 else 0)
  }

  /** The count reaches the length exactly when every item satisfies `p`. */
  lemma {:induction false} CountWhereAll<T>(items: seq<T>, p: T -> bool)
    ensures CountWhere(items, p) == |items| <==> forall i :: 0 <= i < |items| ==> p(items[i])
    decreases |items|
  {
    if items != [] {
      var rest := items[..|items| - 1];
      CountWhereAll(rest, p);
      assert forall i :: 0 <= i < |rest| ==> rest[i] == items[i];
    }
  }

  /** How many of `types` `copyType` reports as copied. */
  function SucceededCount(fs: FileSystem, types: seq<string>, version: string, dataModelsDir: string): (n: nat)
    ensures n <= |types|
  {
    CountWhere(types, t => TypeIsCopied(fs, t, version, dataModelsDir))
  }

  /** Every type is reported copied exactly when each one is; otherwise the script warns that some copies failed. */
  lemma AllTypesCopied(fs: FileSystem, types: seq<string>, version: string, dataModelsDir: string)
    ensures SucceededCount(fs, types, version, dataModelsDir) == |types|
        <==> forall i :: 0 <= i < |types| ==> TypeIsCopied(fs, types[i], version, dataModelsDir)
  {
    CountWhereAll(types, t => TypeIsCopied(fs, t, version, dataModelsDir));
  }

  /**
   * `copyToDataModels(version, types, dataModelsDir)`, ending in the exit
   * code (0 when it returns normally) and the `successCount` it reports.
   */
  method CopyToDataModels(fs: FileSystem, version: string, types: seq<string>, dataModelsDir: string)
    returns (exitCode: int, successCount: nat)
    ensures successCount <= |types|
    ensures dataModelsDir !in fs.present ==> exitCode == 1 && successCount == 0
    ensures dataModelsDir in fs.present ==>
      exitCode == 0 && successCount == SucceededCount(fs, types, version, dataModelsDir)
  {
    if dataModelsDir !in fs.present {
      return 1, 0;
    }
    successCount := 0;
    for i := 0 to |types|
      invariant successCount == SucceededCount(fs, types[..i], version, dataModelsDir)
    {
      var success, _ := CopyType(fs, types[i], version, dataModelsDir);
      assert types[..i + 1][..i] == types[..i];
      if success {
        successCount := successCount + 1;
      }
    }
    assert types[..|types|] == types;
    exitCode := 0;
  }

  // ---------------------------------------------------------------------------
  // The command line: `parseArgs` on `process.argv.slice(2)`.
  // ---------------------------------------------------------------------------

  /** The options `parseArgs` returns. */
  datatype Options = Options(dataModelsDir: string, version: string, types: seq<string>)

  /** Where `parseArgs` ends: the usage text with an exit code, one of its two error exits (code 1), or the options. */
  datatype ArgsOutcome =
    | ShowUsage(exitCode: int)
    | MissingArguments
    | UnknownType(name: string)
    | Parsed(options: Options)

  /** `args.indexOf(x)`, with `None` for -1. */
  function IndexOfArg(args: seq<string>, x: string): (r: Option<nat>)
    ensures r.Some? ==> r.value < |args| && args[r.value] == x && forall j :: 0 <= j < r.value ==> args[j] != x
    ensures r.None? <==> x !in args
  {
    if args == [] then None
    else if args[0] == x then Some(0)
    else match IndexOfArg(args[1..], x)
      case None => None
      case Some(i) => Some(i + 1)
  }

  /** The value of `--types`: the argument after its first occurrence, when that exists and is not empty. */
  function TypesValue(args: seq<string>): Option<string> {
    match IndexOfArg(args, "--types")
    case Some(i) => if i + 1 < |args| && args[i + 1] != "" then Some(args[i + 1]) else None
    case None => None
  }

  /** `value.split(",").map((t) => t.trim())` */
  function RequestedTypes(value: string): (types: seq<string>)
    ensures |types| == |Split(value, ',')|
    ensures forall i :: 0 <= i < |types| ==> types[i] == Trim(Split(value, ',')[i])
  {
    var parts := Split(value, ',');
    seq(|parts|, i requires 0 <= i < |parts| => Trim(parts[i]))
  }

  /** The first of `types` that is not an available type: the one the validation loop stops at. */
  function FirstUnknown(types: seq<string>): (r: Option<string>)
    ensures r.Some? ==> exists i :: 0 <= i < |types| && types[i] == r.value
                          && r.value !in AvailableTypes()
                          && forall j :: 0 <= j < i ==> types[j] in AvailableTypes()
    ensures r.None? <==> forall i :: 0 <= i < |types| ==> types[i] in AvailableTypes()
  {
    if types == [] then None
    else if types[0] !in AvailableTypes() then Some(types[0])
    else
      var r := FirstUnknown(types[1..]);
      assert forall i :: 1 <= i < |types| ==> types[i] == types[1..][i - 1];
      r
  }

  /** `parseArgs()` on the arguments after the script name. */
  function ParseArgs(args: seq<string>): (r: ArgsOutcome)
    ensures r.ShowUsage? <==> |args| == 0 || "--help" in args
    ensures r.ShowUsage? ==> (r.exitCode == 0 <==> "--help" in args) && (r.exitCode == 0 || r.exitCode == 1)
    ensures r.MissingArguments? <==> |args| == 1 && "--help" !in args
    ensures r.Parsed? ==> r.options.dataModelsDir == args[0] && r.options.version == args[1]
    ensures r.Parsed? ==> forall i :: 0 <= i < |r.options.types| ==> r.options.types[i] in AvailableTypes()
    ensures r.Parsed? && TypesValue(args).None? ==> r.options.types == AvailableTypes()
    ensures r.Parsed? && TypesValue(args).Some? ==> r.options.types == RequestedTypes(TypesValue(args).value)
    ensures |args| >= 2 && "--help" !in args && TypesValue(args).Some? ==>
      (r.UnknownType? <==> exists i :: 0 <= i < |RequestedTypes(TypesValue(args).value)|
                                   && RequestedTypes(TypesValue(args).value)[i] !in AvailableTypes())
    ensures r.UnknownType? ==> TypesValue(args).Some? && r.name !in AvailableTypes()
                               && r.name in RequestedTypes(TypesValue(args).value)
    ensures r.UnknownType? ==> FirstUnknown(RequestedTypes(TypesValue(args).value)) == Some(r.name)
  {
    if |args| == 0 || "--help" in args then
      ShowUsage(if "--help" in args then 0 else 1)
    else if |args| < 2 then
      MissingArguments
    else
      match TypesValue(args)
      case None => Parsed(Options(args[0], args[1], AvailableTypes()))
      case Some(value) =>
        var types := RequestedTypes(value);
        match FirstUnknown(types)
        case Some(name) => UnknownType(name)
        case None => Parsed(Options(args[0], args[1], types))
  }

  /** Without a usable `--types` value, every available type is copied. */
  lemma DefaultIsAllTypes(args: seq<string>)
    requires |args| >= 2 && "--help" !in args
    requires TypesValue(args).None?
    ensures ParseArgs(args) == Parsed(Options(args[0], args[1], AvailableTypes()))
  {
  }

  /** A non-empty word of lower-case letters has no comma, no `-`, and nothing for `trim` to remove. */
  lemma LowerCaseWordIsPlain(w: string)
    requires w != [] && forall k :: 0 <= k < |w| ==> 'a' <= w[k] <= 'z'
    ensures ',' !in w && '-' !in w && Trim(w) == w
  {
    TrimFixed(w);
  }

  /** A word that survives `--types` parsing whole: non-empty, with no comma, no dash and no surrounding whitespace. */
  predicate PlainWord(w: string) {
    w != [] && ',' !in w && '-' !in w && Trim(w) == w
  }

  /** A list of plain words. */
  predicate PlainWords(types: seq<string>) {
    forall i :: 0 <= i < |types| ==> PlainWord(types[i])
  }

  // One lemma per key, with `IdIsPlainWord` dispatching on the type: a single
  // proof over all seven key literals is too costly for the solver.

  lemma DppIdIsPlain()
    ensures PlainWord(Id(Dpp))
  {
    LowerCaseWordIsPlain("dpp");
  }

  lemma DccIdIsPlain()
    ensures PlainWord(Id(Dcc))
  {
    LowerCaseWordIsPlain("dcc");
  }

  lemma DfrIdIsPlain()
    ensures PlainWord(Id(Dfr))
  {
    LowerCaseWordIsPlain("dfr");
  }

  lemma DiaIdIsPlain()
    ensures PlainWord(Id(Dia))
  {
    LowerCaseWordIsPlain("dia");
  }

  lemma DteIdIsPlain()
    ensures PlainWord(Id(Dte))
  {
    LowerCaseWordIsPlain("dte");
  }

  lemma CoreIdIsPlain()
    ensures PlainWord(Id(Core))
  {
    LowerCaseWordIsPlain("core");
  }

  lemma DlpIdIsPlain()
    ensures PlainWord(Id(Dlp))
  {
    LowerCaseWordIsPlain("dlp");
  }

  /** Every registered key is a non-empty lower-case word, so `--types` parsing keeps it whole. */
  lemma IdIsPlainWord(u: UntpType)
    ensures PlainWord(Id(u))
  {
    match u
    case Dpp => DppIdIsPlain();
    case Dcc => DccIdIsPlain();
    case Dfr => DfrIdIsPlain();
    case Dia => DiaIdIsPlain();
    case Dte => DteIdIsPlain();
    case Core => CoreIdIsPlain();
    case Dlp => DlpIdIsPlain();
  }

  lemma AvailableTypesArePlain(types: seq<string>)
    requires forall i :: 0 <= i < |types| ==> types[i] in AvailableTypes()
    ensures PlainWords(types)
  {
    forall i | 0 <= i < |types|
      ensures PlainWord(types[i])
    {
      IdIsPlainWord(FromId(types[i]).value);
    }
  }

  /** Round trip: splitting and trimming a comma-joined list of plain words gives the list back. */
  lemma RequestedTypesOfJoin(types: seq<string>)
    requires |types| >= 1 && PlainWords(types)
    ensures RequestedTypes(JoinWith(types, ",")) == types
  {
    SplitJoin(types, ',');
    var r := RequestedTypes(JoinWith(types, ","));
    assert |r| == |types|;
    forall i | 0 <= i < |types| ensures r[i] == types[i] {
      assert r[i] == Trim(types[i]);
    }
  }

  /** A comma-joined list of plain words is a non-empty string without `-`. */
  lemma {:induction false} CommaJoinHasNoDash(types: seq<string>)
    requires |types| >= 1 && PlainWords(types)
    ensures JoinWith(types, ",") != [] && '-' !in JoinWith(types, ",")
    decreases |types|
  {
    if |types| > 1 {
      CommaJoinHasNoDash(types[1..]);
      assert JoinWith(types, ",") == types[0] + "," + JoinWith(types[1..], ",");
    }
  }

  /** The only `--types` flag in this argument list sits at index 2, and `--help` is absent. */
  lemma TypesArgsShape(dataModelsDir: string, version: string, value: string)
    requires dataModelsDir != "--help" && dataModelsDir != "--types"
    requires version != "--help" && version != "--types"
    requires value != [] && '-' !in value
    ensures TypesValue([dataModelsDir, version, "--types", value]) == Some(value)
    ensures "--help" !in [dataModelsDir, version, "--types", value]
  {
    var args := [dataModelsDir, version, "--types", value];
    assert IndexOfArg(args, "--types") == Some(2) by {
      assert args[0] != "--types" && args[1] != "--types" && args[2] == "--types";
    }
    assert value != "--help" by { assert "--help"[0] == '-'; }
    assert "--types" != "--help" by { assert "--types"[2] != "--help"[2]; }
  }

  /**
   * Round trip: `--types` followed by available types joined with commas
   * selects exactly those types, in that order.
   */
  lemma TypesOptionRoundTrip(dataModelsDir: string, version: string, types: seq<string>)
    requires |types| >= 1
    requires forall i :: 0 <= i < |types| ==> types[i] in AvailableTypes()
    requires dataModelsDir != "--help" && dataModelsDir != "--types"
    requires version != "--help" && version != "--types"
    ensures ParseArgs([dataModelsDir, version, "--types", JoinWith(types, ",")])
         == Parsed(Options(dataModelsDir, version, types))
  {
    AvailableTypesArePlain(types);
    RequestedTypesOfJoin(types);
    CommaJoinHasNoDash(types);
    TypesArgsShape(dataModelsDir, version, JoinWith(types, ","));
  }
}
