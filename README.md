# UNTP artefact tooling: a verified model

This project models the deterministic core of the jargon UNTP tester scripts. The scripts download the published artefacts of UNTP credential types and point samples at local JSON-LD contexts. They also copy downloaded artefacts into a data-models repository. An artefact is a JSON-LD context, a vocabulary, a JSON Schema or a sample.

One Dafny module models each core file:

- `ArtefactConfig` (`scripts/lib/artefact-config.js`) covers the registry `UNTP_ARTEFACT_CONFIGS` of the seven credential types, `getArtefactConfig` and `getAvailableTypes`. It also covers `generateDownloadConfig`, modelled as a method that appends one item per present descriptor. That method is proved against a specification function, `PlannedDownloads`.
- `JsonLdProcessor` (`scripts/lib/jsonld-processor.js`) covers the `@context` rewrite of `createLocalContextSample`. The rewrite is a method that updates an array in place, proved against `ReplaceFirstMatch`. The module also covers the second, `dlp`-only pass, the `.local-context.json` sibling path and the document loader's local-URL test.
- `TestUntpVersion` (`scripts/test-untp-version.js`) covers:
  - `updateSampleContext`;
  - the hard-coded `dpp` download list;
  - the download loop, which records `wasDownloaded` on each item of an array;
  - the rule that rewrites the sample only when it was downloaded in this run;
  - `downloadUntpVersion` as a whole;
  - the `process.argv` check.
- `CopyToDataModels` (`scripts/copy-to-data-models.js`) covers `generateFileMappings`, the counting loops of `copyType` and `copyToDataModels`, and the `--types` handling of `parseArgs`.
- `FileUtils` (`scripts/lib/file-utils.js`) covers `getVersionDirectory`, `getArtefactPath` and `createArtefactPaths`.
- `JsStrings` models the JavaScript built-ins the scripts rely on: `startsWith`, `includes`, `indexOf`, `replace` with a string pattern, `split`, `join` and `trim`. `Wrappers` holds `Option` and `Result`.

The file system, the network and the JSON-LD library are not called. What the scripts learn from them becomes a parameter:
- `TestUntpVersion.Environment` holds the existing files, the fetchable URLs, whether `mkdir`, writing and expansion succeed, and the parsed sample.
- `CopyToDataModels.FileSystem` holds the present paths and the copies that fail.

A JSON value is a string, an array or some other value (`JsonValue`). The rewrite only ever inspects strings and arrays.

Where the code and its surrounding documentation disagree, the model follows the code:
- The documentation gives `test-untp-version` a `--types` option, a type set and a vocabulary download. The script reads only `argv[2]`, always tests `dpp`, and downloads only the context, the schema and the sample. It labels them `DigitalProductPassport context` and so on.
- The documentation lists vocabulary and local-context paths among the paths built per version. `createArtefactPaths` returns only the directory and the context, schema, sample and expanded paths.

## Model

| member | source | states |
|---|---|---|
| ArtefactConfig.DppConfig | scripts/lib/artefact-config.js:7-35 | Definition of the `dpp` entry, with no contract of its own. `DppEntry` and `RegistryNaming` state its naming, and `RegisteredUrlsAreHttps` states its URLs. |
| ArtefactConfig.DccConfig | scripts/lib/artefact-config.js:37-65 | Definition of the `dcc` entry, with no contract of its own. `DccEntry` and `RegistryNaming` state its naming. |
| ArtefactConfig.DfrConfig | scripts/lib/artefact-config.js:67-95 | Definition of the `dfr` entry, with no contract of its own. `DfrEntry` and `RegistryNaming` state its naming. |
| ArtefactConfig.DiaConfig | scripts/lib/artefact-config.js:97-125 | Definition of the `dia` entry, with no contract of its own. `DiaEntry` and `RegistryNaming` state its naming. |
| ArtefactConfig.DteConfig | scripts/lib/artefact-config.js:127-155 | Definition of the `dte` entry, with no contract of its own. `DteEntry` and `RegistryNaming` state its naming. |
| ArtefactConfig.CoreConfig | scripts/lib/artefact-config.js:157-175 | Definition of the `core` entry, which has no schema and no sample. It has no contract of its own. `CoreEntry`, `PlanKindsPerType` and `MappingCoversRegisteredFiles` state its shape. |
| ArtefactConfig.DlpConfig | scripts/lib/artefact-config.js:177-205 | Definition of the `dlp` entry, with no contract of its own. `DlpEntry` and `RegistryNaming` state its naming, and `SecondPassOnlyForDlp` states its local context file. |
| ArtefactConfig.ConfigOf | scripts/lib/artefact-config.js:6-206 | Definition of `UNTP_ARTEFACT_CONFIGS` as a map from type to entry, with no contract of its own. `FromId`, `GetArtefactConfig` and `RegistryNaming` state how it is reached and named. |
| ArtefactConfig.AvailableTypes | scripts/lib/artefact-config.js:224-226 | The available types are exactly `dpp, dcc, dfr, dia, dte, core, dlp`, in the registry's insertion order. |
| ArtefactConfig.FromId | scripts/lib/artefact-config.js:6-206 | A key names a registry entry exactly when it is an available type, and then the entry is registered under that key. |
| ArtefactConfig.GetArtefactConfig | scripts/lib/artefact-config.js:211-219 | The lookup succeeds exactly for the available types and returns the entry registered under the key. Otherwise it fails with the unknown-type message. |
| ArtefactConfig.UnknownTypeMessage | scripts/lib/artefact-config.js:215 | Definition of the unknown-type message text, with no contract of its own. `UnknownTypeMessageNamesType`, `UnknownTypeMessageListsType` and `UnknownTypeErrorListsEveryType` state what it contains. |
| ArtefactConfig.UnknownTypeMessageNamesType | scripts/lib/artefact-config.js:214-216 | The unknown-type message contains the rejected type. |
| ArtefactConfig.UnknownTypeMessageListsType | scripts/lib/artefact-config.js:214-216 | The unknown-type message contains each available type. |
| ArtefactConfig.UnknownTypeErrorListsEveryType | scripts/lib/artefact-config.js:211-216 | Looking up an unregistered type fails, and the error names that type and lists every available type. |
| ArtefactConfig.RegistryNaming | scripts/lib/artefact-config.js:6-206 | In every entry the context, vocabulary, schema and sample files are named `<type>.context.jsonld`, `<type>.vocabulary.jsonld`, `<type>.schema.json` and `<type>.sample.json`. The local context file is `./<type>.context.jsonld`. Only `core` lacks a schema and a sample. Both URL templates start with `https://`. |
| ArtefactConfig.HttpsTemplate | scripts/lib/artefact-config.js:9-10 | A URL template whose fixed head starts with `https://` gives an `https://` URL for every version. |
| ArtefactConfig.RegisteredUrlsAreHttps | scripts/lib/artefact-config.js:6-206 | Every registered base URL and legacy context URL is an `https://` URL, whatever the version. |
| ArtefactConfig.GenerateDownloadConfig | scripts/lib/artefact-config.js:231-281 | The plan fails exactly for unknown types, with the lookup's message. Otherwise it echoes the type and version and carries the entry's name, the context pattern applied to the version and the local context file unchanged. Its downloads are the planned downloads of the entry. |
| ArtefactConfig.PlannedDownloads | scripts/lib/artefact-config.js:237-271 | Definition of the plan as the items of the present kinds in the order context, schema, vocabulary, sample. It has no contract of its own. `PlannedDownloadsUnfold`, `PlannedKindsExactlyPresent`, `PlanItemsFollowDescriptors` and `CollectDownloads` state its properties. |
| ArtefactConfig.CollectDownloads | scripts/lib/artefact-config.js:235-271 | The four conditional pushes produce exactly the planned downloads of the entry. |
| ArtefactConfig.PlannedDownloadsUnfold | scripts/lib/artefact-config.js:237-271 | The plan is the optional context item, then schema, then vocabulary, then sample. |
| ArtefactConfig.PlannedKindsExactlyPresent | scripts/lib/artefact-config.js:237-271 | Planned kinds appear in the fixed order context, schema, vocabulary, sample, with no repeats. A kind is planned exactly when its descriptor is present. |
| ArtefactConfig.PlanItemsFollowDescriptors | scripts/lib/artefact-config.js:239-270 | There is one item per planned kind. Each item is named `<name> <kind>`, fetched from `<baseUrl(version)>/<urlPath>` and saved under the descriptor's filename. |
| ArtefactConfig.PlannedKindsUnfold | scripts/lib/artefact-config.js:237-271 | The planned kinds are exactly the present kinds in plan order. |
| ArtefactConfig.PlannedKindsOfShape | scripts/lib/artefact-config.js:237-271 | An entry with a context and a vocabulary plans all four kinds when it has a schema and a sample, and only the context and the vocabulary when it has neither. |
| ArtefactConfig.PlanKindsPerType | scripts/lib/artefact-config.js:157-175 | `core` plans exactly context and vocabulary. Every other type plans context, schema, vocabulary and sample. |
| ArtefactConfig.PlanSizePerType | scripts/lib/artefact-config.js:237-271 | The plan for `core` has two downloads. Every other type's plan has four. |
| ArtefactConfig.GetArtefactConfigAsWritten | scripts/lib/artefact-config.js:211-213 | The property read finds an own entry exactly where the corrected lookup succeeds. It gives `undefined`, and so the error, only for a key that is neither registered nor inherited from `Object.prototype`. |
| ArtefactConfig.InheritedKeyEscapesUnknownTypeError | scripts/lib/artefact-config.js:211-217 | `"toString"` is not a credential type, yet the lookup as written does not throw the unknown-type error for it. |
| JsonLdProcessor.ContextArray | scripts/lib/jsonld-processor.js:19-20 | The rewrite sees an array exactly when `@context` is present and is an array, and then sees that array's entries. |
| JsonLdProcessor.Matches | scripts/lib/jsonld-processor.js:23-26 | Definition of the entry test `typeof e === "string" && e.includes(pattern)`, which is also used at lines 35-40 and in `scripts/test-untp-version.js` at lines 62-65. It has no contract of its own. `FirstMatch`, `ReplaceFirstMatch` and `DlpPassesReplaceBoth` state which entries it picks. |
| JsonLdProcessor.FirstMatch | scripts/lib/jsonld-processor.js:22-30 | The loop stops at the first string entry containing the pattern. With no such entry it runs to the end. |
| JsonLdProcessor.ReplaceFirstMatch | scripts/lib/jsonld-processor.js:22-30 | The length is kept. The first matching string entry becomes the local file. Entries that do not match, non-strings among them, are kept, as is every entry after the match. With no match nothing changes. |
| JsonLdProcessor.ReplaceFirstInPlace | scripts/lib/jsonld-processor.js:22-30 | The in-place loop with `break` leaves the array equal to `ReplaceFirstMatch` of its old contents. |
| JsonLdProcessor.ReplaceAtFirstMatch | scripts/lib/jsonld-processor.js:22-30 | When entry `i` is the first match, the pass replaces entry `i` and nothing else. |
| JsonLdProcessor.CreateLocalContextSample | scripts/lib/jsonld-processor.js:7-63 | The method gives `null` when the sample cannot be read or parsed, or the output cannot be written. Otherwise it writes the rewritten document, which gets the `dpp` pass only for `./dlp.context.jsonld`, to the `.local-context.json` path. |
| JsonLdProcessor.LocalizedEntries | scripts/lib/jsonld-processor.js:19-46 | Definition of the two rewrite passes over the `@context` entries, with no contract of its own. `DlpPassesReplaceBoth` and `SecondPassOnlyForDlp` state its properties, and `ReplaceFirstMatch` states each pass. |
| JsonLdProcessor.LocalizedDocument | scripts/lib/jsonld-processor.js:19-46 | Definition of the rewritten document, with no contract of its own. `LocalizedDocumentKeepsOtherMembers` and `CreateLocalContextSample` state its properties. |
| JsonLdProcessor.LocalizedDocumentKeepsOtherMembers | scripts/lib/jsonld-processor.js:19-46 | Only `@context` can change, and its length is kept. A document without an `@context` array is unchanged. |
| JsonLdProcessor.DlpPassesReplaceBoth | scripts/lib/jsonld-processor.js:19-45 | For a `dlp` sample the first context-pattern match becomes `./dlp.context.jsonld`. The first other entry holding a `dpp` URL becomes `./dpp.context.jsonld`. Everything else is unchanged, and the first replacement is not undone. |
| JsonLdProcessor.LocalFileOfId | scripts/lib/jsonld-processor.js:33 | `./<type>.context.jsonld` equals `./dlp.context.jsonld` exactly when the type is `dlp`. |
| JsonLdProcessor.SecondPassOnlyForDlp | scripts/lib/jsonld-processor.js:33-45 | Among the registry's entries, only `dlp` has the local context file that triggers the second pass. |
| JsonLdProcessor.DppContextCarriesDppPrefix | scripts/lib/jsonld-processor.js:37-39 | The registered `dpp` legacy context URL of any version contains the prefix the second pass looks for. |
| JsonLdProcessor.LocalContextPath | scripts/lib/jsonld-processor.js:49 | Definition of `samplePath.replace(".json", ".local-context.json")`, with no contract of its own. `LocalContextPathOfJsonName` and `LocalContextPathOfSample` state its result, and `JsStrings.ReplaceFirstAt` states the replace. |
| JsonLdProcessor.LocalContextPathOfJsonName | scripts/lib/jsonld-processor.js:49 | For a path whose only `j` is in its final `.json`, the first-occurrence `replace` swaps that ending for `.local-context.json`. |
| JsonLdProcessor.LocalContextPathOfSample | scripts/lib/jsonld-processor.js:49 | With no `j` in the version or prefix, a sample's local-context copy is `downloads/<version>/<prefix>.sample.local-context.json`. |
| JsonLdProcessor.IsLocalUrl | scripts/lib/jsonld-processor.js:75 | Definition of the loader's local-file test, with no contract of its own. `HttpsUrlIsRemote`, `EntryUrlsByLoader` and `RegistryUrlsByLoader` state which URLs pass it. |
| JsonLdProcessor.HttpsUrlIsRemote | scripts/lib/jsonld-processor.js:75 | An `https://` URL fails the loader's local test: it neither starts with `./` nor lacks `://`. |
| JsonLdProcessor.EntryUrlsByLoader | scripts/lib/jsonld-processor.js:75 | For an entry named after its key with `https://` templates, the local context file is loaded locally. Its legacy context URL, its base URL and every download URL of its plan are fetched remotely. |
| JsonLdProcessor.RegistryUrlsByLoader | scripts/lib/jsonld-processor.js:75 | Every registered local context file, and `./dpp.context.jsonld`, passes the local test. Every registered legacy context URL, base URL and planned download URL fails it. |
| TestUntpVersion.DppUrlPattern | scripts/test-untp-version.js:59 | Definition of `dppUrlPattern`, the `dpp` context URL of the version, with no contract of its own. `UpdatedSampleIsDppLocalization` states that it is the registry's `dpp` pattern, and `RewrittenEntryIsLoadedLocally` states that it is a remote URL. |
| TestUntpVersion.UpdatedSample | scripts/test-untp-version.js:57-70 | Definition of the rewritten sample, with no contract of its own. `UpdatedSampleIsDppLocalization` and `RewrittenEntryIsLoadedLocally` state its properties. |
| TestUntpVersion.UpdateSampleContext | scripts/test-untp-version.js:49-83 | The method succeeds exactly when the sample can be read and written back. What it writes is the sample with the first entry holding this version's `dpp` URL replaced by `./dpp.context.jsonld`. |
| TestUntpVersion.UpdatedSampleIsDppLocalization | scripts/test-untp-version.js:57-70 | The script's rewrite is the one-pass rewrite of `createLocalContextSample` with the registry's `dpp` pattern and local file, so it keeps every other entry and the length. |
| TestUntpVersion.RewrittenEntryIsLoadedLocally | scripts/test-untp-version.js:59-66 | The replaced entry held a URL with `://`. What replaces it passes the loader's local test, which at line 95 is the same predicate as in `jsonld-processor.js`. |
| TestUntpVersion.DppArtefactsBaseUrl | scripts/test-untp-version.js:193 | Definition of `dppArtefactsBaseUrl`, with no contract of its own. `DppPlanIsFull` states that it is the registry's `dpp` base URL. |
| TestUntpVersion.DppDownloads | scripts/test-untp-version.js:193-211 | Definition of the hard-coded download list, with no contract of its own. `DppDownloadsFollowRegistry`, `DppDownloadsSkipVocabulary` and the three `Dpp…DownloadIsPlanned` lemmas state how it relates to the registry. |
| TestUntpVersion.SamplePath | scripts/test-untp-version.js:224 | Definition of `samplePath`, the `dpp.sample.json` file in the version directory, with no contract of its own. `SampleIsFresh`, `RewriteOnlyFreshSample` and `DownloadUntpVersion` use it as the file that is checked and rewritten. |
| TestUntpVersion.DppPlanIsFull | scripts/test-untp-version.js:193 | The script's base URL is the registry's `dpp` base URL, and the registry's `dpp` plan lists all four kinds. |
| TestUntpVersion.DppContextDownloadIsPlanned | scripts/test-untp-version.js:196-200 | The first listed item is fetched from the URL of the registry's `dpp` context item and saved in the version directory under its filename. |
| TestUntpVersion.DppSchemaDownloadIsPlanned | scripts/test-untp-version.js:201-205 | The second listed item matches the registry's `dpp` schema item in the same way. |
| TestUntpVersion.DppSampleDownloadIsPlanned | scripts/test-untp-version.js:206-210 | The third listed item matches the registry's `dpp` sample item, the fourth of its plan, in the same way. |
| TestUntpVersion.DppDownloadsFollowRegistry | scripts/test-untp-version.js:193-211 | The list has three items, in the order context, schema, sample, with the same URLs and file names as the registry's four-item `dpp` plan minus its vocabulary. |
| TestUntpVersion.DppDownloadsSkipVocabulary | scripts/test-untp-version.js:195-211 | No listed item is saved as the vocabulary. |
| TestUntpVersion.DownloadFile | scripts/test-untp-version.js:9-47 | The result is "not downloaded" exactly when the file already exists, and "downloaded" exactly when it is missing and its URL can be fetched. Otherwise the call throws. |
| TestUntpVersion.DownloadAll | scripts/test-untp-version.js:213-221 | The loop finishes exactly when every download succeeds. Each item then carries its recorded `wasDownloaded`. |
| TestUntpVersion.ShouldRewriteSample | scripts/test-untp-version.js:239-242 | Definition of the `downloads.some(...)` test, with no contract of its own. `RewriteOnlyFreshSample` and `DownloadUntpVersion` state when it holds. |
| TestUntpVersion.RewriteOnlyFreshSample | scripts/test-untp-version.js:238-243 | After all downloads succeed, the rewrite condition holds exactly when the sample was fetched in this run rather than found on disk. |
| TestUntpVersion.DownloadUntpVersion | scripts/test-untp-version.js:175-256 | The exit code is 0 exactly when the directory is made, every download succeeds, a fresh sample can be rewritten and expansion succeeds; otherwise it is 1. The sample is rewritten exactly when the directory is made, every download succeeds and the sample is fresh, readable and writable. The rewritten document is the sample with its `dpp` context localized. |
| TestUntpVersion.ParseArgv | scripts/test-untp-version.js:298-303 | Usage is shown, with exit code 1, exactly when `argv` has fewer than three elements. Otherwise the version tested is `argv[2]`. |
| CopyToDataModels.GenerateFileMappings | scripts/copy-to-data-models.js:9-26 | Definition of the mapping, with no contract of its own. `MappingShape`, `MappingTargetsDistinct`, `MappingSourcesDistinct`, `MappingCoversNamedArtefacts` and `MappingCoversRegisteredFiles` state its properties. |
| CopyToDataModels.MappingShape | scripts/copy-to-data-models.js:9-26 | The target directory is `untp-<type>`. The vocabulary and context mappings come first. `core` yields these two only, and every other type also gets `artefacts/untp-<type>-schema.json` and `artefacts/untp-<type>-instance.json`. |
| CopyToDataModels.MappingTargetsDistinct | scripts/copy-to-data-models.js:11-20 | Mapping targets are pairwise distinct. |
| CopyToDataModels.MappingSourcesDistinct | scripts/copy-to-data-models.js:11-20 | Mapping sources are pairwise distinct, so no property of the mapping object overwrites another. |
| CopyToDataModels.MappingCoversNamedArtefacts | scripts/copy-to-data-models.js:9-20 | For an entry named after its key, the mapping's sources are exactly the file names the entry saves. |
| CopyToDataModels.MappingCoversRegisteredFiles | scripts/copy-to-data-models.js:9-20 | For each registered type, the mapping copies exactly the files the registry downloads for it. |
| CopyToDataModels.Copies | scripts/copy-to-data-models.js:83-100 | Definition of one entry being copied: the source exists and `copyFile` succeeds. It has no contract of its own. `CopiedCount` and `CopyType` state how the copies are counted. |
| CopyToDataModels.CopiedCount | scripts/copy-to-data-models.js:76-101 | The count is at most the number of mappings. It equals that number exactly when every entry is copied, and is 0 exactly when none is. |
| CopyToDataModels.SourceVersionDir | scripts/copy-to-data-models.js:64 | Definition of `sourceVersionDir`, `path.join("downloads", version)`, with no contract of its own. `TypeIsCopied` and `CopyType` state that a missing one means nothing is copied. |
| CopyToDataModels.TypeIsCopied | scripts/copy-to-data-models.js:60-108 | Definition of `copyType` returning `true`: the version directory exists and `copiedCount > 0`. It has no contract of its own. `CopyType` states that the method returns it, and `SucceededCount` and `AllTypesCopied` count it. |
| CopyToDataModels.CopyType | scripts/copy-to-data-models.js:60-109 | Without the source version directory the result is `false` with nothing copied. Otherwise `copiedCount` is the number of entries copied, at most `totalCount`, and the result is `copiedCount > 0`. |
| CopyToDataModels.CountWhereAll | scripts/copy-to-data-models.js:129-134 | A count reaches the length of the list exactly when every item is counted. |
| CopyToDataModels.SucceededCount | scripts/copy-to-data-models.js:129-134 | The number of types reported copied is at most the number of types. |
| CopyToDataModels.AllTypesCopied | scripts/copy-to-data-models.js:136-148 | `successCount` equals `types.length`, so no warning is printed, exactly when every type is copied. |
| CopyToDataModels.CopyToDataModels | scripts/copy-to-data-models.js:111-149 | A missing data-models directory exits with 1. Otherwise the run returns with `successCount` equal to the number of types copied, at most `types.length`. |
| CopyToDataModels.IndexOfArg | scripts/copy-to-data-models.js:206 | `indexOf` gives the first position holding the argument, or -1 exactly when it is absent. |
| CopyToDataModels.TypesValue | scripts/copy-to-data-models.js:206-207 | Definition of the usable `--types` value, with no contract of its own. `ParseArgs`, `DefaultIsAllTypes` and `TypesArgsShape` state how it is used. |
| CopyToDataModels.RequestedTypes | scripts/copy-to-data-models.js:208 | One requested type per comma-separated piece, each trimmed. |
| CopyToDataModels.FirstUnknown | scripts/copy-to-data-models.js:211-220 | The validation loop stops at the first requested type that is not available, and runs through exactly when all are available. |
| CopyToDataModels.ParseArgs | scripts/copy-to-data-models.js:188-224 | Usage is shown exactly for no arguments or `--help`, with exit code 0 exactly when `--help` is present. One argument is "missing required arguments". With a usable `--types` value, the types are the trimmed pieces, rejected exactly when one is not available. The rejected name is the first unavailable piece. Otherwise all types are used. |
| CopyToDataModels.DefaultIsAllTypes | scripts/copy-to-data-models.js:204-207 | Without a usable `--types` value every available type is selected. |
| CopyToDataModels.LowerCaseWordIsPlain | scripts/copy-to-data-models.js:208 | A lower-case word has no comma and no `-`, and `trim` leaves it unchanged. |
| CopyToDataModels.IdIsPlainWord | scripts/copy-to-data-models.js:208-213 | Every registered key survives `--types` parsing whole. |
| CopyToDataModels.AvailableTypesArePlain | scripts/copy-to-data-models.js:208-213 | Every list of available types survives `--types` parsing whole, element by element. |
| CopyToDataModels.RequestedTypesOfJoin | scripts/copy-to-data-models.js:208 | Round trip: splitting a comma-joined list of plain words and trimming gives the list back. |
| CopyToDataModels.CommaJoinHasNoDash | scripts/copy-to-data-models.js:207 | A comma-joined list of plain words is non-empty and has no `-`. |
| CopyToDataModels.TypesArgsShape | scripts/copy-to-data-models.js:206-207 | In `<dir> <version> --types <value>`, the `--types` value is taken and `--help` is absent. |
| CopyToDataModels.TypesOptionRoundTrip | scripts/copy-to-data-models.js:204-223 | `--types` followed by available types joined with commas selects exactly those types, in that order. |
| FileUtils.Join | scripts/lib/file-utils.js:21-27 | Definition of `path.join` on two parts, as joining with one `/`. It has no contract of its own. `VersionDirectorySegments`, `ArtefactPathSegments` and `BaseNameOfJoin` state its round trips on normal segments. |
| FileUtils.BaseName | scripts/test-untp-version.js:241 | Definition of `path.basename` as the last `/`-separated piece. It has no contract of its own. `BaseNameOfJoin` and `ArtefactPathSegments` state what it gives on joined paths. |
| FileUtils.GetVersionDirectory | scripts/lib/file-utils.js:21-23 | Definition of `path.join("downloads", version)`, with no contract of its own. `VersionDirectorySegments` states its round trip. |
| FileUtils.GetArtefactPath | scripts/lib/file-utils.js:25-27 | Definition of `path.join(versionDir, artefactName)`, with no contract of its own. `ArtefactPathSegments` states its round trip. |
| FileUtils.CreateArtefactPaths | scripts/lib/file-utils.js:29-38 | Definition of the path record, with no contract of its own. `ArtefactPathsLayout` and `ArtefactPathsDistinct` state its properties. |
| FileUtils.BaseNameOfJoin | scripts/test-untp-version.js:241 | The base name of `path.join(dir, name)` is `name`. |
| FileUtils.VersionDirectorySegments | scripts/lib/file-utils.js:21-23 | Round trip: the version directory splits into `downloads` and the version. |
| FileUtils.ArtefactPathSegments | scripts/lib/file-utils.js:25-27 | Round trip: an artefact path splits into `downloads`, the version and the file name. |
| FileUtils.ArtefactPathsLayout | scripts/lib/file-utils.js:29-38 | `versionDir` is `getVersionDirectory(version)`. Each other path is `<prefix>` plus its fixed suffix, in that directory. |
| FileUtils.ArtefactPathsDistinct | scripts/lib/file-utils.js:33-36 | The directory and the four file paths are pairwise distinct, for any prefix. |
| JsStrings.StartsWith | scripts/lib/jsonld-processor.js:75 | Definition of `startsWith`, with no contract of its own. `StartsWithAppend`, `HttpsUrlIsRemote` and `EntryUrlsByLoader` use its meaning. |
| JsStrings.Includes | scripts/lib/jsonld-processor.js:25 | Definition of `includes` (true for an empty pattern), with no contract of its own. `IncludesTransitive`, `IndexOf` and `JoinIncludesEach` state its properties. |
| JsStrings.IndexOf | scripts/lib/jsonld-processor.js:49 | `indexOf` finds the first occurrence, and finds none exactly when the pattern is not included. |
| JsStrings.ReplaceFirst | scripts/lib/jsonld-processor.js:49 | Definition of `replace` with a string pattern and a `$`-free replacement, with no contract of its own. `ReplaceFirstAt` states that it splices at the first occurrence, and `LocalContextPathOfJsonName` states its result on a sample path. |
| JsStrings.ReplaceFirstAt | scripts/lib/jsonld-processor.js:49 | `replace` with a string pattern splices the replacement in at the first occurrence only. |
| JsStrings.IncludesTransitive | scripts/test-untp-version.js:64 | A string containing the `dpp` pattern contains everything the pattern contains. |
| JsStrings.Split | scripts/copy-to-data-models.js:208 | `split` gives at least one piece, and no piece contains the separator. |
| JsStrings.SplitJoin | scripts/copy-to-data-models.js:208 | Round trip: splitting a join of separator-free pieces gives the pieces back. |
| JsStrings.JoinSplit | scripts/copy-to-data-models.js:208 | Round trip: joining the pieces of a split restores the string. |
| JsStrings.JoinWith | scripts/lib/artefact-config.js:215 | Definition of `join`, with no contract of its own. `SplitJoin`, `JoinSplit` and `JoinIncludesEach` state its properties. |
| JsStrings.JoinIncludesEach | scripts/lib/artefact-config.js:215 | Every element of a joined list occurs in the joined string. |
| JsStrings.Trim | scripts/copy-to-data-models.js:208 | `trim` gives a slice of its input that neither starts nor ends with whitespace. Everything cut off on either side is whitespace. |
| JsStrings.TrimIdempotent | scripts/copy-to-data-models.js:208 | `trim` is idempotent. |

## Left out

- Network and file-system effects are left out: `fetch`, `fs.readFile`/`writeFile`/`access`/`mkdir`, `scripts/lib/downloader.js` and the size in kB that `downloadFile` reports. Their outcomes are parameters (`Environment`, `FileSystem`).
- `scripts/lib/json-schema-validator.js` is not part of this model. It wraps Ajv, whose JSON Schema validation happens in the library.
- `runJsonLdExpand` is left out except for its document loader's local-URL test. The JSON-LD 1.1 expansion it calls happens in the `jsonld` library. Only whether it succeeds is a parameter.
- `createSimpleTestCredential` is left out, because it depends on the clock.
- Console, `chalk` and `ora` output, `showUsage`, and `JSON.parse`/`JSON.stringify` formatting are left out. JSON is the abstract `JsonValue`, which tells strings and arrays apart from all other values.
- `process.exit` is modelled as an exit code returned by the method that would call it.
- TestUntpVersion.DownloadUntpVersion: does not model the "sample file not found" exit (line 235). In the modelled file system a successful download loop always leaves the sample in place.
- CopyToDataModels.CopyType: does not model an `ensureDirectoryExists` failure, which throws out of the script, or the difference between a read failure and a write failure in `copyFile`. Both are one "this copy fails" set.
- FileUtils.Join: `path.join` is joining with a single `/`. That is exact on normal path segments (non-empty, no `/`, not `.` or `..`), which the round-trip lemmas require through `IsSegment`. Normalisation of other segments is not modelled.
- JsonLdProcessor.Document: a parsed sample is a JSON object. A sample whose top level is `null` makes the `@context` read at line 19 throw, so `createLocalContextSample` returns `null`. A top-level array, string, number or boolean is written back unchanged. `updateSampleContext` makes the same read at line 57 of `scripts/test-untp-version.js`. A `null` sample makes it return `false`, and `downloadUntpVersion` then exits with code 1 (lines 244-247). Neither case is modelled.
- JsonLdProcessor.LocalContextPathOfSample: is stated only for versions and prefixes without the letter `j`. Then the first `.json` in the path is the final one.
- TestUntpVersion.DownloadAll: the download items are values in an array, and the loop replaces each one with a copy carrying `wasDownloaded`. Sharing of the item objects is not modelled.
- ArtefactConfig: the registry's URLs are written with shape functions (`JargonArtefacts`, `UntpVocabulary`, `ContextUrlPath`, `SchemaUrlPath`, `SampleUrlPath`), and the test script's list uses the same functions. They spell the source's literal text. The script's literal URLs are not separately compared with the registry's character by character.
- ArtefactConfig.GetArtefactConfig: models the lookup as intended, over the registry's own keys; the lookup as written is `GetArtefactConfigAsWritten` (see Findings).

## Findings

| source | as written | input that shows it | evidently intended | confidence | as-written member | corrected member |
|---|---|---|---|---|---|---|
| scripts/lib/artefact-config.js:211-217 | `UNTP_ARTEFACT_CONFIGS[type]` is a plain property read, which also finds the members every object inherits from `Object.prototype`. Only `undefined` raises the unknown-type error. | `getArtefactConfig("toString")` returns a function instead of throwing. `generateDownloadConfig("toString", v)` then fails later, on `config.baseUrl`, rather than with the unknown-type message. | Only the seven registered keys are known; every other key raises the unknown-type error that lists the available types. | not executed | ArtefactConfig.InheritedKeyEscapesUnknownTypeError | ArtefactConfig.GetArtefactConfig |
