/**
 * The `downloads/<version>/<prefix>.*` layout of downloaded artefacts.
 * `path.join` is modelled as joining with a single `/`; that is what it does on
 * normal path segments (non-empty, without `/`, not `.` or `..`), and the
 * lemmas that need it say so with `IsSegment`.
 */
module FileUtils {
  import opened JsStrings

  const DownloadsDir := "downloads"

  /** A single normal path component, on which `path.join` adds nothing but the separator. */
  predicate IsSegment(s: string) {
    s != "" && '/' !in s && s != "." && s != ".."
  }

  /** `path.join(dir, name)` */
  function Join(dir: string, name: string): string {
    dir + "/" + name
  }

  /**
   * `path.basename(p)`: the last `/`-separated component. Node also drops
   * trailing separators (`a/b/` gives `b`), which this does not; it is only
   * applied to paths that end in a file name.
   */
  function BaseName(p: string): string {
    var parts := Split(p, '/');
    parts[|parts| - 1]
  }

  /** `getVersionDirectory(version)` */
  function GetVersionDirectory(version: string): string {
    Join(DownloadsDir, version)
  }

  /** `getArtefactPath(versionDir, artefactName)` */
  function GetArtefactPath(versionDir: string, artefactName: string): string {
    Join(versionDir, artefactName)
  }

  /** The object literal returned by `createArtefactPaths`. */
  datatype ArtefactPaths = ArtefactPaths(
    versionDir: string,
    contextPath: string,
    schemaPath: string,
    samplePath: string,
    expandedPath: string)

  const ContextSuffix := ".context.jsonld"
  const SchemaSuffix := ".schema.json"
  const SampleSuffix := ".sample.json"
  const ExpandedSuffix := ".sample.expanded.json"

  /** `createArtefactPaths(version, prefix)` */
  function CreateArtefactPaths(version: string, prefix: string): ArtefactPaths {
    var versionDir := GetVersionDirectory(version);
    ArtefactPaths(
      versionDir,
      GetArtefactPath(versionDir, prefix + ContextSuffix),
      GetArtefactPath(versionDir, prefix + SchemaSuffix),
      GetArtefactPath(versionDir, prefix + SampleSuffix),
      GetArtefactPath(versionDir, prefix + ExpandedSuffix))
  }

  /** The base name of a joined path is the name joined on, whatever the directory. */
  lemma BaseNameOfJoin(dir: string, name: string)
    requires '/' !in name
    ensures BaseName(Join(dir, name)) == name
  {
    assert Join(dir, name) == dir + ['/'] + name;
    SplitAppend(dir, '/', name);
    SplitNoSeparator(name, '/');
  }

  /** Round trip: the version directory splits back into `downloads` and the version. */
  lemma VersionDirectorySegments(version: string)
    requires IsSegment(version)
    ensures Split(GetVersionDirectory(version), '/') == [DownloadsDir, version]
  {
    assert GetVersionDirectory(version) == JoinWith([DownloadsDir, version], "/");
    SplitJoin([DownloadsDir, version], '/');
  }

  /** Round trip: an artefact path splits back into `downloads`, the version and the file name. */
  lemma ArtefactPathSegments(version: string, name: string)
    requires IsSegment(version) && IsSegment(name)
    ensures Split(GetArtefactPath(GetVersionDirectory(version), name), '/') == [DownloadsDir, version, name]
    ensures BaseName(GetArtefactPath(GetVersionDirectory(version), name)) == name
  {
    assert JoinWith([version, name], "/") == version + "/" + name;
    assert GetArtefactPath(GetVersionDirectory(version), name) == JoinWith([DownloadsDir, version, name], "/");
    SplitJoin([DownloadsDir, version, name], '/');
  }

  /**
   * `createArtefactPaths` puts every file in `getVersionDirectory(version)`,
   * named by the prefix and a fixed suffix.
   */
  lemma ArtefactPathsLayout(version: string, prefix: string)
    requires '/' !in prefix
    ensures var p := CreateArtefactPaths(version, prefix);
      && p.versionDir == GetVersionDirectory(version)
      && BaseName(p.contextPath) == prefix + ContextSuffix
      && BaseName(p.schemaPath) == prefix + SchemaSuffix
      && BaseName(p.samplePath) == prefix + SampleSuffix
      && BaseName(p.expandedPath) == prefix + ExpandedSuffix
      && p.samplePath == p.versionDir + "/" + prefix + SampleSuffix
  {
    var p := CreateArtefactPaths(version, prefix);
    BaseNameOfJoin(p.versionDir, prefix + ContextSuffix);
    BaseNameOfJoin(p.versionDir, prefix + SchemaSuffix);
    BaseNameOfJoin(p.versionDir, prefix + SampleSuffix);
    BaseNameOfJoin(p.versionDir, prefix + ExpandedSuffix);
  }

  /** The four file paths of one prefix are pairwise distinct and distinct from the directory. */
  lemma ArtefactPathsDistinct(version: string, prefix: string)
    ensures var p := CreateArtefactPaths(version, prefix);
      && |{p.versionDir, p.contextPath, p.schemaPath, p.samplePath, p.expandedPath}| == 5
  {
    var p := CreateArtefactPaths(version, prefix);
    var head := p.versionDir + "/" + prefix;
    assert p.schemaPath == head + SchemaSuffix && p.samplePath == head + SampleSuffix;
    assert p.schemaPath[|head| + 2] == 'c' && p.samplePath[|head| + 2] == 'a';
  }
}
