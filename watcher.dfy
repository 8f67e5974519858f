/**
 * The watcher for one site: it resolves the site's default application once,
 * then turns each reported `web.config` add or unlink into an add or delete
 * of the application at the file's directory.
 */
module Watching {
  import opened Wrappers
  import opened Paths
  import opened AppHost

  /** The options the service passes on the command line (numbers already parsed). */
  datatype WatcherOptions = WatcherOptions(site: string, paths: string, interval: int, depth: int)

  /** A constructed watcher: its options, its configuration object and the site's default application. */
  datatype Watcher = Watcher(options: WatcherOptions, config: AppHostConfig, siteApplication: SiteApplicationShort)

  /** The file-system event a subscription listens to. */
  datatype WatchEvent = FileAdded | FileUnlinked

  /** The options handed to the file watcher. */
  datatype WatchOptions = WatchOptions(
    ignoreInitial: bool,
    cwd: string,
    usePolling: bool,
    interval: int,
    depth: Option<int>,
    stabilityThreshold: int,
    pollInterval: int)

  datatype Subscription = Subscription(event: WatchEvent, pattern: string, options: WatchOptions)

  /**
   * The constructor: loads the snapshot and resolves the site's default
   * application; the watcher exists only when that resolution succeeds.
   */
  method NewWatcher(options: WatcherOptions, doc: AppHostDocument) returns (r: Result<Watcher, Error>)
    ensures r.Failure? <==> GetSiteApplication(Nodes(doc.sites), options.site).Failure?
    ensures r.Failure? ==> r.error == GetSiteApplication(Nodes(doc.sites), options.site).error
    ensures r.Success? ==> r.value.options == options
                           && r.value.siteApplication == GetSiteApplication(Nodes(doc.sites), options.site).value
                           && fresh(r.value.config)
                           && r.value.config.sites == Nodes(doc.sites)
                           && r.value.config.effects == []
  {
    var config := new AppHostConfig(doc);
    var siteApplication := GetSiteApplication(config.sites, options.site);
    if siteApplication.Failure? {
      return Failure(siteApplication.error);
    }
    r := Success(Watcher(options, config, siteApplication.value));
  }

  /** The `depth` watch option: passed through above -1, otherwise unlimited. */
  function WatchDepth(depth: int): (r: Option<int>)
    ensures r.Some? <==> depth > -1
    ensures r.Some? ==> r.value == depth
  {
    if depth > -1 then Some(depth) else None
  }

  /**
   * `run`: two subscriptions over the same pattern and options, one for added
   * files and one for unlinked ones, polling at the configured interval from
   * the site's physical root.
   */
  function Run(w: Watcher): (subs: seq<Subscription>)
    ensures |subs| == 2 && subs[0].event == FileAdded && subs[1].event == FileUnlinked
    ensures subs[0].pattern == subs[1].pattern == w.options.paths
    ensures subs[0].options == subs[1].options
    ensures var o := subs[0].options;
            o.ignoreInitial && o.usePolling
            && o.cwd == NormalizePath(w.siteApplication.physicalPath)
            && o.interval == o.stabilityThreshold == o.pollInterval == w.options.interval
            && (o.depth.Some? <==> w.options.depth > -1)
            && (o.depth.Some? ==> o.depth.value == w.options.depth)
  {
    var interval := w.options.interval;
    var watchOptions := WatchOptions(
      true, NormalizePath(w.siteApplication.physicalPath), true, interval,
      WatchDepth(w.options.depth), interval, interval);
    [Subscription(FileAdded, w.options.paths, watchOptions),
     Subscription(FileUnlinked, w.options.paths, watchOptions)]
  }

  /**
   * `_toApplicationPath`: the physical path relative to the site root, with
   * forward slashes, rooted at `/`.
   */
  function ToApplicationPath(root: string, physicalPath: string): (r: string)
    ensures |r| > 0 && r[0] == '/'
    ensures '\\' !in r
    ensures r == "/" + ReplaceBackslashes(RelativePath(root, physicalPath))
  {
    RelativePathUnrooted(root, physicalPath);
    var path := ReplaceBackslashes(RelativePath(root, physicalPath));
    if |path| > 0 && path[0] == '/' then path else "/" + path
  }

  /** The physical directory of a changed file: the site root joined with the file's directory. */
  function PhysicalPathFor(root: string, filePath: string): string
  {
    JoinPath(root, DirName(filePath))
  }

  /** The application path both `$add` and `$remove` derive for a changed file. */
  function ApplicationPathFor(root: string, filePath: string): string
  {
    ToApplicationPath(root, PhysicalPathFor(root, filePath))
  }

  /**
   * The translation in segment terms: the physical path is the root's
   * segments followed by the file's directory segments, and the application
   * path is `/` followed by the directory segments joined with `/`.
   */
  lemma TranslationShape(root: string, filePath: string)
    ensures PhysicalPathFor(root, filePath) == Render(Segments(root) + DirSegments(filePath), '\\')
    ensures ApplicationPathFor(root, filePath) == "/" + Render(DirSegments(filePath), '/')
  {
    var dir := DirSegments(filePath);
    var base := Segments(root);
    SegmentsOfRender(dir, '\\');
    var physical := PhysicalPathFor(root, filePath);
    assert physical == Render(base + dir, '\\');
    SegmentsOfRender(base + dir, '\\');
    RelativeOfExtension(base, dir);
    assert RelativePath(root, physical) == Render(dir, '\\');
    ReplaceRender(dir);
    RenderWithoutBackslash(dir);
  }

  /** A file directly under the site root maps to the root application `/`. */
  lemma RootFileMapsToRoot(root: string, filePath: string)
    requires |Segments(filePath)| <= 1
    ensures ApplicationPathFor(root, filePath) == "/"
    ensures PhysicalPathFor(root, filePath) == NormalizePath(root)
  {
    TranslationShape(root, filePath);
    assert Segments(root) + [] == Segments(root);
  }

  /**
   * A file `sub/dir/name` below the root (any segments `sub`, `dir`, `name`)
   * maps to `/sub/dir`, at the root joined with `sub\dir`.
   */
  lemma NestedFileMapsToItsDirectory(root: string, sub: string, dir: string, name: string)
    requires IsSegment(sub) && IsSegment(dir) && IsSegment(name)
    ensures ApplicationPathFor(root, sub + ['/'] + dir + ['/'] + name) == ['/'] + sub + ['/'] + dir
    ensures PhysicalPathFor(root, sub + ['/'] + dir + ['/'] + name) == JoinPath(root, sub + ['\\'] + dir)
  {
    var filePath := sub + ['/'] + dir + ['/'] + name;
    NestedDirSegments(sub, dir, name);
    TranslationShape(root, filePath);
    RenderPair(sub, dir, '/');
    RenderPair(sub, dir, '\\');
    SegmentsOfRender([sub, dir], '\\');
  }

  /** The directory segments of `sub/dir/name` are `sub` and `dir`. */
  lemma NestedDirSegments(sub: string, dir: string, name: string)
    requires IsSegment(sub) && IsSegment(dir) && IsSegment(name)
    ensures DirSegments(sub + ['/'] + dir + ['/'] + name) == [sub, dir]
  {
    var filePath := sub + ['/'] + dir + ['/'] + name;
    SegmentsOfSegmentThen(name, '/', []);
    SegmentsOfSegmentThen(dir, '/', name);
    assert filePath == sub + ['/'] + (dir + ['/'] + name);
    SegmentsOfSegmentThen(sub, '/', dir + ['/'] + name);
    assert Segments(filePath) == [sub, dir, name];
  }

  /** Two segments rendered with `c` between them. */
  lemma RenderPair(sub: string, dir: string, c: char)
    ensures Render([sub, dir], c) == sub + [c] + dir
  {
    assert [sub, dir][1..] == [dir];
  }

  /** The request `$add` hands to `addSiteApplication` for a changed file. */
  function AddRequest(w: Watcher, filePath: string): (app: SiteApplicationShort)
    ensures app.pool == w.siteApplication.pool
    ensures app.physicalPath == Render(Segments(w.siteApplication.physicalPath) + DirSegments(filePath), '\\')
    ensures app.path == "/" + Render(DirSegments(filePath), '/')
  {
    var root := w.siteApplication.physicalPath;
    TranslationShape(root, filePath);
    SiteApplicationShort(ApplicationPathFor(root, filePath), w.siteApplication.pool, PhysicalPathFor(root, filePath))
  }

  /** `$add`: registers the changed file's directory as an application of the site. */
  method OnAdd(w: Watcher, filePath: string, addOutput: ProcessOutput, setOutput: ProcessOutput)
    returns (r: Result<(), Error>)
    modifies w.config`effects
    ensures AddIssued(w.config.sites, w.options.site, AddRequest(w, filePath), addOutput, setOutput,
                      old(w.config.effects), w.config.effects, r)
  {
    var root := w.siteApplication.physicalPath;
    var physicalPath := PhysicalPathFor(root, filePath);
    var path := ToApplicationPath(root, physicalPath);
    r := w.config.AddSiteApplication(w.options.site, SiteApplicationShort(path, w.siteApplication.pool, physicalPath),
                                     addOutput, setOutput);
  }

  /** `$remove`: deletes the application at the changed file's directory. */
  method OnRemove(w: Watcher, filePath: string, output: ProcessOutput) returns (r: Result<(), Error>)
    modifies w.config`effects
    ensures w.config.effects == old(w.config.effects) + [Exec(DeleteAppArgs(w.options.site, AddRequest(w, filePath).path))]
    ensures r.Failure? <==> output.failed || output.stderr != ""
  {
    var root := w.siteApplication.physicalPath;
    var physicalPath := PhysicalPathFor(root, filePath);
    var path := ToApplicationPath(root, physicalPath);
    r := w.config.RemoveSiteApplication(w.options.site, path, output);
  }
}
