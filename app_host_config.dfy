/**
 * The IIS configuration layer: a parsed `applicationHost.config` snapshot,
 * lookups over it, and the `appcmd` commands that change IIS. Commands and
 * the backup copy are recorded in an effect log; the process outputs they
 * produce are parameters. The snapshot is read once at construction and no
 * command ever updates it.
 */
module AppHost {
  import opened Wrappers
  import opened Seqs
  import opened Text
  import opened JsValues

  const IisDirectory := "C:\\Windows\\System32\\inetsrv\\"
  const AppHostConfigDirectory := IisDirectory + "Config\\"
  const AppHostConfigPath := AppHostConfigDirectory + "applicationHost.config"
  const BackupFileName := "applicationHost.config.bak"

  /**
   * A field that XML-to-JSON conversion turns into a bare object when the
   * element occurs once, and into a list when it occurs several times.
   */
  datatype Collapsible<T> = Single(node: T) | List(nodes: seq<T>)

  /** The field as a list: a bare node is a one-element list. */
  function Nodes<T>(c: Collapsible<T>): seq<T>
  {
    match c
    case Single(n) => [n]
    case List(ns) => ns
  }

  datatype VirtualDirectory = VirtualDirectory(path: string, physicalPath: string)

  /** `applicationPool` is an optional attribute: None when the element has none. */
  datatype Application = Application(
    path: string,
    applicationPool: Option<string>,
    virtualDirectory: Collapsible<VirtualDirectory>)

  datatype Site = Site(name: string, application: Collapsible<Application>)

  /** The parsed document, reduced to `configuration['system.applicationHost'].sites.site`. */
  datatype AppHostDocument = AppHostDocument(sites: Collapsible<Site>)

  /** A site application as the watcher hands it over: path, pool, physical path. */
  datatype SiteApplicationShort = SiteApplicationShort(path: string, pool: Option<string>, physicalPath: string)

  datatype Error =
    | SiteNotFound(siteName: string)   // ReferenceError: site missing from the snapshot
    | MalformedSite(siteName: string)  // ReferenceError: no root application or no root virtual directory
    | CommandRejected                  // appcmd failed or wrote to stderr; the promise rejects without a reason

  /** What running `appcmd.exe` produced: whether it errored, and its two output streams. */
  datatype ProcessOutput = ProcessOutput(failed: bool, stdout: string, stderr: string)

  /** An external action: an `appcmd.exe` invocation with its arguments, or a file copy. */
  datatype Effect = Exec(args: seq<string>) | CopyFile(source: string, target: string)

  // ---------------------------------------------------------------------------
  // Lookups over the snapshot

  /**
   * `_getNodeBy`: in a list, the last element that matches; a bare node is
   * returned when it matches itself.
   */
  function NodeBy<T>(node: Collapsible<T>, matches: T -> bool): (r: Option<T>)
    ensures r.None? <==> forall i :: 0 <= i < |Nodes(node)| ==> !matches(Nodes(node)[i])
    ensures r.Some? ==> exists i :: IsLastMatch(Nodes(node), i, matches) && r.value == Nodes(node)[i]
  {
    match node
    case List(ns) =>
      assert Nodes(node) == ns;
      var found := Filter(ns, matches);
      if found == [] then None
      else
        FilterLast(ns, matches);
        Some(found[|found| - 1])
    case Single(n) =>
      assert Nodes(node) == [n];
      if matches(n) then
        assert IsLastMatch([n], 0, matches);
        Some(n)
      else None
  }

  /** `getSite`: the last site of the snapshot whose name is exactly `siteName`. */
  function GetSite(sites: seq<Site>, siteName: string): (r: Option<Site>)
    ensures r.None? <==> forall i :: 0 <= i < |sites| ==> sites[i].name != siteName
    ensures r.Some? ==> r.value.name == siteName
    ensures r.Some? ==> exists i :: 0 <= i < |sites| && sites[i] == r.value
                                    && forall j :: i < j < |sites| ==> sites[j].name != siteName
  {
    NodeBy(List(sites), (s: Site) => s.name == siteName)
  }

  predicate IsRootApplication(app: Application)
  {
    app.path == "/"
  }

  predicate IsRootDirectory(dir: VirtualDirectory)
  {
    dir.path == "/"
  }

  /** `app` is the site's root application: the last one whose path is `/`. */
  ghost predicate IsRootApplicationOf(site: Site, app: Application)
  {
    exists i :: IsLastMatch(Nodes(site.application), i, IsRootApplication) && Nodes(site.application)[i] == app
  }

  /** `dir` is the application's root virtual directory: the last one whose path is `/`. */
  ghost predicate IsRootDirectoryOf(app: Application, dir: VirtualDirectory)
  {
    exists i :: IsLastMatch(Nodes(app.virtualDirectory), i, IsRootDirectory) && Nodes(app.virtualDirectory)[i] == dir
  }

  /** The site has a root application, and that application a root virtual directory. */
  ghost predicate HasDefaultApplication(site: Site)
  {
    exists app, dir :: IsRootApplicationOf(site, app) && IsRootDirectoryOf(app, dir)
  }

  /**
   * `getSiteApplication`: the site's default application, read from its root
   * application and that application's root virtual directory. It fails with
   * SiteNotFound when the site is missing and with MalformedSite when either
   * root is missing.
   */
  function GetSiteApplication(sites: seq<Site>, siteName: string): (r: Result<SiteApplicationShort, Error>)
    ensures GetSite(sites, siteName).None? <==> r == Failure(SiteNotFound(siteName))
    ensures r == Failure(MalformedSite(siteName)) <==>
              GetSite(sites, siteName).Some? && !HasDefaultApplication(GetSite(sites, siteName).value)
    ensures r.Success? ==>
              exists app, dir :: IsRootApplicationOf(GetSite(sites, siteName).value, app)
                                 && IsRootDirectoryOf(app, dir)
                                 && r.value == SiteApplicationShort("/", app.applicationPool, dir.physicalPath)
    ensures r.Failure? ==> r.error == SiteNotFound(siteName) || r.error == MalformedSite(siteName)
    ensures GetSite(sites, siteName).Some? && HasDefaultApplication(GetSite(sites, siteName).value) ==> r.Success?
  {
    match GetSite(sites, siteName)
    case None => Failure(SiteNotFound(siteName))
    case Some(site) =>
      match NodeBy(site.application, IsRootApplication)
      case None =>
        MissingRootApplication(site);
        Failure(MalformedSite(siteName))
      case Some(application) =>
        match NodeBy(application.virtualDirectory, IsRootDirectory)
        case None =>
          MissingRootDirectory(site, application);
          Failure(MalformedSite(siteName))
        case Some(virtualDirectory) =>
          assert IsRootApplicationOf(site, application);
          assert IsRootDirectoryOf(application, virtualDirectory);
          Success(SiteApplicationShort(application.path, application.applicationPool, virtualDirectory.physicalPath))
  }

  /** First way to be malformed: no application of the site has path `/`. */
  lemma MissingRootApplication(site: Site)
    requires forall i :: 0 <= i < |Nodes(site.application)| ==> !IsRootApplication(Nodes(site.application)[i])
    ensures !HasDefaultApplication(site)
  {
  }

  /**
   * Second way to be malformed: the root application (the last one with path
   * `/`) has no virtual directory with path `/`, even if an earlier
   * application with path `/` has one.
   */
  lemma MissingRootDirectory(site: Site, app: Application)
    requires IsRootApplicationOf(site, app)
    requires forall k :: 0 <= k < |Nodes(app.virtualDirectory)| ==> !IsRootDirectory(Nodes(app.virtualDirectory)[k])
    ensures !HasDefaultApplication(site)
  {
    if other, dir :| IsRootApplicationOf(site, other) && IsRootDirectoryOf(other, dir) {
      var i :| IsLastMatch(Nodes(site.application), i, IsRootApplication) && Nodes(site.application)[i] == app;
    }
  }

  /**
   * `existsSiteApplication`: whether some application of the site (a bare one
   * counted as a list of one) has exactly `applicationPath`; fails when the
   * site is missing.
   */
  function ExistsSiteApplication(sites: seq<Site>, siteName: string, applicationPath: string): (r: Result<bool, Error>)
    ensures GetSite(sites, siteName).None? <==> r.Failure?
    ensures r.Failure? ==> r.error == SiteNotFound(siteName)
    ensures r.Success? ==>
              var apps := Nodes(GetSite(sites, siteName).value.application);
              (r.value <==> exists i :: 0 <= i < |apps| && apps[i].path == applicationPath)
  {
    match GetSite(sites, siteName)
    case None => Failure(SiteNotFound(siteName))
    case Some(site) =>
      var applications := Nodes(site.application);
      var found := Filter(applications, (item: Application) => item.path == applicationPath);
      assert found != [] ==> found[0] in applications;
      Success(|found| > 0)
  }

  // ---------------------------------------------------------------------------
  // appcmd commands

  const ListSiteNamesArgs: seq<string> := ["list", "site", "/text:name"]

  function AddAppArgs(siteName: string, app: SiteApplicationShort): seq<string>
  {
    ["add", "app", "/site.name:" + siteName, "/path:" + app.path, "/physicalPath:" + app.physicalPath]
  }

  /** A missing pool is interpolated as the text `undefined`. */
  function SetAppPoolArgs(siteName: string, app: SiteApplicationShort): seq<string>
  {
    var pool := match app.pool case Some(p) => Str(p) case None => Undefined;
    ["set", "app", siteName + app.path, "/applicationPool:" + ToJsString(pool)]
  }

  function DeleteAppArgs(siteName: string, applicationPath: string): seq<string>
  {
    ["delete", "app", siteName + applicationPath]
  }

  /**
   * How `_execCommand` settles: rejected when the process errored or wrote
   * anything to stderr, otherwise resolved with stdout split on CRLF.
   */
  function CommandResult(output: ProcessOutput): (r: Result<seq<string>, Error>)
    ensures r.Failure? <==> output.failed || output.stderr != ""
    ensures r.Failure? ==> r.error == CommandRejected
    ensures r.Success? ==> |r.value| > 0
    ensures r.Success? ==> Join(r.value, "\r\n") == output.stdout
    ensures r.Success? ==> forall i :: 0 <= i < |r.value| ==> !Contains(r.value[i], "\r\n")
  {
    if output.failed || output.stderr != "" then Failure(CommandRejected)
    else
      JoinSplit(output.stdout, "\r\n");
      SplitPiecesAvoidSeparator(output.stdout, "\r\n");
      Success(Split(output.stdout, "\r\n"))
  }

  predicate NonEmptyLine(line: string)
  {
    line != ""
  }

  /** `.filter((site) => Boolean(site))`: the non-empty lines. */
  function NonEmptyLines(lines: seq<string>): (r: seq<string>)
    ensures forall i :: 0 <= i < |r| ==> r[i] != "" && r[i] in lines
    ensures forall line :: line in lines && line != "" ==> line in r
  {
    var names := Filter(lines, NonEmptyLine);
    assert forall line :: line in lines && line != "" ==> line in names by {
      forall line | line in lines && line != "" ensures line in names {
        var i :| 0 <= i < |lines| && lines[i] == line;
      }
    }
    names
  }

  /**
   * The lines keep their order: the filter works line by line, keeping a
   * non-empty line and dropping an empty one.
   */
  lemma NonEmptyLinesInOrder(a: seq<string>, b: seq<string>, line: string)
    ensures NonEmptyLines(a + b) == NonEmptyLines(a) + NonEmptyLines(b)
    ensures NonEmptyLines([line]) == if line != "" then [line] else []
  {
    FilterAppend(a, b, NonEmptyLine);
    assert [line][1..] == [];
  }

  /** Duplicates are kept: a non-empty line occurs as often among the names as among the lines. */
  lemma {:induction false} NonEmptyLinesCount(lines: seq<string>, line: string)
    requires line != ""
    ensures multiset(NonEmptyLines(lines))[line] == multiset(lines)[line]
  {
    if lines != [] {
      assert lines == [lines[0]] + lines[1..];
      NonEmptyLinesInOrder([lines[0]], lines[1..], line);
      NonEmptyLinesInOrder([], [], lines[0]);
      NonEmptyLinesCount(lines[1..], line);
    }
  }

  /** `getSiteNames`: the non-empty lines `appcmd list site /text:name` printed. */
  function SiteNames(output: ProcessOutput): (r: Result<seq<string>, Error>)
    ensures r.Failure? <==> output.failed || output.stderr != ""
    ensures r.Failure? ==> r.error == CommandRejected
    ensures r.Success? ==> r.value == NonEmptyLines(Split(output.stdout, "\r\n"))
    ensures r.Success? ==> forall i :: 0 <= i < |r.value| ==> r.value[i] != "" && r.value[i] in Split(output.stdout, "\r\n")
    ensures r.Success? ==> forall line :: line in Split(output.stdout, "\r\n") && line != "" ==> line in r.value
  {
    match CommandResult(output)
    case Failure(e) => Failure(e)
    case Success(lines) => Success(NonEmptyLines(lines))
  }

  // ---------------------------------------------------------------------------
  // Backup name search

  function IndexedBackupFileName(index: nat): string
  {
    "applicationHost.config." + NatToDecimal(index) + ".bak"
  }

  lemma IndexedBackupFileNameInjective(i: nat, j: nat)
    requires IndexedBackupFileName(i) == IndexedBackupFileName(j)
    ensures i == j
  {
    var a, b := IndexedBackupFileName(i), IndexedBackupFileName(j);
    var prefix := "applicationHost.config.";
    assert NatToDecimal(i) == a[|prefix|..|a| - 4];
    assert NatToDecimal(j) == b[|prefix|..|b| - 4];
    DecimalInjective(i, j);
  }

  /**
   * The name `saveBackup` chooses among the files of the config directory:
   * the plain backup name when it is free, otherwise the first free indexed
   * name. The loop ends because each step visits a new existing file.
   */
  method ChooseBackupName(existing: set<string>) returns (name: string)
    ensures name !in existing
    ensures BackupFileName !in existing ==> name == BackupFileName
    ensures BackupFileName in existing ==>
              exists i: nat :: name == IndexedBackupFileName(i)
                               && forall j: nat :: j < i ==> IndexedBackupFileName(j) in existing
  {
    name := BackupFileName;
    if name in existing {
      var index: nat := 0;
      ghost var visited: set<string> := {};
      while true
        invariant forall j: nat :: j < index ==> IndexedBackupFileName(j) in existing
        invariant visited <= existing
        invariant forall x :: x in visited ==> exists j: nat :: j < index && x == IndexedBackupFileName(j)
        decreases existing - visited
      {
        name := IndexedBackupFileName(index);
        index := index + 1;
        if name !in existing {
          break;
        }
        forall x | x in visited ensures x != name {
          var j: nat :| j < index - 1 && x == IndexedBackupFileName(j);
          if x == name {
            IndexedBackupFileNameInjective(j, index - 1);
          }
        }
        visited := visited + {name};
      }
    }
  }

  // ---------------------------------------------------------------------------
  // The configuration object

  /**
   * `addSiteApplication` as a relation between the effect log before and
   * after the call and its result. The existence check reads the snapshot;
   * the pool is set only after the add command succeeded.
   */
  ghost predicate AddIssued(
    sites: seq<Site>, siteName: string, app: SiteApplicationShort,
    addOutput: ProcessOutput, setOutput: ProcessOutput,
    before: seq<Effect>, after: seq<Effect>, r: Result<(), Error>)
  {
    match ExistsSiteApplication(sites, siteName, app.path)
    case Failure(e) => after == before && r == Failure(e)
    case Success(true) => after == before && r == Success(())
    case Success(false) =>
      if CommandResult(addOutput).Failure? then
        after == before + [Exec(AddAppArgs(siteName, app))] && r == Failure(CommandRejected)
      else
        after == before + [Exec(AddAppArgs(siteName, app)), Exec(SetAppPoolArgs(siteName, app))]
        && r == (if CommandResult(setOutput).Failure? then Failure(CommandRejected) else Success(()))
  }

  class AppHostConfig {
    /** The parsed document. */
    var appHostConfig: AppHostDocument
    /** The site list of the snapshot, always a list. */
    var sites: seq<Site>
    /** The external actions issued so far, in order. */
    var effects: seq<Effect>

    /** Loads the snapshot (`$parseConfig`): a bare site becomes a one-element list. */
    constructor (doc: AppHostDocument)
      ensures appHostConfig == doc && effects == []
      ensures doc.sites.List? ==> sites == doc.sites.nodes
      ensures doc.sites.Single? ==> sites == [doc.sites.node]
    {
      appHostConfig := doc;
      match doc.sites {
        case List(ns) => sites := ns;
        case Single(s) => sites := [s];
      }
      effects := [];
    }

    /** `_execCommand`: runs `appcmd.exe` once. */
    method ExecCommand(args: seq<string>, output: ProcessOutput) returns (r: Result<seq<string>, Error>)
      modifies this`effects
      ensures effects == old(effects) + [Exec(args)]
      ensures r == CommandResult(output)
    {
      effects := effects + [Exec(args)];
      r := CommandResult(output);
    }

    method GetSiteNames(output: ProcessOutput) returns (r: Result<seq<string>, Error>)
      modifies this`effects
      ensures effects == old(effects) + [Exec(ListSiteNamesArgs)]
      ensures r == SiteNames(output)
    {
      var lines := ExecCommand(ListSiteNamesArgs, output);
      match lines {
        case Failure(e) => r := Failure(e);
        case Success(ls) => r := Success(NonEmptyLines(ls));
      }
    }

    method AddSiteApplication(siteName: string, application: SiteApplicationShort,
                              addOutput: ProcessOutput, setOutput: ProcessOutput)
      returns (r: Result<(), Error>)
      modifies this`effects
      ensures sites == old(sites)
      ensures AddIssued(sites, siteName, application, addOutput, setOutput, old(effects), effects, r)
    {
      var present := ExistsSiteApplication(sites, siteName, application.path);
      if present.Failure? {
        return Failure(present.error);
      }
      if present.value {
        return Success(());
      }
      var added := ExecCommand(AddAppArgs(siteName, application), addOutput);
      if added.Failure? {
        return Failure(added.error);
      }
      var pooled := ExecCommand(SetAppPoolArgs(siteName, application), setOutput);
      if pooled.Failure? {
        return Failure(pooled.error);
      }
      r := Success(());
    }

    /** `removeSiteApplication`: one delete command, with no existence check. */
    method RemoveSiteApplication(siteName: string, applicationPath: string, output: ProcessOutput)
      returns (r: Result<(), Error>)
      modifies this`effects
      ensures effects == old(effects) + [Exec(DeleteAppArgs(siteName, applicationPath))]
      ensures r.Failure? <==> output.failed || output.stderr != ""
      ensures r.Failure? ==> r.error == CommandRejected
    {
      var deleted := ExecCommand(DeleteAppArgs(siteName, applicationPath), output);
      if deleted.Failure? {
        return Failure(deleted.error);
      }
      r := Success(());
    }

    /** `saveBackup`: chooses a free name, then copies the config file to it. */
    method SaveBackup(existing: set<string>) returns (name: string)
      modifies this`effects
      ensures name !in existing
      ensures BackupFileName !in existing ==> name == BackupFileName
      ensures BackupFileName in existing ==>
                exists i: nat :: name == IndexedBackupFileName(i)
                                 && forall j: nat :: j < i ==> IndexedBackupFileName(j) in existing
      ensures effects == old(effects) + [CopyFile(AppHostConfigPath, AppHostConfigDirectory + name)]
    {
      name := ChooseBackupName(existing);
      effects := effects + [CopyFile(AppHostConfigPath, AppHostConfigDirectory + name)];
    }
  }

  /**
   * The existence check never sees earlier adds: an application missing from
   * the snapshot is added again by a second call, whatever the first call's
   * commands printed, and the second call succeeds only if its own add and
   * set commands do.
   */
  lemma RepeatedAddReissues(
    sites: seq<Site>, siteName: string, app: SiteApplicationShort,
    addOutput1: ProcessOutput, setOutput1: ProcessOutput,
    addOutput2: ProcessOutput, setOutput2: ProcessOutput,
    e0: seq<Effect>, e1: seq<Effect>, e2: seq<Effect>, r1: Result<(), Error>, r2: Result<(), Error>)
    requires ExistsSiteApplication(sites, siteName, app.path) == Success(false)
    requires AddIssued(sites, siteName, app, addOutput1, setOutput1, e0, e1, r1)
    requires AddIssued(sites, siteName, app, addOutput2, setOutput2, e1, e2, r2)
    ensures |e1| > |e0| && e1[|e0|] == Exec(AddAppArgs(siteName, app))
    ensures |e2| > |e1| && e2[|e1|] == Exec(AddAppArgs(siteName, app))
    ensures r2 == Success(()) <==> CommandResult(addOutput2).Success? && CommandResult(setOutput2).Success?
  {
  }
}
