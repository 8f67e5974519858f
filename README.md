# dir-to-iis-app, modelled in Dafny

dir-to-iis-app watches directories for `web.config` files and mirrors them
into IIS. When a file appears, its directory becomes an application of a
configured website. When the file disappears, that application is deleted.
It is installed as a Windows service through an interactive installer, whose
command-line aliases are folded before the questions are asked.

The model covers four parts of it:

- **IIS configuration layer** (`AppHost`, `src/app-host-config.ts`).
  - The parsed `applicationHost.config` snapshot. XML elements that occur
    once are bare objects and repeated ones are lists (`Collapsible`).
  - The lookups `getSite`, `getSiteApplication` and `existsSiteApplication`.
  - The `appcmd.exe` commands for list, add, set-pool and delete.
  - The choice of the backup file name.
  - The `AppHostConfig` object. It records every command and file copy in an
    effect log; the outputs of the processes are parameters.
- **Watcher** (`Watching`, `src/watcher.ts`).
  - Construction: resolving the site's default application.
  - The two file subscriptions, and the options given to them.
  - Translating a changed file into an application path and a physical
    path, which then drive `addSiteApplication` or `removeSiteApplication`.
- **Service installer** (`Service`, `src/dir-to-iis-app-service.ts`).
  - The six questions and their validators.
  - The quoting of the watched paths.
  - The `--key=value` script options and the service configuration built
    by `run`.
  - `install`: the backup comes first, then the site listing, then the
    questions.
  - `uninstall`: only the name question is kept.
- **Command-line alias folding** (`Cli`, `src/index.ts`, `processAliases`).
  A falsy canonical option takes the first truthy value among its aliases,
  and then the aliases are deleted, in place.

Shared modules hold the JavaScript semantics these parts rely on:
- `JsValues`: truthiness, `||`, and `String(value)` for integers.
- `Text`: `trim`, `split` and `join`.
- `Seqs`: `filter`.
- `Paths`: `join`, `normalize`, `relative` and `parse(...).dir`, on paths
  read as lists of segments.

Two behaviours of the code are worth knowing:

- **Adding is not idempotent across calls.** `existsSiteApplication` reads
  the snapshot loaded at construction, and no command updates it. So an
  application missing from the snapshot gets the add command again (then
  the set-pool command, when the add succeeds) every time its file is
  reported (`AppHost.RepeatedAddReissues`).
- **Changed files are relative paths.** The file watcher reports them
  relative to its working directory, which is the site's physical root.
  Their directory is joined to that root, and the application path is the
  directory relative to the root.

## Model

| member | source | states |
|---|---|---|
| `Seqs.Filter` | src/app-host-config.ts:28 | the result is no longer than the input, holds only kept elements of the input, and holds every kept element |
| `Seqs.FilterLast` | src/app-host-config.ts:155 | the last element of a filter (what `pop` returns) is the input's last matching element |
| `JsValues.OrAll` | src/index.ts:65 | `a || b || c` is the first truthy operand; when none is truthy, it is the last operand and every operand is falsy |
| `JsValues.DecimalRoundTrip` | src/app-host-config.ts:126 | reading back the decimal rendering of an index gives the index |
| `Text.Trim` | src/dir-to-iis-app-service.ts:103 | `trim` returns a slice of its input; only whitespace is cut on either side, and the result neither starts nor ends with whitespace |
| `Text.JoinSplit` | src/app-host-config.ts:179 | joining the pieces of `split(sep)` with `sep` gives the string back |
| `Text.SplitPiecesAvoidSeparator` | src/app-host-config.ts:179 | no line produced by splitting on `\r\n` contains `\r\n` |
| `Text.SplitJoin` | src/dir-to-iis-app-service.ts:84-87 | splitting on one character undoes a join on it when no piece contains that character |
| `Paths.SegmentsOfRender` | src/watcher.ts:48 | reading the segments of a rendered path gives the same segments back |
| `Paths.ReplaceRender` | src/watcher.ts:64-65 | replacing the backslashes of a `\`-rendered path gives the `/`-rendered path |
| `Paths.RenderWithoutBackslash` | src/watcher.ts:64-66 | a `/`-rendered path holds no backslash and does not start with `/` |
| `Paths.RelativeOfExtension` | src/watcher.ts:64 | the path from a base to a path below it is exactly the extra segments |
| `Paths.RelativePathUnrooted` | src/watcher.ts:64-65 | `relative(...)` with `\` turned into `/` never starts with `/` |
| `AppHost.NodeBy` | src/app-host-config.ts:153-161 | none exactly when no node matches; otherwise the last matching node, a bare node counting as a list of one |
| `AppHost.GetSite` | src/app-host-config.ts:31-33 | none exactly when no site has the exact name; otherwise the last site with that name |
| `AppHost.GetSiteApplication` | src/app-host-config.ts:35-65 | SiteNotFound exactly when the site is missing. MalformedSite exactly when the site lacks a root application (the last one with path `/`) that has a root virtual directory. Otherwise: path `/`, the root application's pool, and the root directory's physical path. It fails with no other error, so a found site with both roots always succeeds |
| `AppHost.MissingRootApplication` | src/app-host-config.ts:43-48 | a site with no application at path `/` has no default application |
| `AppHost.MissingRootDirectory` | src/app-host-config.ts:50-58 | when the root application has no virtual directory at `/`, the site has no default application, even if an earlier `/` application has one |
| `AppHost.ExistsSiteApplication` | src/app-host-config.ts:104-118 | fails with SiteNotFound exactly when the site is missing; otherwise true exactly when some application of the site has that path |
| `AppHost.CommandResult` | src/app-host-config.ts:163-182 | the command is rejected exactly when the process errored or wrote to stderr; otherwise it yields at least one line (an empty stdout gives one empty line), the lines are CRLF-free and their CRLF join is stdout, so they are exactly the CRLF split |
| `AppHost.SiteNames` | src/app-host-config.ts:26-29 | fails with CommandRejected exactly when the listing fails; otherwise the names are the non-empty lines of the CRLF-split output, each present and none other, in order and with duplicates (by the two lemmas below) |
| `AppHost.NonEmptyLines` | src/app-host-config.ts:27-28 | every non-empty line is kept, and every kept line is a non-empty line of the input |
| `AppHost.NonEmptyLinesInOrder` | src/app-host-config.ts:27-28 | the filter keeps the lines' order: it distributes over concatenation, keeping a non-empty line and dropping an empty one |
| `AppHost.NonEmptyLinesCount` | src/app-host-config.ts:27-28 | duplicates are kept: each non-empty line occurs among the names exactly as often as among the lines |
| `AppHost.IndexedBackupFileNameInjective` | src/app-host-config.ts:126 | different indices give different backup names |
| `AppHost.ChooseBackupName` | src/app-host-config.ts:120-130 | the chosen name is not taken. It is the plain `.bak` name when that is free; otherwise an indexed name whose smaller indices are all taken |
| `AppHost.AppHostConfig.constructor` | src/app-host-config.ts:136-151 | the site list is the document's, with a bare site wrapped in a list; no command has run |
| `AppHost.AppHostConfig.ExecCommand` | src/app-host-config.ts:163-182 | exactly one `appcmd` run with these arguments is logged; the result is how that run settles |
| `AppHost.AppHostConfig.GetSiteNames` | src/app-host-config.ts:26-29 | one `list site /text:name` run is logged; the result is the site names |
| `AppHost.AppHostConfig.AddSiteApplication` | src/app-host-config.ts:67-93 | a missing site fails with nothing run. A path already in the snapshot runs nothing. Otherwise `add app` runs, and `set app` with the pool runs only if the add succeeded. The snapshot never changes |
| `AppHost.AppHostConfig.RemoveSiteApplication` | src/app-host-config.ts:95-102 | exactly one `delete app site+path` runs, with no existence check; it fails exactly when that run fails |
| `AppHost.AppHostConfig.SaveBackup` | src/app-host-config.ts:120-134 | the config file is copied to a free name in the config directory, chosen as `ChooseBackupName` says |
| `AppHost.RepeatedAddReissues` | src/app-host-config.ts:67-93 | whatever the first add printed, a second add of an application missing from the snapshot runs the add command again, and succeeds only if its own add and set commands do |
| `Watching.NewWatcher` | src/watcher.ts:15-19 | the watcher exists exactly when the site's default application resolves; otherwise the lookup's error is passed on |
| `Watching.WatchDepth` | src/watcher.ts:36 | a depth above -1 is passed through; -1 or below means unlimited |
| `Watching.Run` | src/watcher.ts:21-45 | two subscriptions, for added and for unlinked files, on the same pattern and options. The options are: polling, initial files ignored, the site root as working directory, and interval, stability threshold and poll interval all equal to the configured interval |
| `Watching.ToApplicationPath` | src/watcher.ts:63-67 | the application path starts with `/`, holds no backslash, and is `/` followed by the relative path with `/` separators: the relative path is never rooted already |
| `Watching.TranslationShape` | src/watcher.ts:47-67 | the physical path is the root's segments followed by the file's directory segments; the application path is `/` followed by the directory segments joined with `/` |
| `Watching.RootFileMapsToRoot` | src/watcher.ts:47-49 | a file directly under the site root maps to application `/` at the root itself |
| `Watching.NestedFileMapsToItsDirectory` | src/watcher.ts:47-49 | a file `sub/dir/name` maps to application `/sub/dir` at the root joined with `sub\dir` |
| `Watching.AddRequest` | src/watcher.ts:48-54 | the application passed to `addSiteApplication` carries the default application's pool and the translated paths |
| `Watching.OnAdd` | src/watcher.ts:47-55 | `$add` does what `addSiteApplication` does for the translated application |
| `Watching.OnRemove` | src/watcher.ts:57-61 | `$remove` runs exactly one delete of the translated application path |
| `Service.ValidateName` | src/dir-to-iis-app-service.ts:32 | a name is accepted exactly when it is non-empty and made of ASCII letters and dashes; otherwise the message is the name rule |
| `Service.ValidateInterval` | src/dir-to-iis-app-service.ts:52 | an interval is accepted exactly when it is at least 1; otherwise the message is the interval rule |
| `Service.ValidateDepth` | src/dir-to-iis-app-service.ts:60 | a depth is accepted exactly when it is at least -1; otherwise the message is the depth rule |
| `Service.PromptOptions` | src/dir-to-iis-app-service.ts:26-71 | six questions, the name question first and no other question named `name`; the site question is a select over the listed site names |
| `Service.InitialsAccepted` | src/dir-to-iis-app-service.ts:45-61 | the initial interval and depth offered pass their own validators |
| `Service.UninstallAsksOnlyName` | src/dir-to-iis-app-service.ts:21-24 | filtering the questions by name keeps the name question alone |
| `Service.GetFinds` | src/dir-to-iis-app-service.ts:76 | with unique keys, reading a key gives the value of the entry holding it |
| `Service.PutGet` | src/dir-to-iis-app-service.ts:76 | after the assignment the key reads the new value, and every other key reads as before |
| `Service.PutKeys` | src/dir-to-iis-app-service.ts:76 | the assignment keeps the key order, and appends the key when it is new |
| `Service.PutUnique` | src/dir-to-iis-app-service.ts:76 | the assignment keeps the keys unique |
| `Service.PutAppends` | src/dir-to-iis-app-service.ts:76 | assigning a key the answers lack appends it as the last entry |
| `Service.QuoteWrapped` | src/dir-to-iis-app-service.ts:102-111 | the result starts and ends with `"`. Between them is the trimmed path, with at most one leading quote and then at most one trailing quote removed, and nothing else changed |
| `Service.WrapByQuotes` | src/dir-to-iis-app-service.ts:102-111 | the step-by-step rewrite of the local path computes `QuoteWrapped` |
| `Service.QuoteWrappedIdempotent` | src/dir-to-iis-app-service.ts:102-111 | wrapping a wrapped path changes nothing |
| `Service.QuoteWrappedPlain` | src/dir-to-iis-app-service.ts:102-111 | a path with no outer quotes after trimming is wrapped as it stands |
| `Service.UndefinedWrapped` | src/dir-to-iis-app-service.ts:76 | a missing `paths` answer becomes `"undefined"` |
| `Service.ScriptEntriesExclude` | src/dir-to-iis-app-service.ts:80-88 | the script options hold every answer other than `name` and `startImmediately`, and only those |
| `Service.ScriptEntriesAppend` | src/dir-to-iis-app-service.ts:84-87 | the script options keep the entry order of the answers |
| `Service.ScriptOptionsSplit` | src/dir-to-iis-app-service.ts:84-87 | when no key or value holds a space, splitting the script options on spaces gives one `--key=value` token per option, in order |
| `Service.ServiceConfigFor` | src/dir-to-iis-app-service.ts:81-89 | the service is named by the `name` answer, aborts on error, and its script options are the tokens above |
| `Service.RunRequest` | src/dir-to-iis-app-service.ts:80-100 | the request uninstalls exactly when the `uninstall` option is truthy, starts the service on install exactly when `startImmediately` is truthy, and carries the service configuration built from the answers (`ServiceConfigFor`: the `name` answer, `--key=value` script options, abortOnError) |
| `Service.PathsOptionQuoted` | src/dir-to-iis-app-service.ts:73-78 | after `readOptions`, the `paths` answer is a string in double quotes, and the site and name answers are unchanged |
| `Service.UninstallScriptOptions` | src/dir-to-iis-app-service.ts:73-88 | answers holding only a name yield the one script option `--paths="undefined"` |
| `Service.DirToIisAppService.constructor` | src/dir-to-iis-app-service.ts:12-14 | the installer keeps the options and loads a fresh configuration object |
| `Service.DirToIisAppService.PromptOptionsFor` | src/dir-to-iis-app-service.ts:26-40 | the sites are listed once; it fails exactly when the listing fails, and otherwise yields the six questions over the listed sites |
| `Service.DirToIisAppService.Run` | src/dir-to-iis-app-service.ts:80-100 | exactly one request is made to the service manager, built from the answers and the options |
| `Service.DirToIisAppService.ReadOptions` | src/dir-to-iis-app-service.ts:73-78 | the request is built from the answers with `paths` quoted |
| `Service.DirToIisAppService.Install` | src/dir-to-iis-app-service.ts:16-19 | the backup copy is taken before the sites are listed. A failed listing requests nothing, but the backup already exists. Otherwise all six questions are asked and one request is made |
| `Service.DirToIisAppService.Uninstall` | src/dir-to-iis-app-service.ts:21-24 | the sites are still listed, and a failed listing stops it; otherwise only the name question is asked and one request is made |
| `Cli.FoldOneAlias` | src/index.ts:59-62 | the one-alias block is the fold of its group |
| `Cli.FoldThreeAliases` | src/index.ts:64-69 | the three-alias block is the fold of its group |
| `Cli.FoldTwoAliases` | src/index.ts:71-75 | the two-alias block is the fold of its group |
| `Cli.ProcessAliases` | src/index.ts:56-94 | the same object is returned, and its options are the six folds applied in order |
| `Cli.AliasesProcessedBlocks` | src/index.ts:56-94 | folding the alias table is running the six blocks one after another |
| `Cli.FoldAliasSpec` | src/index.ts:56-94 | a truthy key leaves its group as it was. A falsy key takes the first truthy alias, or else the last alias, and its aliases are deleted. No other option changes |
| `Cli.FoldGroupsOutside` | src/index.ts:56-94 | an option outside every group keeps its presence and value |
| `Cli.FoldGroupsSpec` | src/index.ts:56-94 | folding disjoint groups one after another gives each group the outcome it would have alone |
| `Cli.AliasGroupsDisjoint` | src/index.ts:56-94 | no option name belongs to two groups, and no key is its own alias |
| `Cli.AliasesProcessedSpec` | src/index.ts:56-94 | every group is folded as `FoldAliasSpec` says, and every other option is untouched |
| `Cli.DepthZeroReplaced` | src/index.ts:82-85 | a depth of 0 counts as missing: it is replaced by `d`, and `d` is deleted |
| `Cli.SiteFromFirstTruthyAlias` | src/index.ts:64-69 | a falsy site takes `website`, then `s`, then `w`, whichever is truthy first (else `w`), and all three are deleted |
| `Cli.TruthyKeyKeepsGroup` | src/index.ts:56-94 | a truthy canonical option leaves itself and its aliases untouched |

The following functions are the model's definitions of source expressions.
Their properties are stated by the members in the table above.

- `AppHost.Nodes`: a bare XML element read as a list of one (src/app-host-config.ts:112-115, src/app-host-config.ts:147-150).
- `Service.UninstallPrompts`: `.filter((option) => option.name === 'name')` over the questions (src/dir-to-iis-app-service.ts:22).
- `Service.Token`, `Service.Tokens`: `.map(([ key, value ]) => ...)` into `--key=value` tokens (src/dir-to-iis-app-service.ts:87).
- `Service.Description`: the service description naming the site (src/dir-to-iis-app-service.ts:83).
- `Paths.NormalizePath`: `resolve(...)` of the root for the watcher's `cwd` option (src/watcher.ts:33).
- `Text.Split`: `String(stdout).split('\r\n')` (src/app-host-config.ts:179).
- `Text.Join`: `.join(' ')` over the option tokens (src/dir-to-iis-app-service.ts:88).
- `Paths.JoinPath`, `Paths.DirName`: `join(root, parse(filePath).dir)` (src/watcher.ts:48, src/watcher.ts:58).
- `Paths.RelativePath`: `relative(root, physicalPath)` (src/watcher.ts:64).
- `AppHost.AddAppArgs`, `AppHost.SetAppPoolArgs`: the `add app` and `set app` arguments (src/app-host-config.ts:74-87).
- `AppHost.DeleteAppArgs`: the `delete app` arguments (src/app-host-config.ts:96).
- `Watching.PhysicalPathFor`, `Watching.ApplicationPathFor`: the physical and application paths of a changed file (src/watcher.ts:48-49, src/watcher.ts:58-59).
- `Service.Put`, `Service.WithWrappedPaths`: `values.paths = this._wrapByQuotes(values.paths)` (src/dir-to-iis-app-service.ts:76).
- `Service.ScriptEntries`: the rest of `{ name, startImmediately, ...options }` (src/dir-to-iis-app-service.ts:80).
- `Service.ScriptOptions`: `Object.entries(options).map(...).join(' ')` (src/dir-to-iis-app-service.ts:85-88).
- `Cli.FoldAlias`: one `if (!opts.key) { ... }` block of `processAliases` (src/index.ts:59-92).
- `Cli.AliasesProcessed`: the options `processAliases` returns (src/index.ts:56-95).

## Left out

- Reading `applicationHost.config` and converting XML to JSON are not modelled. The model starts from the parsed document (`AppHostDocument`). The checks that the file and the parse result exist are not modelled either; with a readable file they cannot fail.
- An absent `site`, `application` or `virtualDirectory` element is not modelled. The source then reads a property of `undefined` and throws a TypeError.
- Running `appcmd.exe`, `statSync` and `copyFileSync` are left out. Process outputs and the set of existing file names are parameters; commands and copies are recorded in an effect log.
- Logging (`Logger`, `EventLogger`, console colours) and the `JSON.stringify` messages are left out; they do not affect results.
- `Watching.ToApplicationPath`: the branch that keeps an already rooted relative path is never taken in this model. Node's `relative` yields a rooted path only for UNC or cross-root paths, which the path model leaves out.
- `Paths`: only a simplified version of Node's path module is modelled. Paths are lists of segments split on `/` or `\`, with empty segments dropped. `.`, `..`, drive and UNC roots, and case-insensitive comparison are not modelled.
- `Watching.Run`: the `!path` check on `resolve(...)` is left out, because `resolve` never returns an empty string. The chokidar file watcher itself is outside the model; its events are the calls to `OnAdd` and `OnRemove`.
- `Watching.NewWatcher`: the site name, interval and depth arrive already parsed. `Number(...)` on non-numeric text (NaN) is not modelled.
- `JsValues`: option values are undefined, booleans, integers or strings. Floats, NaN, arrays and objects are not modelled.
- `Service.ValidateInterval`: integers only, so fractional intervals are not modelled.
- The prompts library is external. The answers it resolves with are a parameter. How it applies `prompts.override(argv)`, repeats invalid answers, and handles cancelling are not modelled.
- The node-windows `Service` and its events (`_bindEvents`: installed, started, and so on) are not modelled. `run` records what it hands to the service manager: the configuration, install or uninstall, and whether to start once installed.
- `Service.ServiceConfigFor`: the script path is `resolve(__dirname, './run-watcher.js')`, with the module directory as a parameter.
- `setupCli`, `help` and the top-level dispatch in `src/index.ts` are optimist configuration and are left out. `src/logger.ts` and `src/run-watcher.ts` are not part of this model.
- Asynchrony is not modelled. A rejected promise is a `Failure` result, and awaited calls run in program order.
