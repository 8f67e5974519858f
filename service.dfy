/**
 * The installer of the watcher as a Windows service (`DirToIisAppService`):
 * the questions it asks, the validators of the answers, the quoting of the
 * watched paths, and the service configuration it hands to the service
 * manager. The prompt library, the service manager and the logger are outside
 * the model: the answers the prompts resolve with are a parameter, and what
 * would be handed to the service manager is recorded as a request.
 */
module Service {
  import opened Wrappers
  import opened Seqs
  import opened JsValues
  import opened Text
  import opened Paths
  import opened AppHost

  // ---------------------------------------------------------------------------
  // Prompts and their validators

  datatype PromptKind = TextPrompt | SelectPrompt | NumberPrompt | TogglePrompt

  /** Which validator a prompt carries. */
  datatype Rule = NoRule | NameRule | IntervalRule | DepthRule

  datatype Prompt = Prompt(kind: PromptKind, name: string, message: string,
                           choices: seq<string>, initial: Option<Value>, rule: Rule)

  /** What a validator answers: `true`, or the message shown to the user. */
  datatype Validation = Accepted | Rejected(message: string)

  predicate IsNameChar(c: char)
  {
    'a' <= c <= 'z' || 'A' <= c <= 'Z' || c == '-'
  }

  /** Every character of `s` is a letter or a dash. */
  predicate OnlyNameChars(s: string)
  {
    forall i :: 0 <= i < |s| ==> IsNameChar(s[i])
  }

  /** The regular expression `^[a-zA-Z\-]+$`, read character by character. */
  function MatchesNamePattern(s: string): (r: bool)
    ensures r <==> s != [] && OnlyNameChars(s)
  {
    s != [] && IsNameChar(s[0]) && (|s| == 1 || MatchesNamePattern(s[1..]))
  }

  const NameMessage := "Name must be only letters or dashes"
  const IntervalMessage := "Should be greater than 0."
  const DepthMessage := "Should be greater than or equal to -1."

  function ValidateName(name: string): (r: Validation)
    ensures r == Accepted <==> name != [] && OnlyNameChars(name)
    ensures r != Accepted ==> r == Rejected(NameMessage)
  {
    if MatchesNamePattern(name) then Accepted else Rejected(NameMessage)
  }

  function ValidateInterval(interval: int): (r: Validation)
    ensures r == Accepted <==> interval >= 1
    ensures r != Accepted ==> r == Rejected(IntervalMessage)
  {
    if interval > 0 then Accepted else Rejected(IntervalMessage)
  }

  function ValidateDepth(depth: int): (r: Validation)
    ensures r == Accepted <==> depth >= -1
    ensures r != Accepted ==> r == Rejected(DepthMessage)
  {
    if depth >= -1 then Accepted else Rejected(DepthMessage)
  }

  const NamePrompt := Prompt(TextPrompt, "name", "Service name", [], None, NameRule)

  /** The six questions `promptOptions` asks, the site choices being the IIS site names. */
  function PromptOptions(siteNames: seq<string>): (r: seq<Prompt>)
    ensures |r| == 6 && r[0] == NamePrompt
    ensures r[1].name == "site" && r[1].kind == SelectPrompt && r[1].choices == siteNames
    ensures forall i :: 1 <= i < |r| ==> r[i].name != "name"
  {
    [ NamePrompt,
      Prompt(SelectPrompt, "site", "IIS website name", siteNames, None, NoRule),
      Prompt(TextPrompt, "paths", "Paths to web.config files to be watched recursively, or glob patterns",
             [], None, NoRule),
      Prompt(NumberPrompt, "interval", "Interval of file system polling, in milliseconds.",
             [], Some(Num(15000)), IntervalRule),
      Prompt(NumberPrompt, "depth",
             "Limits how many levels of subdirectories will be traversed? (Leave -1 to unlimited)",
             [], Some(Num(-1)), DepthRule),
      Prompt(TogglePrompt, "startImmediately", "Should the service get started immediately?",
             [], Some(Bool(true)), NoRule) ]
  }

  /** The initial interval and depth the prompts offer pass their own validators. */
  lemma InitialsAccepted(siteNames: seq<string>)
    ensures PromptOptions(siteNames)[3].initial.Some?
    ensures PromptOptions(siteNames)[3].rule == IntervalRule
    ensures ValidateInterval(PromptOptions(siteNames)[3].initial.value.n) == Accepted
    ensures PromptOptions(siteNames)[4].rule == DepthRule
    ensures ValidateDepth(PromptOptions(siteNames)[4].initial.value.n) == Accepted
  {
  }

  /** The questions `uninstall` keeps: those named `name`. */
  function UninstallPrompts(siteNames: seq<string>): seq<Prompt>
  {
    Filter(PromptOptions(siteNames), (p: Prompt) => p.name == "name")
  }

  /** Uninstalling asks for the service name and nothing else. */
  lemma {:induction false} UninstallAsksOnlyName(siteNames: seq<string>)
    ensures UninstallPrompts(siteNames) == [NamePrompt]
  {
    var ps := PromptOptions(siteNames);
    var keep := (p: Prompt) => p.name == "name";
    assert ps == [ps[0]] + ps[1..];
    FilterAppend([ps[0]], ps[1..], keep);
    assert forall i :: 0 <= i < |ps[1..]| ==> !keep(ps[1..][i]);
    FilterNone(ps[1..], keep);
    assert Filter([ps[0]], keep) == [ps[0]] + Filter([], keep);
  }

  // ---------------------------------------------------------------------------
  // Answers: a JavaScript object, as its entries in insertion order

  type Entries = seq<(string, Value)>

  function Keys(entries: Entries): (r: seq<string>)
    ensures |r| == |entries| && forall i :: 0 <= i < |r| ==> r[i] == entries[i].0
  {
    if entries == [] then [] else [entries[0].0] + Keys(entries[1..])
  }

  predicate HasKey(entries: Entries, key: string)
  {
    key in Keys(entries)
  }

  /** No key appears twice, as in any JavaScript object. */
  predicate UniqueKeys(entries: Entries)
  {
    forall i, j :: 0 <= i < j < |entries| ==> entries[i].0 != entries[j].0
  }

  /** `values[key]`: the value stored under `key`, `undefined` when there is none. */
  function Get(entries: Entries, key: string): (v: Value)
    ensures !HasKey(entries, key) ==> v == Undefined
  {
    if entries == [] then Undefined
    else if entries[0].0 == key then entries[0].1
    else Get(entries[1..], key)
  }

  /** With unique keys, `Get` finds the value of the one entry holding the key. */
  lemma {:induction false} GetFinds(entries: Entries, i: int)
    requires UniqueKeys(entries) && 0 <= i < |entries|
    ensures Get(entries, entries[i].0) == entries[i].1
  {
    if i > 0 {
      GetFinds(entries[1..], i - 1);
    }
  }

  /** `values[key] = v`: replaces the value in place, or appends a new last entry. */
  function Put(entries: Entries, key: string, v: Value): (r: Entries)
  {
    if entries == [] then [(key, v)]
    else if entries[0].0 == key then [(key, v)] + entries[1..]
    else [entries[0]] + Put(entries[1..], key, v)
  }

  /** After an assignment `key` reads `v`, and every other key reads as before. */
  lemma {:induction false} PutGet(entries: Entries, key: string, v: Value, other: string)
    ensures Get(Put(entries, key, v), key) == v
    ensures other != key ==> Get(Put(entries, key, v), other) == Get(entries, other)
  {
    if entries != [] && entries[0].0 != key {
      PutGet(entries[1..], key, v, other);
    }
  }

  /** An assignment keeps the order of the keys, appending `key` when it is new. */
  lemma {:induction false} PutKeys(entries: Entries, key: string, v: Value)
    ensures HasKey(entries, key) ==> Keys(Put(entries, key, v)) == Keys(entries)
    ensures !HasKey(entries, key) ==> Keys(Put(entries, key, v)) == Keys(entries) + [key]
  {
    if entries != [] {
      var tail := entries[1..];
      assert Keys(entries) == [entries[0].0] + Keys(tail);
      if entries[0].0 != key {
        PutKeys(tail, key, v);
        assert Keys(Put(entries, key, v)) == [entries[0].0] + Keys(Put(tail, key, v));
      } else {
        assert Keys(Put(entries, key, v)) == [key] + Keys(tail);
      }
    }
  }

  /** An assignment keeps the keys unique. */
  lemma PutUnique(entries: Entries, key: string, v: Value)
    requires UniqueKeys(entries)
    ensures UniqueKeys(Put(entries, key, v))
  {
    PutKeys(entries, key, v);
    var r := Put(entries, key, v);
    var ks := Keys(entries);
    forall i, j | 0 <= i < j < |r| ensures r[i].0 != r[j].0 {
      assert r[i].0 == Keys(r)[i] && r[j].0 == Keys(r)[j];
      if !HasKey(entries, key) && j == |entries| {
        assert Keys(r)[i] == ks[i];
      }
    }
  }

  /** Assigning a key the entries lack appends it. */
  lemma {:induction false} PutAppends(entries: Entries, key: string, v: Value)
    requires !HasKey(entries, key)
    ensures Put(entries, key, v) == entries + [(key, v)]
  {
    if entries != [] {
      assert Keys(entries) == [entries[0].0] + Keys(entries[1..]);
      PutAppends(entries[1..], key, v);
      assert entries == [entries[0]] + entries[1..];
    }
  }

  // ---------------------------------------------------------------------------
  // Quoting the watched paths

  predicate IsQuote(c: char)
  {
    c == '"' || c == '\''
  }

  /**
   * `t[i..j]` is `t` with at most one leading quote removed and then at most
   * one trailing quote removed from what is left.
   */
  predicate StripsQuotes(t: string, i: int, j: int)
  {
    0 <= i <= j <= |t|
    && (i == 1 <==> t != [] && IsQuote(t[0])) && (i == 0 || i == 1)
    && (j == |t| - 1 <==> i < |t| && IsQuote(t[|t| - 1])) && (j == |t| || j == |t| - 1)
  }

  /** What `_wrapByQuotes` returns: the trimmed path, its outer quotes removed, in double quotes. */
  function QuoteWrapped(path: string): (r: string)
    ensures |r| >= 2 && r[0] == '"' && r[|r| - 1] == '"'
    ensures exists i, j :: StripsQuotes(Trim(path), i, j) && r == "\"" + Trim(path)[i..j] + "\""
  {
    var t := Trim(path);
    var i := if t != [] && IsQuote(t[0]) then 1 else 0;
    var j := if i < |t| && IsQuote(t[|t| - 1]) then |t| - 1 else |t|;
    assert StripsQuotes(t, i, j);
    "\"" + t[i..j] + "\""
  }

  /** `_wrapByQuotes`: trims, drops one leading and one trailing quote, then wraps in `"`. */
  method WrapByQuotes(path: string) returns (r: string)
    ensures r == QuoteWrapped(path)
  {
    var correctPath := Trim(path);
    if correctPath != [] && IsQuote(correctPath[0]) {
      correctPath := correctPath[1..];
    }
    if correctPath != [] && IsQuote(correctPath[|correctPath| - 1]) {
      correctPath := correctPath[..|correctPath| - 1];
    }
    r := "\"" + correctPath + "\"";
  }

  /** Wrapping an already wrapped path changes nothing. */
  lemma QuoteWrappedIdempotent(path: string)
    ensures QuoteWrapped(QuoteWrapped(path)) == QuoteWrapped(path)
  {
    var w := QuoteWrapped(path);
    TrimUnchanged(w);
    var inner := w[1..|w| - 1];
    assert w == "\"" + inner + "\"";
    assert w[1..][..|w[1..]| - 1] == inner;
  }

  /** A path with no outer quotes after trimming is wrapped as it stands. */
  lemma QuoteWrappedPlain(path: string)
    requires Trim(path) != [] && !IsQuote(Trim(path)[0]) && !IsQuote(Trim(path)[|Trim(path)| - 1])
    ensures QuoteWrapped(path) == "\"" + Trim(path) + "\""
  {
    var t := Trim(path);
    assert t[0..|t|] == t;
  }

  /** `String(undefined)` is wrapped as `"undefined"`. */
  lemma UndefinedWrapped()
    ensures QuoteWrapped("undefined") == "\"undefined\""
  {
    var w := "undefined";
    assert w[0] == 'u' && w[|w| - 1] == 'd';
    TrimUnchanged(w);
    QuoteWrappedPlain(w);
  }

  // ---------------------------------------------------------------------------
  // The service configuration built by `run`

  /** `--key=value`, the value rendered as a template literal renders it. */
  function Token(entry: (string, Value)): string
  {
    "--" + entry.0 + "=" + ToJsString(entry.1)
  }

  function Tokens(entries: Entries): (r: seq<string>)
    ensures |r| == |entries| && forall i :: 0 <= i < |r| ==> r[i] == Token(entries[i])
  {
    if entries == [] then [] else [Token(entries[0])] + Tokens(entries[1..])
  }

  /** `{ name, startImmediately, ...options }`: the entries left in `options`, in order. */
  function ScriptEntries(values: Entries): Entries
  {
    Filter(values, (e: (string, Value)) => e.0 != "name" && e.0 != "startImmediately")
  }

  /** The `scriptOptions` string: one token per remaining entry, joined by spaces. */
  function ScriptOptions(values: Entries): string
  {
    Join(Tokens(ScriptEntries(values)), " ")
  }

  /**
   * The script options name exactly the answers other than `name` and
   * `startImmediately`: every such answer appears, and nothing else does.
   */
  lemma ScriptEntriesExclude(values: Entries)
    ensures forall i :: 0 <= i < |ScriptEntries(values)| ==>
              ScriptEntries(values)[i] in values
              && ScriptEntries(values)[i].0 != "name" && ScriptEntries(values)[i].0 != "startImmediately"
    ensures forall i :: 0 <= i < |values| && values[i].0 != "name" && values[i].0 != "startImmediately" ==>
              values[i] in ScriptEntries(values)
  {
  }

  /** The entries keep their order: the options of a concatenation are concatenated. */
  lemma ScriptEntriesAppend(a: Entries, b: Entries)
    ensures ScriptEntries(a + b) == ScriptEntries(a) + ScriptEntries(b)
  {
    FilterAppend(a, b, (e: (string, Value)) => e.0 != "name" && e.0 != "startImmediately");
  }

  /**
   * When no key or value holds a space, splitting the script options on
   * spaces gives back exactly one token per option, in order.
   */
  lemma ScriptOptionsSplit(values: Entries)
    requires ScriptEntries(values) != []
    requires forall e :: e in values ==> ' ' !in e.0 && ' ' !in ToJsString(e.1)
    ensures Split(ScriptOptions(values), " ") == Tokens(ScriptEntries(values))
  {
    var entries := ScriptEntries(values);
    var tokens := Tokens(entries);
    forall i | 0 <= i < |tokens| ensures ' ' !in tokens[i] {
      assert entries[i] in values;
      TokenWithoutSpace(entries[i]);
    }
    SplitJoin(tokens, ' ');
  }

  /** A token holds a space only where its key or its value does. */
  lemma TokenWithoutSpace(entry: (string, Value))
    requires ' ' !in entry.0 && ' ' !in ToJsString(entry.1)
    ensures ' ' !in Token(entry)
  {
    var v := ToJsString(entry.1);
    assert Token(entry) == "--" + entry.0 + "=" + v;
    forall i | 0 <= i < |Token(entry)| ensures Token(entry)[i] != ' ' {
      if i < 2 {
      } else if i < 2 + |entry.0| {
        assert Token(entry)[i] == entry.0[i - 2];
      } else if i == 2 + |entry.0| {
      } else {
        assert Token(entry)[i] == v[i - 3 - |entry.0|];
      }
    }
  }

  const WatcherScriptName := "run-watcher.js"

  datatype ServiceConfig = ServiceConfig(
    name: Value, description: string, script: string, scriptOptions: string, abortOnError: bool)

  datatype ServiceAction = InstallService | UninstallService

  /**
   * What `run` hands to the service manager: the configuration, whether to
   * install or uninstall, and whether to start the service once installed.
   */
  datatype ServiceRequest = ServiceRequest(config: ServiceConfig, action: ServiceAction, startOnInstall: bool)

  function Description(site: Value): string
  {
    "Directories watcher by pattern to add it to IIS website " + ToJsString(site) + " as applications."
  }

  function ServiceConfigFor(values: Entries, moduleDirectory: string): (r: ServiceConfig)
    ensures r.name == Get(values, "name") && r.abortOnError
    ensures r.scriptOptions == ScriptOptions(values)
  {
    ServiceConfig(Get(values, "name"), Description(Get(ScriptEntries(values), "site")),
                  JoinPath(moduleDirectory, WatcherScriptName), ScriptOptions(values), true)
  }

  /** The request `run` makes: uninstall exactly when the `uninstall` option is truthy. */
  function RunRequest(values: Entries, argv: map<string, Value>, moduleDirectory: string): (r: ServiceRequest)
    ensures r.action == UninstallService <==> "uninstall" in argv && Truthy(argv["uninstall"])
    ensures r.startOnInstall <==> Truthy(Get(values, "startImmediately"))
    ensures r.config == ServiceConfigFor(values, moduleDirectory)
  {
    var uninstall := "uninstall" in argv && Truthy(argv["uninstall"]);
    ServiceRequest(ServiceConfigFor(values, moduleDirectory),
                   if uninstall then UninstallService else InstallService,
                   Truthy(Get(values, "startImmediately")))
  }

  /** `values.paths = this._wrapByQuotes(values.paths)`. */
  function WithWrappedPaths(values: Entries): Entries
  {
    Put(values, "paths", Str(QuoteWrapped(ToJsString(Get(values, "paths")))))
  }

  /** The `paths` option always reaches the script in double quotes. */
  lemma PathsOptionQuoted(values: Entries)
    ensures var p := Get(WithWrappedPaths(values), "paths");
            p.Str? && |p.s| >= 2 && p.s[0] == '"' && p.s[|p.s| - 1] == '"'
    ensures Get(WithWrappedPaths(values), "site") == Get(values, "site")
    ensures Get(WithWrappedPaths(values), "name") == Get(values, "name")
  {
    var u := Str(QuoteWrapped(ToJsString(Get(values, "paths"))));
    PutGet(values, "paths", u, "site");
    PutGet(values, "paths", u, "name");
  }

  /**
   * When the answers hold only a name, as the single question of an uninstall
   * yields, the script options are the one token `--paths="undefined"`: the
   * quoting adds a `paths` entry of its own.
   */
  lemma UninstallScriptOptions(values: Entries)
    requires forall i :: 0 <= i < |values| ==> values[i].0 == "name"
    ensures ScriptOptions(WithWrappedPaths(values)) == Token(("paths", Str("\"undefined\"")))
  {
    var u := Str("\"undefined\"");
    UninstallScriptEntries(values);
    assert Tokens([("paths", u)]) == [Token(("paths", u))];
    assert Join([Token(("paths", u))], " ") == Token(("paths", u));
  }

  /** The only option left after quoting an uninstall's answers is the added `paths`. */
  lemma UninstallScriptEntries(values: Entries)
    requires forall i :: 0 <= i < |values| ==> values[i].0 == "name"
    ensures ScriptEntries(WithWrappedPaths(values)) == [("paths", Str("\"undefined\""))]
  {
    var u := Str(QuoteWrapped(ToJsString(Get(values, "paths"))));
    UninstallPathsUndefined(values);
    PutAppends(values, "paths", u);
    ScriptEntriesAppend(values, [("paths", u)]);
    var keep := (e: (string, Value)) => e.0 != "name" && e.0 != "startImmediately";
    assert forall i :: 0 <= i < |values| ==> !keep(values[i]);
    FilterNone(values, keep);
    assert ScriptEntries([("paths", u)]) == [("paths", u)] + Filter([], keep);
  }

  /** Answers holding only a name have no `paths`, whose quoted rendering is `"undefined"`. */
  lemma UninstallPathsUndefined(values: Entries)
    requires forall i :: 0 <= i < |values| ==> values[i].0 == "name"
    ensures !HasKey(values, "paths")
    ensures QuoteWrapped(ToJsString(Get(values, "paths"))) == "\"undefined\""
  {
    assert forall i :: 0 <= i < |Keys(values)| ==> Keys(values)[i] != "paths";
    UndefinedWrapped();
  }

  // ---------------------------------------------------------------------------
  // The installer object

  class DirToIisAppService {
    /** The command-line options after alias folding. */
    const argv: map<string, Value>
    /** The directory the compiled installer lives in (`__dirname`). */
    const moduleDirectory: string
    const config: AppHostConfig
    /** The requests handed to the service manager so far. */
    var requests: seq<ServiceRequest>

    constructor (argv: map<string, Value>, moduleDirectory: string, doc: AppHostDocument)
      ensures this.argv == argv && this.moduleDirectory == moduleDirectory
      ensures fresh(config) && config.appHostConfig == doc && config.effects == []
      ensures requests == []
    {
      this.argv := argv;
      this.moduleDirectory := moduleDirectory;
      config := new AppHostConfig(doc);
      requests := [];
    }

    /** `promptOptions`: lists the sites to offer them as choices. */
    method PromptOptionsFor(listOutput: ProcessOutput) returns (r: Result<seq<Prompt>, Error>)
      modifies config`effects
      ensures config.effects == old(config.effects) + [Exec(ListSiteNamesArgs)]
      ensures r.Failure? <==> SiteNames(listOutput).Failure?
      ensures r.Success? ==> r.value == PromptOptions(SiteNames(listOutput).value)
    {
      var names := config.GetSiteNames(listOutput);
      if names.Failure? {
        return Failure(names.error);
      }
      r := Success(PromptOptions(names.value));
    }

    /** `run`: builds the configuration and asks for an install or an uninstall. */
    method Run(values: Entries)
      modifies this`requests
      ensures requests == old(requests) + [RunRequest(values, argv, moduleDirectory)]
    {
      requests := requests + [RunRequest(values, argv, moduleDirectory)];
    }

    /** `readOptions`: quotes the paths of the answers, then runs. */
    method ReadOptions(values: Entries)
      modifies this`requests
      ensures requests == old(requests) + [RunRequest(WithWrappedPaths(values), argv, moduleDirectory)]
    {
      var paths := WrapByQuotes(ToJsString(Get(values, "paths")));
      var wrapped := Put(values, "paths", Str(paths));
      Run(wrapped);
    }

    /**
     * `install`: saves the backup first, then lists the sites for the
     * questions; when the listing fails nothing is requested, but the backup
     * has been taken already. `values` are the answers to the questions.
     */
    method Install(existing: set<string>, listOutput: ProcessOutput, values: Entries)
      returns (backup: string, asked: seq<Prompt>, r: Result<(), Error>)
      modifies config`effects, this`requests
      ensures backup !in existing
      ensures config.effects == old(config.effects)
                                + [CopyFile(AppHostConfigPath, AppHostConfigDirectory + backup), Exec(ListSiteNamesArgs)]
      ensures r.Failure? <==> SiteNames(listOutput).Failure?
      ensures r.Failure? ==> requests == old(requests)
      ensures r.Success? ==> asked == PromptOptions(SiteNames(listOutput).value)
                             && requests == old(requests) + [RunRequest(WithWrappedPaths(values), argv, moduleDirectory)]
    {
      backup := config.SaveBackup(existing);
      var options := PromptOptionsFor(listOutput);
      if options.Failure? {
        return backup, [], Failure(options.error);
      }
      asked := options.value;
      ReadOptions(values);
      r := Success(());
    }

    /**
     * `uninstall`: lists the sites like `install` (a failing listing stops
     * it) but asks only for the service name.
     */
    method Uninstall(listOutput: ProcessOutput, values: Entries)
      returns (asked: seq<Prompt>, r: Result<(), Error>)
      modifies config`effects, this`requests
      ensures config.effects == old(config.effects) + [Exec(ListSiteNamesArgs)]
      ensures r.Failure? <==> SiteNames(listOutput).Failure?
      ensures r.Failure? ==> requests == old(requests)
      ensures r.Success? ==> asked == [NamePrompt]
                             && requests == old(requests) + [RunRequest(WithWrappedPaths(values), argv, moduleDirectory)]
    {
      var options := PromptOptionsFor(listOutput);
      if options.Failure? {
        return [], Failure(options.error);
      }
      asked := Filter(options.value, (p: Prompt) => p.name == "name");
      UninstallAsksOnlyName(SiteNames(listOutput).value);
      ReadOptions(values);
      r := Success(());
    }
  }
}
