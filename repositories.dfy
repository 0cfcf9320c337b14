/**
 * The repositories API: the `Repository` entity (its sharded directory, the
 * `active` flag, the size limit, its summary), the two ways of provisioning
 * one (from a zip archive, or by cloning a repository the server already
 * hosts), and the router that puts the existence check, the permission
 * check and the create/get/update handlers in order.
 *
 * The file system is a `Disk`: each repository directory maps to its
 * entries. Shell steps become updates of those entries; the tools the
 * server shells out to (unzip, the YAML converter, `du`) are inputs.
 */
module Repositories {
  import opened Wrappers
  import opened JsStrings
  import opened Helpers
  import PreReceive

  /**
   * A thrown error: its message and its `code`, if it has one. A
   * `GitServerError` always carries its status; what a failing shell step
   * carries is an input (see `Tools.stepCode`).
   */
  datatype ServerError = ServerError(message: string, code: Option<int>)

  /** `_.get(e, 'code', 500)`. */
  function StatusOf(e: ServerError): int {
    match e.code
    case Some(c) => c
    case None => 500
  }

  const YmlName := "hackerrank.yml"
  const JsonName := "hackerrank.json"
  const InitialCommit := "Add initial repository"
  const YmlUnreadable := "Unable to read the hackerrank.yml"
  const SourceNotFound := "Source Repo Not Found."
  const SourceUrlRequired := "Source URL is required."
  const NotFound := "Not found."
  const PermissionDenied := "Permission denied."
  /** The message of a failing shell step (the real one also names the command and its output). */
  const CommandFailed := "Command failed"

  /**
   * The tools the server shells out to. `unzip` fetches and extracts an
   * archive under a size limit (the extracted tree, or the error message);
   * `yamlToJson` converts the manifest; `hookSamples` is what git's template
   * puts in a new repository's `hooks`; `sizeOf` is `du` of a directory.
   * `stepCode` is the `code` of the error `chain` rejects with when one of
   * its steps fails: an `exec` rejection carries the shell's exit status,
   * and `chain` itself (in `src/helpers.js`) is not part of this model.
   */
  datatype Tools = Tools(
    unzip: (string, string) -> Result<map<string, Node>, string>,
    yamlToJson: string -> Result<string, string>,
    hookSamples: map<string, Node>,
    sizeOf: map<string, Node> -> int,
    stepCode: Option<int>)

  /** `asObject()`: what the API returns about a repository. */
  datatype Summary = Summary(id: string, created: bool, active: bool, size: int, key: string, url: string)

  /** The entries of a directory; a missing directory has none. */
  function Entries(dirs: map<string, map<string, Node>>, path: string): map<string, Node> {
    if path in dirs then dirs[path] else map[]
  }

  /** `if (!id) id = uuid()`: an absent or empty id is replaced by a fresh one. */
  function ChosenId(id: Option<string>, freshId: string): string {
    if id.Some? && id.value != "" then id.value else freshId
  }

  // ---------------------------------------------------------------------
  // max_size

  /** How a form value appears once interpolated into a command (`undefined` when absent). */
  function SizeText(size: Option<string>): string {
    match size
    case Some(s) => s
    case None => "undefined"
  }

  /**
   * `setMaxSize(size)`: when `parseInt(size, 10)` is a number, `echo` writes
   * the raw text and a newline to `max_size`; otherwise nothing changes.
   */
  function WithMaxSize(dirs: map<string, map<string, Node>>, path: string, size: Option<string>)
    : (r: map<string, map<string, Node>>)
    ensures ParseInt(SizeText(size)).None? || path !in dirs ==> r == dirs
    ensures ParseInt(SizeText(size)).Some? && path in dirs ==>
      r == dirs[path := dirs[path]["max_size" := File(SizeText(size) + "\n")]]
    ensures r.Keys == dirs.Keys
  {
    var text := SizeText(size);
    if ParseInt(text).Some? && path in dirs then dirs[path := dirs[path]["max_size" := File(text + "\n")]]
    else dirs
  }

  /** A size written by `setMaxSize` from a decimal integer is the limit the hook enforces. */
  lemma MaxSizeReachesHook(dirs: map<string, map<string, Node>>, path: string, n: int, defaultMaxSize: int)
    requires path in dirs
    ensures ParseInt(IntToString(n)) == Some(n)
    ensures var r := WithMaxSize(dirs, path, Some(IntToString(n)));
      r[path]["max_size"] == File(IntToString(n) + "\n")
      && PreReceive.LoadMaxSize(Some(r[path]["max_size"].text), defaultMaxSize) == n
  {
    ParseIntOfIntToString(n, []);
    assert IntToString(n) + [] == IntToString(n);
    PreReceive.MaxSizeRoundTrip(n, defaultMaxSize);
  }

  /**
   * `setMaxSize` accepts a digit string followed by other text (`parseInt`
   * reads the digits). When that text cannot continue a JSON number, the
   * hook's `JSON.parse` rejects what was written and the hook falls back to
   * the default limit.
   */
  lemma MaxSizeWithJunkIgnoredByHook(dirs: map<string, map<string, Node>>, path: string, n: nat, junk: string, defaultMaxSize: int)
    requires path in dirs
    requires junk != [] && !IsDigit(junk[0]) && !PreReceive.IsJsonSpace(junk[0])
    requires junk[0] != '.' && junk[0] != 'e' && junk[0] != 'E'
    ensures ParseInt(NatToString(n) + junk) == Some(n as int)
    ensures var r := WithMaxSize(dirs, path, Some(NatToString(n) + junk));
      r[path]["max_size"] == File(NatToString(n) + junk + "\n")
      && PreReceive.LoadMaxSize(Some(r[path]["max_size"].text), defaultMaxSize) == defaultMaxSize
  {
    var digits := NatToString(n);
    ParseIntOfIntToString(n, junk);
    assert digits + junk + "\n" == digits + (junk + "\n");
    PreReceive.JsonTrimKeeps(digits, junk + "\n");
  }

  // ---------------------------------------------------------------------
  // The layout of a bare repository and the provisioning steps

  /** What `git clone --bare` creates: a bare repository holding `history`, with git's sample hooks. */
  function BareRepo(history: seq<Commit>, hookSamples: map<string, Node>): map<string, Node> {
    map[
      "HEAD" := Internal,
      "config" := GitConfig(map["core.bare" := "true"]),
      "hooks" := Dir(hookSamples),
      "objects" := History(history),
      "refs" := Internal]
  }

  /** `git config receive.denyDeletes true` on a configuration entry. */
  function DenyDeletes(config: Node): Node {
    if config.GitConfig? then GitConfig(config.settings["receive.denyDeletes" := "true"])
    else GitConfig(map["receive.denyDeletes" := "true"])
  }

  /** The code the initial commit records: the extracted tree without the manifests. */
  function CodeTree(tree: map<string, Node>): map<string, Node> {
    tree - {YmlName, JsonName}
  }

  /** The history of a freshly provisioned repository: one commit over the code. */
  function InitialHistory(tree: map<string, Node>): seq<Commit> {
    [Commit(InitialCommit, CodeTree(tree))]
  }

  /** `hrConfigToJson(source)`: the converted manifest, or why it could not be read. */
  function ManifestJson(tree: map<string, Node>, tools: Tools): Result<string, string> {
    if YmlName in tree && tree[YmlName].File? then tools.yamlToJson(tree[YmlName].text)
    else Failure(YmlUnreadable)
  }

  /** The size limit handed to unzip: `maxSize || defaults.maxSize`. */
  function UnzipLimit(maxSize: Option<string>, defaultMaxSize: int): string {
    if maxSize.Some? && maxSize.value != "" then maxSize.value else IntToString(defaultMaxSize)
  }

  /** Writing the converted manifest next to the YAML one inside `source`. */
  function WriteJson(e: map<string, Node>, tree: map<string, Node>, json: string): map<string, Node> {
    e["source" := Dir(tree[JsonName := File(json)])]
  }

  /** `mv source/hackerrank.yml .` and `mv source/hackerrank.json .` */
  function MoveManifestsUp(e: map<string, Node>, tree: map<string, Node>, json: string): map<string, Node>
    requires YmlName in tree
  {
    e[YmlName := tree[YmlName]][JsonName := File(json)]["source" := Dir(CodeTree(tree))]
  }

  /** `git init`, `git add .`, `git commit -am "Add initial repository"` inside `source`. */
  function CommitSource(e: map<string, Node>, tree: map<string, Node>, hookSamples: map<string, Node>): map<string, Node> {
    e["source" := Dir(CodeTree(tree)[".git" := Dir(BareRepo(InitialHistory(tree), hookSamples))])]
  }

  /** `git clone --bare source repo`. */
  function CloneSource(e: map<string, Node>, tree: map<string, Node>, hookSamples: map<string, Node>): map<string, Node> {
    e["repo" := Dir(BareRepo(InitialHistory(tree), hookSamples))]
  }

  /** Moving the bare repository's entries up out of `repo`. */
  function MoveRepoUp(e: map<string, Node>, tree: map<string, Node>, hookSamples: map<string, Node>): map<string, Node> {
    (e + BareRepo(InitialHistory(tree), hookSamples))["repo" := Dir(map[])]
  }

  /** Emptying `hooks`. */
  function ClearHooks(e: map<string, Node>): map<string, Node> {
    e["hooks" := Dir(map[])]
  }

  /** `rm -r source repo` */
  function RemoveScratch(e: map<string, Node>): map<string, Node> {
    e - {"source", "repo"}
  }

  /** `ln -sf <hook> hooks/pre-receive` */
  function LinkHook(e: map<string, Node>, hookScript: string): map<string, Node> {
    var hooks := if "hooks" in e && e["hooks"].Dir? then e["hooks"].children else map[];
    e["hooks" := Dir(hooks["pre-receive" := Link(hookScript)])]
  }

  /** `git config receive.denyDeletes true` in the repository directory. */
  function ConfigDenyDeletes(e: map<string, Node>): map<string, Node> {
    e["config" := DenyDeletes(if "config" in e then e["config"] else Internal)]
  }

  /** The first half of the `createFromZip` chain: from the converted archive to the merged-up clone. */
  function Flattened(converted: map<string, Node>, tree: map<string, Node>, json: string,
                     hookSamples: map<string, Node>): map<string, Node>
    requires YmlName in tree
  {
    var moved := MoveManifestsUp(converted, tree, json);
    MoveRepoUp(CloneSource(CommitSource(moved, tree, hookSamples), tree, hookSamples), tree, hookSamples)
  }

  /** The second half: hooks emptied, scratch removed, the hook linked, deletions denied. */
  function Finish(e: map<string, Node>, hookScript: string): map<string, Node> {
    ConfigDenyDeletes(LinkHook(RemoveScratch(ClearHooks(e)), hookScript))
  }

  /**
   * The repository directory after the `createFromZip` chain (one shell
   * command of fourteen steps joined by `&&`), from its entries once the
   * manifest is converted.
   */
  function ZipChain(converted: map<string, Node>, tree: map<string, Node>, json: string,
                    hookScript: string, hookSamples: map<string, Node>): map<string, Node>
    requires YmlName in tree
  {
    Finish(Flattened(converted, tree, json, hookSamples), hookScript)
  }

  /** Moving the manifests up adds them beside the extracted entries. */
  lemma MovedFacts(extracted: map<string, Node>, tree: map<string, Node>, json: string)
    requires YmlName in tree
    ensures var moved := MoveManifestsUp(WriteJson(extracted, tree, json), tree, json);
      && moved.Keys == extracted.Keys + {YmlName, JsonName, "source"}
      && moved[YmlName] == tree[YmlName] && moved[JsonName] == File(json)
  {
  }

  /** After the merge-up: the manifests at the root and the bare repository's entries beside them. */
  lemma FlattenedFacts(extracted: map<string, Node>, tree: map<string, Node>, json: string, hookSamples: map<string, Node>)
    requires YmlName in tree
    ensures var f := Flattened(WriteJson(extracted, tree, json), tree, json, hookSamples);
      && YmlName in f && f[YmlName] == tree[YmlName]
      && JsonName in f && f[JsonName] == File(json)
      && "config" in f && f["config"] == GitConfig(map["core.bare" := "true"])
      && "objects" in f && f["objects"] == History(InitialHistory(tree))
      && "HEAD" in f && "refs" in f
      && (forall k :: k in extracted ==> k in f)
  {
    MovedFacts(extracted, tree, json);
  }

  /** The second half removes the scratch entries, replaces `hooks` by the linked hook and denies deletions. */
  lemma FinishFacts(e: map<string, Node>, hookScript: string)
    ensures var r := Finish(e, hookScript);
      && "source" !in r && "repo" !in r
      && "hooks" in r && r["hooks"] == Dir(map["pre-receive" := Link(hookScript)])
      && "config" in r && r["config"] == DenyDeletes(if "config" in e then e["config"] else Internal)
      && (forall k :: k in e && k != "source" && k != "repo" ==> k in r)
      && (forall k :: k in e && k != "source" && k != "repo" && k != "hooks" && k != "config" ==> r[k] == e[k])
  {
    assert map[]["pre-receive" := Link(hookScript)] == map["pre-receive" := Link(hookScript)];
  }

  /**
   * A provisioned repository directory: a bare repository holding `history`,
   * with both manifests at its root, `hooks` holding exactly `hooks`, and
   * deletions denied.
   */
  predicate Provisioned(e: map<string, Node>, history: seq<Commit>, yml: Node, json: Node, hooks: map<string, Node>) {
    && "HEAD" in e && "refs" in e
    && "objects" in e && e["objects"] == History(history)
    && YmlName in e && e[YmlName] == yml
    && JsonName in e && e[JsonName] == json
    && "hooks" in e && e["hooks"] == Dir(hooks)
    && "config" in e && e["config"] == GitConfig(map["core.bare" := "true", "receive.denyDeletes" := "true"])
  }

  /** Writing `max_size` keeps a directory provisioned. */
  lemma ProvisionedWithMaxSize(e: map<string, Node>, history: seq<Commit>, yml: Node, json: Node, hooks: map<string, Node>, size: Node)
    requires Provisioned(e, history, yml, json, hooks)
    ensures Provisioned(e["max_size" := size], history, yml, json, hooks)
  {
  }

  /**
   * A provisioned zip repository is a bare repository whose only commit is
   * "Add initial repository" over the extracted code, with both manifests
   * at its root, exactly the linked pre-receive hook in `hooks`, deletions
   * denied, and no scratch directories left.
   */
  lemma ZipLayoutProvisions(extracted: map<string, Node>, tree: map<string, Node>, json: string,
                            hookScript: string, hookSamples: map<string, Node>)
    requires YmlName in tree
    ensures var r := ZipChain(WriteJson(extracted, tree, json), tree, json, hookScript, hookSamples);
      && "source" !in r && "repo" !in r
      && (forall k :: k in extracted && k != "source" && k != "repo" ==> k in r)
      && Provisioned(r, InitialHistory(tree), tree[YmlName], File(json), map["pre-receive" := Link(hookScript)])
  {
    var f := Flattened(WriteJson(extracted, tree, json), tree, json, hookSamples);
    FlattenedFacts(extracted, tree, json, hookSamples);
    FinishFacts(f, hookScript);
    assert map["core.bare" := "true"]["receive.denyDeletes" := "true"]
        == map["core.bare" := "true", "receive.denyDeletes" := "true"];
  }

  /**
   * `createFromZip`: the outcome and the new directories. Extraction and
   * manifest failures become 400 with their message, before any layout step
   * (a failed conversion leaves the extracted `source` behind).
   */
  function CreateFromZipSpec(dirs: map<string, map<string, Node>>, path: string, zipUrl: string,
                             maxSize: Option<string>, config: Config, tools: Tools)
    : (Result<(), ServerError>, map<string, map<string, Node>>)
  {
    match tools.unzip(zipUrl, UnzipLimit(maxSize, config.defaultMaxSize))
    case Failure(msg) => (Failure(ServerError(msg, Some(400))), dirs)
    case Success(tree) =>
      var extracted := dirs[path := Entries(dirs, path)["source" := Dir(tree)]];
      match ManifestJson(tree, tools)
      case Failure(msg) => (Failure(ServerError(msg, Some(400))), extracted)
      case Success(json) =>
        var converted := extracted[path := WriteJson(extracted[path], tree, json)];
        var laid := converted[path := ZipChain(converted[path], tree, json, config.hookScript, tools.hookSamples)];
        (Success(()), WithMaxSize(laid, path, maxSize))
  }

  /** A zip without a readable manifest is refused with 400 and the converter's message. */
  lemma ZipWithoutManifestRefused(dirs: map<string, map<string, Node>>, path: string, zipUrl: string,
                                  maxSize: Option<string>, config: Config, tools: Tools, tree: map<string, Node>)
    requires tools.unzip(zipUrl, UnzipLimit(maxSize, config.defaultMaxSize)) == Success(tree)
    requires YmlName !in tree
    ensures CreateFromZipSpec(dirs, path, zipUrl, maxSize, config, tools).0
         == Failure(ServerError(YmlUnreadable, Some(400)))
  {
  }

  /** When extraction and conversion succeed, the three writes happen in order and creation succeeds. */
  lemma ZipSteps(dirs: map<string, map<string, Node>>, path: string, zipUrl: string,
                 maxSize: Option<string>, config: Config, tools: Tools, tree: map<string, Node>, json: string)
    requires tools.unzip(zipUrl, UnzipLimit(maxSize, config.defaultMaxSize)) == Success(tree)
    requires ManifestJson(tree, tools) == Success(json)
    ensures YmlName in tree
    ensures var extracted := Entries(dirs, path)["source" := Dir(tree)];
      var converted := WriteJson(extracted, tree, json);
      CreateFromZipSpec(dirs, path, zipUrl, maxSize, config, tools)
      == (Success(()), WithMaxSize(dirs[path := extracted][path := converted]
                                       [path := ZipChain(converted, tree, json, config.hookScript, tools.hookSamples)],
                                   path, maxSize))
  {
  }

  /**
   * A successful zip provisioning into a new directory leaves a provisioned,
   * active repository whose only commit is the initial one over the
   * extracted code, with the size limit written exactly when it parses, and
   * no other directory changed.
   */
  lemma ZipProvisioned(dirs: map<string, map<string, Node>>, path: string, zipUrl: string,
                       maxSize: Option<string>, config: Config, tools: Tools, tree: map<string, Node>, json: string)
    requires path !in dirs
    requires tools.unzip(zipUrl, UnzipLimit(maxSize, config.defaultMaxSize)) == Success(tree)
    requires ManifestJson(tree, tools) == Success(json)
    ensures YmlName in tree
    ensures var result := CreateFromZipSpec(dirs, path, zipUrl, maxSize, config, tools);
      && result.0 == Success(())
      && path in result.1 && IsActive(result.1, path)
      && Provisioned(result.1[path], InitialHistory(tree), tree[YmlName], File(json),
                     map["pre-receive" := Link(config.hookScript)])
      && ("max_size" in result.1[path] <==> ParseInt(SizeText(maxSize)).Some?)
      && (ParseInt(SizeText(maxSize)).Some? ==> result.1[path]["max_size"] == File(SizeText(maxSize) + "\n"))
      && (forall q :: q in dirs ==> q in result.1 && result.1[q] == dirs[q])
  {
    ZipSteps(dirs, path, zipUrl, maxSize, config, tools, tree, json);
    var extracted := map["source" := Dir(tree)];
    assert Entries(dirs, path)["source" := Dir(tree)] == extracted;
    var converted := WriteJson(extracted, tree, json);
    var layout := ZipChain(converted, tree, json, config.hookScript, tools.hookSamples);
    var before := dirs[path := extracted][path := converted];
    ZipFreshLayout(tree, json, config.hookScript, tools.hookSamples);
    FreshLayoutWithMaxSize(before, dirs, path, layout, maxSize, InitialHistory(tree), tree[YmlName], File(json),
                           map["pre-receive" := Link(config.hookScript)]);
  }

  /**
   * Writing the size limit over a provisioned layout without one, in a
   * directory that did not exist, keeps it provisioned and active and
   * leaves every other directory alone.
   */
  lemma FreshLayoutWithMaxSize(before: map<string, map<string, Node>>, dirs: map<string, map<string, Node>>, path: string,
                               layout: map<string, Node>, maxSize: Option<string>,
                               history: seq<Commit>, yml: Node, json: Node, hooks: map<string, Node>)
    requires path !in dirs && forall q :: q in dirs ==> q in before && before[q] == dirs[q]
    requires "max_size" !in layout && LockFile !in layout && Provisioned(layout, history, yml, json, hooks)
    ensures var r := WithMaxSize(before[path := layout], path, maxSize);
      && path in r && IsActive(r, path)
      && Provisioned(r[path], history, yml, json, hooks)
      && ("max_size" in r[path] <==> ParseInt(SizeText(maxSize)).Some?)
      && (forall q :: q in dirs ==> q in r && r[q] == dirs[q])
  {
    MaxSizeOnFreshDir(before, dirs, path, layout, maxSize);
    if ParseInt(SizeText(maxSize)).Some? {
      ProvisionedWithMaxSize(layout, history, yml, json, hooks, File(SizeText(maxSize) + "\n"));
    }
  }

  /** Provisioning a directory that held only the extracted archive leaves no lock and no size limit behind. */
  lemma ZipFreshLayout(tree: map<string, Node>, json: string, hookScript: string, hookSamples: map<string, Node>)
    requires YmlName in tree
    ensures var layout := ZipChain(WriteJson(map["source" := Dir(tree)], tree, json), tree, json, hookScript, hookSamples);
      && "max_size" !in layout && LockFile !in layout
      && Provisioned(layout, InitialHistory(tree), tree[YmlName], File(json), map["pre-receive" := Link(hookScript)])
  {
    ZipLayoutProvisions(map["source" := Dir(tree)], tree, json, hookScript, hookSamples);
    ZipChainAddsOnly(map["source" := Dir(tree)], tree, json, hookScript, hookSamples, "max_size");
    ZipChainAddsOnly(map["source" := Dir(tree)], tree, json, hookScript, hookSamples, LockFile);
  }

  /** The chain adds no entry besides the manifests and the bare repository's own. */
  lemma ZipChainAddsOnly(extracted: map<string, Node>, tree: map<string, Node>, json: string,
                         hookScript: string, hookSamples: map<string, Node>, k: string)
    requires YmlName in tree
    requires k !in extracted && k != YmlName && k != JsonName && k != "source" && k != "repo"
    requires k != "HEAD" && k != "config" && k != "hooks" && k != "objects" && k != "refs"
    ensures k !in ZipChain(WriteJson(extracted, tree, json), tree, json, hookScript, hookSamples)
  {
  }

  /** Writing a new directory and then its size limit leaves every other directory as it was. */
  lemma MaxSizeOnFreshDir(before: map<string, map<string, Node>>, dirs: map<string, map<string, Node>>, path: string,
                          layout: map<string, Node>, maxSize: Option<string>)
    requires forall q :: q in dirs ==> q in before && before[q] == dirs[q]
    requires "max_size" !in layout
    ensures var r := WithMaxSize(before[path := layout], path, maxSize);
      && path in r
      && (ParseInt(SizeText(maxSize)).Some? ==> r[path] == layout["max_size" := File(SizeText(maxSize) + "\n")])
      && (ParseInt(SizeText(maxSize)).None? ==> r[path] == layout)
      && (path !in dirs ==> forall q :: q in dirs ==> q in r && r[q] == dirs[q])
  {
  }

  /** The id of the repository a git URL names: its last '/'-separated segment. */
  function SourceId(gitUrl: string): string {
    var segments := Split(gitUrl, "/");
    segments[|segments| - 1]
  }

  /** The directory of the repository a git URL names (`new Repository(config, gitUrl.split('/').pop())`). */
  function SourcePath(gitRoot: string, gitUrl: string, spareId: string): string {
    Shard(gitRoot, ChosenId(Some(SourceId(gitUrl)), spareId))
  }

  /** `cp <source>/<name> <path>/`: the entries with the source's file added, or nothing when the source has no such file. */
  function CopyEntry(from: map<string, Node>, to: map<string, Node>, name: string): Option<map<string, Node>> {
    if name in from && from[name].File? then Some(to[name := from[name]]) else None
  }

  /**
   * `createFromGit`: the outcome and the new directories. A missing source
   * is a 404 before anything is written. The rest is one shell command of
   * six steps joined by `&&`: a failing step (cloning into a directory
   * that is not empty, a manifest the source lacks) stops it where it is,
   * with the error `chain` rejects with, whose `code` is `tools.stepCode`.
   */
  function CreateFromGitSpec(dirs: map<string, map<string, Node>>, path: string, gitUrl: string,
                             maxSize: Option<string>, config: Config, tools: Tools, spareId: string)
    : (Result<(), ServerError>, map<string, map<string, Node>>)
  {
    var source := SourcePath(config.gitRoot, gitUrl, spareId);
    if !IsRepo(dirs, source) then (Failure(ServerError(SourceNotFound, Some(404))), dirs)
    else if Entries(dirs, path) != map[] then (Failure(ServerError(CommandFailed, tools.stepCode)), dirs)
    else
      var origin := dirs[source];
      var cloned := BareRepo(origin["objects"].commits, tools.hookSamples);
      match CopyEntry(origin, cloned, YmlName)
      case None => (Failure(ServerError(CommandFailed, tools.stepCode)), dirs[path := cloned])
      case Some(withYml) =>
        match CopyEntry(origin, withYml, JsonName)
        case None => (Failure(ServerError(CommandFailed, tools.stepCode)), dirs[path := withYml])
        case Some(withJson) =>
          (Success(()), WithMaxSize(dirs[path := ConfigDenyDeletes(LinkHook(withJson, config.hookScript))], path, maxSize))
  }

  /** Cloning a repository that is not there is a 404 that leaves the disk alone. */
  lemma GitSourceMissing(dirs: map<string, map<string, Node>>, path: string, gitUrl: string,
                         maxSize: Option<string>, config: Config, tools: Tools, spareId: string)
    requires !IsRepo(dirs, SourcePath(config.gitRoot, gitUrl, spareId))
    ensures CreateFromGitSpec(dirs, path, gitUrl, maxSize, config, tools, spareId)
         == (Failure(ServerError(SourceNotFound, Some(404))), dirs)
  {
  }

  /**
   * A source without `hackerrank.yml` fails with the failing step's error
   * after the clone, which stays on disk.
   */
  lemma GitMissingManifestLeavesClone(dirs: map<string, map<string, Node>>, path: string, gitUrl: string,
                                      maxSize: Option<string>, config: Config, tools: Tools, spareId: string)
    requires IsRepo(dirs, SourcePath(config.gitRoot, gitUrl, spareId))
    requires path !in dirs
    requires YmlName !in dirs[SourcePath(config.gitRoot, gitUrl, spareId)]
    ensures var (outcome, r) := CreateFromGitSpec(dirs, path, gitUrl, maxSize, config, tools, spareId);
      && outcome == Failure(ServerError(CommandFailed, tools.stepCode))
      && path in r && YmlName !in r[path] && r[path]["hooks"] == Dir(tools.hookSamples)
  {
  }

  /**
   * Cloning an existing repository that has both manifests into an empty
   * directory succeeds: the new directory is provisioned with the source's
   * history and manifests, git's sample hooks plus the linked pre-receive
   * hook, and deletions denied; no other directory changes.
   */
  lemma GitProvisioned(dirs: map<string, map<string, Node>>, path: string, gitUrl: string,
                       maxSize: Option<string>, config: Config, tools: Tools, spareId: string)
    requires IsRepo(dirs, SourcePath(config.gitRoot, gitUrl, spareId))
    requires Entries(dirs, path) == map[]
    requires var origin := dirs[SourcePath(config.gitRoot, gitUrl, spareId)];
      YmlName in origin && origin[YmlName].File? && JsonName in origin && origin[JsonName].File?
    ensures var origin := dirs[SourcePath(config.gitRoot, gitUrl, spareId)];
      var result := CreateFromGitSpec(dirs, path, gitUrl, maxSize, config, tools, spareId);
      && result.0 == Success(())
      && path in result.1
      && Provisioned(result.1[path], origin["objects"].commits, origin[YmlName], origin[JsonName],
                     tools.hookSamples["pre-receive" := Link(config.hookScript)])
      && ("max_size" in result.1[path] <==> ParseInt(SizeText(maxSize)).Some?)
      && (ParseInt(SizeText(maxSize)).Some? ==> result.1[path]["max_size"] == File(SizeText(maxSize) + "\n"))
      && (forall q :: q in dirs && q != path ==> q in result.1 && result.1[q] == dirs[q])
  {
    var origin := dirs[SourcePath(config.gitRoot, gitUrl, spareId)];
    var cloned := BareRepo(origin["objects"].commits, tools.hookSamples);
    var linked := ConfigDenyDeletes(LinkHook(CopyEntry(origin, CopyEntry(origin, cloned, YmlName).value, JsonName).value, config.hookScript));
    CloneLayoutProvisions(origin, tools.hookSamples, config.hookScript);
    ProvisionedWithMaxSize(linked, origin["objects"].commits, origin[YmlName], origin[JsonName],
                           tools.hookSamples["pre-receive" := Link(config.hookScript)], File(SizeText(maxSize) + "\n"));
  }

  /** Copying both manifests into the clone, linking the hook and denying deletions provisions it. */
  lemma CloneLayoutProvisions(origin: map<string, Node>, hookSamples: map<string, Node>, hookScript: string)
    requires "objects" in origin && origin["objects"].History?
    requires YmlName in origin && origin[YmlName].File? && JsonName in origin && origin[JsonName].File?
    ensures var cloned := BareRepo(origin["objects"].commits, hookSamples);
      && CopyEntry(origin, cloned, YmlName).Some?
      && CopyEntry(origin, CopyEntry(origin, cloned, YmlName).value, JsonName).Some?
      && Provisioned(ConfigDenyDeletes(LinkHook(CopyEntry(origin, CopyEntry(origin, cloned, YmlName).value, JsonName).value, hookScript)),
                     origin["objects"].commits, origin[YmlName], origin[JsonName],
                     hookSamples["pre-receive" := Link(hookScript)])
  {
    assert map["core.bare" := "true"]["receive.denyDeletes" := "true"]
        == map["core.bare" := "true", "receive.denyDeletes" := "true"];
  }

  /** The last segment of `<host>/git/<id>` is the id, so a clone URL handed out names its repository. */
  lemma SourceIdOfRepoUrl(id: string, host: string, secure: bool)
    requires '/' !in id
    ensures SourceId(RepoUrl(id, host, secure)) == id
  {
    var url := RepoUrl(id, host, secure);
    var prefix := (if secure then "https" else "http") + "://" + host + "/git";
    assert url == prefix + "/" + id;
    SplitLastSegment(prefix, id);
  }

  /** Splitting on '/' ends with the text after the last '/'. */
  lemma {:induction false} SplitLastSegment(prefix: string, last: string)
    requires '/' !in last
    ensures var s := Split(prefix + "/" + last, "/"); s[|s| - 1] == last
    decreases |prefix|
  {
    var s := prefix + "/" + last;
    var i := IndexOf(s, "/");
    assert OccursAt(s, "/", |prefix|);
    IndexOfFindsOccurrence(s, "/", |prefix|);
    var k := i.value;
    if k == |prefix| {
      assert s[k + 1..] == last;
      NoSlashSplit(last);
    } else {
      assert k < |prefix|;
      assert s[k + 1..] == prefix[k + 1..] + "/" + last;
      SplitLastSegment(prefix[k + 1..], last);
    }
  }

  /** A text without '/' splits into itself. */
  lemma NoSlashSplit(s: string)
    requires '/' !in s
    ensures Split(s, "/") == [s]
  {
    forall j | 0 <= j < |s| ensures !OccursAt(s, "/", j) {
      assert s[j..j + 1] == [s[j]];
    }
  }

  /** `indexOf` finds an occurrence at or before any known one. */
  lemma IndexOfFindsOccurrence(s: string, pat: string, j: int)
    requires OccursAt(s, pat, j)
    ensures IndexOf(s, pat).Some? && IndexOf(s, pat).value <= j
  {
  }

  // ---------------------------------------------------------------------
  // The entity

  /** A repository by id, viewed through the disk it lives on. */
  class Repository {
    const config: Config
    const gitRoot: string
    const id: string
    const disk: Disk

    constructor(config: Config, id: Option<string>, freshId: string, disk: Disk)
      ensures this.config == config && gitRoot == config.gitRoot
      ensures this.id == ChosenId(id, freshId)
      ensures this.disk == disk
    {
      this.config := config;
      this.gitRoot := config.gitRoot;
      this.id := ChosenId(id, freshId);
      this.disk := disk;
    }

    /** `fsPath`: the sharded directory. */
    function FsPath(): string {
      Shard(gitRoot, id)
    }

    /** `exists`: the directory holds a bare repository. */
    predicate Exists()
      reads disk
    {
      IsRepo(disk.dirs, FsPath())
    }

    /** `active`: no `inactive.lock`. */
    predicate Active()
      reads disk
    {
      IsActive(disk.dirs, FsPath())
    }

    /** `active = val`: writes or removes the lock. */
    method SetActive(val: bool)
      modifies disk
      ensures disk.dirs == WithActive(old(disk.dirs), FsPath(), val)
      ensures FsPath() in disk.dirs ==> Active() == val
    {
      disk.dirs := WithActive(disk.dirs, FsPath(), val);
    }

    method SetMaxSize(size: Option<string>)
      modifies disk
      ensures disk.dirs == WithMaxSize(old(disk.dirs), FsPath(), size)
    {
      var text := SizeText(size);
      if ParseInt(text).Some? && FsPath() in disk.dirs {
        var path := FsPath();
        disk.dirs := disk.dirs[path := disk.dirs[path]["max_size" := File(text + "\n")]];
      }
    }

    /** `asObject()`, for the host and scheme of the current request. */
    function AsObject(host: string, secure: bool, tools: Tools): (s: Summary)
      reads disk
      ensures s.id == id && s.created && s.active == Active()
      ensures s.key == config.managerKey(id)
      ensures EndsWith(s.url, "/git/" + id)
    {
      Summary(id, true, Active(), tools.sizeOf(Entries(disk.dirs, FsPath())), config.managerKey(id),
              RepoUrl(id, host, secure))
    }

    /** `createFromZip`: extract, convert the manifest, run the layout chain, write the size limit. */
    method CreateFromZip(zipUrl: string, maxSize: Option<string>, tools: Tools)
      returns (r: Result<(), ServerError>)
      modifies disk
      ensures (r, disk.dirs) == CreateFromZipSpec(old(disk.dirs), FsPath(), zipUrl, maxSize, config, tools)
    {
      var path := FsPath();
      var unzipped := tools.unzip(zipUrl, UnzipLimit(maxSize, config.defaultMaxSize));
      if unzipped.Failure? {
        return Failure(ServerError(unzipped.error, Some(400)));
      }
      var tree := unzipped.value;
      disk.dirs := disk.dirs[path := Entries(disk.dirs, path)["source" := Dir(tree)]];
      var converted := ManifestJson(tree, tools);
      if converted.Failure? {
        return Failure(ServerError(converted.error, Some(400)));
      }
      var json := converted.value;
      disk.dirs := disk.dirs[path := WriteJson(disk.dirs[path], tree, json)];
      // The chain is one shell command: its steps compute the entries, written once it ends.
      var e := MoveManifestsUp(disk.dirs[path], tree, json);
      e := CommitSource(e, tree, tools.hookSamples);
      e := CloneSource(e, tree, tools.hookSamples);
      e := MoveRepoUp(e, tree, tools.hookSamples);
      e := ClearHooks(e);
      e := RemoveScratch(e);
      e := LinkHook(e, config.hookScript);
      e := ConfigDenyDeletes(e);
      disk.dirs := disk.dirs[path := e];
      SetMaxSize(maxSize);
      return Success(());
    }

    /** `createFromGit`: check the source, then clone, copy the manifests, link the hook, write the size limit. */
    method CreateFromGit(gitUrl: string, maxSize: Option<string>, tools: Tools, spareId: string)
      returns (r: Result<(), ServerError>)
      modifies disk
      ensures (r, disk.dirs) == CreateFromGitSpec(old(disk.dirs), FsPath(), gitUrl, maxSize, config, tools, spareId)
    {
      var sourceRepo := new Repository(config, Some(SourceId(gitUrl)), spareId, disk);
      var path := FsPath();
      if !sourceRepo.Exists() {
        return Failure(ServerError(SourceNotFound, Some(404)));
      }
      if Entries(disk.dirs, path) != map[] {
        return Failure(ServerError(CommandFailed, tools.stepCode));
      }
      var origin := disk.dirs[sourceRepo.FsPath()];
      var e := BareRepo(origin["objects"].commits, tools.hookSamples);
      if !(YmlName in origin && origin[YmlName].File?) {
        disk.dirs := disk.dirs[path := e];
        return Failure(ServerError(CommandFailed, tools.stepCode));
      }
      e := e[YmlName := origin[YmlName]];
      if !(JsonName in origin && origin[JsonName].File?) {
        disk.dirs := disk.dirs[path := e];
        return Failure(ServerError(CommandFailed, tools.stepCode));
      }
      e := e[JsonName := origin[JsonName]];
      e := LinkHook(e, config.hookScript);
      e := ConfigDenyDeletes(e);
      disk.dirs := disk.dirs[path := e];
      SetMaxSize(maxSize);
      return Success(());
    }
  }

  // ---------------------------------------------------------------------
  // The router

  /** A form body: field name to value. */
  type Body = map<string, string>

  /** `req.body[name]`, `undefined` when absent. */
  function Field(body: Body, name: string): Option<string> {
    if name in body then Some(body[name]) else None
  }

  predicate TruthyField(body: Body, name: string) {
    name in body && body[name] != ""
  }

  /** The three routes: `POST /`, `GET /:id`, `PUT /:id` (a route id is never empty). */
  datatype Request =
    | Create(creds: Credentials, body: Body)
    | Get(id: string, creds: Credentials)
    | Update(id: string, creds: Credentials, body: Body)

  /**
   * What one request may draw on besides the disk: the host and scheme it
   * came in on, the next two fresh uuids, and the tools.
   */
  datatype Context = Context(host: string, secure: bool, freshId: string, spareId: string, tools: Tools)

  datatype Reply = Text(text: string) | Details(summary: Summary)

  /**
   * What the client receives. `NoResponse`: `res.status(code).send(...)`
   * with a code outside 100..999 throws inside the handler (Node refuses to
   * write such a status line), so nothing is sent.
   */
  datatype Response = Response(status: int, reply: Reply) | NoResponse

  /** Node writes a status line only for a three-digit code. */
  predicate Sendable(status: int) {
    100 <= status <= 999
  }

  /** `res.status(code).send(text)`. */
  function SendStatus(status: int, text: string): (resp: Response)
    ensures resp.Response? <==> Sendable(status)
    ensures resp.Response? ==> resp == Response(status, Text(text))
  {
    if Sendable(status) then Response(status, Text(text)) else NoResponse
  }

  /** The summary of the repository with id `id` in `dirs`. */
  function SummaryOf(dirs: map<string, map<string, Node>>, config: Config, id: string, ctx: Context): Summary {
    var path := Shard(config.gitRoot, id);
    Summary(id, true, IsActive(dirs, path), ctx.tools.sizeOf(Entries(dirs, path)), config.managerKey(id),
            RepoUrl(id, ctx.host, ctx.secure))
  }

  /** `handlers.create` once permitted: zip first, then git, else 400. */
  function CreateSpec(dirs: map<string, map<string, Node>>, config: Config, body: Body, ctx: Context)
    : (Response, map<string, map<string, Node>>)
  {
    var id := ctx.freshId;
    var path := Shard(config.gitRoot, id);
    var maxSize := Field(body, "max_size");
    var made :=
      if TruthyField(body, "zip_url") then CreateFromZipSpec(dirs, path, body["zip_url"], maxSize, config, ctx.tools)
      else if TruthyField(body, "git_url") then CreateFromGitSpec(dirs, path, body["git_url"], maxSize, config, ctx.tools, ctx.spareId)
      else (Failure(ServerError(SourceUrlRequired, Some(400))), dirs);
    match made.0
    case Success(_) => (Response(200, Details(SummaryOf(made.1, config, id, ctx))), made.1)
    case Failure(e) => (SendStatus(StatusOf(e), e.message), made.1)
  }

  /** `handlers.update` once permitted: `active` only when the body has it, then `max_size`. */
  function UpdateSpec(dirs: map<string, map<string, Node>>, config: Config, id: string, body: Body, ctx: Context)
    : (Response, map<string, map<string, Node>>)
  {
    var path := Shard(config.gitRoot, id);
    var toggled := if "active" in body then WithActive(dirs, path, body["active"] == "true") else dirs;
    var after := WithMaxSize(toggled, path, Field(body, "max_size"));
    (Response(200, Details(SummaryOf(after, config, id, ctx))), after)
  }

  /**
   * The router: on `/:id` the existence check (404) runs before the
   * permission check (403); `POST /` has no repository, so only the admin
   * passes.
   */
  function HandleSpec(dirs: map<string, map<string, Node>>, config: Config, req: Request, ctx: Context)
    : (Response, map<string, map<string, Node>>)
  {
    match req
    case Create(creds, body) =>
      if !IsAdmin(creds, config, None) then (Response(403, Text(PermissionDenied)), dirs)
      else CreateSpec(dirs, config, body, ctx)
    case Get(id, creds) =>
      if !IsRepo(dirs, Shard(config.gitRoot, id)) then (Response(404, Text(NotFound)), dirs)
      else if !IsAdmin(creds, config, Some(id)) then (Response(403, Text(PermissionDenied)), dirs)
      else (Response(200, Details(SummaryOf(dirs, config, id, ctx))), dirs)
    case Update(id, creds, body) =>
      if !IsRepo(dirs, Shard(config.gitRoot, id)) then (Response(404, Text(NotFound)), dirs)
      else if !IsAdmin(creds, config, Some(id)) then (Response(403, Text(PermissionDenied)), dirs)
      else UpdateSpec(dirs, config, id, body, ctx)
  }

  /** An unknown repository is a 404 whatever the credentials, and nothing changes. */
  lemma NotFoundBeforePermission(dirs: map<string, map<string, Node>>, config: Config, req: Request, ctx: Context)
    requires !req.Create? && !IsRepo(dirs, Shard(config.gitRoot, req.id))
    ensures HandleSpec(dirs, config, req, ctx) == (Response(404, Text(NotFound)), dirs)
  {
  }

  /** Without admin or manager rights an existing repository answers 403 and nothing changes. */
  lemma PermissionRequired(dirs: map<string, map<string, Node>>, config: Config, req: Request, ctx: Context)
    requires !req.Create? ==> IsRepo(dirs, Shard(config.gitRoot, req.id))
    requires !IsAdmin(req.creds, config, if req.Create? then None else Some(req.id))
    ensures HandleSpec(dirs, config, req, ctx) == (Response(403, Text(PermissionDenied)), dirs)
  {
  }

  /** Creation is for the admin alone: no manager key opens `POST /`. */
  lemma ManagersCannotCreate(dirs: map<string, map<string, Node>>, config: Config, key: string, body: Body, ctx: Context)
    ensures HandleSpec(dirs, config, Create(Basic("manager", key), body), ctx).0 == Response(403, Text(PermissionDenied))
  {
  }

  /** Without a zip or git URL creation is a 400 that writes nothing. */
  lemma SourceUrlIsRequired(dirs: map<string, map<string, Node>>, config: Config, body: Body, ctx: Context)
    requires !TruthyField(body, "zip_url") && !TruthyField(body, "git_url")
    ensures CreateSpec(dirs, config, body, ctx) == (Response(400, Text(SourceUrlRequired)), dirs)
  {
  }

  /** The zip URL wins over the git URL when both are given. */
  lemma ZipTakesPrecedence(dirs: map<string, map<string, Node>>, config: Config, body: Body, ctx: Context)
    requires TruthyField(body, "zip_url")
    ensures CreateSpec(dirs, config, body, ctx).1
         == CreateFromZipSpec(dirs, Shard(config.gitRoot, ctx.freshId), body["zip_url"], Field(body, "max_size"), config, ctx.tools).1
  {
  }

  /**
   * A failed creation answers with the error's status, or 500 when it has
   * none, and its message; a status Node cannot write sends nothing.
   */
  lemma CreateFailureStatus(dirs: map<string, map<string, Node>>, config: Config, body: Body, ctx: Context, e: ServerError)
    requires TruthyField(body, "zip_url")
    requires CreateFromZipSpec(dirs, Shard(config.gitRoot, ctx.freshId), body["zip_url"], Field(body, "max_size"), config, ctx.tools).0 == Failure(e)
    ensures var status := if e.code.Some? then e.code.value else 500;
      && (100 <= status <= 999 ==> CreateSpec(dirs, config, body, ctx).0 == Response(status, Text(e.message)))
      && (!(100 <= status <= 999) ==> CreateSpec(dirs, config, body, ctx).0 == NoResponse)
  {
  }

  /**
   * Cloning a source that lacks `hackerrank.yml`: the answer is 500 when the
   * failing step's error has no `code`, and nothing at all when the code is
   * a shell exit status (1..99), which `res.status` cannot send.
   */
  lemma GitMissingManifestAnswer(dirs: map<string, map<string, Node>>, config: Config, body: Body, ctx: Context)
    requires !TruthyField(body, "zip_url") && TruthyField(body, "git_url")
    requires IsRepo(dirs, SourcePath(config.gitRoot, body["git_url"], ctx.spareId))
    requires Shard(config.gitRoot, ctx.freshId) !in dirs
    requires YmlName !in dirs[SourcePath(config.gitRoot, body["git_url"], ctx.spareId)]
    ensures ctx.tools.stepCode.None? ==> CreateSpec(dirs, config, body, ctx).0 == Response(500, Text(CommandFailed))
    ensures ctx.tools.stepCode.Some? && 0 < ctx.tools.stepCode.value < 100 ==> CreateSpec(dirs, config, body, ctx).0 == NoResponse
  {
    GitMissingManifestLeavesClone(dirs, Shard(config.gitRoot, ctx.freshId), body["git_url"], Field(body, "max_size"),
                                  config, ctx.tools, ctx.spareId);
  }

  /** An update with an empty body changes nothing and answers the unchanged summary. */
  lemma EmptyUpdateIsNoop(dirs: map<string, map<string, Node>>, config: Config, id: string, ctx: Context)
    ensures UpdateSpec(dirs, config, id, map[], ctx) == (Response(200, Details(SummaryOf(dirs, config, id, ctx))), dirs)
  {
  }

  /** An update touches `active` only when the body names it; then it is true exactly for "true". */
  lemma UpdateActiveRule(dirs: map<string, map<string, Node>>, config: Config, id: string, body: Body, ctx: Context)
    requires Shard(config.gitRoot, id) in dirs
    ensures var after := UpdateSpec(dirs, config, id, body, ctx).1;
      && ("active" in body ==> IsActive(after, Shard(config.gitRoot, id)) == (body["active"] == "true"))
      && ("active" !in body ==> IsActive(after, Shard(config.gitRoot, id)) == IsActive(dirs, Shard(config.gitRoot, id)))
  {
    var path := Shard(config.gitRoot, id);
    var toggled := if "active" in body then WithActive(dirs, path, body["active"] == "true") else dirs;
    var after := WithMaxSize(toggled, path, Field(body, "max_size"));
    assert path in toggled;
    assert LockFile in after[path] <==> LockFile in toggled[path];
  }

  /** The repositories router over one disk. */
  class Router {
    const config: Config
    const disk: Disk

    constructor(config: Config, disk: Disk)
      ensures this.config == config && this.disk == disk
    {
      this.config := config;
      this.disk := disk;
    }

    /** `middleware.repoId`, `middleware.permission`, then the route's handler. */
    method Handle(req: Request, ctx: Context) returns (resp: Response)
      modifies disk
      requires !req.Create? ==> req.id != ""
      ensures (resp, disk.dirs) == HandleSpec(old(disk.dirs), config, req, ctx)
    {
      match req
      case Create(creds, body) =>
        resp := Create(creds, body, ctx);
      case Get(id, creds) =>
        resp := Get(id, creds, ctx);
      case Update(id, creds, body) =>
        resp := Update(id, creds, body, ctx);
    }

    /** `POST /`: only the admin passes the permission check, then `handlers.create`. */
    method Create(creds: Credentials, body: Body, ctx: Context) returns (resp: Response)
      modifies disk
      ensures (resp, disk.dirs) == HandleSpec(old(disk.dirs), config, Request.Create(creds, body), ctx)
    {
      if !IsAdmin(creds, config, None) {
        return Response(403, Text(PermissionDenied));
      }
      var repo := new Repository(config, None, ctx.freshId, disk);
      var maxSize := Field(body, "max_size");
      var r: Result<(), ServerError>;
      if TruthyField(body, "zip_url") {
        r := repo.CreateFromZip(body["zip_url"], maxSize, ctx.tools);
      } else if TruthyField(body, "git_url") {
        r := repo.CreateFromGit(body["git_url"], maxSize, ctx.tools, ctx.spareId);
      } else {
        r := Failure(ServerError(SourceUrlRequired, Some(400)));
      }
      match r {
        case Success(_) =>
          return Response(200, Details(repo.AsObject(ctx.host, ctx.secure, ctx.tools)));
        case Failure(e) =>
          return SendStatus(StatusOf(e), e.message);
      }
    }

    /** `GET /:id`: existence, then permission, then `handlers.get`. */
    method Get(id: string, creds: Credentials, ctx: Context) returns (resp: Response)
      requires id != ""
      ensures disk.dirs == old(disk.dirs)
      ensures (resp, disk.dirs) == HandleSpec(disk.dirs, config, Request.Get(id, creds), ctx)
    {
      var repo := new Repository(config, Some(id), ctx.freshId, disk);
      if !repo.Exists() {
        return Response(404, Text(NotFound));
      }
      if !IsAdmin(creds, config, Some(repo.id)) {
        return Response(403, Text(PermissionDenied));
      }
      return Response(200, Details(repo.AsObject(ctx.host, ctx.secure, ctx.tools)));
    }

    /** `PUT /:id`: existence, then permission, then `handlers.update`. */
    method Update(id: string, creds: Credentials, body: Body, ctx: Context) returns (resp: Response)
      requires id != ""
      modifies disk
      ensures (resp, disk.dirs) == HandleSpec(old(disk.dirs), config, Request.Update(id, creds, body), ctx)
    {
      var repo := new Repository(config, Some(id), ctx.freshId, disk);
      if !repo.Exists() {
        return Response(404, Text(NotFound));
      }
      if !IsAdmin(creds, config, Some(repo.id)) {
        return Response(403, Text(PermissionDenied));
      }
      if "active" in body {
        repo.SetActive(body["active"] == "true");
      }
      repo.SetMaxSize(Field(body, "max_size"));
      return Response(200, Details(repo.AsObject(ctx.host, ctx.secure, ctx.tools)));
    }
  }
}
