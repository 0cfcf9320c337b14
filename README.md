# A verified model of the HackerRank git server core

The server hosts bare git repositories on disk, one directory per
repository id, sharded as `root/ab/cd/rest`. It has three moving parts, all
modelled here:

- the **repositories API** (`src/repositories.js`): the `Repository`
  entity, its `active` flag and `max_size` limit, and provisioning from a
  zip archive or by cloning a hosted repository. The router puts the
  existence check (404) before the permission check (403) and then calls
  the create, get or update handler;
- the **git gate** (`src/git-backend.js`): before a request reaches the
  smart-HTTP transport, it strips ".git" from the URL and reads the
  repository id. It answers 404 for a missing repository and 401 with a
  Basic challenge for an inactive one, unless the caller is the admin or
  that repository's manager. It then rewrites the id in the URL to its
  sharded path. The transport accepts every push and fetch;
- the **pre-receive hook** (`src/hooks/pre-receive.js`): it runs three
  checks in order, and the first failure wins: no branch deletion, size
  within `max_size`, no read-only file touched. A failure prints a red
  error banner and exits 1. Otherwise the hook prints a green banner. For
  a numeric size within a positive limit the banner carries a
  32-character usage gauge. When `du` prints no number the gauge is
  empty, and when rendering the status throws nothing is printed.

The application layer (`src/app.js`) is also modelled: the CORS origin
allowlist, the preflight answer and the health check.

The shared helpers (`repoPath`, `repoURL`, `isAdmin`, `isRepo`,
`isActive`) are modelled from how the core uses them and from
`test/helpers-test.js`. `src/helpers.js` is not part of this model.

Files:
- `wrappers.dfy`: `Option` and `Result`.
- `js_strings.dfy` (module `JsStrings`): the JavaScript string built-ins the core relies on. These are `trim`, `split` on white space and on a literal, `indexOf`, first-occurrence `replace`, `join`, `parseInt`, and `String` of an integer.
- `helpers.dfy` (module `Helpers`): the helpers, the `Disk` class and its `dirs` map, and the per-directory tree of `Node`s.
- `pre_receive.dfy` (module `PreReceive`): the hook.
  - `HookVerdict` is the specification of the whole run.
  - `Hook.Run` is the imperative run, proved equal to it.
- `repositories.dfy` (module `Repositories`): the entity and the provisioning specifications, the `Repository` and `Router` classes, and the router specification `HandleSpec`.
- `git_backend.dfy` (module `GitBackend`): the `Gate` specification, and the `GitRequest` class whose middleware steps are proved equal to it.
- `app.dfy` (module `App`): the origin patterns, the `AppRequest` class with `ValidateOrigin`, the CORS and OPTIONS answers, and the health check.

Where the code and the written design disagree, the model follows the
code:
- `setMaxSize` writes the raw text whenever `parseInt` reads a number. It does not check that the value is a non-negative integer.
- A deletion is detected by `git show` of the new hash failing with "bad object" and the null hash. The model does not compare the hash itself.
- For a null old hash, the read-only diff starts from master's root commit, not from an empty tree.
- The diff output is split on the two literal characters "s+". In JavaScript the string `'\s+'` is `"s+"`.
- `createFromGit` takes the source id from the last segment of the git URL.
- The repository summary also carries `created: true`.

Things outside the core are inputs. These are the commands the server and the hook shell out to (unzip, YAML conversion, `git show`, `du -sk`, `git rev-list`, `git diff`), the regular-expression engine, the HMAC of a manager key, fresh uuids, and the memory and file-system probes. The `code` carried by the error of a failing shell step in a provisioning chain is an input too, because `chain` lives in `src/helpers.js`.

## Model

| member | source | states |
|---|---|---|
| JsStrings.ReplaceFirst | src/git-backend.js:8 | `replace` with a string pattern and a replacement inserted as it is, as `url.replace('.git', '')` does. Only the first occurrence of the pattern is replaced. The text before it and after it is kept. Without an occurrence the URL is unchanged. |
| JsStrings.Substitute | src/git-backend.js:51-52 | The `$` substitution `replace` applies to a replacement string: `$$`, `$&`, `` $` `` and `$'` are replaced, and any other '$' is kept. A replacement without '$' comes out unchanged. |
| JsStrings.SubstituteEscaped | src/git-backend.js:51-52 | Doubling every '$' of a text makes the substitution give the text back, whatever was matched. |
| JsStrings.ReplaceString | src/git-backend.js:51-52 | `replace` with a string pattern and a string replacement. Without an occurrence the text is unchanged. A replacement without '$' is inserted as it is, as in `ReplaceFirst`. |
| JsStrings.ParseIntOfIntToString | src/repositories.js:63 | `parseInt` reads back every integer `String` writes, whatever non-digit text follows it. |
| JsStrings.SplitWsFirstTwo | src/hooks/pre-receive.js:10-12 | Splitting `a <spaces> b <rest>` on white space gives `a` and `b` as its first two pieces. |
| JsStrings.TrimIdempotent | src/hooks/pre-receive.js:83 | Trimming twice is trimming once. |
| JsStrings.Trim | src/hooks/pre-receive.js:83 | The result is no longer than the input and neither starts nor ends with white space. `TrimPadded` shows it is exactly the text between the leading and trailing white space. |
| JsStrings.SplitWs | src/hooks/pre-receive.js:10-12 | `split(/\s+/)` gives at least one piece, and no piece holds white space. `SplitWsCons` shows a separator run ends exactly one piece. |
| JsStrings.Split | src/git-backend.js:10 | `split(sep)` gives at least one piece. `SplitFirstPiece` shows the first piece is the text before the first separator. |
| JsStrings.IndexOf | src/hooks/pre-receive.js:47 | A found position is an occurrence with none before it. When nothing is found, the pattern occurs nowhere. |
| JsStrings.ParseInt | src/repositories.js:63 | `parseInt(s, 10)` is `NaN` exactly when no digit follows the leading white space and an optional sign. |
| JsStrings.IntToString | src/hooks/pre-receive.js:61 | `String(n)` is '-' and the digits of `-n` for a negative `n`, and the digits of `n` otherwise. |
| Helpers.Shard | test/helpers-test.js:9-35 | `repoPath(root, id)`. Its layout is proved in `ShardLayout`, and it is inverted in `ShardRoundTrip`. |
| Helpers.IsAdmin | test/helpers-test.js:51-82 | `isAdmin`: the admin with the admin key, or a manager with the key of the named repository. `ManagerScoped` proves the manager case. |
| Helpers.IsRepo | src/repositories.js:42-44 | `isRepo`: the directory holds a HEAD and a git object store. `GitProvisioned` and `ZipProvisioned` prove both ways of creating a repository leave a provisioned directory, which holds both. |
| Helpers.IsActive | src/repositories.js:50-52 | `isActive`: the directory holds no `inactive.lock`, which a missing directory never does. `WithActive` proves it reads back what was set. |
| Helpers.ShardLayout | test/helpers-test.js:15-34 | `repoPath(root, id)` under a non-empty root is stated for each id length: the root alone, `root/id`, `root/ab/rest` or `root/ab/cd/rest`. |
| Helpers.ShardEmptyRoot | test/helpers-test.js:20-23 | With an empty root the path is the sharded id alone. |
| Helpers.ShardShortExamples | test/helpers-test.js:25-34 | `t`, `tes` and `test` shard to `gitRoot/t`, `gitRoot/te/s` and `gitRoot/te/st`. |
| Helpers.ShardUuidExample | test/helpers-test.js:15-18 | A uuid shards to `gitRoot/06/3d/<rest>`. |
| Helpers.ShardUuidEmptyRootExample | test/helpers-test.js:20-23 | Under the empty root a uuid shards to `06/3d/<rest>`. |
| Helpers.ShardUnderRoot | src/git-backend.js:11 | A non-empty id's directory is the root, '/', and the id sharded under the empty root. This is the path the git wrapper rewrites to. |
| Helpers.ShardRoundTrip | src/repositories.js:46-48 | Dropping `root/` and the separators from a repository directory gives back its id. |
| Helpers.ShardInjective | src/repositories.js:46-48 | Two ids without '/' never share a directory. |
| Helpers.UnshardEmptyRoot | src/git-backend.js:64 | Removing every '/' from an id sharded under the empty root gives back the id. |
| Helpers.RepoUrl | test/helpers-test.js:38-48 | The clone URL starts with `https://` exactly when the request is secure, and ends with `/git/<id>`. |
| Helpers.ManagerScoped | test/helpers-test.js:69-82 | A manager passes exactly when a repository is named and the password is that repository's key. A key derived for another id is refused whenever the keys differ. |
| Helpers.WithActive | src/repositories.js:54-56 | After setting `active` on an existing directory, `isActive` reads the new value. A missing directory is left alone, and the directory changes in nothing but the lock file. |
| Helpers.WithActiveIdempotent | src/repositories.js:54-56 | Setting the flag twice is the same as setting it once. |
| Helpers.ActivateActive | src/repositories.js:54-56 | Activating an active repository changes nothing. |
| Helpers.DeactivateReactivate | test/repositories-test.js:285-320 | Deactivating then reactivating an active repository restores its directory exactly. |
| PreReceive.ParseStdin | src/hooks/pre-receive.js:10-12 | The old and new hashes from stdin. `StdinTokens` proves they are the first two white-space tokens. |
| PreReceive.LoadMaxSize | src/hooks/pre-receive.js:17-21 | `JSON.parse` of the `max_size` file, or the default. `MaxSizeRoundTrip` and `MaxSizeJunkFallsBack` prove both outcomes. |
| PreReceive.ParseJsonInteger | src/hooks/pre-receive.js:18 | `JSON.parse` of a text holding one integer, `None` for any other text. `ParseJsonIntegerOfIntToString` proves it reads back what `String` writes, and `JsonTrimKeeps` proves digits followed by junk are refused. |
| PreReceive.LoadHrConf | src/hooks/pre-receive.js:23-27 | The manifest's `configuration`, or `{}` without a readable manifest. `MissingManifestNoPatterns` proves the fallback. |
| PreReceive.PatternSources | src/hooks/pre-receive.js:91 | The `readonly_paths` list, none when it is falsy, or the TypeError reading it throws. `ReadonlyPathsShapes` and `MissingConfigurationThrows` state the cases. |
| PreReceive.ValidateHash | src/hooks/pre-receive.js:40-55 | The deletion check. `BranchDeletionRefused` and `DeletionRefusedFirst` prove a deleted branch is refused before any other check. |
| PreReceive.ProcessSize | src/hooks/pre-receive.js:29-66 | The size check. `SizeCheckRefusesAboveLimit` proves it refuses exactly above the limit, naming both sizes. |
| PreReceive.RepoSize | src/hooks/pre-receive.js:29-31 | `parseInt` of the first white-space token of `du -sk`, a failing `du` thrown on. `SizeCheckRefusesAboveLimit` proves what the hook does with the size it reads. |
| PreReceive.DiffFiles | src/hooks/pre-receive.js:85-89 | The diff output split on the literal "s+", each piece trimmed. |
| PreReceive.DiffBase | src/hooks/pre-receive.js:80-84 | The base of the diff. `NullOldHashUsesRootCommit` proves a null old hash becomes master's root commit. |
| PreReceive.ProcessReadOnly | src/hooks/pre-receive.js:79-106 | The read-only check. `ReadOnlyRefusesExactly` proves it refuses exactly when a changed file matches a valid pattern, listing every such file. |
| PreReceive.Checks | src/hooks/pre-receive.js:155-157 | The three checks in order, the first failure winning. `DeletionRefusedFirst` and `NoSilentAccept` state the order and the outcome. |
| PreReceive.Colorize | src/hooks/pre-receive.js:108-119 | `ansiColorize`. `UncolorizeColorize` proves it is inverted for red and green. |
| PreReceive.RenderError | src/hooks/pre-receive.js:142-153 | The red error banner. `RenderErrorLayout` and `ErrorMessageRoundTrip` prove its layout and that the message can be read back. |
| PreReceive.StatusText | src/hooks/pre-receive.js:121-140 | The green status with its gauge, or nothing when rendering throws. `WithinLimitGauge` and `GaugeWidth` prove the gauge for a size within the limit. |
| PreReceive.Percentage | src/hooks/pre-receive.js:122-124 | `Math.round(repoSizeMB / maxSizeMB * 100)`: NaN for an unreadable size, an infinity for a zero limit. `WithinLimitGauge` proves a size within a positive limit gives a percentage from 0 to 100. |
| PreReceive.Progress | src/hooks/pre-receive.js:130-131 | `Math.round(barLen * percentage / 100)`. `GaugeWidth` proves it lies from 0 to 32 for a percentage from 0 to 100. |
| PreReceive.ProgressBar | src/hooks/pre-receive.js:132 | `'#'.repeat(progress) + '-'.repeat(barLen - progress)`, `None` where `repeat` throws. `GaugeWidth` proves the bar is 32 characters, and `GaugeRange` proves it exists exactly for percentages from -1 to 101. |
| PreReceive.HookVerdict | src/hooks/pre-receive.js:155-169 | What the whole hook prints and how it exits. `Hook.Run` is proved equal to it, and `NoSilentAccept` proves no failure passes silently. |
| PreReceive.StdinTokens | src/hooks/pre-receive.js:10-12 | The old and new hashes are the first two white-space separated tokens of stdin. |
| PreReceive.ParseJsonIntegerOfIntToString | src/hooks/pre-receive.js:18 | `JSON.parse` reads back an integer `String` wrote. |
| PreReceive.JsonTrimTrailing | src/hooks/pre-receive.js:18 | Trailing JSON white space is skipped before the value is read. |
| PreReceive.MaxSizeRoundTrip | src/hooks/pre-receive.js:17-21 | A decimal integer followed by a newline, as `echo` writes it, is read back as the limit. |
| PreReceive.MaxSizeJunkFallsBack | src/hooks/pre-receive.js:17-21 | A digit string followed by other text is a number to `parseInt`. When that text starts with neither a digit, white space, '.', 'e' nor 'E', the hook's `JSON.parse` rejects it, so the hook falls back to the default limit. |
| PreReceive.JsonTrimKeeps | src/hooks/pre-receive.js:18 | Digits followed by a character that is not a digit, not white space, and not '.', 'e' or 'E' (which would continue a JSON number) are not JSON. |
| PreReceive.MissingManifestNoPatterns | src/hooks/pre-receive.js:23-27 | Without a readable `hackerrank.json` there are no read-only patterns. |
| PreReceive.ReadonlyPathsShapes | src/hooks/pre-receive.js:91 | A falsy `readonly_paths` means no patterns. A truthy one that is not an array throws a TypeError. |
| PreReceive.MissingConfigurationThrows | src/hooks/pre-receive.js:24 | A manifest object without `configuration` makes the read-only step throw a TypeError. |
| PreReceive.StringsToRegExps | src/hooks/pre-receive.js:68-77 | The kept patterns are exactly the sources that compile, and there are no more of them than sources. |
| PreReceive.StringsToRegExpsConcat | src/hooks/pre-receive.js:68-77 | Compilation keeps the input order. |
| PreReceive.MatchingFiles | src/hooks/pre-receive.js:93-99 | A file is kept exactly when it is in the diff and some pattern matches it. |
| PreReceive.MatchingFilesConcat | src/hooks/pre-receive.js:93-99 | The filter keeps diff order. |
| PreReceive.MatchingFilesNoPatterns | src/hooks/pre-receive.js:93-99 | With no patterns no file matches. |
| PreReceive.UncolorizeColorize | src/hooks/pre-receive.js:108-119 | Stripping the colour escape from a coloured text gives the text back. |
| PreReceive.RenderErrorLayout | src/hooks/pre-receive.js:142-153 | The banner is a fixed red head, the message, and a fixed tail. |
| PreReceive.ErrorMessageRoundTrip | src/hooks/pre-receive.js:142-153 | The message can be read back from the printed banner. |
| PreReceive.RoundHalfUp | src/hooks/pre-receive.js:124 | `Math.round(a / b)` is the integer nearest `a / b`, with halves rounded up. |
| PreReceive.GaugeWidth | src/hooks/pre-receive.js:130-132 | For a percentage in [0, 100] the gauge is exactly 32 characters: `round(32p/100)` '#' characters, then '-'. |
| PreReceive.GaugeRange | src/hooks/pre-receive.js:130-132 | The gauge renders exactly for percentages -1 to 101. Outside that range `repeat` throws. |
| PreReceive.WithinLimitGauge | src/hooks/pre-receive.js:121-132 | A repository within a positive limit always gets a percentage in [0, 100] and its gauge. |
| PreReceive.NoSilentAccept | src/hooks/pre-receive.js:155-169 | The failing check's message can be read back from the printed output. The push is accepted exactly when no check fails, and exits 1 otherwise. |
| PreReceive.DeletionRefusedFirst | src/hooks/pre-receive.js:40-55 | When `git show` reports the null hash as a bad object, the push is refused with the deletion message before the size and read-only checks. |
| PreReceive.NullHashToken | src/hooks/pre-receive.js:8 | The null hash is one non-empty token without white space. |
| PreReceive.VerdictOfChecks | src/hooks/pre-receive.js:155-169 | A failed check gives the red banner with its text. Otherwise the status is printed and the push accepted. |
| PreReceive.BranchDeletionRefused | src/hooks/pre-receive.js:40-55 | A push line `<old> <null hash> <ref>` is refused with "Deletion of branches is not allowed.". |
| PreReceive.SizeCheckRefusesAboveLimit | src/hooks/pre-receive.js:57-66 | A size strictly above the limit is refused, with the size and the limit in the message. A size equal to the limit goes on to the read-only check. |
| PreReceive.ReadOnlyRefusesExactly | src/hooks/pre-receive.js:79-106 | The read-only check refuses exactly when a changed file matches a pattern that compiles. The message lists every such file in diff order. |
| PreReceive.SomeFileMatches | src/hooks/pre-receive.js:91-101 | Some file matches a compiled pattern exactly when some file matches some valid source. |
| PreReceive.NoPatternsNoRefusal | src/hooks/pre-receive.js:91-105 | With no patterns the read-only check never refuses once git has answered. |
| PreReceive.NullOldHashUsesRootCommit | src/hooks/pre-receive.js:80-84 | A null old hash is replaced by master's root commit, trimmed. Any other old hash is used as it is. |
| PreReceive.UnknownErrorReported | src/hooks/pre-receive.js:161-168 | A failure that is not a ValidationError is refused as an unknown server error, naming the error and its message. |
| PreReceive.MatchesAny | src/hooks/pre-receive.js:94-98 | The pattern loop answers true exactly when some pattern matches the file. |
| PreReceive.FilterMatching | src/hooks/pre-receive.js:93-99 | The filter loop returns exactly the matching files in diff order. |
| PreReceive.Hook.constructor | src/hooks/pre-receive.js:10-27 | Start-up reads the hashes, the limit with its fallback, and `hrConf` with its fallback. |
| PreReceive.Hook.ProcessReadOnlyStep | src/hooks/pre-receive.js:79-106 | The step returns the read-only check's verdict. When the old hash is null and `git rev-list` succeeds, the old hash becomes master's trimmed root commit. Otherwise it is kept. |
| PreReceive.Hook.RunChecks | src/hooks/pre-receive.js:155-157 | The three checks run in order, and the first failure stops the chain. |
| PreReceive.Hook.Run | src/hooks/pre-receive.js:155-169 | The promise chain prints exactly the hook's verdict and exits with its code. |
| Repositories.StatusOf | src/repositories.js:146 | `_.get(e, 'code', 500)`. `CreateFailureStatus` proves a failed creation answers with it. |
| Repositories.CreateFromZipSpec | src/repositories.js:69-100 | The outcome and new directories of `createFromZip`. `ZipProvisioned` and `ZipWithoutManifestRefused` prove the success and the 400. |
| Repositories.SourceId | src/repositories.js:103 | The source id of a git URL. `SourceIdOfRepoUrl` proves it is the id of a clone URL the server hands out. |
| Repositories.CreateFromGitSpec | src/repositories.js:102-119 | The outcome and new directories of `createFromGit`. `GitSourceMissing`, `GitMissingManifestLeavesClone` and `GitProvisioned` prove the 404, a failing step and the success. |
| Repositories.CreateSpec | src/repositories.js:127-149 | `handlers.create`. `SourceUrlIsRequired`, `ZipTakesPrecedence` and `CreateFailureStatus` state its branches. |
| Repositories.UpdateSpec | src/repositories.js:151-157 | `handlers.update`. `EmptyUpdateIsNoop` and `UpdateActiveRule` state what it changes. |
| Repositories.HandleSpec | src/repositories.js:160-207 | The router. `NotFoundBeforePermission`, `PermissionRequired` and `ManagersCannotCreate` state the order of its checks. |
| Repositories.WithMaxSize | src/repositories.js:62-67 | When `parseInt` reads a number, the raw text and a newline are written to `max_size`. Otherwise nothing changes, and no directory is added or removed. |
| Repositories.MaxSizeReachesHook | src/repositories.js:62-67 | A decimal limit written by `setMaxSize` is the limit the hook enforces. |
| Repositories.MaxSizeWithJunkIgnoredByHook | src/repositories.js:62-67 | `setMaxSize` writes `<digits><junk>`. When the junk starts with neither a digit, white space, '.', 'e' nor 'E', the hook cannot parse it and enforces the default limit. |
| Repositories.MovedFacts | src/repositories.js:82-83 | Both manifests move up beside the extracted entries. |
| Repositories.FlattenedFacts | src/repositories.js:80-90 | After the merge-up, the root holds the manifests, a bare config and the single-commit history. |
| Repositories.FinishFacts | src/repositories.js:91-94 | Scratch is removed, `hooks` holds only the linked hook, and deletions are denied. |
| Repositories.ProvisionedWithMaxSize | src/repositories.js:97 | Writing `max_size` keeps a repository provisioned. |
| Repositories.ZipLayoutProvisions | src/repositories.js:80-95 | The chain leaves a bare repository whose only commit is "Add initial repository" over the code. Both manifests are at the root, only the pre-receive hook is linked, and deletions are denied. |
| Repositories.ZipWithoutManifestRefused | src/repositories.js:73-78 | A zip without `hackerrank.yml` is refused with 400. |
| Repositories.ZipSteps | src/repositories.js:69-99 | After extraction and conversion succeed, the chain and the size limit follow, and creation succeeds. |
| Repositories.ZipProvisioned | src/repositories.js:69-100 | Zip provisioning into a new directory leaves a provisioned, active repository. The limit is written exactly when it parses, as the given text and a newline, and no other directory changes. |
| Repositories.FreshLayoutWithMaxSize | src/repositories.js:97 | Writing the limit over a fresh layout keeps it provisioned and active and leaves other directories alone. |
| Repositories.ZipFreshLayout | src/repositories.js:80-95 | A fresh layout has no lock and no limit. |
| Repositories.ZipChainAddsOnly | src/repositories.js:80-95 | The chain adds no entry besides the manifests and the bare repository's own. |
| Repositories.MaxSizeOnFreshDir | src/repositories.js:97 | Writing a new directory and its limit leaves every other directory as it was. |
| Repositories.GitSourceMissing | src/repositories.js:102-108 | Cloning a repository that does not exist is a 404 that writes nothing. |
| Repositories.GitMissingManifestLeavesClone | src/repositories.js:110-117 | A source without `hackerrank.yml` fails with the failing step's error after the clone, and the clone stays on disk. |
| Repositories.GitProvisioned | src/repositories.js:102-119 | Cloning a source with both manifests provisions the new directory with the source's history and manifests. The sample hooks stay, the pre-receive hook is added, the limit is written as the given text and a newline exactly when it parses, and no other directory changes. |
| Repositories.CloneLayoutProvisions | src/repositories.js:110-117 | Copying both manifests, linking the hook and denying deletions provisions the clone. |
| Repositories.SourceIdOfRepoUrl | src/repositories.js:103 | The last segment of a clone URL handed out is its id. |
| Repositories.SplitLastSegment | src/repositories.js:103 | `split('/').pop()` is the text after the last '/'. |
| Repositories.Repository.constructor | src/repositories.js:16-25 | An absent or empty id is replaced by a fresh one. |
| Repositories.Repository.FsPath | src/repositories.js:46-48 | `repoPath(gitRoot, id)`. `ShardRoundTrip` and `ShardInjective` prove the id can be read back from it and no two ids without '/' share it. |
| Repositories.Repository.Exists | src/repositories.js:42-44 | `isRepo(fsPath)`. `NotFoundBeforePermission` proves a request on a repository that does not exist answers 404. |
| Repositories.Repository.Active | src/repositories.js:50-52 | `isActive(fsPath)`. `SetActive` proves it reads back the value set. |
| Repositories.Repository.SetActive | src/repositories.js:54-56 | The disk becomes `WithActive`, and `active` reads back the value set. |
| Repositories.Repository.SetMaxSize | src/repositories.js:62-67 | The disk becomes `WithMaxSize` of the old disk. |
| Repositories.Repository.AsObject | src/repositories.js:27-36 | The summary carries the id, `created`, the current flag, the manager key and a URL ending `/git/<id>`. |
| Repositories.Repository.CreateFromZip | src/repositories.js:69-100 | The outcome and new disk are `CreateFromZipSpec` of the old disk. |
| Repositories.Repository.CreateFromGit | src/repositories.js:102-119 | The outcome and new disk are `CreateFromGitSpec` of the old disk. That is a 404 for a missing source, the failing step's error with the step's `code`, or the provisioned clone. |
| Repositories.NotFoundBeforePermission | src/repositories.js:171-188 | An unknown repository is a 404 whatever the credentials, and nothing changes. |
| Repositories.PermissionRequired | src/repositories.js:161-169 | Without admin or manager rights the answer is 403, and nothing changes. |
| Repositories.ManagersCannotCreate | src/repositories.js:161-169 | No manager key opens `POST /`. |
| Repositories.SourceUrlIsRequired | src/repositories.js:131-138 | Without a zip or git URL, creation is a 400 that writes nothing. |
| Repositories.ZipTakesPrecedence | src/repositories.js:132-136 | The zip URL wins over the git URL. |
| Repositories.CreateFailureStatus | src/repositories.js:140-148 | A failed creation answers with the error's status, or 500, and its message. A status outside 100..999 sends nothing. |
| Repositories.SendStatus | src/repositories.js:146 | `res.status(code).send(text)` sends the status and text exactly when the code has three digits. Otherwise nothing is sent. |
| Repositories.GitMissingManifestAnswer | src/repositories.js:102-148 | Cloning a source without `hackerrank.yml` answers 500 when the failing step's error has no code. When the code is a shell exit status, nothing is sent. |
| Repositories.EmptyUpdateIsNoop | src/repositories.js:151-157 | An update with an empty body changes nothing and answers the summary. |
| Repositories.UpdateActiveRule | src/repositories.js:152-154 | `active` changes only when the body names it, and is then true exactly for "true". |
| Repositories.Router.constructor | src/repositories.js:192-210 | The router is bound to the configuration and the disk. |
| Repositories.Router.Handle | src/repositories.js:192-210 | The response and new disk are `HandleSpec` of the old disk. |
| Repositories.Router.Create | src/repositories.js:127-149 | `POST /` follows `HandleSpec`. |
| Repositories.Router.Get | src/repositories.js:123-125 | `GET /:id` follows `HandleSpec` and changes nothing. |
| Repositories.Router.Update | src/repositories.js:151-157 | `PUT /:id` follows `HandleSpec`. |
| GitBackend.StripGit | src/git-backend.js:8 | The first ".git" removed from the URL. |
| GitBackend.PathOf | src/git-backend.js:10 | `req.path`. `PathOfStopsAtQuery` proves it is the URL before its first '?'. |
| GitBackend.RepoId | src/git-backend.js:10 | `req.path.split('/')[1]`. `RepoIdIsFirstSegment` proves it is the first path segment. |
| GitBackend.Rewrite | src/git-backend.js:51-52 | The first occurrence of the id in the URL replaced by its sharded path, after `$` substitution. `RewriteShardsId` proves the replacement hits the id after the leading '/' and puts `ForwardedName` there. |
| GitBackend.RewriteLiteral | src/git-backend.js:51-52 | The rewrite with the sharded path inserted as it is. `LiteralRewriteShardsId` proves it puts the sharded id after the leading '/' for every id. |
| GitBackend.ForwardedName | src/git-backend.js:51-52 | What the rewrite puts in the id's place: the sharded id after `$` substitution. `RewriteShardsId` proves it is the sharded id itself for an id without '$'. |
| GitBackend.Gate | src/git-backend.js:7-55 | The middleware chain's decision, and the rewritten URL with its `$` substitution. `GateAdmits` proves who is forwarded. `ForwardedToCheckedDirectory` and `DollarIdForwardedElsewhere` prove where the URL goes. |
| GitBackend.OnTransport | src/git-backend.js:61-79 | The push and fetch handlers. `TransportAcceptsForwarded` proves both accept, and log the checked id when it has no '$'. |
| GitBackend.PathOfStopsAtQuery | src/git-backend.js:10 | `req.path` is the part of the URL before its first '?'. |
| GitBackend.RootedPath | src/git-backend.js:8-10 | Stripping ".git" and the query keeps the leading '/'. |
| GitBackend.RepoIdIsFirstSegment | src/git-backend.js:10 | The id is the path's first segment. It follows the leading '/', holds no '/' or '?', and is followed by '/' or the end. |
| GitBackend.RewriteShardsId | src/git-backend.js:51-52 | The rewrite replaces the id right after the leading '/' with `ForwardedName` and keeps the rest of the URL. That name is the sharded id exactly as written whenever the id has no '$'. |
| GitBackend.LiteralRewriteShardsId | src/git-backend.js:51-52 | Inserting the sharded path as it is puts the sharded id right after the leading '/' for every id, and keeps the rest of the URL. |
| GitBackend.DollarIdForwardedElsewhere | src/git-backend.js:11-52 | For an id that starts with `$$` and has no other '$', the gate checks `root/` plus the sharded id, but the URL is forwarded to the sharded id without its first '$', a different name. |
| GitBackend.DollarShardSubstituted | src/git-backend.js:51-52 | The substitution turns the leading `$$` of such a sharded id into one '$', so the result differs from the sharded id. |
| GitBackend.DollarUrlId | src/git-backend.js:8-10 | `/$$abcd/info/refs` is rooted, keeps its text when ".git" is stripped, and has the id `$$abcd`. |
| GitBackend.RepoIdOfSegment | src/git-backend.js:8-10 | A URL `/id/rest` with no '.' or '?' is kept by the ".git" strip and has `id` as its id. |
| GitBackend.GateAdmits | src/git-backend.js:7-44 | A request is forwarded exactly when its repository exists and is active or the caller is admin or its manager. A missing repository is a 404 before credentials are asked for. A 401 happens exactly for an inactive repository without rights, and it carries the Basic challenge. |
| GitBackend.ForwardedToCheckedDirectory | src/git-backend.js:11-52 | A forwarded URL is '/', `ForwardedName`, then the rest of the URL. The gate checked `root/` plus the sharded id. For an id without '$' the forwarded URL names exactly that directory. |
| GitBackend.TransportAcceptsForwarded | src/git-backend.js:61-79 | Every push and fetch on a forwarded name is accepted. For an id without '$' the id logged is the id the gate checked. |
| GitBackend.GitRequest.constructor | src/git-backend.js:84-94 | A request starts with its URL and credentials. |
| GitBackend.GitRequest.RepoStep | src/git-backend.js:7-28 | The step strips ".git" and records the id, the path and the flag. It stops with 404 exactly when there is no repository. |
| GitBackend.GitRequest.PermissionStep | src/git-backend.js:30-44 | The step stops with the 401 challenge exactly when the repository is inactive and the caller has no rights. |
| GitBackend.GitRequest.WrapStep | src/git-backend.js:46-55 | The URL becomes `Rewrite` of it: the id becomes its sharded path after `$` substitution. Nothing else changes. |
| GitBackend.GitRequest.Serve | src/git-backend.js:96-115 | The middleware chain's outcome is `Gate` of the original URL. That includes the forwarded URL with the `$` substitution of the rewrite. |
| App.HostMatch | src/app.js:11-13 | `/^(.*\/)?host$/`. `HostMatchShapes`, `HostMatchEndsWith` and `HostMatchNeedsSlash` state what it matches. |
| App.HostPortMatch | src/app.js:12-14 | `/^(.*\/)?host:\d+$/`. `HostPortMatchSplit` relates it to `HostMatch`. |
| App.OriginAccepted | src/app.js:8-22 | Some pattern of the list matches a present origin. The example lemmas and the findings row state which origins pass. |
| App.CorsHeaders | src/app.js:26-33 | The CORS headers. `PreflightDecision` proves they are sent exactly for an allowed origin, echoing it. |
| App.OptionsStatus | src/app.js:35-41 | The OPTIONS answer. `PreflightDecision` proves it is 401 exactly for a present origin that is not allowed. |
| App.HealthCheck | src/app.js:43-63 | The health check. `HealthCheckOrder` proves its status order. |
| App.HostMatchShapes | src/app.js:11 | The host, or a prefix and '/' before it, matches `/^(.*\/)?host$/`. |
| App.HostPortMatchSplit | src/app.js:12 | `x:digits` matches the port pattern exactly when `x` matches the host pattern. |
| App.HostMatchEndsWith | src/app.js:11 | An origin that does not end with the host never matches. |
| App.HostPortEndsWithDigit | src/app.js:12 | An origin that does not end with a digit never matches a port pattern. |
| App.HostMatchNeedsSlash | src/app.js:11 | A host glued to other text, with no '/' before it, does not match. |
| App.HostMatchAfterSlash | src/app.js:11 | A host after a '/' matches when nothing before that '/' is a line terminator. |
| App.RefusedAsWritten | src/app.js:8-15 | An origin matching no shape of the list is refused, and the corrected list refuses it too. |
| App.RefusedEndingElsewhere | src/app.js:8-15 | An origin that ends with no host and no domain is refused. |
| App.AllowedDomainExamples | test/app-test.js:108-119 | Every origin ending with ".hackerrank.net" is allowed. |
| App.AllowedLocalExamples | test/app-test.js:108-119 | `localhost`, `127.0.0.1` and `localhost:8000` are allowed. |
| App.AllowedUrlExamples | test/app-test.js:108-119 | `http://localhost` and `http://localhost:8000` are allowed. |
| App.LookalikeDomainsRefused | test/app-test.js:133-144 | `google.com`, `malicioushackerrank.net` and `hackerrank.net.malicious` are refused. |
| App.LookalikeHostsRefused | test/app-test.js:133-144 | `localhost.malicious.com` is refused. |
| App.GluedHostRefused | test/app-test.js:133-144 | `maliciouslocalhost` is refused. |
| App.HackerrankComRefusedAsWritten | src/app.js:10 | As written, `x.hackerrank.com` is refused. |
| App.CorrectedRefusesLookalikes | test/app-test.js:133-144 | The corrected list still refuses `malicioushackerrank.com` and `x.hackerrank.com.malicious`. |
| App.CorrectedAllowsHackerrankCom | src/app.js:8-15 | The corrected list allows every origin ending with ".hackerrank.com". It agrees with the list as written on every other origin. |
| App.AppRequest.constructor | src/app.js:17-24 | A request starts with its origin and the flag unset. |
| App.AppRequest.ValidateOrigin | src/app.js:17-24 | The flag is set exactly when a present origin matches some pattern, and it is never cleared. |
| App.PreflightDecision | src/app.js:26-41 | CORS headers are sent exactly for an allowed origin, and they echo it. A preflight is refused with 401 exactly when an origin is sent that is not allowed. |
| App.HealthCheckOrder | src/app.js:43-63 | The check reports "OK" exactly when both probes pass. A memory failure wins with 503, and a file-system failure alone gives 507. |

## Left out

- Express wiring, body parsing, logging, and the per-request writes of `config.host` and `config.secure` are left out. The host and scheme are a request context instead.
- src/server.js is not part of this model.
- The `history`, `diff` and `source.zip` routes of the git backend are left out. They only shell out to git and zip.
- The smart-HTTP transport itself is left out. It is modelled as the push and fetch handlers that accept.
- The keyed hash of manager keys is a function in the configuration.
- `isMemAvailable` and `isFsHealthy` are booleans given to the health check.
- Downloading and unzipping, YAML conversion, `du`, `git show`, `git rev-list` and `git diff` are inputs. So is the RegExp engine, including which sources compile and what they match.
- Concurrency is left out:
  - the unawaited `setMaxSize` in `createFromGit` and in update;
  - the global `repo` in the router;
  - two requests racing on one directory.
  Each operation is modelled as running alone.
- The shell commands of each provisioning chain are one write of the final layout. Partial output of a failing step is modelled only where the model can name it: the leftover `source` directory and the clone without manifests.
- The chain details are simplified:
  - `rm hooks/*` over an empty `hooks` directory and a commit of an empty tree are not modelled as failures;
  - `cp` copies only file manifests;
  - `.gitignore` handling is not modelled.
- Repositories.CreateFromGitSpec: the message of a failing shell step is shortened to "Command failed". The real message also carries the command and its output. The `code` of that error is an input, because `chain` is not part of this model.
- Form values are strings. Array values from `extended: true` parsing are left out.
- PreReceive.LoadMaxSize: `max_size` is read as a JSON integer, and every other JSON value falls back to the default limit. In the source, `JSON.parse` also accepts fractions and exponents, and the API can write them: `PUT max_size=1e3` passes `parseInt` and gives a limit of 1000 KB, and `max_size=0.5` gives 0.5 KB. Non-number JSON (`null`, `true`, a string, an array) is also kept by the source and compared with `size > maxSize`: `null` acts as a limit of 0, and a string that is not numeric never refuses. The model enforces the default in all these cases.
- Echoing a value with shell metacharacters or spaces is left out. The model writes the text as given.
- PreReceive.RoundHalfUp: `Math.round` and the MB figures use exact rational arithmetic. They do not use IEEE doubles, which differ only past 2^53 or at rounding ties distorted by binary fractions.
- Integers printed with 21 or more digits, which JavaScript writes in exponent form, are left out.
- `renderStatus` throwing (a failing `du`, a gauge out of range) is an accepted push with no output. This is the unhandled rejection outside the catch handler.
- The wording of TypeError messages is an approximation of V8's.
- `#` and white space in git URLs, and URL decoding, are left out. The path is the text before the first '?'.
- GitBackend.Gate: an empty id (URL `/`) is passed to `isAdmin` as a named repository, as the source passes the empty string.
- Repositories.Router.Handle: a route id is never empty (`/:id` does not match an empty segment), so `Get` and `Update` require a non-empty id.
- Helpers.Shard: `path.join` also normalises its result. It resolves `.` and `..` pieces and collapses repeated '/', and a trailing '/' of the root is not doubled. The model's join keeps the pieces as written and adds exactly one '/' between them. The two agree for the ids and roots the server makes: uuids, and roots without `.` or `..` pieces or a trailing '/'. An id such as `ab.` or `a/../b` is sharded differently by the source.
- Helpers.ShardLayout: holds of `repoPath` for the ids and roots that `path.join` leaves unchanged, as in the `Helpers.Shard` line.
- Helpers.ShardEmptyRoot: as for `Helpers.ShardLayout`.
- Helpers.ShardUnderRoot: as for `Helpers.ShardLayout`.
- Helpers.ShardRoundTrip: as for `Helpers.ShardLayout`. Under `path.join`, ids that normalise alike (`ab/./cd` and `ab/cd`) share a directory.
- Helpers.ShardInjective: as for `Helpers.ShardRoundTrip`.
- Helpers.UnshardEmptyRoot: as for `Helpers.ShardLayout`.
- Nested repository directories, where one id's directory lies inside another's, are left out. Each directory is a separate key of the disk map.

## Findings

| source | as written | input that shows it | evidently intended | confidence | as-written member | corrected member |
|---|---|---|---|---|---|---|
| src/app.js:10 | `/\.hack errank\.com$/` has a space inside the domain name, so no origin under hackerrank.com is allowed | `x.hackerrank.com` (listed as allowed in test/app-test.js:109) | `/\.hackerrank\.com$/` | not executed | App.HackerrankComRefusedAsWritten | App.CorrectedAllowsHackerrankCom |
| src/git-backend.js:51-52 | The replacement `repoPath('', repoId)` is a string, so `replace` applies `$` substitution to it. `$$` becomes '$', and `$&`, `` $` `` and `$'` insert the id and the text around it | `/$$abcd/info/refs`: the gate checks `gitRoot/$$/ab/cd`, and the request is forwarded as `/$/ab/cd/info/refs` | the sharded path inserted as it is, e.g. with a replacer function `() => helpers.repoPath('', req.repoId)` | low: ids the server creates are uuids, which hold no '$'; not executed | GitBackend.DollarIdForwardedElsewhere | GitBackend.LiteralRewriteShardsId |
