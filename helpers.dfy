/**
 * The helpers the server modules share: the sharded repository path, the
 * public clone URL, the admin/manager credential check, and the on-disk
 * probes and toggles for a repository directory (is it a bare repository,
 * is it active).
 */
module Helpers {
  import opened Wrappers
  import opened JsStrings

  // ---------------------------------------------------------------------
  // Sharded repository paths

  /** The non-empty strings of `parts`, in order. */
  function NonEmpty(parts: seq<string>): (r: seq<string>)
    ensures forall i :: 0 <= i < |r| ==> r[i] != []
  {
    if parts == [] then []
    else if parts[0] == [] then NonEmpty(parts[1..])
    else [parts[0]] + NonEmpty(parts[1..])
  }

  /**
   * `path.join` of already normalised segments: empty segments are skipped
   * and the others joined with '/'; when nothing is left the result is ".".
   */
  function PathJoin(parts: seq<string>): string {
    var kept := NonEmpty(parts);
    if kept == [] then "." else Join(kept, "/")
  }

  /** The pieces an id is cut into: two characters, two more, the rest. */
  function ShardPieces(id: string): seq<string> {
    var a := if |id| < 2 then |id| else 2;
    var b := if |id| < 4 then |id| else 4;
    [id[..a], id[a..b], id[b..]]
  }

  /** `repoPath(root, id)`: where the repository `id` lives under `root`. */
  function Shard(root: string, id: string): string {
    PathJoin([root] + ShardPieces(id))
  }

  lemma {:induction false} NonEmptyConcat(a: seq<string>, b: seq<string>)
    ensures NonEmpty(a + b) == NonEmpty(a) + NonEmpty(b)
    decreases |a|
  {
    if a == [] {
      assert a + b == b;
    } else {
      assert (a + b)[1..] == a[1..] + b;
      NonEmptyConcat(a[1..], b);
    }
  }

  lemma NonEmptyOne(x: string)
    ensures NonEmpty([x]) == if x == [] then [] else [x]
  {
    assert [x][1..] == [];
  }

  /** `PathJoin` of pieces none of which is empty. */
  lemma PathJoinPieces(ps: seq<string>)
    requires ps != [] && forall i :: 0 <= i < |ps| ==> ps[i] != []
    ensures NonEmpty(ps) == ps
    decreases |ps|
  {
    assert ps == [ps[0]] + ps[1..];
    NonEmptyConcat([ps[0]], ps[1..]);
    NonEmptyOne(ps[0]);
    if |ps| > 1 { PathJoinPieces(ps[1..]); }
  }

  /** The pieces of an id that survive `PathJoin`, for each id length. */
  lemma ShardPiecesKept(id: string)
    ensures var ps := ShardPieces(id);
      && (|id| == 0 ==> NonEmpty(ps) == [])
      && (1 <= |id| <= 2 ==> NonEmpty(ps) == [id])
      && (3 <= |id| <= 4 ==> NonEmpty(ps) == [id[..2], id[2..]])
      && (|id| > 4 ==> NonEmpty(ps) == [id[..2], id[2..4], id[4..]])
  {
    var ps := ShardPieces(id);
    assert ps == [ps[0]] + [ps[1]] + [ps[2]];
    NonEmptyConcat([ps[0]] + [ps[1]], [ps[2]]);
    NonEmptyConcat([ps[0]], [ps[1]]);
    NonEmptyOne(ps[0]);
    NonEmptyOne(ps[1]);
    NonEmptyOne(ps[2]);
    if 1 <= |id| <= 2 {
      assert ps[0] == id && ps[1] == [] && ps[2] == [];
      assert [id] + [] + [] == [id];
    } else if 3 <= |id| <= 4 {
      assert ps[1] == id[2..] && ps[2] == [];
      assert [id[..2]] + [id[2..]] + [] == [id[..2], id[2..]];
    }
  }

  /** A root is kept in front of the id's pieces when it is not empty, and dropped otherwise. */
  lemma ShardRootKept(root: string, id: string)
    ensures NonEmpty([root] + ShardPieces(id)) == (if root == [] then [] else [root]) + NonEmpty(ShardPieces(id))
  {
    NonEmptyConcat([root], ShardPieces(id));
    NonEmptyOne(root);
  }

  /** The layout promised for each id length, under a non-empty root. */
  lemma ShardLayout(root: string, id: string)
    requires root != []
    ensures |id| == 0 ==> Shard(root, id) == root
    ensures 1 <= |id| <= 2 ==> Shard(root, id) == root + "/" + id
    ensures 3 <= |id| <= 4 ==> Shard(root, id) == root + "/" + id[..2] + "/" + id[2..]
    ensures |id| > 4 ==> Shard(root, id) == root + "/" + id[..2] + "/" + id[2..4] + "/" + id[4..]
  {
    ShardPiecesKept(id);
    ShardRootKept(root, id);
    if |id| == 0 {
      assert [root] + [] == [root];
    } else if |id| <= 2 {
      JoinCons(root, [id], "/");
    } else if |id| <= 4 {
      JoinCons(root, [id[..2], id[2..]], "/");
      JoinCons(id[..2], [id[2..]], "/");
    } else {
      JoinCons(root, [id[..2], id[2..4], id[4..]], "/");
      JoinCons(id[..2], [id[2..4], id[4..]], "/");
      JoinCons(id[2..4], [id[4..]], "/");
    }
  }

  /** With an empty root the path is the sharded id alone. */
  lemma ShardEmptyRoot(id: string)
    ensures 1 <= |id| <= 2 ==> Shard("", id) == id
    ensures 3 <= |id| <= 4 ==> Shard("", id) == id[..2] + "/" + id[2..]
    ensures |id| > 4 ==> Shard("", id) == id[..2] + "/" + id[2..4] + "/" + id[4..]
  {
    ShardPiecesKept(id);
    ShardRootKept("", id);
    if 3 <= |id| <= 4 {
      assert [] + [id[..2], id[2..]] == [id[..2], id[2..]];
      JoinCons(id[..2], [id[2..]], "/");
    } else if |id| > 4 {
      assert [] + [id[..2], id[2..4], id[4..]] == [id[..2], id[2..4], id[4..]];
      JoinCons(id[..2], [id[2..4], id[4..]], "/");
      JoinCons(id[2..4], [id[4..]], "/");
    }
  }

  /** The sharding of short ids the tests pin down. */
  lemma ShardShortExamples()
    ensures Shard("gitRoot", "t") == "gitRoot/t"
    ensures Shard("gitRoot", "tes") == "gitRoot/te/s"
    ensures Shard("gitRoot", "test") == "gitRoot/te/st"
  {
    ShardLayout("gitRoot", "t");
    ShardLayout("gitRoot", "tes");
    assert "tes"[..2] == "te" && "tes"[2..] == "s";
    ShardLayout("gitRoot", "test");
    assert "test"[..2] == "te" && "test"[2..] == "st";
  }

  /** The uuid "063d530b-624d-4655-a902-5ec875f214e7", cut where the shard cuts it. */
  const SampleUuidTail := "530b-624d-4655-a902-5ec875f214e7"
  const SampleUuid := "06" + "3d" + SampleUuidTail

  lemma SampleUuidPieces()
    ensures |SampleUuid| > 4
    ensures SampleUuid[..2] == "06" && SampleUuid[2..4] == "3d" && SampleUuid[4..] == SampleUuidTail
  {
    assert SampleUuid[..2] == "06";
    assert SampleUuid[2..4] == "3d";
    assert SampleUuid[4..] == SampleUuidTail;
  }

  /** The sharding of a uuid under a root. */
  lemma ShardUuidExample()
    ensures Shard("gitRoot", SampleUuid) == "gitRoot/06/3d/" + SampleUuidTail
  {
    SampleUuidPieces();
    ShardLayout("gitRoot", SampleUuid);
  }

  /** The sharding of a uuid under the empty root (the URL rewrite uses it). */
  lemma ShardUuidEmptyRootExample()
    ensures Shard("", SampleUuid) == "06/3d/" + SampleUuidTail
  {
    SampleUuidPieces();
    ShardEmptyRoot(SampleUuid);
  }

  /** `s` without its '/' characters. */
  function RemoveSlashes(s: string): string {
    if s == [] then [] else (if s[0] == '/' then [] else [s[0]]) + RemoveSlashes(s[1..])
  }

  lemma {:induction false} RemoveSlashesConcat(x: string, y: string)
    ensures RemoveSlashes(x + y) == RemoveSlashes(x) + RemoveSlashes(y)
    decreases |x|
  {
    if x != [] {
      assert (x + y)[1..] == x[1..] + y;
      RemoveSlashesConcat(x[1..], y);
    } else {
      assert x + y == y;
    }
  }

  lemma {:induction false} RemoveSlashesNone(x: string)
    requires '/' !in x
    ensures RemoveSlashes(x) == x
    decreases |x|
  {
    if x != [] {
      assert x[0] in x;
      assert forall c :: c in x[1..] ==> c in x;
      RemoveSlashesNone(x[1..]);
      assert x == [x[0]] + x[1..];
    }
  }

  /** Recovers the id from its sharded path under a non-empty root. */
  function Unshard(root: string, path: string): string {
    if StartsWith(path, root + "/") then RemoveSlashes(path[|root| + 1..]) else ""
  }

  /** Dropping the separator after a piece without '/' keeps the piece. */
  lemma RemoveSlashesAfter(x: string, b: string)
    requires '/' !in b
    ensures RemoveSlashes(x + "/" + b) == RemoveSlashes(x) + b
  {
    RemoveSlashesConcat(x + "/", b);
    RemoveSlashesConcat(x, "/");
    RemoveSlashesNone(b);
  }

  /** Slices of an id without '/' have none either. */
  lemma NoSlashSlice(id: string, i: nat, j: nat)
    requires '/' !in id && i <= j <= |id|
    ensures '/' !in id[i..j]
  {
    assert forall c :: c in id[i..j] ==> c in id;
  }

  /** Under a non-empty root, `Unshard` drops `root/` and every separator. */
  lemma UnshardUnder(root: string, inner: string)
    requires root != []
    ensures Unshard(root, root + "/" + inner) == RemoveSlashes(inner)
  {
    var p := root + "/" + inner;
    assert p[..|root| + 1] == root + "/";
    assert p[|root| + 1..] == inner;
  }

  /** The sharded path determines the id: `Unshard` undoes `Shard`. */
  lemma ShardRoundTrip(root: string, id: string)
    requires root != [] && '/' !in id
    ensures Unshard(root, Shard(root, id)) == id
  {
    if id == [] {
      ShardLayout(root, id);
      assert !StartsWith(root, root + "/");
    } else {
      ShardUnderRoot(root, id);
      UnshardUnder(root, Shard("", id));
      UnshardEmptyRoot(id);
    }
  }

  /** Under a non-empty root, a non-empty id's directory is the root, '/', and the id sharded under the empty root. */
  lemma ShardUnderRoot(root: string, id: string)
    requires root != [] && id != []
    ensures Shard(root, id) == root + "/" + Shard("", id)
  {
    var ps := ShardPieces(id);
    NonEmptyConcat([root], ps);
    NonEmptyOne(root);
    NonEmptyConcat([""], ps);
    NonEmptyOne("");
    assert ps == [ps[0]] + ps[1..];
    NonEmptyConcat([ps[0]], ps[1..]);
    NonEmptyOne(ps[0]);
    assert NonEmpty(ps) != [];
    JoinCons(root, NonEmpty(ps), "/");
  }

  /** Dropping the separators from an id sharded under the empty root gives the id back. */
  lemma UnshardEmptyRoot(id: string)
    requires id != [] && '/' !in id
    ensures RemoveSlashes(Shard("", id)) == id
  {
    ShardEmptyRoot(id);
    if |id| <= 2 {
      RemoveSlashesNone(id);
    } else if |id| <= 4 {
      NoSlashSlice(id, 0, 2);
      NoSlashSlice(id, 2, |id|);
      RemoveSlashesAfter(id[..2], id[2..]);
      RemoveSlashesNone(id[..2]);
      assert id[..2] + id[2..] == id;
    } else {
      NoSlashSlice(id, 0, 2);
      NoSlashSlice(id, 2, 4);
      NoSlashSlice(id, 4, |id|);
      RemoveSlashesAfter(id[..2] + "/" + id[2..4], id[4..]);
      RemoveSlashesAfter(id[..2], id[2..4]);
      RemoveSlashesNone(id[..2]);
      assert id[..2] + id[2..4] + id[4..] == id;
    }
  }

  /** Distinct ids never share a directory (ids without '/', non-empty root). */
  lemma ShardInjective(root: string, a: string, b: string)
    requires root != [] && '/' !in a && '/' !in b
    requires Shard(root, a) == Shard(root, b)
    ensures a == b
  {
    ShardRoundTrip(root, a);
    ShardRoundTrip(root, b);
  }

  // ---------------------------------------------------------------------
  // Clone URL

  /** `repoURL(id, host, secure)`: the clone URL handed back to clients. */
  function RepoUrl(id: string, host: string, secure: bool): (url: string)
    ensures StartsWith(url, if secure then "https://" else "http://")
    ensures EndsWith(url, "/git/" + id)
  {
    var scheme := if secure then "https" else "http";
    var url := scheme + "://" + host + "/git/" + id;
    assert url == (scheme + "://") + (host + "/git/" + id);
    assert url == (scheme + "://" + host) + ("/git/" + id);
    url
  }

  // ---------------------------------------------------------------------
  // Credentials

  /** What a request's Basic authorisation header decodes to, if it has one. */
  datatype Credentials = Anonymous | Basic(user: string, password: string)

  /**
   * The server configuration the core reads. `managerKey` stands for the
   * keyed hash of a repository id under the server secret; `hookScript` is
   * where the push-admission hook is installed.
   */
  datatype Config = Config(
    gitRoot: string,
    adminKey: string,
    managerKey: string -> string,
    hookScript: string,
    defaultMaxSize: int)

  /**
   * `isAdmin(req, config, repoId)`: the global admin, or the manager of the
   * repository named by `repoId` (only when one is named).
   */
  predicate IsAdmin(creds: Credentials, config: Config, repoId: Option<string>) {
    && creds.Basic?
    && ((creds.user == "admin" && creds.password == config.adminKey)
        || (creds.user == "manager" && repoId.Some? && creds.password == config.managerKey(repoId.value)))
  }

  /**
   * A manager credential passes exactly when a repository is named and the
   * password is that repository's key; so a key derived for another id is
   * refused whenever the two keys differ.
   */
  lemma ManagerScoped(key: string, config: Config, repoId: Option<string>, other: string)
    ensures IsAdmin(Basic("manager", key), config, repoId)
        <==> repoId.Some? && key == config.managerKey(repoId.value)
    ensures repoId.Some? && config.managerKey(other) != config.managerKey(repoId.value)
        ==> !IsAdmin(Basic("manager", config.managerKey(other)), config, repoId)
  {
  }

  // ---------------------------------------------------------------------
  // The file system

  /** A snapshot of a commit: its message and the tree it records. */
  datatype Commit = Commit(message: string, tree: map<string, Node>)

  /**
   * What a directory entry holds: a file, a symbolic link, a directory, a
   * git configuration file (its settings), a git object store (the history
   * it holds, oldest first), or other git bookkeeping whose content the
   * server never looks at.
   */
  datatype Node =
    | File(text: string)
    | Link(target: string)
    | Dir(children: map<string, Node>)
    | GitConfig(settings: map<string, string>)
    | History(commits: seq<Commit>)
    | Internal

  /**
   * The repositories' directories: each repository directory path maps to
   * the entries directly inside it.
   */
  class Disk {
    var dirs: map<string, map<string, Node>>

    constructor(dirs: map<string, map<string, Node>>)
      ensures this.dirs == dirs
    {
      this.dirs := dirs;
    }
  }

  const LockFile := "inactive.lock"

  /** `isRepo(path)`: the directory holds a bare repository (a HEAD and an object store). */
  predicate IsRepo(dirs: map<string, map<string, Node>>, path: string) {
    path in dirs && "HEAD" in dirs[path] && "objects" in dirs[path] && dirs[path]["objects"].History?
  }

  /** `isActive(path)`: no `inactive.lock` in the directory. */
  predicate IsActive(dirs: map<string, map<string, Node>>, path: string) {
    !(path in dirs && LockFile in dirs[path])
  }

  /**
   * `isActive(path, val)`: creates the lock to deactivate, removes it to
   * activate; a missing directory is left alone.
   */
  function WithActive(dirs: map<string, map<string, Node>>, path: string, val: bool)
    : (r: map<string, map<string, Node>>)
    ensures path in dirs ==> IsActive(r, path) == val
    ensures path !in dirs ==> r == dirs
    ensures r.Keys == dirs.Keys
    ensures forall q :: q in dirs && q != path ==> r[q] == dirs[q]
    ensures path in dirs ==> r[path] - {LockFile} == dirs[path] - {LockFile}
  {
    if path !in dirs then dirs
    else if val then dirs[path := dirs[path] - {LockFile}]
    else dirs[path := dirs[path][LockFile := File("")]]
  }

  /** Setting the flag twice is the same as setting it once. */
  lemma WithActiveIdempotent(dirs: map<string, map<string, Node>>, path: string, val: bool)
    ensures WithActive(WithActive(dirs, path, val), path, val) == WithActive(dirs, path, val)
  {
    if path in dirs {
      var d := WithActive(dirs, path, val);
      if val {
        assert d[path] - {LockFile} == d[path];
      } else {
        assert d[path][LockFile := File("")] == d[path];
      }
      assert d[path := d[path]] == d;
    }
  }

  /** Activating a repository that is already active changes nothing. */
  lemma ActivateActive(dirs: map<string, map<string, Node>>, path: string)
    requires IsActive(dirs, path)
    ensures WithActive(dirs, path, true) == dirs
  {
    if path in dirs {
      assert dirs[path] - {LockFile} == dirs[path];
      assert dirs[path := dirs[path]] == dirs;
    }
  }

  /** Deactivating then reactivating an active repository restores its directory. */
  lemma DeactivateReactivate(dirs: map<string, map<string, Node>>, path: string)
    requires IsActive(dirs, path)
    ensures WithActive(WithActive(dirs, path, false), path, true) == dirs
  {
    if path in dirs {
      assert dirs[path][LockFile := File("")] - {LockFile} == dirs[path];
      assert dirs[path := dirs[path]] == dirs;
    }
  }
}
