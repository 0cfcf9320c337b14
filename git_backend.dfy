/**
 * The gate in front of the git smart-HTTP transport. Every request under
 * `/git` has its first ".git" removed from the URL and is then checked:
 *
 *  - the repository id is the first segment of the URL's path;
 *  - a missing repository is answered 404 "Not found.";
 *  - an inactive repository is served only to the admin or its manager,
 *    and everybody else is asked for credentials (401);
 *  - what passes is handed to the transport with the id in the URL
 *    replaced by its sharded path, so the transport opens the same
 *    directory the gate checked.
 *
 * The transport itself accepts every push and fetch: admission of pushes
 * is left to the pre-receive hook.
 */
module GitBackend {
  import opened Wrappers
  import opened JsStrings
  import opened Helpers

  const NotFound := "Not found."
  const AuthRequired := "Authorization required."
  const AuthHeader := "WWW-Authenticate"
  const Challenge := "Basic realm=\"Git Server\""

  /** A response the gate sends itself. */
  datatype Reply = Reply(status: int, headers: seq<(string, string)>, body: string)

  /** What becomes of a request: answered by the gate, or forwarded to the transport. */
  datatype Outcome =
    | Replied(reply: Reply)
    | Forwarded(repoId: string, repoPath: string, url: string)

  /** URLs as a router sees them: relative to its mount point, starting with '/'. */
  predicate Rooted(url: string) {
    url != [] && url[0] == '/'
  }

  /** `req.url.replace('.git', '')`: the first ".git" is removed, wherever it is. */
  function StripGit(url: string): string {
    ReplaceFirst(url, ".git", "")
  }

  /** `req.path`: the URL up to its query string. */
  function PathOf(url: string): string {
    match IndexOf(url, "?")
    case None => url
    case Some(i) => url[..i]
  }

  /** The path is the part of the URL before its first '?'. */
  lemma PathOfStopsAtQuery(url: string)
    ensures |PathOf(url)| <= |url| && url[..|PathOf(url)|] == PathOf(url)
    ensures '?' !in PathOf(url)
  {
    var found := IndexOf(url, "?");
    if found.Some? {
      BeforeFirstOccurrence(url, "?", found.value);
      ContainsChar(url[..found.value], '?');
    } else {
      ContainsChar(url, '?');
    }
  }

  /** Removing ".git" and the query keeps the leading '/', so the path splits into at least two pieces. */
  lemma RootedPath(url: string)
    requires Rooted(url)
    ensures Rooted(StripGit(url)) && Rooted(PathOf(StripGit(url)))
    ensures var p := PathOf(StripGit(url));
      Split(p, "/") == [""] + Split(p[1..], "/")
  {
    var git := IndexOf(url, ".git");
    if git.Some? {
      var i := git.value;
      assert url[i] == url[i..i + 4][0];
    }
    var u := StripGit(url);
    var query := IndexOf(u, "?");
    if query.Some? {
      var i := query.value;
      assert u[i] == u[i..i + 1][0];
    }
    var p := PathOf(u);
    assert OccursAt(p, "/", 0) by {
      assert p[0..1] == [p[0]];
    }
  }

  /** `req.path.split('/')[1]`: the repository id. */
  function RepoId(url: string): string
    requires Rooted(url)
  {
    RootedPath(url);
    Split(PathOf(StripGit(url)), "/")[1]
  }

  /**
   * The id is the path's first segment: it follows the leading '/', holds
   * no '/' and no '?', and is followed by '/' or by the end of the path.
   */
  lemma RepoIdIsFirstSegment(url: string)
    requires Rooted(url)
    ensures var p := PathOf(StripGit(url)); var id := RepoId(url);
      && |id| + 1 <= |p| && p[1..|id| + 1] == id
      && '/' !in id && '?' !in id
      && (|id| + 1 == |p| || p[|id| + 1] == '/')
  {
    RootedPath(url);
    var p := PathOf(StripGit(url));
    PathOfStopsAtQuery(StripGit(url));
    var q := p[1..];
    SplitFirstPiece(q, '/');
    var id := RepoId(url);
    assert id == Split(q, "/")[0];
    assert p[1..|id| + 1] == q[..|id|];
    assert forall c :: c in id ==> c in p;
  }

  /**
   * The git wrapper: `url.replace(repoId, repoPath('', repoId))`, the first
   * occurrence only. The replacement is a string, so a '$' sequence in it
   * is substituted.
   */
  function Rewrite(url: string, repoId: string): string {
    ReplaceString(url, repoId, Shard("", repoId))
  }

  /**
   * The rewrite with the sharded path inserted as it is, as
   * `url.replace(repoId, () => repoPath('', repoId))` would do.
   */
  function RewriteLiteral(url: string, repoId: string): string {
    ReplaceFirst(url, repoId, Shard("", repoId))
  }

  /** An id without '$' shards to a path without '$'. */
  lemma NoDollarShard(id: string)
    requires id != [] && '$' !in id
    ensures '$' !in Shard("", id)
  {
    ShardEmptyRoot(id);
  }

  /** Replacing a piece that sits right after a leading '/' and holds no '/' replaces it there. */
  lemma ReplaceAfterSlash(u: string, id: string, rep: string)
    requires |id| + 1 <= |u| && u[0] == '/' && u[1..|id| + 1] == id
    requires id != [] && '/' !in id
    ensures IndexOf(u, id) == Some(1)
    ensures ReplaceFirst(u, id, rep) == "/" + rep + u[|id| + 1..]
  {
    assert OccursAt(u, id, 1);
    var v := IndexOf(u, id).value;
    assert u[v..v + |id|] == id;
    assert id[0] == u[v] && id[0] in id;
    assert v == 1;
    var r := ReplaceFirst(u, id, rep);
    assert r == r[..1] + r[1..1 + |rep|] + r[1 + |rep|..];
    assert r[..1] == u[..1] == "/";
  }

  /** The id follows the leading '/' of the URL itself, not only of its path. */
  lemma RepoIdInUrl(url: string)
    requires Rooted(url)
    ensures var u := StripGit(url); var id := RepoId(url);
      && |id| + 1 <= |u| && u[0] == '/' && u[1..|id| + 1] == id && '/' !in id
  {
    RootedPath(url);
    RepoIdIsFirstSegment(url);
    var u := StripGit(url);
    PathOfStopsAtQuery(u);
    var p := PathOf(u);
    var id := RepoId(url);
    var k := |id| + 1;
    assert k <= |p| <= |u| && u[..|p|] == p;
    assert p[1..k] == u[..|p|][1..k] == u[1..k];
  }

  /**
   * The name the rewrite puts after the leading '/': the sharded id after
   * `$` substitution, the match being the id, the text before it "/" and
   * the text after it the rest of the URL.
   */
  function ForwardedName(url: string): string
    requires Rooted(url)
  {
    RepoIdInUrl(url);
    var u := StripGit(url);
    var id := RepoId(url);
    Substitute(Shard("", id), id, "/", u[|id| + 1..])
  }

  /**
   * The rewrite replaces the id right after the leading '/', and nothing
   * else: the rest of the URL, query included, is kept as it is. What takes
   * the id's place is the sharded id exactly when the id holds no '$'.
   */
  lemma RewriteShardsId(url: string)
    requires Rooted(url) && RepoId(url) != []
    ensures var u := StripGit(url); var id := RepoId(url);
      && |id| + 1 <= |u|
      && Rewrite(u, id) == "/" + ForwardedName(url) + u[|id| + 1..]
      && ('$' !in id ==> ForwardedName(url) == Shard("", id))
  {
    RepoIdInUrl(url);
    var u := StripGit(url);
    var id := RepoId(url);
    ReplaceAfterSlash(u, id, ForwardedName(url));
    assert u[..1] == "/";
    if '$' !in id {
      NoDollarShard(id);
    }
  }

  /**
   * With the sharded path inserted as it is, the rewrite puts exactly the
   * sharded id after the leading '/', for every id.
   */
  lemma LiteralRewriteShardsId(url: string)
    requires Rooted(url) && RepoId(url) != []
    ensures var u := StripGit(url); var id := RepoId(url);
      |id| + 1 <= |u| && RewriteLiteral(u, id) == "/" + Shard("", id) + u[|id| + 1..]
  {
    RepoIdInUrl(url);
    ReplaceAfterSlash(StripGit(url), RepoId(url), Shard("", RepoId(url)));
  }

  /** The decision of the `repo` and `permission` middleware, then the git wrapper's rewrite. */
  function Gate(url: string, creds: Credentials, config: Config, dirs: map<string, map<string, Node>>): Outcome
    requires Rooted(url)
  {
    var id := RepoId(url);
    var repoPath := Shard(config.gitRoot, id);
    if !IsRepo(dirs, repoPath) then Replied(Reply(404, [], NotFound))
    else if !(IsActive(dirs, repoPath) || IsAdmin(creds, config, Some(id))) then
      Replied(Reply(401, [(AuthHeader, Challenge)], AuthRequired))
    else Forwarded(id, repoPath, Rewrite(StripGit(url), id))
  }

  /**
   * A request reaches the transport exactly when its repository exists and
   * is active or the caller is the admin or that repository's manager. A
   * missing repository is reported before credentials are asked for, and
   * the request for credentials carries the Basic challenge.
   */
  lemma GateAdmits(url: string, creds: Credentials, config: Config, dirs: map<string, map<string, Node>>)
    requires Rooted(url)
    ensures var id := RepoId(url); var path := Shard(config.gitRoot, id);
      var out := Gate(url, creds, config, dirs);
      && (out.Forwarded? <==> IsRepo(dirs, path) && (IsActive(dirs, path) || IsAdmin(creds, config, Some(id))))
      && (!IsRepo(dirs, path) ==> out == Replied(Reply(404, [], NotFound)))
      && (out.Replied? && out.reply.status == 401 <==> IsRepo(dirs, path) && !IsActive(dirs, path) && !IsAdmin(creds, config, Some(id)))
      && (out.Replied? && out.reply.status == 401 ==> (AuthHeader, Challenge) in out.reply.headers)
  {
  }

  /**
   * A forwarded request names, after the leading '/', the substituted
   * sharded id. For an id without '$' that is the sharded id itself, and
   * under a non-empty git root the directory the gate checked is the root,
   * '/', and the sharded id.
   */
  lemma ForwardedToCheckedDirectory(url: string, creds: Credentials, config: Config, dirs: map<string, map<string, Node>>)
    requires Rooted(url) && RepoId(url) != [] && config.gitRoot != []
    requires Gate(url, creds, config, dirs).Forwarded?
    ensures |RepoId(url)| + 1 <= |StripGit(url)|
    ensures var out := Gate(url, creds, config, dirs); var id := RepoId(url);
      && out.repoId == id
      && out.url == "/" + ForwardedName(url) + StripGit(url)[|id| + 1..]
      && out.repoPath == config.gitRoot + "/" + Shard("", id)
      && ('$' !in id ==> out.url == "/" + Shard("", id) + StripGit(url)[|id| + 1..])
  {
    RewriteShardsId(url);
    ShardUnderRoot(config.gitRoot, RepoId(url));
  }

  /**
   * An id that starts with `$$` is checked under one directory and
   * forwarded to another: the gate checks the root, '/', and the sharded
   * id, but the substitution turns the sharded id's leading `$$` into a
   * single '$', so the transport is sent to a different, shorter name.
   * `DollarUrlId` gives such a URL.
   */
  lemma DollarIdForwardedElsewhere(url: string, creds: Credentials, config: Config, dirs: map<string, map<string, Node>>)
    requires Rooted(url) && config.gitRoot != []
    requires Gate(url, creds, config, dirs).Forwarded?
    requires |RepoId(url)| > 4 && RepoId(url)[..2] == "$$" && '$' !in RepoId(url)[2..]
    ensures |RepoId(url)| + 1 <= |StripGit(url)|
    ensures var out := Gate(url, creds, config, dirs); var id := RepoId(url);
      && out.repoPath == config.gitRoot + "/" + Shard("", id)
      && out.url == "/" + Shard("", id)[1..] + StripGit(url)[|id| + 1..]
      && Shard("", id)[1..] != Shard("", id)
  {
    ForwardedToCheckedDirectory(url, creds, config, dirs);
    var id := RepoId(url);
    DollarShardSubstituted(id, id, "/", StripGit(url)[|id| + 1..]);
  }

  /** The substitution turns the leading `$$` of a sharded `$$`-id into one '$'. */
  lemma DollarShardSubstituted(id: string, matched: string, before: string, after: string)
    requires |id| > 4 && id[..2] == "$$" && '$' !in id[2..]
    ensures Substitute(Shard("", id), matched, before, after) == Shard("", id)[1..]
    ensures Shard("", id)[1..] != Shard("", id)
  {
    ShardEmptyRoot(id);
    var sharded := Shard("", id);
    var t := "/" + id[2..4] + "/" + id[4..];
    assert id[2..] == id[2..4] + id[4..];
    assert '$' !in t;
    assert sharded == "$$" + t;
    assert sharded[2..] == t;
    assert sharded[1..] == "$" + t;
  }

  /**
   * `/$$abcd/info/refs` is rooted, has neither ".git" nor a query, and its
   * id `$$abcd` meets what `DollarIdForwardedElsewhere` asks of an id.
   */
  lemma DollarUrlId()
    ensures Rooted("/$$abcd/info/refs")
    ensures StripGit("/$$abcd/info/refs") == "/$$abcd/info/refs"
    ensures RepoId("/$$abcd/info/refs") == "$$abcd"
  {
    var id, rest := "$$abcd", "/info/refs";
    assert "/" + id + rest == "/$$abcd/info/refs";
    RepoIdOfSegment(id, rest);
  }

  /** A URL with no '.' and no '?' has the segment after its leading '/' as its id. */
  lemma RepoIdOfSegment(id: string, rest: string)
    requires id != [] && '/' !in id && (rest == [] || rest[0] == '/')
    requires '.' !in id + rest && '?' !in id + rest
    ensures Rooted("/" + id + rest)
    ensures StripGit("/" + id + rest) == "/" + id + rest
    ensures RepoId("/" + id + rest) == id
  {
    var url := "/" + id + rest;
    FirstCharAbsent(url, ".git");
    FirstCharAbsent(url, "?");
    assert PathOf(url) == url;
    RepoIdIsFirstSegment(url);
    assert url[1..|id| + 1] == id;
  }

  /** A text without the pattern's first character holds no occurrence of it. */
  lemma FirstCharAbsent(s: string, pat: string)
    requires pat != [] && pat[0] !in s
    ensures IndexOf(s, pat) == None
  {
  }

  // ---------------------------------------------------------------------
  // The transport's push and fetch handlers

  datatype TransportEvent =
    | Push(repo: string, branch: string, last: string, commit: string)
    | Fetch(repo: string, branch: string)

  datatype Verdict = Accept | Reject

  /** What a handler does: its verdict, and the repository id it logs (`repo.replace(/\//g, '')`). */
  datatype Handled = Handled(verdict: Verdict, loggedRepoId: string)

  /** The `push` and `fetch` handlers: log, then accept. */
  function OnTransport(e: TransportEvent): Handled {
    Handled(Accept, RemoveSlashes(e.repo))
  }

  /**
   * Every push and fetch the gate forwarded is accepted. The transport sees
   * the forwarded name; for an id without '$' that is the sharded id, and
   * the id logged for it, recovered by dropping the slashes, is the id the
   * gate checked.
   */
  lemma TransportAcceptsForwarded(url: string, creds: Credentials, config: Config,
                                  dirs: map<string, map<string, Node>>, e: TransportEvent)
    requires Rooted(url) && RepoId(url) != []
    requires Gate(url, creds, config, dirs).Forwarded?
    requires e.repo == ForwardedName(url)
    ensures OnTransport(e).verdict == Accept
    ensures '$' !in RepoId(url) ==> OnTransport(e).loggedRepoId == Gate(url, creds, config, dirs).repoId
  {
    RewriteShardsId(url);
    RepoIdIsFirstSegment(url);
    UnshardEmptyRoot(RepoId(url));
  }

  // ---------------------------------------------------------------------
  // The middleware, step by step

  /** The request as the middleware chain sees and changes it. */
  class GitRequest {
    var url: string
    const creds: Credentials
    var repoId: string
    var repoPath: string
    var repoIsActive: bool

    constructor(url: string, creds: Credentials)
      ensures this.url == url && this.creds == creds
      ensures repoId == "" && repoPath == "" && !repoIsActive
    {
      this.url := url;
      this.creds := creds;
      repoId := "";
      repoPath := "";
      repoIsActive := false;
    }

    /**
     * `middleware.repo`: strips ".git", records the id, the path and the
     * active flag on the request, and answers 404 when there is no
     * repository there.
     */
    method RepoStep(config: Config, disk: Disk) returns (stop: Option<Reply>)
      requires Rooted(url)
      modifies this
      ensures url == StripGit(old(url)) && repoId == RepoId(old(url))
      ensures repoPath == Shard(config.gitRoot, repoId) && repoIsActive == IsActive(disk.dirs, repoPath)
      ensures stop == if IsRepo(disk.dirs, repoPath) then None else Some(Reply(404, [], NotFound))
    {
      ghost var original := url;
      RootedPath(original);
      url := StripGit(url);
      var segments := Split(PathOf(url), "/");
      repoId := segments[1];
      repoPath := Shard(config.gitRoot, repoId);
      repoIsActive := IsActive(disk.dirs, repoPath);
      if !IsRepo(disk.dirs, repoPath) {
        return Some(Reply(404, [], NotFound));
      }
      return None;
    }

    /** `middleware.permission`: the active flag, or admin or manager credentials for this id. */
    method PermissionStep(config: Config) returns (stop: Option<Reply>)
      ensures stop == if repoIsActive || IsAdmin(creds, config, Some(repoId)) then None
                      else Some(Reply(401, [(AuthHeader, Challenge)], AuthRequired))
    {
      if !(repoIsActive || IsAdmin(creds, config, Some(repoId))) {
        return Some(Reply(401, [(AuthHeader, Challenge)], AuthRequired));
      }
      return None;
    }

    /** `middleware.gitWrapper`: the id in the URL becomes its sharded path. */
    method WrapStep()
      modifies this
      ensures url == Rewrite(old(url), repoId)
      ensures repoId == old(repoId) && repoPath == old(repoPath) && repoIsActive == old(repoIsActive)
    {
      url := ReplaceString(url, repoId, Shard("", repoId));
    }

    /** The chain in its order: `repo`, `permission`, then the wrapper hands the request on. */
    method Serve(config: Config, disk: Disk) returns (out: Outcome)
      requires Rooted(url)
      modifies this
      ensures out == Gate(old(url), creds, config, disk.dirs)
    {
      var stop := RepoStep(config, disk);
      if stop.Some? {
        return Replied(stop.value);
      }
      stop := PermissionStep(config);
      if stop.Some? {
        return Replied(stop.value);
      }
      WrapStep();
      return Forwarded(repoId, repoPath, url);
    }
  }
}
