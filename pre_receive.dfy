/**
 * The pre-receive hook git runs in a repository directory before it accepts
 * a push. It reads `<old> <new> <ref>` from stdin, the size limit from
 * `max_size` and the read-only patterns from `hackerrank.json`, then runs
 * three checks in order (no branch deletion, size within the limit, no
 * read-only file touched). The first failure prints a red error banner and
 * exits 1; otherwise a green banner with a 32-character usage gauge is
 * printed.
 *
 * The commands the hook runs (`git show`, `du -sk`, `git rev-list`,
 * `git diff`) are inputs: each is the result the command gives for the
 * arguments the hook passes. The regular-expression engine is an input too.
 */
module PreReceive {
  import opened Wrappers
  import opened JsStrings

  /** The all-zero hash git passes for a ref that does not exist (forty '0's). */
  const NullHash: string := Repeat('0', 40)

  /** Width of the usage gauge, in characters. */
  const BarLen: nat := 32

  // ---------------------------------------------------------------------
  // What the hook reads

  /** A parsed JSON value (numbers are the integral ones). */
  datatype Json =
    | JNull
    | JBool(b: bool)
    | JNumber(n: int)
    | JString(s: string)
    | JArray(items: seq<Json>)
    | JObject(fields: map<string, Json>)

  /** A thrown JavaScript error: its `name` and its `message`. */
  datatype Thrown = Thrown(name: string, message: string)

  function ValidationError(message: string): Thrown {
    Thrown("ValidationError", message)
  }

  function TypeError(message: string): Thrown {
    Thrown("TypeError", message)
  }

  /**
   * What a promisified `exec` settles with: the command's standard output,
   * or the error it rejects with together with the command's standard error.
   */
  datatype ExecResult = Done(stdout: string) | Failed(error: Thrown, stderr: string)

  /**
   * The JavaScript `RegExp` engine: which sources `new RegExp` accepts, and
   * whether the pattern compiled from a source matches a string.
   */
  datatype RegexEngine = RegexEngine(valid: string -> bool, matches: (string, string) -> bool)

  /**
   * Everything the hook consults. `maxSizeFile` is the text of `max_size`
   * (`None`: unreadable); `manifest` is `hackerrank.json` parsed (`None`:
   * unreadable or not JSON); `defaultMaxSize` is the shipped default limit.
   * `show`, `diff` map the hashes the hook passes to what `git` answers;
   * `du` and `revList` are the answers of the commands without arguments.
   */
  datatype HookEnv = HookEnv(
    stdin: string,
    maxSizeFile: Option<string>,
    manifest: Option<Json>,
    defaultMaxSize: int,
    show: string -> ExecResult,
    du: ExecResult,
    revList: ExecResult,
    diff: (string, string) -> ExecResult,
    re: RegexEngine)

  /** What the push gets: the hook's standard output, accepted (exit 0) or declined (exit 1). */
  datatype Verdict = Accepted(output: string) | Rejected(output: string)

  function ExitCode(v: Verdict): int {
    if v.Rejected? then 1 else 0
  }

  // ---------------------------------------------------------------------
  // Start-up: stdin, max_size, hackerrank.json

  /** `[oldHash, newHash] = stdin.split(/\s+/)`; a missing second piece is `undefined`. */
  function ParseStdin(stdin: string): (string, Option<string>) {
    var pieces := SplitWs(stdin);
    (pieces[0], if |pieces| >= 2 then Some(pieces[1]) else None)
  }

  /** How a hash appears once interpolated into a command line. */
  function HashText(h: Option<string>): string {
    match h
    case Some(s) => s
    case None => "undefined"
  }

  /** The old and new hashes are the first two white-space separated tokens. */
  lemma StdinTokens(a: string, sep: string, b: string, rest: string)
    requires NoneOf(a, IsSpace) && NoneOf(b, IsSpace) && b != []
    requires sep != [] && All(sep, IsSpace)
    requires rest == [] || IsSpace(rest[0])
    ensures ParseStdin(a + sep + b + rest) == (a, Some(b))
  {
    SplitWsFirstTwo(a, sep, b, rest);
  }

  /** The white space `JSON.parse` skips around a value. */
  predicate IsJsonSpace(c: char) {
    c == ' ' || c == '\t' || c == '\n' || c == '\r'
  }

  /** `s` without the JSON white space around it. */
  function JsonTrim(s: string): string {
    var t := s[LeadingWhile(s, IsJsonSpace)..];
    t[..|t| - TrailingWhile(t, IsJsonSpace)]
  }

  /**
   * `JSON.parse` of a text holding one integer: an optional '-', then "0" or
   * digits without a leading zero, with JSON white space around.
   */
  function ParseJsonInteger(s: string): Option<int> {
    var body := JsonTrim(s);
    var negative := |body| > 0 && body[0] == '-';
    var digits := if negative then body[1..] else body;
    if digits != [] && AllDigits(digits) && (digits[0] != '0' || |digits| == 1) then
      var v: int := DigitsValue(digits);
      Some(if negative then -v else v)
    else None
  }

  /** `maxSize`: the parsed `max_size`, or the default when it cannot be read or parsed. */
  function LoadMaxSize(file: Option<string>, defaultMaxSize: int): int {
    match file
    case None => defaultMaxSize
    case Some(text) =>
      match ParseJsonInteger(text)
      case None => defaultMaxSize
      case Some(n) => n
  }

  /** A JSON integer literal, as `String` writes an integer, parses back to that integer. */
  lemma ParseJsonIntegerOfIntToString(n: int)
    ensures JsonTrim(IntToString(n)) == IntToString(n)
    ensures ParseJsonInteger(IntToString(n)) == Some(n)
  {
    var s := IntToString(n);
    var m: nat := if n < 0 then -n else n;
    DigitsValueOfNatToString(m);
    JsonTrimTrailing(s, []);
    assert s + [] == s;
  }

  /** Trailing JSON white space is dropped before the value is read. */
  lemma JsonTrimTrailing(s: string, ws: string)
    requires s != [] && !IsJsonSpace(s[0]) && !IsJsonSpace(s[|s| - 1]) && All(ws, IsJsonSpace)
    ensures JsonTrim(s + ws) == s
  {
    var t := s + ws;
    assert t == [] + t;
    LeadingWhileConcat([], t, IsJsonSpace);
    assert t[0..] == t;
    TrailingWhileConcat(s, ws, IsJsonSpace);
    assert t[..|t| - |ws|] == s;
  }

  /** A decimal integer followed by a newline (what a shell `echo` writes) reads back as itself. */
  lemma MaxSizeRoundTrip(n: int, defaultMaxSize: int)
    ensures LoadMaxSize(Some(IntToString(n) + "\n"), defaultMaxSize) == n
  {
    var s := IntToString(n);
    JsonTrimTrailing(s, "\n");
    ParseJsonIntegerOfIntToString(n);
  }

  /**
   * Text that `parseInt` reads as a number can still fall back to the
   * default: a digit string followed by a character that is neither a digit
   * nor JSON white space, and cannot continue a JSON number ('.', 'e', 'E').
   */
  lemma MaxSizeJunkFallsBack(n: nat, junk: string, defaultMaxSize: int)
    requires junk != [] && !IsDigit(junk[0]) && !IsJsonSpace(junk[0])
    requires junk[0] != '.' && junk[0] != 'e' && junk[0] != 'E'
    ensures ParseInt(NatToString(n) + junk) == Some(n)
    ensures LoadMaxSize(Some(NatToString(n) + junk), defaultMaxSize) == defaultMaxSize
  {
    ParseIntOfIntToString(n, junk);
    JsonTrimKeeps(NatToString(n), junk);
  }

  /**
   * Digits followed by a character that is neither a digit, nor white space,
   * nor one that continues a JSON number ('.', 'e', 'E') are not JSON.
   */
  lemma JsonTrimKeeps(d: string, junk: string)
    requires d != [] && AllDigits(d)
    requires junk != [] && !IsDigit(junk[0]) && !IsJsonSpace(junk[0])
    requires junk[0] != '.' && junk[0] != 'e' && junk[0] != 'E'
    ensures ParseJsonInteger(d + junk).None?
  {
    var s := d + junk;
    assert s[0] == d[0];
    assert LeadingWhile(s, IsJsonSpace) == 0;
    assert s[0..] == s;
    assert s[|d|] == junk[0];
    TrailingWhileStops(s, |d|, IsJsonSpace);
    var body := JsonTrim(s);
    assert body == s[..|s| - TrailingWhile(s, IsJsonSpace)];
    assert body[|d|] == junk[0];
    assert body[0] == d[0];
  }

  /** The value of `hrConf`: `undefined`, or a JSON value. */
  datatype Conf = Undefined | Defined(value: Json)

  /**
   * `hrConf = JSON.parse(hackerrank.json).configuration`, with `{}` when the
   * file cannot be read or parsed, or when it holds `null` (reading a
   * property of null throws inside the same `try`).
   */
  function LoadHrConf(manifest: Option<Json>): Conf {
    match manifest
    case None => Defined(JObject(map[]))
    case Some(JNull) => Defined(JObject(map[]))
    case Some(JObject(m)) => if "configuration" in m then Defined(m["configuration"]) else Undefined
    case Some(_) => Undefined
  }

  /** `hrConf.readonly_paths`: `None` is `undefined`; reading it off `undefined` or `null` throws. */
  function ReadonlyPathsProperty(conf: Conf): Result<Option<Json>, Thrown> {
    match conf
    case Undefined => Failure(TypeError("Cannot read property 'readonly_paths' of undefined"))
    case Defined(JNull) => Failure(TypeError("Cannot read property 'readonly_paths' of null"))
    case Defined(JObject(m)) => Success(if "readonly_paths" in m then Some(m["readonly_paths"]) else None)
    case Defined(_) => Success(None)
  }

  /** JavaScript truthiness of a JSON value, `None` being `undefined`. */
  predicate Truthy(v: Option<Json>) {
    match v
    case None => false
    case Some(JNull) => false
    case Some(JBool(b)) => b
    case Some(JNumber(n)) => n != 0
    case Some(JString(s)) => s != []
    case Some(_) => true
  }

  /** `String(v)`: the source text `new RegExp(v)` compiles. */
  function ToJsString(v: Json): string
    decreases v
  {
    match v
    case JNull => "null"
    case JBool(b) => if b then "true" else "false"
    case JNumber(n) => IntToString(n)
    case JString(s) => s
    case JArray(items) =>
      Join(seq(|items|, i requires 0 <= i < |items| =>
        if items[i].JNull? then "" else ToJsString(items[i])), ",")
    case JObject(_) => "[object Object]"
  }

  /**
   * `hrConf.readonly_paths || []` handed to `stringsToRegExps`: the sources
   * of the patterns, or the error thrown on the way (a truthy value that is
   * not an array has no `map`).
   */
  function PatternSources(conf: Conf): Result<seq<string>, Thrown> {
    match ReadonlyPathsProperty(conf)
    case Failure(e) => Failure(e)
    case Success(v) =>
      if !Truthy(v) then Success([])
      else if v.value.JArray? then
        var items := v.value.items;
        Success(seq(|items|, i requires 0 <= i < |items| => ToJsString(items[i])))
      else Failure(TypeError("strings.map is not a function"))
  }

  /** Without a readable `hackerrank.json` there are no read-only patterns. */
  lemma MissingManifestNoPatterns()
    ensures PatternSources(LoadHrConf(None)) == Success([])
  {
  }

  /** A falsy `readonly_paths` means no patterns; a truthy one that is not an array throws a TypeError. */
  lemma ReadonlyPathsShapes(conf: map<string, Json>)
    requires "readonly_paths" in conf
    ensures !Truthy(Some(conf["readonly_paths"])) ==> PatternSources(Defined(JObject(conf))) == Success([])
    ensures Truthy(Some(conf["readonly_paths"])) && !conf["readonly_paths"].JArray? ==>
      PatternSources(Defined(JObject(conf))) == Failure(TypeError("strings.map is not a function"))
  {
  }

  /** A `hackerrank.json` object without `configuration` makes the read-only step throw a TypeError. */
  lemma MissingConfigurationThrows(m: map<string, Json>)
    requires "configuration" !in m
    ensures PatternSources(LoadHrConf(Some(JObject(m)))).Failure?
    ensures PatternSources(LoadHrConf(Some(JObject(m)))).error.name == "TypeError"
  {
  }

  // ---------------------------------------------------------------------
  // stringsToRegExps

  /** `stringsToRegExps`: compiles each source in order and drops the ones that fail to compile. */
  function StringsToRegExps(sources: seq<string>, re: RegexEngine): (r: seq<string>)
    ensures |r| <= |sources|
    ensures forall p :: p in r <==> p in sources && re.valid(p)
    decreases |sources|
  {
    if sources == [] then []
    else (if re.valid(sources[0]) then [sources[0]] else []) + StringsToRegExps(sources[1..], re)
  }

  /** The kept patterns come in input order: compiling a concatenation compiles each part. */
  lemma {:induction false} StringsToRegExpsConcat(a: seq<string>, b: seq<string>, re: RegexEngine)
    ensures StringsToRegExps(a + b, re) == StringsToRegExps(a, re) + StringsToRegExps(b, re)
    decreases |a|
  {
    if a == [] {
      assert a + b == b;
    } else {
      assert (a + b)[0] == a[0];
      assert (a + b)[1..] == a[1..] + b;
      StringsToRegExpsConcat(a[1..], b, re);
    }
  }

  // ---------------------------------------------------------------------
  // The three checks

  const BadObject: string := "bad object " + NullHash
  const DeletionMessage: string := "Deletion of branches is not allowed."

  /**
   * `validateHash`: `git show` of the new hash must succeed; when it fails
   * because the null hash is a bad object the push deletes a branch, and any
   * other failure is passed on.
   */
  function ValidateHash(show: string -> ExecResult, newHash: Option<string>): Option<Thrown> {
    match show(HashText(newHash))
    case Done(_) => None
    case Failed(e, stderr) =>
      if Contains(stderr, BadObject) then Some(ValidationError(DeletionMessage)) else Some(e)
  }

  /** `getRepoSize`: `parseInt` of the first token `du -sk` prints (`None` is `NaN`). */
  function RepoSize(du: ExecResult): Result<Option<int>, Thrown> {
    match du
    case Done(out) => Success(ParseInt(SplitWs(out)[0]))
    case Failed(e, _) => Failure(e)
  }

  function SizeMessage(size: int, maxSize: int): string {
    "Repo (" + IntToString(size) + " KB) too large. Maximum allowed: " + IntToString(maxSize) + " KB."
  }

  /** `processSize`: a size strictly above the limit is refused (`NaN` never is). */
  function ProcessSize(du: ExecResult, maxSize: int): Option<Thrown> {
    match RepoSize(du)
    case Failure(e) => Some(e)
    case Success(None) => None
    case Success(Some(size)) =>
      if size > maxSize then Some(ValidationError(SizeMessage(size, maxSize))) else None
  }

  /**
   * The changed files as the hook sees them: the diff output split on the
   * two literal characters "s+" (the string '\s+' is "s+" in JavaScript),
   * each piece trimmed.
   */
  function DiffFiles(out: string): seq<string> {
    var pieces := Split(out, "s+");
    seq(|pieces|, i requires 0 <= i < |pieces| => Trim(pieces[i]))
  }

  predicate AnyMatch(file: string, patterns: seq<string>, re: RegexEngine) {
    exists i :: 0 <= i < |patterns| && re.matches(patterns[i], file)
  }

  /** The files some pattern matches, in diff order. */
  function MatchingFiles(files: seq<string>, patterns: seq<string>, re: RegexEngine): (r: seq<string>)
    ensures |r| <= |files|
    ensures forall f :: f in r <==> f in files && AnyMatch(f, patterns, re)
    decreases |files|
  {
    if files == [] then []
    else
      (if AnyMatch(files[0], patterns, re) then [files[0]] else [])
      + MatchingFiles(files[1..], patterns, re)
  }

  /** Filtering a concatenation filters each part: the matches keep diff order. */
  lemma {:induction false} MatchingFilesConcat(a: seq<string>, b: seq<string>, patterns: seq<string>, re: RegexEngine)
    ensures MatchingFiles(a + b, patterns, re) == MatchingFiles(a, patterns, re) + MatchingFiles(b, patterns, re)
    decreases |a|
  {
    if a == [] {
      assert a + b == b;
    } else {
      assert (a + b)[0] == a[0];
      assert (a + b)[1..] == a[1..] + b;
      MatchingFilesConcat(a[1..], b, patterns, re);
    }
  }

  const ReadOnlyPrefix: string := "Attempting to modify read only files: \n\t"

  function ReadOnlyMessage(matches: seq<string>): string {
    ReadOnlyPrefix + Join(matches, "\n\t")
  }

  /** The revision diffed against: the old hash, or master's root commit when the old hash is null. */
  function DiffBase(oldHash: string, revList: ExecResult): Result<string, Thrown> {
    if oldHash == NullHash then
      match revList
      case Done(out) => Success(Trim(out))
      case Failed(e, _) => Failure(e)
    else Success(oldHash)
  }

  /** `processReadOnly`: refuses a push that changes a file some read-only pattern matches. */
  function ProcessReadOnly(env: HookEnv, oldHash: string, newHash: Option<string>, conf: Conf): Option<Thrown> {
    match DiffBase(oldHash, env.revList)
    case Failure(e) => Some(e)
    case Success(base) =>
      match env.diff(base, HashText(newHash))
      case Failed(e, _) => Some(e)
      case Done(out) =>
        match PatternSources(conf)
        case Failure(e) => Some(e)
        case Success(sources) =>
          var matches := MatchingFiles(DiffFiles(out), StringsToRegExps(sources, env.re), env.re);
          if matches != [] then Some(ValidationError(ReadOnlyMessage(matches))) else None
  }

  /** The three checks in order; the first failure wins. */
  function Checks(env: HookEnv, oldHash: string, newHash: Option<string>, maxSize: int, conf: Conf): Option<Thrown> {
    match ValidateHash(env.show, newHash)
    case Some(e) => Some(e)
    case None =>
      match ProcessSize(env.du, maxSize)
      case Some(e) => Some(e)
      case None => ProcessReadOnly(env, oldHash, newHash, conf)
  }

  // ---------------------------------------------------------------------
  // Rendering

  const Esc: char := '\U{1B}'

  /** The ANSI colour codes the hook knows. */
  function AnsiCode(color: string): Option<nat> {
    if color == "red" then Some(31) else if color == "green" then Some(32) else None
  }

  function ColorPrefix(code: nat): string {
    [Esc] + "[" + NatToString(code) + "m"
  }

  const ColorReset: string := [Esc] + "[0m"

  /** `ansiColorize`: wraps a text in the colour's escape sequence; an unknown colour leaves it alone. */
  function Colorize(s: string, color: string): string {
    match AnsiCode(color)
    case None => s
    case Some(code) => ColorPrefix(code) + s + ColorReset
  }

  /** What a terminal shows of a text wrapped in colour `code`. */
  function Uncolorize(s: string, code: nat): string {
    var p := ColorPrefix(code);
    if |p| + |ColorReset| <= |s| && s[..|p|] == p && s[|s| - |ColorReset|..] == ColorReset then
      s[|p|..|s| - |ColorReset|]
    else s
  }

  /** Colouring hides nothing: stripping the escape sequence gives back the text. */
  lemma UncolorizeColorize(s: string, color: string)
    requires AnsiCode(color).Some?
    ensures Uncolorize(Colorize(s, color), AnsiCode(color).value) == s
  {
    var p := ColorPrefix(AnsiCode(color).value);
    var r := p + s + ColorReset;
    assert r[..|p|] == p;
    assert r[|r| - |ColorReset|..] == ColorReset;
    assert r[|p|..|r| - |ColorReset|] == s;
  }

  const Rule: string := "_______________________________________________________________________"
  const ArtTop: string := " ___  __   __   __   __"
  const ArtMiddle: string := "|__  |__) |__) /  \\ |__)"
  const ArtBottom: string := "|___ |  \\ |  \\ \\__/ |  \\"

  /** The lines of the error banner around a message. */
  function ErrorLines(msg: string): seq<string> {
    [Rule, ArtTop, ArtMiddle, ArtBottom, "", msg, Rule]
  }

  /** `renderError`: the banner lines joined by newlines, in red. */
  function RenderError(msg: string): string {
    Colorize(Join(ErrorLines(msg), "\n"), "red")
  }

  /** Everything the banner prints before the message, and after it. */
  function ErrorHead(): string {
    ColorPrefix(31) + Join([Rule, ArtTop, ArtMiddle, ArtBottom, ""], "\n") + "\n"
  }

  function ErrorTail(): string {
    "\n" + Join([Rule], "\n") + ColorReset
  }

  /** The message a printed error banner carries. */
  function ErrorMessageOf(out: string): string {
    if |ErrorHead()| + |ErrorTail()| <= |out| then out[|ErrorHead()|..|out| - |ErrorTail()|] else out
  }

  /** The banner is a fixed head, the message, and a fixed tail. */
  lemma RenderErrorLayout(msg: string)
    ensures RenderError(msg) == ErrorHead() + msg + ErrorTail()
  {
    var before := [Rule, ArtTop, ArtMiddle, ArtBottom, ""];
    assert ErrorLines(msg) == before + [msg] + [Rule];
    JoinAround(before, msg, [Rule], "\n");
    assert AnsiCode("red") == Some(31);
    WrapAround(ColorPrefix(31), Join(before, "\n"), msg, Join([Rule], "\n"), ColorReset);
  }

  /** Regrouping a wrapped, joined text around its middle piece. */
  lemma WrapAround(p: string, h: string, m: string, t: string, r: string)
    ensures p + (h + "\n" + m + "\n" + t) + r == (p + h + "\n") + m + ("\n" + t + r)
  {
  }

  /** Distinct messages give distinct banners: the message can be read back from the output. */
  lemma ErrorMessageRoundTrip(msg: string)
    ensures ErrorMessageOf(RenderError(msg)) == msg
  {
    RenderErrorLayout(msg);
    var out := ErrorHead() + msg + ErrorTail();
    assert out[|ErrorHead()|..|out| - |ErrorTail()|] == msg;
  }

  /** The text the catch handler prints for a failure. */
  function ErrorText(e: Thrown): string {
    if e.name == "ValidationError" then e.message
    else "Unknown server error occured: " + e.name + " => " + e.message
  }

  /** A JavaScript number as the status computes it. */
  datatype Num = Finite(v: int) | NaN | Infinity(positive: bool)

  /** `Math.round(a / b)`: the integer nearest `a / b`, halves rounded up. */
  function RoundHalfUp(a: int, b: int): (r: int)
    requires b != 0
    ensures b > 0 ==> 2 * r * b - b <= 2 * a < 2 * r * b + b
    ensures b < 0 ==> 2 * r * b - b >= 2 * a > 2 * r * b + b
  {
    if b > 0 then (2 * a + b) / (2 * b) else (-2 * a - b) / (-2 * b)
  }

  /** `Math.round(repoSizeMB / maxSizeMB * 100)`, with exact arithmetic. */
  function Percentage(size: Option<int>, maxSize: int): Num {
    match size
    case None => NaN
    case Some(s) =>
      if maxSize != 0 then Finite(RoundHalfUp(100 * s, maxSize))
      else if s == 0 then NaN
      else Infinity(s > 0)
  }

  /** `Math.round(barLen * percentage / 100)`. */
  function Progress(percentage: Num): Num {
    match percentage
    case Finite(p) => Finite(RoundHalfUp(BarLen * p, 100))
    case NaN => NaN
    case Infinity(pos) => Infinity(pos)
  }

  /**
   * `'#'.repeat(progress) + '-'.repeat(barLen - progress)`; `None` is the
   * RangeError `repeat` throws for a negative or infinite count (`NaN` counts
   * as zero).
   */
  function ProgressBar(progress: Num): Option<string> {
    match progress
    case NaN => Some("")
    case Infinity(_) => None
    case Finite(k) =>
      if 0 <= k <= BarLen then Some(Repeat('#', k) + Repeat('-', BarLen - k)) else None
  }

  /** A number of tenths printed as JavaScript prints `tenths / 10`. */
  function TenthsText(tenths: int): string {
    var m: nat := if tenths < 0 then -tenths else tenths;
    var sign := if tenths < 0 then "-" else "";
    sign + NatToString(m / 10) + (if m % 10 == 0 then "" else "." + [DigitChar(m % 10)])
  }

  /** `Math.round(kb / 1024 * 10) / 10`, printed. */
  function MegabytesText(kb: Option<int>): string {
    match kb
    case None => "NaN"
    case Some(k) => TenthsText(RoundHalfUp(10 * k, 1024))
  }

  function NumText(n: Num): string {
    match n
    case Finite(v) => IntToString(v)
    case NaN => "NaN"
    case Infinity(pos) => if pos then "Infinity" else "-Infinity"
  }

  const SuccessBanner: string := "Pushed to HackerRank Git Server"

  /**
   * `renderStatus`: the green banner and the gauge line. It runs outside the
   * catch handler, so when it throws (a failing `du`, a gauge count out of
   * range) nothing is printed and the push still goes through.
   */
  function StatusText(du: ExecResult, maxSize: int): string {
    match RepoSize(du)
    case Failure(_) => ""
    case Success(size) =>
      var percentage := Percentage(size, maxSize);
      match ProgressBar(Progress(percentage))
      case None => ""
      case Some(bar) =>
        Colorize(SuccessBanner, "green") + "\n"
        + Colorize("[" + bar + "] Using " + MegabytesText(size) + " / "
                   + MegabytesText(Some(maxSize)) + "MB (" + NumText(percentage) + "%)", "green")
  }

  /** For a percentage in [0, 100] the gauge is 32 characters: `round(32p/100)` '#' then '-'. */
  lemma GaugeWidth(p: int)
    requires 0 <= p <= 100
    ensures var k := RoundHalfUp(BarLen * p, 100);
      0 <= k <= BarLen
      && ProgressBar(Progress(Finite(p))) == Some(Repeat('#', k) + Repeat('-', BarLen - k))
      && |ProgressBar(Progress(Finite(p))).value| == BarLen
  {
  }

  /** The gauge renders exactly for percentages from -1 to 101; outside that `repeat` throws. */
  lemma GaugeRange(p: int)
    ensures ProgressBar(Progress(Finite(p))).Some? <==> -1 <= p <= 101
  {
    var k := RoundHalfUp(BarLen * p, 100);
    if p <= -2 {
      assert 2 * k * 100 - 100 <= 2 * 32 * p;
      assert k < 0;
    } else if p >= 102 {
      assert 2 * 32 * p < 2 * k * 100 + 100;
      assert k > 32;
    } else {
      assert 2 * k * 100 - 100 <= 2 * 32 * p < 2 * k * 100 + 100;
    }
  }

  lemma CancelPositive(x: int, y: int, m: int)
    requires m > 0 && x * m <= y * m
    ensures x <= y
  {
    assert (y - x) * m >= 0;
  }

  /** A repository within a positive limit always gets its gauge. */
  lemma WithinLimitGauge(size: int, maxSize: int)
    requires 0 <= size <= maxSize && maxSize > 0
    ensures Percentage(Some(size), maxSize).Finite?
    ensures 0 <= Percentage(Some(size), maxSize).v <= 100
    ensures ProgressBar(Progress(Percentage(Some(size), maxSize))).Some?
  {
    var p := RoundHalfUp(100 * size, maxSize);
    assert (2 * p - 1) * maxSize <= 201 * maxSize;
    CancelPositive(2 * p - 1, 201, maxSize);
    assert 0 * maxSize < (2 * p + 1) * maxSize;
    CancelPositive(0, 2 * p, maxSize);
    GaugeWidth(p);
  }

  // ---------------------------------------------------------------------
  // The whole hook

  /** What the hook prints and how it exits, for everything it reads. */
  function HookVerdict(env: HookEnv): Verdict {
    var input := ParseStdin(env.stdin);
    var maxSize := LoadMaxSize(env.maxSizeFile, env.defaultMaxSize);
    match Checks(env, input.0, input.1, maxSize, LoadHrConf(env.manifest))
    case Some(e) => Rejected(RenderError(ErrorText(e)))
    case None => Accepted(StatusText(env.du, maxSize))
  }

  /** A push is accepted exactly when all three checks pass; every failure exits 1. */
  lemma NoSilentAccept(env: HookEnv)
    ensures var input := ParseStdin(env.stdin);
      var failure := Checks(env, input.0, input.1,
                            LoadMaxSize(env.maxSizeFile, env.defaultMaxSize), LoadHrConf(env.manifest));
      && (HookVerdict(env).Accepted? <==> failure.None?)
      && (ExitCode(HookVerdict(env)) == 1 <==> failure.Some?)
      && (failure.Some? ==> ErrorMessageOf(HookVerdict(env).output) == ErrorText(failure.value))
  {
    var input := ParseStdin(env.stdin);
    var failure := Checks(env, input.0, input.1,
                          LoadMaxSize(env.maxSizeFile, env.defaultMaxSize), LoadHrConf(env.manifest));
    if failure.Some? {
      ErrorMessageRoundTrip(ErrorText(failure.value));
    }
  }

  /**
   * A deletion is refused with its own message before the size and
   * read-only checks run: when `git show` of the new hash reports the null
   * hash as a bad object, nothing else the hook reads matters.
   */
  lemma DeletionRefusedFirst(env: HookEnv)
    requires env.show(HashText(ParseStdin(env.stdin).1)).Failed?
    requires Contains(env.show(HashText(ParseStdin(env.stdin).1)).stderr, BadObject)
    ensures HookVerdict(env) == Rejected(RenderError(DeletionMessage))
  {
  }

  /** The null hash is one white-space free token. */
  lemma NullHashToken()
    ensures NullHash != [] && NoneOf(NullHash, IsSpace)
  {
  }

  /** The verdict once the checks have given `failure`. */
  lemma VerdictOfChecks(env: HookEnv, failure: Option<Thrown>)
    requires failure == Checks(env, ParseStdin(env.stdin).0, ParseStdin(env.stdin).1,
                               LoadMaxSize(env.maxSizeFile, env.defaultMaxSize), LoadHrConf(env.manifest))
    ensures failure.Some? ==> HookVerdict(env) == Rejected(RenderError(ErrorText(failure.value)))
    ensures failure.None? ==> HookVerdict(env) == Accepted(StatusText(env.du, LoadMaxSize(env.maxSizeFile, env.defaultMaxSize)))
  {
  }

  /** A push line `<old> <null hash> <ref>` is a deletion, given a git that reports the null hash as a bad object. */
  lemma BranchDeletionRefused(env: HookEnv, oldHash: string, ref: string)
    requires NoneOf(oldHash, IsSpace) && NoneOf(ref, IsSpace)
    requires env.stdin == oldHash + " " + NullHash + " " + ref + "\n"
    requires env.show(NullHash).Failed? && Contains(env.show(NullHash).stderr, BadObject)
    ensures HookVerdict(env) == Rejected(RenderError(DeletionMessage))
    ensures ErrorMessageOf(HookVerdict(env).output) == DeletionMessage
  {
    assert env.stdin == oldHash + " " + NullHash + (" " + ref + "\n");
    NullHashToken();
    StdinTokens(oldHash, " ", NullHash, " " + ref + "\n");
    assert HashText(ParseStdin(env.stdin).1) == NullHash;
    DeletionRefusedFirst(env);
    ErrorMessageRoundTrip(DeletionMessage);
  }

  /**
   * Past the deletion check, the size check refuses exactly a size strictly
   * above the limit, with the size and the limit in its message; a size
   * equal to the limit goes on to the read-only check.
   */
  lemma SizeCheckRefusesAboveLimit(env: HookEnv, size: int)
    requires ValidateHash(env.show, ParseStdin(env.stdin).1).None?
    requires RepoSize(env.du) == Success(Some(size))
    ensures var maxSize := LoadMaxSize(env.maxSizeFile, env.defaultMaxSize);
      && (size > maxSize ==> HookVerdict(env) == Rejected(RenderError(SizeMessage(size, maxSize))))
      && (size <= maxSize ==> Checks(env, ParseStdin(env.stdin).0, ParseStdin(env.stdin).1, maxSize, LoadHrConf(env.manifest))
                              == ProcessReadOnly(env, ParseStdin(env.stdin).0, ParseStdin(env.stdin).1, LoadHrConf(env.manifest)))
  {
  }

  /**
   * The read-only check (once git has answered and the patterns are known)
   * refuses exactly when some changed file matches some pattern that
   * compiles, and its message lists every such file in diff order.
   */
  lemma ReadOnlyRefusesExactly(env: HookEnv, oldHash: string, newHash: Option<string>, conf: Conf,
                               base: string, out: string, sources: seq<string>)
    requires DiffBase(oldHash, env.revList) == Success(base)
    requires env.diff(base, HashText(newHash)) == Done(out)
    requires PatternSources(conf) == Success(sources)
    ensures ProcessReadOnly(env, oldHash, newHash, conf).Some?
        <==> exists f, p :: f in DiffFiles(out) && p in sources && env.re.valid(p) && env.re.matches(p, f)
    ensures ProcessReadOnly(env, oldHash, newHash, conf).Some? ==>
      ProcessReadOnly(env, oldHash, newHash, conf)
        == Some(ValidationError(ReadOnlyMessage(MatchingFiles(DiffFiles(out), StringsToRegExps(sources, env.re), env.re))))
  {
    var matches := MatchingFiles(DiffFiles(out), StringsToRegExps(sources, env.re), env.re);
    assert ProcessReadOnly(env, oldHash, newHash, conf)
        == if matches != [] then Some(ValidationError(ReadOnlyMessage(matches))) else None;
    SomeFileMatches(DiffFiles(out), sources, env.re);
  }

  /** Some file matches a compiled pattern exactly when some file matches some valid source. */
  lemma SomeFileMatches(files: seq<string>, sources: seq<string>, re: RegexEngine)
    ensures MatchingFiles(files, StringsToRegExps(sources, re), re) != []
        <==> exists f, p :: f in files && p in sources && re.valid(p) && re.matches(p, f)
  {
    var patterns := StringsToRegExps(sources, re);
    var matches := MatchingFiles(files, patterns, re);
    if matches != [] {
      var f := matches[0];
      assert f in files && AnyMatch(f, patterns, re);
      var i :| 0 <= i < |patterns| && re.matches(patterns[i], f);
      assert patterns[i] in sources && re.valid(patterns[i]);
    }
    forall f, p | f in files && p in sources && re.valid(p) && re.matches(p, f)
      ensures matches != []
    {
      assert p in patterns;
      var i :| 0 <= i < |patterns| && patterns[i] == p;
      assert AnyMatch(f, patterns, re);
      assert f in matches;
    }
  }

  lemma {:induction false} MatchingFilesNoPatterns(files: seq<string>, re: RegexEngine)
    ensures MatchingFiles(files, [], re) == []
    decreases |files|
  {
    if files != [] {
      MatchingFilesNoPatterns(files[1..], re);
    }
  }

  /** With no patterns the read-only check never refuses once git has answered. */
  lemma NoPatternsNoRefusal(env: HookEnv, oldHash: string, newHash: Option<string>, conf: Conf)
    requires PatternSources(conf) == Success([])
    requires DiffBase(oldHash, env.revList).Success?
    requires env.diff(DiffBase(oldHash, env.revList).value, HashText(newHash)).Done?
    ensures ProcessReadOnly(env, oldHash, newHash, conf) == None
  {
    var out := env.diff(DiffBase(oldHash, env.revList).value, HashText(newHash)).stdout;
    MatchingFilesNoPatterns(DiffFiles(out), env.re);
  }

  /** A null old hash is replaced by master's root commit (trimmed) before the diff. */
  lemma NullOldHashUsesRootCommit(revList: ExecResult, out: string)
    requires revList == Done(out)
    ensures DiffBase(NullHash, revList) == Success(Trim(out))
    ensures forall h :: h != NullHash ==> DiffBase(h, revList) == Success(h)
  {
  }

  /** A failure that is not a ValidationError is reported as an unknown server error with its name and message. */
  lemma UnknownErrorReported(env: HookEnv, e: Thrown)
    requires e.name != "ValidationError"
    requires var (oldHash, newHash) := ParseStdin(env.stdin);
      Checks(env, oldHash, newHash, LoadMaxSize(env.maxSizeFile, env.defaultMaxSize), LoadHrConf(env.manifest)) == Some(e)
    ensures HookVerdict(env).Rejected?
    ensures ErrorMessageOf(HookVerdict(env).output)
         == "Unknown server error occured: " + e.name + " => " + e.message
  {
    ErrorMessageRoundTrip(ErrorText(e));
  }

  // ---------------------------------------------------------------------
  // The running hook

  /** `for (let pattern of patterns) if (file.match(pattern)) return true;` */
  method MatchesAny(file: string, patterns: seq<string>, re: RegexEngine) returns (b: bool)
    ensures b <==> AnyMatch(file, patterns, re)
  {
    for i := 0 to |patterns|
      invariant forall j :: 0 <= j < i ==> !re.matches(patterns[j], file)
    {
      if re.matches(patterns[i], file) {
        return true;
      }
    }
    return false;
  }

  /** `files.filter(...)` with the pattern loop as its callback. */
  method FilterMatching(files: seq<string>, patterns: seq<string>, re: RegexEngine) returns (matches: seq<string>)
    ensures matches == MatchingFiles(files, patterns, re)
  {
    matches := [];
    for i := 0 to |files|
      invariant matches == MatchingFiles(files[..i], patterns, re)
    {
      var hit := MatchesAny(files[i], patterns, re);
      assert files[..i + 1] == files[..i] + [files[i]];
      MatchingFilesConcat(files[..i], [files[i]], patterns, re);
      assert [files[i]][1..] == [];
      if hit {
        matches := matches + [files[i]];
      }
    }
    assert files[..|files|] == files;
  }

  /**
   * One run of the hook: what it read at start-up, the old hash it may
   * reassign, and what it has printed and will exit with.
   */
  class Hook {
    const env: HookEnv
    var oldHash: string
    const newHash: Option<string>
    const maxSize: int
    const hrConf: Conf
    var stdout: string
    var exitCode: int

    /** The module's start-up: read stdin, `max_size` and `hackerrank.json`. */
    constructor(env: HookEnv)
      ensures this.env == env
      ensures (oldHash, newHash) == ParseStdin(env.stdin)
      ensures maxSize == LoadMaxSize(env.maxSizeFile, env.defaultMaxSize)
      ensures hrConf == LoadHrConf(env.manifest)
      ensures stdout == "" && exitCode == 0
    {
      this.env := env;
      var pieces := SplitWs(env.stdin);
      oldHash := pieces[0];
      newHash := if |pieces| >= 2 then Some(pieces[1]) else None;
      maxSize := LoadMaxSize(env.maxSizeFile, env.defaultMaxSize);
      hrConf := LoadHrConf(env.manifest);
      stdout := "";
      exitCode := 0;
    }

    /** `processReadOnly`, reassigning the old hash when it is null. */
    method ProcessReadOnlyStep() returns (err: Option<Thrown>)
      modifies this`oldHash
      ensures err == ProcessReadOnly(env, old(oldHash), newHash, hrConf)
      ensures oldHash == if old(oldHash) == NullHash && env.revList.Done? then Trim(env.revList.stdout) else old(oldHash)
    {
      if oldHash == NullHash {
        match env.revList
        case Failed(e, _) =>
          return Some(e);
        case Done(out) =>
          oldHash := Trim(out);
      }
      match env.diff(oldHash, HashText(newHash))
      case Failed(e, _) =>
        return Some(e);
      case Done(out) =>
        var files := DiffFiles(out);
        match PatternSources(hrConf)
        case Failure(e) =>
          return Some(e);
        case Success(sources) =>
          var patterns := StringsToRegExps(sources, env.re);
          var matches := FilterMatching(files, patterns, env.re);
          if |matches| != 0 {
            return Some(ValidationError(ReadOnlyMessage(matches)));
          }
          return None;
    }

    /** The three checks in order; the first that fails stops the chain. */
    method RunChecks() returns (err: Option<Thrown>)
      modifies this`oldHash
      ensures err == Checks(env, old(oldHash), newHash, maxSize, hrConf)
    {
      err := ValidateHash(env.show, newHash);
      if err.None? {
        err := ProcessSize(env.du, maxSize);
      }
      if err.None? {
        err := ProcessReadOnlyStep();
      }
    }

    /** The promise chain: the three checks, then the status or the error banner. */
    method Run()
      requires stdout == "" && exitCode == 0 && oldHash == ParseStdin(env.stdin).0
      requires newHash == ParseStdin(env.stdin).1
      requires maxSize == LoadMaxSize(env.maxSizeFile, env.defaultMaxSize)
      requires hrConf == LoadHrConf(env.manifest)
      modifies this
      ensures stdout == HookVerdict(env).output
      ensures exitCode == ExitCode(HookVerdict(env))
    {
      var err := RunChecks();
      VerdictOfChecks(env, err);
      match err
      case Some(e) =>
        stdout := stdout + RenderError(ErrorText(e));
        exitCode := 1;
      case None =>
        stdout := stdout + StatusText(env.du, maxSize);
    }
  }
}
