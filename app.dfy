/**
 * The application-level decisions: which browser origins may call the
 * server (CORS), how a preflight OPTIONS request is answered, and what the
 * health check reports.
 *
 * The origin allowlist is a list of regular expressions in the server; each
 * has one of three shapes, written out here as string predicates:
 *
 *  - `/\.domain$/`: the origin ends with ".domain";
 *  - `/^(.*\/)?host$/`: the origin is the host, or ends with '/' and the
 *    host, the part before that '/' holding no line terminator (which `.`
 *    does not match);
 *  - `/^(.*\/)?host:\d+$/`: the same, followed by ':' and one or more
 *    decimal digits.
 */
module App {
  import opened Wrappers
  import opened JsStrings

  // ---------------------------------------------------------------------
  // Origin patterns

  datatype OriginPattern =
    | Suffix(text: string)
    | Host(name: string)
    | HostPort(name: string)

  /** `/^(.*\/)?name$/` */
  predicate HostMatch(o: string, name: string) {
    || o == name
    || (EndsWith(o, "/" + name) && NoneOf(o[..|o| - |name| - 1], IsLineTerminator))
  }

  /**
   * `/^(.*\/)?name:\d+$/`: the digits the pattern ends with are the whole
   * trailing run of digits, since the character before them is ':'.
   */
  predicate HostPortMatch(o: string, name: string) {
    var t := TrailingWhile(o, IsDigit);
    && 1 <= t < |o|
    && o[|o| - t - 1] == ':'
    && HostMatch(o[..|o| - t - 1], name)
  }

  /** `origin.match(pattern)` is not null. */
  predicate Matches(o: string, pattern: OriginPattern) {
    match pattern
    case Suffix(text) => EndsWith(o, text)
    case Host(name) => HostMatch(o, name)
    case HostPort(name) => HostPortMatch(o, name)
  }

  /**
   * `allowedOrigins` as written. The second pattern has a space inside the
   * domain name, so no origin under "hackerrank.com" is allowed.
   */
  const AllowedOrigins: seq<OriginPattern> := [
    Suffix(".hackerrank.net"),
    Suffix(".hack errank.com"),
    Host("localhost"),
    HostPort("localhost"),
    Host("127.0.0.1"),
    HostPort("127.0.0.1")
  ]

  /** The allowlist as intended: the second pattern is ".hackerrank.com". */
  const CorrectedOrigins: seq<OriginPattern> := AllowedOrigins[1 := Suffix(".hackerrank.com")]

  /** An origin header that is present and not empty (the header is truthy). */
  predicate Present(origin: Option<string>) {
    origin.Some? && origin.value != ""
  }

  /** The origin is sent and matches some pattern of the list. */
  predicate OriginAccepted(patterns: seq<OriginPattern>, origin: Option<string>) {
    Present(origin) && exists j :: 0 <= j < |patterns| && Matches(origin.value, patterns[j])
  }

  /** The host itself, or any line-terminator-free prefix and '/' before it, matches `/^(.*\/)?host$/`. */
  lemma HostMatchShapes(p: string, name: string)
    requires NoneOf(p, IsLineTerminator)
    ensures HostMatch(name, name)
    ensures HostMatch(p + "/" + name, name)
  {
    var o := p + "/" + name;
    assert o[|o| - |name| - 1..] == "/" + name;
    assert o[..|o| - |name| - 1] == p;
  }

  /** A port suffix matches exactly when what is before it matches the host pattern. */
  lemma HostPortMatchSplit(x: string, d: string, name: string)
    requires d != [] && AllDigits(d)
    ensures HostPortMatch(x + ":" + d, name) <==> HostMatch(x, name)
  {
    var o := x + ":" + d;
    assert o == (x + ":") + d;
    TrailingWhileConcat(x + ":", d, IsDigit);
    assert o[|o| - |d| - 1] == ':';
    assert o[..|o| - |d| - 1] == x;
  }

  /** An origin that does not end with the host's name never matches its pattern. */
  lemma HostMatchEndsWith(o: string, name: string)
    requires !EndsWith(o, name)
    ensures !HostMatch(o, name)
  {
    if |o| >= |name| + 1 {
      assert o[|o| - |name|..] == o[|o| - |name| - 1..][1..];
    }
  }

  /** An origin that does not end with a digit never matches a port pattern. */
  lemma HostPortEndsWithDigit(o: string, name: string)
    requires o == [] || !IsDigit(o[|o| - 1])
    ensures !HostPortMatch(o, name)
  {
  }

  /** A name glued to other text, with no '/' in between, does not match the host pattern. */
  lemma HostMatchNeedsSlash(o: string, name: string)
    requires |o| > |name| && o[|o| - |name| - 1] != '/'
    ensures !HostMatch(o, name)
  {
  }

  /**
   * An origin that does not end with a digit, matches neither host pattern
   * and ends with neither domain of the list is refused by the list as
   * written; the corrected list refuses it too unless it ends with
   * ".hackerrank.com".
   */
  lemma RefusedAsWritten(o: string)
    requires o != [] && !IsDigit(o[|o| - 1])
    requires !EndsWith(o, ".hackerrank.net") && !EndsWith(o, ".hack errank.com")
    requires !HostMatch(o, "localhost") && !HostMatch(o, "127.0.0.1")
    ensures !OriginAccepted(AllowedOrigins, Some(o))
    ensures !OriginAccepted(CorrectedOrigins, Some(o)) || EndsWith(o, ".hackerrank.com")
  {
    HostPortEndsWithDigit(o, "localhost");
    HostPortEndsWithDigit(o, "127.0.0.1");
  }

  /** `RefusedAsWritten` for an origin that ends with neither host name. */
  lemma RefusedEndingElsewhere(o: string)
    requires o != [] && !IsDigit(o[|o| - 1])
    requires !EndsWith(o, ".hackerrank.net") && !EndsWith(o, ".hack errank.com")
    requires !EndsWith(o, "localhost") && !EndsWith(o, "127.0.0.1")
    ensures !OriginAccepted(AllowedOrigins, Some(o))
    ensures !OriginAccepted(CorrectedOrigins, Some(o)) || EndsWith(o, ".hackerrank.com")
  {
    HostMatchEndsWith(o, "localhost");
    HostMatchEndsWith(o, "127.0.0.1");
    RefusedAsWritten(o);
  }

  /** A host right after a '/' matches `/^(.*\/)?host$/` when nothing before that '/' is a line terminator. */
  lemma HostMatchAfterSlash(p: string, name: string)
    requires p != [] && p[|p| - 1] == '/' && NoneOf(p[..|p| - 1], IsLineTerminator)
    ensures HostMatch(p + name, name)
  {
    HostMatchShapes(p[..|p| - 1], name);
    assert p + name == p[..|p| - 1] + "/" + name;
  }

  /** Every origin ending with ".hackerrank.net" is allowed, as the server's tests expect. */
  lemma AllowedDomainExamples(prefix: string)
    ensures OriginAccepted(AllowedOrigins, Some(prefix + ".hackerrank.net"))
  {
    var o := prefix + ".hackerrank.net";
    assert o[|prefix|..] == ".hackerrank.net";
    assert Matches(o, AllowedOrigins[0]);
  }

  /** The local hosts from the server's tests, bare and with a port, are allowed. */
  lemma AllowedLocalExamples()
    ensures OriginAccepted(AllowedOrigins, Some("localhost"))
    ensures OriginAccepted(AllowedOrigins, Some("127.0.0.1"))
    ensures OriginAccepted(AllowedOrigins, Some("localhost" + ":" + "8000"))
  {
    assert Matches("localhost", AllowedOrigins[2]);
    assert Matches("127.0.0.1", AllowedOrigins[4]);
    HostPortMatchSplit("localhost", "8000", "localhost");
    assert Matches("localhost" + ":" + "8000", AllowedOrigins[3]);
  }

  /** The local host after a scheme, with and without a port, is allowed. */
  lemma AllowedUrlExamples()
    ensures OriginAccepted(AllowedOrigins, Some("http://" + "localhost"))
    ensures OriginAccepted(AllowedOrigins, Some("http://" + "localhost" + ":" + "8000"))
  {
    HostMatchAfterSlash("http://", "localhost");
    assert Matches("http://" + "localhost", AllowedOrigins[2]);
    HostPortMatchSplit("http://" + "localhost", "8000", "localhost");
    assert Matches("http://" + "localhost" + ":" + "8000", AllowedOrigins[3]);
  }

  /** Look-alike domains from the server's tests are refused. */
  lemma LookalikeDomainsRefused()
    ensures !OriginAccepted(AllowedOrigins, Some("google.com"))
    ensures !OriginAccepted(AllowedOrigins, Some("malicioushackerrank.net"))
    ensures !OriginAccepted(AllowedOrigins, Some("hackerrank.net.malicious"))
  {
    RefusedEndingElsewhere("google.com");
    assert "malicioushackerrank.net"[8] == 's';
    RefusedEndingElsewhere("malicioushackerrank.net");
    RefusedEndingElsewhere("hackerrank.net.malicious");
  }

  /** Look-alike local hosts from the server's tests are refused. */
  lemma LookalikeHostsRefused()
    ensures !OriginAccepted(AllowedOrigins, Some("localhost.malicious.com"))
  {
    RefusedEndingElsewhere("localhost.malicious.com");
  }

  /** A host name glued to the end of another name, with no '/' before it, is refused. */
  lemma GluedHostRefused()
    ensures !OriginAccepted(AllowedOrigins, Some("malicious" + "localhost"))
  {
    var glued := "malicious" + "localhost";
    assert glued[|glued| - 1] == 't' && glued[8] == 's';
    HostMatchNeedsSlash(glued, "localhost");
    HostMatchEndsWith(glued, "127.0.0.1");
    RefusedAsWritten(glued);
  }

  /** As written, an origin under "hackerrank.com" is refused, although the server's tests expect it allowed. */
  lemma HackerrankComRefusedAsWritten()
    ensures !OriginAccepted(AllowedOrigins, Some("x.hackerrank.com"))
  {
    assert "x.hackerrank.com"[6] != ".hack errank.com"[5];
    RefusedEndingElsewhere("x.hackerrank.com");
  }

  /** The corrected list still refuses the look-alikes of "hackerrank.com". */
  lemma CorrectedRefusesLookalikes()
    ensures !OriginAccepted(CorrectedOrigins, Some("malicioushackerrank.com"))
    ensures !OriginAccepted(CorrectedOrigins, Some("x.hackerrank.com.malicious"))
  {
    assert "malicioushackerrank.com"[8] == 's';
    RefusedEndingElsewhere("malicioushackerrank.com");
    RefusedEndingElsewhere("x.hackerrank.com.malicious");
  }

  /**
   * The corrected list allows every origin ending with ".hackerrank.com"
   * and, on any origin ending with neither that nor the misspelt domain,
   * agrees with the list as written.
   */
  lemma CorrectedAllowsHackerrankCom(prefix: string, o: string)
    requires !EndsWith(o, ".hackerrank.com") && !EndsWith(o, ".hack errank.com")
    ensures OriginAccepted(CorrectedOrigins, Some(prefix + ".hackerrank.com"))
    ensures OriginAccepted(CorrectedOrigins, Some(o)) <==> OriginAccepted(AllowedOrigins, Some(o))
  {
    var h := prefix + ".hackerrank.com";
    assert h[|h| - 15..] == ".hackerrank.com";
    assert Matches(h, CorrectedOrigins[1]);
    forall j | 0 <= j < 6 && j != 1 ensures CorrectedOrigins[j] == AllowedOrigins[j] {
    }
  }

  // ---------------------------------------------------------------------
  // The request flag

  /** The fields the CORS middleware reads and sets on a request. */
  class AppRequest {
    const origin: Option<string>
    var originValid: bool

    constructor(origin: Option<string>)
      ensures this.origin == origin && !originValid
    {
      this.origin := origin;
      originValid := false;
    }

    /**
     * `validateOrigin`: sets the flag when the origin matches some pattern;
     * it only ever sets it, never clears it.
     */
    method ValidateOrigin(patterns: seq<OriginPattern>)
      modifies this
      ensures originValid == (old(originValid) || OriginAccepted(patterns, origin))
    {
      for i := 0 to |patterns|
        invariant originValid
          == (old(originValid) || (Present(origin) && exists j :: 0 <= j < i && Matches(origin.value, patterns[j])))
      {
        if Present(origin) && Matches(origin.value, patterns[i]) {
          originValid := true;
        }
      }
    }
  }

  // ---------------------------------------------------------------------
  // Responses

  /** `handleCORS`: the headers added for a valid, present origin. */
  function CorsHeaders(originValid: bool, origin: Option<string>): seq<(string, string)> {
    if originValid && Present(origin) then
      [("Access-Control-Allow-Origin", origin.value),
       ("Access-Control-Allow-Headers", "content-type"),
       ("Vary", "Origin")]
    else []
  }

  /** `handleOptions`: the status of a preflight request. */
  function OptionsStatus(originValid: bool, origin: Option<string>): int {
    if originValid || !Present(origin) then 204 else 401
  }

  /**
   * With the flag `validateOrigin` leaves on a fresh request: CORS headers
   * are sent exactly when the origin is allowed, and they echo it; a
   * preflight is refused exactly when an origin is sent that is not allowed.
   */
  lemma PreflightDecision(patterns: seq<OriginPattern>, origin: Option<string>)
    ensures var valid := OriginAccepted(patterns, origin);
      && (CorsHeaders(valid, origin) != [] <==> OriginAccepted(patterns, origin))
      && (CorsHeaders(valid, origin) != [] ==> CorsHeaders(valid, origin)[0] == ("Access-Control-Allow-Origin", origin.value))
      && (OptionsStatus(valid, origin) == 401 <==> Present(origin) && !OriginAccepted(patterns, origin))
      && (OptionsStatus(valid, origin) == 204 || OptionsStatus(valid, origin) == 401)
  {
  }

  /** The health check's answer. */
  datatype Health = Health(status: int, message: string)

  /**
   * The health check: memory first, then the file system (probed only when
   * memory is available).
   */
  function HealthCheck(memAvailable: bool, fsHealthy: bool): Health {
    if !memAvailable then Health(503, "Exceeded memory limit.")
    else if !fsHealthy then Health(507, "File system unhealthy.")
    else Health(200, "OK")
  }

  /**
   * The report is "OK" exactly when both probes pass; a memory failure wins
   * whatever the file system would say; a file-system failure alone gives
   * 507.
   */
  lemma HealthCheckOrder(memAvailable: bool, fsHealthy: bool, otherFs: bool)
    ensures HealthCheck(memAvailable, fsHealthy).status == 200 <==> memAvailable && fsHealthy
    ensures !memAvailable ==> HealthCheck(memAvailable, fsHealthy) == HealthCheck(memAvailable, otherFs)
    ensures !memAvailable ==> HealthCheck(memAvailable, fsHealthy) == Health(503, "Exceeded memory limit.")
    ensures memAvailable && !fsHealthy ==> HealthCheck(memAvailable, fsHealthy) == Health(507, "File system unhealthy.")
  {
  }
}
