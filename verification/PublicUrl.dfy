/** The public URL of an HTTP tunnel, and the way back from a request's host to the subdomain. */
module PublicUrl {
  import opened Common
  import opened GoStrings

  /** What parsing the configured PublicURL gives; `Unusable` when it does not parse or has no host. */
  datatype BaseURL = NotSet | Unusable | Base(scheme: string, hostname: string, port: string)

  /** The part of the server configuration the model reads. A port range of 0 means none is configured. */
  datatype Config = Config(domain: string, port: int, dev: bool, publicURL: BaseURL,
                           allowedPorts: seq<int>, tcpPortMin: nat, tcpPortMax: int)

  function Authority(host: string, port: string): string {
    if port == "" then host else host + ":" + port
  }

  function BuildPublicHTTPURL(cfg: Config, subdomain: string): string {
    if cfg.publicURL.Base? then
      var u := cfg.publicURL;
      var scheme := if u.scheme == "" then "https" else u.scheme;
      var hidden := u.port == "" || (scheme == "https" && u.port == "443") || (scheme == "http" && u.port == "80");
      scheme + "://" + Authority(subdomain + "." + u.hostname, if hidden then "" else u.port)
    else if cfg.domain == "" then "(subdomain: " + subdomain + ")"
    else
      var scheme := if cfg.dev then "http" else "https";
      var hidden := (scheme == "https" && cfg.port == 443) || (scheme == "http" && cfg.port == 80);
      scheme + "://" + Authority(subdomain + "." + cfg.domain, if hidden then "" else Itoa(cfg.port))
  }

  function BuildTcpURL(cfg: Config, port: int): string {
    if cfg.domain != "" then cfg.domain + ":" + Itoa(port) else "(port: " + Itoa(port) + ")"
  }

  /** The leftmost label of a request's host, when the host is that label under `base`. */
  function ExtractSubdomain(host: string, base: string): string {
    var k := LastIndexOf(host, ':');
    var h := if k >= 0 then host[..k] else host;
    if base == "" then
      var d := IndexOf(h, '.');
      if d > 0 then h[..d] else ""
    else
      var suffix := "." + base;
      if !HasSuffix(h, suffix) then ""
      else
        var sub := h[..|h| - |suffix|];
        if '.' in sub then "" else sub
  }

  /** What follows `://` in a URL without a path: the host that a client puts in its request, as it is written. */
  function HostOf(url: string): string {
    var k := Index(url, "://");
    if k < 0 then "" else url[k + 3..]
  }

  predicate HasPublicHost(cfg: Config) {
    cfg.publicURL.Base? || cfg.domain != ""
  }

  function PublicHostname(cfg: Config): string
    requires HasPublicHost(cfg)
  {
    if cfg.publicURL.Base? then cfg.publicURL.hostname else cfg.domain
  }

  predicate PlainConfig(cfg: Config) {
    && ':' !in cfg.domain
    && (cfg.publicURL.Base? ==>
          ':' !in cfg.publicURL.scheme && ':' !in cfg.publicURL.hostname && ':' !in cfg.publicURL.port)
  }

  /** A single label: what a subdomain must be for the host to be unambiguous. */
  predicate IsLabel(s: string) {
    s != "" && '.' !in s && ':' !in s
  }

  /** Cutting off the port, present or not, leaves the host name. */
  lemma CutPort(host: string, port: string)
    requires ':' !in host && ':' !in port
    ensures LastIndexOf(Authority(host, port), ':') == if port == "" then -1 else |host|
  {
    var a := Authority(host, port);
    if port != "" {
      assert a[|host|] == ':';
      assert forall j :: |host| < j < |a| ==> a[j] == port[j - |host| - 1] && a[j] in port;
    }
  }

  lemma SchemeEnds(scheme: string, rest: string)
    requires ':' !in scheme
    ensures HostOf(scheme + "://" + rest) == rest
  {
    var url := scheme + "://" + rest;
    assert OccursAt(url, "://", |scheme|);
    forall j: nat | j < |scheme|
      ensures !OccursAt(url, "://", j)
    {
      assert url[j] == scheme[j] && url[j] in scheme;
      assert url[j..j + 3][0] == scheme[j];
    }
    assert Index(url, "://") == |scheme|;
  }

  lemma FirstDot(sub: string, hostname: string)
    requires IsLabel(sub)
    ensures IndexOf(sub + "." + hostname, '.') == |sub|
    ensures (sub + "." + hostname)[..|sub|] == sub
  {
    var h := sub + "." + hostname;
    hide IndexOf;
    assert h[|sub|] == '.';
    assert forall j :: 0 <= j < |sub| ==> h[j] == sub[j] && h[j] in sub;
  }

  lemma BaseSuffix(sub: string, hostname: string, base: string)
    ensures var h := sub + "." + hostname;
            HasSuffix(h, "." + base) && h[..|h| - |base| - 1] == sub <==> hostname == base
  {
    var h, suffix := sub + "." + hostname, "." + base;
    if hostname == base {
      assert h == sub + suffix;
      assert h[|sub|..] == suffix;
    } else {
      assert h[|sub| + 1..] == hostname && (sub + suffix)[|sub| + 1..] == base;
      assert HasSuffix(h, suffix) ==> h == h[..|h| - |suffix|] + suffix;
    }
  }

  /** For every host `sub.hostname`, with any port or none, extraction gives the subdomain back
      exactly when no base domain is configured or it is that hostname. */
  lemma ExtractHost(sub: string, hostname: string, port: string, base: string)
    requires IsLabel(sub) && ':' !in hostname && ':' !in port
    ensures ExtractSubdomain(Authority(sub + "." + hostname, port), base) == sub <==> base == "" || hostname == base
  {
    var h := sub + "." + hostname;
    CutPort(h, port);
    assert Authority(h, port)[..|h|] == h;
    assert port == "" ==> Authority(h, port) == h;
    FirstDot(sub, hostname);
    BaseSuffix(sub, hostname, base);
    hide Authority, IndexOf, LastIndexOf, HasSuffix;
  }

  /** Every such URL is a scheme, the subdomain under the public host name, and a port or none. */
  lemma UrlShape(cfg: Config, sub: string) returns (scheme: string, port: string)
    requires HasPublicHost(cfg) && PlainConfig(cfg)
    ensures ':' !in scheme && ':' !in port
    ensures BuildPublicHTTPURL(cfg, sub) == scheme + "://" + Authority(sub + "." + PublicHostname(cfg), port)
    ensures ReachedBy(cfg, scheme, if port == "" then DefaultPort(scheme) else port)
  {
    hide Itoa, Authority;
    if cfg.publicURL.Base? {
      var u := cfg.publicURL;
      scheme := if u.scheme == "" then "https" else u.scheme;
      var hidden := u.port == "" || (scheme == "https" && u.port == "443") || (scheme == "http" && u.port == "80");
      port := if hidden then "" else u.port;
    } else {
      DefaultNumerals();
      scheme := if cfg.dev then "http" else "https";
      var hidden := (scheme == "https" && cfg.port == 443) || (scheme == "http" && cfg.port == 80);
      port := if hidden then "" else Itoa(cfg.port);
      NumeralNotEmpty(cfg.port);
    }
  }

  lemma DefaultNumerals()
    ensures Itoa(443) == "443" && Itoa(80) == "80"
  {
    assert Digits(4) == "4" && Digits(44) == "44" && Digits(8) == "8";
    assert Digits(443) == "443" && Digits(80) == "80";
  }

  lemma NumeralNotEmpty(n: int)
    ensures Itoa(n) != ""
  {
    hide Digits;
  }

  /**
    The host in the URL a registration returns extracts back to the registered subdomain exactly when
    there is no base domain or the public host name is the base domain.
  */
  lemma UrlExtractsBack(cfg: Config, sub: string)
    requires HasPublicHost(cfg) && PlainConfig(cfg) && IsLabel(sub)
    ensures ExtractSubdomain(HostOf(BuildPublicHTTPURL(cfg, sub)), cfg.domain) == sub
            <==> cfg.domain == "" || PublicHostname(cfg) == cfg.domain
  {
    hide ExtractSubdomain, HostOf, BuildPublicHTTPURL, Authority;
    var scheme, port := UrlShape(cfg, sub);
    SchemeEnds(scheme, Authority(sub + "." + PublicHostname(cfg), port));
    ExtractHost(sub, PublicHostname(cfg), port, cfg.domain);
  }

  // ----- which hosts have a subdomain, said of their text

  /** h is the host without its port. */
  ghost predicate Bare(host: string, h: string) {
    (':' !in host && h == host) || exists port :: ':' !in port && host == h + (":" + port)
  }

  /** k is the one label that h has below the base domain; without a base domain, the label before its first dot. */
  predicate Under(h: string, base: string, k: string) {
    k != "" && '.' !in k && if base == "" then k + "." <= h else h == k + ("." + base)
  }

  lemma BareIs(host: string, h: string)
    requires Bare(host, h)
    ensures var k := LastIndexOf(host, ':'); h == if k >= 0 then host[..k] else host
  {
    hide LastIndexOf;
    var k := LastIndexOf(host, ':');
    if ':' !in host {
      assert k < 0;
    } else {
      var port :| ':' !in port && host == h + (":" + port);
      assert host[|h|] == ':' && host[..|h|] == h;
      assert forall j :: |h| < j < |host| ==> host[j] == port[j - |h| - 1] && port[j - |h| - 1] in port;
    }
  }

  /** Every host has one such part. */
  lemma BareExists(host: string) returns (h: string)
    ensures Bare(host, h) && forall g :: Bare(host, g) ==> g == h
  {
    hide LastIndexOf;
    var k := LastIndexOf(host, ':');
    h := if k >= 0 then host[..k] else host;
    if k >= 0 {
      var port := host[k + 1..];
      assert host == h + (":" + port);
      assert ':' !in port;
    }
    forall g | Bare(host, g)
      ensures g == h
    {
      BareIs(host, g);
    }
  }

  lemma UnderBase(h: string, base: string, k: string)
    requires base != ""
    ensures Under(h, base, k) <==>
            k != "" && '.' !in k && HasSuffix(h, "." + base) && h[..|h| - |base| - 1] == k
  {
    var suffix := "." + base;
    if HasSuffix(h, suffix) {
      assert h == h[..|h| - |suffix|] + suffix;
    }
    if h == k + suffix {
      assert h[|k|..] == suffix;
    }
  }

  lemma UnderNone(h: string, k: string)
    ensures Under(h, "", k) <==> k != "" && IndexOf(h, '.') == |k| && h[..|k|] == k
  {
    hide IndexOf;
    if Under(h, "", k) {
      assert h[|k|] == (k + ".")[|k|] == '.';
      assert forall j :: 0 <= j < |k| ==> h[j] == (k + ".")[j] && k[j] in k;
    }
    if k != "" && IndexOf(h, '.') == |k| && h[..|k|] == k {
      assert k + "." == h[..|k| + 1];
      assert forall j :: 0 <= j < |k| ==> k[j] == h[j];
    }
  }

  /** The subdomain of a host is the label it has below the base domain, and empty when it has none. */
  lemma ExtractExactly(host: string, h: string, base: string)
    requires Bare(host, h)
    ensures forall k :: k != "" ==> (ExtractSubdomain(host, base) == k <==> Under(h, base, k))
    ensures ExtractSubdomain(host, base) == "" <==> forall k :: !Under(h, base, k)
  {
    hide LastIndexOf, IndexOf, HasSuffix, Under, Bare;
    BareIs(host, h);
    forall k
      ensures Under(h, base, k) <==> k != "" && ExtractSubdomain(host, base) == k
    {
      if base == "" {
        UnderNone(h, k);
        FoundFirst(h, '.');
      } else {
        UnderBase(h, base, k);
      }
    }
    var sub := ExtractSubdomain(host, base);
    assert sub != "" ==> Under(h, base, sub);
  }

  lemma FoundFirst(h: string, c: char)
    ensures IndexOf(h, c) > 0 ==> |h[..IndexOf(h, c)]| == IndexOf(h, c)
  {
  }

  // ----- what the URLs of registrations say

  function SchemeOf(url: string): string {
    var k := Index(url, "://");
    if k < 0 then "" else url[..k]
  }

  function DefaultPort(scheme: string): string {
    if scheme == "https" then "443" else if scheme == "http" then "80" else ""
  }

  /** The port that a client connects to: the one shown, or the default of the scheme. */
  function PortOf(url: string): string {
    var host := HostOf(url);
    var k := LastIndexOf(host, ':');
    if k < 0 then DefaultPort(SchemeOf(url)) else host[k + 1..]
  }

  /** The scheme and the port under which the configuration says that the server is reached. */
  predicate ReachedBy(cfg: Config, scheme: string, port: string) {
    match cfg.publicURL
    case Base(s, _, p) =>
      scheme == (if s == "" then "https" else s) && port == if p == "" then DefaultPort(scheme) else p
    case _ => scheme == (if cfg.dev then "http" else "https") && port == Itoa(cfg.port)
  }

  lemma SchemeBack(scheme: string, rest: string)
    requires ':' !in scheme
    ensures SchemeOf(scheme + "://" + rest) == scheme
  {
    SchemeEnds(scheme, rest);
    var url := scheme + "://" + rest;
    assert OccursAt(url, "://", |scheme|);
    forall j: nat | j < |scheme|
      ensures !OccursAt(url, "://", j)
    {
      assert url[j] == scheme[j] && url[j] in scheme;
      assert url[j..j + 3][0] == scheme[j];
    }
    assert Index(url, "://") == |scheme|;
  }

  lemma AuthorityReads(scheme: string, host: string, port: string)
    requires ':' !in scheme && ':' !in host && ':' !in port
    ensures var url := scheme + "://" + Authority(host, port);
            && SchemeOf(url) == scheme && Bare(HostOf(url), host)
            && PortOf(url) == if port == "" then DefaultPort(scheme) else port
  {
    hide LastIndexOf, SchemeOf, HostOf, DefaultPort;
    SchemeEnds(scheme, Authority(host, port));
    SchemeBack(scheme, Authority(host, port));
    CutPort(host, port);
    if port != "" {
      assert Authority(host, port) == host + (":" + port);
      assert Authority(host, port)[|host| + 1..] == port;
    }
  }

  /** The URL of a registration leads to the server: its scheme, its port, and the subdomain below its public name. */
  lemma UrlLeadsToServer(cfg: Config, sub: string)
    requires HasPublicHost(cfg) && PlainConfig(cfg) && ':' !in sub
    ensures var url := BuildPublicHTTPURL(cfg, sub);
            ReachedBy(cfg, SchemeOf(url), PortOf(url)) && Bare(HostOf(url), sub + "." + PublicHostname(cfg))
  {
    hide Authority, SchemeOf, PortOf, HostOf, Bare, Itoa;
    var host := sub + "." + PublicHostname(cfg);
    var scheme, port := UrlShape(cfg, sub);
    AuthorityReads(scheme, host, port);
  }

  /** Without a public name the URL says the subdomain in brackets. */
  lemma UrlWithoutHost(cfg: Config, sub: string)
    requires !HasPublicHost(cfg)
    ensures BuildPublicHTTPURL(cfg, sub) == "(subdomain: " + sub + ")"
  {
  }

  lemma LastColon(front: string, rest: string)
    requires ':' !in rest
    ensures var url := front + (":" + rest);
            LastIndexOf(url, ':') == |front| && url[..|front|] == front && url[|front| + 1..] == rest
  {
    hide LastIndexOf;
    var url := front + (":" + rest);
    assert url[|front|] == ':';
    assert forall j :: |front| < j < |url| ==> url[j] == rest[j - |front| - 1] && rest[j - |front| - 1] in rest;
  }

  /** The URL of a TCP registration ends in its port, behind the domain or in brackets. */
  lemma TcpUrlReads(cfg: Config, port: int)
    requires -MAX_INT - 1 <= port <= MAX_INT
    ensures var url := BuildTcpURL(cfg, port);
            var k := LastIndexOf(url, ':');
            && k >= 0
            && (cfg.domain != "" ==> url[..k] == cfg.domain && Atoi(url[k + 1..]) == Some(port))
            && (cfg.domain == "" ==> url[..k] == "(port" && exists d :: url[k + 1..] == " " + d + ")" && Atoi(d) == Some(port))
  {
    hide LastIndexOf, Itoa, Atoi;
    AtoiItoa(port);
    var d := Itoa(port);
    if cfg.domain != "" {
      LastColon(cfg.domain, d);
      assert BuildTcpURL(cfg, port) == cfg.domain + (":" + d);
    } else {
      LastColon("(port", " " + d + ")");
      BracketedPort(d);
    }
  }

  lemma BracketedPort(d: string)
    ensures "(port: " + d + ")" == "(port" + (":" + (" " + d + ")"))
  {
  }
}
