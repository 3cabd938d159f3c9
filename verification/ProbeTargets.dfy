/** How a health check's settings become a probe configuration, and what the probe runner accepts. */
module ProbeTargets {
  import opened Wrappers
  import opened Domain
  import opened Text
  import opened Urls

  const MAX_HEALTH_CHECK_PATH_LENGTH := 2048
  const MAX_PORT_VALUE := 0x7FFF_FFFF_FFFF_FFFF  // Atoi fails above it

  const PROTECTED_NAMESPACES := {
    "argocd", "cert-manager", "database", "databases", "db", "envoy-gateway-system", "kube-node-lease",
    "kube-public", "kube-system", "keycloak", "mariadb", "metallb-system", "mongo", "mongodb", "mysql",
    "postgres", "postgresql", "redis", "vault"
  }
  const PROTECTED_SERVICES := {"default/kubernetes"}
  const PROTECTED_PORTS := {
    2181, 2379, 2380, 3306, 5432, 6379, 6443, 9200, 9300, 10250, 10255, 11211, 27017, 27018, 27019
  }

  datatype Protection = ProtectedNamespace | SystemNamespace | ProtectedService | ProtectedPort

  datatype DropReason =
    | StaticWithoutURL
    | URLNotAllowed
    | BadPath(path: string)
    | BadServiceName(name: string)
    | BadPort(port: int)
    | BadNamespace(namespace: string)
    | CrossNamespace(service: string, namespace: string, from: string)
    | Protected(target: Target, why: Protection)

  datatype Target = Target(service: string, namespace: string, port: int)

  datatype Built = Disabled | Dropped(reason: DropReason) | Configured(config: HealthCheckConfig)

  function ClampSeconds(value: int, default: int, min: int, max: int): int
  {
    if value <= 0 then default
    else if value < min then min
    else if value > max then max
    else value
  }

  predicate IsLowerAlnum(c: char)
  {
    'a' <= c <= 'z' || IsDigit(c)
  }

  /** A lower-case label in the sense of RFC 1123: at most 63 letters, digits and inner hyphens. */
  predicate IsDNS1123Label(s: string)
  {
    && 1 <= |s| <= 63
    && IsLowerAlnum(s[0]) && IsLowerAlnum(s[|s| - 1])
    && forall i :: 0 <= i < |s| ==> IsLowerAlnum(s[i]) || s[i] == '-'
  }

  /** A label in the sense of section 2.3.1 of RFC 1035: it also starts with a letter. */
  predicate IsDNS1035Label(s: string)
  {
    IsDNS1123Label(s) && 'a' <= s[0] <= 'z'
  }

  function TargetProtection(target: Target): Option<Protection>
  {
    var Target(service, namespace, port) := target;
    if namespace in PROTECTED_NAMESPACES then Some(ProtectedNamespace)
    else if |namespace| >= 7 && namespace[|namespace| - 7..] == "-system" then Some(SystemNamespace)
    else if namespace + "/" + service in PROTECTED_SERVICES then Some(ProtectedService)
    else if port in PROTECTED_PORTS then Some(ProtectedPort)
    else None
  }

  /** What must not be probed for a NebariApp. */
  predicate IsProtected(service: string, namespace: string, port: int)
  {
    || namespace in PROTECTED_NAMESPACES
    || (|namespace| >= |"-system"| && namespace[|namespace| - |"-system"|..] == "-system")
    || (namespace == "default" && service == "kubernetes")
    || port in PROTECTED_PORTS
  }

  lemma ProtectionExactly(target: Target)
    ensures TargetProtection(target).Some? <==> IsProtected(target.service, target.namespace, target.port)
  {
    var Target(service, namespace, port) := target;
    var name, api := namespace + "/" + service, "default/kubernetes";
    assert name[..|namespace|] == namespace && name[|namespace|] == '/' && name[|namespace| + 1..] == service;
    assert api[..7] == "default" && api[8..] == "kubernetes";
    assert forall i :: 0 <= i < |api| && api[i] == '/' ==> i == 7;
    assert name == api ==> |namespace| == 7;
    assert namespace == "default" && service == "kubernetes" ==> name == api;
  }

  function NormalizePath(path: string): Option<string>
  {
    if path == "" then Some("/")
    else if |path| > MAX_HEALTH_CHECK_PATH_LENGTH then None
    else if !("/" <= path) || "//" <= path || HasControl(path) then None
    else
      match ParseRequestURI(path)
      case None => None
      case Some(url) => if url.scheme != "" || url.host != "" || !("/" <= url.path) then None else Some(path)
  }

  function ServiceNameOf(a: App): string
  {
    if a.serviceName == "" then a.name else a.serviceName
  }

  function ServiceNamespaceOf(a: App): string
  {
    if a.serviceNamespace == "" then a.namespace else a.serviceNamespace
  }

  function PortOf(a: App, hc: HealthCheck): int
  {
    if hc.port > 0 then hc.port else if a.servicePort == 0 then 80 else a.servicePort
  }

  function TargetOf(a: App, hc: HealthCheck): Target
  {
    Target(ServiceNameOf(a), ServiceNamespaceOf(a), PortOf(a, hc))
  }

  function ProbeURL(target: Target, path: string): string
    requires target.port >= 0
  {
    "http://" + target.service + "." + target.namespace + ":" + Decimal(target.port) + path
  }

  function BuildHealthCheckConfig(a: App): Built
  {
    if a.landingPage.None? || a.landingPage.value.healthCheck.None?
        || !a.landingPage.value.healthCheck.value.enabled then Disabled
    else
      var hc := a.landingPage.value.healthCheck.value;
      var interval := ClampSeconds(hc.intervalSeconds, 30, 10, 300);
      var clamped := ClampSeconds(hc.timeoutSeconds, 5, 1, 30);
      var timeout := if clamped > interval then interval else clamped;
      if a.isStatic then
        if hc.url == "" then Dropped(StaticWithoutURL)
        else Configured(HealthCheckConfig(hc.url, interval, timeout, true))
      else if hc.url != "" then Dropped(URLNotAllowed)
      else BuildServiceProbe(a, hc, interval, timeout)
  }

  /** The checks on a NebariApp's target, in the order they are made. */
  function BuildServiceProbe(a: App, hc: HealthCheck, interval: int, timeout: int): Built
  {
    var path := NormalizePath(hc.path);
    var target := TargetOf(a, hc);
    if path.None? then Dropped(BadPath(hc.path))
    else if !IsDNS1035Label(target.service) then Dropped(BadServiceName(target.service))
    else if target.port < 1 || target.port > 65535 then Dropped(BadPort(target.port))
    else if !IsDNS1123Label(target.namespace) then Dropped(BadNamespace(target.namespace))
    else if target.namespace != a.namespace && !a.crossNamespaceAllowed then
      Dropped(CrossNamespace(target.service, target.namespace, a.namespace))
    else if TargetProtection(target).Some? then Dropped(Protected(target, TargetProtection(target).value))
    else Configured(HealthCheckConfig(ProbeURL(target, path.value), interval, timeout, false))
  }

  datatype Rejection = InvalidURL | NotInClusterHTTP | NoNumericPort | NotServiceDNS | InvalidLabels | ProtectedTarget

  function Atoi(s: string): Option<int>
  {
    var digits := if s != "" && s[0] in "+-" then s[1..] else s;
    if digits == "" || !AllDigits(digits) then None
    else
      var value: int := Value(digits) * (if s[0] == '-' then -1 else 1);
      if -MAX_PORT_VALUE - 1 <= value <= MAX_PORT_VALUE then Some(value) else None
  }

  /** `validateProbeRunnerTarget`, with the target it read from the URL as the accepting result. */
  function ValidateProbeRunnerTarget(raw: string): Result<Target, Rejection>
  {
    match Parse(raw)
    case None => Err(InvalidURL)
    case Some(url) =>
      if url.scheme != "http" || url.host == "" then Err(NotInClusterHTTP)
      else
        var (hostname, portText) := SplitHostPort(url.host);
        match Atoi(portText)
        case None => Err(NoNumericPort)
        case Some(port) => ValidateHost(Split(hostname, '.'), port)
  }

  function ValidateHost(parts: seq<string>, port: int): Result<Target, Rejection>
  {
    if |parts| != 2 && (|parts| < 4 || parts[2] != "svc") then Err(NotServiceDNS)
    else
      var target := Target(parts[0], parts[1], port);
      if !IsDNS1035Label(parts[0]) || !IsDNS1123Label(parts[1]) then Err(InvalidLabels)
      else if TargetProtection(target).Some? then Err(ProtectedTarget)
      else Ok(target)
  }

  // ---- Print / parse agreement -------------------------------------------

  /**
   A configured probe runs 10 to 300 seconds apart, as asked if that is within and 30 seconds if not
   asked, and times out after the least of what is asked, 30 seconds and that interval.
   */
  lemma ProbeTimesBounded(a: App)
    requires BuildHealthCheckConfig(a).Configured?
    ensures var c, hc := BuildHealthCheckConfig(a).config, a.landingPage.value.healthCheck.value;
            var every, limit := hc.intervalSeconds, hc.timeoutSeconds;
            && 10 <= c.intervalSeconds <= 300 && 1 <= c.timeoutSeconds <= 30 && c.timeoutSeconds <= c.intervalSeconds
            && (every <= 0 ==> c.intervalSeconds == 30)
            && (0 < every < 10 ==> c.intervalSeconds == 10)
            && (10 <= every <= 300 ==> c.intervalSeconds == every)
            && (300 < every ==> c.intervalSeconds == 300)
            && (limit <= 0 ==> c.timeoutSeconds == 5)
            && (1 <= limit ==> c.timeoutSeconds <= limit && c.timeoutSeconds in {limit, 30, c.intervalSeconds})
  {
    hide NormalizePath, IsDNS1035Label, IsDNS1123Label, TargetProtection, ProbeURL;
  }

  /** A label: 1 to 63 characters, lower-case letters, digits and hyphens, with a hyphen at neither end. */
  lemma LabelsExactly(s: string)
    ensures IsDNS1123Label(s) <==>
              && s != "" && |s| <= 63 && s[0] != '-' && s[|s| - 1] != '-'
              && forall i :: 0 <= i < |s| ==> 'a' <= s[i] <= 'z' || '0' <= s[i] <= '9' || s[i] == '-'
    ensures IsDNS1035Label(s) <==> IsDNS1123Label(s) && !('0' <= s[0] <= '9')
  {
  }

  lemma LabelChars(s: string)
    requires IsDNS1123Label(s)
    ensures forall i :: 0 <= i < |s| ==> HostChar(s[i]) && s[i] != '.' && s[i] != ':' && s[i] != '/' && s[i] != '%'
                                         && s[i] != '@' && s[i] != '?' && s[i] != '#' && s[i] != '['
                                         && s[i] > ' ' && s[i] < '\U{7F}'
  {
  }

  /** A host of plain host characters is its own unescaped form. */
  lemma {:induction false} PlainHost(s: string)
    requires forall i :: 0 <= i < |s| ==> HostChar(s[i]) && s[i] != '%'
    ensures UnescapeHost(s) == Some(s)
  {
    if s != "" {
      assert HostChar(s[0]);
      PlainHost(s[1..]);
      assert s == [s[0]] + s[1..];
    }
  }

  /** The authority of a probe URL. */
  function Authority(target: Target): string
    requires target.port >= 0
  {
    target.service + "." + target.namespace + ":" + Decimal(target.port)
  }

  predicate Plain(s: string)
  {
    forall i :: 0 <= i < |s| ==>
      HostChar(s[i]) && s[i] != '/' && s[i] != '%' && s[i] != '@' && s[i] != '?' && s[i] != '#'
                                 && s[i] > ' ' && s[i] != '\U{7F}'
  }

  predicate Printable(target: Target)
  {
    IsDNS1035Label(target.service) && IsDNS1123Label(target.namespace) && target.port >= 0
  }

  lemma PlainConcat(a: string, b: string)
    requires Plain(a) && Plain(b)
    ensures Plain(a + b)
  {
    hide HostChar;
  }

  lemma AuthorityPlain(target: Target)
    requires Printable(target)
    ensures Plain(Authority(target))
  {
    LabelChars(target.service);
    LabelChars(target.namespace);
    DecimalRoundTrip(target.port);
    assert Plain(target.service) && Plain(target.namespace) && Plain(".") && Plain(":") && Plain(Decimal(target.port));
    hide Plain, Decimal;
    PlainConcat(target.service, ".");
    PlainConcat(target.service + ".", target.namespace);
    PlainConcat(target.service + "." + target.namespace, ":");
    PlainConcat(target.service + "." + target.namespace + ":", Decimal(target.port));
  }

  /** The last colon of the authority separates the host name from the port. */
  lemma AuthorityColon(target: Target)
    requires Printable(target)
    ensures var host := target.service + "." + target.namespace;
            var a := Authority(target);
            && LastIndexOf(a, ':') == |host| && a[..|host|] == host && a[|host|..] == ":" + Decimal(target.port)
            && a[|host| + 1..] == Decimal(target.port)
            && ValidOptionalPort(a[|host|..])
  {
    var host := target.service + "." + target.namespace;
    var digits := Decimal(target.port);
    DecimalRoundTrip(target.port);
    hide Decimal;
    var a := Authority(target);
    assert a == host + ":" + digits;
    assert a[|host|] == ':';
    assert forall j :: |host| < j < |a| ==> a[j] == digits[j - |host| - 1];
    LastIndexOfIs(a, ':', |host|);
    assert (":" + digits)[1..] == digits;
  }

  lemma AuthorityParses(target: Target)
    requires Printable(target)
    ensures ParseAuthority(Authority(target)) == Some(Authority(target))
    ensures SplitHostPort(Authority(target)) == (target.service + "." + target.namespace, Decimal(target.port))
    ensures Authority(target) != ""
  {
    var a := Authority(target);
    AuthorityPlain(target);
    AuthorityColon(target);
    assert a[0] == target.service[0];
    hide Authority, Decimal, HostChar;
    LastIndexOfIs(a, '@', -1);
    PlainHost(a);
  }

  lemma HostSplits(service: string, namespace: string)
    requires IsDNS1035Label(service) && IsDNS1123Label(namespace)
    ensures Split(service + "." + namespace, '.') == [service, namespace]
  {
    LabelChars(service);
    LabelChars(namespace);
    hide IsDNS1123Label, IsDNS1035Label, HostChar;
    var s := service + "." + namespace;
    IndexOfIs(s, '.', |service|);
    assert s[|service| + 1..] == namespace;
    IndexOfIs(namespace, '.', |namespace|);
    assert s[..|service|] == service;
    assert Split(namespace, '.') == [namespace];
  }

  lemma PortReadsBack(port: int)
    requires 0 <= port <= 65535
    ensures Atoi(Decimal(port)) == Some(port)
  {
    DecimalRoundTrip(port);
    hide Decimal;
    assert IsDigit(Decimal(port)[0]);
  }

  lemma SchemeOfHTTP(rest: string)
    ensures SchemeFrom("http:" + rest, 0) == Scheme("http", rest)
  {
    var raw := "http:" + rest;
    assert raw[..4] == "http" && raw[4 + 1..] == rest;
    assert SchemeFrom(raw, 4) == Scheme("http", rest);
    assert SchemeFrom(raw, 3) == SchemeFrom(raw, 4);
    assert SchemeFrom(raw, 2) == SchemeFrom(raw, 3);
    assert SchemeFrom(raw, 1) == SchemeFrom(raw, 2);
  }

  /** Cutting an escape-clean text at a character that is no hexadecimal digit leaves it escape-clean. */
  lemma EscapesCut(s: string, n: nat)
    requires EscapesOk(s) && n <= |s|
    requires n < |s| ==> !IsHex(s[n])
    ensures EscapesOk(s[..n])
  {
  }

  lemma QueryFragmentCut(path: string)
    requires EscapesOk(BeforeQuery(path))
    ensures EscapesOk(BeforeQuery(BeforeFragment(path)))
  {
    var q := IndexOf(path, '?');
    var h := IndexOf(path, '#');
    if h < q {
      IndexOfIs(path[..h], '?', h);
      assert BeforeQuery(BeforeFragment(path)) == BeforeQuery(path)[..h];
      EscapesCut(BeforeQuery(path), h);
    } else {
      IndexOfIs(path[..h], '?', if q < h then q else h);
      assert BeforeQuery(BeforeFragment(path)) == BeforeQuery(path);
    }
  }

  lemma BeforeQueryOfPrefix(prefix: string, path: string)
    requires '?' !in prefix
    ensures BeforeQuery(prefix + path) == prefix + BeforeQuery(path)
  {
    var q := IndexOf(path, '?');
    var s := prefix + path;
    forall j | 0 <= j < |prefix| + q ensures s[j] != '?' {
      if j < |prefix| {
        assert s[j] == prefix[j];
      } else {
        assert s[j] == path[j - |prefix|];
      }
    }
    IndexOfIs(s, '?', |prefix| + q);
  }

  lemma FragmentOfPrefix(prefix: string, path: string)
    requires '#' !in prefix
    ensures BeforeFragment(prefix + path) == prefix + BeforeFragment(path)
    ensures Fragment(prefix + path) == Fragment(path)
  {
    var h := IndexOf(path, '#');
    var s := prefix + path;
    forall j | 0 <= j < |prefix| + h ensures s[j] != '#' {
      if j < |prefix| {
        assert s[j] == prefix[j];
      } else {
        assert s[j] == path[j - |prefix|];
      }
    }
    IndexOfIs(s, '#', |prefix| + h);
    assert s[..|prefix| + h] == prefix + path[..h];
    if h < |path| {
      assert s[|prefix| + h + 1..] == path[h + 1..];
    }
  }

  lemma TailParses(authority: string, path: string)
    requires Plain(authority) && ParseAuthority(authority) == Some(authority)
    requires path != "" && path[0] == '/' && EscapesOk(path)
    ensures ParseAuthorityAndPath("http", authority + path) == Some(URL("http", authority, path))
  {
    var tail := authority + path;
    hide ParseAuthority, EscapesOk, HostChar;
    IndexOfIs(tail, '/', |authority|);
    assert tail[..|authority|] == authority && tail[|authority|..] == path;
  }

  lemma RestParses(tail: string)
    ensures ParseRest("http", "//" + tail, false) == ParseAuthorityAndPath("http", tail)
  {
    hide ParseAuthorityAndPath, EscapesOk;
    var rest := "//" + tail;
    assert rest[2..] == tail;
    assert rest[..2] == "//";
    assert rest[0] == '/';
  }

  lemma NoControl(a: string, b: string, n: nat)
    requires !HasControl(a) && !HasControl(b) && n <= |b|
    ensures !HasControl(a + b[..n])
  {
  }

  lemma PlainNoControl(s: string)
    requires Plain(s)
    ensures !HasControl("http://" + s)
    ensures '?' !in s && '#' !in s
  {
    hide HostChar;
  }

  lemma PartsParse(authority: string, p: string)
    requires Plain(authority) && ParseAuthority(authority) == Some(authority)
    requires p != "" && p[0] == '/' && EscapesOk(BeforeQuery(p))
    requires !HasControl("http://" + authority + p)
    ensures ParseParts("http://" + authority + p, false) == Some(URL("http", authority, BeforeQuery(p)))
  {
    PlainNoControl(authority);
    hide Plain, EscapesOk, HasControl, ParseAuthority, ParseRest, SchemeFrom, Lower, ParseAuthorityAndPath,
         BeforeQuery;
    var tail := authority + p;
    Reassociate(authority, p);
    SchemeOfHTTP("//" + tail);
    BeforeQueryOfPrefix("//", tail);
    BeforeQueryOfPrefix(authority, p);
    LowerHTTP();
    QueryStartsWithSlash(p);
    TailParses(authority, BeforeQuery(p));
    RestParses(authority + BeforeQuery(p));
    assert ("http:" + ("//" + tail))[1] == 't';
  }

  lemma Reassociate(authority: string, p: string)
    ensures "http://" + authority + p == "http:" + ("//" + (authority + p))
  {
  }

  lemma QueryStartsWithSlash(p: string)
    requires p != "" && p[0] == '/'
    ensures BeforeQuery(p) != "" && BeforeQuery(p)[0] == '/'
  {
  }

  /**
   Parsing a printed probe URL gives back its authority; the only thing that can stop it is a
   malformed escape after a '#'.
   */
  lemma ProbeURLParses(target: Target, path: string)
    requires Printable(target)
    requires path != "" && path[0] == '/' && !HasControl(path) && EscapesOk(BeforeQuery(path))
    ensures Parse(ProbeURL(target, path)) ==
            if EscapesOk(Fragment(path)) then Some(URL("http", Authority(target), BeforeQuery(BeforeFragment(path))))
                else None
  {
    var a := Authority(target);
    var prefix := "http://" + a;
    assert ProbeURL(target, path) == prefix + path;
    assert BeforeFragment(path) == path[..IndexOf(path, '#')] && BeforeFragment(path)[0] == '/';
    AuthorityPlain(target);
    AuthorityParses(target);
    PlainNoControl(a);
    QueryFragmentCut(path);
    hide Authority, Printable, Plain, ProbeURL, EscapesOk, HasControl, ParseAuthority, ParseParts, BeforeFragment,
         BeforeQuery, Fragment;
    FragmentOfPrefix(prefix, path);
    NoControl(prefix, path, IndexOf(path, '#'));
    PartsParse(a, BeforeFragment(path));
  }

  lemma LowerHTTP()
    ensures Lower("http") == "http"
  {
  }

  /** What the builder asks of a path: it checks escapes up to the first '?' only, and through any '#'. */
  lemma NormalizeExactly(path: string)
    requires path != ""
    ensures NormalizePath(path).Some? <==>
              && |path| <= MAX_HEALTH_CHECK_PATH_LENGTH && path[0] == '/' && !("//" <= path)
              && !HasControl(path) && EscapesOk(BeforeQuery(path))
    ensures NormalizePath(path).Some? ==> NormalizePath(path) == Some(path)
  {
    assert path[0] == '/' <==> "/" <= path;
    hide EscapesOk, HasControl, ParseAuthorityAndPath;
    if path[0] == '/' {
      assert SchemeFrom(path, 0) == NoScheme;
      QueryStartsWithSlash(path);
      assert "/" <= BeforeQuery(path);
      hide BeforeQuery, SchemeFrom;
    }
  }

  lemma PathFacts(path: string)
    requires NormalizePath(path).Some?
    ensures var p := NormalizePath(path).value;
            p != "" && p[0] == '/' && !HasControl(p) && EscapesOk(BeforeQuery(p))
  {
    if path != "" {
      NormalizeExactly(path);
      hide NormalizePath, HasControl, EscapesOk;
    }
  }

  lemma BuiltServiceProbe(a: App, hc: HealthCheck, interval: int, timeout: int)
    requires BuildServiceProbe(a, hc, interval, timeout).Configured?
    ensures var t := TargetOf(a, hc);
            && Printable(t) && t.port <= 65535 && TargetProtection(t).None?
            && NormalizePath(hc.path).Some?
            && BuildServiceProbe(a, hc, interval, timeout).config.probeURL == ProbeURL(t, NormalizePath(hc.path).value)
  {
    hide NormalizePath, TargetProtection, IsDNS1123Label, ProbeURL, TargetOf;
  }

  lemma ValidatorReadsTarget(target: Target, path: string)
    requires Printable(target) && target.port <= 65535 && TargetProtection(target).None?
    requires path != "" && path[0] == '/' && !HasControl(path) && EscapesOk(BeforeQuery(path))
    ensures ValidateProbeRunnerTarget(ProbeURL(target, path)) ==
            if EscapesOk(Fragment(path)) then Ok(target) else Err(InvalidURL)
  {
    ProbeURLParses(target, path);
    AuthorityParses(target);
    PortReadsBack(target.port);
    HostSplits(target.service, target.namespace);
    hide Parse, ProbeURL, SplitHostPort, Atoi, Split, TargetProtection, IsDNS1035Label, IsDNS1123Label, EscapesOk,
         Authority, Decimal;
  }

  /**
   The runner accepts the probe URL of every NebariApp whose check is not dropped,
   and reads from it the Service, namespace and port it was built for, exactly
   when the text after a '#' in the path, if there is one, has no malformed escape.
   */
  lemma RunnerReadsBuiltTarget(a: App)
    requires !a.isStatic && BuildHealthCheckConfig(a).Configured?
    ensures var hc := a.landingPage.value.healthCheck.value;
            ValidateProbeRunnerTarget(BuildHealthCheckConfig(a).config.probeURL) ==
            if EscapesOk(Fragment(NormalizePath(hc.path).value)) then Ok(TargetOf(a, hc)) else Err(InvalidURL)
  {
    hide BuildServiceProbe, NormalizePath, ValidateProbeRunnerTarget, TargetOf, TargetProtection, ProbeURL, Printable,
         HasControl, EscapesOk;
    var hc := a.landingPage.value.healthCheck.value;
    var interval := ClampSeconds(hc.intervalSeconds, 30, 10, 300);
    var clamped := ClampSeconds(hc.timeoutSeconds, 5, 1, 30);
    BuiltServiceProbe(a, hc, interval, if clamped > interval then interval else clamped);
    PathFacts(hc.path);
    ValidatorReadsTarget(TargetOf(a, hc), NormalizePath(hc.path).value);
  }

  /** In particular a path without '#' is always accepted. */
  lemma RunnerAcceptsPlainPath(a: App)
    requires !a.isStatic && BuildHealthCheckConfig(a).Configured?
    requires '#' !in a.landingPage.value.healthCheck.value.path
    ensures ValidateProbeRunnerTarget(BuildHealthCheckConfig(a).config.probeURL) ==
            Ok(TargetOf(a, a.landingPage.value.healthCheck.value))
  {
    RunnerReadsBuiltTarget(a);
    hide BuildHealthCheckConfig, ValidateProbeRunnerTarget, TargetOf, ParseRequestURI, HasControl;
  }

  /** A target that the runner accepts is a Service of valid labels that is not protected. */
  lemma RunnerAcceptsOnlyAllowed(raw: string, target: Target)
    requires ValidateProbeRunnerTarget(raw) == Ok(target)
    ensures IsDNS1035Label(target.service) && IsDNS1123Label(target.namespace)
    ensures !IsProtected(target.service, target.namespace, target.port)
  {
    ProtectionExactly(target);
    hide Parse, SplitHostPort, Atoi, Split, TargetProtection, IsDNS1035Label, IsDNS1123Label, IsProtected;
  }

  /** The hosts the runner takes: service and namespace, and nothing after them or "svc" and at least one more label. */
  lemma RunnerHostExactly(parts: seq<string>, port: int, target: Target)
    ensures ValidateHost(parts, port) == Ok(target) <==>
              && (|parts| == 2 || (|parts| >= 4 && parts[2] == "svc"))
              && target == Target(parts[0], parts[1], port)
              && IsDNS1035Label(parts[0]) && IsDNS1123Label(parts[1])
              && !IsProtected(parts[0], parts[1], port)
  {
    if |parts| >= 2 {
      ProtectionExactly(Target(parts[0], parts[1], port));
    }
    hide TargetProtection, IsDNS1035Label, IsDNS1123Label, IsProtected;
  }

  predicate PathAllowed(path: string)
  {
    path == "" ||
    (&& |path| <= 2048 && path[0] == '/' && !("//" <= path)
     && EscapesOk(BeforeQuery(path))
     && forall i :: 0 <= i < |path| ==> ' ' <= path[i] && path[i] != '\U{7F}')
  }

  lemma PathAllowedIff(path: string)
    ensures NormalizePath(path).Some? <==> PathAllowed(path)
    ensures NormalizePath(path).Some? ==> NormalizePath(path).value == if path == "" then "/" else path
  {
    if path != "" {
      NormalizeExactly(path);
      hide NormalizePath, EscapesOk, BeforeQuery;
      assert !HasControl(path) <==> forall i :: 0 <= i < |path| ==> ' ' <= path[i] && path[i] != '\U{7F}';
    }
  }

  /**
   A NebariApp's check is kept exactly when it has no URL of its own and its path, labels, port and
   namespace are allowed and its target is not protected. What is kept probes that target, which is
   the NebariApp's own Service unless it names another, on the check's port if it has one.
   */
  lemma KeptExactly(a: App)
    requires !a.isStatic && a.landingPage.Some? && a.landingPage.value.healthCheck.Some?
    requires a.landingPage.value.healthCheck.value.enabled
    ensures var hc := a.landingPage.value.healthCheck.value;
            var service := if a.serviceName != "" then a.serviceName else a.name;
            var namespace := if a.serviceNamespace != "" then a.serviceNamespace else a.namespace;
            var port := if hc.port > 0 then hc.port else if a.servicePort != 0 then a.servicePort else 80;
            var built := BuildHealthCheckConfig(a);
            && (built.Configured? <==>
                  && hc.url == "" && PathAllowed(hc.path)
                  && IsDNS1035Label(service) && IsDNS1123Label(namespace) && 1 <= port <= 65535
                  && (namespace == a.namespace || a.crossNamespaceAllowed)
                  && !IsProtected(service, namespace, port))
            && (built.Configured? ==>
                  && !built.config.trusted
                  && built.config.probeURL == "http://" + service + "." + namespace + ":" + Decimal(port)
                                              + (if hc.path == "" then "/" else hc.path))
  {
    var hc := a.landingPage.value.healthCheck.value;
    ProtectionExactly(TargetOf(a, hc));
    PathAllowedIff(hc.path);
    hide NormalizePath, PathAllowed, TargetProtection, IsDNS1035Label, IsDNS1123Label, IsProtected, ClampSeconds,
         Decimal;
  }

  /** The reason given for a dropped check is one that applies, with the values it is about. */
  lemma DropReasonApplies(a: App)
    requires BuildHealthCheckConfig(a).Dropped?
    ensures var hc := a.landingPage.value.healthCheck.value;
            var service := if a.serviceName != "" then a.serviceName else a.name;
            var namespace := if a.serviceNamespace != "" then a.serviceNamespace else a.namespace;
            var port := if hc.port > 0 then hc.port else if a.servicePort != 0 then a.servicePort else 80;
            match BuildHealthCheckConfig(a).reason
            case StaticWithoutURL => a.isStatic && hc.url == ""
            case URLNotAllowed => !a.isStatic && hc.url != ""
            case BadPath(path) => path == hc.path && !PathAllowed(path)
            case BadServiceName(name) => name == service && !IsDNS1035Label(name)
            case BadPort(p) => p == port && !(1 <= p <= 65535)
            case BadNamespace(ns) => ns == namespace && !IsDNS1123Label(ns)
            case CrossNamespace(s, ns, from) =>
              s == service && ns == namespace && from == a.namespace && ns != from && !a.crossNamespaceAllowed
            case Protected(target, _) =>
              target == Target(service, namespace, port) && IsProtected(service, namespace, port)
  {
    var hc := a.landingPage.value.healthCheck.value;
    ProtectionExactly(TargetOf(a, hc));
    PathAllowedIff(hc.path);
    hide NormalizePath, PathAllowed, TargetProtection, IsDNS1035Label, IsDNS1123Label, IsProtected, ClampSeconds,
         ProbeURL;
  }

  /** A static service's check is kept exactly when it has a URL, which is probed as it is. */
  lemma StaticKeptExactly(a: App)
    requires a.isStatic && a.landingPage.Some? && a.landingPage.value.healthCheck.Some?
    requires a.landingPage.value.healthCheck.value.enabled
    ensures var url, built := a.landingPage.value.healthCheck.value.url, BuildHealthCheckConfig(a);
            && (built.Configured? <==> url != "")
            && (built.Configured? ==> built.config.probeURL == url && built.config.trusted)
  {
    hide ClampSeconds, BuildServiceProbe;
  }

  /** Without an enabled check nothing is configured and nothing reported; otherwise one of the two happens. */
  lemma DisabledExactly(a: App)
    ensures BuildHealthCheckConfig(a).Disabled? <==>
            !(a.landingPage.Some? && a.landingPage.value.healthCheck.Some?
              && a.landingPage.value.healthCheck.value.enabled)
  {
    hide ClampSeconds, NormalizePath, TargetProtection, IsDNS1035Label, IsDNS1123Label, ProbeURL;
  }

  // ---- Where the builder and the runner differ -------------------------------

  /** A malformed escape gets past the builder only behind a '?'. */
  lemma EscapePassesBehindQuery(path: string, i: nat)
    requires NormalizePath(path).Some? && i < |path| && path[i] == '%'
    requires !(i + 2 < |path| && IsHex(path[i + 1]) && IsHex(path[i + 2]))
    ensures '?' in path[..i]
  {
    NormalizeExactly(path);
    hide NormalizePath, HasControl;
    var q := IndexOf(path, '?');
    assert q < i;
    assert path[..i][q] == '?';
  }

  function WithPath(a: App, path: string): App
    requires a.landingPage.Some? && a.landingPage.value.healthCheck.Some?
  {
    var lp := a.landingPage.value;
    a.(landingPage := Some(lp.(healthCheck := Some(lp.healthCheck.value.(path := path)))))
  }

  lemma KeptWithPath(a: App, path: string)
    requires !a.isStatic && BuildHealthCheckConfig(a).Configured?
    ensures var b := BuildHealthCheckConfig(WithPath(a, path));
            if NormalizePath(path).Some? then b.Configured? else b == Dropped(BadPath(path))
  {
    hide NormalizePath, TargetProtection, ProbeURL, IsDNS1035Label, IsDNS1123Label, ClampSeconds;
  }

  /**
   For every NebariApp with a check that is kept: with the path "/?#%zz" it is kept too, and the
   runner rejects it; with "/#%zz" the builder drops it.
   */
  lemma RunnerRejectsBehindQuery(a: App)
    requires !a.isStatic && BuildHealthCheckConfig(a).Configured?
    ensures var b := BuildHealthCheckConfig(WithPath(a, "/?#%zz"));
            b.Configured? && ValidateProbeRunnerTarget(b.config.probeURL) == Err(InvalidURL)
    ensures BuildHealthCheckConfig(WithPath(a, "/#%zz")) == Dropped(BadPath("/#%zz"))
  {
    PassesBehindQuery();
    FailsBehindPath();
    KeptWithPath(a, "/?#%zz");
    KeptWithPath(a, "/#%zz");
    hide NormalizePath, ValidateProbeRunnerTarget, EscapesOk, Fragment, TargetOf, BuildServiceProbe;
    RunnerReadsBuiltTarget(WithPath(a, "/?#%zz"));
  }

  lemma PassesBehindQuery()
    ensures NormalizePath("/?#%zz") == Some("/?#%zz") && !EscapesOk(Fragment("/?#%zz"))
  {
    var path := "/?#%zz";
    hide NormalizePath, EscapesOk;
    IndexOfIs(path, '?', 1);
    IndexOfIs(path, '#', 2);
    hide IndexOf;
    assert BeforeQuery(path) == "/" && Fragment(path) == "%zz";
    hide BeforeQuery, Fragment;
    SmallEscapes();
    assert path[1] != '/' && !HasControl(path);
    hide HasControl;
    NormalizeExactly(path);
  }

  lemma SmallEscapes()
    ensures EscapesOk("/") && !EscapesOk("%zz") && !EscapesOk("/#%zz")
  {
    assert "%zz"[0] == '%' && "%zz"[1] == 'z' && "/#%zz"[2] == '%' && "/#%zz"[3] == 'z';
  }

  lemma FailsBehindPath()
    ensures NormalizePath("/#%zz") == None
  {
    var path := "/#%zz";
    hide NormalizePath, EscapesOk, HasControl;
    IndexOfIs(path, '?', |path|);
    hide IndexOf;
    assert BeforeQuery(path) == path;
    hide BeforeQuery;
    SmallEscapes();
    NormalizeExactly(path);
  }
}
