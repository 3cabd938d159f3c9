/** Exactly which URLs the probe runner accepts, whoever sends them. */
module ProbeRunners {
  import opened Wrappers
  import opened Text
  import opened Urls
  import opened ProbeTargets

  predicate Delimiter(c: char)
  {
    c == '/' || c == '?' || c == '#'
  }

  predicate AllLetters(s: string)
  {
    forall i :: 0 <= i < |s| ==> IsAlpha(s[i])
  }

  /**
   `raw` is an HTTP URL with an authority: the scheme in any letter case, nothing unprintable before
   a '#', and no malformed escape in the path or after a '#'.
   */
  ghost predicate HttpURL(raw: string, scheme: string, authority: string, tail: string)
  {
    && raw == scheme + "://" + authority + tail
    && SameWord(scheme, "http")
    && (forall i :: 0 <= i < |authority| ==> !Delimiter(authority[i]))
    && (tail == "" || Delimiter(tail[0]))
    && !HasControl(BeforeFragment(raw))
    && EscapesOk(BeforeQuery(BeforeFragment(tail)))
    && EscapesOk(Fragment(tail))
  }

  lemma HttpLetters(scheme: string)
    requires SameWord(scheme, "http")
    ensures |scheme| == 4 && AllLetters(scheme) && Lower(scheme) == "http"
    ensures '?' !in scheme && '#' !in scheme && scheme[0] != '*'
  {
    LowerExactly(scheme, "http");
    assert Lower("http") == "http";
    forall i | 0 <= i < 4 ensures IsAlpha(scheme[i]) {
      assert SameLetter(scheme[i], "http"[i]);
    }
  }

  lemma {:induction false} SchemeOf(s: string, rest: string, i: nat)
    requires s != "" && AllLetters(s) && i <= |s|
    ensures SchemeFrom(s + ":" + rest, i) == Scheme(s, rest)
    decreases |s| - i
  {
    var raw := s + ":" + rest;
    if i < |s| {
      assert raw[i] == s[i];
      SchemeOf(s, rest, i + 1);
    } else {
      assert raw[..i] == s && raw[i] == ':' && raw[i + 1..] == rest;
    }
  }

  lemma {:induction false} SchemeSplits(raw: string, i: nat)
    requires i <= |raw| && SchemeFrom(raw, i).Scheme?
    ensures var Scheme(name, rest) := SchemeFrom(raw, i); raw == name + ":" + rest && name != ""
    decreases |raw| - i
  {
    if i < |raw| && raw[i] == ':' {
      assert raw == raw[..i] + ":" + raw[i + 1..];
    } else if i < |raw| {
      SchemeSplits(raw, i + 1);
    }
  }

  /** Where the authority ends in what follows "//" and has lost its query. */
  lemma AuthorityCut(authority: string, path: string)
    requires forall i :: 0 <= i < |authority| ==> !Delimiter(authority[i])
    requires path == "" || path[0] == '/'
    ensures var x := authority + path;
            IndexOf(x, '/') == |authority| && x[..|authority|] == authority && x[|authority|..] == path
  {
    IndexOfIs(authority + path, '/', |authority|);
  }

  lemma RestHttp(authority: string, path: string, host: string)
    requires forall i :: 0 <= i < |authority| ==> !Delimiter(authority[i])
    requires path == "" || path[0] == '/'
    requires EscapesOk(path) && ParseAuthority(authority) == Some(host)
    ensures ParseRest("http", "//" + (authority + path), false) == Some(URL("http", host, path))
  {
    AuthorityCut(authority, path);
    RestParses(authority + path);
    hide EscapesOk, ParseAuthority, ParseRest, Delimiter;
  }

  lemma QueryCut(authority: string, t: string)
    requires '?' !in authority
    ensures BeforeQuery("//" + (authority + t)) == "//" + (authority + BeforeQuery(t))
  {
    BeforeQueryOfPrefix(authority, t);
    BeforeQueryOfPrefix("//", authority + t);
    hide BeforeQuery;
  }

  lemma PartsHttp(scheme: string, authority: string, t: string, host: string)
    requires SameWord(scheme, "http") && '?' !in authority
    requires forall i :: 0 <= i < |authority| ==> !Delimiter(authority[i])
    requires BeforeQuery(t) == "" || BeforeQuery(t)[0] == '/'
    requires EscapesOk(BeforeQuery(t)) && !HasControl(scheme + "://" + authority + t)
    requires ParseAuthority(authority) == Some(host)
    ensures ParseParts(scheme + "://" + authority + t, false) == Some(URL("http", host, BeforeQuery(t)))
  {
    hide HasControl, EscapesOk, ParseAuthority, BeforeQuery, SameWord, SchemeFrom, Lower, Delimiter, ParseRest,
         ParseParts, AllLetters;
    HttpLetters(scheme);
    Reassociated(scheme, authority, t);
    var rest := "//" + (authority + t);
    SchemeOf(scheme, rest, 0);
    QueryCut(authority, t);
    PartsOfScheme(scheme + ":" + rest, scheme, rest);
    RestHttp(authority, BeforeQuery(t), host);
  }

  lemma Reassociated(scheme: string, authority: string, t: string)
    ensures scheme + "://" + authority + t == scheme + ":" + ("//" + (authority + t))
    ensures scheme != "" ==> (scheme + ":" + ("//" + (authority + t)))[0] == scheme[0]
  {
  }

  lemma ParsesHttp(raw: string, scheme: string, authority: string, tail: string, host: string)
    requires HttpURL(raw, scheme, authority, tail) && ParseAuthority(authority) == Some(host)
    ensures Parse(raw) == Some(URL("http", host, BeforeQuery(BeforeFragment(tail))))
  {
    var prefix := scheme + "://" + authority;
    HttpLetters(scheme);
    NoDelimiters(prefix, scheme, authority);
    CutStart(tail);
    hide HasControl, EscapesOk, ParseAuthority, BeforeFragment, BeforeQuery, Fragment, SameWord, ParseParts, AllLetters,
         Delimiter;
    FragmentOfPrefix(prefix, tail);
    PartsHttp(scheme, authority, BeforeFragment(tail), host);
  }

  lemma NoDelimiters(prefix: string, scheme: string, authority: string)
    requires prefix == scheme + "://" + authority && '?' !in scheme && '#' !in scheme
    requires forall i :: 0 <= i < |authority| ==> !Delimiter(authority[i])
    ensures '#' !in prefix && '?' !in authority
  {
  }

  /** Without its fragment and query the tail is empty or begins with a slash. */
  lemma CutStart(tail: string)
    requires tail == "" || Delimiter(tail[0])
    ensures var path := BeforeQuery(BeforeFragment(tail)); path == "" || path[0] == '/'
  {
  }

  lemma PartsOfScheme(raw: string, name: string, rest: string)
    requires SchemeFrom(raw, 0) == Scheme(name, rest) && !HasControl(raw) && raw != "*"
    ensures ParseParts(raw, false) == ParseRest(Lower(name), BeforeQuery(rest), false)
  {
    hide HasControl, SchemeFrom, BeforeQuery, ParseRest;
  }


  lemma SchemeRead(cut: string, url: URL)
    requires ParseParts(cut, false) == Some(url) && url.scheme == "http" && url.host != ""
    ensures var scheme := SchemeFrom(cut, 0);
            && scheme.Scheme? && SameWord(scheme.name, "http") && !HasControl(cut)
            && ParseRest("http", BeforeQuery(scheme.rest), false) == Some(url)
  {
    hide HasControl, SchemeFrom, BeforeQuery, ParseAuthorityAndPath, EscapesOk, Lower, SameWord;
    var scheme := SchemeFrom(cut, 0);
    SchemeKept("", BeforeQuery(cut));
    if scheme.Scheme? {
      SchemeKept(Lower(scheme.name), BeforeQuery(scheme.rest));
      LowerExactly(scheme.name, "http");
      LowerHTTP();
    }
    hide ParseRest;
  }

  lemma SchemeKept(scheme: string, rest: string)
    ensures ParseRest(scheme, rest, false).Some? ==> ParseRest(scheme, rest, false).value.scheme == scheme
  {
    hide ParseAuthority, EscapesOk;
  }

  /** The authority of what follows the colon, and that nothing in it ends it early. */
  lemma AuthorityRead(rest: string, url: URL) returns (authority: string)
    requires ParseRest("http", BeforeQuery(rest), false) == Some(url) && url.host != ""
    ensures "//" + authority <= rest && '/' !in authority && '?' !in authority
    ensures ParseAuthority(authority) == Some(url.host)
    ensures var t := rest[2 + |authority|..]; EscapesOk(BeforeQuery(t)) && (t == "" || t[0] == '/' || t[0] == '?')
  {
    hide ParseAuthority, EscapesOk;
    var q := BeforeQuery(rest);
    assert "//" <= q && ParseAuthorityAndPath("http", q[2..]) == Some(url);
    var x := q[2..];
    var slash := IndexOf(x, '/');
    authority := x[..slash];
    assert q == "//" + authority + x[slash..];
    assert rest[..|q|] == q;
    assert rest == "//" + authority + rest[2 + slash..];
    var t := rest[2 + slash..];
    assert '?' !in "//" + authority;
    BeforeQueryOfPrefix("//" + authority, t);
    assert BeforeQuery(t) == x[slash..];
  }

  /** What an HTTP URL that was read looks like. */
  lemma ReadFrom(raw: string, url: URL) returns (scheme: string, authority: string, tail: string)
    requires Parse(raw) == Some(url) && url.scheme == "http" && url.host != ""
    ensures HttpURL(raw, scheme, authority, tail) && ParseAuthority(authority) == Some(url.host)
  {
    hide ParseParts, ParseAuthority, ParseRest, EscapesOk, HasControl, SameWord, SchemeFrom, BeforeQuery,
         BeforeFragment, Fragment, Delimiter, HttpURL;
    var cut := BeforeFragment(raw);
    SchemeRead(cut, url);
    SchemeSplits(cut, 0);
    var rest := SchemeFrom(cut, 0).rest;
    scheme := SchemeFrom(cut, 0).name;
    authority := AuthorityRead(rest, url);
    var t := rest[2 + |authority|..];
    Rejoined(scheme, authority, rest, t);
    tail := FragmentRead(raw, scheme + "://" + authority, t);
    PutTogether(raw, scheme, authority, tail, t);
  }

  lemma Rejoined(scheme: string, authority: string, rest: string, t: string)
    requires "//" + authority <= rest && t == rest[2 + |authority|..]
    ensures scheme + ":" + rest == scheme + "://" + authority + t
  {
    assert rest == "//" + authority + t;
  }

  /** The tail with its fragment, given the part before it. */
  lemma FragmentRead(raw: string, prefix: string, t: string) returns (tail: string)
    requires BeforeFragment(raw) == prefix + t
    ensures raw == prefix + tail && BeforeFragment(tail) == t && Fragment(tail) == Fragment(raw) && '#' !in prefix
  {
    var cut := BeforeFragment(raw);
    assert cut <= raw && '#' !in cut;
    tail := raw[|prefix|..];
    assert raw[..|prefix|] == prefix;
    assert raw == prefix + tail;
    assert forall i :: 0 <= i < |prefix| ==> prefix[i] == cut[i];
    FragmentOfPrefix(prefix, tail);
    hide BeforeFragment, Fragment;
    DropPrefixed(prefix, BeforeFragment(tail), t);
  }

  lemma DropPrefixed(prefix: string, a: string, b: string)
    requires prefix + a == prefix + b
    ensures a == b
  {
    assert (prefix + a)[|prefix|..] == a && (prefix + b)[|prefix|..] == b;
  }

  lemma PutTogether(raw: string, scheme: string, authority: string, tail: string, t: string)
    requires raw == scheme + "://" + authority + tail && SameWord(scheme, "http") && !HasControl(BeforeFragment(raw))
    requires '/' !in authority && '?' !in authority && '#' !in scheme + "://" + authority
    requires t == BeforeFragment(tail) && (t == "" || t[0] == '/' || t[0] == '?')
    requires EscapesOk(BeforeQuery(t)) && EscapesOk(Fragment(tail))
    ensures HttpURL(raw, scheme, authority, tail)
  {
    var prefix := scheme + "://" + authority;
    TailStarts(tail, t);
    forall i | 0 <= i < |authority| ensures !Delimiter(authority[i]) {
      assert prefix[|scheme| + 3 + i] == authority[i];
    }
    hide HasControl, EscapesOk, SameWord, BeforeQuery, BeforeFragment, Fragment, Delimiter;
  }

  lemma TailStarts(tail: string, t: string)
    requires t == BeforeFragment(tail) && (t == "" || t[0] == '/' || t[0] == '?')
    ensures tail == "" || Delimiter(tail[0])
  {
  }

  // ---- Acceptance ------------------------------------------------------------

  /** A host with a port, as the runner takes it apart. */
  ghost predicate HostOf(host: string, target: Target)
  {
    exists name, digits ::
      && host == name + ":" + digits
      && digits != "" && AllDigits(digits) && Value(digits) == target.port && target.port <= MAX_PORT_VALUE
      && AllowedHost(Split(name, '.'), target)
  }

  /** Service and namespace, and nothing after them or "svc" and at least one more label; and not protected. */
  predicate AllowedHost(parts: seq<string>, target: Target)
  {
    && (|parts| == 2 || (|parts| >= 4 && parts[2] == "svc"))
    && target.service == parts[0] && target.namespace == parts[1]
    && IsDNS1035Label(parts[0]) && IsDNS1123Label(parts[1])
    && !IsProtected(parts[0], parts[1], target.port)
  }

  /** What the runner decides once the URL has been read. */
  function Decide(host: string): Result<Target, Rejection>
  {
    var (hostname, portText) := SplitHostPort(host);
    match Atoi(portText)
    case None => Err(NoNumericPort)
    case Some(port) => ValidateHost(Split(hostname, '.'), port)
  }

  lemma DigitsRead(digits: string)
    requires AllDigits(digits)
    ensures Atoi(digits) == if digits != "" && Value(digits) <= MAX_PORT_VALUE then Some(Value(digits)) else None
  {
    if digits != "" {
      assert IsDigit(digits[0]);
    }
  }

  lemma HostTaken(host: string, name: string, digits: string)
    requires host == name + ":" + digits && AllDigits(digits)
    ensures SplitHostPort(host) == (name, digits)
  {
    assert host[|name|] == ':';
    forall j | |name| < j < |host| ensures host[j] != ':' {
      assert host[j] == digits[j - |name| - 1];
    }
    LastIndexOfIs(host, ':', |name|);
    assert host[|name|..] == ":" + digits && host[|name| + 1..] == digits && host[..|name|] == name;
    assert (":" + digits)[1..] == digits;
  }

  lemma DecideExactly(host: string, target: Target)
    ensures Decide(host) == Ok(target) <==> HostOf(host, target)
  {
    hide ValidateHost, Split, IsDNS1035Label, IsDNS1123Label, IsProtected;
    var (hostname, portText) := SplitHostPort(host);
    if Decide(host) == Ok(target) {
      PortFound(host);
      DigitsRead(portText);
      RunnerHostExactly(Split(hostname, '.'), Value(portText), target);
      assert AllowedHost(Split(hostname, '.'), target);
    }
    if HostOf(host, target) {
      var name, digits :| && host == name + ":" + digits
                          && digits != "" && AllDigits(digits) && Value(digits) == target.port
                          && target.port <= MAX_PORT_VALUE && AllowedHost(Split(name, '.'), target);
      HostTaken(host, name, digits);
      DigitsRead(digits);
      RunnerHostExactly(Split(name, '.'), Value(digits), target);
    }
  }

  lemma PortFound(host: string)
    requires Atoi(SplitHostPort(host).1).Some?
    ensures var (hostname, portText) := SplitHostPort(host);
            host == hostname + ":" + portText && portText != "" && AllDigits(portText)
  {
    var colon := LastIndexOf(host, ':');
    assert Atoi("").None?;
    assert colon >= 0 ==> host == host[..colon] + ":" + host[colon + 1..] && host[colon..][1..] == host[colon + 1..];
    hide Atoi;
  }

  /**
   The runner accepts exactly the HTTP URLs of allowed Services: "http" in any letter case, an
   authority that reads as a host with a port, and any path, query and fragment without malformed
   escapes in path and fragment.
   */
  lemma RunnerExactly(raw: string, target: Target)
    ensures ValidateProbeRunnerTarget(raw) == Ok(target) <==>
            exists scheme, authority, tail ::
              && HttpURL(raw, scheme, authority, tail)
              && ParseAuthority(authority).Some? && HostOf(ParseAuthority(authority).value, target)
  {
    hide Parse, HttpURL, ParseAuthority, SplitHostPort, Atoi, ValidateHost, Split, HostOf;
    if ValidateProbeRunnerTarget(raw) == Ok(target) {
      var url := Parse(raw).value;
      var scheme, authority, tail := ReadFrom(raw, url);
      DecideExactly(url.host, target);
    }
    if scheme, authority, tail :| && HttpURL(raw, scheme, authority, tail)
                                  && ParseAuthority(authority).Some?
                                  && HostOf(ParseAuthority(authority).value, target)
    {
      var host := ParseAuthority(authority).value;
      ParsesHttp(raw, scheme, authority, tail, host);
      DecideExactly(host, target);
      HostNotEmpty(host, target);
    }
  }

  lemma HostNotEmpty(host: string, target: Target)
    requires HostOf(host, target)
    ensures host != ""
  {
    hide AllowedHost;
  }

  predicate InfoText(info: string)
  {
    forall i :: 0 <= i < |info| ==>
      'a' <= info[i] <= 'z' || 'A' <= info[i] <= 'Z' || '0' <= info[i] <= '9' || info[i] in "-._:~!$&'()*+,;=%@"
  }

  /** Text that reads as `host`: it unescapes to it, is no IP literal, and what follows its last colon is digits. */
  predicate HostText(written: string, host: string)
  {
    var colon := LastIndexOf(written, ':');
    && UnescapeHost(written) == Some(host)
    && (written == "" || written[0] != '[')
    && (colon >= 0 ==> AllDigits(written[colon + 1..]))
  }

  /** An authority reads as a host if its text after an '@' does and that before it is plain user information. */
  lemma AuthorityExactly(authority: string, host: string)
    ensures var at := LastIndexOf(authority, '@');
            ParseAuthority(authority) == Some(host) <==>
              && HostText(authority[at + 1..], host)
              && (at >= 0 ==> EscapesOk(authority[..at]) && InfoText(authority[..at]))
  {
    hide EscapesOk, ParseAuthority, ParseHost, HostText, UserinfoOk, InfoText, LastIndexOf;
    var at := LastIndexOf(authority, '@');
    AuthorityReads(authority);
    HostExactly(authority[at + 1..], host);
    if at >= 0 { UserinfoExactly(authority[..at]); }
  }

  lemma AuthorityReads(authority: string)
    ensures var at := LastIndexOf(authority, '@');
            ParseAuthority(authority) ==
            if at >= 0 && !UserinfoOk(authority[..at]) then None else ParseHost(authority[at + 1..])
  {
    assert authority[0..] == authority;
    hide ParseHost, UserinfoOk, LastIndexOf;
  }

  lemma HostExactly(written: string, host: string)
    ensures ParseHost(written) == Some(host) <==> HostText(written, host)
  {
    var colon := LastIndexOf(written, ':');
    hide UnescapeHost, AllDigits, LastIndexOf;
    if colon >= 0 {
      PortText(written, colon);
    }
    hide ValidOptionalPort;
  }

  lemma PortText(written: string, colon: nat)
    requires colon < |written| && written[colon] == ':'
    ensures ValidOptionalPort(written[colon..]) <==> AllDigits(written[colon + 1..])
  {
    assert written[colon..][0] == ':' && written[colon..][1..] == written[colon + 1..];
    hide AllDigits;
  }

  lemma UserinfoExactly(info: string)
    ensures UserinfoOk(info) <==> EscapesOk(info) && InfoText(info)
  {
    hide EscapesOk;
  }
}
