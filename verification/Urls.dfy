/**
 The part of Go's URL parser that probe targets go through: `Parse` and
 `ParseRequestURI` with the authority syntax of section 3.2 of RFC 3986.
 */
module Urls {
  import opened Wrappers
  import opened Text

  datatype URL = URL(scheme: string, host: string, path: string)

  predicate IsHex(c: char)
  {
    IsDigit(c) || 'a' <= c <= 'f' || 'A' <= c <= 'F'
  }

  predicate IsAlpha(c: char)
  {
    'a' <= c <= 'z' || 'A' <= c <= 'Z'
  }

  predicate HasControl(s: string)
  {
    exists i :: 0 <= i < |s| && (s[i] < ' ' || s[i] == '\U{7F}')
  }

  /** Every '%' is followed by two hexadecimal digits. */
  predicate EscapesOk(s: string)
  {
    forall i :: 0 <= i < |s| && s[i] == '%' ==> i + 2 < |s| && IsHex(s[i + 1]) && IsHex(s[i + 2])
  }

  function HexValue(c: char): int
    requires IsHex(c)
  {
    if IsDigit(c) then (c - '0') as int
    else if 'a' <= c <= 'f' then (c - 'a') as int + 10
    else (c - 'A') as int + 10
  }

  predicate HostChar(c: char)
  {
    c >= '\U{80}' || IsAlpha(c) || IsDigit(c) || c in "!$&'()*+,;=:[]<>\"-_.~"
  }

  /** A host may escape only bytes above 7F, and "%25". */
  function UnescapeHost(s: string): Option<string>
  {
    if s == "" then Some("")
    else if s[0] == '%' then
      if |s| < 3 || !IsHex(s[1]) || !IsHex(s[2]) then None
      else if HexValue(s[1]) < 8 && s[..3] != "%25" then None
      else
        match UnescapeHost(s[3..])
        case None => None
        case Some(rest) => Some([(16 * HexValue(s[1]) + HexValue(s[2])) as char] + rest)
    else if !HostChar(s[0]) then None
    else
      match UnescapeHost(s[1..])
      case None => None
      case Some(rest) => Some([s[0]] + rest)
  }

  datatype Scheme = NoScheme | Scheme(name: string, rest: string) | BadScheme

  /** The scheme of `raw` when its first `i` characters may belong to one. */
  function SchemeFrom(raw: string, i: nat): Scheme
    requires i <= |raw|
    decreases |raw| - i
  {
    if i == |raw| then NoScheme
    else if IsAlpha(raw[i]) then SchemeFrom(raw, i + 1)
    else if IsDigit(raw[i]) || raw[i] in "+-." then (if i == 0 then NoScheme else SchemeFrom(raw, i + 1))
    else if raw[i] == ':' then (if i == 0 then BadScheme else Scheme(raw[..i], raw[i + 1..]))
    else NoScheme
  }

  predicate ValidOptionalPort(s: string)
  {
    s == "" || (s[0] == ':' && AllDigits(s[1..]))
  }

  /** Bracketed hosts are IP literals, which no probe target is; they are refused here. */
  function ParseHost(host: string): Option<string>
  {
    var colon := LastIndexOf(host, ':');
    if host != "" && host[0] == '[' then None
    else if colon >= 0 && !ValidOptionalPort(host[colon..]) then None
    else UnescapeHost(host)
  }

  predicate UserinfoOk(s: string)
  {
    EscapesOk(s) && forall i :: 0 <= i < |s| ==> IsAlpha(s[i]) || IsDigit(s[i]) || s[i] in "-._:~!$&'()*+,;=%@"
  }

  function ParseAuthority(authority: string): Option<string>
  {
    var at := LastIndexOf(authority, '@');
    if at < 0 then ParseHost(authority)
    else if !UserinfoOk(authority[..at]) then None
    else ParseHost(authority[at + 1..])
  }

  function BeforeQuery(s: string): string
  {
    s[..IndexOf(s, '?')]
  }

  /** `parse`: a URL without a fragment. */
  function ParseParts(raw: string, viaRequest: bool): Option<URL>
  {
    if HasControl(raw) || (raw == "" && viaRequest) then None
    else if raw == "*" then Some(URL("", "", "*"))
    else
      match SchemeFrom(raw, 0)
      case BadScheme => None
      case NoScheme => ParseRest("", BeforeQuery(raw), viaRequest)
      case Scheme(name, rest) => ParseRest(Lower(name), BeforeQuery(rest), viaRequest)
  }

  function ParseRest(scheme: string, rest: string, viaRequest: bool): Option<URL>
  {
    if rest == "" || rest[0] != '/' then
      if scheme != "" then Some(URL(scheme, "", ""))
      else if viaRequest || ':' in rest[..IndexOf(rest, '/')] || !EscapesOk(rest) then None
      else Some(URL(scheme, "", rest))
    else if (scheme != "" || (!viaRequest && !("///" <= rest))) && "//" <= rest then
      ParseAuthorityAndPath(scheme, rest[2..])
    else if EscapesOk(rest) then Some(URL(scheme, "", rest))
    else None
  }

  function ParseAuthorityAndPath(scheme: string, tail: string): Option<URL>
  {
    var slash := IndexOf(tail, '/');
    match ParseAuthority(tail[..slash])
    case None => None
    case Some(host) => if EscapesOk(tail[slash..]) then Some(URL(scheme, host, tail[slash..])) else None
  }

  function BeforeFragment(raw: string): string
  {
    raw[..IndexOf(raw, '#')]
  }

  function Fragment(raw: string): string
  {
    var i := IndexOf(raw, '#');
    if i == |raw| then "" else raw[i + 1..]
  }

  function Parse(raw: string): Option<URL>
  {
    match ParseParts(BeforeFragment(raw), false)
    case None => None
    case Some(url) => if EscapesOk(Fragment(raw)) then Some(url) else None
  }

  /** `ParseRequestURI`: a '#' is an ordinary character. */
  function ParseRequestURI(raw: string): Option<URL>
  {
    ParseParts(raw, true)
  }

  /** `Hostname` and `Port` of a parsed host. */
  function SplitHostPort(host: string): (string, string)
  {
    var colon := LastIndexOf(host, ':');
    if colon >= 0 && ValidOptionalPort(host[colon..]) then (host[..colon], host[colon + 1..]) else (host, "")
  }
}
